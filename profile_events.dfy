// ProfileEventService: the forward join rows (sharded by profile) that cache an event's times
// and version, their creation together with the mirror rows, the staleness-guarded propagation
// of event updates, and the guarded confirm/decline flips.
module ProfileEvents {
  import opened Common
  import opened Entities
  import opened Database
  import opened EventProfiles

  // ----- the link store and its invariant -----

  /** The unique (profileId, eventId) index of the ProfileEvents collection. */
  predicate SameLink(a: ProfileEvent, b: ProfileEvent)
  {
    a.Key() == b.Key()
  }

  /** The (profile, event) pairs the forward rows hold. */
  function Links(m: map<Id, ProfileEvent>): (r: set<Link>)
    ensures forall l :: l in r <==> exists k :: k in m && m[k].Key() == l
  {
    set k | k in m :: m[k].Key()
  }

  /** Storing a row under a fresh key adds exactly its pair to the links. */
  lemma LinkAdded(m: map<Id, ProfileEvent>, k: Id, pe: ProfileEvent)
    requires k !in m
    ensures Links(m[k := pe]) == Links(m) + {pe.Key()}
  {
    var next := m[k := pe];
    forall l ensures l in Links(next) <==> l in Links(m) + {pe.Key()} {
      if l in Links(m) {
        var j :| j in m && m[j].Key() == l;
        assert j in next && next[j].Key() == l;
      }
      if l == pe.Key() {
        assert k in next && next[k].Key() == l;
      }
      if l in Links(next) {
        var j :| j in next && next[j].Key() == l;
        if j != k {
          assert j in m && m[j].Key() == l;
        }
      }
    }
  }

  /** The forward rows of one event. */
  function RowsOf(m: map<Id, ProfileEvent>, eventId: Id): (r: set<Id>)
    ensures forall k :: k in r <==> k in m && m[k].eventId == eventId
  {
    set k | k in m && m[k].eventId == eventId
  }

  /** The confirmed forward rows of one event. */
  function ConfirmedRowsOf(m: map<Id, ProfileEvent>, eventId: Id): (r: set<Id>)
    ensures forall k :: k in r <==> k in m && m[k].eventId == eventId && m[k].confirmed
  {
    set k | k in m && m[k].eventId == eventId && m[k].confirmed
  }

  /** No two forward rows, and no two mirror rows, share a (profile, event) pair. */
  predicate UniqueLinks(db: Db)
  {
    && (forall i, j :: i in db.profileEvents && j in db.profileEvents && db.profileEvents[i].Key() == db.profileEvents[j].Key() ==> i == j)
    && (forall i, j :: i in db.eventProfiles && j in db.eventProfiles && db.eventProfiles[i].Key() == db.eventProfiles[j].Key() ==> i == j)
  }

  /** Every forward row has its mirror and every mirror its forward row. */
  predicate Mirrored(db: Db)
  {
    Links(db.profileEvents) == MirrorLinks(db.eventProfiles)
  }

  /** Every forward row belongs to a stored event. */
  predicate Referenced(db: Db)
  {
    forall k :: k in db.profileEvents ==> db.profileEvents[k].eventId in db.events
  }

  /** The "minus one" counters of every event count its forward rows and its confirmed ones. */
  predicate Counted(db: Db)
  {
    forall e :: e in db.events ==>
      && db.events[e].totalProfilesMinusOne + 1 == |RowsOf(db.profileEvents, e)|
      && db.events[e].totalConfirmedMinusOne + 1 == |ConfirmedRowsOf(db.profileEvents, e)|
  }

  /** The invariant the event engine keeps across create, share, confirm, decline and propagation. */
  predicate Invariant(db: Db)
  {
    UniqueLinks(db) && Mirrored(db) && Referenced(db) && Counted(db)
  }

  lemma EmptyInvariant()
    ensures Invariant(EmptyDb)
  {
  }

  // ----- counting lemmas -----

  /** Inserting a row under a new id adds it to its event's rows, and to the confirmed ones if it is confirmed. */
  lemma RowAdded(m: map<Id, ProfileEvent>, id: Id, pe: ProfileEvent, e: Id)
    requires id !in m
    ensures |RowsOf(m[id := pe], e)| == |RowsOf(m, e)| + (if pe.eventId == e then 1 else 0)
    ensures |ConfirmedRowsOf(m[id := pe], e)| == |ConfirmedRowsOf(m, e)| + (if pe.eventId == e && pe.confirmed then 1 else 0)
  {
    var m' := m[id := pe];
    if pe.eventId == e {
      assert RowsOf(m', e) == RowsOf(m, e) + {id};
    } else {
      assert RowsOf(m', e) == RowsOf(m, e);
    }
    if pe.eventId == e && pe.confirmed {
      assert ConfirmedRowsOf(m', e) == ConfirmedRowsOf(m, e) + {id};
    } else {
      assert ConfirmedRowsOf(m', e) == ConfirmedRowsOf(m, e);
    }
  }

  /** A sequence of distinct ids has as many elements as its set. */
  lemma {:induction false} DistinctIdsCount(ids: seq<Id>)
    requires forall i, j :: 0 <= i < j < |ids| ==> ids[i] != ids[j]
    ensures |IdSet(ids)| == |ids|
    decreases |ids|
  {
    if ids != [] {
      var rest := ids[1..];
      forall i, j | 0 <= i < j < |rest| ensures rest[i] != rest[j] {
        assert rest[i] == ids[i + 1] && rest[j] == ids[j + 1];
      }
      DistinctIdsCount(rest);
      assert IdSet(ids) == {ids[0]} + IdSet(rest);
      forall i | 0 <= i < |rest| ensures rest[i] != ids[0] {
        assert rest[i] == ids[i + 1];
      }
      assert ids[0] !in IdSet(rest);
    }
  }

  /** New keys holding only unconfirmed rows of `e0` add themselves to `e0`'s rows and nothing else. */
  lemma FreshRowsAdded(m: map<Id, ProfileEvent>, next: map<Id, ProfileEvent>, added: set<Id>, e0: Id, e: Id)
    requires next.Keys == m.Keys + added && added * m.Keys == {}
    requires forall k :: k in m ==> next[k] == m[k]
    requires forall k :: k in added ==> next[k].eventId == e0 && !next[k].confirmed
    ensures RowsOf(next, e) == RowsOf(m, e) + (if e == e0 then added else {})
    ensures ConfirmedRowsOf(next, e) == ConfirmedRowsOf(m, e)
  {
  }

  /**
   * A batch of unconfirmed rows of event `e0` under new, distinct ids adds exactly its size to that
   * event's rows and changes no other count.
   */
  lemma BatchAdded(m: map<Id, ProfileEvent>, next: map<Id, ProfileEvent>, ids: seq<Id>, rows: seq<ProfileEvent>, e0: Id, e: Id)
    requires |ids| == |rows|
    requires forall i :: 0 <= i < |ids| ==> ids[i] !in m
    requires forall i, j :: 0 <= i < j < |ids| ==> ids[i] != ids[j]
    requires next.Keys == m.Keys + IdSet(ids)
    requires forall k :: k in m ==> next[k] == m[k]
    requires forall i :: 0 <= i < |ids| ==> next[ids[i]] == rows[i]
    requires forall i :: 0 <= i < |rows| ==> rows[i].eventId == e0 && !rows[i].confirmed
    ensures |RowsOf(next, e)| == |RowsOf(m, e)| + (if e == e0 then |ids| else 0)
    ensures ConfirmedRowsOf(next, e) == ConfirmedRowsOf(m, e)
  {
    var added := IdSet(ids);
    forall k | k in added ensures k !in m && next[k].eventId == e0 && !next[k].confirmed {
      var i :| 0 <= i < |ids| && ids[i] == k;
    }
    FreshRowsAdded(m, next, added, e0, e);
    DistinctIdsCount(ids);
    assert RowsOf(m, e) * added == {};
  }

  // ----- creation -----

  /** `new ProfileEvent(ev, profileId) { Confirmed = confirmed }`. */
  function NewRow(ev: Event, profileId: Id, now: Time, confirmed: bool): (pe: ProfileEvent)
    ensures pe.Key() == Link(profileId, ev.id) && pe.confirmed == confirmed
    ensures pe.eventUpdatedAt == ev.updatedAt && pe.eventStartTime == ev.startTime && pe.eventEndTime == ev.endTime
    ensures pe.role == EventRole.Viewer
  {
    NewProfileEvent(ev, profileId, now).(confirmed := confirmed)
  }

  /**
   * CreateProfileEventAsync: inserts the forward row for (profileId, ev), then its mirror, both in
   * the caller's session; either insert is rejected when the pair is already stored.
   */
  method CreateProfileEvent(store: Store, ev: Event, profileId: Id, session: Session, confirmed: bool) returns (r: Result<ProfileEvent>)
    requires store.Valid()
    modifies store`db, store`nextId, store`clock, store`trace
    ensures store.Valid() && old(store.nextId) <= store.nextId
    ensures r.Success? <==>
      Link(profileId, ev.id) !in Links(old(store.db.profileEvents)) && Link(profileId, ev.id) !in MirrorLinks(old(store.db.eventProfiles))
    ensures r.Success? ==> r.value == NewRow(ev, profileId, store.clock, confirmed)
    ensures r.Success? ==> store.db == old(store.db).(
      profileEvents := old(store.db.profileEvents)[old(store.nextId) := r.value],
      eventProfiles := old(store.db.eventProfiles)[old(store.nextId) + 1 := MirrorOf(r.value)])
    ensures r.Success? ==> store.nextId == old(store.nextId) + 2
    ensures r.Failure? && Link(profileId, ev.id) in Links(old(store.db.profileEvents)) ==> store.db == old(store.db)
    ensures old(store.db).(profileEvents := store.db.profileEvents, eventProfiles := store.db.eventProfiles) == store.db
    ensures r.Success? ==> store.trace == old(store.trace) + [
      Effect.Write(ProfileEventsCollection, InsertOneCommand, Some(session)),
      Effect.Write(EventProfilesCollection, InsertOneCommand, Some(session))]
  {
    var now := store.Now();
    var pe := NewRow(ev, profileId, now, confirmed);
    var id := store.NewId();
    var inserted := InsertOne(store.db.profileEvents, id, pe, SameLink, ProfileEventsCollection);
    if inserted.Failure? {
      assert Link(profileId, ev.id) in Links(old(store.db.profileEvents)) by {
        var k :| k in store.db.profileEvents && SameLink(store.db.profileEvents[k], pe);
      }
      store.Emit(Effect.Write(ProfileEventsCollection, InsertOneCommand, Some(session)));
      return Failure(inserted.error);
    }
    store.WriteProfileEvents(inserted.value, InsertOneCommand, Some(session));
    var mirrored := CreateEventProfile(store, MirrorOf(pe), session);
    if mirrored.Failure? {
      return Failure(mirrored.error);
    }
    r := Success(pe);
  }

  /**
   * `after` holds the batch `rows` under the ids from `start`, their mirrors under the ids that
   * follow, and every stored row and mirror unchanged.
   */
  ghost predicate BatchStored(before: Db, after: Db, start: Id, rows: seq<ProfileEvent>)
  {
    && StoredAfter(before.profileEvents, after.profileEvents, start, rows)
    && MirrorLinks(after.eventProfiles) == MirrorLinks(before.eventProfiles) + RowLinks(rows)
    && StoredAfter(before.eventProfiles, after.eventProfiles, start + |rows|, Mirrors(rows))
  }

  /**
   * CreateMultipleProfileEventAsync: one row per given profile, built in the set's enumeration
   * order, all bulk-inserted in the caller's session, then all their mirrors.
   */
  method CreateMultipleProfileEvent(store: Store, ev: Event, profileIds: set<Id>, session: Session, confirmed: bool)
    returns (r: Result<seq<ProfileEvent>>)
    requires store.Valid()
    modifies store`db, store`nextId, store`clock, store`trace
    ensures store.Valid() && old(store.nextId) <= store.nextId
    ensures r.Success? <==> Clear(Links(old(store.db.profileEvents)), ev, profileIds) && Clear(MirrorLinks(old(store.db.eventProfiles)), ev, profileIds)
    ensures r.Success? ==> BatchRows(r.value, ev, profileIds, store.clock, confirmed)
    ensures r.Success? ==> NewLinks(Links(old(store.db.profileEvents)), r.value)
    ensures r.Success? ==> BatchStored(old(store.db), store.db, old(store.nextId), r.value)
    ensures old(store.db).(profileEvents := store.db.profileEvents, eventProfiles := store.db.eventProfiles) == store.db
    ensures r.Success? ==> store.trace == old(store.trace) + [
      Effect.Write(ProfileEventsCollection, InsertManyCommand, Some(session)),
      Effect.Write(EventProfilesCollection, InsertManyCommand, Some(session))]
  {
    var now := store.Now();
    var rows := PrepareRows(ev, profileIds, now, confirmed, Links(store.db.profileEvents), MirrorLinks(store.db.eventProfiles));
    var inserted := InsertBatch(store, rows, session);
    if inserted.Failure? {
      return Failure(inserted.error);
    }
    r := Success(rows);
  }

  /**
   * The rows of CreateMultipleProfileEventAsync, one per profile in the set's enumeration order;
   * against either side's stored pairs they are new iff none of the profiles is linked there.
   */
  method PrepareRows(ev: Event, profileIds: set<Id>, now: Time, confirmed: bool, ghost forward: set<Link>, ghost mirror: set<Link>)
    returns (rows: seq<ProfileEvent>)
    ensures BatchRows(rows, ev, profileIds, now, confirmed)
    ensures forall i, j :: 0 <= i < j < |rows| ==> rows[i].Key() != rows[j].Key()
    ensures NewLinks(forward, rows) <==> Clear(forward, ev, profileIds)
    ensures NewLinks(mirror, rows) <==> Clear(mirror, ev, profileIds)
  {
    var order := SortedIds(profileIds);
    rows := BuildRows(ev, order, now, confirmed);
    BuiltRowsBatch(order, profileIds, rows, ev, now, confirmed);
    BatchClear(order, profileIds, rows, ev, forward);
    BatchClear(order, profileIds, rows, ev, mirror);
  }

  /**
   * The two bulk inserts of CreateMultipleProfileEventAsync: the forward rows, then, when they went
   * in, their mirrors; both succeed iff none of the rows' pairs is stored on either side.
   */
  method InsertBatch(store: Store, rows: seq<ProfileEvent>, session: Session) returns (r: Result<()>)
    requires store.Valid()
    requires forall i, j :: 0 <= i < j < |rows| ==> rows[i].Key() != rows[j].Key()
    modifies store`db, store`nextId, store`trace
    ensures store.Valid() && old(store.nextId) <= store.nextId
    ensures r.Success? <==> NewLinks(Links(old(store.db.profileEvents)), rows) && NewLinks(MirrorLinks(old(store.db.eventProfiles)), rows)
    ensures r.Success? ==> BatchStored(old(store.db), store.db, old(store.nextId), rows)
    ensures old(store.db).(profileEvents := store.db.profileEvents, eventProfiles := store.db.eventProfiles) == store.db
    ensures r.Success? ==> store.trace == old(store.trace) + [
      Effect.Write(ProfileEventsCollection, InsertManyCommand, Some(session)),
      Effect.Write(EventProfilesCollection, InsertManyCommand, Some(session))]
  {
    ghost var before := store.db;
    var inserted := InsertRows(store, rows, session);
    if inserted.Failure? {
      return Failure(inserted.error);
    }
    ghost var middle := store.db;
    var mirrors := CreateMultipleEventProfile(store, rows, session);
    if mirrors.Failure? {
      return Failure(mirrors.error);
    }
    assert store.db.profileEvents == middle.profileEvents && middle.eventProfiles == before.eventProfiles;
    r := Success(());
  }

  /**
   * The ordered bulk insert of forward rows with distinct pairs: all go in under the next ids iff
   * none of their pairs is stored; stored rows are never changed.
   */
  method InsertRows(store: Store, rows: seq<ProfileEvent>, session: Session) returns (r: Result<()>)
    requires store.Valid()
    requires forall i, j :: 0 <= i < j < |rows| ==> rows[i].Key() != rows[j].Key()
    modifies store`db, store`nextId, store`trace
    ensures store.Valid() && store.nextId == old(store.nextId) + |rows|
    ensures r.Success? <==> NewLinks(Links(old(store.db.profileEvents)), rows)
    ensures r.Success? ==> StoredAfter(old(store.db.profileEvents), store.db.profileEvents, old(store.nextId), rows)
    ensures forall k :: k in old(store.db.profileEvents) ==> k in store.db.profileEvents && store.db.profileEvents[k] == old(store.db.profileEvents)[k]
    ensures store.db == old(store.db).(profileEvents := store.db.profileEvents)
    ensures store.trace == old(store.trace) + [Effect.Write(ProfileEventsCollection, InsertManyCommand, Some(session))]
  {
    var start := store.nextId;
    var ids := store.NewIds(|rows|);
    InsertedRows(store.db.profileEvents, start, ids, rows);
    var (next, outcome) := InsertMany(store.db.profileEvents, ids, rows, SameLink, ProfileEventsCollection);
    store.WriteProfileEvents(next, InsertManyCommand, Some(session));
    if outcome.Failure? {
      return Failure(outcome.error);
    }
    r := Success(());
  }

  /** The bulk insert of rows with distinct pairs under the ids from `start`, all above the stored keys. */
  lemma InsertedRows(m: map<Id, ProfileEvent>, start: Id, ids: seq<Id>, rows: seq<ProfileEvent>)
    requires KeysBelow(m, start) && |ids| == |rows|
    requires forall i :: 0 <= i < |ids| ==> ids[i] == start + i
    requires forall i, j :: 0 <= i < j < |rows| ==> rows[i].Key() != rows[j].Key()
    ensures var (next, outcome) := InsertMany(m, ids, rows, SameLink, ProfileEventsCollection);
      && (outcome.Success? <==> NewLinks(Links(m), rows))
      && (outcome.Success? ==> StoredAfter(m, next, start, rows))
      && (forall k :: k in m ==> k in next && next[k] == m[k])
      && KeysBelow(next, start + |rows|)
  {
    var (next, outcome) := InsertMany(m, ids, rows, SameLink, ProfileEventsCollection);
    RunIds(start, ids);
    forall i, j | 0 <= i < j < |ids| ensures ids[i] != ids[j] {
    }
    RowsAdmissible(m, ids, rows);
    if outcome.Success? {
      RunStored(m, next, start, ids, rows);
    }
  }

  /** `rows` holds one new row of `ev` for each of the profiles, and nothing else. */
  ghost predicate BatchRows(rows: seq<ProfileEvent>, ev: Event, profileIds: set<Id>, now: Time, confirmed: bool)
  {
    && |rows| == |profileIds|
    && (forall i :: 0 <= i < |rows| ==> rows[i] == NewRow(ev, rows[i].profileId, now, confirmed))
    && (forall p :: p in profileIds <==> exists i :: 0 <= i < |rows| && rows[i].profileId == p)
  }

  /** The foreach of CreateMultipleProfileEventAsync: one new row per profile, in the given order. */
  method BuildRows(ev: Event, order: seq<Id>, now: Time, confirmed: bool) returns (rows: seq<ProfileEvent>)
    ensures |rows| == |order|
    ensures forall i :: 0 <= i < |order| ==> rows[i] == NewRow(ev, order[i], now, confirmed)
  {
    rows := [];
    for i := 0 to |order|
      invariant |rows| == i
      invariant forall j :: 0 <= j < i ==> rows[j] == NewRow(ev, order[j], now, confirmed)
    {
      rows := rows + [NewRow(ev, order[i], now, confirmed)];
    }
  }

  /** None of the profiles is linked to `ev` in `links`. */
  ghost predicate Clear(links: set<Link>, ev: Event, profileIds: set<Id>)
  {
    forall p :: p in profileIds ==> Link(p, ev.id) !in links
  }

  /** Rows built from an enumeration of a set have new pairs iff none of its members is linked. */
  lemma BatchClear(order: seq<Id>, profileIds: set<Id>, rows: seq<ProfileEvent>, ev: Event, links: set<Link>)
    requires Increasing(order) && forall p :: p in profileIds <==> p in order
    requires |rows| == |order| && forall i :: 0 <= i < |order| ==> rows[i].Key() == Link(order[i], ev.id)
    ensures NewLinks(links, rows) <==> Clear(links, ev, profileIds)
    ensures forall i, j :: 0 <= i < j < |rows| ==> rows[i].Key() != rows[j].Key()
  {
    RowsNewLinks(links, rows, ev, order);
  }

  /** The rows built from an enumeration of a set are one new row per member. */
  lemma BuiltRowsBatch(order: seq<Id>, profileIds: set<Id>, rows: seq<ProfileEvent>, ev: Event, now: Time, confirmed: bool)
    requires |order| == |profileIds| && forall p :: p in profileIds <==> p in order
    requires |rows| == |order| && forall i :: 0 <= i < |order| ==> rows[i] == NewRow(ev, order[i], now, confirmed)
    ensures BatchRows(rows, ev, profileIds, now, confirmed)
  {
    forall p | p in profileIds ensures exists i :: 0 <= i < |rows| && rows[i].profileId == p {
      var i :| 0 <= i < |order| && order[i] == p;
      assert rows[i].profileId == p;
    }
  }

  /** Rows built from increasing profiles of one event have distinct pairs, so only `links` can clash. */
  lemma RowsNewLinks(links: set<Link>, rows: seq<ProfileEvent>, ev: Event, order: seq<Id>)
    requires |rows| == |order| && Increasing(order)
    requires forall i :: 0 <= i < |rows| ==> rows[i].Key() == Link(order[i], ev.id)
    ensures NewLinks(links, rows) <==> forall i :: 0 <= i < |order| ==> Link(order[i], ev.id) !in links
  {
    forall i, j | 0 <= i < j < |rows| ensures rows[i].Key() != rows[j].Key() {
      assert order[i] < order[j];
    }
  }

  /** Rows with distinct pairs, under new distinct ids, go in whole iff none of their pairs is stored. */
  lemma RowsAdmissible(m: map<Id, ProfileEvent>, ids: seq<Id>, rows: seq<ProfileEvent>)
    requires |ids| == |rows|
    requires forall i :: 0 <= i < |ids| ==> ids[i] !in m
    requires forall i, j :: 0 <= i < j < |ids| ==> ids[i] != ids[j]
    requires forall i, j :: 0 <= i < j < |rows| ==> rows[i].Key() != rows[j].Key()
    ensures Admissible(m, ids, rows, SameLink) <==> NewLinks(Links(m), rows)
  {
    if NewLinks(Links(m), rows) {
      forall i, k | 0 <= i < |ids| && k in m ensures !SameLink(m[k], rows[i]) {
        assert m[k].Key() in Links(m);
      }
    }
    if Admissible(m, ids, rows, SameLink) {
      forall i | 0 <= i < |rows| ensures rows[i].Key() !in Links(m) {
        if rows[i].Key() in Links(m) {
          var k :| k in m && m[k].Key() == rows[i].Key();
          assert SameLink(m[k], rows[i]);
        }
      }
    }
  }

  // ----- propagation of event updates -----

  /** The filter of PropagateEventUpdatesAsync: one of the profiles, this event, and an older cached version. */
  predicate Stale(pe: ProfileEvent, ev: Event, profileIds: set<Id>)
  {
    pe.profileId in profileIds && pe.eventId == ev.id && pe.eventUpdatedAt < ev.updatedAt
  }

  /** The cached fields after an update from `ev` at instant `now` (the store adds the updatedAt stamp). */
  function Refreshed(pe: ProfileEvent, ev: Event, now: Time): ProfileEvent
  {
    pe.(eventUpdatedAt := ev.updatedAt, eventStartTime := ev.startTime, eventEndTime := ev.endTime, updatedAt := now)
  }

  function StaleFilter(ev: Event, profileIds: set<Id>): ProfileEvent -> bool
  {
    (pe: ProfileEvent) => Stale(pe, ev, profileIds)
  }

  function CacheUpdate(ev: Event): ProfileEvent -> ProfileEvent
  {
    (pe: ProfileEvent) => pe.(eventUpdatedAt := ev.updatedAt, eventStartTime := ev.startTime, eventEndTime := ev.endTime)
  }

  /** The `updatedAt := now` the store adds to updates of BaseDateEntity documents. */
  function StampRow(now: Time): ProfileEvent -> ProfileEvent
  {
    (pe: ProfileEvent) => pe.(updatedAt := now)
  }

  /** The `$set` of the cached fields followed by the store's automatic stamp. */
  function RefreshWith(ev: Event, now: Time): ProfileEvent -> ProfileEvent
  {
    (pe: ProfileEvent) => Refreshed(pe, ev, now)
  }

  /** RefreshWith is the update the store applies for the `$set` of PropagateEventUpdatesAsync. */
  lemma RefreshIsStampedCacheUpdate(ev: Event, now: Time, pe: ProfileEvent)
    ensures Combined(CacheUpdate(ev), Some(StampRow(now)), true)(pe) == RefreshWith(ev, now)(pe)
    ensures RefreshWith(ev, now)(pe).eventUpdatedAt == ev.updatedAt && RefreshWith(ev, now)(pe).updatedAt == now
  {
    assert Combined(CacheUpdate(ev), Some(StampRow(now)), true)(pe) == StampRow(now)(CacheUpdate(ev)(pe));
  }

  /** The UpdateMany of PropagateEventUpdatesAsync, with the automatic stamp. */
  function PropagateRows(m: map<Id, ProfileEvent>, ev: Event, profileIds: set<Id>, now: Time): (r: (map<Id, ProfileEvent>, UpdateResult))
    ensures r.0.Keys == m.Keys
    ensures forall k :: k in m ==> r.0[k] == if Stale(m[k], ev, profileIds) then Refreshed(m[k], ev, now) else m[k]
    ensures r.1.matchedCount == |Matching(m, StaleFilter(ev, profileIds))|
  {
    var r := UpdateMany(m, StaleFilter(ev, profileIds), RefreshWith(ev, now));
    assert forall k :: k in m ==> r.0[k] == if StaleFilter(ev, profileIds)(m[k]) then RefreshWith(ev, now)(m[k]) else m[k];
    r
  }

  /** Propagation never lowers a row's cached version and touches nothing but the cached fields and the stamp. */
  lemma PropagateNeverLowers(m: map<Id, ProfileEvent>, ev: Event, profileIds: set<Id>, now: Time)
    ensures forall k :: k in m ==> m[k].eventUpdatedAt <= PropagateRows(m, ev, profileIds, now).0[k].eventUpdatedAt
    ensures forall k :: k in m ==>
      var pe := PropagateRows(m, ev, profileIds, now).0[k];
      pe.Key() == m[k].Key() && pe.confirmed == m[k].confirmed && pe.role == m[k].role && pe.createdAt == m[k].createdAt
  {
    var r := PropagateRows(m, ev, profileIds, now).0;
    forall k | k in m ensures m[k].eventUpdatedAt <= r[k].eventUpdatedAt {
      if Stale(m[k], ev, profileIds) {
        assert r[k] == Refreshed(m[k], ev, now);
      }
    }
  }

  /** After propagation every row of the event for the given profiles is at least at the event's version. */
  lemma PropagateConverges(m: map<Id, ProfileEvent>, ev: Event, profileIds: set<Id>, now: Time)
    ensures forall k :: k in m && m[k].eventId == ev.id && m[k].profileId in profileIds ==>
      PropagateRows(m, ev, profileIds, now).0[k].eventUpdatedAt >= ev.updatedAt
    ensures forall k :: k in m && Stale(m[k], ev, profileIds) ==>
      var pe := PropagateRows(m, ev, profileIds, now).0[k];
      pe.eventStartTime == ev.startTime && pe.eventEndTime == ev.endTime && pe.eventUpdatedAt == ev.updatedAt
  {
  }

  /** Propagating the same version twice changes nothing the second time. */
  lemma {:induction false} PropagateIdempotent(m: map<Id, ProfileEvent>, ev: Event, profileIds: set<Id>, now: Time, later: Time)
    ensures PropagateRows(PropagateRows(m, ev, profileIds, now).0, ev, profileIds, later).0 == PropagateRows(m, ev, profileIds, now).0
    ensures PropagateRows(PropagateRows(m, ev, profileIds, now).0, ev, profileIds, later).1.matchedCount == 0
  {
    var once := PropagateRows(m, ev, profileIds, now).0;
    var twice := PropagateRows(once, ev, profileIds, later);
    assert forall k :: k in once ==> !Stale(once[k], ev, profileIds);
    assert Matching(once, StaleFilter(ev, profileIds)) == {};
    assert twice.0 == once;
  }

  /** A late update with an older version, after a newer one, changes nothing. */
  lemma PropagateLateIgnored(m: map<Id, ProfileEvent>, v1: Event, v2: Event, s1: set<Id>, s2: set<Id>, t1: Time, t2: Time)
    requires v1.id == v2.id && v1.updatedAt < v2.updatedAt && s1 <= s2
    ensures PropagateRows(PropagateRows(m, v2, s2, t2).0, v1, s1, t1).0 == PropagateRows(m, v2, s2, t2).0
  {
    var only2 := PropagateRows(m, v2, s2, t2).0;
    var late1 := PropagateRows(only2, v1, s1, t1).0;
    forall k | k in m ensures late1[k] == only2[k] {
      assert !Stale(only2[k], v1, s1);
    }
  }

  /** An older update followed by a newer one to a superset of the profiles ends as the newer one alone. */
  lemma PropagateOverridden(m: map<Id, ProfileEvent>, v1: Event, v2: Event, s1: set<Id>, s2: set<Id>, t1: Time, t2: Time)
    requires v1.id == v2.id && v1.updatedAt < v2.updatedAt && s1 <= s2
    ensures PropagateRows(PropagateRows(m, v1, s1, t1).0, v2, s2, t2).0 == PropagateRows(m, v2, s2, t2).0
  {
    var only2 := PropagateRows(m, v2, s2, t2).0;
    var first1 := PropagateRows(m, v1, s1, t1).0;
    var then2 := PropagateRows(first1, v2, s2, t2).0;
    forall k | k in m ensures then2[k] == only2[k] {
      RowOverridden(m[k], v1, v2, s1, s2, t1, t2);
    }
    assert then2.Keys == only2.Keys;
  }

  /** PropagateOverridden for one row. */
  lemma RowOverridden(pe: ProfileEvent, v1: Event, v2: Event, s1: set<Id>, s2: set<Id>, t1: Time, t2: Time)
    requires v1.id == v2.id && v1.updatedAt < v2.updatedAt && s1 <= s2
    ensures var first := if Stale(pe, v1, s1) then Refreshed(pe, v1, t1) else pe;
      (if Stale(first, v2, s2) then Refreshed(first, v2, t2) else first)
        == (if Stale(pe, v2, s2) then Refreshed(pe, v2, t2) else pe)
  {
    if Stale(pe, v1, s1) {
      assert Stale(Refreshed(pe, v1, t1), v2, s2) && Stale(pe, v2, s2);
    }
  }

  /**
   * Propagation is order-insensitive: for two versions v1 older than v2 of one event, applying v2
   * and then the late v1, or v1 and then v2, both leave the rows as v2 alone does.
   */
  lemma PropagateSupersedes(m: map<Id, ProfileEvent>, v1: Event, v2: Event, s1: set<Id>, s2: set<Id>, t1: Time, t2: Time)
    requires v1.id == v2.id && v1.updatedAt < v2.updatedAt && s1 <= s2
    ensures PropagateRows(PropagateRows(m, v2, s2, t2).0, v1, s1, t1).0 == PropagateRows(m, v2, s2, t2).0
    ensures PropagateRows(PropagateRows(m, v1, s1, t1).0, v2, s2, t2).0 == PropagateRows(m, v2, s2, t2).0
  {
    PropagateLateIgnored(m, v1, v2, s1, s2, t1, t2);
    PropagateOverridden(m, v1, v2, s1, s2, t1, t2);
  }

  /** Rewriting rows without moving any of them between pairs keeps the pair set. */
  lemma SameLinks(m: map<Id, ProfileEvent>, m': map<Id, ProfileEvent>)
    requires m'.Keys == m.Keys
    requires forall k :: k in m ==> m'[k].Key() == m[k].Key()
    ensures Links(m') == Links(m)
  {
    forall l | l in Links(m) ensures l in Links(m') {
      var k :| k in m && m[k].Key() == l;
      assert m'[k].Key() == l;
    }
  }

  /** Rewriting rows without changing their pair or confirmation keeps every event's counts. */
  lemma SameCounts(m: map<Id, ProfileEvent>, m': map<Id, ProfileEvent>, e: Id)
    requires m'.Keys == m.Keys
    requires forall k :: k in m ==> m'[k].Key() == m[k].Key() && m'[k].confirmed == m[k].confirmed
    ensures RowsOf(m', e) == RowsOf(m, e) && ConfirmedRowsOf(m', e) == ConfirmedRowsOf(m, e)
  {
  }

  /** Propagation keeps the invariant: it moves no row between events, profiles or confirmation. */
  lemma PropagateKeepsInvariant(db: Db, ev: Event, profileIds: set<Id>, now: Time)
    requires Invariant(db)
    ensures Invariant(db.(profileEvents := PropagateRows(db.profileEvents, ev, profileIds, now).0))
  {
    var m := db.profileEvents;
    var m' := PropagateRows(m, ev, profileIds, now).0;
    PropagateNeverLowers(m, ev, profileIds, now);
    SameLinks(m, m');
    forall e | e in db.events ensures RowsOf(m', e) == RowsOf(m, e) && ConfirmedRowsOf(m', e) == ConfirmedRowsOf(m, e) {
      SameCounts(m, m', e);
    }
  }

  /** The console line of PropagateEventUpdatesAsync: both counts read back from it. */
  function MatchedLine(result: UpdateResult): (line: string)
    ensures StartsWith(line, "Matched ")
  {
    "Matched " + NatText(result.matchedCount) + ", Modified " + NatText(result.modifiedCount)
  }

  /** Both counts read back from the line: the digits after "Matched ", then those after ", Modified ". */
  lemma MatchedLineReadsBack(result: UpdateResult)
    ensures var line := MatchedLine(result);
      var matched := LeadingDigits(line[8..]);
      var k := 8 + |matched|;
      && ParseNat(matched) == result.matchedCount
      && k + 11 <= |line| && line[k..k + 11] == ", Modified "
      && ParseNat(line[k + 11..]) == result.modifiedCount
  {
    var matched, modified := NatText(result.matchedCount), NatText(result.modifiedCount);
    var tail := ", Modified " + modified;
    ParseNatText(result.matchedCount);
    ParseNatText(result.modifiedCount);
    LeadingDigitsOf(matched, tail);
    var line := MatchedLine(result);
    assert line == "Matched " + (matched + tail);
    assert line[8..] == matched + tail;
    var k := 8 + |matched|;
    assert line[k..] == tail;
    assert line[k..k + 11] == tail[..11] == ", Modified ";
    assert line[k + 11..] == tail[11..] == modified;
  }

  /**
   * PropagateEventUpdatesAsync: refreshes the cached event fields of the rows of `ev` for the given
   * profiles whose cached version is older than `ev`'s, then logs the counts.
   */
  method PropagateEventUpdates(store: Store, ev: Event, profileIds: seq<Id>, session: Option<Session>)
    requires store.Valid()
    modifies store`db, store`clock, store`trace
    ensures store.Valid()
    ensures store.db == old(store.db).(profileEvents := PropagateRows(old(store.db.profileEvents), ev, IdSet(profileIds), store.clock).0)
    ensures store.trace == old(store.trace) + [
      Effect.Write(ProfileEventsCollection, UpdateManyCommand, session),
      ConsoleLine(MatchedLine(PropagateRows(old(store.db.profileEvents), ev, IdSet(profileIds), store.clock).1))]
  {
    var now := store.Now();
    var (next, result) := PropagateRows(store.db.profileEvents, ev, IdSet(profileIds), now);
    store.WriteProfileEvents(next, UpdateManyCommand, session);
    store.Emit(ConsoleLine(MatchedLine(result)));
  }

  // ----- lookups and the guarded flips -----

  /** The filter `pe.ProfileId == profileId && pe.EventId == eventId`. */
  function OfLink(profileId: Id, eventId: Id): ProfileEvent -> bool
  {
    (pe: ProfileEvent) => pe.Key() == Link(profileId, eventId)
  }

  /** FindByProfileAndEventId: the forward row of the pair, or null when there is none. */
  function FindByProfileAndEventId(db: Db, profileId: Id, eventId: Id): (r: Option<ProfileEvent>)
    ensures r.None? <==> Link(profileId, eventId) !in Links(db.profileEvents)
    ensures r.Some? ==> r.value.Key() == Link(profileId, eventId) && r.value in db.profileEvents.Values
  {
    RetrieveOrNull(db.profileEvents, OfLink(profileId, eventId))
  }

  /** The filter of the guarded flips: the pair's row, when its `confirmed` differs from `value`. */
  function FlipFilter(profileId: Id, eventId: Id, value: bool): ProfileEvent -> bool
  {
    (pe: ProfileEvent) => pe.Key() == Link(profileId, eventId) && pe.confirmed != value
  }

  function SetConfirmed(value: bool): ProfileEvent -> ProfileEvent
  {
    (pe: ProfileEvent) => pe.(confirmed := value)
  }

  /** The `$set` of `confirmed` followed by the store's automatic stamp. */
  function FlipWith(value: bool, now: Time): ProfileEvent -> ProfileEvent
  {
    (pe: ProfileEvent) => pe.(confirmed := value, updatedAt := now)
  }

  /** FlipWith is the update the store applies for the `$set` of Confirm and Decline. */
  lemma FlipIsStampedSet(value: bool, now: Time, pe: ProfileEvent)
    ensures Combined(SetConfirmed(value), Some(StampRow(now)), true)(pe) == FlipWith(value, now)(pe)
    ensures FlipWith(value, now)(pe).confirmed == value && FlipWith(value, now)(pe).Key() == pe.Key()
  {
    assert Combined(SetConfirmed(value), Some(StampRow(now)), true)(pe) == StampRow(now)(SetConfirmed(value)(pe));
  }

  /** The pair has a forward row whose `confirmed` differs from `value`: the guarded flip changes it. */
  ghost predicate Flippable(m: map<Id, ProfileEvent>, profileId: Id, eventId: Id, value: bool)
  {
    exists k :: k in m && m[k].Key() == Link(profileId, eventId) && m[k].confirmed != value
  }

  /** The UpdateOne of Confirm (`value` true) and Decline (`value` false), with the automatic stamp. */
  function FlipRows(m: map<Id, ProfileEvent>, profileId: Id, eventId: Id, value: bool, now: Time): (r: (map<Id, ProfileEvent>, UpdateResult))
    ensures r.0.Keys == m.Keys
    ensures r.1.modifiedCount > 0 <==> Flippable(m, profileId, eventId, value)
    ensures r.1.modifiedCount == 0 ==> r.0 == m
    ensures r.1.modifiedCount > 0 ==> exists k :: (k in m && m[k].Key() == Link(profileId, eventId) && m[k].confirmed != value
      && r.0 == m[k := m[k].(confirmed := value, updatedAt := now)])
  {
    var u := UpdateOne(m, FlipFilter(profileId, eventId, value), FlipWith(value, now));
    assert u.1.matchedCount != 0 ==> u.1.modifiedCount == 1;
    u
  }

  /** With the unique index, a second flip to the same value reports no change and changes nothing. */
  lemma {:induction false} FlipIdempotent(db: Db, profileId: Id, eventId: Id, value: bool, now: Time, later: Time)
    requires UniqueLinks(db)
    ensures var once := FlipRows(db.profileEvents, profileId, eventId, value, now).0;
      FlipRows(once, profileId, eventId, value, later).1.modifiedCount == 0
      && FlipRows(once, profileId, eventId, value, later).0 == once
  {
    var m := db.profileEvents;
    var first := FlipRows(m, profileId, eventId, value, now);
    var once := first.0;
    if first.1.modifiedCount > 0 {
      var k :| k in m && m[k].Key() == Link(profileId, eventId) && m[k].confirmed != value
        && once == m[k := m[k].(confirmed := value, updatedAt := now)];
      forall j | j in once && once[j].Key() == Link(profileId, eventId) ensures j == k {
        assert m[j].Key() == m[k].Key();
      }
    }
  }

  /** Flipping one row's confirmation moves it into or out of its event's confirmed rows. */
  lemma FlipOne(m: map<Id, ProfileEvent>, k: Id, value: bool, now: Time, e: Id)
    requires k in m && m[k].confirmed != value
    ensures RowsOf(m[k := m[k].(confirmed := value, updatedAt := now)], e) == RowsOf(m, e)
    ensures |ConfirmedRowsOf(m[k := m[k].(confirmed := value, updatedAt := now)], e)| == |ConfirmedRowsOf(m, e)|
      + (if e == m[k].eventId then (if value then 1 else -1) else 0)
  {
    var m' := m[k := m[k].(confirmed := value, updatedAt := now)];
    if e == m[k].eventId && value {
      assert ConfirmedRowsOf(m', e) == ConfirmedRowsOf(m, e) + {k};
    } else if e == m[k].eventId {
      assert ConfirmedRowsOf(m, e) == ConfirmedRowsOf(m', e) + {k};
    } else {
      assert ConfirmedRowsOf(m', e) == ConfirmedRowsOf(m, e);
    }
  }

  /**
   * A flip that changed something moved exactly one row of the event into (`value` true) or out of
   * (`value` false) the confirmed rows; no event's rows and no other event's confirmed rows change.
   */
  lemma FlipCounts(m: map<Id, ProfileEvent>, profileId: Id, eventId: Id, value: bool, now: Time, e: Id)
    ensures RowsOf(FlipRows(m, profileId, eventId, value, now).0, e) == RowsOf(m, e)
    ensures var r := FlipRows(m, profileId, eventId, value, now);
      |ConfirmedRowsOf(r.0, e)| == |ConfirmedRowsOf(m, e)|
        + (if r.1.modifiedCount > 0 && e == eventId then (if value then 1 else -1) else 0)
  {
    var r := FlipRows(m, profileId, eventId, value, now);
    if r.1.modifiedCount > 0 {
      var k :| k in m && m[k].Key() == Link(profileId, eventId) && m[k].confirmed != value
        && r.0 == m[k := m[k].(confirmed := value, updatedAt := now)];
      FlipOne(m, k, value, now, e);
    }
  }

  /** Confirm: sets `confirmed` on the pair's row if it was not; true iff a row changed. */
  method Confirm(store: Store, profileId: Id, eventId: Id, session: Session) returns (changed: bool)
    requires store.Valid()
    modifies store`db, store`clock, store`trace
    ensures store.Valid()
    ensures changed <==> Flippable(old(store.db.profileEvents), profileId, eventId, true)
    ensures !changed ==> store.db == old(store.db)
    ensures store.db == old(store.db).(profileEvents := FlipRows(old(store.db.profileEvents), profileId, eventId, true, store.clock).0)
    ensures store.trace == old(store.trace) + [Effect.Write(ProfileEventsCollection, UpdateOneCommand, Some(session))]
  {
    var now := store.Now();
    var (next, result) := FlipRows(store.db.profileEvents, profileId, eventId, true, now);
    store.WriteProfileEvents(next, UpdateOneCommand, Some(session));
    changed := result.modifiedCount > 0;
  }

  /** Decline: clears `confirmed` on the pair's row if it was set; true iff a row changed. */
  method Decline(store: Store, profileId: Id, eventId: Id, session: Session) returns (changed: bool)
    requires store.Valid()
    modifies store`db, store`clock, store`trace
    ensures store.Valid()
    ensures changed <==> Flippable(old(store.db.profileEvents), profileId, eventId, false)
    ensures !changed ==> store.db == old(store.db)
    ensures store.db == old(store.db).(profileEvents := FlipRows(old(store.db.profileEvents), profileId, eventId, false, store.clock).0)
    ensures store.trace == old(store.trace) + [Effect.Write(ProfileEventsCollection, UpdateOneCommand, Some(session))]
  {
    var now := store.Now();
    var (next, result) := FlipRows(store.db.profileEvents, profileId, eventId, false, now);
    store.WriteProfileEvents(next, UpdateOneCommand, Some(session));
    changed := result.modifiedCount > 0;
  }
}
