// EventProfileService: the reverse mirror rows, sharded by event, one per forward row.
module EventProfiles {
  import opened Common
  import opened Entities
  import opened Database

  /** The unique (eventId, profileId) index of the EventProfiles collection. */
  predicate SameMirrorLink(a: EventProfile, b: EventProfile)
  {
    a.Key() == b.Key()
  }

  /** The (profile, event) pairs the mirror rows hold. */
  function MirrorLinks(m: map<Id, EventProfile>): (r: set<Link>)
    ensures forall l :: l in r <==> exists k :: k in m && m[k].Key() == l
  {
    set k | k in m :: m[k].Key()
  }

  /** Storing a mirror under a fresh key adds exactly its pair to the mirrored links. */
  lemma MirrorLinkAdded(m: map<Id, EventProfile>, k: Id, ep: EventProfile)
    requires k !in m
    ensures MirrorLinks(m[k := ep]) == MirrorLinks(m) + {ep.Key()}
  {
    var next := m[k := ep];
    forall l ensures l in MirrorLinks(next) <==> l in MirrorLinks(m) + {ep.Key()} {
      if l in MirrorLinks(m) {
        var j :| j in m && m[j].Key() == l;
        assert j in next && next[j].Key() == l;
      }
      if l == ep.Key() {
        assert k in next && next[k].Key() == l;
      }
      if l in MirrorLinks(next) {
        var j :| j in next && next[j].Key() == l;
        if j != k {
          assert j in m && m[j].Key() == l;
        }
      }
    }
  }

  /** The pairs of a list of forward rows. */
  function RowLinks(rows: seq<ProfileEvent>): (r: set<Link>)
    ensures forall l :: l in r <==> exists i :: 0 <= i < |rows| && rows[i].Key() == l
  {
    set i | 0 <= i < |rows| :: rows[i].Key()
  }

  /** The rows' pairs are distinct and none of them is in `links`. */
  predicate NewLinks(links: set<Link>, rows: seq<ProfileEvent>)
  {
    (forall i :: 0 <= i < |rows| ==> rows[i].Key() !in links)
      && (forall i, j :: 0 <= i < j < |rows| ==> rows[i].Key() != rows[j].Key())
  }

  /** The filter `ep.EventId == eventId`. */
  function OfEvent(eventId: Id): EventProfile -> bool
  {
    (ep: EventProfile) => ep.eventId == eventId
  }

  /** CreateEventProfileAsync: inserts exactly the given mirror row, in the caller's session. */
  method CreateEventProfile(store: Store, ep: EventProfile, session: Session) returns (r: Result<EventProfile>)
    requires store.Valid()
    modifies store`db, store`nextId, store`trace
    ensures store.Valid() && store.nextId == old(store.nextId) + 1
    ensures r.Success? <==> ep.Key() !in MirrorLinks(old(store.db.eventProfiles))
    ensures r.Success? ==> r.value == ep
    ensures r.Success? ==> store.db == old(store.db).(eventProfiles := old(store.db.eventProfiles)[old(store.nextId) := ep])
    ensures r.Failure? ==> store.db == old(store.db)
    ensures store.trace == old(store.trace) + [Effect.Write(EventProfilesCollection, InsertOneCommand, Some(session))]
  {
    var id := store.NewId();
    var inserted := InsertOne(store.db.eventProfiles, id, ep, SameMirrorLink, EventProfilesCollection);
    if inserted.Failure? {
      store.Emit(Effect.Write(EventProfilesCollection, InsertOneCommand, Some(session)));
      return Failure(inserted.error);
    }
    store.WriteEventProfiles(inserted.value, InsertOneCommand, Some(session));
    r := Success(ep);
  }

  /** The mirror of each forward row, in the same order. */
  function Mirrors(rows: seq<ProfileEvent>): (r: seq<EventProfile>)
    ensures |r| == |rows|
    ensures forall i :: 0 <= i < |rows| ==> r[i].Key() == rows[i].Key()
  {
    seq(|rows|, i requires 0 <= i < |rows| => MirrorOf(rows[i]))
  }

  /** With new, distinct ids, the mirrors of `rows` can go in whole iff their pairs are new and distinct. */
  lemma MirrorsAdmissible(m: map<Id, EventProfile>, ids: seq<Id>, rows: seq<ProfileEvent>)
    requires |ids| == |rows|
    requires forall i :: 0 <= i < |ids| ==> ids[i] !in m
    requires forall i, j :: 0 <= i < j < |ids| ==> ids[i] != ids[j]
    ensures Admissible(m, ids, Mirrors(rows), SameMirrorLink) <==> NewLinks(MirrorLinks(m), rows)
  {
    var ms := Mirrors(rows);
    if NewLinks(MirrorLinks(m), rows) {
      forall i, k | 0 <= i < |ids| && k in m ensures !SameMirrorLink(m[k], ms[i]) {
        assert m[k].Key() in MirrorLinks(m);
      }
    }
    if Admissible(m, ids, ms, SameMirrorLink) {
      forall i | 0 <= i < |rows| ensures rows[i].Key() !in MirrorLinks(m) {
        if rows[i].Key() in MirrorLinks(m) {
          var k :| k in m && m[k].Key() == rows[i].Key();
          assert SameMirrorLink(m[k], ms[i]);
        }
      }
    }
  }

  /** After inserting `docs` under `ids`, the stored pairs are the old ones and the batch's. */
  lemma MirrorLinksAfterBatch(m: map<Id, EventProfile>, next: map<Id, EventProfile>, ids: seq<Id>, rows: seq<ProfileEvent>)
    requires |ids| == |rows|
    requires next.Keys == m.Keys + IdSet(ids)
    requires forall k :: k in m ==> next[k] == m[k]
    requires forall i :: 0 <= i < |ids| ==> next[ids[i]] == Mirrors(rows)[i]
    ensures MirrorLinks(next) == MirrorLinks(m) + RowLinks(rows)
  {
    var ms := Mirrors(rows);
    forall l | l in MirrorLinks(next) ensures l in MirrorLinks(m) + RowLinks(rows) {
      var k :| k in next && next[k].Key() == l;
      if k !in m {
        var i :| 0 <= i < |ids| && ids[i] == k;
        assert rows[i].Key() == l;
      }
    }
    forall l | l in MirrorLinks(m) + RowLinks(rows) ensures l in MirrorLinks(next) {
      if l in MirrorLinks(m) {
        var k :| k in m && m[k].Key() == l;
        assert next[k].Key() == l;
      } else {
        var i :| 0 <= i < |rows| && rows[i].Key() == l;
        assert next[ids[i]].Key() == l;
      }
    }
  }

  /**
   * CreateMultipleEventProfileAsync: the mirror of every given forward row, written in one bulk
   * insert in the caller's session.
   */
  method CreateMultipleEventProfile(store: Store, rows: seq<ProfileEvent>, session: Session) returns (r: Result<seq<EventProfile>>)
    requires store.Valid()
    modifies store`db, store`nextId, store`trace
    ensures store.Valid() && store.nextId == old(store.nextId) + |rows|
    ensures r.Success? <==> NewLinks(MirrorLinks(old(store.db.eventProfiles)), rows)
    ensures r.Success? ==> r.value == Mirrors(rows)
    ensures r.Success? ==> MirrorLinks(store.db.eventProfiles) == MirrorLinks(old(store.db.eventProfiles)) + RowLinks(rows)
    ensures r.Success? ==> StoredAfter(old(store.db.eventProfiles), store.db.eventProfiles, old(store.nextId), Mirrors(rows))
    ensures store.db == old(store.db).(eventProfiles := store.db.eventProfiles)
    ensures store.trace == old(store.trace) + [Effect.Write(EventProfilesCollection, InsertManyCommand, Some(session))]
  {
    var mirrors := Mirrors(rows);
    var start := store.nextId;
    var ids := store.NewIds(|rows|);
    FreshRun(store.db, start, ids);
    RunIds(start, ids);
    MirrorsAdmissible(store.db.eventProfiles, ids, rows);
    var (next, outcome) := InsertMany(store.db.eventProfiles, ids, mirrors, SameMirrorLink, EventProfilesCollection);
    store.WriteEventProfiles(next, InsertManyCommand, Some(session));
    if outcome.Failure? {
      return Failure(outcome.error);
    }
    MirrorLinksAfterBatch(old(store.db.eventProfiles), next, ids, rows);
    RunStored(old(store.db.eventProfiles), next, start, ids, mirrors);
    r := Success(mirrors);
  }

  /**
   * FindAllByEventId: every mirror row of the event, in natural order; InvalidOperationException
   * when there is none.
   */
  function FindAllByEventId(db: Db, eventId: Id): (r: Result<seq<EventProfile>>)
    ensures r.Failure? <==> forall k :: k in db.eventProfiles ==> db.eventProfiles[k].eventId != eventId
    ensures r.Failure? ==> r.error.kind == InvalidOperation
    ensures r.Success? ==> |r.value| == |Matching(db.eventProfiles, OfEvent(eventId))|
    ensures r.Success? ==> forall i :: 0 <= i < |r.value| ==>
      r.value[i].eventId == eventId && r.value[i] in db.eventProfiles.Values
    ensures r.Success? ==> forall k :: k in db.eventProfiles && db.eventProfiles[k].eventId == eventId ==>
      db.eventProfiles[k] in r.value
  {
    var rows := RetrieveMultiple(db.eventProfiles, OfEvent(eventId), None);
    MirrorsOfEvent(db.eventProfiles, eventId, rows);
    if |rows| == 0 then Throw(InvalidOperation, "No event profiles found for EventId: " + IdText(eventId))
    else Success(rows)
  }

  /** The unlimited find by event id yields exactly the event's mirror rows; none iff the event has none. */
  lemma MirrorsOfEvent(m: map<Id, EventProfile>, eventId: Id, rows: seq<EventProfile>)
    requires rows == RetrieveMultiple(m, OfEvent(eventId), None)
    ensures |rows| == |Matching(m, OfEvent(eventId))|
    ensures |rows| == 0 <==> forall k :: k in m ==> m[k].eventId != eventId
    ensures forall i :: 0 <= i < |rows| ==> rows[i].eventId == eventId && rows[i] in m.Values
    ensures forall k :: k in m && m[k].eventId == eventId ==> m[k] in rows
  {
    var f := OfEvent(eventId);
    MatchingEmpty(m, f);
    assert forall i :: 0 <= i < |rows| ==> f(rows[i]) && rows[i] in m.Values;
    assert forall k :: k in m && f(m[k]) ==> m[k] in rows;
  }

  /**
   * GetProfileIdsAsync: the profile of every mirror row of the event, one per row, in natural
   * order; an event without mirrors gives the empty list.
   */
  function GetProfileIds(db: Db, eventId: Id): (r: seq<Id>)
    ensures |r| == |Matching(db.eventProfiles, OfEvent(eventId))|
    ensures forall p :: p in r <==> Link(p, eventId) in MirrorLinks(db.eventProfiles)
  {
    var rows := RetrieveMultiple(db.eventProfiles, OfEvent(eventId), None);
    ProfilesOfMirrors(db.eventProfiles, eventId, rows);
    ProfilesOf(rows)
  }

  /** The profile id of each row, in order. */
  function ProfilesOf(rows: seq<EventProfile>): (r: seq<Id>)
    ensures |r| == |rows| && forall i :: 0 <= i < |rows| ==> r[i] == rows[i].profileId
  {
    seq(|rows|, i requires 0 <= i < |rows| => rows[i].profileId)
  }

  lemma ProfilesOfMirrors(m: map<Id, EventProfile>, eventId: Id, rows: seq<EventProfile>)
    requires forall i :: 0 <= i < |rows| ==> rows[i].eventId == eventId && rows[i] in m.Values
    requires forall k :: k in m && m[k].eventId == eventId ==> m[k] in rows
    ensures forall p :: p in ProfilesOf(rows) <==> Link(p, eventId) in MirrorLinks(m)
  {
    var ids := ProfilesOf(rows);
    forall p ensures p in ids <==> Link(p, eventId) in MirrorLinks(m) {
      if p in ids {
        var i :| 0 <= i < |ids| && ids[i] == p;
        var k :| k in m && m[k] == rows[i];
        assert m[k].Key() == Link(p, eventId);
      }
      if Link(p, eventId) in MirrorLinks(m) {
        var k :| k in m && m[k].Key() == Link(p, eventId);
        var i :| 0 <= i < |rows| && rows[i] == m[k];
        assert ids[i] == p;
      }
    }
  }

  /** FindAlreadyExisting: the given profiles that already have a mirror row for the event. */
  function FindAlreadyExisting(db: Db, ev: Event, profiles: set<Id>): (r: set<Id>)
    ensures forall p :: p in r <==> p in profiles && Link(p, ev.id) in MirrorLinks(db.eventProfiles)
  {
    set p | p in profiles && Link(p, ev.id) in MirrorLinks(db.eventProfiles)
  }
}
