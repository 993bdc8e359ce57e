// EventService: events, their sharing with profiles, confirmation, editing and queries. Every
// (profile, event) link is stored twice, as a forward row and as its mirror, and each event keeps
// "minus one" counters of its rows and of its confirmed rows; the lemmas show that create, join,
// share, confirm and decline keep those counters exact.
module Events {
  import opened Common
  import opened Entities
  import opened Database
  import opened EventProfiles
  import opened ProfileEvents
  import Details = EventDetailsStore
  import opened Groups
  import opened MessageQueue
  import opened EventResponses

  // ----- documents, updates and messages -----

  /** CreateEventRequestDto. */
  datatype CreateEventRequest = CreateEventRequest(title: string, description: Option<string>, startTime: Time, endTime: Time)

  /** `new Event { Title, StartTime, EndTime }` stored under `id`: both counters at their default 0. */
  function NewEvent(id: Id, dto: CreateEventRequest, now: Time): (ev: Event)
    ensures ev.id == id && ev.title == dto.title && ev.startTime == dto.startTime && ev.endTime == dto.endTime
    ensures ev.totalProfilesMinusOne == 0 && ev.totalConfirmedMinusOne == 0
    ensures ev.createdAt == now && ev.updatedAt == now
  {
    Event(id, dto.title, now, dto.startTime, dto.endTime, 0, 0, now, now)
  }

  /** An `$inc` of the two counters followed by the store's automatic `updatedAt` stamp. */
  function Increment(profiles: int, confirmed: int, now: Time): Event -> Event
  {
    (e: Event) => e.(totalProfilesMinusOne := e.totalProfilesMinusOne + profiles,
                     totalConfirmedMinusOne := e.totalConfirmedMinusOne + confirmed,
                     updatedAt := now)
  }

  /** The propagation message EventService sends: an `eventUpdate` carrying an UpdateEventPayload, first try. */
  function PropagationMessage(ev: Event, kind: EventUpdateType, actorId: Option<Id>): (m: QueueMessage)
    ensures m.messageType in Handlers && m.payload.UpdateEventPayload? && m.retry == 0
    ensures m.payload.event == ev && m.payload.updateType == kind && m.payload.actorId == actorId
  {
    QueueMessage(EventUpdate, UpdateEventPayload(ev, kind, actorId), 0)
  }

  /** What ExecuteInTransactionAsync logs around a callback that issued `body`. */
  function Transacted<T>(tx: Transaction, body: seq<Effect>, outcome: Result<T>): seq<Effect>
  {
    Opening(tx.session, tx.supported) + body + Closing(tx, outcome)
  }

  /** The log around a callback, regrouped as the calls append to it. */
  lemma TransactedTrace<T>(before: seq<Effect>, tx: Transaction, body: seq<Effect>, outcome: Result<T>)
    ensures before + Transacted(tx, body, outcome) == before + Opening(tx.session, tx.supported) + body + Closing(tx, outcome)
  {
  }

  // ----- the counter invariant under single-row changes -----

  /** An event id not yet stored has no rows and no links. */
  lemma UnlinkedEvent(db: Db, eventId: Id, profileId: Id)
    requires Mirrored(db) && Referenced(db) && eventId !in db.events
    ensures Link(profileId, eventId) !in Links(db.profileEvents)
    ensures Link(profileId, eventId) !in MirrorLinks(db.eventProfiles)
    ensures RowsOf(db.profileEvents, eventId) == {} && ConfirmedRowsOf(db.profileEvents, eventId) == {}
  {
    assert forall k :: k in db.profileEvents ==> db.profileEvents[k].eventId != eventId;
  }

  /**
   * Adding one new pair, as a forward row under `k` and its mirror under `k'`, keeps the links unique
   * and mirrored, and moves the counts of that row's event only.
   */
  lemma OneLinkAdded(db: Db, next: Db, k: Id, k': Id, pe: ProfileEvent)
    requires UniqueLinks(db) && Mirrored(db)
    requires k !in db.profileEvents && k' !in db.eventProfiles
    requires pe.Key() !in Links(db.profileEvents)
    requires next.profileEvents == db.profileEvents[k := pe] && next.eventProfiles == db.eventProfiles[k' := MirrorOf(pe)]
    ensures UniqueLinks(next) && Mirrored(next)
    ensures forall e :: |RowsOf(next.profileEvents, e)| == |RowsOf(db.profileEvents, e)| + (if pe.eventId == e then 1 else 0)
    ensures forall e :: |ConfirmedRowsOf(next.profileEvents, e)| == |ConfirmedRowsOf(db.profileEvents, e)| + (if pe.eventId == e && pe.confirmed then 1 else 0)
  {
    LinkAdded(db.profileEvents, k, pe);
    MirrorLinkAdded(db.eventProfiles, k', MirrorOf(pe));
    forall e ensures |RowsOf(next.profileEvents, e)| == |RowsOf(db.profileEvents, e)| + (if pe.eventId == e then 1 else 0)
      && |ConfirmedRowsOf(next.profileEvents, e)| == |ConfirmedRowsOf(db.profileEvents, e)| + (if pe.eventId == e && pe.confirmed then 1 else 0)
    {
      RowAdded(db.profileEvents, k, pe, e);
    }
  }

  // ----- CreateEventAsync -----

  /** The database after CreateEventAsync's callback: the event, its details, the creator's row and its mirror. */
  function CreatedDb(db: Db, ev: Event, d: EventDetails, pe: ProfileEvent): Db
  {
    var withEvent := db.(events := db.events[ev.id := ev]);
    var withDetails := withEvent.(eventDetails := withEvent.eventDetails[ev.id + 1 := d]);
    withDetails.(
      profileEvents := withDetails.profileEvents[ev.id + 2 := pe],
      eventProfiles := withDetails.eventProfiles[ev.id + 3 := MirrorOf(pe)])
  }

  /** The writes of CreateEventAsync's callback, all in its session. */
  function CreateWrites(session: Session): seq<Effect>
  {
    [Effect.Write(EventsCollection, InsertOneCommand, Some(session)),
     Effect.Write(EventDetailsCollection, InsertOneCommand, Some(session)),
     Effect.Write(ProfileEventsCollection, InsertOneCommand, Some(session)),
     Effect.Write(EventProfilesCollection, InsertOneCommand, Some(session))]
  }

  /** A new event whose one row is the only row added keeps every row on a stored event. */
  lemma CreatedReferenced(db: Db, next: Db, ev: Event, k: Id, pe: ProfileEvent)
    requires Referenced(db) && pe.eventId == ev.id
    requires next.events == db.events[ev.id := ev] && next.profileEvents == db.profileEvents[k := pe]
    ensures Referenced(next)
  {
    forall j | j in next.profileEvents ensures next.profileEvents[j].eventId in next.events {
      if j != k {
        assert j in db.profileEvents;
      }
    }
  }

  /** A new event with zero counters and one confirmed row of its own keeps every event counted. */
  lemma CreatedCounted(db: Db, next: Db, ev: Event, pe: ProfileEvent)
    requires Counted(db) && ev.id !in db.events
    requires ev.totalProfilesMinusOne == 0 && ev.totalConfirmedMinusOne == 0
    requires RowsOf(db.profileEvents, ev.id) == {} && ConfirmedRowsOf(db.profileEvents, ev.id) == {}
    requires pe.eventId == ev.id && pe.confirmed && next.events == db.events[ev.id := ev]
    requires forall e :: |RowsOf(next.profileEvents, e)| == |RowsOf(db.profileEvents, e)| + (if pe.eventId == e then 1 else 0)
    requires forall e :: |ConfirmedRowsOf(next.profileEvents, e)| == |ConfirmedRowsOf(db.profileEvents, e)| + (if pe.eventId == e && pe.confirmed then 1 else 0)
    ensures Counted(next)
  {
    forall e | e in next.events
      ensures next.events[e].totalProfilesMinusOne + 1 == |RowsOf(next.profileEvents, e)|
      ensures next.events[e].totalConfirmedMinusOne + 1 == |ConfirmedRowsOf(next.profileEvents, e)|
    {
      if e != ev.id {
        assert e in db.events && next.events[e] == db.events[e];
      }
    }
  }

  /**
   * Creating an event with zero counters and one confirmed row under fresh ids keeps the invariant:
   * its one row and one confirmed row match its counters, and no other event's counts move.
   */
  lemma CreatedKeepsInvariant(db: Db, ev: Event, d: EventDetails, pe: ProfileEvent, profileId: Id)
    requires Invariant(db)
    requires ev.id !in db.events && ev.id + 2 !in db.profileEvents && ev.id + 3 !in db.eventProfiles
    requires ev.totalProfilesMinusOne == 0 && ev.totalConfirmedMinusOne == 0
    requires pe.Key() == Link(profileId, ev.id) && pe.confirmed
    ensures Invariant(CreatedDb(db, ev, d, pe))
  {
    var next := CreatedDb(db, ev, d, pe);
    UnlinkedEvent(db, ev.id, profileId);
    OneLinkAdded(db, next, ev.id + 2, ev.id + 3, pe);
    CreatedReferenced(db, next, ev, ev.id + 2, pe);
    CreatedCounted(db, next, ev, pe);
  }

  /** The first two inserts of CreateEventAsync's callback: the event, then its details. */
  method InsertEvent(store: Store, dto: CreateEventRequest, now: Time, session: Session) returns (ev: Event, d: EventDetails)
    requires store.Valid()
    modifies store`db, store`nextId, store`clock, store`trace
    ensures store.Valid() && store.nextId == old(store.nextId) + 2
    ensures ev == NewEvent(old(store.nextId), dto, now)
    ensures d == NewEventDetails(ev.id + 1, ev, dto.description, d.createdAt)
    ensures
      var withEvent := old(store.db).(events := old(store.db.events)[ev.id := ev]);
      store.db == withEvent.(eventDetails := withEvent.eventDetails[ev.id + 1 := d])
    ensures store.trace == old(store.trace) + CreateWrites(session)[..2]
  {
    var id := store.NewId();
    ev := NewEvent(id, dto, now);
    var inserted := InsertOne(store.db.events, id, ev, NoIndex(), EventsCollection);
    store.WriteEvents(inserted.value, InsertOneCommand, Some(session));
    d := Details.Create(store, ev, dto.description, session);
  }

  /** The callback of CreateEventAsync: insert the event, then its details, then the creator's confirmed row and mirror. */
  method CreateCallback(store: Store, dto: CreateEventRequest, profileId: Id, now: Time, session: Session)
    returns (r: Result<EventResponse>, ghost ev: Event, ghost d: EventDetails)
    requires store.Valid()
    modifies store`db, store`nextId, store`clock, store`trace
    ensures store.Valid() && old(store.nextId) <= store.nextId
    ensures ev == NewEvent(old(store.nextId), dto, now)
    ensures r.Success? <==>
      Link(profileId, ev.id) !in Links(old(store.db.profileEvents)) && Link(profileId, ev.id) !in MirrorLinks(old(store.db.eventProfiles))
    ensures r.Success? ==>
      && d == NewEventDetails(ev.id + 1, ev, dto.description, d.createdAt)
      && store.db == CreatedDb(old(store.db), ev, d, NewRow(ev, profileId, store.clock, true))
      && r.value == WithDetailsAndRows(ev, d, [NewRow(ev, profileId, store.clock, true)])
      && store.trace == old(store.trace) + CreateWrites(session)
  {
    var event, details := InsertEvent(store, dto, now, session);
    ev, d := event, details;
    var pe := CreateProfileEvent(store, event, profileId, session, true);
    if pe.Failure? {
      return Failure(pe.error), ev, d;
    }
    r := Success(WithDetailsAndRows(event, details, [pe.value]));
  }

  /**
   * CreateEventAsync: the event, its details and the creator's confirmed row are written in one
   * transaction; an empty notification step follows, since SendNotificationAsync does nothing.
   */
  method CreateEvent(store: Store, dto: CreateEventRequest, profileId: Id)
    returns (r: Result<EventResponse>, ghost ev: Event, ghost d: EventDetails)
    requires store.Valid()
    modifies store`db, store`nextId, store`clock, store`sessions, store`trace, store.context`transactionsSupported, store.context`console
    ensures store.Valid() && store.context.transactionsSupported.Some?
    ensures r.Success? <==>
      Link(profileId, ev.id) !in Links(old(store.db.profileEvents)) && Link(profileId, ev.id) !in MirrorLinks(old(store.db.eventProfiles))
    ensures r.Failure? && store.context.transactionsSupported == Some(true) ==> store.db == old(store.db)
    ensures r.Success? ==>
      && ev == NewEvent(old(store.nextId), dto, ev.createdAt)
      && d == NewEventDetails(ev.id + 1, ev, dto.description, d.createdAt)
      && store.db == CreatedDb(old(store.db), ev, d, NewRow(ev, profileId, store.clock, true))
      && r.value == WithDetailsAndRows(ev, d, [NewRow(ev, profileId, store.clock, true)])
    ensures r.Success? ==>
      var tx := Transaction(Session(old(store.sessions)), store.context.transactionsSupported.value, old(store.db));
      store.trace == old(store.trace) + Transacted(tx, CreateWrites(tx.session), r)
  {
    var now := store.Now();
    var tx := store.Begin();
    var outcome;
    outcome, ev, d := CreateCallback(store, dto, profileId, now, tx.session);
    IdsBelowGrows(tx.snapshot, old(store.nextId), store.nextId);
    r := store.End(tx, outcome);
    if r.Success? {
      TransactedTrace(old(store.trace), tx, CreateWrites(tx.session), r);
    }
  }

  /**
   * On a consistent store, CreateEvent cannot fail, and what it stores is consistent again:
   * the new event's id is one no collection uses yet.
   */
  lemma CreateEventKeepsInvariant(db: Db, n: Id, dto: CreateEventRequest, profileId: Id, now: Time, d: EventDetails, later: Time)
    requires Invariant(db) && IdsBelow(db, n)
    ensures Link(profileId, n) !in Links(db.profileEvents) && Link(profileId, n) !in MirrorLinks(db.eventProfiles)
    ensures var ev := NewEvent(n, dto, now);
      Invariant(CreatedDb(db, ev, d, NewRow(ev, profileId, later, true)))
  {
    var ev := NewEvent(n, dto, now);
    assert ev.id !in db.events && ev.id + 2 !in db.profileEvents && ev.id + 3 !in db.eventProfiles by {
      assert KeysBelow(db.events, n) && KeysBelow(db.profileEvents, n) && KeysBelow(db.eventProfiles, n);
    }
    UnlinkedEvent(db, ev.id, profileId);
    CreatedKeepsInvariant(db, ev, d, NewRow(ev, profileId, later, true), profileId);
  }

  // ----- ShareAsync -----

  /** A batch stored under the ids from `start`, all above the stored ones, adds exactly its pairs. */
  lemma BatchLinks(m: map<Id, ProfileEvent>, next: map<Id, ProfileEvent>, start: Id, rows: seq<ProfileEvent>)
    requires KeysBelow(m, start) && StoredAfter(m, next, start, rows)
    ensures Links(next) == Links(m) + RowLinks(rows)
  {
    forall l | l in Links(next) ensures l in Links(m) + RowLinks(rows) {
      var k :| k in next && next[k].Key() == l;
      if k !in m {
        assert next[k] == rows[k - start];
      }
    }
    forall l | l in Links(m) + RowLinks(rows) ensures l in Links(next) {
      if l in Links(m) {
        var k :| k in m && m[k].Key() == l;
        assert next[k].Key() == l;
      } else {
        var i :| 0 <= i < |rows| && rows[i].Key() == l;
        assert next[start + i].Key() == l;
      }
    }
  }

  /** A batch of new, distinct pairs stored above the stored keys keeps the forward pairs unique. */
  lemma BatchUniqueRows(m: map<Id, ProfileEvent>, next: map<Id, ProfileEvent>, start: Id, rows: seq<ProfileEvent>)
    requires KeysBelow(m, start) && StoredAfter(m, next, start, rows) && NewLinks(Links(m), rows)
    requires forall i, j :: i in m && j in m && m[i].Key() == m[j].Key() ==> i == j
    ensures forall i, j :: i in next && j in next && next[i].Key() == next[j].Key() ==> i == j
  {
    forall i, j | i in next && j in next && i != j ensures next[i].Key() != next[j].Key() {
      if i !in m && j !in m {
        assert next[i] == rows[i - start] && next[j] == rows[j - start];
      } else if i !in m {
        assert next[i] == rows[i - start] && m[j].Key() in Links(m);
      } else if j !in m {
        assert next[j] == rows[j - start] && m[i].Key() in Links(m);
      }
    }
  }

  /** The mirrors of such a batch, stored above the stored mirror keys, keep the mirror pairs unique. */
  lemma BatchUniqueMirrors(m: map<Id, EventProfile>, next: map<Id, EventProfile>, start: Id, rows: seq<ProfileEvent>)
    requires KeysBelow(m, start)
    requires StoredAfter(m, next, start, Mirrors(rows))
    requires NewLinks(MirrorLinks(m), rows)
    requires forall i, j :: i in m && j in m && m[i].Key() == m[j].Key() ==> i == j
    ensures forall i, j :: i in next && j in next && next[i].Key() == next[j].Key() ==> i == j
  {
    var ms := Mirrors(rows);
    forall i, j | i in next && j in next && i != j ensures next[i].Key() != next[j].Key() {
      if i !in m && j !in m {
        assert next[i] == ms[i - start] && next[j] == ms[j - start];
      } else if i !in m {
        assert next[i] == ms[i - start] && m[j].Key() in MirrorLinks(m);
      } else if j !in m {
        assert next[j] == ms[j - start] && m[i].Key() in MirrorLinks(m);
      }
    }
  }

  /** Unconfirmed rows of `e0` stored above the stored keys add their number to `e0`'s rows only. */
  lemma BatchCounts(m: map<Id, ProfileEvent>, next: map<Id, ProfileEvent>, start: Id, rows: seq<ProfileEvent>, e0: Id, e: Id)
    requires KeysBelow(m, start) && StoredAfter(m, next, start, rows)
    requires forall i :: 0 <= i < |rows| ==> rows[i].eventId == e0 && !rows[i].confirmed
    ensures |RowsOf(next, e)| == |RowsOf(m, e)| + (if e == e0 then |rows| else 0)
    ensures ConfirmedRowsOf(next, e) == ConfirmedRowsOf(m, e)
  {
    var ids := seq(|rows|, i requires 0 <= i < |rows| => start + i);
    forall k ensures k in next.Keys <==> k in m.Keys + IdSet(ids) {
      if start <= k < start + |rows| {
        assert ids[k - start] == k;
      }
    }
    BatchAdded(m, next, ids, rows, e0, e);
  }

  /** Rows of a stored event, added to a store whose rows all have their event, keep that so. */
  lemma BatchReferenced(db: Db, next: Db, start: Id, rows: seq<ProfileEvent>, eventId: Id)
    requires Referenced(db) && eventId in db.events && db.events.Keys <= next.events.Keys
    requires StoredAfter(db.profileEvents, next.profileEvents, start, rows)
    requires forall i :: 0 <= i < |rows| ==> rows[i].eventId == eventId
    ensures Referenced(next)
  {
    forall k | k in next.profileEvents ensures next.profileEvents[k].eventId in next.events {
      if k !in db.profileEvents {
        assert next.profileEvents[k] == rows[k - start];
      }
    }
  }

  /** Raising the event's profile counter by the number of unconfirmed rows added to it keeps every event counted. */
  lemma BatchCounted(db: Db, next: Db, start: Id, rows: seq<ProfileEvent>, eventId: Id, now: Time)
    requires Counted(db) && eventId in db.events && KeysBelow(db.profileEvents, start)
    requires StoredAfter(db.profileEvents, next.profileEvents, start, rows)
    requires forall i :: 0 <= i < |rows| ==> rows[i].eventId == eventId && !rows[i].confirmed
    requires next.events == db.events[eventId := Increment(|rows|, 0, now)(db.events[eventId])]
    ensures Counted(next)
  {
    forall e | e in next.events
      ensures next.events[e].totalProfilesMinusOne + 1 == |RowsOf(next.profileEvents, e)|
      ensures next.events[e].totalConfirmedMinusOne + 1 == |ConfirmedRowsOf(next.profileEvents, e)|
    {
      BatchCounts(db.profileEvents, next.profileEvents, start, rows, eventId, e);
    }
  }

  /** A batch of new, distinct pairs and their mirrors, stored above every stored key, keeps the links unique and mirrored. */
  lemma BatchLinked(db: Db, next: Db, start: Id, rows: seq<ProfileEvent>)
    requires UniqueLinks(db) && Mirrored(db) && IdsBelow(db, start)
    requires NewLinks(Links(db.profileEvents), rows)
    requires BatchStored(db, next, start, rows)
    ensures UniqueLinks(next) && Mirrored(next)
  {
    assert KeysBelow(db.profileEvents, start) && KeysBelow(db.eventProfiles, start);
    BatchLinks(db.profileEvents, next.profileEvents, start, rows);
    BatchUniqueRows(db.profileEvents, next.profileEvents, start, rows);
    var mirrorStart := start + |rows|;
    assert KeysBelow(db.eventProfiles, mirrorStart);
    BatchUniqueMirrors(db.eventProfiles, next.eventProfiles, mirrorStart, rows);
  }

  /**
   * Sharing an event with a batch of new, unconfirmed rows and their mirrors, stored above every
   * stored key, and raising its profile counter by the batch size keeps the invariant.
   */
  lemma SharedKeepsInvariant(db: Db, next: Db, start: Id, rows: seq<ProfileEvent>, eventId: Id, now: Time)
    requires Invariant(db) && IdsBelow(db, start) && eventId in db.events
    requires NewLinks(Links(db.profileEvents), rows)
    requires forall i :: 0 <= i < |rows| ==> rows[i].eventId == eventId && !rows[i].confirmed
    requires BatchStored(db, next, start, rows)
    requires next.events == db.events[eventId := Increment(|rows|, 0, now)(db.events[eventId])]
    ensures Invariant(next)
  {
    BatchLinked(db, next, start, rows);
    assert KeysBelow(db.profileEvents, start);
    BatchReferenced(db, next, start, rows, eventId);
    BatchCounted(db, next, start, rows, eventId, now);
  }

  /** The other members of every considered group: the profiles a share reaches before de-duplication. */
  function GroupMembers(groups: map<Id, Group>, dtos: seq<ShareRequest>, current: Id): (r: set<Id>)
    ensures forall p :: p in r <==> exists k :: k in Considered(groups, dtos) && p in Others(groups[k], current)
  {
    set k, p | k in Considered(groups, dtos) && p in Others(groups[k], current) :: p
  }

  /** Some considered group does not list the current profile: the share is not allowed. */
  ghost predicate Refused(groups: map<Id, Group>, dtos: seq<ShareRequest>, current: Id)
  {
    exists k :: k in Considered(groups, dtos) && !IsMember(groups[k], current)
  }

  /** The profiles a share adds: the group members that do not yet have a mirror row for the event. */
  function ShareTargets(db: Db, dtos: seq<ShareRequest>, current: Id, eventId: Id): (r: set<Id>)
    ensures forall p :: p in r <==> p in GroupMembers(db.groups, dtos, current) && Link(p, eventId) !in MirrorLinks(db.eventProfiles)
  {
    set p | p in GroupMembers(db.groups, dtos, current) && Link(p, eventId) !in MirrorLinks(db.eventProfiles)
  }

  /** FindAffectedByShare: the members of the requested groups, less those the event already reaches. */
  method FindAffectedByShare(store: Store, dtos: seq<ShareRequest>, profile: Profile, ev: Event) returns (r: Result<set<Id>>)
    ensures r.Failure? <==> Refused(store.db.groups, dtos, profile.id)
    ensures r.Failure? ==> r.error.kind == UnauthorizedAccess
    ensures r.Success? ==> r.value == ShareTargets(store.db, dtos, profile.id, ev.id)
  {
    var profiles := GetProfilesByGroupIds(store, dtos, profile);
    if profiles.Failure? {
      return Failure(profiles.error);
    }
    var existing := FindAlreadyExisting(store.db, ev, profiles.value);
    r := Success(profiles.value - existing);
  }

  /**
   * `after` is `before` with one unconfirmed row per profile and its mirror stored under the ids
   * from `start`, and the event's profile counter raised by their number at time `now`.
   */
  ghost predicate SharedDb(before: Db, after: Db, start: Id, ev: Event, profileIds: set<Id>, rows: seq<ProfileEvent>, rowTime: Time, now: Time)
  {
    && ev.id in before.events
    && BatchRows(rows, ev, profileIds, rowTime, false)
    && NewLinks(Links(before.profileEvents), rows)
    && BatchStored(before, after, start, rows)
    && after.events == before.events[ev.id := Increment(|profileIds|, 0, now)(before.events[ev.id])]
    && after == before.(events := after.events, profileEvents := after.profileEvents, eventProfiles := after.eventProfiles)
  }

  /** The writes and the message of ShareAsync's callback. */
  function ShareWrites(session: Session, shared: Event): seq<Effect>
  {
    [Effect.Write(ProfileEventsCollection, InsertManyCommand, Some(session)),
     Effect.Write(EventProfilesCollection, InsertManyCommand, Some(session)),
     Effect.Write(EventsCollection, FindOneAndUpdateCommand, Some(session)),
     MessageHandled(PropagationMessage(shared, EventUpdateType.Share, None))]
  }

  /**
   * The callback of ShareAsync: one unconfirmed row and mirror per profile, then the event's
   * profile counter raised by their number, then the `share` propagation message.
   */
  method ShareCallback(store: Store, ev: Event, profileIds: set<Id>, session: Session)
    returns (r: Result<Event>, ghost rows: seq<ProfileEvent>, ghost rowTime: Time)
    requires store.Valid()
    modifies store`db, store`nextId, store`clock, store`trace
    ensures store.Valid() && old(store.nextId) <= store.nextId
    ensures r.Success? <==>
      && Clear(Links(old(store.db.profileEvents)), ev, profileIds)
      && Clear(MirrorLinks(old(store.db.eventProfiles)), ev, profileIds)
      && ev.id in old(store.db.events)
    ensures r.Success? ==>
      && SharedDb(old(store.db), store.db, old(store.nextId), ev, profileIds, rows, rowTime, store.clock)
      && r.value == store.db.events[ev.id]
      && store.trace == old(store.trace) + ShareWrites(session, r.value)
  {
    var created := CreateMultipleProfileEvent(store, ev, profileIds, session, false);
    if created.Failure? {
      return Failure(created.error), [], 0;
    }
    rows, rowTime := created.value, store.clock;
    var now := store.Now();
    var (events, updated) := FindOneByIdAndUpdate(store.db.events, ev.id, Increment(|profileIds|, 0, now), EventsCollection);
    store.WriteEvents(events, FindOneAndUpdateCommand, Some(session));
    if updated.Failure? {
      return Failure(updated.error), rows, rowTime;
    }
    var _ := SendPropagationMessage(store, PropagationMessage(updated.value, EventUpdateType.Share, None));
    r := Success(updated.value);
  }

  /** ShareAsync's transaction around its callback. */
  method ShareTransaction(store: Store, ev: Event, profileIds: set<Id>)
    returns (r: Result<Event>, ghost rows: seq<ProfileEvent>, ghost rowTime: Time)
    requires store.Valid()
    modifies store`db, store`nextId, store`clock, store`sessions, store`trace, store.context`transactionsSupported, store.context`console
    ensures store.Valid() && store.context.transactionsSupported.Some?
    ensures r.Success? <==>
      && Clear(Links(old(store.db.profileEvents)), ev, profileIds)
      && Clear(MirrorLinks(old(store.db.eventProfiles)), ev, profileIds)
      && ev.id in old(store.db.events)
    ensures r.Failure? && store.context.transactionsSupported == Some(true) ==> store.db == old(store.db)
    ensures r.Success? ==>
      && SharedDb(old(store.db), store.db, old(store.nextId), ev, profileIds, rows, rowTime, store.clock)
      && r.value == store.db.events[ev.id]
    ensures r.Success? ==>
      var tx := Transaction(Session(old(store.sessions)), store.context.transactionsSupported.value, old(store.db));
      store.trace == old(store.trace) + Transacted(tx, ShareWrites(tx.session, r.value), r)
  {
    var tx := store.Begin();
    var outcome;
    outcome, rows, rowTime := ShareCallback(store, ev, profileIds, tx.session);
    IdsBelowGrows(tx.snapshot, old(store.nextId), store.nextId);
    r := store.End(tx, outcome);
    if r.Success? {
      TransactedTrace(old(store.trace), tx, ShareWrites(tx.session, r.value), r);
    }
  }

  /**
   * ShareAsync: KeyNotFoundException for a missing event and UnauthorizedAccessException for a
   * group that does not list the sharer, both before any write; with no new profile to reach,
   * nothing is written and the stored event is returned; otherwise the transaction runs.
   */
  method Share(store: Store, profile: Profile, eventId: Id, dtos: seq<ShareRequest>)
    returns (r: Result<EventResponse>, ghost rows: seq<ProfileEvent>, ghost rowTime: Time)
    requires store.Valid()
    modifies store`db, store`nextId, store`clock, store`sessions, store`trace, store.context`transactionsSupported, store.context`console
    ensures store.Valid()
    ensures var targets := ShareTargets(old(store.db), dtos, profile.id, eventId);
      r.Failure? <==>
        || eventId !in old(store.db.events)
        || Refused(old(store.db.groups), dtos, profile.id)
        || (targets != {} && !Clear(Links(old(store.db.profileEvents)), old(store.db.events)[eventId], targets))
    ensures r.Failure? && (eventId !in old(store.db.events) || Refused(old(store.db.groups), dtos, profile.id)) ==>
      store.db == old(store.db) && store.trace == old(store.trace)
    ensures r.Failure? && store.context.transactionsSupported == Some(true) ==> store.db == old(store.db)
    ensures r.Success? && ShareTargets(old(store.db), dtos, profile.id, eventId) == {} ==>
      && eventId in old(store.db.events)
      && store.db == old(store.db) && store.trace == old(store.trace)
      && r.value == ResponseOf(old(store.db.events)[eventId])
    ensures r.Success? && ShareTargets(old(store.db), dtos, profile.id, eventId) != {} ==>
      && eventId in old(store.db.events) && store.context.transactionsSupported.Some?
      && var targets := ShareTargets(old(store.db), dtos, profile.id, eventId);
         var ev := old(store.db.events)[eventId];
         var shared := Increment(|targets|, 0, store.clock)(ev);
         var tx := Transaction(Session(old(store.sessions)), store.context.transactionsSupported.value, old(store.db));
         && SharedDb(old(store.db), store.db, old(store.nextId), ev, targets, rows, rowTime, store.clock)
         && r.value == ResponseOf(shared)
         && store.trace == old(store.trace) + Transacted(tx, ShareWrites(tx.session, shared), Success(shared))
  {
    rows, rowTime := [], 0;
    var found := RetrieveById(store.db.events, eventId, EventsCollection);
    if found.Failure? {
      return Failure(found.error), rows, rowTime;
    }
    var ev := found.value;
    var affected := FindAffectedByShare(store, dtos, profile, ev);
    if affected.Failure? {
      return Failure(affected.error), rows, rowTime;
    }
    var profileIds := affected.value;
    if |profileIds| > 0 {
      var shared;
      shared, rows, rowTime := ShareTransaction(store, ev, profileIds);
      if shared.Failure? {
        return Failure(shared.error), rows, rowTime;
      }
      ev := shared.value;
    }
    r := Success(ResponseOf(ev));
  }

  /** On mirrored links a share never meets an existing row: its targets have no mirror for the event yet. */
  lemma ShareTargetsClear(db: Db, dtos: seq<ShareRequest>, current: Id, ev: Event)
    requires Mirrored(db)
    ensures Clear(Links(db.profileEvents), ev, ShareTargets(db, dtos, current, ev.id))
    ensures Clear(MirrorLinks(db.eventProfiles), ev, ShareTargets(db, dtos, current, ev.id))
  {
  }

  /** What a successful share stores keeps the invariant. */
  lemma ShareKeepsInvariant(db: Db, next: Db, start: Id, ev: Event, profileIds: set<Id>, rows: seq<ProfileEvent>, rowTime: Time, now: Time)
    requires Invariant(db) && IdsBelow(db, start)
    requires SharedDb(db, next, start, ev, profileIds, rows, rowTime, now)
    ensures Invariant(next)
  {
    forall i | 0 <= i < |rows| ensures rows[i].eventId == ev.id && !rows[i].confirmed {
      assert rows[i] == NewRow(ev, rows[i].profileId, rowTime, false);
    }
    SharedKeepsInvariant(db, next, start, rows, ev.id, now);
  }

  // ----- CreateAndRetrieveSharedEvent -----

  /**
   * The database after a profile joins an event through a link: its unconfirmed row under `k`,
   * the mirror under `k + 1`, and the event's profile counter raised by one at time `now`.
   */
  function JoinedDb(db: Db, k: Id, ev: Event, pe: ProfileEvent, now: Time): Db
    requires ev.id in db.events
  {
    db.(profileEvents := db.profileEvents[k := pe],
        eventProfiles := db.eventProfiles[k + 1 := MirrorOf(pe)],
        events := db.events[ev.id := Increment(1, 0, now)(db.events[ev.id])])
  }

  /** The writes and the message of CreateAndRetrieveSharedEvent's callback. */
  function JoinWrites(session: Session, joined: Event): seq<Effect>
  {
    [Effect.Write(ProfileEventsCollection, InsertOneCommand, Some(session)),
     Effect.Write(EventProfilesCollection, InsertOneCommand, Some(session)),
     Effect.Write(EventsCollection, FindOneAndUpdateCommand, Some(session)),
     MessageHandled(PropagationMessage(joined, EventUpdateType.Update, None))]
  }

  /** Raising the counter of the event that got one unconfirmed row keeps every event counted. */
  lemma JoinCounted(db: Db, next: Db, ev: Event, pe: ProfileEvent, now: Time)
    requires Counted(db) && ev.id in db.events
    requires pe.eventId == ev.id && !pe.confirmed
    requires next.events == db.events[ev.id := Increment(1, 0, now)(db.events[ev.id])]
    requires forall e :: |RowsOf(next.profileEvents, e)| == |RowsOf(db.profileEvents, e)| + (if pe.eventId == e then 1 else 0)
    requires forall e :: |ConfirmedRowsOf(next.profileEvents, e)| == |ConfirmedRowsOf(db.profileEvents, e)| + (if pe.eventId == e && pe.confirmed then 1 else 0)
    ensures Counted(next)
  {
    forall e | e in next.events
      ensures next.events[e].totalProfilesMinusOne + 1 == |RowsOf(next.profileEvents, e)|
      ensures next.events[e].totalConfirmedMinusOne + 1 == |ConfirmedRowsOf(next.profileEvents, e)|
    {
      assert e in db.events;
    }
  }

  /** A profile joining a stored event it is not yet linked to, under fresh keys, keeps the invariant. */
  lemma JoinKeepsInvariant(db: Db, k: Id, ev: Event, profileId: Id, rowTime: Time, now: Time)
    requires Invariant(db) && ev.id in db.events
    requires k !in db.profileEvents && k + 1 !in db.eventProfiles
    requires Link(profileId, ev.id) !in Links(db.profileEvents)
    ensures Invariant(JoinedDb(db, k, ev, NewRow(ev, profileId, rowTime, false), now))
  {
    var pe := NewRow(ev, profileId, rowTime, false);
    var next := JoinedDb(db, k, ev, pe, now);
    OneLinkAdded(db, next, k, k + 1, pe);
    assert Referenced(next) by {
      forall j | j in next.profileEvents ensures next.profileEvents[j].eventId in next.events {
        if j != k {
          assert j in db.profileEvents;
        }
      }
    }
    JoinCounted(db, next, ev, pe, now);
  }

  /**
   * The callback of CreateAndRetrieveSharedEvent: the profile's unconfirmed row and mirror, the
   * event's profile counter raised by one, then the `update` propagation message.
   */
  method JoinCallback(store: Store, ev: Event, profileId: Id, session: Session)
    returns (r: Result<(ProfileEvent, Event)>, ghost rowTime: Time)
    requires store.Valid()
    modifies store`db, store`nextId, store`clock, store`trace
    ensures store.Valid() && old(store.nextId) <= store.nextId
    ensures r.Success? <==>
      && Link(profileId, ev.id) !in Links(old(store.db.profileEvents))
      && Link(profileId, ev.id) !in MirrorLinks(old(store.db.eventProfiles))
      && ev.id in old(store.db.events)
    ensures r.Success? ==>
      && ev.id in old(store.db.events)
      && r.value.0 == NewRow(ev, profileId, rowTime, false)
      && store.db == JoinedDb(old(store.db), old(store.nextId), ev, r.value.0, store.clock)
      && r.value.1 == store.db.events[ev.id]
      && store.trace == old(store.trace) + JoinWrites(session, r.value.1)
  {
    var created := CreateProfileEvent(store, ev, profileId, session, false);
    if created.Failure? {
      return Failure(created.error), 0;
    }
    rowTime := store.clock;
    var now := store.Now();
    var (events, updated) := FindOneByIdAndUpdate(store.db.events, ev.id, Increment(1, 0, now), EventsCollection);
    store.WriteEvents(events, FindOneAndUpdateCommand, Some(session));
    if updated.Failure? {
      return Failure(updated.error), rowTime;
    }
    var _ := SendPropagationMessage(store, PropagationMessage(updated.value, EventUpdateType.Update, None));
    r := Success((created.value, updated.value));
  }

  /** CreateAndRetrieveSharedEvent's transaction around its callback. */
  method JoinTransaction(store: Store, ev: Event, profileId: Id)
    returns (r: Result<(ProfileEvent, Event)>, ghost rowTime: Time)
    requires store.Valid()
    modifies store`db, store`nextId, store`clock, store`sessions, store`trace, store.context`transactionsSupported, store.context`console
    ensures store.Valid() && store.context.transactionsSupported.Some?
    ensures r.Success? <==>
      && Link(profileId, ev.id) !in Links(old(store.db.profileEvents))
      && Link(profileId, ev.id) !in MirrorLinks(old(store.db.eventProfiles))
      && ev.id in old(store.db.events)
    ensures r.Failure? && store.context.transactionsSupported == Some(true) ==> store.db == old(store.db)
    ensures r.Success? ==>
      && ev.id in old(store.db.events)
      && r.value.0 == NewRow(ev, profileId, rowTime, false)
      && store.db == JoinedDb(old(store.db), old(store.nextId), ev, r.value.0, store.clock)
      && r.value.1 == store.db.events[ev.id]
    ensures r.Success? ==>
      var tx := Transaction(Session(old(store.sessions)), store.context.transactionsSupported.value, old(store.db));
      store.trace == old(store.trace) + Transacted(tx, JoinWrites(tx.session, r.value.1), r)
  {
    var tx := store.Begin();
    var outcome;
    outcome, rowTime := JoinCallback(store, ev, profileId, tx.session);
    IdsBelowGrows(tx.snapshot, old(store.nextId), store.nextId);
    r := store.End(tx, outcome);
    if r.Success? {
      TransactedTrace(old(store.trace), tx, JoinWrites(tx.session, r.value.1), r);
    }
  }

  /**
   * CreateAndRetrieveSharedEvent: a profile opening a shared link gets a row of its own when it
   * has none; KeyNotFoundException when the event or its details are missing, before any write.
   */
  method CreateAndRetrieveSharedEvent(store: Store, eventId: Id, profileId: Id)
    returns (r: Result<EventResponse>, ghost rowTime: Time)
    requires store.Valid()
    modifies store`db, store`nextId, store`clock, store`sessions, store`trace, store.context`transactionsSupported, store.context`console
    ensures store.Valid()
    ensures r.Failure? <==>
      || eventId !in old(store.db.events)
      || Details.RetrieveByEventId(old(store.db), eventId).Failure?
      || (Link(profileId, eventId) !in Links(old(store.db.profileEvents)) && Link(profileId, eventId) in MirrorLinks(old(store.db.eventProfiles)))
    ensures r.Failure? && (eventId !in old(store.db.events) || Details.RetrieveByEventId(old(store.db), eventId).Failure?) ==>
      store.db == old(store.db) && store.trace == old(store.trace)
    ensures r.Failure? && store.context.transactionsSupported == Some(true) ==> store.db == old(store.db)
    ensures r.Success? && Link(profileId, eventId) in Links(old(store.db.profileEvents)) ==>
      && eventId in old(store.db.events)
      && store.db == old(store.db) && store.trace == old(store.trace)
      && r.value == WithDetailsAndRows(old(store.db.events)[eventId], Details.RetrieveByEventId(old(store.db), eventId).value,
                                       [FindByProfileAndEventId(old(store.db), profileId, eventId).value])
    ensures r.Success? && Link(profileId, eventId) !in Links(old(store.db.profileEvents)) ==>
      && eventId in old(store.db.events) && store.context.transactionsSupported.Some?
      && var ev := old(store.db.events)[eventId];
         var pe := NewRow(ev, profileId, rowTime, false);
         var joined := Increment(1, 0, store.clock)(ev);
         var tx := Transaction(Session(old(store.sessions)), store.context.transactionsSupported.value, old(store.db));
         && store.db == JoinedDb(old(store.db), old(store.nextId), ev, pe, store.clock)
         && r.value == WithDetailsAndRows(joined, Details.RetrieveByEventId(old(store.db), eventId).value, [pe])
         && store.trace == old(store.trace) + Transacted(tx, JoinWrites(tx.session, joined), Success((pe, joined)))
  {
    rowTime := 0;
    var found := RetrieveById(store.db.events, eventId, EventsCollection);
    if found.Failure? {
      return Failure(found.error), rowTime;
    }
    var ev := found.value;
    var details := Details.RetrieveByEventId(store.db, eventId);
    if details.Failure? {
      return Failure(details.error), rowTime;
    }
    var pe := FindByProfileAndEventId(store.db, profileId, eventId);
    if pe.Some? {
      return Success(WithDetailsAndRows(ev, details.value, [pe.value])), rowTime;
    }
    var joined;
    joined, rowTime := JoinTransaction(store, ev, profileId);
    if joined.Failure? {
      return Failure(joined.error), rowTime;
    }
    r := Success(WithDetailsAndRows(joined.value.1, details.value, [joined.value.0]));
  }

  // ----- Confirm and Decline -----

  /** The counter move of a confirmation (+1) or a decline (-1). */
  function ConfirmedDelta(value: bool): (d: int)
    ensures d == 1 || d == -1
    ensures value <==> d > 0
  {
    if value then 1 else -1
  }

  /** The update type a confirmation or a decline propagates. */
  function Response(value: bool): EventUpdateType
  {
    if value then EventUpdateType.Confirm else EventUpdateType.Decline
  }

  /** The database after a changed confirmation or decline: the row flipped at `flipTime`, the counter moved at `now`. */
  function FlippedDb(db: Db, profileId: Id, eventId: Id, value: bool, flipTime: Time, now: Time): Db
    requires eventId in db.events
  {
    db.(profileEvents := FlipRows(db.profileEvents, profileId, eventId, value, flipTime).0,
        events := db.events[eventId := Increment(0, ConfirmedDelta(value), now)(db.events[eventId])])
  }

  /** The counter's write and the message of a changed confirmation or decline. */
  function MoveWrites(session: Session, value: bool, profileId: Id, responded: Event): seq<Effect>
  {
    [Effect.Write(EventsCollection, FindOneAndUpdateCommand, Some(session)),
     MessageHandled(PropagationMessage(responded, Response(value), Some(profileId)))]
  }

  /** The writes and the message of a changed confirmation or decline. */
  function FlipWrites(session: Session, value: bool, profileId: Id, responded: Event): seq<Effect>
  {
    [Effect.Write(ProfileEventsCollection, UpdateOneCommand, Some(session))] + MoveWrites(session, value, profileId, responded)
  }

  /** A changed flip keeps the links unique and mirrored: it changes no row's key. */
  lemma FlipLinked(db: Db, profileId: Id, eventId: Id, value: bool, flipTime: Time, now: Time)
    requires UniqueLinks(db) && Mirrored(db) && eventId in db.events
    requires Flippable(db.profileEvents, profileId, eventId, value)
    ensures UniqueLinks(FlippedDb(db, profileId, eventId, value, flipTime, now))
    ensures Mirrored(FlippedDb(db, profileId, eventId, value, flipTime, now))
  {
    var m := db.profileEvents;
    var k := FlipWitness(m, profileId, eventId, value, flipTime);
    var m' := m[k := m[k].(confirmed := value, updatedAt := flipTime)];
    SameLinks(m, m');
    forall i, j | i in m' && j in m' && i != j
      ensures m'[i].Key() != m'[j].Key()
    {
      assert m[i].Key() != m[j].Key();
    }
  }

  /** A changed flip keeps every row on a stored event. */
  lemma FlipReferenced(db: Db, profileId: Id, eventId: Id, value: bool, flipTime: Time, now: Time)
    requires Referenced(db) && eventId in db.events
    requires Flippable(db.profileEvents, profileId, eventId, value)
    ensures Referenced(FlippedDb(db, profileId, eventId, value, flipTime, now))
  {
    var m := db.profileEvents;
    var k := FlipWitness(m, profileId, eventId, value, flipTime);
    var m' := m[k := m[k].(confirmed := value, updatedAt := flipTime)];
    forall j | j in m' ensures m'[j].eventId in db.events {
      assert m[j].eventId in db.events;
    }
  }

  /** A changed flip moves the event's confirmed rows by ConfirmedDelta, and so does its counter. */
  lemma FlipCounted(db: Db, profileId: Id, eventId: Id, value: bool, flipTime: Time, now: Time)
    requires Counted(db) && eventId in db.events
    requires Flippable(db.profileEvents, profileId, eventId, value)
    ensures Counted(FlippedDb(db, profileId, eventId, value, flipTime, now))
  {
    var next := FlippedDb(db, profileId, eventId, value, flipTime, now);
    forall e | e in next.events
      ensures next.events[e].totalProfilesMinusOne + 1 == |RowsOf(next.profileEvents, e)|
      ensures next.events[e].totalConfirmedMinusOne + 1 == |ConfirmedRowsOf(next.profileEvents, e)|
    {
      FlipCounts(db.profileEvents, profileId, eventId, value, flipTime, e);
    }
  }

  /** The row a changed flip rewrites. */
  lemma FlipWitness(m: map<Id, ProfileEvent>, profileId: Id, eventId: Id, value: bool, flipTime: Time) returns (k: Id)
    requires Flippable(m, profileId, eventId, value)
    ensures k in m && m[k].Key() == Link(profileId, eventId) && m[k].confirmed != value
    ensures FlipRows(m, profileId, eventId, value, flipTime).0 == m[k := m[k].(confirmed := value, updatedAt := flipTime)]
  {
    k :| k in m && m[k].Key() == Link(profileId, eventId) && m[k].confirmed != value
      && FlipRows(m, profileId, eventId, value, flipTime).0 == m[k := m[k].(confirmed := value, updatedAt := flipTime)];
  }

  /** A changed confirmation or decline, with the counter moved the same way, keeps the invariant. */
  lemma FlipKeepsInvariant(db: Db, profileId: Id, eventId: Id, value: bool, flipTime: Time, now: Time)
    requires Invariant(db) && eventId in db.events
    requires Flippable(db.profileEvents, profileId, eventId, value)
    ensures Invariant(FlippedDb(db, profileId, eventId, value, flipTime, now))
  {
    FlipLinked(db, profileId, eventId, value, flipTime, now);
    FlipReferenced(db, profileId, eventId, value, flipTime, now);
    FlipCounted(db, profileId, eventId, value, flipTime, now);
  }

  /** The guarded flip of the pair's row, by Confirm (`value` true) or Decline (false) of the row service. */
  method Respond(store: Store, profileId: Id, eventId: Id, value: bool, session: Session) returns (changed: bool)
    requires store.Valid()
    modifies store`db, store`clock, store`trace
    ensures store.Valid()
    ensures changed <==> Flippable(old(store.db.profileEvents), profileId, eventId, value)
    ensures !changed ==> store.db == old(store.db)
    ensures store.db == old(store.db).(profileEvents := FlipRows(old(store.db.profileEvents), profileId, eventId, value, store.clock).0)
    ensures store.trace == old(store.trace) + [Effect.Write(ProfileEventsCollection, UpdateOneCommand, Some(session))]
  {
    if value {
      changed := ProfileEvents.Confirm(store, profileId, eventId, session);
    } else {
      changed := ProfileEvents.Decline(store, profileId, eventId, session);
    }
  }

  /** After a changed row: the event's confirmed counter moved by ConfirmedDelta, then the propagation message. */
  method MoveConfirmed(store: Store, eventId: Id, profileId: Id, value: bool, session: Session) returns (r: Result<Event>)
    requires store.Valid()
    modifies store`db, store`clock, store`trace
    ensures store.Valid()
    ensures r.Failure? <==> eventId !in old(store.db.events)
    ensures r.Failure? ==> store.db == old(store.db) && r.error.kind == KeyNotFound
    ensures r.Failure? ==> store.trace == old(store.trace) + [Effect.Write(EventsCollection, FindOneAndUpdateCommand, Some(session))]
    ensures r.Success? ==>
      && eventId in old(store.db.events)
      && store.db == old(store.db).(events := old(store.db.events)[eventId := Increment(0, ConfirmedDelta(value), store.clock)(old(store.db.events)[eventId])])
      && r.value == store.db.events[eventId]
      && store.trace == old(store.trace) + MoveWrites(session, value, profileId, r.value)
  {
    var now := store.Now();
    var (events, updated) := FindOneByIdAndUpdate(store.db.events, eventId, Increment(0, ConfirmedDelta(value), now), EventsCollection);
    store.WriteEvents(events, FindOneAndUpdateCommand, Some(session));
    if updated.Failure? {
      return Failure(updated.error);
    }
    var _ := SendPropagationMessage(store, PropagationMessage(updated.value, Response(value), Some(profileId)));
    r := updated;
  }

  /**
   * The callback of Confirm (`value` true) and Decline (false): the guarded flip of the pair's row;
   * only when it changed a row, the event's confirmed counter moves and the propagation message goes out.
   */
  method FlipCallback(store: Store, eventId: Id, profileId: Id, value: bool, session: Session)
    returns (r: Result<()>, ghost changed: bool, ghost flipTime: Time, ghost body: seq<Effect>)
    requires store.Valid()
    modifies store`db, store`clock, store`trace
    ensures store.Valid() && store.trace == old(store.trace) + body
    ensures changed <==> Flippable(old(store.db.profileEvents), profileId, eventId, value)
    ensures r.Failure? <==> changed && eventId !in old(store.db.events)
    ensures !changed ==> store.db == old(store.db) && body == [Effect.Write(ProfileEventsCollection, UpdateOneCommand, Some(session))]
    ensures changed && r.Success? ==>
      && eventId in old(store.db.events)
      && store.db == FlippedDb(old(store.db), profileId, eventId, value, flipTime, store.clock)
      && body == FlipWrites(session, value, profileId, store.db.events[eventId])
  {
    var flipped := Respond(store, profileId, eventId, value, session);
    changed, flipTime, body := flipped, store.clock, [Effect.Write(ProfileEventsCollection, UpdateOneCommand, Some(session))];
    r := Success(());
    if flipped {
      var moved := MoveConfirmed(store, eventId, profileId, value, session);
      ghost var moves := if moved.Failure? then [Effect.Write(EventsCollection, FindOneAndUpdateCommand, Some(session))]
        else MoveWrites(session, value, profileId, moved.value);
      Associative(old(store.trace), body, moves);
      body := body + moves;
      if moved.Failure? {
        r := Failure(moved.error);
      }
    }
  }

  /** Confirm's and Decline's transaction around FlipCallback. */
  method FlipTransaction(store: Store, eventId: Id, profileId: Id, value: bool)
    returns (r: Result<()>, ghost changed: bool, ghost flipTime: Time, ghost body: seq<Effect>)
    requires store.Valid()
    modifies store`db, store`clock, store`sessions, store`trace, store.context`transactionsSupported, store.context`console
    ensures store.Valid() && store.context.transactionsSupported.Some?
    ensures changed <==> Flippable(old(store.db.profileEvents), profileId, eventId, value)
    ensures r.Failure? <==> changed && eventId !in old(store.db.events)
    ensures r.Failure? && store.context.transactionsSupported == Some(true) ==> store.db == old(store.db)
    ensures !changed ==> store.db == old(store.db)
    ensures changed && r.Success? ==>
      && eventId in old(store.db.events)
      && store.db == FlippedDb(old(store.db), profileId, eventId, value, flipTime, store.clock)
    ensures r.Success? ==>
      var tx := Transaction(Session(old(store.sessions)), store.context.transactionsSupported.value, old(store.db));
      store.trace == old(store.trace) + Transacted(tx, body, r)
    ensures !changed ==> body == [Effect.Write(ProfileEventsCollection, UpdateOneCommand, Some(Session(old(store.sessions))))]
    ensures changed && r.Success? ==> body == FlipWrites(Session(old(store.sessions)), value, profileId, store.db.events[eventId])
  {
    var tx := store.Begin();
    var outcome;
    outcome, changed, flipTime, body := FlipCallback(store, eventId, profileId, value, tx.session);
    r := store.End(tx, outcome);
    TransactedTrace(old(store.trace), tx, body, r);
  }

  /**
   * Confirm: the profile's row for the event becomes confirmed; only when it was not, the event's
   * confirmed counter rises by one and the `confirm` propagation message names the profile as actor.
   */
  method ConfirmEvent(store: Store, eventId: Id, profileId: Id)
    returns (r: Result<()>, ghost changed: bool, ghost flipTime: Time, ghost body: seq<Effect>)
    requires store.Valid()
    modifies store`db, store`clock, store`sessions, store`trace, store.context`transactionsSupported, store.context`console
    ensures store.Valid() && store.context.transactionsSupported.Some?
    ensures changed <==> Flippable(old(store.db.profileEvents), profileId, eventId, true)
    ensures r.Failure? <==> changed && eventId !in old(store.db.events)
    ensures r.Failure? && store.context.transactionsSupported == Some(true) ==> store.db == old(store.db)
    ensures !changed ==> store.db == old(store.db)
    ensures changed && r.Success? ==>
      && eventId in old(store.db.events)
      && store.db == FlippedDb(old(store.db), profileId, eventId, true, flipTime, store.clock)
    ensures r.Success? ==>
      var tx := Transaction(Session(old(store.sessions)), store.context.transactionsSupported.value, old(store.db));
      store.trace == old(store.trace) + Transacted(tx, body, r)
    ensures !changed ==> body == [Effect.Write(ProfileEventsCollection, UpdateOneCommand, Some(Session(old(store.sessions))))]
    ensures changed && r.Success? ==> body == FlipWrites(Session(old(store.sessions)), true, profileId, store.db.events[eventId])
  {
    r, changed, flipTime, body := FlipTransaction(store, eventId, profileId, true);
  }

  /**
   * Decline: the profile's row for the event becomes unconfirmed; only when it was confirmed, the
   * event's confirmed counter falls by one and the `decline` propagation message names the profile.
   */
  method DeclineEvent(store: Store, eventId: Id, profileId: Id)
    returns (r: Result<()>, ghost changed: bool, ghost flipTime: Time, ghost body: seq<Effect>)
    requires store.Valid()
    modifies store`db, store`clock, store`sessions, store`trace, store.context`transactionsSupported, store.context`console
    ensures store.Valid() && store.context.transactionsSupported.Some?
    ensures changed <==> Flippable(old(store.db.profileEvents), profileId, eventId, false)
    ensures r.Failure? <==> changed && eventId !in old(store.db.events)
    ensures r.Failure? && store.context.transactionsSupported == Some(true) ==> store.db == old(store.db)
    ensures !changed ==> store.db == old(store.db)
    ensures changed && r.Success? ==>
      && eventId in old(store.db.events)
      && store.db == FlippedDb(old(store.db), profileId, eventId, false, flipTime, store.clock)
    ensures r.Success? ==>
      var tx := Transaction(Session(old(store.sessions)), store.context.transactionsSupported.value, old(store.db));
      store.trace == old(store.trace) + Transacted(tx, body, r)
    ensures !changed ==> body == [Effect.Write(ProfileEventsCollection, UpdateOneCommand, Some(Session(old(store.sessions))))]
    ensures changed && r.Success? ==> body == FlipWrites(Session(old(store.sessions)), false, profileId, store.db.events[eventId])
  {
    r, changed, flipTime, body := FlipTransaction(store, eventId, profileId, false);
  }

  /**
   * Responding twice the same way: after a changed flip the row holds the value, so the second
   * Confirm (or Decline) finds nothing to flip, moves no counter and sends no message.
   */
  lemma RepeatedResponseChangesNothing(db: Db, profileId: Id, eventId: Id, value: bool, flipTime: Time, now: Time)
    requires UniqueLinks(db) && eventId in db.events
    ensures !Flippable(FlippedDb(db, profileId, eventId, value, flipTime, now).profileEvents, profileId, eventId, value)
  {
    FlipIdempotent(db, profileId, eventId, value, flipTime, now);
  }

  // ----- UpdateEventAsync -----

  /** UpdateEventRequestDto: the event and the fields to change; a null field is left as it is. */
  datatype UpdateEventRequest = UpdateEventRequest(
    eventId: Id, title: Option<string>, description: Option<string>, startTime: Option<Time>, endTime: Option<Time>)

  /** One `$set` of GetUpdates' list. */
  datatype FieldUpdate = SetTitle(title: string) | SetStartTime(startTime: Time) | SetEndTime(endTime: Time)

  /** The `$set`s GetUpdates collects: one per non-null field among title, start and end, in that order. */
  function UpdatesOf(dto: UpdateEventRequest): seq<FieldUpdate>
  {
    (if dto.title.Some? then [SetTitle(dto.title.value)] else [])
    + (if dto.startTime.Some? then [SetStartTime(dto.startTime.value)] else [])
    + (if dto.endTime.Some? then [SetEndTime(dto.endTime.value)] else [])
  }

  /** GetUpdates: appends a `$set` for each non-null field and nothing else. */
  method GetUpdates(dto: UpdateEventRequest) returns (updates: seq<FieldUpdate>)
    ensures updates == UpdatesOf(dto)
    ensures |updates| <= 3
    ensures updates == [] <==> dto.title.None? && dto.startTime.None? && dto.endTime.None?
    ensures forall t: string :: SetTitle(t) in updates <==> dto.title == Some(t)
    ensures forall t: Time :: SetStartTime(t) in updates <==> dto.startTime == Some(t)
    ensures forall t: Time :: SetEndTime(t) in updates <==> dto.endTime == Some(t)
  {
    updates := [];
    if dto.title.Some? {
      updates := updates + [SetTitle(dto.title.value)];
    }
    if dto.startTime.Some? {
      updates := updates + [SetStartTime(dto.startTime.value)];
    }
    if dto.endTime.Some? {
      updates := updates + [SetEndTime(dto.endTime.value)];
    }
  }

  /** One `$set` applied to a stored event. */
  function Apply(u: FieldUpdate, e: Event): (r: Event)
    ensures r.id == e.id && r.timestamp == e.timestamp && r.updatedAt == e.updatedAt
    ensures r.totalProfilesMinusOne == e.totalProfilesMinusOne && r.totalConfirmedMinusOne == e.totalConfirmedMinusOne
  {
    match u
    case SetTitle(t) => e.(title := t)
    case SetStartTime(t) => e.(startTime := t)
    case SetEndTime(t) => e.(endTime := t)
  }

  /** `Update.Combine` of a list of `$set`s, applied in order. */
  function ApplyAll(us: seq<FieldUpdate>, e: Event): (r: Event)
    ensures r.id == e.id && r.timestamp == e.timestamp && r.updatedAt == e.updatedAt
    ensures r.totalProfilesMinusOne == e.totalProfilesMinusOne && r.totalConfirmedMinusOne == e.totalConfirmedMinusOne
    decreases |us|
  {
    if us == [] then e else ApplyAll(us[1..], Apply(us[0], e))
  }

  /** The combined update as the store runs it: the given fields set, the rest kept, `updatedAt` stamped. */
  function UpdateWith(dto: UpdateEventRequest, now: Time): Event -> Event
  {
    (e: Event) => e.(title := if dto.title.Some? then dto.title.value else e.title,
                     startTime := if dto.startTime.Some? then dto.startTime.value else e.startTime,
                     endTime := if dto.endTime.Some? then dto.endTime.value else e.endTime,
                     updatedAt := now)
  }

  /** Combining GetUpdates' list and stamping it sets exactly the non-null fields of the request. */
  lemma {:induction false} CombinedUpdates(dto: UpdateEventRequest, e: Event, now: Time)
    ensures ApplyAll(UpdatesOf(dto), e).(updatedAt := now) == UpdateWith(dto, now)(e)
  {
    var t := if dto.title.Some? then [SetTitle(dto.title.value)] else [];
    var st := if dto.startTime.Some? then [SetStartTime(dto.startTime.value)] else [];
    var en := if dto.endTime.Some? then [SetEndTime(dto.endTime.value)] else [];
    ApplyConcat(t, st + en, e);
    ApplyConcat(st, en, ApplyAll(t, e));
    assert UpdatesOf(dto) == t + (st + en);
  }

  /** Applying a concatenation applies its parts in turn. */
  lemma {:induction false} ApplyConcat(a: seq<FieldUpdate>, b: seq<FieldUpdate>, e: Event)
    ensures ApplyAll(a + b, e) == ApplyAll(b, ApplyAll(a, e))
    decreases |a|
  {
    if a != [] {
      assert (a + b)[1..] == a[1..] + b;
      ApplyConcat(a[1..], b, Apply(a[0], e));
    } else {
      assert a + b == b;
    }
  }

  /** The details record a description edit returns: the event's first record after the edit, or null. */
  function Described(db: Db, dto: UpdateEventRequest, detailsTime: Time): Option<EventDetails>
  {
    if dto.description.Some? then FindOneAndUpdate(db.eventDetails, Details.OfEvent(dto.eventId), Details.DescribeWith(dto.description.value, detailsTime)).1
    else None
  }

  /** The events after the combined update: only the edited event changes, and only when a field is given. */
  function EditedEvents(events: map<Id, Event>, dto: UpdateEventRequest, now: Time): (r: map<Id, Event>)
    requires dto.eventId in events
    ensures r.Keys == events.Keys
    ensures forall e :: e in events ==>
      && r[e].totalProfilesMinusOne == events[e].totalProfilesMinusOne
      && r[e].totalConfirmedMinusOne == events[e].totalConfirmedMinusOne
  {
    if UpdatesOf(dto) != [] then events[dto.eventId := UpdateWith(dto, now)(events[dto.eventId])] else events
  }

  /** The details after the description edit, when the request carries one. */
  function DescribedDetails(details: map<Id, EventDetails>, dto: UpdateEventRequest, detailsTime: Time): map<Id, EventDetails>
  {
    if dto.description.Some?
    then FindOneAndUpdate(details, Details.OfEvent(dto.eventId), Details.DescribeWith(dto.description.value, detailsTime)).0
    else details
  }

  /** The database after UpdateEventAsync: the description edited at `detailsTime`, the event's fields set at `now`. */
  function UpdatedDb(db: Db, dto: UpdateEventRequest, detailsTime: Time, now: Time): Db
    requires dto.eventId in db.events
  {
    db.(eventDetails := DescribedDetails(db.eventDetails, dto, detailsTime), events := EditedEvents(db.events, dto, now))
  }

  /** The write of the description edit, when the request carries one. */
  function DescribeWrites(session: Session, dto: UpdateEventRequest): seq<Effect>
  {
    if dto.description.Some? then [Effect.Write(EventDetailsCollection, FindOneAndUpdateCommand, Some(session))] else []
  }

  /** The write and the `update` message of the field edit, when the request sets a field. */
  function EditWrites(session: Session, dto: UpdateEventRequest, updated: Event): seq<Effect>
  {
    if UpdatesOf(dto) != [] then
      [Effect.Write(EventsCollection, FindOneAndUpdateCommand, Some(session)),
       MessageHandled(PropagationMessage(updated, EventUpdateType.Update, None))]
    else []
  }

  /** The writes and the message of UpdateEventAsync's callback. */
  function UpdateWrites(session: Session, dto: UpdateEventRequest, updated: Event): seq<Effect>
  {
    DescribeWrites(session, dto) + EditWrites(session, dto, updated)
  }

  /** The response: the event with the edited details record when there is one. */
  function UpdateResponse(ev: Event, details: Option<EventDetails>): (r: EventResponse)
    ensures r.(eventDetails := None) == ResponseOf(ev)
    ensures r.eventDetails.Some? <==> details.Some?
    ensures details.Some? ==> r.eventDetails == Some(EventDetailsDtoOf(details.value))
  {
    if details.Some? then WithDetails(ev, details.value) else ResponseOf(ev)
  }

  /** A change to events that keeps every event and its two counters keeps the invariant. */
  lemma SameCountersKeepInvariant(db: Db, next: Db)
    requires Invariant(db)
    requires next.profileEvents == db.profileEvents && next.eventProfiles == db.eventProfiles
    requires next.events.Keys == db.events.Keys
    requires forall e :: e in db.events ==>
      && next.events[e].totalProfilesMinusOne == db.events[e].totalProfilesMinusOne
      && next.events[e].totalConfirmedMinusOne == db.events[e].totalConfirmedMinusOne
    ensures Invariant(next)
  {
    assert Referenced(next) && Counted(next);
  }

  /** An edit of the event's fields moves no counter and no row, so it keeps the invariant. */
  lemma UpdateKeepsInvariant(db: Db, dto: UpdateEventRequest, detailsTime: Time, now: Time)
    requires Invariant(db) && dto.eventId in db.events
    ensures Invariant(UpdatedDb(db, dto, detailsTime, now))
  {
    var next := UpdatedDb(db, dto, detailsTime, now);
    SameCountersKeepInvariant(db, next);
  }

  /** A description-only edit leaves the events as they are and sends no propagation message. */
  lemma DescriptionOnlyEdit(db: Db, dto: UpdateEventRequest, detailsTime: Time, now: Time, session: Session, ev: Event)
    requires dto.eventId in db.events
    requires dto.title.None? && dto.startTime.None? && dto.endTime.None?
    ensures UpdatedDb(db, dto, detailsTime, now).events == db.events
    ensures forall x :: x in UpdateWrites(session, dto, ev) ==> !x.MessageHandled?
  {
  }

  /** The description half of UpdateEventAsync's callback: the edit of the first details record, when asked for. */
  method Describe(store: Store, dto: UpdateEventRequest, session: Session) returns (details: Option<EventDetails>, ghost detailsTime: Time)
    requires store.Valid()
    modifies store`db, store`clock, store`trace
    ensures store.Valid()
    ensures details == Described(old(store.db), dto, detailsTime)
    ensures store.db == old(store.db).(eventDetails := DescribedDetails(old(store.db.eventDetails), dto, detailsTime))
    ensures store.trace == old(store.trace) + DescribeWrites(session, dto)
  {
    detailsTime := store.clock;
    details := None;
    if dto.description.Some? {
      details := Details.Update(store, dto.eventId, dto.description.value, session);
      detailsTime := store.clock;
    }
  }

  /** The field half of UpdateEventAsync's callback: the combined update and the `update` message, when a field is given. */
  method Edit(store: Store, ev: Event, dto: UpdateEventRequest, updates: seq<FieldUpdate>, session: Session) returns (r: Result<Event>)
    requires store.Valid() && ev.id == dto.eventId && updates == UpdatesOf(dto)
    modifies store`db, store`clock, store`trace
    ensures store.Valid()
    ensures r.Failure? <==> UpdatesOf(dto) != [] && ev.id !in old(store.db.events)
    ensures UpdatesOf(dto) == [] ==> r == Success(ev) && store.db == old(store.db) && store.trace == old(store.trace)
    ensures r.Failure? ==> store.db == old(store.db) && r.error.kind == KeyNotFound
    ensures r.Failure? ==> store.trace == old(store.trace) + [Effect.Write(EventsCollection, FindOneAndUpdateCommand, Some(session))]
    ensures r.Success? && UpdatesOf(dto) != [] ==>
      && ev.id in old(store.db.events)
      && store.db == old(store.db).(events := EditedEvents(old(store.db.events), dto, store.clock))
      && r.value == store.db.events[ev.id]
      && store.trace == old(store.trace) + EditWrites(session, dto, r.value)
  {
    if updates == [] {
      return Success(ev);
    }
    var now := store.Now();
    var (events, updated) := FindOneByIdAndUpdate(store.db.events, ev.id, UpdateWith(dto, now), EventsCollection);
    store.WriteEvents(events, FindOneAndUpdateCommand, Some(session));
    if updated.Failure? {
      return Failure(updated.error);
    }
    var _ := SendPropagationMessage(store, PropagationMessage(updated.value, EventUpdateType.Update, None));
    r := updated;
  }

  /** UpdateEventAsync's callback: the description edit, then the field edit with its message. */
  method UpdateCallback(store: Store, ev: Event, dto: UpdateEventRequest, updates: seq<FieldUpdate>, session: Session)
    returns (r: Result<Event>, details: Option<EventDetails>, ghost detailsTime: Time, ghost body: seq<Effect>)
    requires store.Valid() && ev.id == dto.eventId && updates == UpdatesOf(dto)
    modifies store`db, store`clock, store`trace
    ensures store.Valid() && store.trace == old(store.trace) + body
    ensures r.Failure? <==> UpdatesOf(dto) != [] && ev.id !in old(store.db.events)
    ensures details == Described(old(store.db), dto, detailsTime)
    ensures UpdatesOf(dto) == [] ==> r == Success(ev)
    ensures r.Success? && ev.id in old(store.db.events) ==>
      && store.db == UpdatedDb(old(store.db), dto, detailsTime, store.clock)
      && (UpdatesOf(dto) != [] ==> r.value == store.db.events[ev.id])
      && body == UpdateWrites(session, dto, r.value)
  {
    details, detailsTime := Describe(store, dto, session);
    r := Edit(store, ev, dto, updates, session);
    ghost var edits := if r.Success? then EditWrites(session, dto, r.value)
      else [Effect.Write(EventsCollection, FindOneAndUpdateCommand, Some(session))];
    Associative(old(store.trace), DescribeWrites(session, dto), edits);
    body := DescribeWrites(session, dto) + edits;
  }

  /** UpdateEventAsync's transaction around its callback. */
  method UpdateTransaction(store: Store, ev: Event, dto: UpdateEventRequest, updates: seq<FieldUpdate>)
    returns (r: Result<Event>, details: Option<EventDetails>, ghost detailsTime: Time, ghost body: seq<Effect>)
    requires store.Valid() && ev.id == dto.eventId && updates == UpdatesOf(dto)
    modifies store`db, store`clock, store`sessions, store`trace, store.context`transactionsSupported, store.context`console
    ensures store.Valid() && store.context.transactionsSupported.Some?
    ensures r.Failure? <==> UpdatesOf(dto) != [] && ev.id !in old(store.db.events)
    ensures details == Described(old(store.db), dto, detailsTime)
    ensures UpdatesOf(dto) == [] ==> r == Success(ev)
    ensures r.Success? && ev.id in old(store.db.events) ==>
      && store.db == UpdatedDb(old(store.db), dto, detailsTime, store.clock)
      && (UpdatesOf(dto) != [] ==> r.value == store.db.events[ev.id])
      && body == UpdateWrites(Session(old(store.sessions)), dto, r.value)
    ensures r.Success? ==>
      var tx := Transaction(Session(old(store.sessions)), store.context.transactionsSupported.value, old(store.db));
      store.trace == old(store.trace) + Transacted(tx, body, r)
  {
    var tx := store.Begin();
    var outcome;
    outcome, details, detailsTime, body := UpdateCallback(store, ev, dto, updates, tx.session);
    r := store.End(tx, outcome);
    TransactedTrace(old(store.trace), tx, body, r);
  }

  /**
   * UpdateEventAsync: KeyNotFoundException when the event is missing, before any write; otherwise
   * the description and the given fields are set in one transaction, an `update` message goes out
   * when a field changed, and the response carries the event and the edited details record.
   */
  method UpdateEvent(store: Store, dto: UpdateEventRequest) returns (r: Result<EventResponse>, ghost detailsTime: Time)
    requires store.Valid()
    modifies store`db, store`clock, store`sessions, store`trace, store.context`transactionsSupported, store.context`console
    ensures store.Valid()
    ensures r.Failure? <==> dto.eventId !in old(store.db.events)
    ensures r.Failure? ==> r.error.kind == KeyNotFound && store.db == old(store.db) && store.trace == old(store.trace)
    ensures r.Success? ==>
      && dto.eventId in old(store.db.events) && store.context.transactionsSupported.Some?
      && store.db == UpdatedDb(old(store.db), dto, detailsTime, store.clock)
      && r.value == UpdateResponse(store.db.events[dto.eventId], Described(old(store.db), dto, detailsTime))
    ensures r.Success? ==>
      var tx := Transaction(Session(old(store.sessions)), store.context.transactionsSupported.value, old(store.db));
      store.trace == old(store.trace) + Transacted(tx, UpdateWrites(tx.session, dto, store.db.events[dto.eventId]), Success(store.db.events[dto.eventId]))
  {
    var found := RetrieveById(store.db.events, dto.eventId, EventsCollection);
    if found.Failure? {
      return Failure(found.error), 0;
    }
    var updates := GetUpdates(dto);
    var updated, details;
    ghost var body;
    updated, details, detailsTime, body := UpdateTransaction(store, found.value, dto, updates);
    if updated.Failure? {
      assert false;
    }
    r := Success(UpdateResponse(updated.value, details));
  }
}
