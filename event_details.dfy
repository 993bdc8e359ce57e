// EventDetailsService: the side record of each event (description and image count).
module EventDetailsStore {
  import opened Common
  import opened Entities
  import opened Database

  /** The filter `ed.EventId == eventId`. */
  function OfEvent(eventId: Id): EventDetails -> bool
  {
    (d: EventDetails) => d.eventId == eventId
  }

  /** The `$inc` of totalImages by `added`, followed by the store's automatic stamp. */
  function AddImagesWith(added: int, now: Time): EventDetails -> EventDetails
  {
    (d: EventDetails) => d.(totalImages := d.totalImages + added, updatedAt := now)
  }

  /** The `$set` of Description, followed by the store's automatic stamp. */
  function DescribeWith(description: string, now: Time): EventDetails -> EventDetails
  {
    (d: EventDetails) => d.(description := Some(description), updatedAt := now)
  }

  /** Both updates are what the store applies: the operator, then `updatedAt := now`. */
  lemma UpdatesAreStamped(added: int, description: string, now: Time, d: EventDetails)
    ensures var stamp := Some((x: EventDetails) => x.(updatedAt := now));
      && Combined((x: EventDetails) => x.(totalImages := x.totalImages + added), stamp, true)(d) == AddImagesWith(added, now)(d)
      && Combined((x: EventDetails) => x.(description := Some(description)), stamp, true)(d) == DescribeWith(description, now)(d)
  {
  }

  /** CreateAsync: inserts a new details record for `ev` with the given description, in the caller's session. */
  method Create(store: Store, ev: Event, description: Option<string>, session: Session) returns (d: EventDetails)
    requires store.Valid()
    modifies store`db, store`nextId, store`clock, store`trace
    ensures store.Valid() && store.nextId == old(store.nextId) + 1
    ensures d.id == old(store.nextId) && d.eventId == ev.id && d.description == description && d.totalImages == 0
    ensures d.createdAt == store.clock && d.updatedAt == store.clock
    ensures store.db == old(store.db).(eventDetails := old(store.db.eventDetails)[old(store.nextId) := d])
    ensures store.trace == old(store.trace) + [Effect.Write(EventDetailsCollection, InsertOneCommand, Some(session))]
  {
    var now := store.Now();
    var id := store.NewId();
    d := NewEventDetails(id, ev, description, now);
    var inserted := InsertOne(store.db.eventDetails, id, d, NoIndex(), EventDetailsCollection);
    store.WriteEventDetails(inserted.value, InsertOneCommand, Some(session));
  }

  /** RetrieveByEventId: the first details record of the event, or KeyNotFoundException. */
  function RetrieveByEventId(db: Db, eventId: Id): (r: Result<EventDetails>)
    ensures r.Failure? <==> forall k :: k in db.eventDetails ==> db.eventDetails[k].eventId != eventId
    ensures r.Failure? ==> r.error.kind == KeyNotFound
    ensures r.Success? ==> r.value.eventId == eventId && r.value in db.eventDetails.Values
  {
    Retrieve(db.eventDetails, OfEvent(eventId), EventDetailsCollection)
  }

  /** AddImages: adds `added` to the image count of the event's first details record, outside any session. */
  method AddImages(store: Store, added: int, eventId: Id)
    requires store.Valid()
    modifies store`db, store`clock, store`trace
    ensures store.Valid()
    ensures store.db == old(store.db).(eventDetails := UpdateOne(old(store.db.eventDetails), OfEvent(eventId), AddImagesWith(added, store.clock)).0)
    ensures forall k :: k in old(store.db.eventDetails) ==>
      (k in store.db.eventDetails && store.db.eventDetails[k].totalImages - old(store.db.eventDetails)[k].totalImages in {0, added})
    ensures store.trace == old(store.trace) + [Effect.Write(EventDetailsCollection, UpdateOneCommand, None)]
  {
    var now := store.Now();
    var (next, _) := UpdateOne(store.db.eventDetails, OfEvent(eventId), AddImagesWith(added, now));
    store.WriteEventDetails(next, UpdateOneCommand, None);
  }

  /** AddImages moves the image count of exactly the event's first record, by exactly `added`. */
  lemma AddImagesCounts(m: map<Id, EventDetails>, eventId: Id, added: int, now: Time)
    ensures var r := UpdateOne(m, OfEvent(eventId), AddImagesWith(added, now));
      (r.1.matchedCount == 0 <==> forall k :: k in m ==> m[k].eventId != eventId)
      && forall k :: k in m ==>
        (&& r.0[k].eventId == m[k].eventId && r.0[k].description == m[k].description
         && (r.0[k].totalImages == m[k].totalImages || (r.0[k].totalImages == m[k].totalImages + added && m[k].eventId == eventId)))
  {
    var r := UpdateOne(m, OfEvent(eventId), AddImagesWith(added, now));
    if r.1.matchedCount != 0 {
      var k :| k in m && OfEvent(eventId)(m[k]) && r.0 == m[k := AddImagesWith(added, now)(m[k])];
    }
  }

  /**
   * Update: sets Description on the event's first details record in the caller's session and
   * returns the record after the update, or null when the event has none.
   */
  method Update(store: Store, eventId: Id, description: string, session: Session) returns (r: Option<EventDetails>)
    requires store.Valid()
    modifies store`db, store`clock, store`trace
    ensures store.Valid()
    ensures r.None? <==> forall k :: k in old(store.db.eventDetails) ==> old(store.db.eventDetails)[k].eventId != eventId
    ensures r.Some? ==> r.value.eventId == eventId && r.value.description == Some(description) && r.value.updatedAt == store.clock
    ensures (store.db.eventDetails, r) == FindOneAndUpdate(old(store.db.eventDetails), OfEvent(eventId), DescribeWith(description, store.clock))
    ensures store.db == old(store.db).(eventDetails := store.db.eventDetails)
    ensures store.trace == old(store.trace) + [Effect.Write(EventDetailsCollection, FindOneAndUpdateCommand, Some(session))]
  {
    var now := store.Now();
    var (next, found) := FindOneAndUpdate(store.db.eventDetails, OfEvent(eventId), DescribeWith(description, now));
    store.WriteEventDetails(next, FindOneAndUpdateCommand, Some(session));
    r := found;
  }

  /** Update changes only the description and the stamp, and only of the event's first record. */
  lemma UpdateOnlyDescribes(m: map<Id, EventDetails>, eventId: Id, description: string, now: Time)
    ensures var r := FindOneAndUpdate(m, OfEvent(eventId), DescribeWith(description, now));
      r.0.Keys == m.Keys && forall k :: k in m ==>
        (&& r.0[k].eventId == m[k].eventId && r.0[k].totalImages == m[k].totalImages
         && (r.0[k] == m[k] || (m[k].eventId == eventId && r.0[k].description == Some(description))))
  {
    var r := FindOneAndUpdate(m, OfEvent(eventId), DescribeWith(description, now));
    if r.1.Some? {
      var k :| k in m && OfEvent(eventId)(m[k]) && r.0 == m[k := DescribeWith(description, now)(m[k])];
    }
  }
}
