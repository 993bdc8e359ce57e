// EventService's reads and its media entry points: an event with the caller's row or with its
// details, the events of a set of profiles in a time window (RetrieveEventsByProfileIds), and the
// upload URLs of an event's media.
module EventQueries {
  import opened Common
  import opened Entities
  import opened Database
  import opened ProfileEvents
  import opened EventResponses
  import Details = EventDetailsStore
  import MediaStore

  // ----- single events -----

  /**
   * RetrieveEventById: the event with the caller's forward row; KeyNotFoundException when the
   * event is missing, and a null row reaches the DTO constructor as a NullReferenceException.
   */
  function RetrieveEventById(db: Db, eventId: Id, profileId: Id): (r: Result<EventResponse>)
    ensures r.Failure? <==> eventId !in db.events || Link(profileId, eventId) !in Links(db.profileEvents)
    ensures eventId !in db.events ==> r.error.kind == KeyNotFound
    ensures eventId in db.events && r.Failure? ==> r.error.kind == NullReference
    ensures r.Success? ==>
      && r.value.(profileEvents := None) == ResponseOf(db.events[eventId])
      && r.value.profileEvents.Some? && |r.value.profileEvents.value| == 1
      && exists pe :: (pe in db.profileEvents.Values && pe.Key() == Link(profileId, eventId)
           && r.value.profileEvents.value[0] == ProfileEventDtoOf(pe))
  {
    var ev :- RetrieveById(db.events, eventId, EventsCollection);
    var pe := FindByProfileAndEventId(db, profileId, eventId);
    if pe.None? then Throw(NullReference, "Object reference not set to an instance of an object.")
    else Success(WithRowDtos(ev, ProfileEventDtos([pe.value])))
  }

  /** RetrieveEventWithDetailsById: the event with its first details record; KeyNotFoundException when either is missing. */
  function RetrieveEventWithDetailsById(db: Db, eventId: Id): (r: Result<EventResponse>)
    ensures r.Failure? <==> eventId !in db.events || Details.RetrieveByEventId(db, eventId).Failure?
    ensures r.Failure? ==> r.error.kind == KeyNotFound
    ensures r.Success? ==>
      && r.value.(eventDetails := None) == ResponseOf(db.events[eventId])
      && exists d :: (d in db.eventDetails.Values && d.eventId == eventId && r.value.eventDetails == Some(EventDetailsDtoOf(d)))
  {
    var ev :- RetrieveById(db.events, eventId, EventsCollection);
    var d :- Details.RetrieveByEventId(db, eventId);
    Success(WithDetails(ev, d))
  }

  // ----- RetrieveEventsByProfileIds -----

  /** RetrieveMultipleEventsRequestDto: the profiles and the window; a null end leaves the window open. */
  datatype RetrieveMultipleEventsRequest = RetrieveMultipleEventsRequest(profileHashes: seq<Id>, startTime: Time, endTime: Option<Time>)

  /** The most rows the `$match` stage passes on. */
  const RowLimit: int := 40

  /** One conjunct of the `$match` filter. */
  datatype RowFilter = ProfileIn(ids: seq<Id>) | EventEndAtLeast(time: Time) | EventStartAtMost(time: Time)

  predicate Holds(f: RowFilter, pe: ProfileEvent)
  {
    match f
    case ProfileIn(ids) => pe.profileId in ids
    case EventEndAtLeast(t) => pe.eventEndTime >= t
    case EventStartAtMost(t) => pe.eventStartTime <= t
  }

  /** `Filter.And(filters)`. */
  predicate AllHold(filters: seq<RowFilter>, pe: ProfileEvent)
  {
    forall i :: 0 <= i < |filters| ==> Holds(filters[i], pe)
  }

  /** The rows the request asks for: a requested profile, an event ending at or after the start, starting at or before the end if given. */
  predicate InWindow(dto: RetrieveMultipleEventsRequest, pe: ProfileEvent)
  {
    && pe.profileId in dto.profileHashes
    && pe.eventEndTime >= dto.startTime
    && (dto.endTime.Some? ==> pe.eventStartTime <= dto.endTime.value)
  }

  /** The filter list of RetrieveEventsByProfileIds: the two mandatory conjuncts, then the end bound when one is given. */
  method BuildFilters(dto: RetrieveMultipleEventsRequest) returns (filters: seq<RowFilter>)
    ensures |filters| == if dto.endTime.Some? then 3 else 2
    ensures forall pe :: AllHold(filters, pe) <==> InWindow(dto, pe)
  {
    filters := [ProfileIn(dto.profileHashes), EventEndAtLeast(dto.startTime)];
    if dto.endTime.Some? {
      filters := filters + [EventStartAtMost(dto.endTime.value)];
    }
    forall pe ensures AllHold(filters, pe) <==> InWindow(dto, pe) {
      if dto.endTime.Some? {
        assert AllHold(filters, pe) <==> Holds(filters[0], pe) && Holds(filters[1], pe) && Holds(filters[2], pe);
      } else {
        assert AllHold(filters, pe) <==> Holds(filters[0], pe) && Holds(filters[1], pe);
      }
    }
  }

  /** The rows the `$match` and `$limit` stages pass on, in natural order. */
  function Matched(db: Db, dto: RetrieveMultipleEventsRequest): (rows: seq<ProfileEvent>)
    ensures |rows| <= RowLimit
    ensures forall i :: 0 <= i < |rows| ==> rows[i] in db.profileEvents.Values && InWindow(dto, rows[i])
  {
    RetrieveMultiple(db.profileEvents, WindowFilter(dto), Some(RowLimit))
  }

  function WindowFilter(dto: RetrieveMultipleEventsRequest): ProfileEvent -> bool
  {
    (pe: ProfileEvent) => InWindow(dto, pe)
  }

  /** Extensionally equal filters retrieve the same rows. */
  lemma SameFilterSameRows<D>(coll: map<Id, D>, f: D -> bool, g: D -> bool, limit: Option<int>)
    requires forall d :: f(d) == g(d)
    ensures RetrieveMultiple(coll, f, limit) == RetrieveMultiple(coll, g, limit)
  {
    assert Matching(coll, f) == Matching(coll, g);
  }

  /** The sequence without the occurrences of `x`, order kept. */
  function Without(s: seq<Id>, x: Id): (r: seq<Id>)
    ensures |r| <= |s|
    ensures forall y :: y in r <==> y in s && y != x
  {
    if s == [] then [] else (if s[0] == x then [] else [s[0]]) + Without(s[1..], x)
  }

  /** The distinct ids of `s`, in order of first appearance. */
  function Distinct(s: seq<Id>): (r: seq<Id>)
    ensures |r| <= |s|
    ensures forall y :: y in r <==> y in s
    ensures forall i, j :: 0 <= i < j < |r| ==> r[i] != r[j]
    decreases |s|
  {
    if s == [] then []
    else
      var rest := Distinct(Without(s[1..], s[0]));
      assert forall j :: 0 <= j < |rest| ==> rest[j] in rest && rest[j] in Without(s[1..], s[0]);
      [s[0]] + rest
  }

  /** The event ids of a run of rows. */
  function EventIds(rows: seq<ProfileEvent>): (r: seq<Id>)
    ensures |r| == |rows| && forall i :: 0 <= i < |rows| ==> r[i] == rows[i].eventId
  {
    seq(|rows|, i requires 0 <= i < |rows| => rows[i].eventId)
  }

  /** The rows of one event, order kept. */
  function RowsFor(rows: seq<ProfileEvent>, e: Id): (r: seq<ProfileEvent>)
    ensures |r| <= |rows|
    ensures forall pe :: pe in r <==> pe in rows && pe.eventId == e
  {
    if rows == [] then [] else (if rows[0].eventId == e then [rows[0]] else []) + RowsFor(rows[1..], e)
  }

  /** A row whose event is gone: the lookup yields no event and the projection a null one. */
  predicate Orphaned(db: Db, rows: seq<ProfileEvent>)
  {
    exists i :: 0 <= i < |rows| && rows[i].eventId !in db.events
  }

  /** The events of the rows, in order of first appearance. */
  function GroupIds(rows: seq<ProfileEvent>): (es: seq<Id>)
    ensures |es| <= |rows|
    ensures forall i, j :: 0 <= i < j < |es| ==> es[i] != es[j]
    ensures forall i :: 0 <= i < |es| ==> exists k :: 0 <= k < |rows| && rows[k].eventId == es[i]
    ensures forall k :: 0 <= k < |rows| ==> rows[k].eventId in es
  {
    var es := Distinct(EventIds(rows));
    assert forall k :: 0 <= k < |rows| ==> EventIds(rows)[k] in es;
    assert forall i :: 0 <= i < |es| ==> es[i] in EventIds(rows);
    es
  }

  /** One group per id: the stored event and its rows. */
  function GroupsOf(db: Db, rows: seq<ProfileEvent>, es: seq<Id>): (r: seq<(Event, seq<ProfileEvent>)>)
    requires forall i :: 0 <= i < |es| ==> es[i] in db.events
    ensures |r| == |es|
    ensures forall i :: 0 <= i < |es| ==> r[i].0 == db.events[es[i]] && r[i].1 == RowsFor(rows, es[i])
  {
    seq(|es|, i requires 0 <= i < |es| => (db.events[es[i]], RowsFor(rows, es[i])))
  }

  /**
   * The shape of a `$group` by event id: at most one group per row, each group the stored event
   * with exactly that event's rows, no event twice, and every row in its event's group.
   */
  ghost predicate GroupedBy(db: Db, rows: seq<ProfileEvent>, groups: seq<(Event, seq<ProfileEvent>)>)
  {
    && |groups| <= |rows|
    && (forall i :: 0 <= i < |groups| ==> groups[i].0.id in db.events && groups[i].0 == db.events[groups[i].0.id])
    && (forall i, j :: 0 <= i < j < |groups| ==> groups[i].0.id != groups[j].0.id)
    && (forall i, pe :: 0 <= i < |groups| ==> (pe in groups[i].1 <==> pe in rows && pe.eventId == groups[i].0.id))
    && (forall k :: 0 <= k < |rows| ==> exists i :: 0 <= i < |groups| && groups[i].0.id == rows[k].eventId)
  }

  /**
   * `$lookup` and `$group` by event id: one group per distinct event of the rows, in order of first
   * appearance, with the event and its rows; a row without an event makes the response
   * constructor dereference null.
   */
  function Grouped(db: Db, rows: seq<ProfileEvent>): (r: Result<seq<(Event, seq<ProfileEvent>)>>)
    requires EventsKeyed(db.events)
    ensures r.Failure? <==> Orphaned(db, rows)
    ensures r.Failure? ==> r.error.kind == NullReference
    ensures r.Success? ==> GroupedBy(db, rows, r.value)
  {
    if Orphaned(db, rows) then Throw(NullReference, "Object reference not set to an instance of an object.")
    else
      var es := GroupIds(rows);
      assert forall i :: 0 <= i < |es| ==> es[i] in db.events;
      var groups := GroupsOf(db, rows, es);
      assert forall i :: 0 <= i < |es| ==> groups[i].0.id == es[i];
      Success(groups)
  }

  /** The final projection: one response per group, with the group's rows as DTOs. */
  function GroupResponses(groups: seq<(Event, seq<ProfileEvent>)>): (r: seq<EventResponse>)
    ensures |r| == |groups|
    ensures forall i :: 0 <= i < |groups| ==>
      && r[i].(profileEvents := None) == ResponseOf(groups[i].0)
      && r[i].profileEvents == Some(ProfileEventDtos(groups[i].1))
  {
    seq(|groups|, i requires 0 <= i < |groups| => WithRowDtos(groups[i].0, ProfileEventDtos(groups[i].1)))
  }

  /**
   * RetrieveEventsByProfileIds: the filter built conjunct by conjunct, at most 40 matching rows,
   * grouped by event; it changes nothing in the store.
   */
  method RetrieveEventsByProfileIds(store: Store, dto: RetrieveMultipleEventsRequest) returns (r: Result<seq<EventResponse>>)
    requires store.Valid()
    ensures r.Failure? <==> Orphaned(store.db, Matched(store.db, dto))
    ensures r.Failure? ==> r.error.kind == NullReference
    ensures r.Success? ==> (Grouped(store.db, Matched(store.db, dto)).Success?
      && r.value == GroupResponses(Grouped(store.db, Matched(store.db, dto)).value))
  {
    var filters := BuildFilters(dto);
    var rows := RetrieveMultiple(store.db.profileEvents, (pe: ProfileEvent) => AllHold(filters, pe), Some(RowLimit));
    SameFilterSameRows(store.db.profileEvents, (pe: ProfileEvent) => AllHold(filters, pe), WindowFilter(dto), Some(RowLimit));
    var groups := Grouped(store.db, rows);
    if groups.Failure? {
      return Failure(groups.error);
    }
    r := Success(GroupResponses(groups.value));
  }

  /** Under the counter invariant no row is orphaned, so the query always answers. */
  lemma ReferencedRowsAnswer(db: Db, dto: RetrieveMultipleEventsRequest)
    requires EventsKeyed(db.events) && Referenced(db)
    ensures Grouped(db, Matched(db, dto)).Success?
  {
    var rows := Matched(db, dto);
    forall i | 0 <= i < |rows| ensures rows[i].eventId in db.events {
      var k :| k in db.profileEvents && db.profileEvents[k] == rows[i];
    }
  }

  /**
   * At most 40 entries, one per event, and when no more than 40 rows are in the window every one
   * of them reaches its event's entry.
   */
  lemma OneEntryPerEvent(db: Db, dto: RetrieveMultipleEventsRequest)
    requires EventsKeyed(db.events) && Grouped(db, Matched(db, dto)).Success?
    ensures var groups := Grouped(db, Matched(db, dto)).value;
      && |groups| <= RowLimit
      && (forall i, j :: 0 <= i < j < |groups| ==> groups[i].0.id != groups[j].0.id)
      && (|Matching(db.profileEvents, WindowFilter(dto))| <= RowLimit ==>
            forall k :: k in db.profileEvents && InWindow(dto, db.profileEvents[k]) ==>
              exists i :: 0 <= i < |groups| && db.profileEvents[k] in groups[i].1)
  {
    var rows := Matched(db, dto);
    var groups := Grouped(db, rows).value;
    EveryRowGrouped(db, rows, groups);
  }

  /** Each row sits in the group of its event. */
  lemma EveryRowGrouped(db: Db, rows: seq<ProfileEvent>, groups: seq<(Event, seq<ProfileEvent>)>)
    requires GroupedBy(db, rows, groups)
    ensures forall pe :: pe in rows ==> exists i :: 0 <= i < |groups| && pe in groups[i].1
  {
    forall pe | pe in rows ensures exists i :: 0 <= i < |groups| && pe in groups[i].1 {
      var n :| 0 <= n < |rows| && rows[n] == pe;
      var i :| 0 <= i < |groups| && groups[i].0.id == rows[n].eventId;
      assert pe in groups[i].1;
    }
  }

  // ----- media -----

  /** One requested upload: the event, and the media to store under it. */
  datatype MediaUploadRequest = MediaUploadRequest(parentHash: Id, media: seq<MediaStore.MediaItem>)

  /**
   * GetMediaUploadUrlsAsync: a plain Exception when the event is missing, before any write;
   * otherwise the upload entries of MediaService, then the image count of the event's details
   * raised by the number of entries without an error, outside any session.
   */
  method GetMediaUploadUrls(store: Store, profile: Profile, bucket: string, dto: MediaUploadRequest,
                            format: Time -> string, urlFor: (string, Time) -> Result<string>)
    returns (r: Result<seq<MediaStore.UploadResponse>>, ghost uploadTime: Time)
    requires store.Valid()
    modifies store`db, store`nextId, store`clock, store`trace
    ensures store.Valid()
    ensures r.Failure? <==> dto.parentHash !in old(store.db.events)
    ensures r.Failure? ==> r.error.kind == BaseException && store.db == old(store.db) && store.trace == old(store.trace)
    ensures r.Success? ==>
      var q := MediaStore.UploadRequest(dto.parentHash, profile, bucket, uploadTime, format, urlFor);
      var exts := MediaStore.Sanified(dto.media);
      var n := |dto.media|;
      && r.value == MediaStore.Responses(old(store.nextId), q, dto.media, exts, n)
      && store.db == old(store.db).(
           media := MediaStore.AddRows(old(store.db.media), MediaStore.Inserted(old(store.nextId), q, dto.media, exts, n)),
           eventDetails := UpdateOne(old(store.db.eventDetails), Details.OfEvent(dto.parentHash),
                                     Details.AddImagesWith(MediaStore.OkCount(r.value), store.clock)).0)
      && store.trace == old(store.trace) + MediaStore.Effects(old(store.nextId), q, dto.media, exts, n)
           + [Effect.Write(EventDetailsCollection, UpdateOneCommand, None)]
  {
    uploadTime := store.clock;
    var found := ConfirmExists(store.db.events, dto.parentHash, EventsCollection);
    if found.Failure? {
      return Failure(found.error), uploadTime;
    }
    var dtos := MediaStore.GetUploadUrls(store, profile, bucket, dto.parentHash, dto.media, format, urlFor);
    uploadTime := store.clock;
    var okImages := MediaStore.OkCount(dtos);
    Details.AddImages(store, okImages, dto.parentHash);
    r := Success(dtos);
  }
}
