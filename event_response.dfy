// RetrieveEventResponseDto and the DTOs it embeds: the public view of an event, its details and
// its forward rows.
module EventResponses {
  import opened Common
  import opened Entities
  import opened Database
  import opened ProfileEvents

  /** ProfileEventDto: the public view of a forward row; trust is not computed yet, so it is always false. */
  datatype ProfileEventDto = ProfileEventDto(profileId: string, role: EventRole, confirmed: bool, trusted: bool)

  function ProfileEventDtoOf(pe: ProfileEvent): (d: ProfileEventDto)
    ensures d.profileId == IdText(pe.profileId) && d.role == pe.role && d.confirmed == pe.confirmed && !d.trusted
  {
    ProfileEventDto(IdText(pe.profileId), pe.role, pe.confirmed, false)
  }

  function ProfileEventDtos(pes: seq<ProfileEvent>): (r: seq<ProfileEventDto>)
    ensures |r| == |pes| && forall i :: 0 <= i < |pes| ==> r[i] == ProfileEventDtoOf(pes[i])
  {
    seq(|pes|, i requires 0 <= i < |pes| => ProfileEventDtoOf(pes[i]))
  }

  /** EventDetailsDto: the id text, description, image count and last update of a details record. */
  datatype EventDetailsDto = EventDetailsDto(hash: string, description: Option<string>, totalImages: int, updatedAt: Time)

  function EventDetailsDtoOf(d: EventDetails): (r: EventDetailsDto)
    ensures r.hash == IdText(d.id)
    ensures r.description == d.description && r.totalImages == d.totalImages && r.updatedAt == d.updatedAt
  {
    EventDetailsDto(IdText(d.id), d.description, d.totalImages, d.updatedAt)
  }

  datatype EventResponse = EventResponse(
    hash: string,
    title: string,
    startTime: Time,
    endTime: Time,
    totalProfiles: Option<int>,
    totalConfirmed: Option<int>,
    profileEvents: Option<seq<ProfileEventDto>>,
    eventDetails: Option<EventDetailsDto>)

  /**
   * The decoding of a stored "minus one" counter: null when it is 0, else the counter plus one.
   * A total of one can therefore never be reported.
   */
  function Total(minusOne: int): (r: Option<int>)
    ensures r.None? <==> minusOne == 0
    ensures r.Some? ==> r.value == minusOne + 1
    ensures r != Some(1)
  {
    if minusOne != 0 then Some(minusOne + 1) else None
  }

  /** The primary constructor: the event's id, title, times and decoded totals, with no rows and no details. */
  function ResponseOf(ev: Event): (r: EventResponse)
    ensures r.hash == IdText(ev.id) && r.title == ev.title && r.startTime == ev.startTime && r.endTime == ev.endTime
    ensures r.totalProfiles == Total(ev.totalProfilesMinusOne) && r.totalConfirmed == Total(ev.totalConfirmedMinusOne)
    ensures r.profileEvents.None? && r.eventDetails.None?
  {
    EventResponse(IdText(ev.id), ev.title, ev.startTime, ev.endTime,
                  Total(ev.totalProfilesMinusOne), Total(ev.totalConfirmedMinusOne), None, None)
  }

  /** The constructor taking ProfileEventDtos: the primary fields and exactly those rows. */
  function WithRowDtos(ev: Event, dtos: seq<ProfileEventDto>): (r: EventResponse)
    ensures r == ResponseOf(ev).(profileEvents := Some(dtos))
  {
    ResponseOf(ev).(profileEvents := Some(dtos))
  }

  /** The constructor taking details: the primary fields and the details' view, no rows. */
  function WithDetails(ev: Event, d: EventDetails): (r: EventResponse)
    ensures r == ResponseOf(ev).(eventDetails := Some(EventDetailsDtoOf(d)))
  {
    ResponseOf(ev).(eventDetails := Some(EventDetailsDtoOf(d)))
  }

  /** The constructor taking details and forward rows, which it turns into ProfileEventDtos in order. */
  function WithDetailsAndRows(ev: Event, d: EventDetails, pes: seq<ProfileEvent>): (r: EventResponse)
    ensures r.profileEvents == Some(ProfileEventDtos(pes)) && r.eventDetails == Some(EventDetailsDtoOf(d))
    ensures r.(profileEvents := None, eventDetails := None) == ResponseOf(ev)
  {
    WithRowDtos(ev, ProfileEventDtos(pes)).(eventDetails := Some(EventDetailsDtoOf(d)))
  }

  /**
   * Under the counter invariant the reported totals are the event's row counts, except that a
   * count of exactly one reads as null.
   */
  lemma ReportedTotals(db: Db, e: Id)
    requires Counted(db) && e in db.events
    ensures var r := ResponseOf(db.events[e]);
      var n := |RowsOf(db.profileEvents, e)|;
      var c := |ConfirmedRowsOf(db.profileEvents, e)|;
      && r.totalProfiles == (if n == 1 then None else Some(n))
      && r.totalConfirmed == (if c == 1 then None else Some(c))
  {
  }
}
