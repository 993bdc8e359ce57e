// The documents of the store and the messages passed between services.
// Fields keep the source's names; `createdAt` and `updatedAt` are the stamps of
// BaseCreatedEntity and BaseDateEntity, taken from the clock when a document is built.
// A stored document's ObjectId is its key in the collection's map; only the entities whose
// id the services read back from a value (events, profiles, users, media) also carry it as a field.
module Entities {
  import opened Common

  // ----- events -----

  datatype Event = Event(
    id: Id,
    title: string,
    timestamp: Time,
    startTime: Time,
    endTime: Time,
    totalProfilesMinusOne: int,
    totalConfirmedMinusOne: int,
    createdAt: Time,
    updatedAt: Time)

  /** The side record of an event; one per event, so the store keys it by `eventId`. */
  datatype EventDetails = EventDetails(
    id: Id,
    eventId: Id,
    description: Option<string>,
    totalImages: int,
    createdAt: Time,
    updatedAt: Time)

  /** A new details record for `ev` (Model/Events/EventDetails.cs). */
  function NewEventDetails(id: Id, ev: Event, description: Option<string>, now: Time): (d: EventDetails)
    ensures d.id == id && d.eventId == ev.id && d.description == description && d.totalImages == 0
  {
    EventDetails(id, ev.id, description, 0, now, now)
  }

  /** A (profile, event) pair: unique among the forward rows, and among their mirrors, by index. */
  datatype Link = Link(profileId: Id, eventId: Id)

  datatype EventRole = Viewer | OtherEventRole(code: int)

  /** The forward join row, sharded by profile, caching the event's times and version. */
  datatype ProfileEvent = ProfileEvent(
    eventId: Id,
    profileId: Id,
    confirmed: bool,
    eventUpdatedAt: Time,
    eventStartTime: Time,
    eventEndTime: Time,
    role: EventRole,
    createdAt: Time,
    updatedAt: Time)
  {
    function Key(): Link { Link(profileId, eventId) }
  }

  /** `new ProfileEvent(ev, profileId)` (Model/Profiles/ProfileEvent.cs). */
  function NewProfileEvent(ev: Event, profileId: Id, now: Time): (pe: ProfileEvent)
    ensures pe.Key() == Link(profileId, ev.id)
    ensures !pe.confirmed && pe.role == EventRole.Viewer
    ensures pe.eventUpdatedAt == ev.updatedAt
    ensures pe.eventStartTime == ev.startTime && pe.eventEndTime == ev.endTime
  {
    ProfileEvent(ev.id, profileId, false, ev.updatedAt, ev.startTime, ev.endTime, EventRole.Viewer, now, now)
  }

  /** The reverse mirror row, sharded by event: a BaseEntity holding only the two ids. */
  datatype EventProfile = EventProfile(eventId: Id, profileId: Id)
  {
    function Key(): Link { Link(profileId, eventId) }
  }

  /** `new EventProfile(pe)` (Model/Events/EventProfile.cs). */
  function MirrorOf(pe: ProfileEvent): (ep: EventProfile)
    ensures ep.eventId == pe.eventId && ep.profileId == pe.profileId
    ensures ep.Key() == pe.Key()
  {
    EventProfile(pe.eventId, pe.profileId)
  }

  // ----- profiles and users -----

  datatype Profile = Profile(id: Id, tag: string, name: string, createdAt: Time, updatedAt: Time)

  datatype UserProfileRole = SuperAdmin | ProfileViewer

  datatype ProfileUser = ProfileUser(userId: Id, role: UserProfileRole, receivesNotifications: bool)

  /** The users of a profile; one per profile, so the store keys it by `profileId`. */
  datatype ProfileDetails = ProfileDetails(profileId: Id, users: seq<ProfileUser>)

  /** A profile's searchable tag; one per profile, keyed by `profileId`. */
  datatype ProfileTag = ProfileTag(profileId: Id, tag: string, createdAt: Time, updatedAt: Time)

  datatype Account = Account(uid: string, email: string)

  /** A registered push device: a BaseCreatedEntity, so each one carries its creation instant. */
  datatype Device = Device(platform: string, fcmToken: string, createdAt: Time)

  /** The default colour of a profile link, opaque black. */
  const DefaultColor: int := 4278190080

  /** A profile as embedded in its user's `profiles` array. */
  datatype UserProfile = UserProfile(profileId: Id, role: UserProfileRole, color: int, mainProfile: bool)

  datatype User = User(
    id: Id,
    profiles: seq<UserProfile>,
    accounts: seq<Account>,
    devices: seq<Device>,
    createdAt: Time,
    updatedAt: Time)

  /** A row of the UserProfiles collection (Model/Users/UserProfile.cs). */
  datatype UserProfileRow = UserProfileRow(
    userId: Id,
    profileId: Id,
    color: int,
    createdAt: Time,
    updatedAt: Time)

  datatype UserClaimType =
    | CanViewProfileDetails
    | CanImpersonateProfile
    | CanEditProfile
    | CanViewCommunity
    | CanCreateCommunity
    | CanEditCommunity
    | CanReadEvents
    | CanCreateEvents
    | CanEditEvents
    | CanShareEvents

  datatype UserClaim = UserClaim(claim: UserClaimType, updatedAt: Time)

  datatype UserClaims = UserClaims(userId: Id, profileId: Id, claims: set<UserClaim>, createdAt: Time, updatedAt: Time)

  // ----- communities -----

  datatype GroupRole = Owner | GroupViewer

  datatype CommunityType = Personal | CommunityOfMany

  datatype Community = Community(id: Id, name: string, communityType: CommunityType, ownerId: Id, updatedAt: Time)

  datatype GroupProfile = GroupProfile(profileId: Option<Id>, role: GroupRole)

  datatype Group = Group(
    communityId: Option<Id>,
    name: string,
    profiles: seq<GroupProfile>,
    mainGroup: bool,
    createdAt: Time,
    updatedAt: Time)

  datatype ProfileGroup = ProfileGroup(groupId: Id, name: string, role: GroupRole)

  datatype ProfileCommunity = ProfileCommunity(
    profileId: Id,
    communityId: Id,
    name: string,
    communityType: CommunityType,
    communityUpdatedAt: Time,
    groups: seq<ProfileGroup>,
    otherProfileId: Option<Id>)

  /** The community-side mirror of a ProfileCommunity row: a BaseEntity with the two ids. */
  datatype CommunityProfile = CommunityProfile(communityId: Id, profileId: Id)

  // ----- media -----

  /** MediaStatus: a new media is `Created`; the enum's other members are not part of this model. */
  datatype MediaStatus = Created | OtherStatus(name: string)

  /** MediaVisibility: a new media is `Private`; the enum's other members are not part of this model. */
  datatype MediaVisibility = Private | OtherVisibility(name: string)

  /** A stored media object; its id names the object in storage, so it is kept as a field. */
  datatype Media = Media(
    id: Id,
    parentId: Id,
    ownerId: Id,
    extension: string,
    name: Option<string>,
    creationDate: Time,
    status: MediaStatus,
    visibility: MediaVisibility,
    createdAt: Time,
    updatedAt: Time)

  // ----- notifications and queue messages -----

  datatype NotificationType =
    | CreateEvent
    | ShareEvent
    | UpdateEssentialsEvent
    | UpdateDetailsEvent
    | UpdatePhotos
    | ConfirmEvent
    | DeclineEvent
    | DeleteEvent
    | DeleteEventForAll
    | UpdateProfile
    | CreateCommunity

  /**
   * A notification. `createdType` is the primary-constructor argument that ToDictionary
   * captures; `kind` is the mutable Type property that the resolvers look up.
   */
  datatype Notification = Notification(
    objectId: Id,
    createdType: NotificationType,
    kind: NotificationType,
    updatedAt: Option<Time>,
    actorId: Option<Id>,
    title: Option<string>,
    body: Option<string>,
    profileId: Option<Id>)

  /** `new Notification(objectId, type)`, optionally with the event's version. */
  function NewNotification(objectId: Id, kind: NotificationType, updatedAt: Option<Time>): (n: Notification)
    ensures n.objectId == objectId && n.createdType == kind && n.kind == kind && n.updatedAt == updatedAt
    ensures n.actorId.None? && n.title.None? && n.body.None? && n.profileId.None?
  {
    Notification(objectId, kind, kind, updatedAt, None, None, None, None)
  }

  datatype EventUpdateType = Share | Update | Confirm | Decline

  /** The message types of the queue; only `eventUpdate` appears in the source. */
  datatype MessageType = EventUpdate | OtherMessageType(name: string)

  datatype Payload =
    | EventPayload(ev: Event)
    | UpdateEventPayload(event: Event, updateType: EventUpdateType, actorId: Option<Id>)

  datatype QueueMessage = QueueMessage(messageType: MessageType, payload: Payload, retry: int)
}
