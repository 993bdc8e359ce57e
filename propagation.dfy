// EventUpdatePropagationService and ProfileUpdatePropagationService: the store side of an update,
// then a broadcast that is started and not awaited.
module Propagation {
  import opened Common
  import opened Entities
  import opened Database
  import opened EventProfiles
  import opened ProfileEvents
  import opened Finders

  /**
   * GetUpdateNotification: share and update tell the event's profiles about new essentials
   * without an actor; confirm and decline carry the acting profile. Every kind carries the event's
   * id and version.
   */
  function GetUpdateNotification(kind: EventUpdateType, ev: Event, actorId: Option<Id>): (n: Notification)
    ensures n.objectId == ev.id && n.updatedAt == Some(ev.updatedAt) && n.createdType == n.kind
    ensures (kind.Share? || kind.Update?) ==> n.kind == UpdateEssentialsEvent && n.actorId.None?
    ensures kind.Confirm? ==> n.kind == ConfirmEvent && n.actorId == actorId
    ensures kind.Decline? ==> n.kind == DeclineEvent && n.actorId == actorId
    ensures n.title.None? && n.body.None? && n.profileId.None?
  {
    match kind
    case Share => NewNotification(ev.id, UpdateEssentialsEvent, Some(ev.updatedAt))
    case Update => NewNotification(ev.id, UpdateEssentialsEvent, Some(ev.updatedAt))
    case Confirm => NewNotification(ev.id, ConfirmEvent, Some(ev.updatedAt)).(actorId := actorId)
    case Decline => NewNotification(ev.id, DeclineEvent, Some(ev.updatedAt)).(actorId := actorId)
  }

  /** Every event-update notification has a finder in the table BroadcastService uses. */
  lemma EventNotificationsResolve(kind: EventUpdateType, ev: Event, actorId: Option<Id>)
    ensures Resolve(ModelResolvers, GetUpdateNotification(kind, ev, actorId).kind) == Success(EventProfileFinder)
  {
    ModelTable(GetUpdateNotification(kind, ev, actorId).kind);
  }

  /**
   * PropagateUpdateEffects: when the event has linked profiles, the guarded propagation over all
   * of them (outside any session), then a detached broadcast of the update's notification; with no
   * linked profile nothing happens.
   */
  method PropagateUpdateEffects(store: Store, ev: Event, kind: EventUpdateType, actorId: Option<Id>)
    requires store.Valid()
    modifies store`db, store`clock, store`trace
    ensures store.Valid()
    ensures GetProfileIds(old(store.db), ev.id) == [] ==> store.db == old(store.db) && store.trace == old(store.trace)
    ensures GetProfileIds(old(store.db), ev.id) != [] ==> (
      var profileIds := IdSet(GetProfileIds(old(store.db), ev.id));
      var result := PropagateRows(old(store.db.profileEvents), ev, profileIds, store.clock);
      && store.db == old(store.db).(profileEvents := result.0)
      && store.trace == old(store.trace) + [
           Effect.Write(ProfileEventsCollection, UpdateManyCommand, None),
           ConsoleLine(MatchedLine(result.1)),
           BroadcastStarted(GetUpdateNotification(kind, ev, actorId))])
  {
    var profileIds := GetProfileIds(store.db, ev.id);
    if |profileIds| > 0 {
      PropagateAndBroadcast(store, ev, profileIds, GetUpdateNotification(kind, ev, actorId));
    }
  }

  /** The branch of PropagateUpdateEffects taken when the event has linked profiles. */
  method PropagateAndBroadcast(store: Store, ev: Event, profileIds: seq<Id>, notification: Notification)
    requires store.Valid()
    modifies store`db, store`clock, store`trace
    ensures store.Valid()
    ensures var result := PropagateRows(old(store.db.profileEvents), ev, IdSet(profileIds), store.clock);
      && store.db == old(store.db).(profileEvents := result.0)
      && store.trace == old(store.trace) + [
           Effect.Write(ProfileEventsCollection, UpdateManyCommand, None),
           ConsoleLine(MatchedLine(result.1)),
           BroadcastStarted(notification)]
  {
    PropagateEventUpdates(store, ev, profileIds, None);
    store.Emit(BroadcastStarted(notification));
  }

  /** The store side of PropagateUpdateEffects keeps the event engine's invariant. */
  lemma UpdateEffectsKeepInvariant(db: Db, ev: Event, now: Time)
    requires Invariant(db)
    ensures Invariant(db.(profileEvents := PropagateRows(db.profileEvents, ev, IdSet(GetProfileIds(db, ev.id)), now).0))
  {
    PropagateKeepsInvariant(db, ev, IdSet(GetProfileIds(db, ev.id)), now);
  }

  /**
   * With mirrors in place the linked profiles are those of every forward row of the event, so the
   * propagation considers every forward row of the event and no other.
   */
  lemma LinkedProfilesCoverRows(db: Db, ev: Event)
    requires Mirrored(db)
    ensures forall k :: k in db.profileEvents && db.profileEvents[k].eventId == ev.id ==>
      db.profileEvents[k].profileId in IdSet(GetProfileIds(db, ev.id))
    ensures forall p :: p in IdSet(GetProfileIds(db, ev.id)) ==>
      exists k :: k in db.profileEvents && db.profileEvents[k].Key() == Link(p, ev.id)
  {
    forall k | k in db.profileEvents && db.profileEvents[k].eventId == ev.id
      ensures db.profileEvents[k].profileId in IdSet(GetProfileIds(db, ev.id))
    {
      assert db.profileEvents[k].Key() in Links(db.profileEvents);
      assert Link(db.profileEvents[k].profileId, ev.id) in MirrorLinks(db.eventProfiles);
    }
    forall p | p in IdSet(GetProfileIds(db, ev.id))
      ensures exists k :: k in db.profileEvents && db.profileEvents[k].Key() == Link(p, ev.id)
    {
      assert Link(p, ev.id) in Links(db.profileEvents);
    }
  }

  /**
   * Hence, under the event engine's invariant, a propagation leaves no forward row of the event
   * older than the event: every stale row is refreshed and the others already were newer.
   */
  lemma PropagationReachesAllRows(db: Db, ev: Event, now: Time)
    requires Invariant(db)
    ensures var m := PropagateRows(db.profileEvents, ev, IdSet(GetProfileIds(db, ev.id)), now).0;
      forall k :: k in m && m[k].eventId == ev.id ==> m[k].eventUpdatedAt >= ev.updatedAt
  {
    LinkedProfilesCoverRows(db, ev);
  }

  // ----- profiles -----

  /** ProfileUpdateType; only `update` is named, and every value is treated alike. */
  datatype ProfileUpdateType = ProfileUpdate | OtherProfileUpdate(name: string)

  /** GetUpdateNotification of a profile: always UpdateProfile for that profile, whatever the type. */
  function GetProfileUpdateNotification(kind: ProfileUpdateType, profileId: Id): (n: Notification)
    ensures n.objectId == profileId && n.kind == UpdateProfile && n.createdType == UpdateProfile
    ensures n.updatedAt.None? && n.actorId.None? && n.title.None? && n.body.None? && n.profileId.None?
  {
    match kind
    case ProfileUpdate => NewNotification(profileId, UpdateProfile, None)
    case OtherProfileUpdate(_) => NewNotification(profileId, UpdateProfile, None)
  }

  /** PropagateUpdateEffects of a profile: starts the broadcast and returns; the actor is ignored. */
  method PropagateProfileUpdate(store: Store, profileId: Id, kind: ProfileUpdateType, actorId: Option<Id>)
    modifies store`trace
    ensures store.trace == old(store.trace) + [BroadcastStarted(GetProfileUpdateNotification(kind, profileId))]
  {
    var notification := GetProfileUpdateNotification(kind, profileId);
    store.Emit(BroadcastStarted(notification));
  }

  /** That broadcast always faults: the table BroadcastService builds has no finder for UpdateProfile. */
  lemma ProfileBroadcastFaults(kind: ProfileUpdateType, profileId: Id)
    ensures Resolve(ModelResolvers, GetProfileUpdateNotification(kind, profileId).kind).Failure?
  {
    ModelTable(UpdateProfile);
  }
}
