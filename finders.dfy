// The profile finders of the notifications and the two revisions of the kind-to-finder table.
module Finders {
  import opened Common
  import opened Entities
  import opened Database
  import opened EventProfiles
  import opened Notifications

  /** The finders a table can register. */
  datatype Finder =
    | EventProfileFinder               // Model/Notifications/ProfileFinder.cs
    | EventProfileServiceFinder        // EventProfileService as an IProfileFinder
    | CommunityProfileServiceFinder    // CommunityProfileService as an IProfileFinder

  /** The table of Model/Notifications/ProfileIdResolverFactory, the one BroadcastService builds. */
  const ModelResolvers: map<NotificationType, Finder> := map[
    CreateEvent := EventProfileFinder,
    ShareEvent := EventProfileFinder,
    UpdateEssentialsEvent := EventProfileFinder,
    UpdateDetailsEvent := EventProfileFinder,
    UpdatePhotos := EventProfileFinder,
    ConfirmEvent := EventProfileFinder,
    DeclineEvent := EventProfileFinder,
    DeleteEvent := EventProfileFinder,
    DeleteEventForAll := EventProfileFinder]

  /** The table of Services/Notifications/ProfileIdResolverFactory. */
  const ServiceResolvers: map<NotificationType, Finder> := map[
    UpdateEssentialsEvent := EventProfileServiceFinder,
    ConfirmEvent := EventProfileServiceFinder,
    DeclineEvent := EventProfileServiceFinder,
    UpdatePhotos := EventProfileServiceFinder,
    DeleteEvent := EventProfileServiceFinder,
    DeleteEventForAll := EventProfileServiceFinder,
    CreateCommunity := CommunityProfileServiceFinder]

  function NoResolver(kind: NotificationType): Exception
  {
    Exception(NotSupported, "No profile resolver for type " + TypeText(kind), None)
  }

  /** Resolve: the finder registered for the kind, or NotSupportedException; the table is not changed. */
  function Resolve(table: map<NotificationType, Finder>, kind: NotificationType): (r: Result<Finder>)
    ensures r.Success? <==> kind in table
    ensures r.Success? ==> r.value == table[kind]
    ensures r.Failure? ==> r.error.kind == NotSupported && r.error == NoResolver(kind)
  {
    if kind in table then Success(table[kind]) else Failure(NoResolver(kind))
  }

  /** The older table: every event kind, CreateEvent through DeleteEventForAll, to the one event finder. */
  lemma ModelTable(kind: NotificationType)
    ensures Resolve(ModelResolvers, kind).Success? <==> !(kind.UpdateProfile? || kind.CreateCommunity?)
    ensures Resolve(ModelResolvers, kind).Success? ==> Resolve(ModelResolvers, kind).value == EventProfileFinder
  {
  }

  /** A profile update has no finder in the older table: resolving it throws. */
  lemma UpdateProfileUnresolved()
    ensures Resolve(ModelResolvers, UpdateProfile) == Failure(Exception(NotSupported, "No profile resolver for type UpdateProfile", None))
  {
    assert UpdateProfile !in ModelResolvers;
    assert TypeText(UpdateProfile) == "UpdateProfile";
    assert "No profile resolver for type " + "UpdateProfile" == "No profile resolver for type UpdateProfile";
  }

  /** The newer table: six event kinds to the event-profile service, CreateCommunity to the community finder. */
  lemma ServiceTable(kind: NotificationType)
    ensures Resolve(ServiceResolvers, kind).Success? <==>
      !(kind.CreateEvent? || kind.ShareEvent? || kind.UpdateDetailsEvent? || kind.UpdateProfile?)
    ensures Resolve(ServiceResolvers, kind).Success? ==>
      (Resolve(ServiceResolvers, kind).value == CommunityProfileServiceFinder <==> kind.CreateCommunity?)
    ensures Resolve(ServiceResolvers, kind).Success? && !kind.CreateCommunity? ==>
      Resolve(ServiceResolvers, kind).value == EventProfileServiceFinder
  {
  }

  /** The newer table registers no kind the older one leaves out except CreateCommunity, and drops three. */
  lemma TablesCompared()
    ensures ServiceResolvers.Keys - ModelResolvers.Keys == {CreateCommunity}
    ensures ModelResolvers.Keys - ServiceResolvers.Keys == {CreateEvent, ShareEvent, UpdateDetailsEvent}
  {
    forall k: NotificationType ensures k in ServiceResolvers.Keys - ModelResolvers.Keys <==> k == CreateCommunity {
      ModelTable(k);
      ServiceTable(k);
    }
    forall k: NotificationType ensures k in ModelResolvers.Keys - ServiceResolvers.Keys <==> k in {CreateEvent, ShareEvent, UpdateDetailsEvent} {
      ModelTable(k);
      ServiceTable(k);
    }
  }

  /**
   * EventProfileFinder.GetProfileIdsAsync: the profile id of every mirror row of the notified
   * event, one per row and without deduplication; rows of other events never contribute.
   */
  function EventFinderProfileIds(db: Db, n: Notification): (r: seq<Id>)
    ensures |r| == |Matching(db.eventProfiles, OfEvent(n.objectId))|
    ensures forall p :: p in r <==> Link(p, n.objectId) in MirrorLinks(db.eventProfiles)
  {
    GetProfileIds(db, n.objectId)
  }

  /** ProfileProfileService.GetProfileIdsAsync: the identity finder, the profile itself and nothing else. */
  function SelfProfileIds(profileId: Id): (r: seq<Id>)
    ensures |r| == 1 && r[0] == profileId
  {
    [profileId]
  }
}
