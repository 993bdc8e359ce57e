// GroupService: groups of profiles inside a community, and the share targets they resolve to.
module Groups {
  import opened Common
  import opened Entities
  import opened Database

  /** ShareEventRequestDto: one group of one community named in a share request. */
  datatype ShareRequest = ShareRequest(groupId: Id, communityId: Id)

  // ----- CreateAsync -----

  /** The members of a new group, in the order the profiles are listed: the owner as Owner, every other as Viewer. */
  function GroupProfiles(profiles: seq<Profile>, owner: Profile): (r: seq<GroupProfile>)
    ensures |r| == |profiles|
    ensures forall i :: 0 <= i < |r| ==> r[i].profileId == Some(profiles[i].id)
    ensures forall i :: 0 <= i < |r| ==> (r[i].role == Owner <==> profiles[i].id == owner.id)
  {
    seq(|profiles|, i requires 0 <= i < |profiles| =>
      GroupProfile(Some(profiles[i].id), if profiles[i].id == owner.id then Owner else GroupViewer))
  }

  /** CreateAsync: inserts a new group of the community with those members, in the caller's session if any. */
  method Create(store: Store, profiles: seq<Profile>, owner: Profile, community: Community, mainGroup: bool, name: string, session: Option<Session>)
    returns (g: Group)
    requires store.Valid()
    modifies store`db, store`nextId, store`clock, store`trace
    ensures store.Valid() && store.nextId == old(store.nextId) + 1
    ensures g == Group(Some(community.id), name, GroupProfiles(profiles, owner), mainGroup, store.clock, store.clock)
    ensures store.db == old(store.db).(groups := old(store.db.groups)[old(store.nextId) := g])
    ensures store.trace == old(store.trace) + [Effect.Write(GroupsCollection, InsertOneCommand, session)]
  {
    var now := store.Now();
    g := Group(Some(community.id), name, GroupProfiles(profiles, owner), mainGroup, now, now);
    var id := store.NewId();
    var inserted := InsertOne(store.db.groups, id, g, NoIndex(), GroupsCollection);
    store.WriteGroups(inserted.value, InsertOneCommand, session);
  }

  // ----- GetProfilesByGroupIds -----

  /** The filter `_id in groupIds && communityId in communityIds`; a group without a community never matches. */
  function InRequest(groupIds: set<Id>, communityIds: set<Id>): (Id, Group) -> bool
  {
    (k: Id, g: Group) => k in groupIds && g.communityId.Some? && g.communityId.value in communityIds
  }

  /** The group ids named by the requests. */
  function GroupIds(dtos: seq<ShareRequest>): (r: set<Id>)
    ensures forall k :: k in r <==> exists i :: 0 <= i < |dtos| && dtos[i].groupId == k
  {
    set i | 0 <= i < |dtos| :: dtos[i].groupId
  }

  /** The community ids named by the requests, without repetition. */
  function CommunityIds(dtos: seq<ShareRequest>): (r: set<Id>)
    ensures forall k :: k in r <==> exists i :: 0 <= i < |dtos| && dtos[i].communityId == k
  {
    set i | 0 <= i < |dtos| :: dtos[i].communityId
  }

  /** The groups a share request considers: named by some request, in a community named by some request. */
  function Considered(groups: map<Id, Group>, dtos: seq<ShareRequest>): (r: set<Id>)
    ensures forall k :: k in r <==>
      k in groups && k in GroupIds(dtos) && groups[k].communityId.Some? && groups[k].communityId.value in CommunityIds(dtos)
  {
    set k | k in groups && InRequest(GroupIds(dtos), CommunityIds(dtos))(k, groups[k])
  }

  /** The profile ids listed among the group's members. */
  function MemberIds(g: Group): (r: set<Id>)
    ensures forall p :: p in r <==> exists t :: 0 <= t < |g.profiles| && g.profiles[t].profileId == Some(p)
  {
    set t | 0 <= t < |g.profiles| && g.profiles[t].profileId.Some? :: g.profiles[t].profileId.value
  }

  /** The profile is listed among the group's members. */
  predicate IsMember(g: Group, profileId: Id)
  {
    profileId in MemberIds(g)
  }

  /** The members of the group other than the current profile, skipping members without a profile id. */
  function Others(g: Group, current: Id): (r: set<Id>)
    ensures forall p :: p in r <==> p != current && IsMember(g, p)
  {
    set t | 0 <= t < |g.profiles| && g.profiles[t].profileId.Some? && g.profiles[t].profileId.value != current
      :: g.profiles[t].profileId.value
  }

  function NotMemberMessage(k: Id): string
  {
    "Current profile is not a member of group " + IdText(k)
  }

  /** `message` names the considered group `k`, which does not list the current profile. */
  predicate NamesNonMember(groups: map<Id, Group>, dtos: seq<ShareRequest>, k: Id, current: Id, message: string)
  {
    k in Considered(groups, dtos) && !IsMember(groups[k], current) && message == NotMemberMessage(k)
  }

  /** The inner loop over one group's members: whether the current profile is listed, and the others. */
  method ScanMembers(g: Group, current: Id) returns (found: bool, others: set<Id>)
    ensures found <==> IsMember(g, current)
    ensures others == Others(g, current)
  {
    found := false;
    others := {};
    for t := 0 to |g.profiles|
      invariant found <==> exists s :: 0 <= s < t && g.profiles[s].profileId == Some(current)
      invariant forall p :: p in others <==> p != current && exists s :: 0 <= s < t && g.profiles[s].profileId == Some(p)
    {
      if g.profiles[t].profileId == Some(current) {
        found := true;
        continue;
      }
      if g.profiles[t].profileId.Some? {
        others := others + {g.profiles[t].profileId.value};
      }
    }
  }

  /**
   * GetProfilesByGroupIds: the union of the members of every considered group, without the current
   * profile and without members that have no profile id; UnauthorizedAccessException, naming the
   * group, as soon as a considered group (in natural order) does not list the current profile.
   */
  method GetProfilesByGroupIds(store: Store, dtos: seq<ShareRequest>, current: Profile) returns (r: Result<set<Id>>)
    ensures var considered := Considered(store.db.groups, dtos);
      r.Failure? <==> exists k :: k in considered && !IsMember(store.db.groups[k], current.id)
    ensures r.Failure? ==> r.error.kind == UnauthorizedAccess
    ensures r.Failure? ==> exists k: Id :: (NamesNonMember(store.db.groups, dtos, k, current.id, r.error.message)
      && forall k' :: k' in Considered(store.db.groups, dtos) && k' < k ==> IsMember(store.db.groups[k'], current.id))
    ensures r.Success? ==> forall p :: p in r.value <==>
      exists k :: k in Considered(store.db.groups, dtos) && p in Others(store.db.groups[k], current.id)
  {
    var groups := store.db.groups;
    var considered := Considered(groups, dtos);
    var keys := SortedIds(considered);
    var bad, ids := ScanGroups(groups, keys, current.id);
    if bad.Some? {
      var k := keys[bad.value];
      FirstNonMember(groups, considered, keys, current.id, bad.value);
      assert NamesNonMember(groups, dtos, k, current.id, NotMemberMessage(k));
      return Failure(Exception(UnauthorizedAccess, NotMemberMessage(k), None));
    }
    AllKeysScanned(groups, considered, keys, current.id, ids);
    r := Success(ids);
  }

  /**
   * The loop of GetProfilesByGroupIds over the keys: the position of the first group that does not
   * list the current profile, or else the union of the other members of all of them.
   */
  method ScanGroups(groups: map<Id, Group>, keys: seq<Id>, current: Id) returns (bad: Option<nat>, ids: set<Id>)
    requires forall i :: 0 <= i < |keys| ==> keys[i] in groups
    ensures bad.Some? ==> bad.value < |keys| && !IsMember(groups[keys[bad.value]], current)
    ensures bad.Some? ==> forall j :: 0 <= j < bad.value ==> IsMember(groups[keys[j]], current)
    ensures bad.None? ==> forall j :: 0 <= j < |keys| ==> IsMember(groups[keys[j]], current)
    ensures bad.None? ==> forall p :: p in ids <==> exists j :: 0 <= j < |keys| && p in Others(groups[keys[j]], current)
  {
    ids := {};
    for i := 0 to |keys|
      invariant forall j :: 0 <= j < i ==> IsMember(groups[keys[j]], current)
      invariant forall p :: p in ids <==> exists j :: 0 <= j < i && p in Others(groups[keys[j]], current)
    {
      var found, others := ScanMembers(groups[keys[i]], current);
      if !found {
        return Some(i), ids;
      }
      ids := ids + others;
    }
    bad := None;
  }

  /** The first key in natural order whose group does not list the profile is the least such considered key. */
  lemma FirstNonMember(groups: map<Id, Group>, considered: set<Id>, keys: seq<Id>, current: Id, b: nat)
    requires Increasing(keys) && b < |keys|
    requires forall i :: 0 <= i < |keys| ==> keys[i] in considered && keys[i] in groups
    requires forall k :: k in considered ==> k in keys
    requires forall j :: 0 <= j < b ==> IsMember(groups[keys[j]], current)
    ensures forall k :: k in considered && k < keys[b] ==> IsMember(groups[k], current)
  {
    forall k | k in considered && k < keys[b] ensures IsMember(groups[k], current) {
      var j :| 0 <= j < |keys| && keys[j] == k;
      assert j < b;
    }
  }

  /** Once the loop has run over every considered key, its facts are about the considered set. */
  lemma AllKeysScanned(groups: map<Id, Group>, considered: set<Id>, keys: seq<Id>, current: Id, ids: set<Id>)
    requires forall i :: 0 <= i < |keys| ==> keys[i] in considered && keys[i] in groups
    requires forall k :: k in considered ==> k in keys
    requires forall j :: 0 <= j < |keys| ==> IsMember(groups[keys[j]], current)
    requires forall p :: p in ids <==> exists j :: 0 <= j < |keys| && p in Others(groups[keys[j]], current)
    ensures forall k :: k in considered ==> IsMember(groups[k], current)
    ensures forall p :: p in ids <==> exists k :: k in considered && k in groups && p in Others(groups[k], current)
  {
    forall p ensures p in ids <==> exists k :: k in considered && k in groups && p in Others(groups[k], current) {
      if exists k :: k in considered && k in groups && p in Others(groups[k], current) {
        var k :| k in considered && k in groups && p in Others(groups[k], current);
        var j :| 0 <= j < |keys| && keys[j] == k;
      }
    }
    forall k | k in considered ensures IsMember(groups[k], current) {
      var j :| 0 <= j < |keys| && keys[j] == k;
    }
  }

  /**
   * A group built by CreateAsync lists its owner when the owner is among the profiles, so a share
   * through that group by its owner is allowed; its other members are exactly the other profiles.
   */
  lemma CreatedGroupAdmitsOwner(profiles: seq<Profile>, owner: Profile, g: Group)
    requires g.profiles == GroupProfiles(profiles, owner)
    ensures IsMember(g, owner.id) <==> exists i :: 0 <= i < |profiles| && profiles[i].id == owner.id
    ensures forall p :: p != owner.id ==> (IsMember(g, p) <==> exists i :: 0 <= i < |profiles| && profiles[i].id == p)
  {
    forall p ensures IsMember(g, p) <==> exists i :: 0 <= i < |profiles| && profiles[i].id == p {
      if exists i :: 0 <= i < |profiles| && profiles[i].id == p {
        var i :| 0 <= i < |profiles| && profiles[i].id == p;
        assert g.profiles[i].profileId == Some(p);
      }
    }
  }
}
