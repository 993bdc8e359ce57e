// ProfileCommunityService and CommunityProfileService: the per-profile rows of a community and
// their community-side mirrors.
module Communities {
  import opened Common
  import opened Entities
  import opened Database

  // ----- CommunityProfileService.CreateAsync -----

  /** `new CommunityProfile(pc)`: the row's community and profile. */
  function MirrorOf(pc: ProfileCommunity): (cp: CommunityProfile)
    ensures cp.communityId == pc.communityId && cp.profileId == pc.profileId
  {
    CommunityProfile(pc.communityId, pc.profileId)
  }

  /** The mirror of each row, in order. */
  function MirrorsOf(rows: seq<ProfileCommunity>): (r: seq<CommunityProfile>)
    ensures |r| == |rows| && forall i :: 0 <= i < |rows| ==> r[i] == MirrorOf(rows[i])
  {
    seq(|rows|, i requires 0 <= i < |rows| => MirrorOf(rows[i]))
  }

  /** A fresh run of ids can always take a batch of an unindexed collection. */
  lemma UnindexedAdmissible<D>(coll: map<Id, D>, ids: seq<Id>, docs: seq<D>)
    requires |ids| == |docs|
    requires forall i :: 0 <= i < |ids| ==> ids[i] !in coll
    requires forall i, j :: 0 <= i < j < |ids| ==> ids[i] < ids[j]
    ensures Admissible(coll, ids, docs, NoIndex())
  {
  }

  /**
   * CommunityProfileService.CreateAsync: one mirror per row, in the same order, written in a single
   * bulk insert that takes no session.
   */
  method CreateMirrors(store: Store, rows: seq<ProfileCommunity>) returns (mirrors: seq<CommunityProfile>)
    requires store.Valid()
    modifies store`db, store`nextId, store`trace
    ensures store.Valid() && store.nextId == old(store.nextId) + |rows|
    ensures mirrors == MirrorsOf(rows)
    ensures StoredAfter(old(store.db.communityProfiles), store.db.communityProfiles, old(store.nextId), mirrors)
    ensures store.db == old(store.db).(communityProfiles := store.db.communityProfiles)
    ensures store.trace == old(store.trace) + [Effect.Write(CommunityProfilesCollection, InsertManyCommand, None)]
  {
    mirrors := [];
    var i := 0;
    while i < |rows|
      invariant 0 <= i <= |rows| && |mirrors| == i
      invariant forall j :: 0 <= j < i ==> mirrors[j] == MirrorOf(rows[j])
    {
      mirrors := mirrors + [MirrorOf(rows[i])];
      i := i + 1;
    }
    var start := store.nextId;
    var ids := store.NewIds(|rows|);
    FreshRun(store.db, start, ids);
    UnindexedAdmissible(store.db.communityProfiles, ids, mirrors);
    var (next, _) := InsertMany(store.db.communityProfiles, ids, mirrors, NoIndex(), CommunityProfilesCollection);
    RunStored(store.db.communityProfiles, next, start, ids, mirrors);
    store.WriteCommunityProfiles(next, InsertManyCommand, None);
  }

  // ----- ProfileCommunityService.CreateAsync -----

  const PersonalCountMessage: string := "Personal community must be between two profiles"
  const NoOtherMessage: string := "Sequence contains no matching element"

  /** `profiles.Where(prof => prof.Id != id).First()`, or none when every profile has that id. */
  function FirstOther(profiles: seq<Profile>, id: Id): (r: Option<Profile>)
    ensures r.None? <==> forall i :: 0 <= i < |profiles| ==> profiles[i].id == id
    ensures r.Some? ==> exists i :: (0 <= i < |profiles| && profiles[i] == r.value && r.value.id != id
      && forall j :: 0 <= j < i ==> profiles[j].id == id)
  {
    if profiles == [] then None
    else if profiles[0].id != id then Some(profiles[0])
    else
      var rest := FirstOther(profiles[1..], id);
      if rest.Some? then
        var i :| 0 <= i < |profiles[1..]| && profiles[1..][i] == rest.value && rest.value.id != id
          && forall j :: 0 <= j < i ==> profiles[1..][j].id == id;
        assert profiles[i + 1] == rest.value;
        assert forall j :: 0 < j <= i ==> profiles[j] == profiles[1..][j - 1];
        rest
      else rest
  }

  /** The row of profile `p`: its membership of the group with the owner as Owner, and the other profile of a personal community. */
  function RowOf(p: Profile, community: Community, groupId: Id, group: Group, owner: Profile, other: Option<Id>): (pc: ProfileCommunity)
    ensures pc.profileId == p.id && pc.communityId == community.id && pc.name == community.name
    ensures pc.communityType == community.communityType && pc.communityUpdatedAt == community.updatedAt
    ensures pc.groups == [ProfileGroup(groupId, group.name, if p == owner then Owner else GroupViewer)]
    ensures pc.otherProfileId == other
  {
    ProfileCommunity(p.id, community.id, community.name, community.communityType, community.updatedAt,
      [ProfileGroup(groupId, group.name, if p == owner then Owner else GroupViewer)], other)
  }

  /** The other profile stored on a row: in a personal community the first profile with another id, else none. */
  function OtherOf(profiles: seq<Profile>, p: Profile, community: Community): Option<Id>
  {
    if community.communityType == Personal && FirstOther(profiles, p.id).Some? then Some(FirstOther(profiles, p.id).value.id) else None
  }

  /**
   * The rows CreateAsync builds, or the exception its loop throws on the first profile: a personal
   * community needs exactly two profiles, and two profiles with one id have no other profile.
   */
  function Rows(community: Community, groupId: Id, group: Group, owner: Profile, profiles: seq<Profile>): (r: Result<seq<ProfileCommunity>>)
    ensures r.Failure? <==> community.communityType == Personal && profiles != [] && (|profiles| != 2 || profiles[0].id == profiles[1].id)
    ensures r.Failure? && |profiles| != 2 ==> r == Throw(Argument, PersonalCountMessage)
    ensures r.Failure? && |profiles| == 2 ==> r == Throw(InvalidOperation, NoOtherMessage)
    ensures r.Success? ==> |r.value| == |profiles|
    ensures r.Success? ==> forall i :: 0 <= i < |profiles| ==> r.value[i] == RowOf(profiles[i], community, groupId, group, owner, OtherOf(profiles, profiles[i], community))
  {
    if community.communityType == Personal && profiles != [] && |profiles| != 2 then Throw(Argument, PersonalCountMessage)
    else if community.communityType == Personal && profiles != [] && profiles[0].id == profiles[1].id then Throw(InvalidOperation, NoOtherMessage)
    else Success(seq(|profiles|, i requires 0 <= i < |profiles| => RowOf(profiles[i], community, groupId, group, owner, OtherOf(profiles, profiles[i], community))))
  }

  /**
   * One row per profile, in order, each copying the community: the owner's row is its Owner and
   * every other row a Viewer; in a personal community each row names the other of the two
   * profiles, in any other community none.
   */
  lemma RowsDescribeMembers(community: Community, groupId: Id, group: Group, owner: Profile, profiles: seq<Profile>)
    requires Rows(community, groupId, group, owner, profiles).Success?
    ensures var rows := Rows(community, groupId, group, owner, profiles).value;
      && |rows| == |profiles|
      && (forall i :: 0 <= i < |rows| ==> rows[i].profileId == profiles[i].id && rows[i].communityId == community.id)
      && (forall i :: 0 <= i < |rows| ==> (rows[i].groups[0].role == Owner <==> profiles[i] == owner))
      && (community.communityType == Personal && profiles != [] ==>
            |rows| == 2 && rows[0].otherProfileId == Some(profiles[1].id) && rows[1].otherProfileId == Some(profiles[0].id))
      && (community.communityType != Personal ==> forall i :: 0 <= i < |rows| ==> rows[i].otherProfileId.None?)
  {
    var rows := Rows(community, groupId, group, owner, profiles).value;
    if community.communityType == Personal && profiles != [] {
      assert FirstOther(profiles, profiles[0].id) == Some(profiles[1]) by {
        assert profiles[1..] == [profiles[1]];
      }
      assert rows[0] == RowOf(profiles[0], community, groupId, group, owner, OtherOf(profiles, profiles[0], community));
      assert rows[1] == RowOf(profiles[1], community, groupId, group, owner, OtherOf(profiles, profiles[1], community));
    }
  }

  /** The loop of CreateAsync: one row per profile, checking the personal-community rule on each. */
  method BuildRows(community: Community, groupId: Id, group: Group, owner: Profile, profiles: seq<Profile>)
    returns (r: Result<seq<ProfileCommunity>>)
    ensures r == Rows(community, groupId, group, owner, profiles)
  {
    var rows: seq<ProfileCommunity> := [];
    var i := 0;
    while i < |profiles|
      invariant 0 <= i <= |profiles| && |rows| == i
      invariant forall j :: 0 <= j < i ==> rows[j] == RowOf(profiles[j], community, groupId, group, owner, OtherOf(profiles, profiles[j], community))
      invariant i > 0 && community.communityType == Personal ==> |profiles| == 2 && profiles[0].id != profiles[1].id
    {
      var p := profiles[i];
      var other: Option<Id> := None;
      if community.communityType == Personal {
        if |profiles| != 2 {
          return Throw(Argument, PersonalCountMessage);
        }
        var found := FirstOther(profiles, p.id);
        if found.None? {
          assert profiles[0].id == profiles[1].id;
          assert Rows(community, groupId, group, owner, profiles) == Throw(InvalidOperation, NoOtherMessage);
          return Throw(InvalidOperation, NoOtherMessage);
        }
        other := Some(found.value.id);
      }
      rows := rows + [RowOf(p, community, groupId, group, owner, other)];
      i := i + 1;
    }
    assert Rows(community, groupId, group, owner, profiles).Success?;
    assert rows == Rows(community, groupId, group, owner, profiles).value;
    r := Success(rows);
  }

  /** CreateManyAsync of the rows in the caller's session: each row under the next fresh id. */
  method InsertRows(store: Store, rows: seq<ProfileCommunity>, session: Session)
    requires store.Valid()
    modifies store`db, store`nextId, store`trace
    ensures store.Valid() && store.nextId == old(store.nextId) + |rows|
    ensures StoredAfter(old(store.db.profileCommunities), store.db.profileCommunities, old(store.nextId), rows)
    ensures store.db == old(store.db).(profileCommunities := store.db.profileCommunities)
    ensures store.trace == old(store.trace) + [Effect.Write(ProfileCommunitiesCollection, InsertManyCommand, Some(session))]
  {
    var start := store.nextId;
    var ids := store.NewIds(|rows|);
    FreshRun(store.db, start, ids);
    UnindexedAdmissible(store.db.profileCommunities, ids, rows);
    var (next, _) := InsertMany(store.db.profileCommunities, ids, rows, NoIndex(), ProfileCommunitiesCollection);
    RunStored(store.db.profileCommunities, next, start, ids, rows);
    store.WriteProfileCommunities(next, InsertManyCommand, Some(session));
  }

  /** The two inserts of CreateAsync: the rows in the session, then their mirrors outside it. */
  method InsertWithMirrors(store: Store, rows: seq<ProfileCommunity>, session: Session)
    requires store.Valid()
    modifies store`db, store`nextId, store`trace
    ensures store.Valid() && store.nextId == old(store.nextId) + 2 * |rows|
    ensures StoredAfter(old(store.db.profileCommunities), store.db.profileCommunities, old(store.nextId), rows)
    ensures StoredAfter(old(store.db.communityProfiles), store.db.communityProfiles, old(store.nextId) + |rows|, MirrorsOf(rows))
    ensures store.db == old(store.db).(profileCommunities := store.db.profileCommunities, communityProfiles := store.db.communityProfiles)
    ensures store.trace == old(store.trace) + [Effect.Write(ProfileCommunitiesCollection, InsertManyCommand, Some(session)),
                                               Effect.Write(CommunityProfilesCollection, InsertManyCommand, None)]
  {
    ghost var db0, trace0 := store.db, store.trace;
    InsertRows(store, rows, session);
    ghost var db1, trace1 := store.db, store.trace;
    var mirrors := CreateMirrors(store, rows);
    assert store.db == db1.(communityProfiles := store.db.communityProfiles);
    assert store.db == db0.(profileCommunities := db1.profileCommunities, communityProfiles := store.db.communityProfiles);
    assert store.trace == trace0 + [trace1[|trace0|], store.trace[|trace1|]];
  }

  /**
   * ProfileCommunityService.CreateAsync: the rows of the profiles, bulk-inserted in the caller's
   * session, then their mirrors, inserted outside it; an exception of the loop comes before any
   * insert.
   */
  method Create(store: Store, community: Community, groupId: Id, group: Group, owner: Profile, profiles: seq<Profile>, session: Session)
    returns (r: Result<seq<ProfileCommunity>>)
    requires store.Valid()
    modifies store`db, store`nextId, store`trace
    ensures store.Valid()
    ensures r == Rows(community, groupId, group, owner, profiles)
    ensures r.Failure? ==> store.db == old(store.db) && store.nextId == old(store.nextId) && store.trace == old(store.trace)
    ensures r.Success? ==> store.nextId == old(store.nextId) + 2 * |profiles|
    ensures r.Success? ==> StoredAfter(old(store.db.profileCommunities), store.db.profileCommunities, old(store.nextId), r.value)
    ensures r.Success? ==> StoredAfter(old(store.db.communityProfiles), store.db.communityProfiles, old(store.nextId) + |profiles|, MirrorsOf(r.value))
    ensures r.Success? ==> store.db == old(store.db).(profileCommunities := store.db.profileCommunities, communityProfiles := store.db.communityProfiles)
    ensures r.Success? ==> store.trace == old(store.trace) + [Effect.Write(ProfileCommunitiesCollection, InsertManyCommand, Some(session)),
                                                             Effect.Write(CommunityProfilesCollection, InsertManyCommand, None)]
  {
    var built := BuildRows(community, groupId, group, owner, profiles);
    if built.Failure? {
      return built;
    }
    InsertWithMirrors(store, built.value, session);
    r := built;
  }

  // ----- RetrieveProfileCommunitiesByProfile -----

  /** RetrieveProfileCommunitiesByProfile: every row of the profile, and only those. */
  function RetrieveByProfile(rows: map<Id, ProfileCommunity>, profile: Profile): (r: seq<ProfileCommunity>)
    ensures forall i :: 0 <= i < |r| ==> r[i].profileId == profile.id && r[i] in rows.Values
    ensures forall k :: k in rows && rows[k].profileId == profile.id ==> rows[k] in r
  {
    RetrieveMultiple(rows, (pc: ProfileCommunity) => pc.profileId == profile.id, None)
  }

  /** After a community is created, each of its profiles retrieves its row of that community. */
  lemma CreatedRowsRetrieved(m: map<Id, ProfileCommunity>, next: map<Id, ProfileCommunity>, start: Id,
                             community: Community, groupId: Id, group: Group, owner: Profile, profiles: seq<Profile>, i: nat)
    requires Rows(community, groupId, group, owner, profiles).Success?
    requires StoredAfter(m, next, start, Rows(community, groupId, group, owner, profiles).value)
    requires i < |profiles|
    ensures exists pc :: pc in RetrieveByProfile(next, profiles[i]) && pc.communityId == community.id
  {
    var rows := Rows(community, groupId, group, owner, profiles).value;
    var k: Id := start + i;
    assert next[k] == rows[i];
    assert next[k] in RetrieveByProfile(next, profiles[i]);
  }

  // ----- FindPersonalCommunity -----

  /** The filter `pc.ProfileId == owner.Id && pc.OtherProfileId == secondary.Id`. */
  function PersonalFilter(owner: Profile, secondary: Profile): ProfileCommunity -> bool
  {
    (pc: ProfileCommunity) => pc.profileId == owner.id && pc.otherProfileId == Some(secondary.id)
  }

  /** FindPersonalCommunity: the first row of `owner` naming `secondary` as its other profile, or null. */
  function FindPersonalCommunity(rows: map<Id, ProfileCommunity>, owner: Profile, secondary: Profile): (r: Option<ProfileCommunity>)
    ensures r.None? <==> forall k :: k in rows ==> rows[k].profileId != owner.id || rows[k].otherProfileId != Some(secondary.id)
    ensures r.Some? ==> r.value.profileId == owner.id && r.value.otherProfileId == Some(secondary.id) && r.value in rows.Values
  {
    RetrieveOrNull(rows, PersonalFilter(owner, secondary))
  }

  /**
   * Once a personal community of two profiles is created, each finds it with the other; when no
   * earlier row pairs them, the find returns the new row.
   */
  lemma CreatedPersonalFound(m: map<Id, ProfileCommunity>, next: map<Id, ProfileCommunity>, start: Id,
                             community: Community, groupId: Id, group: Group, owner: Profile, a: Profile, b: Profile)
    requires community.communityType == Personal
    requires Rows(community, groupId, group, owner, [a, b]).Success?
    requires StoredAfter(m, next, start, Rows(community, groupId, group, owner, [a, b]).value)
    requires forall k :: k in m ==> k < start
    ensures FindPersonalCommunity(next, a, b).Some? && FindPersonalCommunity(next, b, a).Some?
    ensures FindPersonalCommunity(m, a, b).None? ==>
      FindPersonalCommunity(next, a, b) == Some(Rows(community, groupId, group, owner, [a, b]).value[0])
  {
    var rows := Rows(community, groupId, group, owner, [a, b]).value;
    RowsDescribeMembers(community, groupId, group, owner, [a, b]);
    var second: Id := start + 1;
    assert next[start] == rows[0] && next[second] == rows[1];
    assert PersonalFilter(a, b)(next[start]);
    assert PersonalFilter(b, a)(next[second]);
    if FindPersonalCommunity(m, a, b).None? {
      var found := FindPersonalCommunity(next, a, b).value;
      var k: Id :| k in next && next[k] == found && PersonalFilter(a, b)(found)
        && forall j :: j in next && PersonalFilter(a, b)(next[j]) ==> k <= j;
      assert k == start by {
        assert k !in m;
        assert k <= start;
      }
    }
  }
}
