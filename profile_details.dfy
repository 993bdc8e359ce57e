// ProfileDetailsService: the users that manage each profile.
module ProfileDetailsStore {
  import opened Common
  import opened Entities
  import opened Database

  /** `new ProfileDetails(profile)`: the profile's id and no users yet. */
  function NewProfileDetails(profile: Profile): (d: ProfileDetails)
    ensures d.profileId == profile.id && d.users == []
  {
    ProfileDetails(profile.id, [])
  }

  /** `new ProfileUser(user)`: the user's id, SuperAdmin, receiving notifications. */
  function ProfileUserOf(user: User): (u: ProfileUser)
    ensures u.userId == user.id && u.role == SuperAdmin && u.receivesNotifications
  {
    ProfileUser(user.id, SuperAdmin, true)
  }

  /** The filter `d.ProfileId == profileId`. */
  function OfProfile(profileId: Id): ProfileDetails -> bool
  {
    (d: ProfileDetails) => d.profileId == profileId
  }

  /** The `$addToSet` on `users`; ProfileDetails is a BaseEntity, so no `updatedAt` is stamped. */
  function AddUserWith(u: ProfileUser): ProfileDetails -> ProfileDetails
  {
    (d: ProfileDetails) => d.(users := AddToSet(d.users, u))
  }

  /** CreateAsync: inserts the details of a new profile, in the caller's session. */
  method Create(store: Store, profile: Profile, session: Session) returns (d: ProfileDetails)
    requires store.Valid()
    modifies store`db, store`nextId, store`trace
    ensures store.Valid() && store.nextId == old(store.nextId) + 1
    ensures d == NewProfileDetails(profile)
    ensures store.db == old(store.db).(profileDetails := old(store.db.profileDetails)[old(store.nextId) := d])
    ensures store.trace == old(store.trace) + [Effect.Write(ProfileDetailsCollection, InsertOneCommand, Some(session))]
  {
    d := NewProfileDetails(profile);
    var id := store.NewId();
    var inserted := InsertOne(store.db.profileDetails, id, d, NoIndex(), ProfileDetailsCollection);
    store.WriteProfileDetails(inserted.value, InsertOneCommand, Some(session));
  }

  /**
   * AddUser: adds the user as a SuperAdmin receiving notifications to the first details record of
   * the profile, in the caller's session, and returns that record after the update, or null when
   * the profile has none.
   */
  method AddUser(store: Store, profileId: Id, user: User, session: Session) returns (r: Option<ProfileDetails>)
    requires store.Valid()
    modifies store`db, store`trace
    ensures store.Valid()
    ensures r.None? <==> forall k :: k in old(store.db.profileDetails) ==> old(store.db.profileDetails)[k].profileId != profileId
    ensures r.Some? ==> r.value.profileId == profileId && ProfileUserOf(user) in r.value.users
    ensures (store.db.profileDetails, r) == FindOneAndUpdate(old(store.db.profileDetails), OfProfile(profileId), AddUserWith(ProfileUserOf(user)))
    ensures store.db == old(store.db).(profileDetails := store.db.profileDetails)
    ensures store.trace == old(store.trace) + [Effect.Write(ProfileDetailsCollection, FindOneAndUpdateCommand, Some(session))]
  {
    var (next, found) := FindOneAndUpdate(store.db.profileDetails, OfProfile(profileId), AddUserWith(ProfileUserOf(user)));
    store.WriteProfileDetails(next, FindOneAndUpdateCommand, Some(session));
    r := found;
  }

  /**
   * AddUser touches only the first record of that profile, which keeps its other users and gains
   * the new one.
   */
  lemma AddUserTouchesOne(m: map<Id, ProfileDetails>, profileId: Id, user: User)
    ensures var once := FindOneAndUpdate(m, OfProfile(profileId), AddUserWith(ProfileUserOf(user))).0;
      && once.Keys == m.Keys
      && (forall k :: k in m && m[k].profileId != profileId ==> once[k] == m[k])
      && (forall k :: k in m ==> once[k].profileId == m[k].profileId)
      && (forall k, u :: k in m && u in m[k].users ==> u in once[k].users)
  {
    FindOneAndUpdateLocal(m, OfProfile(profileId), AddUserWith(ProfileUserOf(user)));
  }

  /** Every field of the entry is fixed by the user, so adding the same user again leaves the collection as it is. */
  lemma AddUserOnce(m: map<Id, ProfileDetails>, profileId: Id, user: User)
    ensures var once := FindOneAndUpdate(m, OfProfile(profileId), AddUserWith(ProfileUserOf(user))).0;
      FindOneAndUpdate(once, OfProfile(profileId), AddUserWith(ProfileUserOf(user))).0 == once
  {
    var u := ProfileUserOf(user);
    var found := FindOneAndUpdate(m, OfProfile(profileId), AddUserWith(u)).1;
    if found.Some? {
      var k :| k in m && OfProfile(profileId)(m[k]) && (forall j :: j in m && OfProfile(profileId)(m[j]) ==> k <= j)
        && FindOneAndUpdate(m, OfProfile(profileId), AddUserWith(u)).0 == m[k := AddUserWith(u)(m[k])];
      AddUserAgain(m, profileId, u, k);
    }
  }

  /** Once the first record `k` of the profile holds the user, adding it again finds `k` and changes nothing. */
  lemma AddUserAgain(m: map<Id, ProfileDetails>, profileId: Id, u: ProfileUser, k: Id)
    requires k in m && OfProfile(profileId)(m[k]) && forall j :: j in m && OfProfile(profileId)(m[j]) ==> k <= j
    ensures var once := m[k := AddUserWith(u)(m[k])];
      FindOneAndUpdate(once, OfProfile(profileId), AddUserWith(u)).0 == once
  {
    var once := m[k := AddUserWith(u)(m[k])];
    var again := FindOneAndUpdate(once, OfProfile(profileId), AddUserWith(u));
    var k2 :| k2 in once && OfProfile(profileId)(once[k2]) && (forall j :: j in once && OfProfile(profileId)(once[j]) ==> k2 <= j)
      && again.0 == once[k2 := AddUserWith(u)(once[k2])];
    assert k2 == k by {
      assert OfProfile(profileId)(m[k2]);
      assert OfProfile(profileId)(once[k]);
    }
    assert AddUserWith(u)(once[k]) == once[k];
  }
}
