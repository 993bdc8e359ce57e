// UserService: finding a user by account, creating a user with its main profile in one
// transaction, linking a profile to a user, and pairing a user's profiles with its links.
module Users {
  import opened Common
  import opened Entities
  import opened Database
  import Profiles
  import Tags = ProfileTags
  import Details = ProfileDetailsStore

  // ----- RetrieveByAccountUid -----

  /** The filter `ElemMatch(u => u.Accounts, a => a.Uid == uid)`. */
  function HasAccount(uid: string): User -> bool
  {
    (u: User) => exists i :: 0 <= i < |u.accounts| && u.accounts[i].uid == uid
  }

  /** RetrieveByAccountUid: the first of the users with an account of that uid, or null when none has one. */
  function RetrieveByAccountUid(users: map<Id, User>, uid: string): (r: Option<User>)
    ensures r.None? <==> forall k :: k in users ==> !HasAccount(uid)(users[k])
    ensures r.Some? ==> HasAccount(uid)(r.value) && r.value in users.Values
  {
    var found := RetrieveMultiple(users, HasAccount(uid), None);
    if found == [] then None else Some(found[0])
  }

  /** FirstOrDefault in natural order: the user found is the holder of the account stored under the least id. */
  lemma AccountHolderLeast(users: map<Id, User>, uid: string)
    ensures RetrieveByAccountUid(users, uid) == RetrieveOrNull(users, HasAccount(uid))
    ensures RetrieveByAccountUid(users, uid).Some? ==> exists k :: (k in users && users[k] == RetrieveByAccountUid(users, uid).value
      && forall j :: j in users && HasAccount(uid)(users[j]) ==> k <= j)
  {
    FirstRetrievedLeast(users, HasAccount(uid));
  }

  // ----- AddProfileAsync -----

  /** `new UserProfile(profile, role, mainProfile)`: the profile's id, the role, the default colour and the main flag. */
  function NewLink(profile: Profile, role: UserProfileRole, mainProfile: bool): (up: UserProfile)
    ensures up.profileId == profile.id && up.role == role && up.color == DefaultColor && up.mainProfile == mainProfile
  {
    UserProfile(profile.id, role, DefaultColor, mainProfile)
  }

  /** The `$push` onto `profiles`, followed by the store's automatic stamp. */
  function PushWith(link: UserProfile, now: Time): User -> User
  {
    (u: User) => u.(profiles := u.profiles + [link], updatedAt := now)
  }

  /** The database after AddProfileAsync: the user as updated, and the updated user added to the profile's details. */
  function ProfileAdded(db: Db, profileId: Id, updated: User): Db
  {
    db.(users := db.users[updated.id := updated],
        profileDetails := FindOneAndUpdate(db.profileDetails, Details.OfProfile(profileId), Details.AddUserWith(Details.ProfileUserOf(updated))).0)
  }

  /** The two writes of AddProfileAsync, both in the caller's session. */
  function AddProfileWrites(session: Session): seq<Effect>
  {
    [Effect.Write(UsersCollection, FindOneAndUpdateCommand, Some(session)),
     Effect.Write(ProfileDetailsCollection, FindOneAndUpdateCommand, Some(session))]
  }

  /**
   * AddProfileAsync: pushes the link to the profile onto the stored user, then adds the updated
   * user to the profile's details, and returns the updated user; KeyNotFoundException, before the
   * details are touched, when the user is not stored.
   */
  method AddProfile(store: Store, profile: Profile, user: User, session: Session, role: UserProfileRole, mainProfile: bool)
    returns (r: Result<User>)
    requires store.Valid()
    modifies store`db, store`clock, store`trace
    ensures store.Valid() && old(store.clock) <= store.clock
    ensures r.Failure? <==> user.id !in old(store.db.users)
    ensures r.Failure? ==> r.error.kind == KeyNotFound && store.db == old(store.db)
    ensures r.Failure? ==> store.trace == old(store.trace) + AddProfileWrites(session)[..1]
    ensures r.Success? ==> r.value == PushWith(NewLink(profile, role, mainProfile), store.clock)(old(store.db.users)[user.id])
    ensures r.Success? ==> store.db == ProfileAdded(old(store.db), profile.id, r.value)
    ensures r.Success? ==> store.trace == old(store.trace) + AddProfileWrites(session)
  {
    var link := NewLink(profile, role, mainProfile);
    var now := store.Now();
    var (users, updated) := FindOneByIdAndUpdate(store.db.users, user.id, PushWith(link, now), UsersCollection);
    store.WriteUsers(users, FindOneAndUpdateCommand, Some(session));
    if updated.Failure? {
      return Failure(updated.error);
    }
    var _ := Details.AddUser(store, profile.id, updated.value, session);
    r := Success(updated.value);
  }

  // ----- GetOrCreateAsync and CreateUserAsync -----

  const NoEmailMessage: string := "No Email in the claims"

  /** `new User(new Account(uid, mail))` once the driver has given it the id `id`: no profiles or devices, created and updated now. */
  function NewUser(id: Id, uid: string, mail: string, now: Time): (u: User)
    ensures u.id == id && u.profiles == [] && u.accounts == [Account(uid, mail)] && u.devices == []
    ensures u.createdAt == now && u.updatedAt == now
  {
    User(id, [], [Account(uid, mail)], [], now, now)
  }

  /**
   * The database after CreateUserAsync's callback: the new user, its profile with details and tag
   * row, the SuperAdmin main-profile link on the user, and the user on the profile's details.
   */
  function UserCreated(db: Db, user: User, profile: Profile, tagTime: Time, pushTime: Time): Db
  {
    var withUser := db.(users := db.users[user.id := user]);
    var withProfile := Profiles.Created(withUser, profile, tagTime);
    ProfileAdded(withProfile, profile.id, PushWith(NewLink(profile, SuperAdmin, true), pushTime)(user))
  }

  /** The writes of CreateUserAsync's callback, in order, all in its session. */
  function CreateUserWrites(session: Session): (e: seq<Effect>)
    ensures forall x :: x in e ==> x.Write? && x.writeSession == Some(session)
  {
    [Effect.Write(UsersCollection, InsertOneCommand, Some(session))] + Profiles.CreateWrites(session) + AddProfileWrites(session)
  }

  /** The first write of the callback: the new user under a new id. */
  method InsertUser(store: Store, uid: string, mail: string, session: Session) returns (user: User)
    requires store.Valid()
    modifies store`db, store`nextId, store`clock, store`trace
    ensures store.Valid() && store.nextId == old(store.nextId) + 1 && old(store.clock) <= store.clock
    ensures user == NewUser(old(store.nextId), uid, mail, store.clock)
    ensures store.db == old(store.db).(users := old(store.db.users)[user.id := user])
    ensures store.trace == old(store.trace) + [Effect.Write(UsersCollection, InsertOneCommand, Some(session))]
  {
    var now := store.Now();
    var id := store.NewId();
    user := NewUser(id, uid, mail, now);
    var inserted := InsertOne(store.db.users, id, user, NoIndex(), UsersCollection);
    store.WriteUsers(inserted.value, InsertOneCommand, Some(session));
  }

  /**
   * CreateUserAsync's callback: inserts the user, creates its profile (tag = uid, name = mail) and
   * links it as the SuperAdmin main profile. It returns the user as it was inserted, so the
   * returned document does not yet list the link.
   */
  method CreateCallback(store: Store, uid: string, mail: string, session: Session)
    returns (r: Result<User>, ghost profile: Profile, ghost tagTime: Time, ghost pushTime: Time, ghost body: seq<Effect>)
    requires store.Valid()
    modifies store`db, store`nextId, store`clock, store`trace
    ensures store.Valid() && store.nextId == old(store.nextId) + 4 && store.trace == old(store.trace) + body
    ensures r.Failure? <==> Profiles.TagTaken(old(store.db.profileTags), uid, old(store.nextId) + 1)
    ensures r.Failure? ==> r.error == MongoFailure("for document", ProfileTagsCollection)
    ensures r.Success? ==> r.value == NewUser(old(store.nextId), uid, mail, r.value.createdAt) && old(store.clock) <= r.value.createdAt
    ensures r.Success? ==> profile == Profiles.NewProfile(old(store.nextId) + 1, uid, mail, profile.createdAt)
    ensures r.Success? ==> store.db == UserCreated(old(store.db), r.value, profile, tagTime, pushTime)
    ensures r.Success? ==> body == CreateUserWrites(session)
  {
    var user := InsertUser(store, uid, mail, session);
    ghost var afterUser := store.db;
    body := [Effect.Write(UsersCollection, InsertOneCommand, Some(session))];
    var created := Profiles.Create(store, uid, mail, session);
    tagTime := store.clock;
    Associative(old(store.trace), body, Profiles.CreateWrites(session));
    body := body + Profiles.CreateWrites(session);
    if created.Failure? {
      return Failure(created.error), Profiles.NewProfile(user.id + 1, uid, mail, tagTime), tagTime, tagTime, body;
    }
    var p := created.value;
    profile := p;
    assert store.db == Profiles.Created(afterUser, p, tagTime);
    assert user.id in store.db.users && store.db.users[user.id] == user;
    var added := AddProfile(store, p, user, session, SuperAdmin, true);
    pushTime := store.clock;
    Associative(old(store.trace), body, AddProfileWrites(session));
    body := body + AddProfileWrites(session);
    r := Success(user);
  }

  /**
   * CreateUserAsync: UnauthorizedAccessException, before anything is written, when the claims carry
   * no email; otherwise the callback in one transaction, so that a rejected tag row leaves
   * neither the user nor the profile behind when transactions run.
   */
  method CreateUser(store: Store, uid: string, email: Option<string>)
    returns (r: Result<User>, ghost profile: Profile, ghost tagTime: Time, ghost pushTime: Time, ghost body: seq<Effect>)
    requires store.Valid()
    modifies store`db, store`nextId, store`clock, store`sessions, store`trace, store.context`transactionsSupported, store.context`console
    ensures store.Valid()
    ensures email.None? ==> r == Throw(UnauthorizedAccess, NoEmailMessage) && unchanged(store) && unchanged(store.context)
    ensures email.Some? ==> store.context.transactionsSupported.Some?
    ensures email.Some? ==> (r.Failure? <==> Profiles.TagTaken(old(store.db.profileTags), uid, old(store.nextId) + 1))
    ensures email.Some? && r.Failure? && store.context.transactionsSupported == Some(true) ==> store.db == old(store.db)
    ensures email.Some? && r.Success? ==>
      && r.value == NewUser(old(store.nextId), uid, email.value, r.value.createdAt)
      && profile == Profiles.NewProfile(old(store.nextId) + 1, uid, email.value, profile.createdAt)
      && store.db == UserCreated(old(store.db), r.value, profile, tagTime, pushTime)
      && body == CreateUserWrites(Session(old(store.sessions)))
    ensures email.Some? ==>
      var tx := Transaction(Session(old(store.sessions)), store.context.transactionsSupported.value, old(store.db));
      store.trace == old(store.trace) + Opening(tx.session, tx.supported) + body + Closing(tx, r)
  {
    if email.None? {
      return Throw(UnauthorizedAccess, NoEmailMessage), Profiles.NewProfile(0, uid, "", 0), 0, 0, [];
    }
    var tx := store.Begin();
    var outcome;
    outcome, profile, tagTime, pushTime, body := CreateCallback(store, uid, email.value, tx.session);
    IdsBelowGrows(tx.snapshot, old(store.nextId), store.nextId);
    r := store.End(tx, outcome);
  }

  /**
   * GetOrCreateAsync: the stored user with an account of that uid, returned untouched with
   * nothing written; a new user only when there is none.
   */
  method GetOrCreate(store: Store, uid: string, email: Option<string>)
    returns (r: Result<User>, ghost profile: Profile, ghost tagTime: Time, ghost pushTime: Time, ghost body: seq<Effect>)
    requires store.Valid()
    modifies store`db, store`nextId, store`clock, store`sessions, store`trace, store.context`transactionsSupported, store.context`console
    ensures store.Valid()
    ensures RetrieveByAccountUid(old(store.db.users), uid).Some? ==>
      r == Success(RetrieveByAccountUid(old(store.db.users), uid).value) && unchanged(store) && unchanged(store.context)
    ensures RetrieveByAccountUid(old(store.db.users), uid).None? && email.None? ==>
      r == Throw(UnauthorizedAccess, NoEmailMessage) && unchanged(store) && unchanged(store.context)
    ensures RetrieveByAccountUid(old(store.db.users), uid).None? && email.Some? ==>
      && (r.Failure? <==> Profiles.TagTaken(old(store.db.profileTags), uid, old(store.nextId) + 1))
      && (r.Failure? && store.context.transactionsSupported == Some(true) ==> store.db == old(store.db))
      && (r.Success? ==> r.value == NewUser(old(store.nextId), uid, email.value, r.value.createdAt))
      && (r.Success? ==> store.db == UserCreated(old(store.db), r.value, profile, tagTime, pushTime))
      && (r.Success? ==> profile == Profiles.NewProfile(old(store.nextId) + 1, uid, email.value, profile.createdAt))
  {
    var found := RetrieveByAccountUid(store.db.users, uid);
    if found.Some? {
      return Success(found.value), Profiles.NewProfile(0, uid, "", 0), 0, 0, [];
    }
    r, profile, tagTime, pushTime, body := CreateUser(store, uid, email);
  }

  /**
   * The state a created user leaves: the user is stored with its account and exactly one link, the
   * SuperAdmin main profile in the default colour; the profile is stored; a later GetOrCreateAsync
   * for the uid finds a user; and the user CreateUserAsync returns lacks the link the stored user
   * has.
   */
  lemma CreatedUserComplete(db: Db, user: User, profile: Profile, tagTime: Time, pushTime: Time)
    requires Keyed(db) && user.profiles == [] && |user.accounts| > 0
    ensures var next := UserCreated(db, user, profile, tagTime, pushTime);
      && user.id in next.users
      && next.users[user.id].accounts == user.accounts
      && next.users[user.id].profiles == [UserProfile(profile.id, SuperAdmin, DefaultColor, true)]
      && RetrieveByAccountUid(next.users, user.accounts[0].uid).Some?
      && next.users[user.id] != user
  {
    var next := UserCreated(db, user, profile, tagTime, pushTime);
    var updated := PushWith(NewLink(profile, SuperAdmin, true), pushTime)(user);
    assert next.users == Profiles.Created(db.(users := db.users[user.id := user]), profile, tagTime).users[user.id := updated];
    assert next.users[user.id] == updated;
    assert updated.profiles == [UserProfile(profile.id, SuperAdmin, DefaultColor, true)];
    assert HasAccount(user.accounts[0].uid)(next.users[user.id]);
  }

  /**
   * When no details row names the new profile yet, its own details row, the first for it, is the
   * one AddProfileAsync writes: the profile is stored and its details list exactly the user, as a
   * SuperAdmin receiving notifications.
   */
  lemma CreatedProfileLinked(db: Db, user: User, profile: Profile, tagTime: Time, pushTime: Time)
    requires profile.id + 1 !in db.profileDetails
    requires forall k :: k in db.profileDetails ==> db.profileDetails[k].profileId != profile.id
    ensures var next := UserCreated(db, user, profile, tagTime, pushTime);
      && next.profiles[profile.id] == profile
      && next.profileDetails[profile.id + 1].users == [ProfileUser(user.id, SuperAdmin, true)]
  {
    var withProfile := Profiles.Created(db.(users := db.users[user.id := user]), profile, tagTime);
    var updated := PushWith(NewLink(profile, SuperAdmin, true), pushTime)(user);
    FirstDetailsOfNewProfile(withProfile.profileDetails, profile, Details.ProfileUserOf(updated));
  }

  /** The details row inserted with a new profile is the first for it, so AddUser writes there. */
  lemma FirstDetailsOfNewProfile(m: map<Id, ProfileDetails>, profile: Profile, u: ProfileUser)
    requires profile.id + 1 in m && m[profile.id + 1] == Details.NewProfileDetails(profile)
    requires forall k :: k in m && k != profile.id + 1 ==> m[k].profileId != profile.id
    ensures FindOneAndUpdate(m, Details.OfProfile(profile.id), Details.AddUserWith(u)).0[profile.id + 1].users == [u]
  {
    var key: Id := profile.id + 1;
    var f := Details.OfProfile(profile.id);
    var add := Details.AddUserWith(u);
    var next := FindOneAndUpdate(m, f, add).0;
    assert f(m[key]);
    var k :| k in m && f(m[k]) && next == m[k := add(m[k])];
    assert k == key;
    assert add(m[key]).users == AddToSet([], u) == [u];
    assert next[key] == add(m[key]);
  }

  // ----- RetrieveProfilesAsync -----

  /** No two links of the user name the same profile. */
  predicate DistinctLinks(links: seq<UserProfile>)
  {
    forall i, j :: 0 <= i < j < |links| ==> links[i].profileId != links[j].profileId
  }

  /**
   * The key at which `ToDictionary` throws: the first link, in order, whose profile id is among
   * `seen` or an earlier link's; none when every id is new and distinct.
   */
  function RepeatedKey(links: seq<UserProfile>, seen: set<Id>): (r: Option<Id>)
    ensures r.None? <==> DistinctLinks(links) && forall i :: 0 <= i < |links| ==> links[i].profileId !in seen
    ensures r.Some? ==> exists i :: 0 <= i < |links| && links[i].profileId == r.value
    decreases |links|
  {
    if links == [] then None
    else if links[0].profileId in seen then Some(links[0].profileId)
    else
      var rest := RepeatedKey(links[1..], seen + {links[0].profileId});
      assert rest.None? <==> DistinctLinks(links) && forall i :: 0 <= i < |links| ==> links[i].profileId !in seen by {
        if rest.None? {
          forall i, j | 0 <= i < j < |links| ensures links[i].profileId != links[j].profileId {
            assert links[j] == links[1..][j - 1];
            if i > 0 {
              assert links[i] == links[1..][i - 1];
            }
          }
        }
        if DistinctLinks(links) && forall i :: 0 <= i < |links| ==> links[i].profileId !in seen {
          forall i | 0 <= i < |links[1..]| ensures links[1..][i].profileId !in seen + {links[0].profileId} {
            assert links[1..][i] == links[i + 1];
          }
          assert DistinctLinks(links[1..]) by {
            forall i, j | 0 <= i < j < |links[1..]| ensures links[1..][i].profileId != links[1..][j].profileId {
              assert links[1..][i] == links[i + 1] && links[1..][j] == links[j + 1];
            }
          }
        }
      }
      if rest.Some? then
        var i :| 0 <= i < |links[1..]| && links[1..][i].profileId == rest.value;
        assert links[i + 1].profileId == rest.value;
        rest
      else rest
  }

  /** The ids of the user's linked profiles, as the HashSet RetrieveProfilesAsync builds. */
  function LinkedIds(links: seq<UserProfile>): (ids: set<Id>)
    ensures forall id :: id in ids <==> exists i :: 0 <= i < |links| && links[i].profileId == id
  {
    set i | 0 <= i < |links| :: links[i].profileId
  }

  /** ToDictionary's message for a repeated key. */
  function DuplicateKeyMessage(id: Id): string
  {
    "An item with the same key has already been added. Key: " + IdText(id)
  }

  /**
   * `pairs` pairs the stored profiles the links name with the links: one pair per linked stored
   * profile, each a stored profile with the link to it, and every link to a stored profile present.
   */
  ghost predicate Pairing(profiles: map<Id, Profile>, links: seq<UserProfile>, pairs: seq<(Profile, UserProfile)>)
  {
    && |pairs| == |LinkedIds(links) * profiles.Keys|
    && (forall i :: 0 <= i < |pairs| ==> pairs[i].0 in profiles.Values && pairs[i].1 in links && pairs[i].1.profileId == pairs[i].0.id)
    && (forall k :: 0 <= k < |links| && links[k].profileId in profiles ==> (profiles[links[k].profileId], links[k]) in pairs)
  }

  /**
   * RetrieveProfilesAsync: the stored profiles among the user's links, each paired with the link
   * to it; ArgumentException when two links name the same profile.
   */
  function RetrieveProfiles(profiles: map<Id, Profile>, user: User): (r: Result<seq<(Profile, UserProfile)>>)
    requires ProfilesKeyed(profiles)
    ensures r.Failure? <==> !DistinctLinks(user.profiles)
    ensures r.Failure? ==> r.error.kind == Argument
    ensures r.Success? ==> Pairing(profiles, user.profiles, r.value)
  {
    var repeated := RepeatedKey(user.profiles, {});
    if repeated.Some? then Throw(Argument, DuplicateKeyMessage(repeated.value))
    else Success(ProfilePairs(profiles, user.profiles))
  }

  /** The fetch of the linked profiles and the pairing of each with its link, when the links are distinct. */
  function ProfilePairs(profiles: map<Id, Profile>, links: seq<UserProfile>): (r: seq<(Profile, UserProfile)>)
    requires ProfilesKeyed(profiles) && DistinctLinks(links)
    ensures Pairing(profiles, links, r)
  {
    var found := RetrieveMultipleById(profiles, LinkedIds(links));
    FoundAreLinked(profiles, links, found);
    var pairs := Paired(found, links);
    PairedCoversLinks(profiles, links, found, pairs);
    pairs
  }

  /** Every profile fetched for the links has a link to it. */
  lemma FoundAreLinked(profiles: map<Id, Profile>, links: seq<UserProfile>, found: seq<Profile>)
    requires ProfilesKeyed(profiles) && found == RetrieveMultipleById(profiles, LinkedIds(links))
    ensures forall i :: 0 <= i < |found| ==> found[i] in profiles.Values
    ensures forall i :: 0 <= i < |found| ==> exists k :: 0 <= k < |links| && links[k].profileId == found[i].id
  {
    forall i | 0 <= i < |found| ensures found[i] in profiles.Values && exists k :: 0 <= k < |links| && links[k].profileId == found[i].id {
      var id :| id in LinkedIds(links) && id in profiles && profiles[id] == found[i];
      assert found[i].id == id;
    }
  }

  /** Every link to a stored profile appears, with that profile, among the pairs. */
  lemma PairedCoversLinks(profiles: map<Id, Profile>, links: seq<UserProfile>, found: seq<Profile>, pairs: seq<(Profile, UserProfile)>)
    requires ProfilesKeyed(profiles) && found == RetrieveMultipleById(profiles, LinkedIds(links))
    requires DistinctLinks(links) && |pairs| == |found|
    requires forall i, k :: 0 <= i < |found| && 0 <= k < |links| && links[k].profileId == found[i].id ==> pairs[i] == (found[i], links[k])
    ensures forall k :: 0 <= k < |links| && links[k].profileId in profiles ==> (profiles[links[k].profileId], links[k]) in pairs
  {
    forall k | 0 <= k < |links| && links[k].profileId in profiles ensures (profiles[links[k].profileId], links[k]) in pairs {
      var id := links[k].profileId;
      assert id in LinkedIds(links);
      assert profiles[id] in found;
      var i :| 0 <= i < |found| && found[i] == profiles[id];
      assert pairs[i] == (found[i], links[k]);
    }
  }

  /** `profiles.Select(p => (p, dictionary[p.Id]))` over links with distinct ids that cover every profile. */
  function Paired(found: seq<Profile>, links: seq<UserProfile>): (r: seq<(Profile, UserProfile)>)
    requires DistinctLinks(links)
    requires forall i :: 0 <= i < |found| ==> exists k :: 0 <= k < |links| && links[k].profileId == found[i].id
    ensures |r| == |found|
    ensures forall i :: 0 <= i < |r| ==> r[i].0 == found[i] && r[i].1 in links && r[i].1.profileId == found[i].id
    ensures forall i, k :: 0 <= i < |found| && 0 <= k < |links| && links[k].profileId == found[i].id ==> r[i] == (found[i], links[k])
  {
    seq(|found|, i requires 0 <= i < |found| => (found[i], LinkTo(links, found[i].id)))
  }

  /** The one link to a profile among links with distinct ids. */
  function LinkTo(links: seq<UserProfile>, profileId: Id): (up: UserProfile)
    requires DistinctLinks(links)
    requires exists k :: 0 <= k < |links| && links[k].profileId == profileId
    ensures forall k :: 0 <= k < |links| && links[k].profileId == profileId ==> up == links[k]
  {
    var k :| 0 <= k < |links| && links[k].profileId == profileId;
    links[k]
  }
}
