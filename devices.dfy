// DeviceService: the push devices registered on a user, and the token table the notifier uses.
module Devices {
  import opened Common
  import opened Entities
  import opened Database

  /** StoreFcmTokenRequestDto: the device a client registers. */
  datatype StoreTokenRequest = StoreTokenRequest(platform: string, fcmToken: string)

  /** `a.Equals(b, StringComparison.CurrentCultureIgnoreCase)`, on the ASCII case folding of the model. */
  predicate SameToken(a: string, b: string)
  {
    ToLower(a) == ToLower(b)
  }

  /** `$pull` with the filter `d.FcmToken` equal to `token` ignoring case: the other devices, in order. */
  function WithoutToken(devices: seq<Device>, token: string): (r: seq<Device>)
    ensures forall d :: d in r <==> d in devices && !SameToken(d.fcmToken, token)
    ensures |r| <= |devices|
    ensures (forall i :: 0 <= i < |devices| ==> !SameToken(devices[i].fcmToken, token)) ==> r == devices
  {
    if devices == [] then []
    else if SameToken(devices[0].fcmToken, token) then WithoutToken(devices[1..], token)
    else [devices[0]] + WithoutToken(devices[1..], token)
  }

  /** The update of AddDevice: the devices array gains the new device; no `updatedAt` stamp. */
  function AddDeviceTo(device: Device): User -> User
  {
    (u: User) => u.(devices := AddToSet(u.devices, device))
  }

  /** The update of RemoveDevice: the devices array loses every device with that token; no stamp. */
  function PullToken(token: string): User -> User
  {
    (u: User) => u.(devices := WithoutToken(u.devices, token))
  }

  /** The users collection after `UpdateOneByIdAsync(userId, update, setUpdatedAtDate: false)`. */
  function UpdateUser(users: map<Id, User>, userId: Id, update: User -> User): (r: map<Id, User>)
    ensures r.Keys == users.Keys
    ensures forall k :: k in users && k != userId ==> r[k] == users[k]
    ensures userId in users ==> r[userId] == update(users[userId])
  {
    UpdateOneByKey(users, userId, (u: User) => true, update).0
  }

  /**
   * AddDevice: adds a device with a fresh creation instant to the user's devices set, outside any
   * session and without touching the user's `updatedAt`.
   */
  method AddDevice(store: Store, user: User, request: StoreTokenRequest)
    requires store.Valid()
    modifies store`db, store`clock, store`trace
    ensures store.Valid()
    ensures var device := Device(request.platform, request.fcmToken, store.clock);
      store.db == old(store.db).(users := UpdateUser(old(store.db.users), user.id, AddDeviceTo(device)))
    ensures store.trace == old(store.trace) + [Effect.Write(UsersCollection, UpdateOneCommand, None)]
  {
    var now := store.Now();
    var device := Device(request.platform, request.fcmToken, now);
    var next := UpdateUser(store.db.users, user.id, AddDeviceTo(device));
    store.WriteUsers(next, UpdateOneCommand, None);
  }

  /** RemoveDevice: pulls every device of that one user whose token equals `fcmToken` ignoring case. */
  method RemoveDevice(store: Store, userId: Id, fcmToken: string)
    requires store.Valid()
    modifies store`db, store`trace
    ensures store.Valid()
    ensures store.db == old(store.db).(users := UpdateUser(old(store.db.users), userId, PullToken(fcmToken)))
    ensures store.trace == old(store.trace) + [Effect.Write(UsersCollection, UpdateOneCommand, None)]
  {
    var next := UpdateUser(store.db.users, userId, PullToken(fcmToken));
    store.WriteUsers(next, UpdateOneCommand, None);
  }

  /**
   * AddDevice only ever adds the new device and keeps the user's other fields, `updatedAt`
   * included; since the device carries its creation instant, registering the same token again at
   * a later instant gives the user a second device with that token.
   */
  lemma AddDeviceOnlyAdds(users: map<Id, User>, userId: Id, d1: Device, d2: Device)
    requires userId in users && d1 != d2 && d1.fcmToken == d2.fcmToken
    requires d1 !in users[userId].devices && d2 !in users[userId].devices
    ensures var once := UpdateUser(users, userId, AddDeviceTo(d1));
      && once[userId].updatedAt == users[userId].updatedAt
      && once[userId].profiles == users[userId].profiles && once[userId].accounts == users[userId].accounts
    ensures var twice := UpdateUser(UpdateUser(users, userId, AddDeviceTo(d1)), userId, AddDeviceTo(d2));
      |twice[userId].devices| == |users[userId].devices| + 2 && d1 in twice[userId].devices && d2 in twice[userId].devices
  {
  }

  /** Adding an equal device twice leaves one entry: `$addToSet` compares whole subdocuments. */
  lemma AddSameDeviceOnce(users: map<Id, User>, userId: Id, d: Device)
    ensures var once := UpdateUser(users, userId, AddDeviceTo(d));
      UpdateUser(once, userId, AddDeviceTo(d)) == once
  {
    var once := UpdateUser(users, userId, AddDeviceTo(d));
    if userId in users {
      assert once[userId].devices == AddToSet(users[userId].devices, d);
      assert AddToSet(once[userId].devices, d) == once[userId].devices;
      assert AddDeviceTo(d)(once[userId]) == once[userId];
    }
  }

  /** Removing a token no device of the user has is a no-op, not an error. */
  lemma RemoveAbsentToken(users: map<Id, User>, userId: Id, token: string)
    requires userId in users ==> forall i :: 0 <= i < |users[userId].devices| ==> !SameToken(users[userId].devices[i].fcmToken, token)
    ensures UpdateUser(users, userId, PullToken(token)) == users
  {
    var next := UpdateUser(users, userId, PullToken(token));
    if userId in users {
      assert next[userId] == users[userId];
    }
  }

  // ----- GetProfilesDevicesTokens -----

  /** The filter `p.ProfileId in profileIds`. */
  function OfProfiles(profileIds: seq<Id>): ProfileDetails -> bool
  {
    (pd: ProfileDetails) => pd.profileId in profileIds
  }

  /** `SelectMany(pd => pd.Users).Select(pu => pu.UserId).ToHashSet()`. */
  function ListedUserIds(details: seq<ProfileDetails>): (r: set<Id>)
    ensures forall u :: u in r <==> exists i, j :: 0 <= i < |details| && 0 <= j < |details[i].users| && details[i].users[j].userId == u
  {
    set i, j | 0 <= i < |details| && 0 <= j < |details[i].users| :: details[i].users[j].userId
  }

  /** The user is listed in the details record of one of the profiles. */
  predicate ListedFor(details: map<Id, ProfileDetails>, profileIds: seq<Id>, userId: Id)
  {
    exists k, j :: k in details && details[k].profileId in profileIds
      && 0 <= j < |details[k].users| && details[k].users[j].userId == userId
  }

  function OfUsers(userIds: set<Id>): User -> bool
  {
    (u: User) => u.id in userIds
  }

  /**
   * The two queries both token lookups share: the details records of the profiles, then the
   * stored users they list, in natural order.
   */
  function ProfilesUsers(db: Db, profileIds: seq<Id>): (r: seq<User>)
    ensures forall i :: 0 <= i < |r| ==> r[i] in db.users.Values && ListedFor(db.profileDetails, profileIds, r[i].id)
    ensures forall u :: u in db.users.Values && ListedFor(db.profileDetails, profileIds, u.id) ==> u in r
  {
    var details := RetrieveMultiple(db.profileDetails, OfProfiles(profileIds), None);
    var userIds := ListedUserIds(details);
    ListedIds(db.profileDetails, profileIds, details);
    RetrieveMultiple(db.users, OfUsers(userIds), None)
  }

  lemma ListedIds(m: map<Id, ProfileDetails>, profileIds: seq<Id>, details: seq<ProfileDetails>)
    requires forall i :: 0 <= i < |details| ==> details[i].profileId in profileIds && details[i] in m.Values
    requires forall k :: k in m && m[k].profileId in profileIds ==> m[k] in details
    ensures forall u :: u in ListedUserIds(details) <==> ListedFor(m, profileIds, u)
  {
    forall u | u in ListedUserIds(details) ensures ListedFor(m, profileIds, u) {
      var i, j :| 0 <= i < |details| && 0 <= j < |details[i].users| && details[i].users[j].userId == u;
      ListedFromDetails(m, profileIds, details[i], j);
    }
    forall u | ListedFor(m, profileIds, u) ensures u in ListedUserIds(details) {
      var k, j :| k in m && m[k].profileId in profileIds && 0 <= j < |m[k].users| && m[k].users[j].userId == u;
      DetailsListed(details, m[k], j);
    }
  }

  lemma ListedFromDetails(m: map<Id, ProfileDetails>, profileIds: seq<Id>, pd: ProfileDetails, j: int)
    requires pd in m.Values && pd.profileId in profileIds && 0 <= j < |pd.users|
    ensures ListedFor(m, profileIds, pd.users[j].userId)
  {
    var k :| k in m && m[k] == pd;
  }

  lemma DetailsListed(details: seq<ProfileDetails>, pd: ProfileDetails, j: int)
    requires pd in details && 0 <= j < |pd.users|
    ensures pd.users[j].userId in ListedUserIds(details)
  {
    var i :| 0 <= i < |details| && details[i] == pd;
    assert details[i].users[j].userId == pd.users[j].userId;
  }

  /** One device of the user carries the token. */
  predicate HasToken(u: User, t: string)
  {
    exists d :: 0 <= d < |u.devices| && u.devices[d].fcmToken == t
  }

  /** An entry of the token dictionary: the token and the user it is attributed to. */
  datatype TokenOwner = TokenOwner(token: string, userId: Id)

  /** The keys of the dictionary. */
  function Tokens(table: seq<TokenOwner>): (r: set<string>)
    ensures forall t :: t in r <==> exists i :: 0 <= i < |table| && table[i].token == t
  {
    set i | 0 <= i < |table| :: table[i].token
  }

  /** Dictionary keys are unique. */
  predicate DistinctTokens(table: seq<TokenOwner>)
  {
    forall i, j :: 0 <= i < j < |table| ==> table[i].token != table[j].token
  }

  /** `users[j]` is the first of the users to carry the token. */
  predicate FirstOwner(users: seq<User>, j: int, t: string)
  {
    0 <= j < |users| && HasToken(users[j], t) && forall j' :: 0 <= j' < j ==> !HasToken(users[j'], t)
  }

  /** The non-empty tokens some user among the first `n` carries. */
  ghost predicate SeenBefore(users: seq<User>, n: int, t: string)
  {
    t != "" && exists j :: 0 <= j < n && j < |users| && HasToken(users[j], t)
  }

  /**
   * GetProfilesDevicesTokens: the dictionary from every non-empty token of the listed users to
   * the first of them (in natural order) that carries it, in insertion order.
   */
  method GetProfilesDevicesTokens(db: Db, profileIds: seq<Id>) returns (table: seq<TokenOwner>)
    ensures TokenTable(ProfilesUsers(db, profileIds), table)
  {
    table := UsersTokens(ProfilesUsers(db, profileIds));
  }

  /**
   * The dictionary for `users`: distinct keys; every non-empty token of their devices and nothing
   * else; each key mapped to the first of them that carries it.
   */
  ghost predicate TokenTable(users: seq<User>, table: seq<TokenOwner>)
  {
    && DistinctTokens(table)
    && (forall i :: 0 <= i < |table| ==> table[i].token != "")
    && (forall t :: t in Tokens(table) <==> SeenBefore(users, |users|, t))
    && (forall i :: 0 <= i < |table| ==> exists j :: FirstOwner(users, j, table[i].token) && users[j].id == table[i].userId)
  }

  /** The outer loop of GetProfilesDevicesTokens, over the listed users in order. */
  method UsersTokens(users: seq<User>) returns (table: seq<TokenOwner>)
    ensures TokenTable(users, table)
  {
    table := [];
    for a := 0 to |users|
      invariant DistinctTokens(table)
      invariant forall i :: 0 <= i < |table| ==> table[i].token != ""
      invariant forall t :: t in Tokens(table) <==> SeenBefore(users, a, t)
      invariant forall i :: 0 <= i < |table| ==> exists j :: FirstOwner(users, j, table[i].token) && users[j].id == table[i].userId
    {
      var before := table;
      table := AddUserTokens(table, users[a]);
      UserTokensAdded(users, a, before, table);
    }
  }

  /** The inner loop over one user's devices: TryAdd of each non-empty token. */
  method AddUserTokens(table: seq<TokenOwner>, u: User) returns (next: seq<TokenOwner>)
    requires DistinctTokens(table)
    ensures DistinctTokens(next) && |table| <= |next| && next[..|table|] == table
    ensures forall i :: |table| <= i < |next| ==> (next[i].userId == u.id && next[i].token !in Tokens(table)
      && next[i].token != "" && HasToken(u, next[i].token))
    ensures forall t :: t in Tokens(next) <==> t in Tokens(table) || (t != "" && HasToken(u, t))
  {
    next := table;
    for d := 0 to |u.devices|
      invariant DistinctTokens(next) && |table| <= |next| && next[..|table|] == table
      invariant forall i :: |table| <= i < |next| ==> (next[i].userId == u.id && next[i].token !in Tokens(table)
        && next[i].token != "" && HasToken(u, next[i].token))
      invariant forall t :: t in Tokens(next) <==> t in Tokens(table) || (t != "" && exists e :: 0 <= e < d && u.devices[e].fcmToken == t)
    {
      var token := u.devices[d].fcmToken;
      if token != "" && token !in Tokens(next) {
        TokenAppended(next, TokenOwner(token, u.id));
        next := next + [TokenOwner(token, u.id)];
      }
    }
  }

  /** TryAdd of a new key appends one entry. */
  lemma TokenAppended(table: seq<TokenOwner>, e: TokenOwner)
    requires DistinctTokens(table) && e.token !in Tokens(table)
    ensures DistinctTokens(table + [e])
    ensures forall t :: t in Tokens(table + [e]) <==> t in Tokens(table) || t == e.token
  {
    var next := table + [e];
    forall t | t in Tokens(next) ensures t in Tokens(table) || t == e.token {
      var i :| 0 <= i < |next| && next[i].token == t;
      if i < |table| {
        assert next[i] == table[i];
      }
    }
    assert next[|table|] == e;
    forall t | t in Tokens(table) ensures t in Tokens(next) {
      var i :| 0 <= i < |table| && table[i].token == t;
      assert next[i] == table[i];
    }
  }

  /** One outer step of GetProfilesDevicesTokens keeps its invariant. */
  lemma UserTokensAdded(users: seq<User>, a: nat, table: seq<TokenOwner>, next: seq<TokenOwner>)
    requires a < |users|
    requires forall t :: t in Tokens(table) <==> SeenBefore(users, a, t)
    requires forall i :: 0 <= i < |table| ==> exists j :: FirstOwner(users, j, table[i].token) && users[j].id == table[i].userId
    requires |table| <= |next| && next[..|table|] == table
    requires forall i :: |table| <= i < |next| ==> (next[i].userId == users[a].id && next[i].token !in Tokens(table)
      && next[i].token != "" && HasToken(users[a], next[i].token))
    requires forall t :: t in Tokens(next) <==> t in Tokens(table) || (t != "" && HasToken(users[a], t))
    ensures forall t :: t in Tokens(next) <==> SeenBefore(users, a + 1, t)
    ensures forall i :: 0 <= i < |next| ==> exists j :: FirstOwner(users, j, next[i].token) && users[j].id == next[i].userId
  {
    forall i | 0 <= i < |next| ensures exists j :: FirstOwner(users, j, next[i].token) && users[j].id == next[i].userId {
      if i < |table| {
        assert next[i] == table[i];
      } else {
        assert !SeenBefore(users, a, next[i].token);
        assert FirstOwner(users, a, next[i].token);
      }
    }
  }

  /** Some stored user has the entry's id, carries its token, and is listed for one of the profiles. */
  predicate OwnedByListed(db: Db, profileIds: seq<Id>, e: TokenOwner)
  {
    exists u :: u in db.users.Values && u.id == e.userId && HasToken(u, e.token) && ListedFor(db.profileDetails, profileIds, u.id)
  }

  /**
   * Every entry of the dictionary names a user who owns a device with that token and is listed in
   * the details of a requested profile.
   */
  lemma TokenOwnersAreListed(db: Db, profileIds: seq<Id>, table: seq<TokenOwner>)
    requires TokenTable(ProfilesUsers(db, profileIds), table)
    ensures forall i :: 0 <= i < |table| ==> OwnedByListed(db, profileIds, table[i])
  {
    var users := ProfilesUsers(db, profileIds);
    forall i | 0 <= i < |table| ensures OwnedByListed(db, profileIds, table[i]) {
      var j :| FirstOwner(users, j, table[i].token) && users[j].id == table[i].userId;
      OwnerListed(db, profileIds, users[j], table[i]);
    }
  }

  lemma OwnerListed(db: Db, profileIds: seq<Id>, u: User, e: TokenOwner)
    requires u in db.users.Values && u.id == e.userId && HasToken(u, e.token) && ListedFor(db.profileDetails, profileIds, u.id)
    ensures OwnedByListed(db, profileIds, e)
  {
  }
}
