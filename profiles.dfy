// ProfileService: creating a profile with its details and tag rows, and the transactional update
// of its name, tag and the caller's colour for it.
module Profiles {
  import opened Common
  import opened Entities
  import opened Database
  import opened ProfileResponses
  import Tags = ProfileTags
  import Details = ProfileDetailsStore

  // ----- CreateAsync -----

  /** `new Profile(tag, name)` once the driver has given it the id `id`; a BaseDateEntity, created and updated now. */
  function NewProfile(id: Id, tag: string, name: string, now: Time): (p: Profile)
    ensures p.id == id && p.tag == tag && p.name == name && p.createdAt == now && p.updatedAt == now
  {
    Profile(id, tag, name, now, now)
  }

  /** The three inserts of CreateAsync, all in the caller's session. */
  function CreateWrites(session: Session): seq<Effect>
  {
    [Effect.Write(ProfilesCollection, InsertOneCommand, Some(session)),
     Effect.Write(ProfileDetailsCollection, InsertOneCommand, Some(session)),
     Effect.Write(ProfileTagsCollection, InsertOneCommand, Some(session))]
  }

  /** The database after CreateAsync: the profile under its id, then its details and its tag row under the next two ids. */
  function Created(db: Db, p: Profile, tagTime: Time): Db
  {
    db.(profiles := db.profiles[p.id := p],
        profileDetails := db.profileDetails[p.id + 1 := Details.NewProfileDetails(p)],
        profileTags := db.profileTags[p.id + 2 := Tags.NewProfileTag(p, tagTime)])
  }

  /** Some stored tag row holds `tag` already, or belongs to the profile `id`. */
  predicate TagTaken(tags: map<Id, ProfileTag>, tag: string, id: Id)
  {
    exists k :: k in tags && (tags[k].tag == tag || tags[k].profileId == id)
  }

  /** The first two inserts of CreateAsync: the profile under a new id, then its details under the next one. */
  method InsertProfile(store: Store, tag: string, name: string, session: Session) returns (profile: Profile)
    requires store.Valid()
    modifies store`db, store`nextId, store`clock, store`trace
    ensures store.Valid() && store.nextId == old(store.nextId) + 2
    ensures profile == NewProfile(old(store.nextId), tag, name, store.clock) && old(store.clock) <= store.clock
    ensures store.db == old(store.db).(profiles := old(store.db.profiles)[profile.id := profile],
      profileDetails := old(store.db.profileDetails)[profile.id + 1 := Details.NewProfileDetails(profile)])
    ensures store.trace == old(store.trace) + CreateWrites(session)[..2]
  {
    var now := store.Now();
    var id := store.NewId();
    profile := NewProfile(id, tag, name, now);
    var inserted := InsertOne(store.db.profiles, id, profile, NoIndex(), ProfilesCollection);
    store.WriteProfiles(inserted.value, InsertOneCommand, Some(session));
    var _ := Details.Create(store, profile, session);
  }

  /**
   * CreateAsync: inserts the profile, then its details, then its tag row, in the caller's session.
   * The tag row is rejected when the tag is taken, and the failure leaves the first two inserts for
   * the caller's transaction to undo.
   */
  method Create(store: Store, tag: string, name: string, session: Session) returns (r: Result<Profile>)
    requires store.Valid()
    modifies store`db, store`nextId, store`clock, store`trace
    ensures store.Valid() && store.nextId == old(store.nextId) + 3
    ensures r.Failure? <==> TagTaken(old(store.db.profileTags), tag, old(store.nextId))
    ensures r.Failure? ==> r.error == MongoFailure("for document", ProfileTagsCollection)
    ensures r.Success? ==> r.value.id == old(store.nextId) && r.value.tag == tag && r.value.name == name
    ensures r.Success? ==> r.value.createdAt == r.value.updatedAt && old(store.clock) <= r.value.createdAt <= store.clock
    ensures r.Success? ==> store.db == Created(old(store.db), r.value, store.clock)
    ensures store.trace == old(store.trace) + CreateWrites(session)
  {
    var profile := InsertProfile(store, tag, name, session);
    var row := Tags.Create(store, profile, Some(session));
    assert forall t: ProfileTag :: Tags.SameTagOrProfile()(t, Tags.NewProfileTag(profile, store.clock)) <==> t.tag == tag || t.profileId == profile.id;
    if row.Failure? {
      return Failure(row.error);
    }
    r := Success(profile);
  }

  /**
   * The created profile is complete: its details row names it and has no users yet, and its tag
   * row carries its tag, so AddUser finds the details and a search for the full tag finds the
   * profile whenever no more than five tag rows start with that tag.
   */
  lemma CreatedProfileComplete(db: Db, p: Profile, tagTime: Time, user: User)
    requires p.id !in db.profiles && p.id + 1 !in db.profileDetails && p.id + 2 !in db.profileTags
    ensures var next := Created(db, p, tagTime);
      && next.profiles[p.id] == p
      && next.profileDetails[p.id + 1].profileId == p.id && next.profileDetails[p.id + 1].users == []
      && FindOneAndUpdate(next.profileDetails, Details.OfProfile(p.id), Details.AddUserWith(Details.ProfileUserOf(user))).1.Some?
    ensures var next := Created(db, p, tagTime);
      |Matching(next.profileTags, Tags.TagPrefix(p.tag))| <= Tags.SearchLimit ==>
      ResponseOf(p) in Tags.SearchByTag(next.profileTags, next.profiles, p.tag)
  {
    var next := Created(db, p, tagTime);
    assert Details.OfProfile(p.id)(next.profileDetails[p.id + 1]);
    assert next.profileTags[p.id + 2] in next.profileTags.Values;
    assert StartsWith(p.tag, p.tag);
    if |Matching(next.profileTags, Tags.TagPrefix(p.tag))| <= Tags.SearchLimit {
      assert Tags.TaggedProfile(next.profileTags, next.profiles, p.tag, p.id);
      Tags.SearchFindsAll(next.profileTags, next.profiles, p.tag, p.id);
    }
  }

  // ----- Update -----

  /** UpdateProfileRequestDto: the profile and what to change; a null field is left as it is. */
  datatype UpdateProfileRequest = UpdateProfileRequest(profileId: Id, tag: Option<string>, name: Option<string>, color: Option<int>)

  /** One `$set` of Update's list. */
  datatype ProfileFieldUpdate = SetName(name: string) | SetTag(tag: string)

  /** The `$set`s Update collects: Name when given, then Tag when given. */
  function UpdatesOf(dto: UpdateProfileRequest): seq<ProfileFieldUpdate>
  {
    (if dto.name.Some? then [SetName(dto.name.value)] else []) + (if dto.tag.Some? then [SetTag(dto.tag.value)] else [])
  }

  /** Update's list: a `$set` for each non-null field among Name and Tag, and nothing else. */
  method GetUpdates(dto: UpdateProfileRequest) returns (updates: seq<ProfileFieldUpdate>)
    ensures updates == UpdatesOf(dto)
    ensures |updates| <= 2
    ensures updates == [] <==> dto.name.None? && dto.tag.None?
    ensures forall n: string :: SetName(n) in updates <==> dto.name == Some(n)
    ensures forall t: string :: SetTag(t) in updates <==> dto.tag == Some(t)
  {
    updates := [];
    if dto.name.Some? {
      updates := updates + [SetName(dto.name.value)];
    }
    if dto.tag.Some? {
      updates := updates + [SetTag(dto.tag.value)];
    }
  }

  /** One `$set` applied to a stored profile. */
  function Apply(u: ProfileFieldUpdate, p: Profile): (r: Profile)
    ensures r.id == p.id && r.createdAt == p.createdAt && r.updatedAt == p.updatedAt
  {
    match u
    case SetName(n) => p.(name := n)
    case SetTag(t) => p.(tag := t)
  }

  /** `Update.Combine` of a list of `$set`s, applied in order. */
  function ApplyAll(us: seq<ProfileFieldUpdate>, p: Profile): (r: Profile)
    ensures r.id == p.id && r.createdAt == p.createdAt && r.updatedAt == p.updatedAt
    decreases |us|
  {
    if us == [] then p else ApplyAll(us[1..], Apply(us[0], p))
  }

  /** The combined update as the store runs it: the given fields set, the rest kept, `updatedAt` stamped. */
  function UpdateWith(dto: UpdateProfileRequest, now: Time): Profile -> Profile
  {
    (p: Profile) => p.(name := if dto.name.Some? then dto.name.value else p.name,
                       tag := if dto.tag.Some? then dto.tag.value else p.tag,
                       updatedAt := now)
  }

  /** Combining Update's list and stamping it sets exactly the non-null fields of the request. */
  lemma {:induction false} CombinedUpdates(dto: UpdateProfileRequest, p: Profile, now: Time)
    ensures ApplyAll(UpdatesOf(dto), p).(updatedAt := now) == UpdateWith(dto, now)(p)
  {
    var n := if dto.name.Some? then [SetName(dto.name.value)] else [];
    var t := if dto.tag.Some? then [SetTag(dto.tag.value)] else [];
    ApplyConcat(n, t, p);
    if n != [] {
      assert ApplyAll(n, p) == ApplyAll([], Apply(n[0], p));
    }
    if t != [] {
      assert ApplyAll(t, ApplyAll(n, p)) == ApplyAll([], Apply(t[0], ApplyAll(n, p)));
    }
  }

  /** Applying a concatenation applies its parts in turn. */
  lemma {:induction false} ApplyConcat(a: seq<ProfileFieldUpdate>, b: seq<ProfileFieldUpdate>, p: Profile)
    ensures ApplyAll(a + b, p) == ApplyAll(b, ApplyAll(a, p))
    decreases |a|
  {
    if a != [] {
      assert (a + b)[1..] == a[1..] + b;
      ApplyConcat(a[1..], b, Apply(a[0], p));
    } else {
      assert a + b == b;
    }
  }

  /** The `$set` of `profiles.$[profile].color` with the array filter on the profile id. */
  function Recolored(entries: seq<UserProfile>, profileId: Id, color: int): (r: seq<UserProfile>)
    ensures |r| == |entries|
    ensures forall i :: 0 <= i < |entries| ==> r[i] == if entries[i].profileId == profileId then entries[i].(color := color) else entries[i]
  {
    seq(|entries|, i requires 0 <= i < |entries| => if entries[i].profileId == profileId then entries[i].(color := color) else entries[i])
  }

  /** The colour update on a user, followed by the store's automatic stamp. */
  function RecolorWith(profileId: Id, color: int, now: Time): User -> User
  {
    (u: User) => u.(profiles := Recolored(u.profiles, profileId, color), updatedAt := now)
  }

  /**
   * The colour lands in every entry of that profile and nowhere else: the entries of other profiles,
   * the role and main flag of each entry, and the accounts and devices are kept; recolouring twice
   * with the same colour is recolouring once.
   */
  lemma RecolorOnlyMatching(u: User, profileId: Id, color: int, now: Time)
    ensures var r := RecolorWith(profileId, color, now)(u);
      && r.id == u.id && r.accounts == u.accounts && r.devices == u.devices && |r.profiles| == |u.profiles|
      && (forall i :: 0 <= i < |u.profiles| ==> r.profiles[i].profileId == u.profiles[i].profileId)
      && (forall i :: 0 <= i < |u.profiles| ==> r.profiles[i].role == u.profiles[i].role && r.profiles[i].mainProfile == u.profiles[i].mainProfile)
      && (forall i :: 0 <= i < |u.profiles| && u.profiles[i].profileId == profileId ==> r.profiles[i].color == color)
      && (forall i :: 0 <= i < |u.profiles| && u.profiles[i].profileId != profileId ==> r.profiles[i] == u.profiles[i])
      && RecolorWith(profileId, color, now)(r) == r
  {
    var r := RecolorWith(profileId, color, now)(u);
    assert Recolored(r.profiles, profileId, color) == r.profiles;
  }

  /**
   * SetProfileColor: sets the colour of the caller's entries for the profile and returns the user
   * after the update; KeyNotFoundException when the user is not stored.
   */
  method SetProfileColor(store: Store, user: User, profileId: Id, color: int, session: Session) returns (r: Result<User>)
    requires store.Valid()
    modifies store`db, store`clock, store`trace
    ensures store.Valid() && old(store.clock) <= store.clock
    ensures r.Failure? <==> user.id !in old(store.db.users)
    ensures r.Failure? ==> r.error.kind == KeyNotFound && store.db == old(store.db)
    ensures r.Success? ==> r.value == RecolorWith(profileId, color, store.clock)(old(store.db.users)[user.id])
    ensures store.db == old(store.db).(users := RecoloredUsers(old(store.db.users), user.id, profileId, color, store.clock))
    ensures store.trace == old(store.trace) + [Effect.Write(UsersCollection, FindOneAndUpdateCommand, Some(session))]
  {
    var now := store.Now();
    var (users, updated) := FindOneByIdAndUpdate(store.db.users, user.id, RecolorWith(profileId, color, now), UsersCollection);
    store.WriteUsers(users, FindOneAndUpdateCommand, Some(session));
    r := updated;
  }

  /** The users after SetProfileColor: only the caller's document changes, and only when it is stored. */
  function RecoloredUsers(users: map<Id, User>, userId: Id, profileId: Id, color: int, now: Time): (r: map<Id, User>)
    requires UsersKeyed(users)
    ensures UsersKeyed(r) && r.Keys == users.Keys
    ensures forall k :: k in users && k != userId ==> r[k] == users[k]
  {
    FindOneByIdAndUpdate(users, userId, RecolorWith(profileId, color, now), UsersCollection).0
  }

  /** The tag rows after the tag step: the profile's row retagged, when a tag is given. */
  function RetaggedTags(tags: map<Id, ProfileTag>, dto: UpdateProfileRequest, tagTime: Time): map<Id, ProfileTag>
  {
    if dto.tag.Some? then UpdateOne(tags, Tags.OfProfile(dto.profileId), Tags.SetTagWith(dto.tag.value, tagTime)).0 else tags
  }

  /** The tag step is rejected by the unique indexes. */
  predicate TagRejected(tags: map<Id, ProfileTag>, dto: UpdateProfileRequest, tagTime: Time)
  {
    dto.tag.Some? && !Tags.TagIndexHolds(RetaggedTags(tags, dto, tagTime))
  }

  /** The profiles after the profile step: the combined `$set`s, when at least one is given. */
  function EditedProfiles(profiles: map<Id, Profile>, dto: UpdateProfileRequest, now: Time): (r: map<Id, Profile>)
    requires ProfilesKeyed(profiles)
    ensures ProfilesKeyed(r) && r.Keys == profiles.Keys
    ensures forall k :: k in profiles && k != dto.profileId ==> r[k] == profiles[k]
  {
    if UpdatesOf(dto) != [] then FindOneByIdAndUpdate(profiles, dto.profileId, UpdateWith(dto, now), ProfilesCollection).0 else profiles
  }

  /** When Update's callback throws: the tag is rejected, or a profile or user document it updates is not stored. */
  predicate UpdateFails(db: Db, userId: Id, dto: UpdateProfileRequest, tagTime: Time)
  {
    || TagRejected(db.profileTags, dto, tagTime)
    || (UpdatesOf(dto) != [] && dto.profileId !in db.profiles)
    || (dto.color.Some? && userId !in db.users)
  }

  /** The database after a successful Update, each step stamped at the instant it read. */
  function UpdatedDb(db: Db, userId: Id, dto: UpdateProfileRequest, tagTime: Time, profileTime: Time, colorTime: Time): Db
    requires Keyed(db)
  {
    db.(profileTags := RetaggedTags(db.profileTags, dto, tagTime),
        profiles := EditedProfiles(db.profiles, dto, profileTime),
        users := if dto.color.Some? then RecoloredUsers(db.users, userId, dto.profileId, dto.color.value, colorTime) else db.users)
  }

  /** The writes of Update's callback, in order. */
  function UpdateWrites(session: Session, dto: UpdateProfileRequest): (e: seq<Effect>)
    ensures forall x :: x in e ==> x.Write? && x.writeSession == Some(session)
  {
    (if dto.tag.Some? then [Effect.Write(ProfileTagsCollection, UpdateOneCommand, Some(session))] else [])
    + (if UpdatesOf(dto) != [] then [Effect.Write(ProfilesCollection, FindOneAndUpdateCommand, Some(session))] else [])
    + (if dto.color.Some? then [Effect.Write(UsersCollection, FindOneAndUpdateCommand, Some(session))] else [])
  }

  /** `Profiles.FirstOrDefault(p => p.ProfileId == profileId)`. */
  function FirstEntry(entries: seq<UserProfile>, profileId: Id): (r: Option<UserProfile>)
    ensures r.None? <==> forall i :: 0 <= i < |entries| ==> entries[i].profileId != profileId
    ensures r.Some? ==> exists i :: (0 <= i < |entries| && entries[i] == r.value && r.value.profileId == profileId
      && forall j :: 0 <= j < i ==> entries[j].profileId != profileId)
  {
    if entries == [] then None
    else if entries[0].profileId == profileId then Some(entries[0])
    else
      var rest := FirstEntry(entries[1..], profileId);
      if rest.Some? then
        var i :| 0 <= i < |entries[1..]| && entries[1..][i] == rest.value && rest.value.profileId == profileId
          && forall j :: 0 <= j < i ==> entries[1..][j].profileId != profileId;
        assert entries[i + 1] == rest.value;
        rest
      else rest
  }

  /**
   * The response of Update: the written profile when a `$set` was given, else just the id, with the
   * caller's entry for the profile when a colour was set.
   */
  function UpdateResponse(db: Db, userId: Id, dto: UpdateProfileRequest): (r: ProfileResponse)
    requires UpdatesOf(dto) != [] ==> dto.profileId in db.profiles
    requires dto.color.Some? ==> userId in db.users
    ensures r.id == IdText(dto.profileId) || UpdatesOf(dto) != []
    ensures r.userProfile.Some? ==> dto.color.Some?
  {
    var entry := if dto.color.Some? then FirstEntry(db.users[userId].profiles, dto.profileId) else None;
    if UpdatesOf(dto) != [] then UpdatedResponse(db.profiles[dto.profileId], entry) else IdOnlyResponse(dto.profileId, entry)
  }

  /** The tag step of Update's callback. */
  method TagStep(store: Store, dto: UpdateProfileRequest, session: Session) returns (r: Result<()>, ghost tagTime: Time)
    requires store.Valid()
    modifies store`db, store`clock, store`trace
    ensures store.Valid() && old(store.clock) <= tagTime <= store.clock
    ensures r.Failure? <==> TagRejected(old(store.db.profileTags), dto, tagTime)
    ensures r.Failure? ==> store.db == old(store.db)
    ensures r.Success? ==> store.db == old(store.db).(profileTags := RetaggedTags(old(store.db.profileTags), dto, tagTime))
    ensures store.trace == old(store.trace) + (if dto.tag.Some? then [Effect.Write(ProfileTagsCollection, UpdateOneCommand, Some(session))] else [])
  {
    tagTime := store.clock;
    r := Success(());
    if dto.tag.Some? {
      r := Tags.Update(store, dto.profileId, dto.tag.value, session);
      tagTime := store.clock;
    }
  }

  /** The profile step: FindOneByIdAndUpdate of the combined `$set`s when there are any. */
  method ProfileStep(store: Store, dto: UpdateProfileRequest, updates: seq<ProfileFieldUpdate>, session: Session)
    returns (r: Result<Option<Profile>>, ghost profileTime: Time)
    requires store.Valid() && updates == UpdatesOf(dto)
    modifies store`db, store`clock, store`trace
    ensures store.Valid() && old(store.clock) <= profileTime <= store.clock
    ensures r.Failure? <==> updates != [] && dto.profileId !in old(store.db.profiles)
    ensures r.Failure? ==> store.db == old(store.db) && r.error.kind == KeyNotFound
    ensures r.Success? ==> store.db == old(store.db).(profiles := EditedProfiles(old(store.db.profiles), dto, profileTime))
    ensures r.Success? ==> (r.value.Some? <==> updates != [])
    ensures r.Success? && updates != [] ==> r.value == Some(store.db.profiles[dto.profileId])
    ensures store.trace == old(store.trace) + (if updates != [] then [Effect.Write(ProfilesCollection, FindOneAndUpdateCommand, Some(session))] else [])
  {
    profileTime := store.clock;
    if updates == [] {
      return Success(None), profileTime;
    }
    var now := store.Now();
    profileTime := now;
    var (profiles, updated) := FindOneByIdAndUpdate(store.db.profiles, dto.profileId, UpdateWith(dto, now), ProfilesCollection);
    store.WriteProfiles(profiles, FindOneAndUpdateCommand, Some(session));
    if updated.Failure? {
      return Failure(updated.error), profileTime;
    }
    r := Success(Some(updated.value));
  }

  /** The colour step: SetProfileColor when a colour is given. */
  method ColorStep(store: Store, user: User, dto: UpdateProfileRequest, session: Session)
    returns (r: Result<Option<User>>, ghost colorTime: Time)
    requires store.Valid()
    modifies store`db, store`clock, store`trace
    ensures store.Valid() && old(store.clock) <= colorTime <= store.clock
    ensures r.Failure? <==> dto.color.Some? && user.id !in old(store.db.users)
    ensures r.Failure? ==> store.db == old(store.db) && r.error.kind == KeyNotFound
    ensures r.Success? && dto.color.Some? ==>
      store.db == old(store.db).(users := RecoloredUsers(old(store.db.users), user.id, dto.profileId, dto.color.value, colorTime))
    ensures r.Success? && dto.color.None? ==> store.db == old(store.db) && r.value.None?
    ensures r.Success? && dto.color.Some? ==> r.value == Some(store.db.users[user.id])
    ensures store.trace == old(store.trace) + (if dto.color.Some? then [Effect.Write(UsersCollection, FindOneAndUpdateCommand, Some(session))] else [])
  {
    colorTime := store.clock;
    if dto.color.None? {
      return Success(None), colorTime;
    }
    var updated := SetProfileColor(store, user, dto.profileId, dto.color.value, session);
    colorTime := store.clock;
    if updated.Failure? {
      return Failure(updated.error), colorTime;
    }
    r := Success(Some(updated.value));
  }

  /** Update's callback: the tag row, the profile, then the colour; the notification it builds is never sent. */
  method UpdateCallback(store: Store, user: User, dto: UpdateProfileRequest, session: Session)
    returns (r: Result<ProfileResponse>, ghost times: (Time, Time, Time), ghost body: seq<Effect>)
    requires store.Valid()
    modifies store`db, store`clock, store`trace
    ensures store.Valid() && store.trace == old(store.trace) + body
    ensures r.Failure? <==> UpdateFails(old(store.db), user.id, dto, times.0)
    ensures r.Success? ==> store.db == UpdatedDb(old(store.db), user.id, dto, times.0, times.1, times.2)
    ensures r.Success? ==> r.value == UpdateResponse(store.db, user.id, dto)
    ensures r.Success? ==> body == UpdateWrites(session, dto)
  {
    var updates := GetUpdates(dto);
    var tagged, tagTime := TagStep(store, dto, session);
    times := (tagTime, store.clock, store.clock);
    body := if dto.tag.Some? then [Effect.Write(ProfileTagsCollection, UpdateOneCommand, Some(session))] else [];
    if tagged.Failure? {
      return Failure(tagged.error), times, body;
    }
    ghost var afterTag := store.trace;
    var profile, profileTime := ProfileStep(store, dto, updates, session);
    times := (tagTime, profileTime, store.clock);
    ghost var profileWrite := if updates != [] then [Effect.Write(ProfilesCollection, FindOneAndUpdateCommand, Some(session))] else [];
    Associative(old(store.trace), body, profileWrite);
    body := body + profileWrite;
    if profile.Failure? {
      return Failure(profile.error), times, body;
    }
    var updatedUser, colorTime := ColorStep(store, user, dto, session);
    times := (tagTime, profileTime, colorTime);
    ghost var colorWrite := if dto.color.Some? then [Effect.Write(UsersCollection, FindOneAndUpdateCommand, Some(session))] else [];
    Associative(old(store.trace), body, colorWrite);
    body := body + colorWrite;
    if updatedUser.Failure? {
      return Failure(updatedUser.error), times, body;
    }
    var userProfile := if updatedUser.value.Some? then FirstEntry(updatedUser.value.value.profiles, dto.profileId) else None;
    r := Success(if profile.value.Some? then UpdatedResponse(profile.value.value, userProfile) else IdOnlyResponse(dto.profileId, userProfile));
  }

  /**
   * Update: the callback in one transaction. On success the tag row, the profile and the caller's
   * colour are changed as asked and nothing else; when the callback throws inside a transaction
   * none of its writes remain.
   */
  method Update(store: Store, user: User, dto: UpdateProfileRequest)
    returns (r: Result<ProfileResponse>, ghost times: (Time, Time, Time), ghost body: seq<Effect>)
    requires store.Valid()
    modifies store`db, store`clock, store`sessions, store`trace, store.context`transactionsSupported, store.context`console
    ensures store.Valid() && store.context.transactionsSupported.Some?
    ensures r.Failure? <==> UpdateFails(old(store.db), user.id, dto, times.0)
    ensures r.Failure? && store.context.transactionsSupported == Some(true) ==> store.db == old(store.db)
    ensures r.Success? ==> store.db == UpdatedDb(old(store.db), user.id, dto, times.0, times.1, times.2)
    ensures r.Success? ==> r.value == UpdateResponse(store.db, user.id, dto)
    ensures r.Success? ==> body == UpdateWrites(Session(old(store.sessions)), dto)
    ensures var tx := Transaction(Session(old(store.sessions)), store.context.transactionsSupported.value, old(store.db));
      store.trace == old(store.trace) + Opening(tx.session, tx.supported) + body + Closing(tx, r)
  {
    var tx := store.Begin();
    var outcome;
    outcome, times, body := UpdateCallback(store, user, dto, tx.session);
    r := store.End(tx, outcome);
  }

  /**
   * A successful Update changes the name and tag of the profile exactly as given, and writes the
   * profile only when one of them is given; the tag rows change only when a tag is given, and the
   * users only when a colour is given; no other collection changes, and the callback's effects are
   * writes only, so no notification goes out.
   */
  lemma UpdateChangesOnlyWhatIsGiven(db: Db, userId: Id, dto: UpdateProfileRequest, t1: Time, t2: Time, t3: Time, session: Session)
    requires Keyed(db) && !UpdateFails(db, userId, dto, t1)
    ensures var next := UpdatedDb(db, userId, dto, t1, t2, t3);
      && (UpdatesOf(dto) == [] ==> next.profiles == db.profiles)
      && (UpdatesOf(dto) != [] ==>
            && next.profiles[dto.profileId].name == (if dto.name.Some? then dto.name.value else db.profiles[dto.profileId].name)
            && next.profiles[dto.profileId].tag == (if dto.tag.Some? then dto.tag.value else db.profiles[dto.profileId].tag)
            && next.profiles[dto.profileId].createdAt == db.profiles[dto.profileId].createdAt)
      && (dto.tag.None? ==> next.profileTags == db.profileTags)
      && (dto.color.None? ==> next.users == db.users)
      && next.(profileTags := db.profileTags, profiles := db.profiles, users := db.users) == db
    ensures forall x :: x in UpdateWrites(session, dto) ==> !x.BroadcastStarted? && !x.PushSent? && !x.MessageHandled?
  {
  }

  /** The colour is written only into the caller's entries for that profile. */
  lemma ColorOnlyInMatchingEntries(db: Db, userId: Id, dto: UpdateProfileRequest, t1: Time, t2: Time, t3: Time)
    requires Keyed(db) && !UpdateFails(db, userId, dto, t1) && dto.color.Some?
    ensures var next := UpdatedDb(db, userId, dto, t1, t2, t3).users;
      && (forall k :: k in db.users && k != userId ==> next[k] == db.users[k])
      && |next[userId].profiles| == |db.users[userId].profiles|
      && (forall i :: 0 <= i < |db.users[userId].profiles| && db.users[userId].profiles[i].profileId != dto.profileId ==>
            next[userId].profiles[i] == db.users[userId].profiles[i])
      && (forall i :: 0 <= i < |db.users[userId].profiles| && db.users[userId].profiles[i].profileId == dto.profileId ==>
            next[userId].profiles[i].color == dto.color.value)
  {
    RecolorOnlyMatching(db.users[userId], dto.profileId, dto.color.value, t3);
  }
}
