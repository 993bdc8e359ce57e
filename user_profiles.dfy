// UserProfileService: the UserProfiles collection, one row per (user, profile) with the user's colour for it.
module UserProfiles {
  import opened Common
  import opened Entities
  import opened Database

  /** `new UserProfile(user, profile)`: both ids, the default colour, created and updated now. */
  function NewRow(user: User, profile: Profile, now: Time): (row: UserProfileRow)
    ensures row.userId == user.id && row.profileId == profile.id && row.color == DefaultColor
    ensures row.createdAt == now && row.updatedAt == now
  {
    UserProfileRow(user.id, profile.id, DefaultColor, now, now)
  }

  /** The filter `up.UserId == userId`. */
  function OfUser(userId: Id): UserProfileRow -> bool
  {
    (row: UserProfileRow) => row.userId == userId
  }

  /** The filter on both ids. */
  function OfUserAndProfile(userId: Id, profileId: Id): UserProfileRow -> bool
  {
    (row: UserProfileRow) => row.userId == userId && row.profileId == profileId
  }

  /** The `$set` of Color, followed by the store's automatic stamp. */
  function SetColorWith(color: int, now: Time): UserProfileRow -> UserProfileRow
  {
    (row: UserProfileRow) => row.(color := color, updatedAt := now)
  }

  /** Create: inserts the row for the user and the profile in the caller's session and returns it. */
  method Create(store: Store, user: User, profile: Profile, session: Session) returns (row: UserProfileRow)
    requires store.Valid()
    modifies store`db, store`nextId, store`clock, store`trace
    ensures store.Valid() && store.nextId == old(store.nextId) + 1 && old(store.clock) <= store.clock
    ensures row == NewRow(user, profile, store.clock)
    ensures store.db == old(store.db).(userProfiles := old(store.db.userProfiles)[old(store.nextId) := row])
    ensures store.trace == old(store.trace) + [Effect.Write(UserProfilesCollection, InsertOneCommand, Some(session))]
  {
    var now := store.Now();
    row := NewRow(user, profile, now);
    var id := store.NewId();
    var inserted := InsertOne(store.db.userProfiles, id, row, NoIndex(), UserProfilesCollection);
    store.WriteUserProfiles(inserted.value, InsertOneCommand, Some(session));
  }

  /** RetrieveFromUser: every row of the user, and only those. */
  function RetrieveFromUser(rows: map<Id, UserProfileRow>, userId: Id): (r: seq<UserProfileRow>)
    ensures forall i :: 0 <= i < |r| ==> r[i].userId == userId && r[i] in rows.Values
    ensures forall k :: k in rows && rows[k].userId == userId ==> rows[k] in r
  {
    RetrieveMultiple(rows, OfUser(userId), None)
  }

  /** RetrieveFromUserAndProfile: the first row of the pair in natural order, or null when there is none. */
  function RetrieveFromUserAndProfile(rows: map<Id, UserProfileRow>, userId: Id, profileId: Id): (r: Option<UserProfileRow>)
    ensures r.None? <==> forall k :: k in rows ==> rows[k].userId != userId || rows[k].profileId != profileId
    ensures r.Some? ==> r.value.userId == userId && r.value.profileId == profileId && r.value in rows.Values
  {
    RetrieveOrNull(rows, OfUserAndProfile(userId, profileId))
  }

  /**
   * Update: sets the colour of the first row of the pair in the caller's session and returns it
   * after the update, or null when the pair has no row.
   */
  method Update(store: Store, userId: Id, profileId: Id, color: int, session: Session) returns (r: Option<UserProfileRow>)
    requires store.Valid()
    modifies store`db, store`clock, store`trace
    ensures store.Valid() && old(store.clock) <= store.clock
    ensures r.None? <==> RetrieveFromUserAndProfile(old(store.db.userProfiles), userId, profileId).None?
    ensures r.Some? ==> r.value == SetColorWith(color, store.clock)(RetrieveFromUserAndProfile(old(store.db.userProfiles), userId, profileId).value)
    ensures (store.db.userProfiles, r) == FindOneAndUpdate(old(store.db.userProfiles), OfUserAndProfile(userId, profileId), SetColorWith(color, store.clock))
    ensures store.db == old(store.db).(userProfiles := store.db.userProfiles)
    ensures store.trace == old(store.trace) + [Effect.Write(UserProfilesCollection, FindOneAndUpdateCommand, Some(session))]
  {
    var now := store.Now();
    var (next, found) := FindOneAndUpdate(store.db.userProfiles, OfUserAndProfile(userId, profileId), SetColorWith(color, now));
    SameFirstMatch(store.db.userProfiles, userId, profileId, color, now);
    store.WriteUserProfiles(next, FindOneAndUpdateCommand, Some(session));
    r := found;
  }

  /** The row FindOneAndUpdate recolours is the row RetrieveFromUserAndProfile returns. */
  lemma SameFirstMatch(rows: map<Id, UserProfileRow>, userId: Id, profileId: Id, color: int, now: Time)
    ensures var (next, found) := FindOneAndUpdate(rows, OfUserAndProfile(userId, profileId), SetColorWith(color, now));
      found == if RetrieveFromUserAndProfile(rows, userId, profileId).None? then None
               else Some(SetColorWith(color, now)(RetrieveFromUserAndProfile(rows, userId, profileId).value))
  {
    var f := OfUserAndProfile(userId, profileId);
    var found := FindOneAndUpdate(rows, f, SetColorWith(color, now)).1;
    var first := RetrieveOrNull(rows, f);
    if found.Some? {
      var k :| k in rows && f(rows[k]) && (forall j :: j in rows && f(rows[j]) ==> k <= j)
        && found.value == SetColorWith(color, now)(rows[k]);
      var k2 :| k2 in rows && rows[k2] == first.value && f(first.value) && forall j :: j in rows && f(rows[j]) ==> k2 <= j;
      assert k == k2;
    }
  }

  /**
   * Update changes only the colour and the stamp of the first row of the pair: the ids and creation
   * time of every row are kept and the other rows are unchanged.
   */
  lemma UpdateSetsOnlyColor(rows: map<Id, UserProfileRow>, userId: Id, profileId: Id, color: int, now: Time)
    ensures var next := FindOneAndUpdate(rows, OfUserAndProfile(userId, profileId), SetColorWith(color, now)).0;
      && next.Keys == rows.Keys
      && (forall k :: k in rows ==> next[k] == rows[k] || next[k] == rows[k].(color := color, updatedAt := now))
      && (forall k :: k in rows && (rows[k].userId != userId || rows[k].profileId != profileId) ==> next[k] == rows[k])
  {
    FindOneAndUpdateLocal(rows, OfUserAndProfile(userId, profileId), SetColorWith(color, now));
  }

  /** Looking the pair up after Update returns the row Update returned. */
  lemma LookupAfterUpdate(rows: map<Id, UserProfileRow>, userId: Id, profileId: Id, color: int, now: Time)
    ensures var (next, found) := FindOneAndUpdate(rows, OfUserAndProfile(userId, profileId), SetColorWith(color, now));
      RetrieveFromUserAndProfile(next, userId, profileId) == found
  {
    var f := OfUserAndProfile(userId, profileId);
    var (next, found) := FindOneAndUpdate(rows, f, SetColorWith(color, now));
    var again := RetrieveOrNull(next, f);
    if found.Some? {
      var k :| k in rows && f(rows[k]) && (forall j :: j in rows && f(rows[j]) ==> k <= j)
        && next == rows[k := SetColorWith(color, now)(rows[k])] && found.value == SetColorWith(color, now)(rows[k]);
      assert f(next[k]);
      var k2 :| k2 in next && next[k2] == again.value && f(again.value) && forall j :: j in next && f(next[j]) ==> k2 <= j;
      assert k == k2;
    }
  }

  /** A created row is found by both lookups for its user. */
  lemma CreatedRowFound(rows: map<Id, UserProfileRow>, id: Id, user: User, profile: Profile, now: Time)
    ensures var next := rows[id := NewRow(user, profile, now)];
      && NewRow(user, profile, now) in RetrieveFromUser(next, user.id)
      && RetrieveFromUserAndProfile(next, user.id, profile.id).Some?
  {
    var next := rows[id := NewRow(user, profile, now)];
    assert next[id].userId == user.id && next[id].profileId == profile.id;
  }
}
