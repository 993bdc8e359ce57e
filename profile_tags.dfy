// ProfileTagService: the searchable tag of each profile. The ProfileTags collection is served by
// two unique indexes, one on `tag` and one on `profileId`.
module ProfileTags {
  import opened Common
  import opened Entities
  import opened Database
  import opened ProfileResponses

  /** `new ProfileTag(p)`: the profile's id and tag, created and updated now. */
  function NewProfileTag(p: Profile, now: Time): (t: ProfileTag)
    ensures t.profileId == p.id && t.tag == p.tag && t.createdAt == now && t.updatedAt == now
  {
    ProfileTag(p.id, p.tag, now, now)
  }

  /** The unique indexes: two rows clash when they share the tag or the profile. */
  function SameTagOrProfile(): (ProfileTag, ProfileTag) -> bool
  {
    (a: ProfileTag, b: ProfileTag) => a.tag == b.tag || a.profileId == b.profileId
  }

  /** The collection satisfies both unique indexes. */
  predicate TagIndexHolds(m: map<Id, ProfileTag>)
  {
    forall i, j :: i in m && j in m && i != j ==> m[i].tag != m[j].tag && m[i].profileId != m[j].profileId
  }

  /** CreateAsync: inserts the profile's tag row, rejected by the indexes when the tag or the profile already has one. */
  method Create(store: Store, p: Profile, session: Option<Session>) returns (r: Result<ProfileTag>)
    requires store.Valid()
    modifies store`db, store`nextId, store`clock, store`trace
    ensures store.Valid() && store.nextId == old(store.nextId) + 1 && old(store.clock) <= store.clock
    ensures r.Failure? <==> exists k :: k in old(store.db.profileTags) && SameTagOrProfile()(old(store.db.profileTags)[k], NewProfileTag(p, store.clock))
    ensures r.Failure? ==> r.error == MongoFailure("for document", ProfileTagsCollection) && store.db == old(store.db)
    ensures r.Success? ==> r.value == NewProfileTag(p, store.clock)
    ensures r.Success? ==> store.db == old(store.db).(profileTags := old(store.db.profileTags)[old(store.nextId) := r.value])
    ensures store.trace == old(store.trace) + [Effect.Write(ProfileTagsCollection, InsertOneCommand, session)]
  {
    var now := store.Now();
    var row := NewProfileTag(p, now);
    var id := store.NewId();
    var inserted := InsertOne(store.db.profileTags, id, row, SameTagOrProfile(), ProfileTagsCollection);
    if inserted.Failure? {
      store.Emit(Effect.Write(ProfileTagsCollection, InsertOneCommand, session));
      return Failure(inserted.error);
    }
    store.WriteProfileTags(inserted.value, InsertOneCommand, session);
    r := Success(row);
  }

  /** An accepted insert keeps both indexes. */
  lemma CreateKeepsIndex(m: map<Id, ProfileTag>, id: Id, row: ProfileTag)
    requires TagIndexHolds(m)
    requires InsertOne(m, id, row, SameTagOrProfile(), ProfileTagsCollection).Success?
    ensures TagIndexHolds(InsertOne(m, id, row, SameTagOrProfile(), ProfileTagsCollection).value)
  {
    var next := m[id := row];
    forall i, j | i in next && j in next && i != j
      ensures next[i].tag != next[j].tag && next[i].profileId != next[j].profileId
    {
      if i == id {
        assert !SameTagOrProfile()(m[j], row);
      } else if j == id {
        assert !SameTagOrProfile()(m[i], row);
      }
    }
  }

  // ----- SearchByTagAsync -----

  /** The filter `^` + the escaped search string on `tag`: the tag starts with the literal text. */
  function TagPrefix(searchTag: string): ProfileTag -> bool
  {
    (t: ProfileTag) => StartsWith(t.tag, searchTag)
  }

  /** The most tag rows a search uses. */
  const SearchLimit: int := 5

  /** The profile ids of a run of tag rows. */
  function TagProfileIds(tags: seq<ProfileTag>): (r: set<Id>)
    ensures |r| <= |tags|
    ensures forall id :: id in r <==> exists t :: t in tags && t.profileId == id
  {
    if tags == [] then {}
    else
      var rest := TagProfileIds(tags[1..]);
      assert forall t :: t in tags <==> t == tags[0] || t in tags[1..];
      {tags[0].profileId} + rest
  }

  /** The profiles with their responses, in order. */
  function Responses(ps: seq<Profile>): (r: seq<ProfileResponse>)
    ensures |r| == |ps| && forall i :: 0 <= i < |ps| ==> r[i] == ResponseOf(ps[i])
  {
    seq(|ps|, i requires 0 <= i < |ps| => ResponseOf(ps[i]))
  }

  /** The tag rows a search reads: those starting with the text, at most five in natural order. */
  function SearchRows(tags: map<Id, ProfileTag>, searchTag: string): (r: seq<ProfileTag>)
    ensures |r| <= SearchLimit
  {
    RetrieveMultiple(tags, TagPrefix(searchTag), Some(SearchLimit))
  }

  /** SearchByTagAsync over the ProfileTags and Profiles collections: the stored profiles of the tag rows that start with the search text. */
  function SearchByTag(tags: map<Id, ProfileTag>, profiles: map<Id, Profile>, searchTag: string): (r: seq<ProfileResponse>)
    ensures |r| <= SearchLimit
  {
    var ids := TagProfileIds(SearchRows(tags, searchTag));
    SubsetSize(ids * profiles.Keys, ids);
    Responses(RetrieveMultipleById(profiles, ids))
  }

  /** A stored profile one of whose tag rows starts with the search text. */
  ghost predicate TaggedProfile(tags: map<Id, ProfileTag>, profiles: map<Id, Profile>, searchTag: string, k: Id)
  {
    k in profiles && exists t :: t in tags.Values && t.profileId == k && StartsWith(t.tag, searchTag)
  }

  /** The `i`th search result is the response of a stored profile whose tag row matches the text. */
  lemma SearchResultMatches(tags: map<Id, ProfileTag>, profiles: map<Id, Profile>, searchTag: string, i: int)
    requires 0 <= i < |SearchByTag(tags, profiles, searchTag)|
    ensures exists k :: TaggedProfile(tags, profiles, searchTag, k) && SearchByTag(tags, profiles, searchTag)[i] == ResponseOf(profiles[k])
  {
    var rows := SearchRows(tags, searchTag);
    var ids := TagProfileIds(rows);
    var found := RetrieveMultipleById(profiles, ids);
    assert SearchByTag(tags, profiles, searchTag)[i] == Responses(found)[i] == ResponseOf(found[i]);
    var k :| k in ids && k in profiles && profiles[k] == found[i];
    var t :| t in rows && t.profileId == k;
    assert TagPrefix(searchTag)(t);
    assert TaggedProfile(tags, profiles, searchTag, k);
  }

  /** Every search result is the response of a stored profile whose tag row matches the text. */
  lemma SearchOnlyMatches(tags: map<Id, ProfileTag>, profiles: map<Id, Profile>, searchTag: string)
    ensures var r := SearchByTag(tags, profiles, searchTag);
      forall i :: 0 <= i < |r| ==> exists k :: TaggedProfile(tags, profiles, searchTag, k) && r[i] == ResponseOf(profiles[k])
  {
    forall i | 0 <= i < |SearchByTag(tags, profiles, searchTag)|
      ensures exists k :: TaggedProfile(tags, profiles, searchTag, k) && SearchByTag(tags, profiles, searchTag)[i] == ResponseOf(profiles[k])
    {
      SearchResultMatches(tags, profiles, searchTag, i);
    }
  }

  /** When no more than five tag rows match, the search reads the profile ids of all of them. */
  lemma SearchReadsAllRows(tags: map<Id, ProfileTag>, searchTag: string, k: Id)
    requires |Matching(tags, TagPrefix(searchTag))| <= SearchLimit
    requires exists t :: t in tags.Values && t.profileId == k && StartsWith(t.tag, searchTag)
    ensures k in TagProfileIds(SearchRows(tags, searchTag))
  {
    var t :| t in tags.Values && t.profileId == k && StartsWith(t.tag, searchTag);
    var j :| j in tags && tags[j] == t;
    assert TagPrefix(searchTag)(tags[j]);
    assert t in SearchRows(tags, searchTag);
  }

  /** When no more than five tag rows match, every stored profile with a matching tag row is found. */
  lemma SearchFindsAll(tags: map<Id, ProfileTag>, profiles: map<Id, Profile>, searchTag: string, k: Id)
    requires |Matching(tags, TagPrefix(searchTag))| <= SearchLimit
    requires TaggedProfile(tags, profiles, searchTag, k)
    ensures ResponseOf(profiles[k]) in SearchByTag(tags, profiles, searchTag)
  {
    SearchReadsAllRows(tags, searchTag, k);
    var ids := TagProfileIds(SearchRows(tags, searchTag));
    var found := RetrieveMultipleById(profiles, ids);
    assert k in ids && k in profiles;
    assert profiles[k] in found;
    ResponseListed(found, profiles[k]);
    assert SearchByTag(tags, profiles, searchTag) == Responses(found);
  }

  /** A profile in the list has its response in the responses. */
  lemma ResponseListed(ps: seq<Profile>, p: Profile)
    requires p in ps
    ensures ResponseOf(p) in Responses(ps)
  {
    var n :| 0 <= n < |ps| && ps[n] == p;
    assert Responses(ps)[n] == ResponseOf(p);
  }

  // ----- Update -----

  /** The filter `tag.ProfileId == profileId`. */
  function OfProfile(profileId: Id): ProfileTag -> bool
  {
    (t: ProfileTag) => t.profileId == profileId
  }

  /** The `$set` of Tag, followed by the store's automatic stamp. */
  function SetTagWith(newTag: string, now: Time): ProfileTag -> ProfileTag
  {
    (t: ProfileTag) => t.(tag := newTag, updatedAt := now)
  }

  /** The wrapped exception of a rejected UpdateOneAsync. */
  function UpdateOneFailure(cn: CollectionName): Exception
  {
    Exception(BaseException, "MongoDB operation failed while performing UpdateOne on collection '" + CollectionText(cn) + "'.", None)
  }

  /**
   * Update: sets Tag on the first row of the profile, in the caller's session; the server rejects
   * the write when it would break a unique index, that is when another row already has the tag.
   */
  method Update(store: Store, profileId: Id, newTag: string, session: Session) returns (r: Result<()>)
    requires store.Valid()
    modifies store`db, store`clock, store`trace
    ensures store.Valid() && old(store.clock) <= store.clock
    ensures var next := UpdateOne(old(store.db.profileTags), OfProfile(profileId), SetTagWith(newTag, store.clock)).0;
      && (r.Failure? <==> !TagIndexHolds(next))
      && (r.Failure? ==> r.error == UpdateOneFailure(ProfileTagsCollection) && store.db == old(store.db))
      && (r.Success? ==> store.db == old(store.db).(profileTags := next))
    ensures store.trace == old(store.trace) + [Effect.Write(ProfileTagsCollection, UpdateOneCommand, Some(session))]
  {
    var now := store.Now();
    var (next, _) := UpdateOne(store.db.profileTags, OfProfile(profileId), SetTagWith(newTag, now));
    if !TagIndexHolds(next) {
      store.Emit(Effect.Write(ProfileTagsCollection, UpdateOneCommand, Some(session)));
      return Failure(UpdateOneFailure(ProfileTagsCollection));
    }
    store.WriteProfileTags(next, UpdateOneCommand, Some(session));
    r := Success(());
  }

  /** Retagging the one row of the profile keeps the others and keeps the indexes iff no other row has the new tag. */
  lemma RetagRow(m: map<Id, ProfileTag>, profileId: Id, newTag: string, now: Time, k: Id)
    requires TagIndexHolds(m) && k in m && m[k].profileId == profileId
    ensures var next := m[k := m[k].(tag := newTag, updatedAt := now)];
      && (forall j :: j in m && m[j].profileId == profileId ==> j == k)
      && (TagIndexHolds(next) <==> forall j :: j in m && m[j].profileId != profileId ==> m[j].tag != newTag)
  {
    var next := m[k := m[k].(tag := newTag, updatedAt := now)];
    if TagIndexHolds(next) {
      forall j | j in m && m[j].profileId != profileId ensures m[j].tag != newTag {
        assert j != k && next[j] == m[j] && next[k].tag == newTag;
      }
    }
    if forall j :: j in m && m[j].profileId != profileId ==> m[j].tag != newTag {
      forall i, j | i in next && j in next && i != j
        ensures next[i].tag != next[j].tag && next[i].profileId != next[j].profileId
      {
        if i == k {
          assert next[j] == m[j];
        } else if j == k {
          assert next[i] == m[i];
        }
      }
    }
  }

  /**
   * Update changes only the tag and the stamp of the profile's row; from a collection that
   * satisfies the indexes it is accepted exactly when the profile has no row (nothing is written)
   * or no other profile holds the new tag.
   */
  lemma UpdateOnlyRetags(m: map<Id, ProfileTag>, profileId: Id, newTag: string, now: Time)
    requires TagIndexHolds(m)
    ensures var next := UpdateOne(m, OfProfile(profileId), SetTagWith(newTag, now)).0;
      && next.Keys == m.Keys
      && (forall k :: k in m ==> next[k].profileId == m[k].profileId && next[k].createdAt == m[k].createdAt)
      && (forall k :: k in m && m[k].profileId != profileId ==> next[k] == m[k])
      && (forall k :: k in m && m[k].profileId == profileId ==> next[k].tag == newTag)
      && (TagIndexHolds(next) <==> ((forall k :: k in m ==> m[k].profileId != profileId)
        || forall k :: k in m && m[k].profileId != profileId ==> m[k].tag != newTag))
  {
    var next := UpdateOne(m, OfProfile(profileId), SetTagWith(newTag, now)).0;
    var res := UpdateOne(m, OfProfile(profileId), SetTagWith(newTag, now)).1;
    if res.matchedCount != 0 {
      var k :| k in m && OfProfile(profileId)(m[k]) && next == m[k := SetTagWith(newTag, now)(m[k])];
      RetagRow(m, profileId, newTag, now, k);
    } else {
      assert forall k :: k in m ==> m[k].profileId != profileId;
    }
  }
}
