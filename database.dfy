// The document store behind MongoDbService and MongoDbContext.
//
// Collections are maps from ObjectId to document. Unique indexes are checked on insert by a
// clash relation per collection. The natural order of a collection, in which Find returns
// documents, is taken to be increasing id order (ObjectIds generated by one process increase).
module Database {
  import opened Common
  import opened Entities

  datatype CollectionName =
    | UsersCollection
    | ProfilesCollection
    | ProfileDetailsCollection
    | ProfileEventsCollection
    | ProfileCommunitiesCollection
    | ProfileTagsCollection
    | EventsCollection
    | EventDetailsCollection
    | EventMediaCollection
    | EventProfilesCollection
    | GroupsCollection
    | CommunityProfilesCollection
    | UserProfilesCollection
    | UserClaimsCollection

  /** `cn.ToString()`: the collection's name on the server. */
  function CollectionText(cn: CollectionName): string
  {
    match cn
    case UsersCollection => "Users"
    case ProfilesCollection => "Profiles"
    case ProfileDetailsCollection => "ProfileDetails"
    case ProfileEventsCollection => "ProfileEvents"
    case ProfileCommunitiesCollection => "ProfileCommunities"
    case ProfileTagsCollection => "ProfileTags"
    case EventsCollection => "Events"
    case EventDetailsCollection => "EventDetails"
    case EventMediaCollection => "EventMedia"
    case EventProfilesCollection => "EventProfiles"
    case GroupsCollection => "Groups"
    case CommunityProfilesCollection => "CommunityProfiles"
    case UserProfilesCollection => "UserProfiles"
    case UserClaimsCollection => "UserClaims"
  }

  /** The whole database: one map per collection. */
  datatype Db = Db(
    events: map<Id, Event>,
    eventDetails: map<Id, EventDetails>,
    profileEvents: map<Id, ProfileEvent>,
    eventProfiles: map<Id, EventProfile>,
    users: map<Id, User>,
    profiles: map<Id, Profile>,
    profileDetails: map<Id, ProfileDetails>,
    profileTags: map<Id, ProfileTag>,
    userProfiles: map<Id, UserProfileRow>,
    userClaims: map<Id, UserClaims>,
    groups: map<Id, Group>,
    profileCommunities: map<Id, ProfileCommunity>,
    communityProfiles: map<Id, CommunityProfile>,
    media: map<Id, Media>)

  const EmptyDb: Db := Db(map[], map[], map[], map[], map[], map[], map[], map[], map[], map[], map[], map[], map[], map[])

  /** A collection uses only keys below `n`. */
  predicate KeysBelow<T>(m: map<Id, T>, n: Id)
  {
    forall k :: k in m ==> k < n
  }

  /** Every collection uses only keys below `n`: `n` is an id the driver has not yet handed out. */
  predicate IdsBelow(db: Db, n: Id)
  {
    && KeysBelow(db.events, n)
    && KeysBelow(db.eventDetails, n)
    && KeysBelow(db.profileEvents, n)
    && KeysBelow(db.eventProfiles, n)
    && KeysBelow(db.users, n)
    && KeysBelow(db.profiles, n)
    && KeysBelow(db.profileDetails, n)
    && KeysBelow(db.profileTags, n)
    && KeysBelow(db.userProfiles, n)
    && KeysBelow(db.userClaims, n)
    && KeysBelow(db.groups, n)
    && KeysBelow(db.profileCommunities, n)
    && KeysBelow(db.communityProfiles, n)
    && KeysBelow(db.media, n)
  }

  /** Handing out more ids keeps every collection below the counter. */
  lemma IdsBelowGrows(db: Db, n: Id, n': Id)
    requires IdsBelow(db, n) && n <= n'
    ensures IdsBelow(db, n')
  {
  }

  predicate EventsKeyed(m: map<Id, Event>)
  {
    forall k :: k in m ==> m[k].id == k
  }

  predicate ProfilesKeyed(m: map<Id, Profile>)
  {
    forall k :: k in m ==> m[k].id == k
  }

  predicate UsersKeyed(m: map<Id, User>)
  {
    forall k :: k in m ==> m[k].id == k
  }

  predicate MediaKeyed(m: map<Id, Media>)
  {
    forall k :: k in m ==> m[k].id == k
  }

  /** The documents that carry their id store it under that same key. */
  predicate Keyed(db: Db)
  {
    EventsKeyed(db.events) && ProfilesKeyed(db.profiles) && UsersKeyed(db.users) && MediaKeyed(db.media)
  }

  /** No collection has `id` as a key. */
  predicate FreshId(db: Db, id: Id)
  {
    && id !in db.events && id !in db.eventDetails && id !in db.profileEvents && id !in db.eventProfiles && id !in db.users && id !in db.profiles
    && id !in db.profileDetails && id !in db.profileTags && id !in db.userProfiles
    && id !in db.userClaims && id !in db.groups && id !in db.profileCommunities
    && id !in db.communityProfiles && id !in db.media
  }

  /** The ids of a run from `start` are exactly the ids from `start` below `start + |ids|`. */
  lemma RunIds(start: Id, ids: seq<Id>)
    requires forall i :: 0 <= i < |ids| ==> ids[i] == start + i
    ensures forall k :: k in IdSet(ids) <==> start <= k < start + |ids|
  {
    forall k | start <= k < start + |ids| ensures k in IdSet(ids) {
      assert ids[k - start] == k;
    }
  }

  /** Ids handed out from `start` on are new to every collection, and distinct. */
  lemma FreshRun(db: Db, start: Id, ids: seq<Id>)
    requires IdsBelow(db, start)
    requires forall i :: 0 <= i < |ids| ==> ids[i] == start + i
    ensures forall i :: 0 <= i < |ids| ==> FreshId(db, ids[i])
    ensures forall i, j :: 0 <= i < j < |ids| ==> ids[i] < ids[j]
  {
  }

  // ----- natural order -----

  /** Every element of `s` is strictly smaller than the next. */
  predicate Increasing(s: seq<Id>)
  {
    forall i, j :: 0 <= i < j < |s| ==> s[i] < s[j]
  }

  /** A non-empty set of ids has a least element. */
  lemma {:induction false} LeastOf(s: set<Id>) returns (m: Id)
    requires s != {}
    ensures m in s && forall x :: x in s ==> m <= x
  {
    var x :| x in s;
    if s == {x} {
      m := x;
    } else {
      var y := LeastOf(s - {x});
      m := if x < y then x else y;
      forall z | z in s ensures m <= z {
        if z != x { assert z in s - {x}; }
      }
    }
  }

  lemma HasMinimum(s: set<Id>)
    requires s != {}
    ensures exists m :: m in s && forall x :: x in s ==> m <= x
  {
    var m := LeastOf(s);
  }

  /** The smallest id of a non-empty set: the first of them in natural order. */
  function MinId(s: set<Id>): (m: Id)
    requires s != {}
    ensures m in s && forall x :: x in s ==> m <= x
  {
    HasMinimum(s);
    var m :| m in s && forall x :: x in s ==> m <= x;
    m
  }

  /** The ids of `s` in natural order. */
  function SortedIds(s: set<Id>): (r: seq<Id>)
    ensures |r| == |s|
    ensures forall i :: 0 <= i < |r| ==> r[i] in s
    ensures forall x :: x in s ==> x in r
    ensures Increasing(r)
    decreases |s|
  {
    if s == {} then []
    else
      var m := MinId(s);
      var rest := SortedIds(s - {m});
      PrependLeast(s, m, rest);
      [m] + rest
  }

  /** The least element of `s` in front of the others in natural order gives all of `s` in natural order. */
  lemma PrependLeast(s: set<Id>, m: Id, rest: seq<Id>)
    requires m in s && forall x :: x in s ==> m <= x
    requires |rest| == |s - {m}| && Increasing(rest)
    requires forall i :: 0 <= i < |rest| ==> rest[i] in s - {m}
    requires forall x :: x in s - {m} ==> x in rest
    ensures |[m] + rest| == |s| && Increasing([m] + rest)
    ensures forall i :: 0 <= i < |[m] + rest| ==> ([m] + rest)[i] in s
    ensures forall x :: x in s ==> x in [m] + rest
  {
    var r := [m] + rest;
    forall i | 0 <= i < |rest| ensures m < rest[i] {
      assert rest[i] in s - {m};
    }
    forall i, j | 0 <= i < j < |r| ensures r[i] < r[j] {
      assert r[j] == rest[j - 1];
      if i > 0 {
        assert r[i] == rest[i - 1];
      }
    }
    forall i | 0 <= i < |r| ensures r[i] in s {
      if i > 0 {
        assert r[i] == rest[i - 1];
      }
    }
    forall x | x in s ensures x in r {
      if x != m {
        assert x in s - {m};
      }
    }
  }

  /** The keys of the documents that satisfy `filter`. */
  function Matching<K(!new), D>(coll: map<K, D>, filter: D -> bool): (r: set<K>)
    ensures forall k :: k in r <==> k in coll && filter(coll[k])
  {
    set k | k in coll.Keys && filter(coll[k])
  }

  /** No document matches iff the set of matching keys is empty. */
  lemma MatchingEmpty<K(!new), D>(coll: map<K, D>, filter: D -> bool)
    ensures |Matching(coll, filter)| == 0 <==> forall k :: k in coll ==> !filter(coll[k])
  {
    if |Matching(coll, filter)| != 0 {
      var k :| k in Matching(coll, filter);
    }
  }

  /** The documents stored under `keys`, in that order. */
  function Select<K, D>(coll: map<K, D>, keys: seq<K>): (r: seq<D>)
    requires forall i :: 0 <= i < |keys| ==> keys[i] in coll
    ensures |r| == |keys| && forall i :: 0 <= i < |keys| ==> r[i] == coll[keys[i]]
  {
    if keys == [] then [] else [coll[keys[0]]] + Select(coll, keys[1..])
  }

  /** `Limit(limit)` on a cursor: null and 0 mean no limit, a negative limit is taken by its size. */
  function Limited<T>(s: seq<T>, limit: Option<int>): (r: seq<T>)
    ensures |r| <= |s| && forall i :: 0 <= i < |r| ==> r[i] == s[i]
    ensures limit.None? || limit.value == 0 ==> r == s
    ensures limit.Some? && limit.value != 0 ==>
      var n := if limit.value < 0 then -limit.value else limit.value;
      r == s[..if n < |s| then n else |s|]
  {
    if limit.None? || limit.value == 0 then s
    else
      var n := if limit.value < 0 then -limit.value else limit.value;
      s[..if n < |s| then n else |s|]
  }

  // ----- reads (MongoDbService.cs, region retrieve) -----

  /** `Find(filter).FirstOrDefaultAsync()`: the matching document first in natural order, or null. */
  function RetrieveOrNull<D>(coll: map<Id, D>, filter: D -> bool): (r: Option<D>)
    ensures r.None? <==> forall k :: k in coll ==> !filter(coll[k])
    ensures r.Some? ==> exists k :: (k in coll && coll[k] == r.value && filter(r.value)
      && forall j :: j in coll && filter(coll[j]) ==> k <= j)
  {
    var keys := Matching(coll, filter);
    if keys == {} then None
    else
      var k := MinId(keys);
      Some(coll[k])
  }

  /** RetrieveAsync: the first matching document, or KeyNotFoundException. */
  function Retrieve<D>(coll: map<Id, D>, filter: D -> bool, cn: CollectionName): (r: Result<D>)
    ensures r.Failure? <==> forall k :: k in coll ==> !filter(coll[k])
    ensures r.Failure? ==> r.error.kind == KeyNotFound
    ensures r.Success? ==> RetrieveOrNull(coll, filter) == Some(r.value)
  {
    match RetrieveOrNull(coll, filter)
    case None => Throw(KeyNotFound, "Document not found from collection '" + CollectionText(cn) + "'.")
    case Some(d) => Success(d)
  }

  /** RetrieveByIdAsync: the document with that id, or KeyNotFoundException. */
  function RetrieveById<D>(coll: map<Id, D>, id: Id, cn: CollectionName): (r: Result<D>)
    ensures r.Failure? <==> id !in coll
    ensures r.Failure? ==> r.error.kind == KeyNotFound
    ensures r.Success? ==> r.value == coll[id]
  {
    if id in coll then Success(coll[id])
    else Throw(KeyNotFound, "Document not found from collection '" + CollectionText(cn) + "'.")
  }

  /** ConfirmExists: nothing when the id is present, a plain Exception when it is absent. */
  function ConfirmExists<D>(coll: map<Id, D>, id: Id, cn: CollectionName): (r: Result<()>)
    ensures r.Success? <==> id in coll
    ensures r.Failure? ==> r.error.kind == BaseException
  {
    if id in coll then Success(())
    else Throw(BaseException, "Document with id '" + IdText(id) + "' not found in collection '" + CollectionText(cn) + "'")
  }

  /** RetrieveMultipleAsync: every matching document in natural order, cut to `limit`. */
  function RetrieveMultiple<D(==)>(coll: map<Id, D>, filter: D -> bool, limit: Option<int>): (r: seq<D>)
    ensures limit.None? ==> |r| == |Matching(coll, filter)|
    ensures forall i :: 0 <= i < |r| ==> filter(r[i]) && r[i] in coll.Values
    ensures limit.None? ==> forall k :: k in coll && filter(coll[k]) ==> coll[k] in r
    ensures limit.Some? && limit.value > 0 ==> |r| <= limit.value
    ensures limit.Some? && limit.value >= |Matching(coll, filter)| ==> forall k :: k in coll && filter(coll[k]) ==> coll[k] in r
  {
    var ids := SortedIds(Matching(coll, filter));
    var all := Select(coll, ids);
    AllMatch(coll, filter, ids);
    SelectCovers(coll, ids);
    var r := Limited(all, limit);
    assert forall i :: 0 <= i < |r| ==> filter(r[i]) && r[i] in coll.Values by {
      forall i | 0 <= i < |r| ensures filter(r[i]) && r[i] in coll.Values {
        assert r[i] == all[i];
      }
    }
    r
  }

  /** Without a limit the first retrieved document is the one RetrieveOrNull finds: the match under the least id. */
  lemma FirstRetrievedLeast<D>(coll: map<Id, D>, filter: D -> bool)
    ensures var all := RetrieveMultiple(coll, filter, None);
      all != [] ==> RetrieveOrNull(coll, filter) == Some(all[0])
  {
    var keys := Matching(coll, filter);
    var ids := SortedIds(keys);
    assert RetrieveMultiple(coll, filter, None) == Select(coll, ids);
    if keys != {} {
      var m := MinId(keys);
      assert RetrieveOrNull(coll, filter) == Some(coll[m]);
      assert m in ids;
      var n :| 0 <= n < |ids| && ids[n] == m;
      assert ids[0] <= ids[n];
      assert ids[0] in keys;
      assert ids[0] == m;
    }
  }

  lemma AllMatch<D>(coll: map<Id, D>, filter: D -> bool, ids: seq<Id>)
    requires forall i :: 0 <= i < |ids| ==> ids[i] in coll && filter(coll[ids[i]])
    ensures forall i :: 0 <= i < |ids| ==> filter(Select(coll, ids)[i]) && Select(coll, ids)[i] in coll.Values
  {
    var all := Select(coll, ids);
    forall i | 0 <= i < |ids| ensures filter(all[i]) && all[i] in coll.Values {
      assert all[i] == coll[ids[i]];
    }
  }

  /** RetrieveMultipleByIdAsync: the documents whose id is in `ids`, in natural order. */
  function RetrieveMultipleById<D>(coll: map<Id, D>, ids: set<Id>): (r: seq<D>)
    ensures |r| == |ids * coll.Keys|
    ensures forall i :: 0 <= i < |r| ==> exists k :: k in ids && k in coll && coll[k] == r[i]
    ensures forall k :: k in ids && k in coll ==> coll[k] in r
  {
    var keys := SortedIds(ids * coll.Keys);
    SelectCovers(coll, keys);
    Select(coll, keys)
  }

  /** Each selected document is stored under one of the keys, and each key's document is selected. */
  lemma SelectCovers<K, D>(coll: map<K, D>, keys: seq<K>)
    requires forall i :: 0 <= i < |keys| ==> keys[i] in coll
    ensures forall i :: 0 <= i < |keys| ==> exists k :: k in keys && k in coll && coll[k] == Select(coll, keys)[i]
    ensures forall k :: k in keys ==> coll[k] in Select(coll, keys)
  {
    var r := Select(coll, keys);
    forall i | 0 <= i < |keys| ensures exists k :: k in keys && k in coll && coll[k] == r[i] {
      assert keys[i] in keys && coll[keys[i]] == r[i];
    }
    forall k | k in keys ensures coll[k] in r {
      var i :| 0 <= i < |keys| && keys[i] == k;
      assert r[i] == coll[k];
    }
  }

  // ----- writes (MongoDbService.cs, regions create and update) -----

  /** The wrapped exception every failed driver call surfaces as. */
  function MongoFailure(operation: string, cn: CollectionName): Exception
  {
    Exception(BaseException, "MongoDB operation failed " + operation + " in collection '" + CollectionText(cn) + "'.", None)
  }

  /**
   * InsertOneAsync under the collection's unique indexes: `clash(stored, doc)` holds when the two
   * documents agree on a uniquely indexed key, and the insert is then rejected, as it is when the
   * new id is taken.
   */
  function InsertOne<D>(coll: map<Id, D>, id: Id, doc: D, clash: (D, D) -> bool, cn: CollectionName): (r: Result<map<Id, D>>)
    ensures r.Success? <==> id !in coll && forall k :: k in coll ==> !clash(coll[k], doc)
    ensures r.Success? ==> r.value == coll[id := doc]
    ensures r.Failure? ==> r.error == MongoFailure("for document", cn)
  {
    if id in coll || exists k :: k in coll && clash(coll[k], doc) then Failure(MongoFailure("for document", cn))
    else Success(coll[id := doc])
  }

  /** No unique index besides the id. */
  function NoIndex<D>(): (D, D) -> bool
  {
    (a: D, b: D) => false
  }

  /**
   * The batch can be inserted whole: its ids are new and distinct, and no document clashes with a
   * stored one or with an earlier one of the batch.
   */
  predicate Admissible<D>(coll: map<Id, D>, ids: seq<Id>, docs: seq<D>, clash: (D, D) -> bool)
    requires |ids| == |docs|
  {
    && (forall i :: 0 <= i < |ids| ==> ids[i] !in coll)
    && (forall i, j :: 0 <= i < j < |ids| ==> ids[i] != ids[j])
    && (forall i, k :: 0 <= i < |ids| && k in coll ==> !clash(coll[k], docs[i]))
    && (forall i, j :: 0 <= i < j < |ids| ==> !clash(docs[i], docs[j]))
  }

  /** `next` is `m` with `docs` added under the consecutive ids from `start`. */
  ghost predicate StoredAfter<D>(m: map<Id, D>, next: map<Id, D>, start: Id, docs: seq<D>)
  {
    && (forall k :: k in next <==> k in m || start <= k < start + |docs|)
    && (forall k :: k in m ==> next[k] == m[k])
    && (forall k :: start <= k < start + |docs| ==> k in next && next[k] == docs[k - start])
  }

  /** A batch inserted under the consecutive ids from `start` is stored after the collection. */
  lemma RunStored<D>(m: map<Id, D>, next: map<Id, D>, start: Id, ids: seq<Id>, docs: seq<D>)
    requires |ids| == |docs| && forall i :: 0 <= i < |ids| ==> ids[i] == start + i
    requires next.Keys == m.Keys + IdSet(ids)
    requires forall k :: k in m ==> next[k] == m[k]
    requires forall i :: 0 <= i < |ids| ==> next[ids[i]] == docs[i]
    ensures StoredAfter(m, next, start, docs)
  {
    RunKeys(m, next, start, ids);
    RunDocs(next, start, ids, docs);
  }

  /** The collection after a batch under the ids from `start` holds the old keys and those ids. */
  lemma RunKeys<D>(m: map<Id, D>, next: map<Id, D>, start: Id, ids: seq<Id>)
    requires forall i :: 0 <= i < |ids| ==> ids[i] == start + i
    requires next.Keys == m.Keys + IdSet(ids)
    ensures forall k :: k in next <==> k in m || start <= k < start + |ids|
  {
    RunIds(start, ids);
    forall k ensures k in next <==> k in m || start <= k < start + |ids| {
      assert k in next.Keys <==> k in m.Keys || k in IdSet(ids);
    }
  }

  /** Id `start + i` of the batch holds document `i`. */
  lemma RunDocs<D>(next: map<Id, D>, start: Id, ids: seq<Id>, docs: seq<D>)
    requires |ids| == |docs| && forall i :: 0 <= i < |ids| ==> ids[i] == start + i
    requires forall i :: 0 <= i < |ids| ==> ids[i] in next && next[ids[i]] == docs[i]
    ensures forall k :: start <= k < start + |docs| ==> k in next && next[k] == docs[k - start]
  {
    forall k | start <= k < start + |docs| ensures k in next && next[k] == docs[k - start] {
      var i := k - start;
      assert ids[i] == k;
    }
  }

  /** The ids of a batch, as a set. */
  function IdSet(ids: seq<Id>): (r: set<Id>)
    ensures forall k :: k in r <==> k in ids
  {
    set i | 0 <= i < |ids| :: ids[i]
  }

  /**
   * InsertManyAsync, an ordered bulk insert: documents go in one by one until one is rejected;
   * the ones inserted before it stay.
   */
  function InsertMany<D>(coll: map<Id, D>, ids: seq<Id>, docs: seq<D>, clash: (D, D) -> bool, cn: CollectionName): (r: (map<Id, D>, Result<()>))
    requires |ids| == |docs|
    ensures r.1.Success? <==> Admissible(coll, ids, docs, clash)
    ensures r.1.Success? ==> r.0.Keys == coll.Keys + IdSet(ids)
    ensures r.1.Success? ==> forall i :: 0 <= i < |ids| ==> r.0[ids[i]] == docs[i]
    ensures coll.Keys <= r.0.Keys <= coll.Keys + IdSet(ids)
    ensures forall k :: k in coll ==> r.0[k] == coll[k]
    decreases |ids|
  {
    if ids == [] then (coll, Success(()))
    else
      match InsertOne(coll, ids[0], docs[0], clash, cn)
      case Failure(e) =>
        AdmissibleStep(coll, ids, docs, clash);
        (coll, Failure(e))
      case Success(next) =>
        var rest := InsertMany(next, ids[1..], docs[1..], clash, cn);
        AdmissibleStep(coll, ids, docs, clash);
        assert IdSet(ids) == {ids[0]} + IdSet(ids[1..]);
        assert rest.1.Success? ==> forall i :: 0 <= i < |ids| ==> rest.0[ids[i]] == docs[i] by {
          if rest.1.Success? {
            forall i | 0 <= i < |ids| ensures rest.0[ids[i]] == docs[i] {
              if i > 0 { assert ids[i] == ids[1..][i - 1] && docs[i] == docs[1..][i - 1]; }
            }
          }
        }
        rest
  }

  /** A batch is admissible iff its first document can go in and the rest is admissible after it. */
  lemma AdmissibleStep<D>(coll: map<Id, D>, ids: seq<Id>, docs: seq<D>, clash: (D, D) -> bool)
    requires |ids| == |docs| && ids != []
    ensures Admissible(coll, ids, docs, clash) <==>
      && ids[0] !in coll && (forall k :: k in coll ==> !clash(coll[k], docs[0]))
      && Admissible(coll[ids[0] := docs[0]], ids[1..], docs[1..], clash)
  {
    var next := coll[ids[0] := docs[0]];
    if ids[0] !in coll && (forall k :: k in coll ==> !clash(coll[k], docs[0])) && Admissible(next, ids[1..], docs[1..], clash) {
      forall i | 0 <= i < |ids| ensures ids[i] !in coll {
        if i > 0 { assert ids[i] == ids[1..][i - 1]; }
      }
      forall i, j | 0 <= i < j < |ids| ensures ids[i] != ids[j] && !clash(docs[i], docs[j]) {
        assert ids[j] == ids[1..][j - 1] && docs[j] == docs[1..][j - 1];
        if i > 0 {
          assert ids[i] == ids[1..][i - 1] && docs[i] == docs[1..][i - 1];
        } else {
          assert next[ids[0]] == docs[0];
        }
      }
      forall i, k | 0 <= i < |ids| && k in coll ensures !clash(coll[k], docs[i]) {
        if i > 0 {
          assert docs[i] == docs[1..][i - 1];
          assert next[k] == coll[k];
        }
      }
    }
    if Admissible(coll, ids, docs, clash) {
      assert ids[0] !in coll;
      assert forall k :: k in coll ==> !clash(coll[k], docs[0]);
      forall i | 0 <= i < |ids| - 1 ensures ids[1..][i] !in next {
        assert ids[1..][i] == ids[i + 1];
      }
      forall i, j | 0 <= i < j < |ids| - 1 ensures ids[1..][i] != ids[1..][j] && !clash(docs[1..][i], docs[1..][j]) {
        assert ids[1..][i] == ids[i + 1] && ids[1..][j] == ids[j + 1];
        assert docs[1..][i] == docs[i + 1] && docs[1..][j] == docs[j + 1];
      }
      forall i, k | 0 <= i < |ids| - 1 && k in next ensures !clash(next[k], docs[1..][i]) {
        assert docs[1..][i] == docs[i + 1];
        if k == ids[0] { assert next[k] == docs[0]; }
      }
    }
  }

  /** The result of UpdateOneAsync / UpdateManyAsync. */
  datatype UpdateResult = UpdateResult(matchedCount: nat, modifiedCount: nat)

  /**
   * The update definition sent to the server: the caller's update, then `updatedAt := now`
   * when the document type is a BaseDateEntity (`stamp` is given) and `setUpdatedAtDate` holds.
   */
  function Combined<D(!new)>(update: D -> D, stamp: Option<D -> D>, setUpdatedAtDate: bool): (u: D -> D)
    ensures stamp.None? || !setUpdatedAtDate ==> u == update
    ensures stamp.Some? && setUpdatedAtDate ==> forall d :: u(d) == stamp.value(update(d))
  {
    if stamp.Some? && setUpdatedAtDate then (d: D) => stamp.value(update(d)) else update
  }

  /** UpdateOneAsync with a filter that names one key plus a guard on that document. */
  function UpdateOneByKey<K, D(==)>(coll: map<K, D>, key: K, guard: D -> bool, update: D -> D): (r: (map<K, D>, UpdateResult))
    ensures r.0.Keys == coll.Keys
    ensures forall k :: k in coll && k != key ==> r.0[k] == coll[k]
    ensures r.1.matchedCount == if key in coll && guard(coll[key]) then 1 else 0
    ensures r.1.matchedCount == 1 ==> r.0[key] == update(coll[key])
    ensures r.1.matchedCount == 0 ==> r.0 == coll
    ensures r.1.modifiedCount == if r.1.matchedCount == 1 && r.0[key] != coll[key] then 1 else 0
  {
    if key in coll && guard(coll[key]) then
      var d := update(coll[key]);
      (coll[key := d], UpdateResult(1, if d != coll[key] then 1 else 0))
    else (coll, UpdateResult(0, 0))
  }

  /** UpdateOneAsync on a general filter: the first match in natural order gets `update`. */
  function UpdateOne<D(==)>(coll: map<Id, D>, filter: D -> bool, update: D -> D): (r: (map<Id, D>, UpdateResult))
    ensures r.0.Keys == coll.Keys
    ensures r.1.matchedCount == 0 <==> forall k :: k in coll ==> !filter(coll[k])
    ensures r.1.matchedCount == 0 ==> r.0 == coll && r.1.modifiedCount == 0
    ensures r.1.matchedCount != 0 ==> exists k :: (k in coll && filter(coll[k])
      && (forall j :: j in coll && filter(coll[j]) ==> k <= j)
      && r.0 == coll[k := update(coll[k])] && r.1.matchedCount == 1
      && r.1.modifiedCount == if update(coll[k]) != coll[k] then 1 else 0)
  {
    var keys := Matching(coll, filter);
    if keys == {} then (coll, UpdateResult(0, 0))
    else
      var k := MinId(keys);
      UpdateOneByKey(coll, k, filter, update)
  }

  /** UpdateManyAsync: every document satisfying `filter` gets `update`; no other changes. */
  function UpdateMany<K(!new), D(==)>(coll: map<K, D>, filter: D -> bool, update: D -> D): (r: (map<K, D>, UpdateResult))
    ensures r.0.Keys == coll.Keys
    ensures forall k :: k in coll ==> r.0[k] == if filter(coll[k]) then update(coll[k]) else coll[k]
    ensures r.1.matchedCount == |Matching(coll, filter)|
  {
    var next := map k | k in coll.Keys :: if filter(coll[k]) then update(coll[k]) else coll[k];
    var changed := set k | k in coll.Keys && filter(coll[k]) && next[k] != coll[k];
    assert changed <= Matching(coll, filter);
    SubsetSize(changed, Matching(coll, filter));
    (next, UpdateResult(|Matching(coll, filter)|, |changed|))
  }

  lemma SubsetSize<T>(a: set<T>, b: set<T>)
    requires a <= b
    ensures |a| <= |b|
  {
    assert b == a + (b - a);
  }

  /** FindOneAndUpdateAsync on a filter naming one key: the post-update document, or null. */
  function FindOneAndUpdateByKey<K, D>(coll: map<K, D>, key: K, update: D -> D): (r: (map<K, D>, Option<D>))
    ensures r.1.None? <==> key !in coll
    ensures r.1.None? ==> r.0 == coll
    ensures r.1.Some? ==> r.0 == coll[key := update(coll[key])] && r.1.value == update(coll[key])
  {
    if key in coll then (coll[key := update(coll[key])], Some(update(coll[key]))) else (coll, None)
  }

  /** FindOneAndUpdateAsync on a general filter: the first match in natural order is updated and returned. */
  function FindOneAndUpdate<D>(coll: map<Id, D>, filter: D -> bool, update: D -> D): (r: (map<Id, D>, Option<D>))
    ensures r.1.None? <==> forall k :: k in coll ==> !filter(coll[k])
    ensures r.1.None? ==> r.0 == coll
    ensures r.1.Some? ==> exists k :: (k in coll && filter(coll[k])
      && (forall j :: j in coll && filter(coll[j]) ==> k <= j)
      && r.0 == coll[k := update(coll[k])] && r.1.value == update(coll[k]))
  {
    var keys := Matching(coll, filter);
    if keys == {} then (coll, None)
    else
      var k := MinId(keys);
      (coll[k := update(coll[k])], Some(update(coll[k])))
  }

  /** FindOneAndUpdate changes only a document the filter matches, and that one by the update. */
  lemma FindOneAndUpdateLocal<D>(coll: map<Id, D>, filter: D -> bool, update: D -> D)
    ensures var next := FindOneAndUpdate(coll, filter, update).0;
      && next.Keys == coll.Keys
      && forall k :: k in coll ==> next[k] == coll[k] || (filter(coll[k]) && next[k] == update(coll[k]))
  {
    var r := FindOneAndUpdate(coll, filter, update);
    if r.1.Some? {
      var k :| k in coll && filter(coll[k]) && r.0 == coll[k := update(coll[k])];
    }
  }

  /** FindOneByIdAndUpdateAsync: as FindOneAndUpdate on the id, but a missing id is KeyNotFoundException. */
  function FindOneByIdAndUpdate<D>(coll: map<Id, D>, id: Id, update: D -> D, cn: CollectionName): (r: (map<Id, D>, Result<D>))
    ensures r.1.Failure? <==> id !in coll
    ensures r.1.Failure? ==> r.0 == coll && r.1.error.kind == KeyNotFound
    ensures r.1.Success? ==> r.0 == coll[id := update(coll[id])] && r.1.value == r.0[id]
  {
    var (next, found) := FindOneAndUpdateByKey(coll, id, update);
    if found.None? then
      (next, Throw(KeyNotFound, "Document with id '" + IdText(id) + "' not found in collection '" + CollectionText(cn) + "' for patch update."))
    else (next, Success(found.value))
  }

  // ----- sorting and pagination -----

  /** `s` is ordered by `key`, largest first. */
  predicate SortedDescending<D>(s: seq<D>, key: D -> int)
  {
    forall i, j :: 0 <= i < j < |s| ==> key(s[i]) >= key(s[j])
  }

  /** Insert `d` into a list sorted largest first, after the elements with an equal key. */
  function InsertDescending<D>(d: D, s: seq<D>, key: D -> int): (r: seq<D>)
    requires SortedDescending(s, key)
    ensures SortedDescending(r, key)
    ensures multiset(r) == multiset(s) + multiset{d}
  {
    if s == [] then [d]
    else if key(s[0]) >= key(d) then
      var rest := InsertDescending(d, s[1..], key);
      assert s == [s[0]] + s[1..];
      TailBelowHead(s, key);
      KeysBounded(rest, s[1..], d, key, key(s[0]));
      ConsDescending(s[0], rest, key);
      [s[0]] + rest
    else
      TailBelowHead(s, key);
      ConsDescending(d, s, key);
      [d] + s
  }

  /** In a list sorted largest first, no key exceeds the first. */
  lemma TailBelowHead<D>(s: seq<D>, key: D -> int)
    requires SortedDescending(s, key) && s != []
    ensures forall i :: 0 <= i < |s| ==> key(s[i]) <= key(s[0])
  {
    forall i | 0 < i < |s| ensures key(s[i]) <= key(s[0]) {
      assert key(s[0]) >= key(s[i]);
    }
  }

  /** A bound on the keys of `t` and of `d` bounds every key of a list holding `t` and `d`. */
  lemma KeysBounded<D>(rest: seq<D>, t: seq<D>, d: D, key: D -> int, bound: int)
    requires multiset(rest) == multiset(t) + multiset{d}
    requires key(d) <= bound && forall i :: 0 <= i < |t| ==> key(t[i]) <= bound
    ensures forall i :: 0 <= i < |rest| ==> key(rest[i]) <= bound
  {
    forall i | 0 <= i < |rest| ensures key(rest[i]) <= bound {
      assert rest[i] in multiset(rest);
      if rest[i] != d {
        assert rest[i] in multiset(t);
        var j :| 0 <= j < |t| && t[j] == rest[i];
      }
    }
  }

  /** A largest-first list stays so with an element in front whose key bounds all of its keys. */
  lemma ConsDescending<D>(x: D, s: seq<D>, key: D -> int)
    requires SortedDescending(s, key) && forall i :: 0 <= i < |s| ==> key(s[i]) <= key(x)
    ensures SortedDescending([x] + s, key)
  {
    var r := [x] + s;
    forall i, j | 0 <= i < j < |r| ensures key(r[i]) >= key(r[j]) {
      assert r[j] == s[j - 1];
      if i > 0 {
        assert r[i] == s[i - 1];
      }
    }
  }

  /**
   * `Sort(Builders.Sort.Descending(key))`: the documents ordered largest key first; documents with
   * equal keys keep their natural order.
   */
  function SortDescending<D>(s: seq<D>, key: D -> int): (r: seq<D>)
    ensures SortedDescending(r, key)
    ensures multiset(r) == multiset(s)
    decreases |s|
  {
    if s == [] then []
    else
      var n := |s| - 1;
      assert s == s[..n] + [s[n]];
      InsertDescending(s[n], SortDescending(s[..n], key), key)
  }

  /** Sorting drops no document. */
  lemma SortKeepsMembers<D>(s: seq<D>, key: D -> int)
    ensures forall x :: x in s ==> x in SortDescending(s, key)
  {
    var r := SortDescending(s, key);
    forall x | x in s ensures x in r {
      assert x in multiset(s);
    }
  }

  /** Sorting adds no document: whatever holds of every document before holds after. */
  lemma SortKeeps<D>(s: seq<D>, key: D -> int, p: D -> bool)
    requires forall i :: 0 <= i < |s| ==> p(s[i])
    ensures forall i :: 0 <= i < |SortDescending(s, key)| ==> p(SortDescending(s, key)[i])
  {
    var r := SortDescending(s, key);
    forall i | 0 <= i < |r| ensures p(r[i]) {
      assert r[i] in multiset(r);
      var j :| 0 <= j < |s| && s[j] == r[i];
    }
  }

  /**
   * The paging of FindForPaginationAsync: with both arguments, skip `(pageNumber - 1) * pageSize`
   * documents and take `pageSize` (a limit of 0 takes everything, a negative one its size); the
   * server rejects a negative skip. Without both arguments the whole sorted list is returned.
   */
  function Page<D>(sorted: seq<D>, pageNumber: Option<int>, pageSize: Option<int>, cn: CollectionName): (r: Result<seq<D>>)
    ensures pageNumber.None? || pageSize.None? ==> r == Success(sorted)
    ensures r.Failure? <==> NegativeSkip(pageNumber, pageSize)
    ensures r.Success? ==> var start := PageStart(pageNumber, pageSize, |sorted|);
      start + |r.value| <= |sorted| && forall i :: 0 <= i < |r.value| ==> r.value[i] == sorted[start + i]
    ensures pageNumber.Some? && pageSize.Some? && r.Success? ==>
      r.value == Limited(sorted[PageStart(pageNumber, pageSize, |sorted|)..], pageSize)
  {
    if pageNumber.None? || pageSize.None? then Success(sorted)
    else
      var skip := (pageNumber.value - 1) * pageSize.value;
      if skip < 0 then Failure(MongoFailure("while retrieving for documents", cn))
      else Success(Limited(sorted[if skip < |sorted| then skip else |sorted|..], pageSize))
  }

  /** The server's refusal: both paging arguments given, and `(pageNumber - 1) * pageSize` negative. */
  predicate NegativeSkip(pageNumber: Option<int>, pageSize: Option<int>)
  {
    pageNumber.Some? && pageSize.Some? && (pageNumber.value - 1) * pageSize.value < 0
  }

  /** Where a page starts among `len` sorted documents: after the skipped ones, or at the end. */
  function PageStart(pageNumber: Option<int>, pageSize: Option<int>, len: nat): (r: nat)
    ensures r <= len
  {
    if pageNumber.None? || pageSize.None? then 0
    else
      var skip := (pageNumber.value - 1) * pageSize.value;
      if skip < 0 then 0 else if skip < len then skip else len
  }

  /** A run of consecutive documents of a sorted list of the filter's documents is sorted and holds only such documents. */
  lemma SliceKeepsOrder<D>(sorted: seq<D>, key: D -> int, coll: map<Id, D>, filter: D -> bool, start: nat, page: seq<D>)
    requires SortedDescending(sorted, key) && forall i :: 0 <= i < |sorted| ==> filter(sorted[i]) && sorted[i] in coll.Values
    requires start + |page| <= |sorted| && forall i :: 0 <= i < |page| ==> page[i] == sorted[start + i]
    ensures SortedDescending(page, key) && forall i :: 0 <= i < |page| ==> filter(page[i]) && page[i] in coll.Values
  {
    forall i, j | 0 <= i < j < |page| ensures key(page[i]) >= key(page[j]) {
      assert page[i] == sorted[start + i] && page[j] == sorted[start + j];
    }
    forall i | 0 <= i < |page| ensures filter(page[i]) && page[i] in coll.Values {
      assert page[i] == sorted[start + i];
    }
  }

  /** The filter's documents, sorted by `key` largest first. */
  function SortedMatches<D(==)>(coll: map<Id, D>, filter: D -> bool, key: D -> int): (r: seq<D>)
    ensures SortedDescending(r, key)
    ensures forall i :: 0 <= i < |r| ==> filter(r[i]) && r[i] in coll.Values
    ensures forall k :: k in coll && filter(coll[k]) ==> coll[k] in r
    ensures |r| == |Matching(coll, filter)|
  {
    var all := RetrieveMultiple(coll, filter, None);
    SortKeeps(all, key, d => filter(d) && d in coll.Values);
    SortKeepsMembers(all, key);
    assert |multiset(SortDescending(all, key))| == |multiset(all)|;
    SortDescending(all, key)
  }

  /**
   * FindForPaginationAsync with a descending sort: the requested page of the filter's documents,
   * largest key first; a negative skip is the server's error.
   */
  function FindForPagination<D(==)>(coll: map<Id, D>, filter: D -> bool, key: D -> int, pageNumber: Option<int>, pageSize: Option<int>,
                                    cn: CollectionName): (r: Result<seq<D>>)
    ensures r.Failure? <==> NegativeSkip(pageNumber, pageSize)
    ensures r.Success? ==> SortedDescending(r.value, key)
    ensures r.Success? ==> forall i :: 0 <= i < |r.value| ==> filter(r.value[i]) && r.value[i] in coll.Values
    ensures pageNumber.None? || pageSize.None? ==> r == Success(SortedMatches(coll, filter, key))
    ensures r == Page(SortedMatches(coll, filter, key), pageNumber, pageSize, cn)
  {
    var sorted := SortedMatches(coll, filter, key);
    PageKeepsOrder(sorted, key, coll, filter, pageNumber, pageSize, cn);
    Page(sorted, pageNumber, pageSize, cn)
  }

  /** A page of a sorted list of the filter's documents is sorted and holds only such documents. */
  lemma PageKeepsOrder<D>(sorted: seq<D>, key: D -> int, coll: map<Id, D>, filter: D -> bool,
                          pageNumber: Option<int>, pageSize: Option<int>, cn: CollectionName)
    requires SortedDescending(sorted, key) && forall i :: 0 <= i < |sorted| ==> filter(sorted[i]) && sorted[i] in coll.Values
    ensures var r := Page(sorted, pageNumber, pageSize, cn);
      r.Success? ==> SortedDescending(r.value, key) && forall i :: 0 <= i < |r.value| ==> filter(r.value[i]) && r.value[i] in coll.Values
  {
    if pageNumber.Some? && pageSize.Some? {
      var skip := (pageNumber.value - 1) * pageSize.value;
      if skip >= 0 {
        var start := if skip < |sorted| then skip else |sorted|;
        var page := Limited(sorted[start..], pageSize);
        assert Page(sorted, pageNumber, pageSize, cn) == Success(page);
        SliceKeepsOrder(sorted, key, coll, filter, start, page);
      }
    }
  }

  lemma PageTakesPageSize<D>(sorted: seq<D>, pageNumber: int, pageSize: int, cn: CollectionName)
    requires pageNumber >= 1 && pageSize > 0
    requires pageNumber * pageSize <= |sorted|
    ensures Page(sorted, Some(pageNumber), Some(pageSize), cn)
      == Success(sorted[(pageNumber - 1) * pageSize .. pageNumber * pageSize])
  {
    var skip := (pageNumber - 1) * pageSize;
    assert skip + pageSize == pageNumber * pageSize;
    assert 0 <= skip < |sorted|;
    assert sorted[skip..][..pageSize] == sorted[skip..skip + pageSize];
  }

  /** A full page of FindForPaginationAsync is the run from `(pageNumber - 1) * pageSize` to `pageNumber * pageSize` of the sorted matches. */
  lemma PaginationTakesPageSize<D>(coll: map<Id, D>, filter: D -> bool, key: D -> int, pageNumber: int, pageSize: int, cn: CollectionName)
    requires pageNumber >= 1 && pageSize > 0
    requires pageNumber * pageSize <= |SortedMatches(coll, filter, key)|
    ensures var sorted, skip := SortedMatches(coll, filter, key), (pageNumber - 1) * pageSize;
      0 <= skip <= skip + pageSize <= |sorted| &&
      FindForPagination(coll, filter, key, Some(pageNumber), Some(pageSize), cn) == Success(sorted[skip..skip + pageSize])
  {
    var sorted := SortedMatches(coll, filter, key);
    var skip := (pageNumber - 1) * pageSize;
    assert skip + pageSize == pageNumber * pageSize;
    PageTakesPageSize(sorted, pageNumber, pageSize, cn);
  }

  // ----- sessions, transactions and the effect log -----

  datatype Session = Session(id: nat)

  datatype Command =
    | InsertOneCommand
    | InsertManyCommand
    | UpdateOneCommand
    | UpdateManyCommand
    | FindOneAndUpdateCommand

  /** What the backend does that an observer can see, in order. */
  datatype Effect =
    | StartTransaction(session: Session)
    | CommitTransaction(session: Session)
    | AbortTransaction(session: Session)
    | Write(collection: CollectionName, command: Command, writeSession: Option<Session>)
    | MessageHandled(message: QueueMessage)
    | BroadcastStarted(notification: Notification)
    | PushSent(tokens: seq<string>, data: map<string, string>)
    | ConsoleLine(text: string)

  /** An open ExecuteInTransactionAsync: its session, whether a transaction runs, and the state before it. */
  datatype Transaction = Transaction(session: Session, supported: bool, snapshot: Db)

  const NotSupportedLine: string := "Transactions are not supported by the current database technology."

  /** What ExecuteInTransactionAsync does before it runs the callback. */
  function Opening(session: Session, supported: bool): (e: seq<Effect>)
    ensures supported <==> e == [StartTransaction(session)]
    ensures !supported ==> forall x :: x in e ==> x.ConsoleLine?
  {
    if supported then [StartTransaction(session)] else [ConsoleLine(NotSupportedLine)]
  }

  /** What ExecuteInTransactionAsync does after the callback returned or threw. */
  function Closing<T>(tx: Transaction, outcome: Result<T>): (e: seq<Effect>)
    ensures CommitTransaction(tx.session) in e <==> tx.supported && outcome.Success?
    ensures AbortTransaction(tx.session) in e <==> tx.supported && outcome.Failure?
    ensures !tx.supported ==> e == []
    ensures forall x :: x in e ==> !x.Write? && !x.StartTransaction?
  {
    if !tx.supported then []
    else if outcome.Success? then [CommitTransaction(tx.session)]
    else [ConsoleLine("Error during transaction: " + outcome.error.message), AbortTransaction(tx.session)]
  }

  /** The state ExecuteInTransactionAsync leaves: an aborted transaction keeps none of the callback's writes. */
  function Settled<T>(tx: Transaction, outcome: Result<T>, current: Db): (db: Db)
    ensures tx.supported && outcome.Failure? ==> db == tx.snapshot
    ensures !tx.supported || outcome.Success? ==> db == current
  {
    if tx.supported && outcome.Failure? then tx.snapshot else current
  }

  // ----- MongoDbContext.AreTransactionsSupported -----

  datatype ServerType =
    | Unknown
    | Standalone
    | ShardRouter
    | ReplicaSetPrimary
    | ReplicaSetSecondary
    | ReplicaSetArbiter
    | ReplicaSetOther
    | ReplicaSetGhost
    | LoadBalanced

  /** The decision on the first listed server: whether transactions run, and whether to warn. */
  function ServerDecision(servers: seq<ServerType>): (r: (bool, bool))
    ensures r.0 <==> |servers| > 0 && servers[0] in {ReplicaSetPrimary, ReplicaSetSecondary, ShardRouter}
    ensures r.1 <==> |servers| == 0
  {
    if |servers| == 0 then (false, true)
    else
      match servers[0]
      case ReplicaSetPrimary => (true, false)
      case ReplicaSetSecondary => (true, false)
      case ShardRouter => (true, false)
      case Standalone => (false, false)
      case Unknown => (false, false)
      case _ => (false, false)
  }

  lemma OnlyFirstServerCounts(first: ServerType, rest: seq<ServerType>)
    ensures ServerDecision([first] + rest) == ServerDecision([first])
  {
  }

  const NoServerWarning: string := "Warning: Could not determine MongoDB server type. Assuming transactions are not supported."

  /** The connection's view of the cluster and the cached transaction-support decision. */
  class DbContext {
    /** `client.Cluster.Description.Servers`, which the driver may change at any time. */
    var servers: seq<ServerType>
    var transactionsSupported: Option<bool>
    var console: seq<string>

    constructor (servers: seq<ServerType>)
      ensures this.servers == servers && transactionsSupported.None? && console == []
    {
      this.servers := servers;
      transactionsSupported := None;
      console := [];
    }

    method AreTransactionsSupported() returns (supported: bool)
      modifies this`transactionsSupported, this`console
      ensures old(transactionsSupported).Some? ==>
        supported == old(transactionsSupported).value && unchanged(this)
      ensures old(transactionsSupported).None? ==>
        && supported == ServerDecision(servers).0
        && transactionsSupported == Some(supported)
        && console == old(console) + (if ServerDecision(servers).1 then [NoServerWarning] else [])
    {
      if transactionsSupported.Some? {
        return transactionsSupported.value;
      }
      var decision := ServerDecision(servers);
      transactionsSupported := Some(decision.0);
      if decision.1 {
        console := console + [NoServerWarning];
      }
      supported := decision.0;
    }
  }

  /**
   * The database as the services see it through MongoDbService: its contents, the
   * ObjectId generator, the clock, the session counter and the log of observable effects.
   */
  class Store {
    var db: Db
    var nextId: Id
    var clock: Time
    var sessions: nat
    var trace: seq<Effect>
    const context: DbContext

    ghost predicate Valid()
      reads this
    {
      IdsBelow(db, nextId) && Keyed(db)
    }

    constructor (context: DbContext)
      ensures Valid() && db == EmptyDb && trace == [] && this.context == context
    {
      db := EmptyDb;
      nextId := 0;
      clock := 0;
      sessions := 0;
      trace := [];
      this.context := context;
    }

    /** DateTimeOffset.UtcNow: some instant no earlier than the last one read. */
    method Now() returns (t: Time)
      modifies this`clock
      ensures old(clock) <= t && clock == t
    {
      t :| t >= clock;
      clock := t;
    }

    /** A new ObjectId, as the driver generates on insert. */
    method NewId() returns (id: Id)
      requires Valid()
      modifies this`nextId
      ensures Valid() && FreshId(db, id) && nextId == id + 1 && id == old(nextId)
    {
      id := nextId;
      nextId := nextId + 1;
    }

    /** The ObjectIds a bulk insert of `n` documents generates, one per document. */
    method NewIds(n: nat) returns (ids: seq<Id>)
      requires Valid()
      modifies this`nextId
      ensures Valid() && |ids| == n && nextId == old(nextId) + n
      ensures forall i :: 0 <= i < n ==> ids[i] == old(nextId) + i
    {
      ids := [];
      while |ids| < n
        invariant Valid() && |ids| <= n && nextId == old(nextId) + |ids|
        invariant forall i :: 0 <= i < |ids| ==> ids[i] == old(nextId) + i
      {
        var id := NewId();
        ids := ids + [id];
      }
    }

    /** One write command issued on `collection`, leaving the database as `next`. */
    method Write(next: Db, collection: CollectionName, command: Command, session: Option<Session>)
      requires IdsBelow(next, nextId) && Keyed(next)
      modifies this`db, this`trace
      ensures Valid() && db == next
      ensures trace == old(trace) + [Effect.Write(collection, command, session)]
    {
      db := next;
      trace := trace + [Effect.Write(collection, command, session)];
    }

    // One write method per collection: the new contents of that collection, the command and the session.

    method WriteEvents(m: map<Id, Event>, command: Command, session: Option<Session>)
      requires Valid() && KeysBelow(m, nextId) && EventsKeyed(m)
      modifies this`db, this`trace
      ensures Valid() && db == old(db).(events := m)
      ensures trace == old(trace) + [Effect.Write(EventsCollection, command, session)]
    {
      Write(db.(events := m), EventsCollection, command, session);
    }

    method WriteEventDetails(m: map<Id, EventDetails>, command: Command, session: Option<Session>)
      requires Valid() && KeysBelow(m, nextId)
      modifies this`db, this`trace
      ensures Valid() && db == old(db).(eventDetails := m)
      ensures trace == old(trace) + [Effect.Write(EventDetailsCollection, command, session)]
    {
      Write(db.(eventDetails := m), EventDetailsCollection, command, session);
    }

    method WriteProfileEvents(m: map<Id, ProfileEvent>, command: Command, session: Option<Session>)
      requires Valid() && KeysBelow(m, nextId)
      modifies this`db, this`trace
      ensures Valid() && db == old(db).(profileEvents := m)
      ensures trace == old(trace) + [Effect.Write(ProfileEventsCollection, command, session)]
    {
      Write(db.(profileEvents := m), ProfileEventsCollection, command, session);
    }

    method WriteEventProfiles(m: map<Id, EventProfile>, command: Command, session: Option<Session>)
      requires Valid() && KeysBelow(m, nextId)
      modifies this`db, this`trace
      ensures Valid() && db == old(db).(eventProfiles := m)
      ensures trace == old(trace) + [Effect.Write(EventProfilesCollection, command, session)]
    {
      Write(db.(eventProfiles := m), EventProfilesCollection, command, session);
    }

    method WriteUsers(m: map<Id, User>, command: Command, session: Option<Session>)
      requires Valid() && KeysBelow(m, nextId) && UsersKeyed(m)
      modifies this`db, this`trace
      ensures Valid() && db == old(db).(users := m)
      ensures trace == old(trace) + [Effect.Write(UsersCollection, command, session)]
    {
      Write(db.(users := m), UsersCollection, command, session);
    }

    method WriteProfiles(m: map<Id, Profile>, command: Command, session: Option<Session>)
      requires Valid() && KeysBelow(m, nextId) && ProfilesKeyed(m)
      modifies this`db, this`trace
      ensures Valid() && db == old(db).(profiles := m)
      ensures trace == old(trace) + [Effect.Write(ProfilesCollection, command, session)]
    {
      Write(db.(profiles := m), ProfilesCollection, command, session);
    }

    method WriteProfileDetails(m: map<Id, ProfileDetails>, command: Command, session: Option<Session>)
      requires Valid() && KeysBelow(m, nextId)
      modifies this`db, this`trace
      ensures Valid() && db == old(db).(profileDetails := m)
      ensures trace == old(trace) + [Effect.Write(ProfileDetailsCollection, command, session)]
    {
      Write(db.(profileDetails := m), ProfileDetailsCollection, command, session);
    }

    method WriteProfileTags(m: map<Id, ProfileTag>, command: Command, session: Option<Session>)
      requires Valid() && KeysBelow(m, nextId)
      modifies this`db, this`trace
      ensures Valid() && db == old(db).(profileTags := m)
      ensures trace == old(trace) + [Effect.Write(ProfileTagsCollection, command, session)]
    {
      Write(db.(profileTags := m), ProfileTagsCollection, command, session);
    }

    method WriteUserProfiles(m: map<Id, UserProfileRow>, command: Command, session: Option<Session>)
      requires Valid() && KeysBelow(m, nextId)
      modifies this`db, this`trace
      ensures Valid() && db == old(db).(userProfiles := m)
      ensures trace == old(trace) + [Effect.Write(UserProfilesCollection, command, session)]
    {
      Write(db.(userProfiles := m), UserProfilesCollection, command, session);
    }

    method WriteUserClaims(m: map<Id, UserClaims>, command: Command, session: Option<Session>)
      requires Valid() && KeysBelow(m, nextId)
      modifies this`db, this`trace
      ensures Valid() && db == old(db).(userClaims := m)
      ensures trace == old(trace) + [Effect.Write(UserClaimsCollection, command, session)]
    {
      Write(db.(userClaims := m), UserClaimsCollection, command, session);
    }

    method WriteGroups(m: map<Id, Group>, command: Command, session: Option<Session>)
      requires Valid() && KeysBelow(m, nextId)
      modifies this`db, this`trace
      ensures Valid() && db == old(db).(groups := m)
      ensures trace == old(trace) + [Effect.Write(GroupsCollection, command, session)]
    {
      Write(db.(groups := m), GroupsCollection, command, session);
    }

    method WriteProfileCommunities(m: map<Id, ProfileCommunity>, command: Command, session: Option<Session>)
      requires Valid() && KeysBelow(m, nextId)
      modifies this`db, this`trace
      ensures Valid() && db == old(db).(profileCommunities := m)
      ensures trace == old(trace) + [Effect.Write(ProfileCommunitiesCollection, command, session)]
    {
      Write(db.(profileCommunities := m), ProfileCommunitiesCollection, command, session);
    }

    method WriteCommunityProfiles(m: map<Id, CommunityProfile>, command: Command, session: Option<Session>)
      requires Valid() && KeysBelow(m, nextId)
      modifies this`db, this`trace
      ensures Valid() && db == old(db).(communityProfiles := m)
      ensures trace == old(trace) + [Effect.Write(CommunityProfilesCollection, command, session)]
    {
      Write(db.(communityProfiles := m), CommunityProfilesCollection, command, session);
    }

    method WriteMedia(m: map<Id, Media>, command: Command, session: Option<Session>)
      requires Valid() && KeysBelow(m, nextId) && MediaKeyed(m)
      modifies this`db, this`trace
      ensures Valid() && db == old(db).(media := m)
      ensures trace == old(trace) + [Effect.Write(EventMediaCollection, command, session)]
    {
      Write(db.(media := m), EventMediaCollection, command, session);
    }

    /** An observable effect that is not a write. */
    method Emit(e: Effect)
      modifies this`trace
      ensures trace == old(trace) + [e]
    {
      trace := trace + [e];
    }

    /** The first half of ExecuteInTransactionAsync: a new session, then StartTransaction if supported. */
    method Begin() returns (tx: Transaction)
      requires Valid()
      modifies this`sessions, this`trace, context`transactionsSupported, context`console
      ensures Valid() && tx.snapshot == db && tx.session == Session(old(sessions))
      ensures old(context.transactionsSupported).Some? ==> tx.supported == old(context.transactionsSupported).value
      ensures old(context.transactionsSupported).None? ==> tx.supported == ServerDecision(context.servers).0
      ensures context.transactionsSupported == Some(tx.supported)
      ensures trace == old(trace) + Opening(tx.session, tx.supported)
      ensures unchanged(this`db) && unchanged(this`nextId)
    {
      var session := Session(sessions);
      sessions := sessions + 1;
      var supported := context.AreTransactionsSupported();
      tx := Transaction(session, supported, db);
      trace := trace + Opening(session, supported);
    }

    /** The second half: commit on success; abort, restore and rethrow on failure; nothing if unsupported. */
    method End<T>(tx: Transaction, outcome: Result<T>) returns (r: Result<T>)
      requires Valid() && IdsBelow(tx.snapshot, nextId) && Keyed(tx.snapshot)
      modifies this`db, this`trace
      ensures Valid() && r == outcome
      ensures db == Settled(tx, outcome, old(db))
      ensures trace == old(trace) + Closing(tx, outcome)
    {
      db := Settled(tx, outcome, db);
      trace := trace + Closing(tx, outcome);
      r := outcome;
    }
  }
}
