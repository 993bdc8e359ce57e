// PresetClaimRoleMapper and UserClaimService: the claims a user holds on a profile.
module Claims {
  import opened Common
  import opened Entities
  import opened Database

  /** PresetClaimRole; an integer cast to the enum that names neither member is `Unlisted`. */
  datatype PresetClaimRole = Admin | Viewer | Unlisted(value: int)

  const AdminClaims: seq<UserClaimType> := [
    CanViewProfileDetails, CanImpersonateProfile, CanEditProfile, CanViewCommunity, CanCreateCommunity,
    CanEditCommunity, CanReadEvents, CanCreateEvents, CanEditEvents, CanShareEvents]

  const ViewerClaims: seq<UserClaimType> := [CanViewProfileDetails, CanReadEvents]

  /** No claim type is listed twice. */
  predicate NoRepeats(s: seq<UserClaimType>)
  {
    forall i, j :: 0 <= i < j < |s| ==> s[i] != s[j]
  }

  /**
   * GetClaimsForRole: Admin holds every claim type, Viewer only CanViewProfileDetails and
   * CanReadEvents, and a role with no entry nothing; no list repeats a claim.
   */
  function GetClaimsForRole(role: PresetClaimRole): (r: seq<UserClaimType>)
    ensures role.Admin? ==> |r| == 10 && forall c: UserClaimType :: c in r
    ensures role.Viewer? ==> forall c :: c in r <==> c == CanViewProfileDetails || c == CanReadEvents
    ensures role.Unlisted? ==> r == []
    ensures NoRepeats(r)
  {
    match role
    case Admin => AdminListsEveryType(); AdminClaims
    case Viewer => ViewerClaims
    case Unlisted(_) => []
  }

  /** The Admin list names each of the ten claim types. */
  lemma AdminListsEveryType()
    ensures forall c: UserClaimType :: c in AdminClaims
  {
    forall c: UserClaimType ensures c in AdminClaims {
      match c
      case CanViewProfileDetails => assert AdminClaims[0] == c;
      case CanImpersonateProfile => assert AdminClaims[1] == c;
      case CanEditProfile => assert AdminClaims[2] == c;
      case CanViewCommunity => assert AdminClaims[3] == c;
      case CanCreateCommunity => assert AdminClaims[4] == c;
      case CanEditCommunity => assert AdminClaims[5] == c;
      case CanReadEvents => assert AdminClaims[6] == c;
      case CanCreateEvents => assert AdminClaims[7] == c;
      case CanEditEvents => assert AdminClaims[8] == c;
      case CanShareEvents => assert AdminClaims[9] == c;
    }
  }

  /** Every claim a Viewer holds, an Admin holds too. */
  lemma ViewerWithinAdmin()
    ensures forall c :: c in GetClaimsForRole(PresetClaimRole.Viewer) ==> c in GetClaimsForRole(Admin)
  {
  }

  /** `claimTypes.Select(t => new UserClaim(t)).ToHashSet()`, each claim stamped now. */
  function ClaimSet(claimTypes: seq<UserClaimType>, now: Time): (s: set<UserClaim>)
    ensures forall c :: (exists x :: x in s && x.claim == c) <==> c in claimTypes
    ensures forall x :: x in s ==> x.updatedAt == now
  {
    var s := set c | c in claimTypes :: UserClaim(c, now);
    assert forall c :: c in claimTypes ==> UserClaim(c, now) in s;
    s
  }

  /** The set holds one claim per type. */
  lemma OneClaimPerType(claimTypes: seq<UserClaimType>, now: Time)
    ensures forall x, y :: x in ClaimSet(claimTypes, now) && y in ClaimSet(claimTypes, now) && x.claim == y.claim ==> x == y
  {
  }

  /** `new UserClaims(user, profile) { Claims = claims }`, created and updated now. */
  function NewClaims(user: User, profile: Profile, role: PresetClaimRole, now: Time): (d: UserClaims)
    ensures d.userId == user.id && d.profileId == profile.id && d.createdAt == now && d.updatedAt == now
    ensures forall c :: (exists x :: x in d.claims && x.claim == c) <==> c in GetClaimsForRole(role)
  {
    UserClaims(user.id, profile.id, ClaimSet(GetClaimsForRole(role), now), now, now)
  }

  /** The unique index on (userId, profileId). */
  function SamePair(): (UserClaims, UserClaims) -> bool
  {
    (a: UserClaims, b: UserClaims) => a.userId == b.userId && a.profileId == b.profileId
  }

  /** At most one claims document per (user, profile), as the unique index keeps it. */
  predicate PairIndexHolds(m: map<Id, UserClaims>)
  {
    forall j, k :: j in m && k in m && j != k ==> !SamePair()(m[j], m[k])
  }

  /** Some stored document is for the pair. */
  predicate HasPair(m: map<Id, UserClaims>, userId: Id, profileId: Id)
  {
    exists k :: k in m && m[k].userId == userId && m[k].profileId == profileId
  }

  /** The document holds a claim of that type. */
  predicate Grants(d: UserClaims, claim: UserClaimType)
  {
    exists x :: x in d.claims && x.claim == claim
  }

  /** The filter of CheckHasPermit: the pair, and a claim of that type among the claims. */
  function PermitFilter(userId: Id, profileId: Id, claim: UserClaimType): UserClaims -> bool
  {
    (d: UserClaims) => d.userId == userId && d.profileId == profileId && Grants(d, claim)
  }

  /** CheckHasPermit: whether some claims document of the pair grants the claim. */
  function CheckHasPermit(m: map<Id, UserClaims>, userId: Id, profileId: Id, claim: UserClaimType): (r: bool)
    ensures r <==> exists k :: k in m && m[k].userId == userId && m[k].profileId == profileId && Grants(m[k], claim)
  {
    RetrieveOrNull(m, PermitFilter(userId, profileId, claim)).Some?
  }

  /** RetrieveFromUser: every claims document of the user, and only those. */
  function RetrieveFromUser(m: map<Id, UserClaims>, user: User): (r: seq<UserClaims>)
    ensures forall i :: 0 <= i < |r| ==> r[i].userId == user.id && r[i] in m.Values
    ensures forall k :: k in m && m[k].userId == user.id ==> m[k] in r
  {
    RetrieveMultiple(m, (d: UserClaims) => d.userId == user.id, None)
  }

  /** RetrieveFromUserAndProfile: the first claims document of the pair, or null when there is none. */
  function RetrieveFromUserAndProfile(m: map<Id, UserClaims>, userId: Id, profileId: Id): (r: Option<UserClaims>)
    ensures r.None? <==> !HasPair(m, userId, profileId)
    ensures r.Some? ==> r.value.userId == userId && r.value.profileId == profileId && r.value in m.Values
  {
    RetrieveOrNull(m, (d: UserClaims) => d.userId == userId && d.profileId == profileId)
  }

  /** Under the unique index, the pair holds a permit exactly when its one document grants it. */
  lemma PermitIsInRetrievedClaims(m: map<Id, UserClaims>, userId: Id, profileId: Id, claim: UserClaimType)
    requires PairIndexHolds(m)
    ensures CheckHasPermit(m, userId, profileId, claim) <==>
      (RetrieveFromUserAndProfile(m, userId, profileId).Some? && Grants(RetrieveFromUserAndProfile(m, userId, profileId).value, claim))
  {
    var found := RetrieveFromUserAndProfile(m, userId, profileId);
    if CheckHasPermit(m, userId, profileId, claim) {
      var k :| k in m && m[k].userId == userId && m[k].profileId == profileId && Grants(m[k], claim);
      var j :| j in m && m[j] == found.value;
      assert j == k;
    }
  }

  /**
   * SetRole: inserts, in the caller's session, one claims document for the pair holding exactly
   * the claims of the role; the unique index rejects it when the pair has one already.
   */
  method SetRole(store: Store, user: User, profile: Profile, role: PresetClaimRole, session: Session) returns (r: Result<UserClaims>)
    requires store.Valid()
    modifies store`db, store`nextId, store`clock, store`trace
    ensures store.Valid() && store.nextId == old(store.nextId) + 1 && old(store.clock) <= store.clock
    ensures r.Failure? <==> HasPair(old(store.db.userClaims), user.id, profile.id)
    ensures r.Failure? ==> r.error == MongoFailure("for document", UserClaimsCollection) && store.db == old(store.db)
    ensures r.Success? ==> r.value == NewClaims(user, profile, role, store.clock)
    ensures r.Success? ==> store.db == old(store.db).(userClaims := old(store.db.userClaims)[old(store.nextId) := r.value])
    ensures store.trace == old(store.trace) + [Effect.Write(UserClaimsCollection, InsertOneCommand, Some(session))]
  {
    var now := store.Now();
    var doc := NewClaims(user, profile, role, now);
    var id := store.NewId();
    var inserted := InsertOne(store.db.userClaims, id, doc, SamePair(), UserClaimsCollection);
    if inserted.Failure? {
      store.Emit(Effect.Write(UserClaimsCollection, InsertOneCommand, Some(session)));
      return Failure(inserted.error);
    }
    store.WriteUserClaims(inserted.value, InsertOneCommand, Some(session));
    r := Success(doc);
  }

  /** A successful SetRole keeps the unique index and grants the pair exactly the claims of the role. */
  lemma SetRoleGrantsExactly(m: map<Id, UserClaims>, id: Id, user: User, profile: Profile, role: PresetClaimRole, now: Time, claim: UserClaimType)
    requires PairIndexHolds(m) && id !in m && !HasPair(m, user.id, profile.id)
    ensures PairIndexHolds(m[id := NewClaims(user, profile, role, now)])
    ensures CheckHasPermit(m[id := NewClaims(user, profile, role, now)], user.id, profile.id, claim) <==> claim in GetClaimsForRole(role)
  {
    var next := m[id := NewClaims(user, profile, role, now)];
    if claim in GetClaimsForRole(role) {
      assert Grants(next[id], claim);
    }
  }
}
