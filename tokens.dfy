// TokenService: the Bearer credential of a request (section 2.1 of RFC 6750) and the user it names.
// The identity provider's token check is an input: a function from token to account uid or exception.
module Tokens {
  import opened Common
  import opened Entities
  import opened Database
  import Users
  import Profiles

  const BearerPrefix: string := "Bearer "
  const NoTokenMessage: string := "No token in the request, or token not in the right format"
  const InvalidTokenMessage: string := "Invalid Token"

  /** Char.IsWhiteSpace: the control whitespace, the Latin-1 spaces and the Unicode space, line and paragraph separators. */
  predicate IsWhiteSpace(c: char)
  {
    || ('\U{9}' <= c <= '\U{D}') || c == ' ' || c == '\U{85}' || c == '\U{A0}' || c == '\U{1680}'
    || ('\U{2000}' <= c <= '\U{200A}') || c == '\U{2028}' || c == '\U{2029}' || c == '\U{202F}' || c == '\U{205F}' || c == '\U{3000}'
  }

  /** Neither end of `s` is whitespace. */
  predicate Trimmed(s: string)
  {
    s == [] || (!IsWhiteSpace(s[0]) && !IsWhiteSpace(s[|s| - 1]))
  }

  /** Every character of `s` is whitespace. */
  predicate AllWhiteSpace(s: string)
  {
    forall i :: 0 <= i < |s| ==> IsWhiteSpace(s[i])
  }

  /** The first index from `i` on that is not whitespace, or the length: where TrimStart cuts. */
  function SkipStart(s: string, i: nat): (k: nat)
    requires i <= |s|
    ensures i <= k <= |s|
    ensures forall x :: i <= x < k ==> IsWhiteSpace(s[x])
    ensures k < |s| ==> !IsWhiteSpace(s[k])
    decreases |s| - i
  {
    if i == |s| || !IsWhiteSpace(s[i]) then i else SkipStart(s, i + 1)
  }

  /** The end of `s[lo..j]` without its trailing whitespace: where TrimEnd cuts. */
  function SkipEnd(s: string, lo: nat, j: nat): (k: nat)
    requires lo <= j <= |s|
    ensures lo <= k <= j
    ensures forall x :: k <= x < j ==> IsWhiteSpace(s[x])
    ensures k > lo ==> !IsWhiteSpace(s[k - 1])
    decreases j
  {
    if j == lo || !IsWhiteSpace(s[j - 1]) then j else SkipEnd(s, lo, j - 1)
  }

  /** String.Trim(): `s` without its leading and trailing whitespace. */
  function Trim(s: string): (r: string)
    ensures Trimmed(r) && |r| <= |s|
  {
    var i := SkipStart(s, 0);
    s[i..SkipEnd(s, i, |s|)]
  }

  /** Whitespace, then trimmed text, then whitespace, trims to that text. */
  lemma TrimPadded(front: string, t: string, back: string)
    requires AllWhiteSpace(front) && Trimmed(t) && AllWhiteSpace(back)
    ensures Trim(front + t + back) == t
  {
    var s := front + t + back;
    assert forall x :: 0 <= x < |front| ==> s[x] == front[x];
    assert forall x :: 0 <= x < |back| ==> s[|front| + |t| + x] == back[x];
    if t == [] {
      assert AllWhiteSpace(s) by {
        forall x | 0 <= x < |s| ensures IsWhiteSpace(s[x]) {
          if x >= |front| { assert s[x] == back[x - |front|]; }
        }
      }
      assert SkipStart(s, 0) == |s|;
    } else {
      assert s[|front|] == t[0];
      assert s[|front| + |t| - 1] == t[|t| - 1];
      var i := SkipStart(s, 0);
      assert i == |front|;
      var k := SkipEnd(s, i, |s|);
      assert k == |front| + |t|;
      assert s[i..k] == t;
    }
  }

  /** Trimming text that is already trimmed leaves it as it is. */
  lemma TrimTrimmed(s: string)
    requires Trimmed(s)
    ensures Trim(s) == s
  {
    TrimPadded([], s, []);
    assert [] + s + [] == s;
  }

  /**
   * VerifyRequestAsync's header test and extraction: a missing or empty Authorization header, or one
   * that does not start with the case-sensitive "Bearer ", is refused; otherwise the token is the
   * rest of the header, trimmed.
   */
  function ExtractToken(header: Option<string>): (r: Result<string>)
    ensures r.Failure? <==> header.None? || !StartsWith(header.value, BearerPrefix)
    ensures r.Failure? ==> r == Throw(UnauthorizedAccess, NoTokenMessage)
    ensures r.Success? ==> Trimmed(r.value) && |r.value| <= |header.value| - |BearerPrefix|
  {
    if header.None? || header.value == [] || !StartsWith(header.value, BearerPrefix) then Throw(UnauthorizedAccess, NoTokenMessage)
    else Success(Trim(header.value[|BearerPrefix|..]))
  }

  /** "Bearer ", whitespace, a trimmed token and whitespace: the token is extracted back. */
  lemma ExtractBuiltHeader(front: string, token: string, back: string)
    requires AllWhiteSpace(front) && Trimmed(token) && AllWhiteSpace(back)
    ensures ExtractToken(Some(BearerPrefix + front + token + back)) == Success(token)
  {
    var h := BearerPrefix + front + token + back;
    assert h[..7] == BearerPrefix;
    assert h[7..] == front + token + back;
    TrimPadded(front, token, back);
  }

  /** The prefix test is case-sensitive: a lower-case scheme is refused. */
  lemma LowerCaseSchemeRefused(token: string)
    ensures ExtractToken(Some("bearer " + token)).Failure?
  {
    assert ("bearer " + token)[0] == 'b';
  }

  /**
   * CheckTokenAsync: any exception of the provider becomes UnauthorizedAccess "Invalid Token";
   * a uid it vouches for is looked up, or its user created, by GetOrCreateAsync. `email` is the
   * address that call takes; the token check yields only the uid.
   */
  method CheckToken(store: Store, token: string, check: string -> Result<string>, email: Option<string>) returns (r: Result<User>)
    requires store.Valid()
    modifies store`db, store`nextId, store`clock, store`sessions, store`trace, store.context`transactionsSupported, store.context`console
    ensures store.Valid()
    ensures check(token).Failure? ==> r == Throw(UnauthorizedAccess, InvalidTokenMessage) && unchanged(store) && unchanged(store.context)
    ensures check(token).Success? ==> CreatesOrFinds(old(store.db), old(store.nextId), check(token).value, email, r)
    ensures check(token).Success? && Users.RetrieveByAccountUid(old(store.db.users), check(token).value).Some? ==>
      unchanged(store) && unchanged(store.context)
  {
    var uid := check(token);
    if uid.Failure? {
      return Throw(UnauthorizedAccess, InvalidTokenMessage);
    }
    ghost var profile, tagTime, pushTime, body;
    r, profile, tagTime, pushTime, body := Users.GetOrCreate(store, uid.value, email);
  }

  /**
   * What GetOrCreateAsync answers for `uid`: the user holding that account if there is one;
   * otherwise UnauthorizedAccess without an email, and else either the new user, whose one account
   * is `uid`, or the failure of its profile's tag insert.
   */
  ghost predicate CreatesOrFinds(db: Db, nextId: Id, uid: string, email: Option<string>, r: Result<User>)
  {
    var found := Users.RetrieveByAccountUid(db.users, uid);
    && (found.Some? ==> r == Success(found.value))
    && (found.None? && email.None? ==> r == Throw(UnauthorizedAccess, Users.NoEmailMessage))
    && (found.None? && email.Some? ==> (r.Failure? <==> Profiles.TagTaken(db.profileTags, uid, nextId + 1)))
    && (found.None? && email.Some? && r.Success? ==> r.value == Users.NewUser(nextId, uid, email.value, r.value.createdAt))
  }

  /** Every user CheckToken returns holds an account with the vouched-for uid. */
  lemma ReturnedUserHoldsAccount(db: Db, nextId: Id, uid: string, email: Option<string>, r: Result<User>)
    requires CreatesOrFinds(db, nextId, uid, email, r) && r.Success?
    ensures Users.HasAccount(uid)(r.value)
  {
    var found := Users.RetrieveByAccountUid(db.users, uid);
    if found.None? {
      assert r.value.accounts[0].uid == uid;
    }
  }

  /**
   * VerifyRequestAsync: a request without a well-formed Bearer header is refused with
   * UnauthorizedAccess before the provider is asked; otherwise the extracted token is checked.
   */
  method VerifyRequest(store: Store, header: Option<string>, check: string -> Result<string>, email: Option<string>) returns (r: Result<User>)
    requires store.Valid()
    modifies store`db, store`nextId, store`clock, store`sessions, store`trace, store.context`transactionsSupported, store.context`console
    ensures store.Valid()
    ensures ExtractToken(header).Failure? ==> r == ExtractToken(header).PropagateFailure() && unchanged(store) && unchanged(store.context)
    ensures ExtractToken(header).Success? && check(ExtractToken(header).value).Failure? ==>
      r == Throw(UnauthorizedAccess, InvalidTokenMessage) && unchanged(store) && unchanged(store.context)
    ensures ExtractToken(header).Success? && check(ExtractToken(header).value).Success? ==>
      CreatesOrFinds(old(store.db), old(store.nextId), check(ExtractToken(header).value).value, email, r)
  {
    var token := ExtractToken(header);
    if token.Failure? {
      return token.PropagateFailure();
    }
    r := CheckToken(store, token.value, check, email);
  }
}
