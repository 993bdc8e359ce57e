// FirebaseAuthService.AddOrUpdateClaimsAsync: merging new custom claims into a user's existing ones.
// The identity provider's two calls (reading the user, writing its claims) are inputs.
module Auth {
  import opened Common

  /** A custom-claim value: the strings this service writes, or any other JSON value already stored. */
  datatype ClaimValue = Text(text: string) | OtherJson(json: string)

  type CustomClaims = map<string, ClaimValue>

  /** The claims the merge starts from: a copy of the existing ones, or an empty dictionary when the user has none. */
  function Base(existing: Option<CustomClaims>): (b: CustomClaims)
    ensures existing.None? ==> b == map[]
    ensures existing.Some? ==> b == existing.value
  {
    if existing.Some? then existing.value else map[]
  }

  /** The keys of `claimsToUpdate`, in enumeration order. */
  function UpdateKeys(updates: seq<(string, string)>): (keys: set<string>)
    ensures forall k :: k in keys <==> exists i :: 0 <= i < |updates| && updates[i].0 == k
  {
    set i | 0 <= i < |updates| :: updates[i].0
  }

  /** A Dictionary enumerates each key once. */
  predicate DistinctKeys(updates: seq<(string, string)>)
  {
    forall i, j :: 0 <= i < j < |updates| ==> updates[i].0 != updates[j].0
  }

  /** The entries of `claimsToUpdate` as string claims, a later entry for a key replacing an earlier one. */
  function UpdateMap(updates: seq<(string, string)>): (m: CustomClaims)
    ensures m.Keys == UpdateKeys(updates)
    decreases |updates|
  {
    if updates == [] then map[]
    else
      var last := updates[|updates| - 1];
      var m := UpdateMap(updates[..|updates| - 1]);
      assert forall i :: 0 <= i < |updates| - 1 ==> updates[..|updates| - 1][i] == updates[i];
      m[last.0 := Text(last.1)]
  }

  /** The claims AddOrUpdateClaimsAsync writes: the existing claims overwritten by the updates. */
  function Merged(existing: Option<CustomClaims>, updates: seq<(string, string)>): CustomClaims
  {
    Base(existing) + UpdateMap(updates)
  }

  /** The merge loop: copy the existing claims, then set each entry of `claimsToUpdate` in turn. */
  method MergeClaims(existing: Option<CustomClaims>, updates: seq<(string, string)>) returns (updated: CustomClaims)
    ensures updated == Merged(existing, updates)
  {
    updated := if existing.Some? then existing.value else map[];
    var i := 0;
    while i < |updates|
      invariant 0 <= i <= |updates|
      invariant updated == Base(existing) + UpdateMap(updates[..i])
    {
      UnionStep(Base(existing), updates, i);
      updated := updated[updates[i].0 := Text(updates[i].1)];
      i := i + 1;
    }
    assert updates[..i] == updates;
  }

  /** Setting entry `i` on top of the first `i` entries gives the first `i + 1`. */
  lemma UnionStep(b: CustomClaims, updates: seq<(string, string)>, i: nat)
    requires i < |updates|
    ensures b + UpdateMap(updates[..i + 1]) == (b + UpdateMap(updates[..i]))[updates[i].0 := Text(updates[i].1)]
  {
    var prefix := updates[..i + 1];
    assert prefix[..i] == updates[..i];
    assert UpdateMap(prefix) == UpdateMap(updates[..i])[updates[i].0 := Text(updates[i].1)];
  }

  /** Under distinct keys, entry `i` is the value its key ends up with. */
  lemma UpdateMapAt(updates: seq<(string, string)>, i: nat)
    requires DistinctKeys(updates) && i < |updates|
    ensures updates[i].0 in UpdateMap(updates) && UpdateMap(updates)[updates[i].0] == Text(updates[i].1)
    decreases |updates|
  {
    var n := |updates| - 1;
    assert UpdateMap(updates) == UpdateMap(updates[..n])[updates[n].0 := Text(updates[n].1)];
    if i < n {
      var init := updates[..n];
      assert init[i] == updates[i];
      assert DistinctKeys(init) by {
        forall a, b | 0 <= a < b < |init| ensures init[a].0 != init[b].0 {
          assert init[a] == updates[a] && init[b] == updates[b];
        }
      }
      UpdateMapAt(init, i);
      assert updates[n].0 != updates[i].0;
    }
  }

  /** The merged claims hold exactly the existing keys and the updated ones. */
  lemma MergedKeys(existing: Option<CustomClaims>, updates: seq<(string, string)>)
    ensures Merged(existing, updates).Keys == Base(existing).Keys + UpdateKeys(updates)
  {
  }

  /** Every key of `claimsToUpdate` is set to its new value, whatever it held before. */
  lemma MergedOverwrites(existing: Option<CustomClaims>, updates: seq<(string, string)>, i: nat)
    requires DistinctKeys(updates) && i < |updates|
    ensures Merged(existing, updates)[updates[i].0] == Text(updates[i].1)
  {
    UpdateMapAt(updates, i);
  }

  /** A key absent from `claimsToUpdate` keeps its existing value. */
  lemma MergedKeepsOthers(existing: CustomClaims, updates: seq<(string, string)>, k: string)
    requires k in existing && k !in UpdateKeys(updates)
    ensures Merged(Some(existing), updates)[k] == existing[k]
  {
  }

  /** With no existing claims the result is exactly `claimsToUpdate`. */
  lemma MergedWithoutExisting(updates: seq<(string, string)>)
    requires DistinctKeys(updates)
    ensures Merged(None, updates).Keys == UpdateKeys(updates)
    ensures forall i :: 0 <= i < |updates| ==> Merged(None, updates)[updates[i].0] == Text(updates[i].1)
  {
    forall i | 0 <= i < |updates| ensures Merged(None, updates)[updates[i].0] == Text(updates[i].1) {
      MergedOverwrites(None, updates, i);
    }
  }

  /** Merging the same updates twice gives what merging them once gives. */
  lemma MergeIdempotent(existing: Option<CustomClaims>, updates: seq<(string, string)>)
    ensures Merged(Some(Merged(existing, updates)), updates) == Merged(existing, updates)
  {
  }

  /** The line written to the console before an exception is rethrown. */
  function FailureLine(uid: string, e: Exception): string
  {
    if IsA(e.kind, FirebaseAuth) then "Error updating claims for UID " + uid + ": " + e.message
    else "An unexpected error occurred: " + e.message
  }

  /**
   * AddOrUpdateClaimsAsync: reads the user (`fetched`: its custom claims, null when it has none, or
   * the provider's exception), writes the merged claims (`setOutcome`: the provider's answer), and on
   * any exception writes one console line and rethrows the same exception.
   */
  method AddOrUpdateClaims(uid: string, updates: seq<(string, string)>, fetched: Result<Option<CustomClaims>>, setOutcome: Result<()>)
    returns (r: Result<()>, sent: Option<CustomClaims>, console: seq<string>)
    ensures fetched.Failure? ==> r == Failure(fetched.error) && sent.None? && console == [FailureLine(uid, fetched.error)]
    ensures fetched.Success? ==> sent == Some(Merged(fetched.value, updates)) && r == setOutcome
    ensures fetched.Success? && setOutcome.Failure? ==> console == [FailureLine(uid, setOutcome.error)]
    ensures r.Success? ==> console == []
  {
    if fetched.Failure? {
      return Failure(fetched.error), None, [FailureLine(uid, fetched.error)];
    }
    var claims := MergeClaims(fetched.value, updates);
    sent := Some(claims);
    if setOutcome.Failure? {
      return Failure(setOutcome.error), sent, [FailureLine(uid, setOutcome.error)];
    }
    r, console := setOutcome, [];
  }
}
