// Vocabulary shared by every module: ids, instants, optional values, results,
// and the .NET exception kinds the services throw and the API layer classifies.
module Common {

  /** A MongoDB ObjectId. The store hands them out in increasing order. */
  type Id = nat

  /** An instant read from DateTimeOffset.UtcNow, as a count of ticks. */
  type Time = nat

  /** A .NET tick is 100 nanoseconds. */
  const TicksPerSecond: nat := 10_000_000

  datatype Option<T> = None | Some(value: T)

  /** The outcome of an operation that may throw. */
  datatype Result<T> = Success(value: T) | Failure(error: Exception) {
    predicate IsFailure() { Failure? }
    function PropagateFailure<U>(): Result<U>
      requires Failure?
    {
      Failure(error)
    }
    function Extract(): T
      requires Success?
    {
      value
    }
  }

  /** The exception classes thrown in the core, with their place in the .NET hierarchy. */
  datatype ExceptionType =
    | BaseException          // System.Exception itself, as thrown by the store wrapper
    | SystemException
    | UnauthorizedAccess
    | InvalidOperation
    | ObjectDisposed
    | NotSupported
    | Argument
    | ArgumentNull
    | ArgumentOutOfRange
    | KeyNotFound
    | FormatFailure          // System.FormatException
    | Arithmetic
    | Overflow
    | ThreadInterrupted
    | NullReference
    | Json                   // System.Text.Json.JsonException
    | Mongo                  // MongoDB.Driver.MongoException
    | FirebaseAuth           // FirebaseAdmin.Auth.FirebaseAuthException

  /** The direct base class of an exception class; System.Exception has none. */
  function Parent(t: ExceptionType): Option<ExceptionType>
  {
    match t
    case BaseException => None
    case SystemException | Json | Mongo | FirebaseAuth => Some(BaseException)
    case ObjectDisposed => Some(InvalidOperation)
    case ArgumentNull | ArgumentOutOfRange => Some(Argument)
    case Overflow => Some(Arithmetic)
    case _ => Some(SystemException)
  }

  /** The class and its base classes, from the class itself up to System.Exception. */
  function Ancestors(t: ExceptionType): seq<ExceptionType>
  {
    match t
    case BaseException => [BaseException]
    case SystemException | Json | Mongo | FirebaseAuth => [t, BaseException]
    case ObjectDisposed => [t, InvalidOperation, SystemException, BaseException]
    case ArgumentNull | ArgumentOutOfRange => [t, Argument, SystemException, BaseException]
    case Overflow => [t, Arithmetic, SystemException, BaseException]
    case _ => [t, SystemException, BaseException]
  }

  /** The ancestor chain is the class followed by its parent's chain, ending at System.Exception. */
  lemma AncestorsFollowParent(t: ExceptionType)
    ensures Parent(t).None? ==> Ancestors(t) == [t]
    ensures Parent(t).Some? ==> Ancestors(t) == [t] + Ancestors(Parent(t).value)
  {
  }

  /** `t` is `b` or derives from it: the test a C# `catch (b)` or a type pattern `b` performs. */
  predicate IsA(t: ExceptionType, b: ExceptionType)
  {
    b in Ancestors(t)
  }

  /** A thrown exception: its class, message and (for argument exceptions) parameter name. */
  datatype Exception = Exception(kind: ExceptionType, message: string, paramName: Option<string>)

  function Throw<T>(kind: ExceptionType, message: string): Result<T>
  {
    Failure(Exception(kind, message, None))
  }

  /** ASCII lower-casing, the part of culture-aware case folding the model keeps. */
  function ToLower(s: string): (r: string)
    ensures |r| == |s|
    ensures forall i :: 0 <= i < |s| ==> r[i] == LowerChar(s[i])
  {
    if s == [] then [] else [LowerChar(s[0])] + ToLower(s[1..])
  }

  function LowerChar(c: char): char
  {
    if 'A' <= c <= 'Z' then (c as int + 32) as char else c
  }

  /** `p` is a prefix of `s`: an ordinal String.StartsWith. */
  predicate StartsWith(s: string, p: string)
  {
    |p| <= |s| && s[..|p|] == p
  }

  /** `p` occurs somewhere in `s`: String.Contains. */
  predicate Contains(s: string, p: string)
  {
    exists i :: 0 <= i <= |s| - |p| && OccursAt(s, p, i)
  }

  /** `p` occurs in `s` starting at index `i`. */
  predicate OccursAt(s: string, p: string, i: int)
  {
    0 <= i && i + |p| <= |s| && s[i..i + |p|] == p
  }

  /** The decimal text of a count, as string interpolation writes it. */
  function NatText(n: nat): (r: string)
    ensures |r| >= 1
    decreases n
  {
    if n < 10 then [DigitChar(n)] else NatText(n / 10) + [DigitChar(n % 10)]
  }

  function DigitChar(d: nat): char
    requires d < 10
  {
    ('0' as int + d) as char
  }

  predicate IsDigit(c: char)
  {
    '0' <= c <= '9'
  }

  /** The value of a decimal text, as int.Parse reads one made of digits only. */
  function ParseNat(s: string): nat
    decreases |s|
  {
    if s == [] then 0
    else ParseNat(s[..|s| - 1]) * 10 + (if IsDigit(s[|s| - 1]) then s[|s| - 1] as int - '0' as int else 0)
  }

  /** A count's text is all digits and reads back as the count. */
  lemma {:induction false} ParseNatText(n: nat)
    ensures ParseNat(NatText(n)) == n
    ensures forall i :: 0 <= i < |NatText(n)| ==> IsDigit(NatText(n)[i])
    decreases n
  {
    if n >= 10 {
      ParseNatText(n / 10);
      var s := NatText(n);
      assert s[..|s| - 1] == NatText(n / 10);
    }
  }

  /** The longest prefix of `s` made of digits. */
  function LeadingDigits(s: string): (r: string)
    ensures |r| <= |s| && r == s[..|r|]
    decreases |s|
  {
    if s == [] || !IsDigit(s[0]) then [] else [s[0]] + LeadingDigits(s[1..])
  }

  /** A run of digits followed by a non-digit, or by nothing, is the leading digits of their concatenation. */
  lemma {:induction false} LeadingDigitsOf(d: string, rest: string)
    requires forall i :: 0 <= i < |d| ==> IsDigit(d[i])
    requires rest == [] || !IsDigit(rest[0])
    ensures LeadingDigits(d + rest) == d
    decreases |d|
  {
    if d != [] {
      assert (d + rest)[1..] == d[1..] + rest;
      LeadingDigitsOf(d[1..], rest);
    }
  }

  /** The 24-digit lower-case hexadecimal text of an ObjectId. */
  function IdText(id: Id): (r: string)
    ensures |r| == 24
  {
    HexDigits(id, 24)
  }

  function HexDigits(n: nat, width: nat): (r: string)
    ensures |r| == width
  {
    if width == 0 then [] else HexDigits(n / 16, width - 1) + [HexChar(n % 16)]
  }

  function HexChar(d: nat): char
    requires d < 16
  {
    if d < 10 then ('0' as int + d) as char else ('a' as int + d - 10) as char
  }

  /** The value of a lower-case hexadecimal text. */
  function ParseHex(s: string): nat
    decreases |s|
  {
    if s == [] then 0 else ParseHex(s[..|s| - 1]) * 16 + HexValue(s[|s| - 1])
  }

  function HexValue(c: char): nat
  {
    if '0' <= c <= '9' then c as int - '0' as int
    else if 'a' <= c <= 'f' then c as int - 'a' as int + 10
    else 0
  }

  function Pow16(w: nat): (r: nat)
    ensures r >= 1
  {
    if w == 0 then 1 else 16 * Pow16(w - 1)
  }

  /** An ObjectId is twelve bytes: 24 hexadecimal digits. */
  const IdBound: nat := Pow16(24)

  /** `width` hexadecimal digits read back as the number modulo 16^width. */
  lemma {:induction false} ParseHexDigits(n: nat, width: nat)
    ensures ParseHex(HexDigits(n, width)) == n % Pow16(width)
    decreases width
  {
    if width > 0 {
      ParseHexDigits(n / 16, width - 1);
      var s := HexDigits(n, width);
      assert s[..|s| - 1] == HexDigits(n / 16, width - 1);
      assert HexValue(HexChar(n % 16)) == n % 16;
      SplitMod(n, Pow16(width - 1));
    }
  }

  /** Peeling off the last hexadecimal digit: n % (16 p) is (n / 16 % p) * 16 + n % 16. */
  lemma SplitMod(n: nat, p: nat)
    requires p >= 1
    ensures n % (16 * p) == (n / 16 % p) * 16 + n % 16
  {
    var q, r := n / 16, n % 16;
    var a, b := q / p, q % p;
    assert n == a * (16 * p) + (b * 16 + r) by {
      assert q == a * p + b;
      assert n == q * 16 + r;
    }
    assert 0 <= b * 16 + r < 16 * p;
    ModOfSum(n, 16 * p, a, b * 16 + r);
  }

  /** Division with remainder is unique: a remainder below `m` is the remainder. */
  lemma ModOfSum(n: nat, m: nat, a: nat, x: nat)
    requires m >= 1 && n == a * m + x && x < m
    ensures n % m == x
  {
    var k, r := n / m, n % m;
    assert n == k * m + r;
    assert (k - a) * m == x - r by {
      assert (k - a) * m == k * m - a * m;
    }
    if k > a {
      AtLeastOnce(k - a, m);
    } else if k < a {
      AtLeastOnce(a - k, m);
    }
  }

  lemma AtLeastOnce(c: int, m: nat)
    requires c >= 1
    ensures c * m >= m
  {
    assert c * m == (c - 1) * m + m;
  }

  /** Different ObjectIds have different texts, so an id shown in a hash or a message names one document. */
  lemma IdTextInjective(a: Id, b: Id)
    requires a < IdBound && b < IdBound
    ensures IdText(a) == IdText(b) ==> a == b
  {
    ParseHexDigits(a, 24);
    ParseHexDigits(b, 24);
    ModOfSum(a, IdBound, 0, a);
    ModOfSum(b, IdBound, 0, b);
  }

  /** `$addToSet` on an array: the element is appended unless an equal one is already there. */
  function AddToSet<T(==,!new)>(s: seq<T>, x: T): (r: seq<T>)
    ensures forall y :: y in r <==> y in s || y == x
    ensures x in s ==> r == s
    ensures x !in s ==> |r| == |s| + 1 && r[..|s|] == s
  {
    if x in s then s else s + [x]
  }

  /** Appending in two steps appends the concatenation; logs built call by call need it spelled out. */
  lemma Associative<T>(a: seq<T>, b: seq<T>, c: seq<T>)
    ensures (a + b) + c == a + (b + c)
  {
  }
}
