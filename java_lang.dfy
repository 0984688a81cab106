/** The few pieces of Java's standard library that the permit-sync code relies on,
    stated with Java's own semantics: truncating `long` division, `Long.toString`,
    and the `String` methods `trim`, `contains`, `lastIndexOf` and `split(":")[0]`. */
module JavaLang {

  /** A Java reference that may be null (`None`). */
  datatype Option<+T> = None | Some(value: T)

  /** One element of a `byte[]`, read unsigned. */
  type byte = b: int | 0 <= b < 256

  function Min(a: int, b: int): (m: int)
    ensures m <= a && m <= b && (m == a || m == b)
  {
    if a <= b then a else b
  }

  /** Java's `/` on `long` for a positive divisor: the quotient is truncated toward
      zero, so the remainder takes the sign of the dividend (Dafny's `/` floors). */
  function Quot(a: int, b: int): (q: int)
    requires b > 0
    ensures a >= 0 ==> q == a / b
    ensures a < 0 ==> q <= 0
  {
    if a >= 0 then a / b else -((-a) / b)
  }

  /** The remainder of Java's division has the sign of the dividend. */
  lemma QuotRemainder(a: int, b: int)
    requires b > 0
    ensures a >= 0 ==> 0 <= a - Quot(a, b) * b < b
    ensures a < 0 ==> -b < a - Quot(a, b) * b <= 0
  {
    if a < 0 {
      var m := -a;
      assert m == (m / b) * b + m % b;
      assert a - Quot(a, b) * b == -(m % b);
    }
  }

  /** `q` is Java's `a / b` exactly when it leaves a remainder of the dividend's sign. */
  lemma QuotUnique(a: int, b: int, q: int)
    requires b > 0
    requires a >= 0 ==> 0 <= a - q * b < b
    requires a < 0 ==> -b < a - q * b <= 0
    ensures q == Quot(a, b)
  {
    var q0 := Quot(a, b);
    QuotRemainder(a, b);
    if q < q0 {
      MulMonotone(q, q0 - 1, b);
      assert false;
    } else if q > q0 {
      MulMonotone(q0, q - 1, b);
      assert false;
    }
  }

  lemma MulMonotone(x: int, y: int, b: int)
    requires x <= y && b > 0
    ensures x * b <= y * b
  {
    assert y * b - x * b == (y - x) * b;
  }

  /** For a non-negative bound `k`, Java's `a / b <= k` holds exactly when
      `a < (k + 1) * b`: every negative dividend truncates to a quotient <= 0. */
  lemma {:induction false} QuotAtMost(a: int, b: int, k: nat)
    requires b > 0
    ensures Quot(a, b) <= k <==> a < (k + 1) * b
  {
    var q := Quot(a, b);
    QuotRemainder(a, b);
    if a >= 0 {
      if q <= k {
        MulMonotone(q + 1, k + 1, b);
        assert a < (q + 1) * b;
      } else {
        MulMonotone(k + 1, q, b);
        assert (k + 1) * b <= q * b <= a;
      }
    } else {
      MulMonotone(0, k + 1, b);
    }
  }

  // ---------------------------------------------------------------- Long.toString

  function DigitChar(d: int): (c: char)
    requires 0 <= d < 10
    ensures '0' <= c <= '9'
  {
    ('0' as int + d) as char
  }

  predicate IsDigits(s: string) {
    forall i :: 0 <= i < |s| ==> '0' <= s[i] <= '9'
  }

  /** Decimal notation of a natural number, most significant digit first. */
  function NatToString(n: nat): (s: string)
    ensures |s| >= 1 && IsDigits(s)
    ensures n < 10 <==> |s| == 1
    decreases n
  {
    if n < 10 then [DigitChar(n)] else NatToString(n / 10) + [DigitChar(n % 10)]
  }

  /** `Long.toString(i)`, also what `"" + i` produces in Java. */
  function LongToString(i: int): (s: string)
    ensures |s| >= 1
    ensures i >= 0 ==> IsDigits(s)
    ensures i < 0 ==> s[0] == '-' && IsDigits(s[1..])
  {
    if i < 0 then "-" + NatToString(-i) else NatToString(i)
  }

  /** The value of a string of decimal digits (the reading direction of NatToString). */
  function DigitsValue(s: string): nat
    requires IsDigits(s)
  {
    if s == [] then 0 else DigitsValue(s[..|s| - 1]) * 10 + (s[|s| - 1] as int - '0' as int)
  }

  lemma {:induction false} NatToStringRoundTrip(n: nat)
    ensures DigitsValue(NatToString(n)) == n
  {
    var s := NatToString(n);
    if n >= 10 {
      NatToStringRoundTrip(n / 10);
      assert s[..|s| - 1] == NatToString(n / 10);
    }
  }

  // ---------------------------------------------------------------- java.lang.String

  /** The characters `String.trim` removes: every code point up to U+0020. */
  predicate IsTrimmable(c: char) {
    c <= ' '
  }

  function TrimStart(s: string): (r: string)
    ensures |r| <= |s| && r == s[|s| - |r|..]
    ensures r != [] ==> !IsTrimmable(r[0])
    ensures forall i :: 0 <= i < |s| - |r| ==> IsTrimmable(s[i])
  {
    if s != [] && IsTrimmable(s[0]) then TrimStart(s[1..]) else s
  }

  function TrimEnd(s: string): (r: string)
    ensures |r| <= |s| && r == s[..|r|]
    ensures r != [] ==> !IsTrimmable(r[|r| - 1])
    ensures forall i :: |r| <= i < |s| ==> IsTrimmable(s[i])
  {
    if s != [] && IsTrimmable(s[|s| - 1]) then TrimEnd(s[..|s| - 1]) else s
  }

  /** `String.trim()`: drops leading and trailing characters <= U+0020. */
  function Trim(s: string): (r: string)
    ensures r != [] ==> !IsTrimmable(r[0]) && !IsTrimmable(r[|r| - 1])
    ensures (forall i :: 0 <= i < |s| ==> !IsTrimmable(s[i])) ==> r == s
  {
    TrimEnd(TrimStart(s))
  }

  /** `s.lastIndexOf(c)`, with -1 as `None`. */
  function LastIndexOf(s: string, c: char): (r: Option<nat>)
    ensures r.None? <==> c !in s
    ensures r.Some? ==> r.value < |s| && s[r.value] == c && c !in s[r.value + 1..]
  {
    if s == [] then None
    else if s[|s| - 1] == c then Some(|s| - 1)
    else
      var k := LastIndexOf(s[..|s| - 1], c);
      assert s == s[..|s| - 1] + [s[|s| - 1]];
      k
  }

  /** The text before the first `sep` (all of `s` when there is none). */
  function Before(s: string, sep: char): (r: string)
    ensures r <= s && sep !in r
    ensures |r| < |s| ==> s[|r|] == sep
    ensures sep !in s ==> r == s
  {
    if s == [] || s[0] == sep then [] else [s[0]] + Before(s[1..], sep)
  }

  /** `s.split(":")[0]`. Java's `split` drops trailing empty pieces, so a non-empty
      string made of separators only splits into an empty array and indexing it
      throws (`None`); a string without a separator is its own single piece. */
  function SplitHead(s: string, sep: char): (r: Option<string>)
    ensures sep !in s ==> r == Some(s)
    ensures r.None? <==> s != [] && forall i :: 0 <= i < |s| ==> s[i] == sep
    ensures r.Some? ==> r.value == Before(s, sep)
  {
    if s != [] && forall i :: 0 <= i < |s| ==> s[i] == sep then
      assert s[0] == sep;
      None
    else Some(Before(s, sep))
  }

  /** Java's string conversion of a possibly null string: null prints as "null". */
  function Show(s: Option<string>): string {
    match s
    case None => "null"
    case Some(t) => t
  }
}
