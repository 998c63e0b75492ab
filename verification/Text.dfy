/**
 Text as the JavaScript sources use it: string comparison by code unit, decimal
 rendering (`String(n)`), zero padding (`padStart`) and reading digits back
 (`Number`).  The dates of Schedule, the pair keys of Balances, the key order of
 RequestHash and the amounts of Amount all rest on these few facts.
 */
module Text {

  datatype Option<+T> = None | Some(value: T) {
    function GetOr(default: T): T {
      if Some? then value else default
    }
  }

  datatype Result<+T, +E> = Success(value: T) | Failure(error: E)

  /** JavaScript's `a < b` on strings. */
  predicate Less(a: string, b: string) {
    if a == [] then b != []
    else b != [] && (a[0] < b[0] || (a[0] == b[0] && Less(a[1..], b[1..])))
  }

  lemma {:induction false} LessIrreflexive(a: string)
    ensures !Less(a, a)
  {
    if a != [] { LessIrreflexive(a[1..]); }
  }

  lemma {:induction false} LessTotal(a: string, b: string)
    ensures a == b || Less(a, b) || Less(b, a)
  {
    if a != [] && b != [] && a[0] == b[0] {
      LessTotal(a[1..], b[1..]);
      if a[1..] == b[1..] { assert a == [a[0]] + a[1..] == [b[0]] + b[1..] == b; }
    }
  }

  lemma {:induction false} LessTransitive(a: string, b: string, c: string)
    requires Less(a, b) && Less(b, c)
    ensures Less(a, c)
  {
    if a != [] && a[0] == b[0] && b[0] == c[0] { LessTransitive(a[1..], b[1..], c[1..]); }
  }

  lemma LessAsymmetric(a: string, b: string)
    requires Less(a, b)
    ensures !Less(b, a) && a != b
  {
    LessIrreflexive(a);
    if Less(b, a) { LessTransitive(a, b, a); }
  }

  /** At the first code unit in which they differ, `a` has the smaller. */
  predicate Differs(a: string, b: string) {
    exists k :: 0 <= k < |a| && k < |b| && a[..k] == b[..k] && a[k] < b[k]
  }

  lemma DiffersTail(a: string, b: string)
    requires a != [] && b != [] && a[0] == b[0]
    ensures Differs(a, b) <==> Differs(a[1..], b[1..])
  {
    var x, y := a[1..], b[1..];
    if Differs(x, y) {
      var k :| 0 <= k < |x| && k < |y| && x[..k] == y[..k] && x[k] < y[k];
      assert a[..k + 1] == [a[0]] + x[..k] && b[..k + 1] == [b[0]] + y[..k] && a[k + 1] < b[k + 1];
    }
    if Differs(a, b) {
      var k :| 0 <= k < |a| && k < |b| && a[..k] == b[..k] && a[k] < b[k];
      assert k > 0 && x[..k - 1] == a[..k][1..] && y[..k - 1] == b[..k][1..] && x[k - 1] < y[k - 1];
    }
  }

  lemma PrefixTail(a: string, b: string)
    requires a != [] && b != [] && a[0] == b[0]
    ensures a < b <==> a[1..] < b[1..]
  {
    assert a == [a[0]] + a[1..] && b == [b[0]] + b[1..];
  }

  /** A proper prefix comes first; otherwise the first code units that differ decide. */
  lemma {:induction false} LessIsFirstDifference(a: string, b: string)
    ensures Less(a, b) <==> a < b || Differs(a, b)
    decreases |a|
  {
    if a != [] && b != [] && a[0] == b[0] {
      hide Differs;
      LessIsFirstDifference(a[1..], b[1..]);
      DiffersTail(a, b);
      PrefixTail(a, b);
    } else if a != [] && b != [] && a[0] < b[0] {
      assert a[..0] == b[..0];
    }
  }

  /** Comparing two concatenations whose first parts have one length is lexicographic. */
  lemma {:induction false} LessConcat(a: string, x: string, b: string, y: string)
    requires |a| == |b|
    ensures Less(a + x, b + y) <==> Less(a, b) || (a == b && Less(x, y))
  {
    if a == [] {
      assert a + x == x && b + y == y;
    } else {
      LessConcat(a[1..], x, b[1..], y);
      assert (a + x)[1..] == a[1..] + x && (b + y)[1..] == b[1..] + y;
      assert a == b <==> a[0] == b[0] && a[1..] == b[1..] by {
        assert a == [a[0]] + a[1..] && b == [b[0]] + b[1..];
      }
    }
  }

  /** `a-b-c`, the shape of an ISO date. */
  function Dashed(a: string, b: string, c: string): string {
    a + "-" + b + "-" + c
  }

  lemma DashedOrder(a: string, b: string, c: string, x: string, y: string, z: string)
    requires |a| == |x| && |b| == |y|
    ensures Less(Dashed(a, b, c), Dashed(x, y, z)) <==> Less(a, x) || (a == x && (Less(b, y) || (b == y && Less(c, z))))
  {
    hide Less;
    var cs, zs := "-" + c, "-" + z;
    var bs, ys := "-" + (b + cs), "-" + (y + zs);
    assert Dashed(a, b, c) == a + bs && Dashed(x, y, z) == x + ys;
    LessIrreflexive("-");
    LessConcat(a, bs, x, ys);
    LessConcat("-", b + cs, "-", y + zs);
    LessConcat(b, cs, y, zs);
    LessConcat("-", c, "-", z);
  }

  lemma DashedParts(a: string, b: string, c: string)
    ensures var s := Dashed(a, b, c);
            && |s| == |a| + |b| + |c| + 2 && s[|a|] == '-' && s[|a| + 1 + |b|] == '-'
            && s[..|a|] == a && s[|a| + 1..|a| + 1 + |b|] == b && s[|a| + |b| + 2..] == c
            && s[..|a| + 1 + |b|] == a + "-" + b
  {
  }

  lemma DashedPrefix(a: string, b: string, x: string, y: string)
    requires |a| == |x| && a + "-" + b == x + "-" + y
    ensures a == x && b == y
  {
    assert a == (a + "-" + b)[..|a|] && b == (a + "-" + b)[|a| + 1..];
    assert x == (x + "-" + y)[..|a|] && y == (x + "-" + y)[|a| + 1..];
  }

  predicate IsDigit(c: char) {
    '0' <= c <= '9'
  }

  predicate AllDigits(s: string) {
    forall i :: 0 <= i < |s| ==> IsDigit(s[i])
  }

  function DigitChar(n: nat): (c: char)
    requires n < 10
    ensures IsDigit(c) && DigitValue(c) == n
  {
    '0' + n as char
  }

  function DigitValue(c: char): (n: nat)
    requires IsDigit(c)
    ensures n < 10
  {
    c as int - '0' as int
  }

  /** `Number(s)` on a string of decimal digits. */
  function Value(s: string): (n: nat)
    requires AllDigits(s)
  {
    if s == [] then 0 else 10 * Value(s[..|s| - 1]) + DigitValue(s[|s| - 1])
  }

  function Pow10(k: nat): (p: nat)
    ensures p >= 1
  {
    if k == 0 then 1 else 10 * Pow10(k - 1)
  }

  /** `String(n)`: decimal digits without leading zeros. */
  function Decimal(n: nat): (s: string)
    ensures AllDigits(s) && |s| >= 1
    ensures Value(s) == n
    ensures |s| > 1 ==> s[0] != '0'
  {
    if n < 10 then assert Value([]) == 0; [DigitChar(n)]
    else
      var front := Decimal(n / 10);
      var s := front + [DigitChar(n % 10)];
      assert s[..|s| - 1] == front;
      s
  }

  /** `s.padStart(width, fill)`. */
  function PadStart(s: string, width: nat, fill: char): (r: string) {
    if |s| >= width then s else [fill] + PadStart(s, width - 1, fill)
  }

  /** The low `k` decimal digits of `n`, zero padded. */
  function Digits(n: nat, k: nat): (s: string)
    ensures |s| == k && AllDigits(s)
  {
    if k == 0 then [] else Digits(n / 10, k - 1) + [DigitChar(n % 10)]
  }

  lemma {:induction false} ValueOfDigits(n: nat, k: nat)
    requires n < Pow10(k)
    ensures Value(Digits(n, k)) == n
  {
    if k > 0 {
      ValueOfDigits(n / 10, k - 1);
      var s := Digits(n, k);
      assert s[..|s| - 1] == Digits(n / 10, k - 1);
    }
  }

  lemma {:induction false} ValueBound(s: string)
    requires AllDigits(s)
    ensures Value(s) < Pow10(|s|)
  {
    if s != [] { ValueBound(s[..|s| - 1]); }
  }

  /** Digit strings of one length name different numbers. */
  lemma {:induction false} DigitsOfValue(s: string)
    requires AllDigits(s)
    ensures Digits(Value(s), |s|) == s
  {
    if s != [] {
      DigitsOfValue(s[..|s| - 1]);
      assert s == s[..|s| - 1] + [s[|s| - 1]];
    }
  }

  lemma {:induction false} PadAppend(s: string, c: char, k: nat)
    requires |s| <= k
    ensures PadStart(s + [c], k + 1, '0') == PadStart(s, k, '0') + [c]
  {
    if |s| < k { PadAppend(s, c, k - 1); }
  }

  lemma {:induction false} PadZeros(k: nat)
    ensures PadStart([], k, '0') == Digits(0, k)
  {
    if k > 0 {
      PadZeros(k - 1);
      ZerosFront(k - 1);
    }
  }

  lemma {:induction false} ZerosFront(k: nat)
    ensures ['0'] + Digits(0, k) == Digits(0, k) + ['0']
  {
    if k > 0 { ZerosFront(k - 1); }
  }

  /** `String(n).padStart(k, '0')` is the `k`-digit rendering when `n` fits in `k` digits. */
  lemma {:induction false} PaddedDecimal(n: nat, k: nat)
    requires k >= 1 && n < Pow10(k)
    ensures PadStart(Decimal(n), k, '0') == Digits(n, k)
  {
    hide Value, AllDigits;
    assert Pow10(1) == 10;
    if n < 10 {
      PadAppend([], DigitChar(n), k - 1);
      assert [] + [DigitChar(n)] == Decimal(n);
      PadZeros(k - 1);
    } else {
      var front, c := Decimal(n / 10), DigitChar(n % 10);
      assert Decimal(n) == front + [c] && Digits(n, k) == Digits(n / 10, k - 1) + [c];
      PaddedDecimal(n / 10, k - 1);
      DecimalLength(n / 10, k - 1);
      PadAppend(front, c, k - 1);
    }
  }

  lemma {:induction false} DecimalLength(n: nat, k: nat)
    requires k >= 1 && n < Pow10(k)
    ensures |Decimal(n)| <= k
  {
    if n >= 10 {
      assert Pow10(1) == 10;
      DecimalLength(n / 10, k - 1);
    }
  }

  /** Fixed-width digit strings compare as the numbers they render. */
  lemma {:induction false} DigitsOrder(a: nat, b: nat, k: nat)
    requires a < Pow10(k) && b < Pow10(k)
    ensures Less(Digits(a, k), Digits(b, k)) <==> a < b
    ensures Digits(a, k) == Digits(b, k) <==> a == b
  {
    ValueOfDigits(a, k);
    ValueOfDigits(b, k);
    if k > 0 {
      DigitsOrder(a / 10, b / 10, k - 1);
      var x, y := [DigitChar(a % 10)], [DigitChar(b % 10)];
      LessConcat(Digits(a / 10, k - 1), x, Digits(b / 10, k - 1), y);
      assert Less(x, y) <==> a % 10 < b % 10 by {
        assert x[1..] == [] && y[1..] == [];
      }
    }
  }
}
