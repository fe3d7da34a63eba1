/** The few JavaScript number operations the frontend's time fields use:
    `parseInt` on a string, NaN propagation through arithmetic, and the `%`
    operator, which truncates toward zero. Numbers are exact reals: the
    rounding of IEEE doubles is not modelled. */
module JsNumber {
  import opened Common
  import opened Text

  datatype Number = Num(value: real) | NaN

  function Add(a: Number, b: Number): (r: Number)
    ensures r.Num? <==> a.Num? && b.Num?
    ensures r.Num? ==> r.value == a.value + b.value
  {
    if a.Num? && b.Num? then Num(a.value + b.value) else NaN
  }

  function Scale(a: Number, k: real): (r: Number)
    ensures r.Num? <==> a.Num?
  {
    if a.Num? then Num(a.value * k) else NaN
  }

  function Div(a: Number, k: real): (r: Number)
    requires k != 0.0
    ensures r.Num? <==> a.Num?
  {
    if a.Num? then Num(a.value / k) else NaN
  }

  /** `x % m` for a positive `m`: the remainder has the sign of `x`. */
  function Rem(x: real, m: real): real
    requires m > 0.0
  {
    x - m * (Trunc(x / m) as real)
  }

  /** `n.toString().padStart(width, '0')` on a whole number. */
  function Pad(n: int, width: nat): string {
    PadStart(IntToString(n), width, '0')
  }

  /** For a non-negative time, `seconds % 60` is what is left after the whole
      minutes, and lies in [0, 60). */
  lemma RemSixty(seconds: real)
    requires seconds >= 0.0
    ensures Rem(seconds, 60.0) == seconds - 60.0 * ((seconds / 60.0).Floor as real)
    ensures 0.0 <= Rem(seconds, 60.0) < 60.0
  {
    var n := (seconds / 60.0).Floor;
    assert Trunc(seconds / 60.0) == n;
    assert n as real <= seconds / 60.0 < n as real + 1.0;
  }

  /** On a ratio of naturals, `Math.floor` is integer division. */
  lemma FloorOfRatio(k: nat, d: nat)
    requires d > 0
    ensures (k as real / d as real).Floor == k / d
  {
    var q, r := k / d, k % d;
    assert k == q * d + r;
    assert (k as real) == (q as real) * (d as real) + r as real;
    assert k as real / d as real == q as real + r as real / d as real;
    assert 0.0 <= r as real / d as real < 1.0;
  }

  /** On a ratio of naturals, `%` by a whole number is exact: it is the
      integer remainder over the same denominator. */
  lemma RemOfRatio(k: nat, d: nat, m: nat)
    requires d > 0 && m > 0
    ensures Rem(k as real / d as real, m as real) == (k % (m * d)) as real / d as real
  {
    var md := m * d;
    var q := k / md;
    assert Trunc((k as real / d as real) / m as real) == q by {
      QuotientOfRatio(k, d, m);
    }
    RatioSplit(k, q, m, d, k % md);
  }

  /** Dividing `k / d` by `m` and truncating is the integer quotient by `m * d`. */
  lemma QuotientOfRatio(k: nat, d: nat, m: nat)
    requires d > 0 && m > 0
    ensures ((k as real / d as real) / m as real).Floor == k / (m * d)
    ensures Trunc((k as real / d as real) / m as real) == k / (m * d)
  {
    var md := m * d;
    var x := (k as real / d as real) / m as real;
    assert md as real == m as real * d as real;
    RatioOfRatio(k as real, d as real, m as real);
    assert x == k as real / md as real;
    NonNegativeRatio(k, md);
    FloorOfRatio(k, md);
  }

  lemma NonNegativeRatio(k: nat, d: nat)
    requires d > 0
    ensures k as real / d as real >= 0.0
  {
  }

  lemma RatioOfRatio(a: real, d: real, m: real)
    requires d > 0.0 && m > 0.0
    ensures (a / d) / m == a / (m * d)
  {
  }

  lemma RatioSplit(k: nat, q: nat, m: nat, d: nat, r: nat)
    requires d > 0 && k == q * (m * d) + r
    ensures k as real / d as real - m as real * q as real == r as real / d as real
  {
    assert (k as real) == (q as real) * (m as real) * (d as real) + r as real;
  }

  /** Taking a remainder by a multiple of `a` first does not change the
      remainder by `a`. */
  lemma ModOfMultiple(k: nat, a: nat, b: nat)
    requires a > 0 && b > 0
    ensures (k % (a * b)) % a == k % a
  {
    var r := k % (a * b);
    var q := k / (a * b);
    assert k == (a * b) * q + r;
    assert r == a * (r / a) + r % a;
    assert k == a * (b * q + r / a) + r % a;
    ModUnique(k, a, b * q + r / a, r % a);
  }

  /** The remainder is the only value below `a` that leaves a multiple of `a`. */
  lemma ModUnique(k: int, a: nat, q: int, s: int)
    requires a > 0 && 0 <= s < a && k == a * q + s
    ensures k % a == s && k / a == q
  {
    var q0, s0 := k / a, k % a;
    assert k == a * q0 + s0;
    var e := q - q0;
    assert a * e == s0 - s;
    if e != 0 {
      MulAwayFromZero(a, e);
    }
  }

  lemma MulAwayFromZero(a: int, e: int)
    requires a > 0 && e != 0
    ensures a * e >= a || a * e <= -a
  {
    if e > 0 {
      MulAtLeast(a, e);
    } else {
      MulAtLeast(a, -e);
      assert a * e == -(a * -e);
    }
  }

  lemma {:induction false} MulAtLeast(a: int, e: int)
    requires a > 0 && e >= 1
    ensures a * e >= a
    decreases e
  {
    if e > 1 {
      MulAtLeast(a, e - 1);
      assert a * e == a * (e - 1) + a;
    }
  }

  /** The longest prefix of `s` whose characters `ok` accepts. */
  function Run(s: string, ok: char -> bool): (r: string)
    ensures |r| <= |s|
  {
    if s == [] || !ok(s[0]) then [] else [s[0]] + Run(s[1..], ok)
  }

  /** The run is a prefix of `s`, `ok` accepts all of it, and it stops at
      the first character `ok` rejects. */
  lemma {:induction false} RunSpec(s: string, ok: char -> bool)
    ensures var r := Run(s, ok);
            && r == s[..|r|]
            && (forall i :: 0 <= i < |r| ==> ok(r[i]))
            && (|r| < |s| ==> !ok(s[|r|]))
  {
    if s != [] && ok(s[0]) {
      RunSpec(s[1..], ok);
      var r := Run(s, ok);
      assert r == [s[0]] + Run(s[1..], ok);
      forall i | 0 <= i < |r| ensures ok(r[i]) {
        if i > 0 {
          assert r[i] == Run(s[1..], ok)[i - 1];
        }
      }
    }
  }

  /** When `ok` accepts every character the run is all of `s`. */
  lemma {:induction false} RunAll(s: string, ok: char -> bool)
    requires forall i :: 0 <= i < |s| ==> ok(s[i])
    ensures Run(s, ok) == s
  {
    if s != [] {
      RunAll(s[1..], ok);
      assert [s[0]] + s[1..] == s;
    }
  }

  predicate IsHexDigit(c: char) {
    IsDigit(c) || 'a' <= c <= 'f' || 'A' <= c <= 'F'
  }

  function HexDigitValue(c: char): (d: nat)
    requires IsHexDigit(c)
    ensures d < 16
  {
    if IsDigit(c) then DigitValue(c)
    else if 'a' <= c <= 'f' then c as int - 'a' as int + 10
    else c as int - 'A' as int + 10
  }

  function HexValue(s: string): nat
    requires forall i :: 0 <= i < |s| ==> IsHexDigit(s[i])
  {
    if s == [] then 0 else HexValue(s[..|s| - 1]) * 16 + HexDigitValue(s[|s| - 1])
  }

  /** `parseInt(s)` with no radix: skip leading whitespace, take one sign,
      read hexadecimal after "0x" or "0X" and decimal otherwise, as many
      digits as there are; NaN when there is no digit at all. */
  function ParseInt(s: string): Number
  {
    var t := TrimStart(s, IsJsSpace);
    var negative := t != [] && t[0] == '-';
    var u := if t != [] && (t[0] == '-' || t[0] == '+') then t[1..] else t;
    var hex := |u| >= 2 && u[0] == '0' && (u[1] == 'x' || u[1] == 'X');
    var digits := if hex then Run(u[2..], IsHexDigit) else Run(u, IsDigit);
    RunSpec(if hex then u[2..] else u, if hex then IsHexDigit else IsDigit);
    if digits == [] then NaN
    else
      var v: int := if hex then HexValue(digits) else DecimalValue(digits);
      Num(if negative then -(v as real) else v as real)
  }

  /** A string with no digit of either radix is not a number. */
  lemma ParseIntNoDigits(s: string)
    requires forall i :: 0 <= i < |s| ==> !IsHexDigit(s[i])
    ensures ParseInt(s).NaN?
  {
    var t := TrimStart(s, IsJsSpace);
    TrimStartSuffix(s, IsJsSpace);
    var u := if t != [] && (t[0] == '-' || t[0] == '+') then t[1..] else t;
    assert forall i :: 0 <= i < |u| ==> !IsHexDigit(u[i]) by {
      forall i | 0 <= i < |u| ensures !IsHexDigit(u[i]) {
        assert u[i] == s[|s| - |u| + i];
      }
    }
    assert !(|u| >= 2 && u[0] == '0');
    assert Run(u, IsDigit) == [];
  }

  /** A plain string of decimal digits parses as its decimal value; leading
      zeros do not switch to another radix. */
  lemma ParseIntDigits(s: string)
    requires s != [] && AllDigits(s)
    ensures ParseInt(s) == Num(DecimalValue(s) as real)
  {
    assert TrimStart(s, IsJsSpace) == s;
    RunAll(s, IsDigit);
  }
}
