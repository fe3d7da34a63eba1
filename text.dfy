/** String helpers shared by the backend (Python) and frontend (TypeScript) models.
    Strings are sequences of Unicode scalar values; the two languages' notions of
    whitespace differ and are kept apart. */
module Text {
  import opened Common

  /** Python's `str.isspace`: the characters `str.strip()`, `str.split()` and the
      regular-expression class `\s` treat as whitespace. */
  predicate IsPySpace(c: char) {
    c == ' ' || c == '\t' || c == '\n' || c == '\r' || c == '\U{000B}' || c == '\U{000C}'
    || ('\U{001C}' <= c <= '\U{001F}')
    || c == '\U{0085}' || c == '\U{00A0}' || c == '\U{1680}'
    || ('\U{2000}' <= c <= '\U{200A}')
    || c == '\U{2028}' || c == '\U{2029}' || c == '\U{202F}' || c == '\U{205F}' || c == '\U{3000}'
  }

  /** JavaScript's WhiteSpace and LineTerminator: what `String.prototype.trim`,
      `parseInt` and the regular-expression class `\s` skip. */
  predicate IsJsSpace(c: char) {
    c == ' ' || c == '\t' || c == '\n' || c == '\r' || c == '\U{000B}' || c == '\U{000C}'
    || c == '\U{00A0}' || c == '\U{FEFF}' || c == '\U{1680}'
    || ('\U{2000}' <= c <= '\U{200A}')
    || c == '\U{2028}' || c == '\U{2029}' || c == '\U{202F}' || c == '\U{205F}' || c == '\U{3000}'
  }

  predicate IsDigit(c: char) { '0' <= c <= '9' }

  function DigitValue(c: char): (d: nat)
    requires IsDigit(c)
    ensures d < 10
  {
    c as int - '0' as int
  }

  function DigitChar(d: nat): (c: char)
    requires d < 10
    ensures IsDigit(c) && DigitValue(c) == d
  {
    ('0' as int + d) as char
  }

  predicate AllDigits(s: string) {
    forall i :: 0 <= i < |s| ==> IsDigit(s[i])
  }

  predicate StartsWith(s: string, prefix: string) {
    |prefix| <= |s| && s[..|prefix|] == prefix
  }

  predicate EndsWith(s: string, suffix: string) {
    |suffix| <= |s| && s[|s| - |suffix|..] == suffix
  }

  /** Drops the leading characters `isSpace` accepts. */
  function TrimStart(s: string, isSpace: char -> bool): (r: string)
    ensures |r| <= |s|
    ensures forall i :: 0 <= i < |s| - |r| ==> isSpace(s[i])
    ensures r != [] ==> !isSpace(r[0])
  {
    if s != [] && isSpace(s[0]) then TrimStart(s[1..], isSpace) else s
  }

  /** Drops the trailing characters `isSpace` accepts. */
  function TrimEnd(s: string, isSpace: char -> bool): (r: string)
    ensures |r| <= |s|
    ensures forall i :: |r| <= i < |s| ==> isSpace(s[i])
    ensures r != [] ==> !isSpace(r[|r| - 1])
  {
    if s != [] && isSpace(s[|s| - 1]) then TrimEnd(s[..|s| - 1], isSpace) else s
  }

  /** What `TrimStart` keeps is a suffix of its input. */
  lemma {:induction false} TrimStartSuffix(s: string, isSpace: char -> bool)
    ensures TrimStart(s, isSpace) == s[|s| - |TrimStart(s, isSpace)|..]
  {
    if s != [] && isSpace(s[0]) {
      TrimStartSuffix(s[1..], isSpace);
    }
  }

  /** What `TrimEnd` keeps is a prefix of its input. */
  lemma {:induction false} TrimEndPrefix(s: string, isSpace: char -> bool)
    ensures TrimEnd(s, isSpace) == s[..|TrimEnd(s, isSpace)|]
  {
    if s != [] && isSpace(s[|s| - 1]) {
      TrimEndPrefix(s[..|s| - 1], isSpace);
    }
  }

  /** Both ends; `str.strip()` with `IsPySpace`, `String.prototype.trim` with `IsJsSpace`. */
  function Trim(s: string, isSpace: char -> bool): (r: string)
    ensures |r| <= |s|
    ensures r != [] ==> !isSpace(r[0]) && !isSpace(r[|r| - 1])
  {
    var t := TrimStart(s, isSpace);
    TrimEndPrefix(t, isSpace);
    var r := TrimEnd(t, isSpace);
    assert r != [] ==> r[0] == t[0];
    r
  }

  /** Trimming leaves nothing exactly when every character is whitespace. */
  lemma TrimEmpty(s: string, isSpace: char -> bool)
    ensures Trim(s, isSpace) == [] <==> forall i :: 0 <= i < |s| ==> isSpace(s[i])
  {
    var t := TrimStart(s, isSpace);
    TrimStartSuffix(s, isSpace);
    assert t != [] ==> t[0] == s[|s| - |t|];
    assert TrimEnd(t, isSpace) == [] ==> t == [];
  }

  /** Trimming only removes characters. */
  lemma TrimSubset(s: string, isSpace: char -> bool)
    ensures forall c :: c in Trim(s, isSpace) ==> c in s
  {
    var t := TrimStart(s, isSpace);
    TrimStartSuffix(s, isSpace);
    TrimEndPrefix(t, isSpace);
    var r := TrimEnd(t, isSpace);
    forall c | c in r ensures c in s {
      var i :| 0 <= i < |r| && r[i] == c;
      assert t[i] == c;
      assert s[|s| - |t| + i] == c;
    }
  }

  /** Python `str.strip()`. */
  function PyStrip(s: string): string { Trim(s, IsPySpace) }

  /** JavaScript `String.prototype.trim()`. */
  function JsTrim(s: string): string { Trim(s, IsJsSpace) }

  /** The text of `s` before the first `sep`, or all of `s`. */
  function Before(s: string, sep: char): (r: string)
    ensures |r| <= |s| && r == s[..|r|] && sep !in r
    ensures |r| < |s| ==> s[|r|] == sep
  {
    if s == [] || s[0] == sep then [] else [s[0]] + Before(s[1..], sep)
  }

  /** `s.split(sep)` for a one-character separator (the same in Python and
      JavaScript): the pieces between separators, empty ones included. */
  function Split(s: string, sep: char): (parts: seq<string>)
    ensures |parts| >= 1
    decreases |s|
  {
    var head := Before(s, sep);
    if |head| == |s| then [s] else [head] + Split(s[|head| + 1..], sep)
  }

  /** No piece holds the separator. */
  lemma {:induction false} SplitPiecesNoSep(s: string, sep: char)
    ensures forall i :: 0 <= i < |Split(s, sep)| ==> sep !in Split(s, sep)[i]
    decreases |s|
  {
    var head := Before(s, sep);
    if |head| < |s| {
      var rest := s[|head| + 1..];
      SplitPiecesNoSep(rest, sep);
      var tail := Split(rest, sep);
      assert Split(s, sep) == [head] + tail;
      forall i | 0 <= i < |Split(s, sep)| ensures sep !in Split(s, sep)[i] {
        if i > 0 {
          assert Split(s, sep)[i] == tail[i - 1];
        }
      }
    }
  }

  /** `sep.join(parts)`. */
  function Join(parts: seq<string>, sep: string): string {
    if parts == [] then []
    else if |parts| == 1 then parts[0]
    else parts[0] + sep + Join(parts[1..], sep)
  }

  /** Splitting loses nothing: joining the pieces with the separator gives the input back. */
  lemma {:induction false} JoinSplit(s: string, sep: char)
    ensures Join(Split(s, sep), [sep]) == s
    decreases |s|
  {
    var head := Before(s, sep);
    if |head| < |s| {
      var rest := s[|head| + 1..];
      JoinSplit(rest, sep);
      JoinCons(head, Split(rest, sep), [sep]);
      BeforeSplits(s, sep);
    }
  }

  /** Joining a list with a first element puts it and the separator in front. */
  lemma JoinCons(head: string, parts: seq<string>, sep: string)
    requires parts != []
    ensures Join([head] + parts, sep) == head + sep + Join(parts, sep)
  {
    assert ([head] + parts)[1..] == parts;
  }

  /** A string with a separator is the text before it, the separator and the rest. */
  lemma BeforeSplits(s: string, sep: char)
    requires |Before(s, sep)| < |s|
    ensures s == Before(s, sep) + [sep] + s[|Before(s, sep)| + 1..]
  {
  }

  /** A string without the separator is a single piece. */
  lemma SplitNoSep(s: string, sep: char)
    requires sep !in s
    ensures Split(s, sep) == [s]
  {
  }

  /** Splitting `a + [sep] + b` where `a` has no separator yields `a` first. */
  lemma SplitCons(a: string, sep: char, b: string)
    requires sep !in a
    ensures Split(a + [sep] + b, sep) == [a] + Split(b, sep)
  {
    var s := a + [sep] + b;
    var head := Before(s, sep);
    assert forall i :: 0 <= i < |a| ==> s[i] == a[i] && a[i] in a;
    assert s[|a|] == sep;
    assert forall i :: 0 <= i < |head| ==> head[i] == s[i] && head[i] in head;
    assert head == a;
    assert s[|head| + 1..] == b;
  }

  /** Every occurrence of `from` replaced by `to` (`str.replace` for one character). */
  function ReplaceChar(s: string, from: char, to: char): (r: string)
    ensures |r| == |s|
    ensures forall i :: 0 <= i < |s| ==> r[i] == if s[i] == from then to else s[i]
  {
    if s == [] then [] else [if s[0] == from then to else s[0]] + ReplaceChar(s[1..], from, to)
  }

  function ToLowerChar(c: char): (d: char)
    ensures 'A' <= c <= 'Z' ==> 'a' <= d <= 'z'
    ensures !('A' <= c <= 'Z') ==> d == c
  {
    if 'A' <= c <= 'Z' then (c as int + 32) as char else c
  }

  function ToUpperChar(c: char): (d: char)
    ensures 'a' <= c <= 'z' ==> 'A' <= d <= 'Z'
    ensures !('a' <= c <= 'z') ==> d == c
  {
    if 'a' <= c <= 'z' then (c as int - 32) as char else c
  }

  /** ASCII case folding. */
  function ToLower(s: string): (r: string)
    ensures |r| == |s| && forall i :: 0 <= i < |s| ==> r[i] == ToLowerChar(s[i])
  {
    seq(|s|, i requires 0 <= i < |s| => ToLowerChar(s[i]))
  }

  function ToUpper(s: string): (r: string)
    ensures |r| == |s| && forall i :: 0 <= i < |s| ==> r[i] == ToUpperChar(s[i])
  {
    seq(|s|, i requires 0 <= i < |s| => ToUpperChar(s[i]))
  }

  /** Decimal digits of `n`, without leading zeros. */
  function NatToString(n: nat): (r: string)
    ensures |r| >= 1 && AllDigits(r)
    ensures |r| > 1 ==> r[0] != '0'
    ensures n < 10 <==> |r| == 1
  {
    if n < 10 then [DigitChar(n)] else NatToString(n / 10) + [DigitChar(n % 10)]
  }

  /** JavaScript `Number.prototype.toString` and Python `str` on an integer. */
  function IntToString(n: int): (r: string)
    ensures |r| >= 1
    ensures n >= 0 ==> r == NatToString(n)
    ensures n < 0 ==> r == "-" + NatToString(-n)
  {
    if n >= 0 then NatToString(n) else "-" + NatToString(-n)
  }

  /** The value of a string of decimal digits. */
  function DecimalValue(s: string): (n: nat)
    requires AllDigits(s)
  {
    if s == [] then 0 else DecimalValue(s[..|s| - 1]) * 10 + DigitValue(s[|s| - 1])
  }

  lemma {:induction false} DecimalValueOfNatToString(n: nat)
    ensures DecimalValue(NatToString(n)) == n
  {
    if n >= 10 {
      var r := NatToString(n);
      DecimalValueOfNatToString(n / 10);
      assert r[..|r| - 1] == NatToString(n / 10);
    }
  }

  /** Leading `c` characters do not change a decimal value when `c` is '0'. */
  lemma {:induction false} DecimalValueLeadingZeros(k: nat, s: string)
    requires AllDigits(s)
    ensures AllDigits(Repeat('0', k) + s)
    ensures DecimalValue(Repeat('0', k) + s) == DecimalValue(s)
    decreases |s|
  {
    var z := Repeat('0', k) + s;
    if s == [] {
      RepeatZerosValue(k);
      assert z == Repeat('0', k);
    } else {
      DecimalValueLeadingZeros(k, s[..|s| - 1]);
      assert z[..|z| - 1] == Repeat('0', k) + s[..|s| - 1];
    }
  }

  lemma {:induction false} RepeatZerosValue(k: nat)
    ensures AllDigits(Repeat('0', k)) && DecimalValue(Repeat('0', k)) == 0
  {
    if k > 0 {
      var r, shorter := Repeat('0', k), Repeat('0', k - 1);
      RepeatZerosValue(k - 1);
      assert r == shorter + ['0'];
      assert r[..k - 1] == shorter;
      assert DecimalValue(r) == DecimalValue(shorter) * 10 + DigitValue('0');
    }
  }

  function Repeat(c: char, k: nat): (r: string)
    ensures |r| == k && forall i :: 0 <= i < k ==> r[i] == c
  {
    if k == 0 then [] else Repeat(c, k - 1) + [c]
  }

  /** JavaScript `s.padStart(width, c)`: fill on the left up to `width` characters. */
  function PadStart(s: string, width: nat, c: char): (r: string)
    ensures |s| >= width ==> r == s
    ensures |s| < width ==> |r| == width && r == Repeat(c, width - |s|) + s
  {
    if |s| >= width then s else Repeat(c, width - |s|) + s
  }

  /** Python format spec `0{width}d` on an integer: zero-filled after the sign. */
  function PyZeroPad(n: int, width: nat): (r: string)
    ensures n >= 0 ==> r == PadStart(NatToString(n), width, '0')
    ensures n < 0 ==> r == "-" + PadStart(NatToString(-n), if width > 0 then width - 1 else 0, '0')
  {
    if n >= 0 then PadStart(NatToString(n), width, '0')
    else "-" + PadStart(NatToString(-n), if width > 0 then width - 1 else 0, '0')
  }

  /** JavaScript `n.toString().padStart(2, '0')` on a non-negative integer is two
      digits for 0..99 and reads back as `n`. */
  lemma TwoDigits(n: nat)
    requires n < 100
    ensures |PadStart(NatToString(n), 2, '0')| == 2
    ensures AllDigits(PadStart(NatToString(n), 2, '0'))
    ensures DecimalValue(PadStart(NatToString(n), 2, '0')) == n
  {
    var d := NatToString(n);
    DecimalValueOfNatToString(n);
    if |d| < 2 { DecimalValueLeadingZeros(2 - |d|, d); }
  }

  /** A zero-padded non-negative number reads back as itself. */
  lemma PaddedValue(n: nat, width: nat)
    ensures AllDigits(PadStart(NatToString(n), width, '0'))
    ensures DecimalValue(PadStart(NatToString(n), width, '0')) == n
  {
    var d := NatToString(n);
    DecimalValueOfNatToString(n);
    if |d| < width { DecimalValueLeadingZeros(width - |d|, d); }
  }

  /** The two halves of "<a>:<b>" with a two-character `b`. */
  lemma ClockParts(a: string, b: string)
    requires |b| == 2
    ensures var r := a + ":" + b; r[..|r| - 3] == a && r[|r| - 2..] == b
  {
    var r := a + ":" + b;
    assert r[..|r| - 3] == a;
    assert r[|r| - 2..] == b;
  }

  /** Joining two non-empty runs of parts is joining each and putting the
      separator between them. */
  lemma {:induction false} JoinConcat(a: seq<string>, b: seq<string>, sep: string)
    requires a != [] && b != []
    ensures Join(a + b, sep) == Join(a, sep) + sep + Join(b, sep)
    decreases |a|
  {
    if |a| == 1 {
      assert (a + b)[1..] == b;
    } else {
      JoinConcat(a[1..], b, sep);
      assert (a + b)[1..] == a[1..] + b;
    }
  }

  /** Splitting undoes joining when no part holds the separator. */
  lemma {:induction false} SplitJoin(parts: seq<string>, sep: char)
    requires parts != []
    requires forall i :: 0 <= i < |parts| ==> sep !in parts[i]
    ensures Split(Join(parts, [sep]), sep) == parts
    decreases |parts|
  {
    if |parts| == 1 {
      SplitNoSep(parts[0], sep);
    } else {
      var rest := parts[1..];
      forall i | 0 <= i < |rest| ensures sep !in rest[i] {
        assert rest[i] == parts[i + 1];
      }
      SplitJoin(rest, sep);
      SplitCons(parts[0], sep, Join(rest, [sep]));
      assert Join(parts, [sep]) == parts[0] + [sep] + Join(rest, [sep]);
      assert parts == [parts[0]] + rest;
    }
  }

  /** Leading whitespace in front of a non-space start is all `TrimStart` drops. */
  lemma {:induction false} TrimStartSpaces(w: string, x: string, isSpace: char -> bool)
    requires forall i :: 0 <= i < |w| ==> isSpace(w[i])
    requires x == [] || !isSpace(x[0])
    ensures TrimStart(w + x, isSpace) == x
    decreases |w|
  {
    if w == [] {
      assert w + x == x;
    } else {
      TrimStartSpaces(w[1..], x, isSpace);
      assert (w + x)[1..] == w[1..] + x;
    }
  }

  /** Trailing whitespace after a non-space end is all `TrimEnd` drops. */
  lemma {:induction false} TrimEndSpaces(x: string, w: string, isSpace: char -> bool)
    requires forall i :: 0 <= i < |w| ==> isSpace(w[i])
    requires x == [] || !isSpace(x[|x| - 1])
    ensures TrimEnd(x + w, isSpace) == x
    decreases |w|
  {
    if w == [] {
      assert x + w == x;
    } else {
      TrimEndSpaces(x, w[..|w| - 1], isSpace);
      assert (x + w)[..|x + w| - 1] == x + w[..|w| - 1];
    }
  }

  /** `w` occurs in `s` at position `i`. */
  predicate OccursAt(s: string, i: int, w: string) {
    0 <= i && i + |w| <= |s| && s[i..i + |w|] == w
  }

  /** `s.indexOf(w, from)`: the first position at or after `from` where `w`
      occurs, if any. */
  function IndexOf(s: string, w: string, from: nat): (k: Option<nat>)
    ensures k.Some? ==> from <= k.value && OccursAt(s, k.value, w)
                        && forall j :: from <= j < k.value ==> !OccursAt(s, j, w)
    ensures k.None? ==> forall j :: from <= j ==> !OccursAt(s, j, w)
    decreases |s| - from
  {
    if from + |w| > |s| then None
    else if OccursAt(s, from, w) then Some(from)
    else IndexOf(s, w, from + 1)
  }

  /** `s.replace(w, rep)` with a string pattern: only the first occurrence
      is replaced. */
  function ReplaceFirst(s: string, w: string, rep: string): string {
    match IndexOf(s, w, 0)
    case None => s
    case Some(k) => s[..k] + rep + s[k + |w|..]
  }
}
