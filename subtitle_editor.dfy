/** The subtitle editor of the doctor's recording page
    (frontend/components/SubtitleEditor.tsx): the "MM:SS.cc" time fields, the
    SubRip export, and the editing state (which row is being edited and its
    draft) over the subtitle list.

    The list is a prop that the parent replaces through `onSubtitlesChange`;
    here it is a field of the editor that the handlers reassign. */
module SubtitleEditor {
  import opened Common
  import opened Text
  import opened JsNumber

  datatype Subtitle = Subtitle(start: real, end: real, text: string)

  /** `formatTime`: floored minutes, seconds within the minute and
      hundredths, each as at least two digits. */
  function FormatTime(seconds: real): (r: string)
    ensures |r| >= 8
  {
    var mins := (seconds / 60.0).Floor;
    var secs := Rem(seconds, 60.0).Floor;
    var centis := (Rem(seconds, 1.0) * 100.0).Floor;
    Pad(mins, 2) + ":" + Pad(secs, 2) + "." + Pad(centis, 2)
  }

  /** `parseTime`: "m:s.c" read as m * 60 + s + c / 100, a missing ".c"
      read as 0; any string that is not exactly two pieces around ':' is 0. */
  function ParseTime(timeStr: string): (r: Number)
    ensures |Split(timeStr, ':')| != 2 ==> r == Num(0.0)
  {
    var parts := Split(timeStr, ':');
    if |parts| == 2 then
      var secMs := Split(parts[1], '.');
      var ms := if |secMs| >= 2 then secMs[1] else "0";
      Add(Add(Scale(ParseInt(parts[0]), 60.0), ParseInt(secMs[0])), Div(ParseInt(ms), 100.0))
    else Num(0.0)
  }

  lemma NoColonInDigits(s: string)
    requires AllDigits(s)
    ensures ':' !in s && '.' !in s
  {
    forall i | 0 <= i < |s| ensures s[i] != ':' && s[i] != '.' {
      assert IsDigit(s[i]);
    }
  }

  /** Two pieces around one separator split back into those pieces. */
  lemma SplitTwo(a: string, sep: char, b: string)
    requires sep !in a && sep !in b
    ensures Split(a + [sep] + b, sep) == [a, b]
  {
    SplitCons(a, sep, b);
    SplitNoSep(b, sep);
  }

  /** "m:s.c" with decimal digits reads back as the number it shows. */
  lemma ParseTimeFields(t: string, m: string, s: string, c: string)
    requires m != [] && s != [] && c != [] && AllDigits(m) && AllDigits(s) && AllDigits(c)
    requires t == m + ":" + s + "." + c
    ensures ParseTime(t)
            == Num((DecimalValue(m) * 60 + DecimalValue(s)) as real + DecimalValue(c) as real / 100.0)
  {
    ParseTimeOfFields(t, m, s, c);
    ValueOfFields(m, s, c);
  }

  lemma ValueOfFields(m: string, s: string, c: string)
    requires m != [] && s != [] && c != [] && AllDigits(m) && AllDigits(s) && AllDigits(c)
    ensures Add(Add(Scale(ParseInt(m), 60.0), ParseInt(s)), Div(ParseInt(c), 100.0))
            == Num((DecimalValue(m) * 60 + DecimalValue(s)) as real + DecimalValue(c) as real / 100.0)
  {
    var a, b, e := DecimalValue(m), DecimalValue(s), DecimalValue(c);
    assert ParseInt(m) == Num(a as real) by { ParseIntDigits(m); }
    assert ParseInt(s) == Num(b as real) by { ParseIntDigits(s); }
    assert ParseInt(c) == Num(e as real) by { ParseIntDigits(c); }
    SumOfFields(a, b, e);
  }

  lemma ParseTimeOfFields(t: string, m: string, s: string, c: string)
    requires AllDigits(m) && AllDigits(s) && AllDigits(c)
    requires t == m + ":" + s + "." + c
    ensures ParseTime(t) == Add(Add(Scale(ParseInt(m), 60.0), ParseInt(s)), Div(ParseInt(c), 100.0))
  {
    FieldsSplit(m, s, c);
    ParseTimeOfPieces(t, m, s + "." + c, [s, c]);
  }

  lemma SumOfFields(m: nat, s: nat, c: nat)
    ensures Add(Add(Scale(Num(m as real), 60.0), Num(s as real)), Div(Num(c as real), 100.0))
            == Num((m * 60 + s) as real + c as real / 100.0)
  {
  }

  /** "m:s" with decimal digits reads as m * 60 + s: a missing ".c" counts as 0. */
  lemma ParseTimeWhole(m: string, s: string)
    requires m != [] && s != [] && AllDigits(m) && AllDigits(s)
    ensures ParseTime(m + ":" + s) == Num((DecimalValue(m) * 60 + DecimalValue(s)) as real)
  {
    NoColonInDigits(m);
    NoColonInDigits(s);
    assert m + ":" + s == m + [':'] + s;
    SplitTwo(m, ':', s);
    SplitNoSep(s, '.');
    ParseTimeOfPieces(m + ":" + s, m, s, [s]);
    ValueOfWhole(m, s);
  }

  lemma ValueOfWhole(m: string, s: string)
    requires m != [] && s != [] && AllDigits(m) && AllDigits(s)
    ensures Add(Add(Scale(ParseInt(m), 60.0), ParseInt(s)), Div(ParseInt("0"), 100.0))
            == Num((DecimalValue(m) * 60 + DecimalValue(s)) as real)
  {
    ParseIntDigits(m);
    ParseIntDigits(s);
    ParseIntZero();
    SumOfWhole(ParseInt(m), ParseInt(s), ParseInt("0"), DecimalValue(m), DecimalValue(s));
  }

  lemma SumOfWhole(pm: Number, ps: Number, pz: Number, m: nat, s: nat)
    requires pm == Num(m as real) && ps == Num(s as real) && pz == Num(0.0)
    ensures Add(Add(Scale(pm, 60.0), ps), Div(pz, 100.0)) == Num((m * 60 + s) as real)
  {
  }

  lemma ParseIntZero()
    ensures ParseInt("0") == Num(0.0)
  {
    ParseIntDigits("0");
  }

  /** The pieces of "m:s.c" around ':' and '.'. */
  lemma FieldsSplit(m: string, s: string, c: string)
    requires AllDigits(m) && AllDigits(s) && AllDigits(c)
    ensures Split(m + ":" + s + "." + c, ':') == [m, s + "." + c]
    ensures Split(s + "." + c, '.') == [s, c]
  {
    NoColonInDigits(m);
    NoColonInDigits(s);
    NoColonInDigits(c);
    var frac := s + "." + c;
    assert frac == s + ['.'] + c;
    assert ':' !in frac by {
      assert forall i :: 0 <= i < |frac| ==> frac[i] != ':' by {
        forall i | 0 <= i < |frac| ensures frac[i] != ':' {
          if i < |s| { assert frac[i] == s[i] && s[i] in s; }
          else if i > |s| { assert frac[i] == c[i - |s| - 1] && c[i - |s| - 1] in c; }
        }
      }
    }
    assert m + ":" + s + "." + c == m + [':'] + frac;
    SplitTwo(m, ':', frac);
    SplitTwo(s, '.', c);
  }

  /** `parseTime` on a string of two pieces around ':'. */
  lemma ParseTimeOfPieces(t: string, m: string, sm: string, pieces: seq<string>)
    requires Split(t, ':') == [m, sm] && Split(sm, '.') == pieces
    ensures ParseTime(t) == Add(Add(Scale(ParseInt(m), 60.0), ParseInt(pieces[0])),
                                Div(ParseInt(if |pieces| >= 2 then pieces[1] else "0"), 100.0))
  {
  }

  /** On whole hundredths of a second the fields are integer quotients and
      remainders of the hundredths count. */
  lemma FormatTimeCentis(k: nat)
    ensures FormatTime(k as real / 100.0)
            == Pad(k / 6000, 2) + ":" + Pad((k % 6000) / 100, 2) + "." + Pad(k % 100, 2)
  {
    CentisMinutes(k);
    CentisSeconds(k);
    CentisHundredths(k);
  }

  lemma CentisMinutes(k: nat)
    ensures (k as real / 100.0 / 60.0).Floor == k / 6000
  {
    RatioOfRatio(k as real, 100.0, 60.0);
    FloorOfRatio(k, 6000);
  }

  lemma CentisSeconds(k: nat)
    ensures Rem(k as real / 100.0, 60.0).Floor == (k % 6000) / 100
  {
    RemOfRatio(k, 100, 60);
    FloorOfRatio(k % 6000, 100);
  }

  lemma CentisHundredths(k: nat)
    ensures (Rem(k as real / 100.0, 1.0) * 100.0).Floor == k % 100
  {
    RemOfRatio(k, 100, 1);
  }

  /** The edit fields round-trip: parsing a formatted time of whole
      hundredths gives the time back. */
  lemma FormatParseRoundTrip(k: nat)
    ensures ParseTime(FormatTime(k as real / 100.0)) == Num(k as real / 100.0)
  {
    FormatTimeCentis(k);
    ParseCentis(FormatTime(k as real / 100.0), k);
  }

  /** The fields of a time of `k` hundredths read back as that time. */
  lemma ParseCentis(t: string, k: nat)
    requires t == Pad(k / 6000, 2) + ":" + Pad((k % 6000) / 100, 2) + "." + Pad(k % 100, 2)
    ensures ParseTime(t) == Num(k as real / 100.0)
  {
    var ma, mb, mc := Pad(k / 6000, 2), Pad((k % 6000) / 100, 2), Pad(k % 100, 2);
    PadValue(k / 6000);
    PadValue((k % 6000) / 100);
    PadValue(k % 100);
    ParseTimeFields(t, ma, mb, mc);
    CentisParsed(k, DecimalValue(ma), DecimalValue(mb), DecimalValue(mc));
  }

  /** A whole number padded to two places is digits that read back as it. */
  lemma PadValue(n: nat)
    ensures Pad(n, 2) != [] && AllDigits(Pad(n, 2)) && DecimalValue(Pad(n, 2)) == n
  {
    PaddedValue(n, 2);
  }

  lemma CentisParsed(k: nat, m: nat, s: nat, c: nat)
    requires m == k / 6000 && s == (k % 6000) / 100 && c == k % 100
    ensures Num((m * 60 + s) as real + c as real / 100.0) == Num(k as real / 100.0)
  {
    CentisSum(k);
  }

  lemma CentisSum(k: nat)
    ensures ((k / 6000) * 60 + (k % 6000) / 100) as real + (k % 100) as real / 100.0 == k as real / 100.0
  {
    ModOfMultiple(k, 100, 60);
    var r := k % 6000;
    assert r == (r / 100) * 100 + r % 100;
    assert k == 6000 * (k / 6000) + 100 * (r / 100) + k % 100;
  }

  /** `formatTimeSRT`: hours, minutes, seconds and milliseconds, as
      "HH:MM:SS,mmm". */
  function FormatTimeSrt(seconds: real): (r: string)
    ensures |r| >= 12
  {
    var hours := (seconds / 3600.0).Floor;
    var mins := (Rem(seconds, 3600.0) / 60.0).Floor;
    var secs := Rem(seconds, 60.0).Floor;
    var millis := (Rem(seconds, 1.0) * 1000.0).Floor;
    Pad(hours, 2) + ":" + Pad(mins, 2) + ":" + Pad(secs, 2) + "," + Pad(millis, 3)
  }

  /** On whole milliseconds the SubRip time shows the hours, the minutes and
      seconds within the hour and minute, and the milliseconds, and these
      add back up to the time. */
  lemma FormatTimeSrtMillis(k: nat)
    ensures var h, m, s, ms := k / 3600000, (k % 3600000) / 60000, (k % 60000) / 1000, k % 1000;
            && FormatTimeSrt(k as real / 1000.0) == Pad(h, 2) + ":" + Pad(m, 2) + ":" + Pad(s, 2) + "," + Pad(ms, 3)
            && m < 60 && s < 60 && ms < 1000
            && k == h * 3600000 + m * 60000 + s * 1000 + ms
  {
    MillisHours(k);
    MillisMinutes(k);
    MillisSeconds(k);
    MillisMillis(k);
    MillisSum(k);
  }

  lemma MillisHours(k: nat)
    ensures (k as real / 1000.0 / 3600.0).Floor == k / 3600000
  {
    RatioOfRatio(k as real, 1000.0, 3600.0);
    FloorOfRatio(k, 3600000);
  }

  lemma MillisMinutes(k: nat)
    ensures (Rem(k as real / 1000.0, 3600.0) / 60.0).Floor == (k % 3600000) / 60000
  {
    var r := k % 3600000;
    assert Rem(k as real / 1000.0, 3600.0) == r as real / 1000.0 by {
      RemOfRatio(k, 1000, 3600);
    }
    QuotientOfRatio(r, 1000, 60);
  }

  lemma MillisSeconds(k: nat)
    ensures Rem(k as real / 1000.0, 60.0).Floor == (k % 60000) / 1000
  {
    RemOfRatio(k, 1000, 60);
    FloorOfRatio(k % 60000, 1000);
  }

  lemma MillisMillis(k: nat)
    ensures (Rem(k as real / 1000.0, 1.0) * 1000.0).Floor == k % 1000
  {
    RemOfRatio(k, 1000, 1);
  }

  lemma MillisSum(k: nat)
    ensures k == (k / 3600000) * 3600000 + ((k % 3600000) / 60000) * 60000
                 + ((k % 60000) / 1000) * 1000 + k % 1000
  {
    ModOfMultiple(k, 60000, 60);
    ModOfMultiple(k, 1000, 60);
    var r := k % 3600000;
    assert r == (r / 60000) * 60000 + r % 60000;
    assert r % 60000 == k % 60000;
    var r2 := k % 60000;
    assert r2 == (r2 / 1000) * 1000 + r2 % 1000;
    assert r2 % 1000 == k % 1000;
  }

  /** One SubRip cue block: its number, the time line, the text and a blank line. */
  function SrtBlock(number: int, s: Subtitle): string {
    IntToString(number) + "\n" + FormatTimeSrt(s.start) + " --> " + FormatTimeSrt(s.end) + "\n"
    + s.text + "\n\n"
  }

  /** What `exportSRT` accumulates: the blocks of the subtitles, in list order. */
  function SrtText(subtitles: seq<Subtitle>): string {
    if subtitles == [] then ""
    else
      var n := |subtitles| - 1;
      SrtText(subtitles[..n]) + SrtBlock(n + 1, subtitles[n])
  }

  /** The blocks numbered from 1. */
  function SrtBlocks(subtitles: seq<Subtitle>): (r: seq<string>)
    ensures |r| == |subtitles|
    ensures forall i :: 0 <= i < |r| ==> r[i] == SrtBlock(i + 1, subtitles[i])
  {
    seq(|subtitles|, i requires 0 <= i < |subtitles| => SrtBlock(i + 1, subtitles[i]))
  }

  /** The export is block `i + 1` for subtitle `i`, one after another. */
  lemma {:induction false} SrtTextIsBlocks(subtitles: seq<Subtitle>)
    ensures SrtText(subtitles) == Concat(SrtBlocks(subtitles))
  {
    if subtitles != [] {
      var n := |subtitles| - 1;
      SrtTextIsBlocks(subtitles[..n]);
      assert SrtBlocks(subtitles)[..n] == SrtBlocks(subtitles[..n]);
    }
  }

  /** The edited-subtitle state: `null` (no draft), the empty object `{}`,
      or a copy of a row. */
  datatype Draft = NoDraft | EmptyObject | Copy(row: Subtitle)

  /** JavaScript truthiness of the draft: any object, `{}` included, is truthy. */
  predicate Truthy(d: Draft) {
    !d.NoDraft?
  }

  /** `handleSave`'s guard: a row index is set and the draft is truthy. */
  predicate SaveProceeds(editingIndex: Option<nat>, edited: Draft) {
    editingIndex.Some? && Truthy(edited)
  }

  /** The draft `handleEdit(i)` takes: a copy of row `i`, or, past the end of
      the list, the spread of `undefined`, which is the empty object. */
  function DraftOf(subtitles: seq<Subtitle>, i: nat): (d: Draft)
    ensures Truthy(d)
    ensures d.Copy? <==> i < |subtitles|
    ensures d.Copy? ==> d.row == subtitles[i]
  {
    if i < |subtitles| then Copy(subtitles[i]) else EmptyObject
  }

  /** The row `handleAdd` appends: it starts where the last row ends (at 0 on
      an empty list), lasts at most three seconds and never ends after the
      video. */
  function NewSubtitle(subtitles: seq<Subtitle>, videoDuration: real): (s: Subtitle)
    ensures s.start == if subtitles == [] then 0.0 else subtitles[|subtitles| - 1].end
    ensures s.end <= s.start + 3.0 && s.end <= videoDuration
    ensures s.end == s.start + 3.0 || s.end == videoDuration
    ensures s.text == "New subtitle"
  {
    var start := if subtitles == [] then 0.0 else subtitles[|subtitles| - 1].end;
    Subtitle(start, if start + 3.0 < videoDuration then start + 3.0 else videoDuration, "New subtitle")
  }

  /** `handleAdd` as written opens the editor with `handleEdit(subtitles.length)`
      read from the list before the append: the draft is the empty object,
      not the row just added, and since `{}` is truthy a later `handleSave`
      goes ahead and writes it over the new row. */
  lemma AddDraftAsWritten(subtitles: seq<Subtitle>, videoDuration: real)
    ensures var added := subtitles + [NewSubtitle(subtitles, videoDuration)];
            && DraftOf(subtitles, |subtitles|) == EmptyObject
            && SaveProceeds(Some(|subtitles|), DraftOf(subtitles, |subtitles|))
            && DraftOf(added, |subtitles|) == Copy(NewSubtitle(subtitles, videoDuration))
  {
  }

  class Editor {
    var subtitles: seq<Subtitle>
    var editingIndex: Option<nat>
    var edited: Draft
    const videoDuration: real

    /** A row is being edited exactly when the draft is a copy of a row. */
    predicate Valid()
      reads this
    {
      editingIndex.Some? <==> edited.Copy?
    }

    constructor (subtitles: seq<Subtitle>, videoDuration: real)
      ensures Valid()
      ensures this.subtitles == subtitles && this.videoDuration == videoDuration
      ensures editingIndex.None? && edited.NoDraft?
    {
      this.subtitles := subtitles;
      this.videoDuration := videoDuration;
      editingIndex := None;
      edited := NoDraft;
    }

    /** `handleEdit(i)` on a shown row: edit a copy of it. */
    method Edit(i: nat)
      requires i < |subtitles|
      modifies this
      ensures Valid()
      ensures subtitles == old(subtitles)
      ensures editingIndex == Some(i) && edited == Copy(subtitles[i])
    {
      editingIndex := Some(i);
      edited := DraftOf(subtitles, i);
    }

    /** `handleSave`: write the draft back at the edited index and leave
      editing; nothing happens when no row is being edited. */
    method Save()
      requires Valid()
      modifies this
      ensures Valid()
      ensures old(editingIndex).None? ==>
        subtitles == old(subtitles) && editingIndex == old(editingIndex) && edited == old(edited)
      ensures old(editingIndex).Some? ==>
        subtitles == Assign(old(subtitles), old(editingIndex).value, old(edited).row)
        && editingIndex.None? && edited.NoDraft?
    {
      if SaveProceeds(editingIndex, edited) {
        subtitles := Assign(subtitles, editingIndex.value, edited.row);
        editingIndex := None;
        edited := NoDraft;
      }
    }

    /** `handleCancel`: leave editing, the list untouched. */
    method Cancel()
      modifies this
      ensures Valid()
      ensures editingIndex.None? && edited.NoDraft? && subtitles == old(subtitles)
    {
      editingIndex := None;
      edited := NoDraft;
    }

    /** `handleDelete(i)`: drop row `i`. The edit state is left as it is. */
    method Delete(i: nat)
      modifies this
      ensures subtitles == RemoveAt(old(subtitles), i)
      ensures editingIndex == old(editingIndex) && edited == old(edited)
    {
      subtitles := RemoveAt(subtitles, i);
    }

    /** `handleAdd`, with the editor opened on the row just added (see
        AddDraftAsWritten for the code as written). */
    method Add()
      modifies this
      ensures Valid()
      ensures subtitles == old(subtitles) + [NewSubtitle(old(subtitles), videoDuration)]
      ensures editingIndex == Some(|old(subtitles)|)
      ensures edited == Copy(NewSubtitle(old(subtitles), videoDuration))
    {
      var added := NewSubtitle(subtitles, videoDuration);
      subtitles := subtitles + [added];
      Edit(|subtitles| - 1);
    }

    /** `exportSRT`: the file text, built block by block. */
    method Export() returns (content: string)
      ensures content == SrtText(subtitles)
    {
      content := "";
      for i := 0 to |subtitles|
        invariant content == SrtText(subtitles[..i])
      {
        assert subtitles[..i + 1][..i] == subtitles[..i];
        content := content + SrtBlock(i + 1, subtitles[i]);
      }
      assert subtitles[..|subtitles|] == subtitles;
    }
  }
}
