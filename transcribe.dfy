/** Sentence segmentation of a transcription (backend/app/api/routes/transcribe.py)
    and the replies of the transcription endpoint.

    Times are exact reals; the `round(…, 2)` applied to each boundary is not
    modelled. The Whisper call and the handling of its reply are outside the
    model: the endpoint takes their outcome, segments or a raised exception,
    as a parameter. */
module Transcribe {
  import opened Common
  import opened Text

  datatype Segment = Segment(start: real, end: real, text: string)

  /** Position `i` of `s` is where `re.split(r'(?<=[.!?])\s+', s)` can cut:
      it is preceded by sentence punctuation and starts a whitespace run. */
  predicate IsBreak(s: string, i: int) {
    1 <= i < |s| && s[i - 1] in ".!?" && IsPySpace(s[i])
  }

  /** The first break at or after `i`, or |s|. */
  function NextBreak(s: string, i: nat): (k: nat)
    requires i <= |s|
    ensures i <= k <= |s|
    ensures k < |s| ==> IsBreak(s, k)
    ensures forall j :: i <= j < k ==> !IsBreak(s, j)
    decreases |s| - i
  {
    if i == |s| || IsBreak(s, i) then i else NextBreak(s, i + 1)
  }

  /** The end of the whitespace run that starts at `i` (`\s+` is greedy). */
  function SpaceRunEnd(s: string, i: nat): (j: nat)
    requires i <= |s|
    ensures i <= j <= |s|
    ensures forall k :: i <= k < j ==> IsPySpace(s[k])
    ensures j < |s| ==> !IsPySpace(s[j])
    decreases |s| - i
  {
    if i < |s| && IsPySpace(s[i]) then SpaceRunEnd(s, i + 1) else i
  }

  /** `re.split(r'(?<=[.!?])\s+', s)`: the pieces between the breaks, each
      break's whitespace run removed. Every piece but the last ends with
      sentence punctuation, and no piece contains a break of its own. */
  function Sentences(s: string): (r: seq<string>)
    ensures |r| >= 1
    ensures forall i :: 0 <= i < |r| - 1 ==> r[i] != [] && r[i][|r[i]| - 1] in ".!?"
    ensures forall i, j :: 0 <= i < |r| && 0 <= j < |r[i]| ==> !IsBreak(r[i], j)
    ensures s == [] ==> r == [[]]
    decreases |s|
  {
    var k := NextBreak(s, 0);
    if k == |s| then [s]
    else
      var rest := s[SpaceRunEnd(s, k)..];
      assert forall j :: 0 <= j < k ==> !IsBreak(s[..k], j) by {
        forall j | 0 <= j < k ensures !IsBreak(s[..k], j) {
          assert !IsBreak(s, j);
        }
      }
      [s[..k]] + Sentences(rest)
  }

  /** The whitespace runs `re.split(r'(?<=[.!?])\s+', s)` removes, one per
      break, in order: each is non-empty and all whitespace. */
  function Gaps(s: string): (w: seq<string>)
    ensures forall i :: 0 <= i < |w| ==> w[i] != []
    ensures forall i, j :: 0 <= i < |w| && 0 <= j < |w[i]| ==> IsPySpace(w[i][j])
    decreases |s|
  {
    var k := NextBreak(s, 0);
    if k == |s| then []
    else
      var e := SpaceRunEnd(s, k);
      [s[k..e]] + Gaps(s[e..])
  }

  /** `pieces[0] + gaps[0] + pieces[1] + … + pieces[|pieces| - 1]`. */
  function Interleave(pieces: seq<string>, gaps: seq<string>): string
    requires |pieces| == |gaps| + 1
    decreases |gaps|
  {
    if gaps == [] then pieces[0] else pieces[0] + gaps[0] + Interleave(pieces[1..], gaps[1..])
  }

  /** The sentences are pieces of the text: putting the removed whitespace
      runs back between them rebuilds it exactly. */
  lemma {:induction false} SentencesRebuild(s: string)
    ensures |Gaps(s)| == |Sentences(s)| - 1
    ensures Interleave(Sentences(s), Gaps(s)) == s
    decreases |s|
  {
    var k := NextBreak(s, 0);
    if k < |s| {
      var e := SpaceRunEnd(s, k);
      var rest := s[e..];
      SentencesRebuild(rest);
      InterleaveCons(s[..k], Sentences(rest), s[k..e], Gaps(rest));
      ThreeParts(s, k, e);
    }
  }

  lemma InterleaveCons(p: string, ps: seq<string>, g: string, gs: seq<string>)
    requires |ps| == |gs| + 1
    ensures Interleave([p] + ps, [g] + gs) == p + g + Interleave(ps, gs)
  {
    assert ([p] + ps)[1..] == ps && ([g] + gs)[1..] == gs;
  }

  lemma ThreeParts(s: string, k: nat, e: nat)
    requires k <= e <= |s|
    ensures s[..k] + s[k..e] + s[e..] == s
  {
  }

  /** `len(s.split())`: the number of maximal runs of non-whitespace characters. */
  function WordCount(s: string): (n: nat)
    ensures n <= |s|
    ensures n == 0 <==> forall i :: 0 <= i < |s| ==> IsPySpace(s[i])
  {
    if s == [] then 0
    else
      var last := |s| - 1;
      var starts := !IsPySpace(s[last]) && (last == 0 || IsPySpace(s[last - 1]));
      WordCount(s[..last]) + if starts then 1 else 0
  }

  /** The duration spread over the sentences: the one given, or the reading
      time of the text at 150 words per minute. */
  function TotalDuration(text: string, duration: Option<real>): real {
    if duration.Some? then duration.value else (WordCount(text) as real / 150.0) * 60.0
  }

  /** The pieces that are not blank once `strip` is applied, stripped, in
      their original order. */
  function Kept(pieces: seq<string>, strip: string -> string): (r: seq<string>)
    ensures |r| <= |pieces|
  {
    if pieces == [] then []
    else
      var n := |pieces| - 1;
      var t := strip(pieces[n]);
      Kept(pieces[..n], strip) + if t != [] then [t] else []
  }

  /** No kept text is blank. */
  lemma {:induction false} KeptNonEmpty(pieces: seq<string>, strip: string -> string)
    ensures forall i :: 0 <= i < |Kept(pieces, strip)| ==> Kept(pieces, strip)[i] != []
  {
    if pieces != [] {
      var n := |pieces| - 1;
      KeptNonEmpty(pieces[..n], strip);
    }
  }

  lemma KeptSnoc(pieces: seq<string>, p: string, strip: string -> string)
    ensures Kept(pieces + [p], strip) == Kept(pieces, strip) + if strip(p) != [] then [strip(p)] else []
  {
    assert (pieces + [p])[..|pieces|] == pieces;
  }

  /** The length of every slot: the duration divided by the number of pieces,
      blank ones included. */
  function SlotLength(text: string, duration: Option<real>): real {
    TotalDuration(text, duration) / (|Sentences(PyStrip(text))| as real)
  }

  /** Where slot `k` starts: `k` slots after 0. */
  function SlotStart(k: nat, slot: real): real {
    if k == 0 then 0.0 else SlotStart(k - 1, slot) + slot
  }

  lemma {:induction false} SlotStartIsProduct(k: nat, slot: real)
    ensures SlotStart(k, slot) == (k as real) * slot
  {
    if k > 0 {
      SlotStartIsProduct(k - 1, slot);
    }
  }

  /** Segment `i` occupies slot `i`: the segments are `slot` long and back to back from 0. */
  predicate BackToBack(segments: seq<Segment>, slot: real) {
    forall i :: 0 <= i < |segments| ==>
      segments[i].start == SlotStart(i, slot) && segments[i].end == segments[i].start + slot
  }

  /** Back-to-back segments start at 0, each starts where the previous one
      ends, and segment `i` starts at i * slot. */
  lemma BackToBackTimes(segments: seq<Segment>, slot: real)
    requires BackToBack(segments, slot)
    ensures |segments| > 0 ==> segments[0].start == 0.0
    ensures forall i :: 0 < i < |segments| ==> segments[i].start == segments[i - 1].end
    ensures forall i :: 0 <= i < |segments| ==> segments[i].start == (i as real) * slot
  {
    forall i | 0 <= i < |segments| ensures segments[i].start == (i as real) * slot {
      SlotStartIsProduct(i, slot);
    }
  }

  /** `parse_transcription_to_segments`: one segment per non-blank piece, in
      order, each one slot long, the first starting at 0 and each next one
      starting where the previous one ends. */
  method ParseTranscriptionToSegments(text: string, duration: Option<real>) returns (segments: seq<Segment>)
    ensures |segments| == |Kept(Sentences(PyStrip(text)), PyStrip)| <= |Sentences(PyStrip(text))|
    ensures forall i :: 0 <= i < |segments| ==> segments[i].text == Kept(Sentences(PyStrip(text)), PyStrip)[i]
    ensures BackToBack(segments, SlotLength(text, duration))
  {
    var sentences := Sentences(PyStrip(text));
    var totalDuration := if duration.None? then (WordCount(text) as real / 150.0) * 60.0 else duration.value;
    var timePerSentence := totalDuration / (|sentences| as real);
    segments := LaySegments(sentences, timePerSentence, PyStrip);
  }

  /** The loop of `parse_transcription_to_segments`: walk the pieces, strip
      each (`strip` is `str.strip`), and give every non-blank one the next slot. */
  method LaySegments(sentences: seq<string>, timePerSentence: real, strip: string -> string)
    returns (segments: seq<Segment>)
    ensures Texts(segments) == Kept(sentences, strip)
    ensures BackToBack(segments, timePerSentence)
  {
    segments := [];
    var currentTime := 0.0;
    for i := 0 to |sentences|
      invariant Texts(segments) == Kept(sentences[..i], strip)
      invariant BackToBack(segments, timePerSentence)
      invariant currentTime == SlotStart(|segments|, timePerSentence)
    {
      var sentence := strip(sentences[i]);
      KeptStep(sentences, i, strip);
      if sentence != [] {
        var endTime := currentTime + timePerSentence;
        var segment := Segment(currentTime, endTime, sentence);
        NextSlot(segments, timePerSentence, currentTime, sentence);
        TextsSnoc(segments, segment);
        segments := segments + [segment];
        currentTime := endTime;
      }
    }
    assert sentences[..|sentences|] == sentences;
  }

  /** The texts of the segments, in order. */
  function Texts(segments: seq<Segment>): seq<string> {
    seq(|segments|, i requires 0 <= i < |segments| => segments[i].text)
  }

  lemma TextsSnoc(segments: seq<Segment>, segment: Segment)
    ensures Texts(segments + [segment]) == Texts(segments) + [segment.text]
  {
    assert |Texts(segments + [segment])| == |Texts(segments) + [segment.text]|;
  }

  lemma KeptStep(pieces: seq<string>, i: nat, strip: string -> string)
    requires i < |pieces|
    ensures strip(pieces[i]) != [] ==>
              Kept(pieces[..i + 1], strip) == Kept(pieces[..i], strip) + [strip(pieces[i])]
    ensures strip(pieces[i]) == [] ==> Kept(pieces[..i + 1], strip) == Kept(pieces[..i], strip)
  {
    assert pieces[..i + 1] == pieces[..i] + [pieces[i]];
    KeptSnoc(pieces[..i], pieces[i], strip);
    assert Kept(pieces[..i], strip) + [] == Kept(pieces[..i], strip);
  }

  /** A segment in the next slot keeps the segments back to back. */
  lemma NextSlot(segments: seq<Segment>, slot: real, start: real, text: string)
    requires BackToBack(segments, slot) && start == SlotStart(|segments|, slot)
    ensures BackToBack(segments + [Segment(start, start + slot, text)], slot)
    ensures start + slot == SlotStart(|segments| + 1, slot)
  {
  }

  /** Text that is empty or all whitespace yields no segments. */
  lemma BlankTextNoSegments(text: string)
    requires forall i :: 0 <= i < |text| ==> IsPySpace(text[i])
    ensures Kept(Sentences(PyStrip(text)), PyStrip) == []
  {
    TrimEmpty(text, IsPySpace);
    assert Sentences(PyStrip(text)) == [[]];
    assert PyStrip([]) == [];
  }

  /** With no duration given, a text of `n` words is spread over n * 0.4 seconds. */
  lemma DefaultDuration(text: string)
    ensures TotalDuration(text, None) == (WordCount(text) as real) * 0.4
  {
  }

  /** What the transcription step does with a non-empty upload: the segments
      of its reply, or the message of the exception it raised. */
  datatype ServiceOutcome = Transcribed(segments: seq<Segment>) | Raised(message: string)

  /** The reply of `transcribe_audio`: its transcription and the optional
      `warning` and `status` fields. */
  datatype TranscribeReply = TranscribeReply(transcription: seq<Segment>, warning: Option<string>,
                                             status: Option<string>)

  const MockTranscription := [
    Segment(0.0, 3.0, "Hello, this is your doctor speaking."),
    Segment(3.0, 6.0, "Today we'll practice a memory exercise."),
    Segment(6.0, 9.0, "Please follow along carefully.")]

  const EmptyRecording := [Segment(0.0, 3.0, "Recording was empty. Please try again.")]

  const FallbackTranscription := [
    Segment(0.0, 3.0, "Hello, this is Dr. Smith speaking."),
    Segment(3.0, 6.5, "Today we'll practice a memory exercise together."),
    Segment(6.5, 10.0, "Please watch carefully and follow along."),
    Segment(10.0, 13.0, "First, look at these three objects."),
    Segment(13.0, 16.0, "Try to remember them in order."),
    Segment(16.0, 19.0, "We'll review them at the end."),
    Segment(19.0, 22.0, "Take your time and don't feel rushed.")]

  /** Each segment starts where the previous one ends, the first at 0. */
  predicate Contiguous(segments: seq<Segment>) {
    (|segments| > 0 ==> segments[0].start == 0.0)
    && forall i :: 0 < i < |segments| ==> segments[i].start == segments[i - 1].end
  }

  /** `transcribe_audio`: mock data without a client, the "Recording was
      empty" reply for an empty upload, otherwise the transcription step's
      segments, or the fallback reply when that step raised. */
  function TranscribeAudio(clientAvailable: bool, content: seq<bv8>,
                           service: seq<bv8> -> ServiceOutcome): (r: TranscribeReply)
    ensures !clientAvailable ==>
      r.warning.Some? && r.status.None? && |r.transcription| == 3 && BackToBack(r.transcription, 3.0)
    ensures clientAvailable && content == [] ==>
      r.warning == Some("Empty audio file received") && r.status.None? && |r.transcription| == 1
      && r.transcription[0].text == "Recording was empty. Please try again."
    ensures r.status == Some("fallback") <==>
      clientAvailable && content != [] && service(content).Raised?
    ensures r.status == Some("fallback") ==>
      r.warning == Some("Using fallback transcription. Error: " + service(content).message)
      && |r.transcription| == 7 && Contiguous(r.transcription)
    ensures r.warning.None? <==> clientAvailable && content != [] && service(content).Transcribed?
    ensures r.warning.None? ==>
      r.status == Some("success") && r.transcription == service(content).segments
  {
    assert SlotStart(1, 3.0) == 3.0 && SlotStart(2, 3.0) == 6.0;
    if !clientAvailable then
      TranscribeReply(MockTranscription, Some("Groq API key not configured. Using mock data."), None)
    else if |content| == 0 then
      TranscribeReply(EmptyRecording, Some("Empty audio file received"), None)
    else
      match service(content)
      case Transcribed(segments) => TranscribeReply(segments, None, Some("success"))
      case Raised(message) =>
        TranscribeReply(FallbackTranscription, Some("Using fallback transcription. Error: " + message),
                        Some("fallback"))
  }

  /** An empty upload is answered without the service: the reply is the same
      whatever the service would have said. */
  lemma EmptyUploadSkipsService(clientAvailable: bool, s1: seq<bv8> -> ServiceOutcome,
                                s2: seq<bv8> -> ServiceOutcome)
    ensures TranscribeAudio(clientAvailable, [], s1) == TranscribeAudio(clientAvailable, [], s2)
    ensures |TranscribeAudio(clientAvailable, [], s1).transcription| >= 1
  {
  }
}
