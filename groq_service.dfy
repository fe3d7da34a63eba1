/** The deterministic part of the chat assistant
    (backend/app/services/groq_service.py): defaulting of the playback
    position and duration, the split of a transcript into the watched and the
    upcoming part, `_format_time`, and the fallback for an empty completion.

    The chat completion itself is outside the model: it is a parameter that
    maps the prompt inputs to the completion's content, or None. */
module GroqService {
  import opened Common
  import opened Text
  import opened ChatModels

  const Apology := "I apologize, but I couldn't generate a response. Please try again."

  /** A missing playback position is the start of the video. */
  function CurrentTime(t: Option<real>): (r: real)
    ensures t.Some? ==> r == t.value
    ensures t.None? ==> r == 0.0
  {
    if t.None? then 0.0 else t.value
  }

  /** A missing or zero duration becomes two minutes; the result is never zero. */
  function VideoDuration(d: Option<real>): (r: real)
    ensures r != 0.0
    ensures d.Some? && d.value != 0.0 ==> r == d.value
    ensures d.None? || d.value == 0.0 ==> r == 120.0
  {
    if d.None? || d.value == 0.0 then 120.0 else d.value
  }

  /** The item has a timestamp and it is not after `t`. */
  predicate IsWatched(item: TranscriptItem, t: real) {
    item.timestamp.Some? && item.timestamp.value <= t
  }

  /** The item has a timestamp and it is after `t`. */
  predicate IsUpcoming(item: TranscriptItem, t: real) {
    item.timestamp.Some? && item.timestamp.value > t
  }

  predicate IsTimed(item: TranscriptItem) {
    item.timestamp.Some?
  }

  function WatchedAt(t: real): TranscriptItem -> bool {
    item => IsWatched(item, t)
  }

  function UpcomingAt(t: real): TranscriptItem -> bool {
    item => IsUpcoming(item, t)
  }

  /** `watched_transcript`, in transcript order. */
  function Watched(transcript: seq<TranscriptItem>, t: real): seq<TranscriptItem> {
    Filter(transcript, WatchedAt(t))
  }

  /** `unwatched_transcript`, in transcript order. */
  function Upcoming(transcript: seq<TranscriptItem>, t: real): seq<TranscriptItem> {
    Filter(transcript, UpcomingAt(t))
  }

  /** The items that carry a timestamp, in transcript order. */
  function Timed(transcript: seq<TranscriptItem>): seq<TranscriptItem> {
    Filter(transcript, IsTimed)
  }

  /** The watched part holds exactly the items timestamped at or before `t`,
      the upcoming part exactly those after `t`; the parts share no item, and
      together they hold every timestamped item as often as the transcript
      does, so their lengths add up to the number of timestamped items. */
  lemma WatchedUpcomingPartition(transcript: seq<TranscriptItem>, t: real)
    ensures forall x :: x in Watched(transcript, t) <==> x in transcript && IsWatched(x, t)
    ensures forall x :: x in Upcoming(transcript, t) <==> x in transcript && IsUpcoming(x, t)
    ensures forall x :: !(x in Watched(transcript, t) && x in Upcoming(transcript, t))
    ensures multiset(Watched(transcript, t)) + multiset(Upcoming(transcript, t))
            == multiset(Timed(transcript))
    ensures |Watched(transcript, t)| + |Upcoming(transcript, t)| == |Timed(transcript)|
  {
    var w, u := Watched(transcript, t), Upcoming(transcript, t);
    forall x ensures x in w <==> x in transcript && IsWatched(x, t) {
      FilterMembership(transcript, WatchedAt(t), x);
    }
    forall x ensures x in u <==> x in transcript && IsUpcoming(x, t) {
      FilterMembership(transcript, UpcomingAt(t), x);
    }
    forall x ensures (multiset(w) + multiset(u))[x] == multiset(Timed(transcript))[x] {
      FilterCount(transcript, WatchedAt(t), x);
      FilterCount(transcript, UpcomingAt(t), x);
      FilterCount(transcript, IsTimed, x);
    }
    assert multiset(w) + multiset(u) == multiset(Timed(transcript));
    assert |multiset(w) + multiset(u)| == |multiset(Timed(transcript))|;
  }

  /** `_format_time`: Python `//` and `%` on a float floor, so the remainder
      lies in [0, 60); `int` then truncates toward zero. */
  function FloorDiv60(s: real): int {
    (s / 60.0).Floor
  }

  function Mod60(s: real): (m: real)
    ensures 0.0 <= m < 60.0
  {
    s - 60.0 * (FloorDiv60(s) as real)
  }

  function FormatTime(seconds: Option<real>): (r: string)
    ensures |r| >= 5 && r[|r| - 3] == ':'
  {
    if seconds.None? then "00:00"
    else
      var minutes := Trunc(FloorDiv60(seconds.value) as real);
      var rest := Trunc(Mod60(seconds.value));
      TwoDigits(rest);
      PyZeroPad(minutes, 2) + ":" + PyZeroPad(rest, 2)
  }

  /** For a non-negative time the text is the whole minutes, zero-padded to at
      least two digits, a ':', and the whole seconds past the minute as two
      digits: both parts read back as those numbers. */
  lemma FormatTimeFields(s: real)
    requires s >= 0.0
    ensures var r := FormatTime(Some(s));
            var mm, ss := r[..|r| - 3], r[|r| - 2..];
            && |mm| >= 2 && AllDigits(mm) && AllDigits(ss)
            && DecimalValue(mm) as real <= s / 60.0 < DecimalValue(mm) as real + 1.0
            && DecimalValue(ss) < 60
            && DecimalValue(ss) as real <= s - 60.0 * DecimalValue(mm) as real < DecimalValue(ss) as real + 1.0
  {
    var m := FloorDiv60(s);
    var rest := Mod60(s).Floor;
    assert m >= 0 && Trunc(m as real) == m;
    TwoDigits(rest);
    PaddedValue(m, 2);
    ClockParts(PadStart(NatToString(m), 2, '0'), PadStart(NatToString(rest), 2, '0'));
  }

  /** A missing position formats as "00:00". */
  lemma FormatTimeMissing()
    ensures FormatTime(None) == "00:00"
  {
  }

  /** What the prompt is built from. */
  datatype PromptInputs = PromptInputs(
    message: string,
    currentTime: real,
    duration: real,
    watched: seq<TranscriptItem>,
    upcoming: seq<TranscriptItem>,
    full: seq<TranscriptItem>)

  /** The inputs of the prompt: the defaulted position and duration, the
      watched and upcoming parts split at that position, and the full
      transcript. */
  function Prompt(message: string, transcript: seq<TranscriptItem>,
                  currentTime: Option<real>, duration: Option<real>): (p: PromptInputs)
    ensures p.duration != 0.0
    ensures duration.Some? && duration.value != 0.0 ==> p.duration == duration.value
    ensures duration.None? || duration.value == 0.0 ==> p.duration == 120.0
    ensures p.full == transcript && p.message == message
    ensures p.currentTime == if currentTime.None? then 0.0 else currentTime.value
    ensures p.watched == Watched(transcript, p.currentTime)
    ensures p.upcoming == Upcoming(transcript, p.currentTime)
    ensures forall x :: x in p.watched ==> x in transcript && IsWatched(x, p.currentTime)
    ensures forall x :: x in p.upcoming ==> x in transcript && IsUpcoming(x, p.currentTime)
  {
    var t := CurrentTime(currentTime);
    WatchedUpcomingPartition(transcript, t);
    PromptInputs(message, t, VideoDuration(duration),
                 Watched(transcript, t), Upcoming(transcript, t), transcript)
  }

  /** `generate_response`: ask the completion for the prompt, and answer with
      its content unless that is missing or empty, in which case the answer is
      the apology. The answer is never empty. */
  function GenerateResponse(message: string, transcript: seq<TranscriptItem>,
                            currentTime: Option<real>, duration: Option<real>,
                            complete: PromptInputs -> Option<string>): (r: string)
    ensures r != []
    ensures var c := complete(Prompt(message, transcript, currentTime, duration));
            (r == Apology || (c.Some? && r == c.value))
            && (c.None? || c.value == [] ==> r == Apology)
  {
    var content := complete(Prompt(message, transcript, currentTime, duration));
    if content.Some? && content.value != [] then content.value else Apology
  }
}
