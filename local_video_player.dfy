/** The local video player (frontend/components/LocalVideoPlayer.tsx): which
    caption the overlay shows at a playback time, which transcript row is
    highlighted, the "m:ss" clock, the prefixing of backend video URLs, and
    the seek, restart and transcript-click handlers.

    The `<video>` element is the `Player` object: its `currentTime` is the
    `position` field, and every call of the `onTimeUpdate` callback is
    recorded, in order, in `reported`. */
module LocalVideoPlayer {
  import opened Common
  import opened Text
  import opened JsNumber
  import VideoRoutes

  /** A transcript line as the player receives it: backend subtitles carry
      `start` and `end`, other transcripts only a `timestamp`. */
  datatype TranscriptItem = TranscriptItem(
    timestamp: Option<real>,
    start: Option<real>,
    end: Option<real>,
    text: string)

  /** `item.start ?? item.timestamp ?? 0`. */
  function StartOf(item: TranscriptItem): real {
    if item.start.Some? then item.start.value
    else if item.timestamp.Some? then item.timestamp.value
    else 0.0
  }

  /** `item.end ?? start + 3`: a line without an end lasts three seconds. */
  function EndOf(item: TranscriptItem): real {
    if item.end.Some? then item.end.value else StartOf(item) + 3.0
  }

  /** The overlay's test: the time lies in the closed interval of the line. */
  predicate Shows(item: TranscriptItem, t: real) {
    StartOf(item) <= t <= EndOf(item)
  }

  /** The transcript list's test: the time lies in the half-open interval. */
  predicate IsActive(item: TranscriptItem, t: real) {
    StartOf(item) <= t < EndOf(item)
  }

  /** `transcript.find(...)`: the position of the first line showing at `t`. */
  function FindShowing(transcript: seq<TranscriptItem>, t: real): (k: Option<nat>)
    ensures k.Some? ==> k.value < |transcript| && Shows(transcript[k.value], t)
                        && forall j :: 0 <= j < k.value ==> !Shows(transcript[j], t)
    ensures k.None? ==> forall j :: 0 <= j < |transcript| ==> !Shows(transcript[j], t)
  {
    if transcript == [] then None
    else if Shows(transcript[0], t) then Some(0)
    else match FindShowing(transcript[1..], t)
      case None => None
      case Some(k) => Some(k + 1)
  }

  /** The overlay text at `t`: the text of the first line whose interval
      contains `t`, or '' when there is none. */
  function CaptionAt(transcript: seq<TranscriptItem>, t: real): (r: string)
    ensures (forall j :: 0 <= j < |transcript| ==> !Shows(transcript[j], t)) ==> r == ""
    ensures forall k :: 0 <= k < |transcript| && Shows(transcript[k], t)
                        && (forall j :: 0 <= j < k ==> !Shows(transcript[j], t))
                        ==> r == transcript[k].text
  {
    match FindShowing(transcript, t)
    case None => ""
    case Some(k) => transcript[k].text
  }

  /** A highlighted line is also one the overlay may show; the two tests
      differ only at the very end of a line's interval. */
  lemma HighlightWithinOverlay(item: TranscriptItem, t: real)
    ensures IsActive(item, t) ==> Shows(item, t)
    ensures Shows(item, t) && !IsActive(item, t) <==> StartOf(item) <= t && t == EndOf(item)
  {
  }

  /** At the boundary between two back-to-back lines the overlay still shows
      the first line while the list already highlights the second. */
  lemma BoundaryShowsEarlierLine(a: TranscriptItem, b: TranscriptItem)
    requires a.end.Some? && StartOf(a) <= a.end.value
    requires StartOf(b) == a.end.value < EndOf(b)
    ensures CaptionAt([a, b], a.end.value) == a.text
    ensures !IsActive(a, a.end.value) && IsActive(b, a.end.value)
  {
    assert Shows([a, b][0], a.end.value);
  }

  /** `formatTime`: whole minutes without padding, ':', and the whole seconds
      of `seconds % 60` padded to two digits. */
  function FormatTime(seconds: real): (r: string)
    ensures |r| >= 4
  {
    IntToString((seconds / 60.0).Floor) + ":" + Pad(Rem(seconds, 60.0).Floor, 2)
  }

  /** For a non-negative time the minutes are the decimal digits of the whole
      minutes, with no leading zero, and the seconds are two digits from 00 to
      59 that count the whole seconds past the minute. */
  lemma FormatTimeFields(seconds: real)
    requires seconds >= 0.0
    ensures var r := FormatTime(seconds);
            var mm, ss := r[..|r| - 3], r[|r| - 2..];
            && mm == NatToString((seconds / 60.0).Floor)
            && AllDigits(mm) && (|mm| > 1 ==> mm[0] != '0')
            && DecimalValue(mm) == (seconds / 60.0).Floor
            && AllDigits(ss) && DecimalValue(ss) < 60
            && DecimalValue(ss) as real <= seconds - 60.0 * DecimalValue(mm) as real < DecimalValue(ss) as real + 1.0
  {
    var m := (seconds / 60.0).Floor;
    RemSixty(seconds);
    var rest := Rem(seconds, 60.0).Floor;
    TwoDigits(rest);
    DecimalValueOfNatToString(m);
    ClockParts(NatToString(m), PadStart(NatToString(rest), 2, '0'));
  }

  const LocalPrefix := "/api/videos/"
  const BackendOrigin := "http://localhost:8000"

  /** `fullVideoUrl`: a backend path gets the backend's origin in front;
      every other URL is used as given. */
  function FullVideoUrl(url: string): (r: string)
    ensures EndsWith(r, url)
    ensures StartsWith(url, LocalPrefix) ==> r == BackendOrigin + url
    ensures !StartsWith(url, LocalPrefix) ==> r == url
  {
    if StartsWith(url, LocalPrefix) then BackendOrigin + url else url
  }

  /** Prefixing twice is prefixing once: a full URL is never prefixed again. */
  lemma FullVideoUrlIdempotent(url: string)
    ensures FullVideoUrl(FullVideoUrl(url)) == FullVideoUrl(url)
  {
    var r := FullVideoUrl(url);
    if StartsWith(url, LocalPrefix) {
      assert r[0] == 'h';
      assert !StartsWith(r, LocalPrefix);
    }
  }

  /** The stream URL the backend lists for a video is a backend path, so the
      player loads it from the backend's origin. */
  lemma StreamUrlIsLocal(id: string)
    ensures FullVideoUrl(VideoRoutes.StreamPrefix + id) == BackendOrigin + VideoRoutes.StreamPrefix + id
  {
    var u := VideoRoutes.StreamPrefix + id;
    assert u[..|LocalPrefix|] == LocalPrefix;
  }

  /** The video element and the callbacks the player has invoked. */
  class Player {
    const transcript: seq<TranscriptItem>
    /** Whether the `<video>` element is mounted (`videoRef.current`). */
    const attached: bool
    var position: real
    var reported: seq<real>
    var subtitle: string

    constructor(transcript: seq<TranscriptItem>, attached: bool)
      ensures this.transcript == transcript && this.attached == attached
      ensures position == 0.0 && reported == [] && subtitle == ""
    {
      this.transcript := transcript;
      this.attached := attached;
      position := 0.0;
      reported := [];
      subtitle := "";
    }

    /** `handleTimeUpdate`: playback has reached `now`; report it and show
        the caption for it. */
    method TimeUpdate(now: real)
      requires attached
      modifies this
      ensures position == now && reported == old(reported) + [now]
      ensures subtitle == CaptionAt(transcript, now)
    {
      position := now;
      reported := reported + [now];
      subtitle := CaptionAt(transcript, now);
    }

    /** Move the element to `time` and report it, when the element exists. */
    method SeekTo(time: real)
      modifies this
      ensures attached ==> position == time && reported == old(reported) + [time]
      ensures !attached ==> position == old(position) && reported == old(reported)
      ensures subtitle == old(subtitle)
    {
      if attached {
        position := time;
        reported := reported + [time];
      }
    }

    /** `handleSeek`: the slider's value. */
    method Seek(value: seq<real>)
      requires |value| >= 1
      modifies this
      ensures attached ==> position == value[0] && reported == old(reported) + [value[0]]
      ensures !attached ==> position == old(position) && reported == old(reported)
      ensures subtitle == old(subtitle)
    {
      SeekTo(value[0]);
    }

    /** `handleRestart`: back to the start. */
    method Restart()
      modifies this
      ensures attached ==> position == 0.0 && reported == old(reported) + [0.0]
      ensures !attached ==> position == old(position) && reported == old(reported)
      ensures subtitle == old(subtitle)
    {
      SeekTo(0.0);
    }

    /** `handleTranscriptClick`: to the start of the clicked line. */
    method TranscriptClick(item: TranscriptItem)
      modifies this
      ensures attached ==> position == StartOf(item) && reported == old(reported) + [StartOf(item)]
      ensures !attached ==> position == old(position) && reported == old(reported)
      ensures subtitle == old(subtitle)
    {
      SeekTo(StartOf(item));
    }
  }
}
