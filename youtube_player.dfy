/** The YouTube player component (frontend/components/YouTubePlayer.tsx): the
    video id it embeds, the caption it shows at a playback time, its "MM:SS"
    clock, and the handlers that report playback state and position.

    The embedded player is the `Controller` object; the calls of the
    `onTimeUpdate` and `onPlayPause` callbacks are recorded, in order, in
    `reportedTimes` and `reportedPlaying`. The polling timer is outside the
    model. */
module YouTubePlayer {
  import opened Common
  import opened Text
  import opened JsNumber
  import YouTubeService

  /** `extractVideoId`: the eleven id characters after the leftmost
      "youtube.com/watch?v=", "youtu.be/" or "youtube.com/embed/", or ''. */
  function ExtractVideoId(url: string): (r: string)
    ensures r == "" || (|r| == 11 && forall i :: 0 <= i < 11 ==> YouTubeService.IsIdChar(r[i]))
    ensures r == "" <==> forall q :: 0 <= q <= |url| ==> YouTubeService.MatchAt(YouTubeService.ShortForms, url, q).None?
  {
    match YouTubeService.Search(YouTubeService.ShortForms, url)
    case Some(id) => id
    case None => ""
  }

  /** The id is the one at the leftmost position where the pattern matches. */
  lemma ExtractAtFirstMatch(url: string, p: nat)
    requires p <= |url| && YouTubeService.MatchAt(YouTubeService.ShortForms, url, p).Some?
    requires forall q :: 0 <= q < p ==> YouTubeService.MatchAt(YouTubeService.ShortForms, url, q).None?
    ensures var g := YouTubeService.MatchAt(YouTubeService.ShortForms, url, p).value;
            ExtractVideoId(url) == url[g..g + 11]
  {
    YouTubeService.LeftmostIs(YouTubeService.ShortForms, url, p);
  }

  /** The player and the backend agree on every URL the player understands
      and that is not itself a bare id; where the player finds nothing and
      the backend's fallback pattern does not match either, the backend
      keeps the input while the player has ''. */
  lemma AgreesWithBackend(url: string)
    requires !YouTubeService.IsBareId(url)
    ensures ExtractVideoId(url) != "" ==> ExtractVideoId(url) == YouTubeService.ExtractVideoId(url)
    ensures ExtractVideoId(url) == ""
            && (forall q :: 0 <= q <= |url| ==> YouTubeService.MatchAt(YouTubeService.WatchQueryForm, url, q).None?)
            ==> YouTubeService.ExtractVideoId(url) == url
  {
    if ExtractVideoId(url) == "" {
      assert YouTubeService.Search(YouTubeService.ShortForms, url).None?;
      if forall q :: 0 <= q <= |url| ==> YouTubeService.MatchAt(YouTubeService.WatchQueryForm, url, q).None? {
        YouTubeService.NoMatchUnchanged(url);
      }
    }
  }

  /** A transcript line of a YouTube video. */
  datatype Line = Line(timestamp: real, text: string)

  predicate AtOrBefore(line: Line, t: real) {
    line.timestamp <= t
  }

  function StartedBy(t: real): Line -> bool {
    line => AtOrBefore(line, t)
  }

  /** `getCurrentSubtitle`: '' for an empty transcript; otherwise the text of
      the last line, in list order, whose timestamp is not after `t`, or ''
      when there is none. */
  function CurrentSubtitle(transcript: seq<Line>, t: real): string {
    if transcript == [] then ""
    else
      var started := Filter(transcript, StartedBy(t));
      if started == [] then "" else started[|started| - 1].text
  }

  /** The caption is the text of the last line in the list that has started,
      whatever the order of the timestamps before it. */
  lemma CurrentSubtitleIsLastStarted(transcript: seq<Line>, t: real, k: nat)
    requires k < |transcript| && transcript[k].timestamp <= t
    requires forall j :: k < j < |transcript| ==> transcript[j].timestamp > t
    ensures CurrentSubtitle(transcript, t) == transcript[k].text
  {
    var keep := StartedBy(t);
    var before, after := transcript[..k], transcript[k + 1..];
    assert transcript == before + [transcript[k]] + after;
    FilterAppend(before + [transcript[k]], after, keep);
    FilterSnoc(before, transcript[k], keep);
    FilterNone(after, keep);
  }

  /** With no line started yet, there is no caption. */
  lemma CurrentSubtitleBeforeFirst(transcript: seq<Line>, t: real)
    requires forall j :: 0 <= j < |transcript| ==> transcript[j].timestamp > t
    ensures CurrentSubtitle(transcript, t) == ""
  {
    FilterNone(transcript, StartedBy(t));
  }

  /** `formatTime`: whole minutes and the whole seconds of `seconds % 60`,
      each padded to two digits. */
  function FormatTime(seconds: real): (r: string)
    ensures |r| >= 5
  {
    Pad((seconds / 60.0).Floor, 2) + ":" + Pad(Rem(seconds, 60.0).Floor, 2)
  }

  /** For a non-negative time: at least two digits of whole minutes, ':', and
      two digits from 00 to 59 counting the whole seconds past the minute. */
  lemma FormatTimeFields(seconds: real)
    requires seconds >= 0.0
    ensures var r := FormatTime(seconds);
            var mm, ss := r[..|r| - 3], r[|r| - 2..];
            && |mm| >= 2 && AllDigits(mm) && DecimalValue(mm) == (seconds / 60.0).Floor
            && AllDigits(ss) && DecimalValue(ss) < 60
            && DecimalValue(ss) as real <= seconds - 60.0 * DecimalValue(mm) as real < DecimalValue(ss) as real + 1.0
  {
    var m := (seconds / 60.0).Floor;
    RemSixty(seconds);
    var rest := Rem(seconds, 60.0).Floor;
    TwoDigits(rest);
    PaddedValue(m, 2);
    ClockParts(PadStart(NatToString(m), 2, '0'), PadStart(NatToString(rest), 2, '0'));
  }

  /** What `handleStateChange` reports for a player state: playing for 1,
      paused for 2, nothing for any other state. */
  function PlayingReport(state: int): (r: Option<bool>)
    ensures r.Some? <==> state == 1 || state == 2
    ensures r.Some? ==> (r.value <==> state == 1)
  {
    if state == 1 then Some(true)
    else if state == 2 then Some(false)
    else None
  }

  /** The embedded player and the callbacks the component has invoked. */
  class Controller {
    /** Whether the player has signalled ready (`playerRef.current`). */
    var ready: bool
    var position: real
    /** Whether the embedded player is playing: as it last reported, or paused by a reset. */
    var playing: bool
    var reportedTimes: seq<real>
    var reportedPlaying: seq<bool>

    constructor()
      ensures !ready && position == 0.0 && !playing
      ensures reportedTimes == [] && reportedPlaying == []
    {
      ready := false;
      position := 0.0;
      playing := false;
      reportedTimes := [];
      reportedPlaying := [];
    }

    /** `handleReady`. */
    method Ready()
      modifies this
      ensures ready
      ensures position == old(position) && playing == old(playing)
      ensures reportedTimes == old(reportedTimes) && reportedPlaying == old(reportedPlaying)
    {
      ready := true;
    }

    /** `handleStateChange`: the player's own state change is passed on, and
        the player is then playing or paused as it reported. */
    method StateChange(state: int)
      modifies this
      ensures reportedPlaying == old(reportedPlaying)
                                 + (if PlayingReport(state).Some? then [PlayingReport(state).value] else [])
      ensures PlayingReport(state).Some? ==> playing == PlayingReport(state).value
      ensures PlayingReport(state).None? ==> playing == old(playing)
      ensures ready == old(ready) && position == old(position)
      ensures reportedTimes == old(reportedTimes)
    {
      var report := PlayingReport(state);
      if report.Some? {
        playing := report.value;
        reportedPlaying := reportedPlaying + [report.value];
      }
    }

    /** `seekTo`: move to `time` and report it, once the player is ready. */
    method SeekTo(time: real)
      modifies this
      ensures ready ==> position == time && reportedTimes == old(reportedTimes) + [time]
      ensures !ready ==> position == old(position) && reportedTimes == old(reportedTimes)
      ensures ready == old(ready) && playing == old(playing)
      ensures reportedPlaying == old(reportedPlaying)
    {
      if ready {
        position := time;
        reportedTimes := reportedTimes + [time];
      }
    }

    /** `resetVideo`: back to the start and paused, and both reported. */
    method Reset()
      modifies this
      ensures ready ==> position == 0.0 && !playing
                        && reportedTimes == old(reportedTimes) + [0.0]
                        && reportedPlaying == old(reportedPlaying) + [false]
      ensures !ready ==> position == old(position) && playing == old(playing)
                         && reportedTimes == old(reportedTimes) && reportedPlaying == old(reportedPlaying)
      ensures ready == old(ready)
    {
      if ready {
        position := 0.0;
        playing := false;
        reportedTimes := reportedTimes + [0.0];
        reportedPlaying := reportedPlaying + [false];
      }
    }
  }
}
