/** The YouTube helpers of the backend (backend/app/services/youtube_service.py):
    video-id extraction, the normalisation of fetched transcript entries, and
    the fallback video information.

    The three regular expressions of `extract_video_id` are specified by
    position: a pattern "matches at p" when the text from p on has the
    required shape, and `re.search` reports the leftmost such p. The
    transcript and video-information services are outside the model. */
module YouTubeService {
  import opened Common
  import opened Text
  import opened ChatModels

  /** The class `[a-zA-Z0-9_-]`. */
  predicate IsIdChar(c: char) {
    ('a' <= c <= 'z') || ('A' <= c <= 'Z') || ('0' <= c <= '9') || c == '_' || c == '-'
  }

  /** Eleven id characters start at `i`. */
  predicate IdRunAt(s: string, i: int) {
    0 <= i && i + 11 <= |s| && forall k :: i <= k < i + 11 ==> IsIdChar(s[k])
  }

  /** `re.match(r'^[a-zA-Z0-9_-]{11}$', s)`; Python's `$` also matches just
      before a final newline. */
  predicate IsBareId(s: string) {
    IdRunAt(s, 0) && (|s| == 11 || (|s| == 12 && s[11] == '\n'))
  }

  const WatchV := "youtube.com/watch?v="
  const ShortLink := "youtu.be/"
  const EmbedLink := "youtube.com/embed/"
  const WatchQuery := "youtube.com/watch?"
  const AmpV := "&v="

  /** The first newline at or after `i`, or |s|: how far `.*` can reach. */
  function LineEnd(s: string, i: nat): (e: nat)
    requires i <= |s|
    ensures i <= e <= |s|
    ensures forall k :: i <= k < e ==> s[k] != '\n'
    ensures e < |s| ==> s[e] == '\n'
    decreases |s| - i
  {
    if i == |s| || s[i] == '\n' then i else LineEnd(s, i + 1)
  }

  /** "&v=" followed by eleven id characters at `q`. */
  predicate AmpVAt(s: string, q: int) {
    OccursAt(s, q, AmpV) && IdRunAt(s, q + 3)
  }

  /** The rightmost `q` with lo <= q <= hi where "&v=" and an id start; this is
      where the greedy `.*` stops. */
  function LastAmpV(s: string, lo: nat, hi: int): (q: Option<nat>)
    ensures q.Some? ==> lo <= q.value <= hi && AmpVAt(s, q.value)
                        && forall t :: q.value < t <= hi ==> !AmpVAt(s, t)
    ensures q.None? ==> forall t :: lo <= t <= hi ==> !AmpVAt(s, t)
    decreases if hi < lo then 0 else hi - lo + 1
  {
    if hi < lo then None
    else if AmpVAt(s, hi) then Some(hi)
    else LastAmpV(s, lo, hi - 1)
  }

  datatype Pattern = ShortForms | WatchQueryForm

  /** Where the captured id starts when `pat` matches at position `p`.
      `ShortForms` is `(?:youtube\.com\/watch\?v=|youtu\.be\/|youtube\.com\/embed\/)([a-zA-Z0-9_-]{11})`;
      `WatchQueryForm` is `youtube\.com\/watch\?.*&v=([a-zA-Z0-9_-]{11})`. */
  function MatchAt(pat: Pattern, s: string, p: nat): (g: Option<nat>)
    ensures g.Some? ==> IdRunAt(s, g.value) && p < g.value
  {
    match pat
    case ShortForms =>
      if OccursAt(s, p, WatchV) && IdRunAt(s, p + |WatchV|) then Some(p + |WatchV|)
      else if OccursAt(s, p, ShortLink) && IdRunAt(s, p + |ShortLink|) then Some(p + |ShortLink|)
      else if OccursAt(s, p, EmbedLink) && IdRunAt(s, p + |EmbedLink|) then Some(p + |EmbedLink|)
      else None
    case WatchQueryForm =>
      if OccursAt(s, p, WatchQuery) then
        match LastAmpV(s, p + |WatchQuery|, LineEnd(s, p + |WatchQuery|))
        case Some(q) => Some(q + |AmpV|)
        case None => None
      else None
  }

  /** The least position from `p` to `n` that `ok` accepts. */
  function First(ok: nat -> bool, p: nat, n: nat): (m: Option<nat>)
    requires p <= n
    ensures m.Some? ==> p <= m.value <= n && ok(m.value) && forall q :: p <= q < m.value ==> !ok(q)
    ensures m.None? ==> forall q :: p <= q <= n ==> !ok(q)
    decreases n - p
  {
    if ok(p) then Some(p)
    else if p == n then None
    else First(ok, p + 1, n)
  }

  /** Whether `pat` matches at a position. */
  function Matcher(pat: Pattern, s: string): nat -> bool {
    (q: nat) => MatchAt(pat, s, q).Some?
  }

  /** `re.search`: the leftmost position at or after `p` where `pat` matches. */
  function Leftmost(pat: Pattern, s: string, p: nat): Option<nat>
    requires p <= |s|
  {
    First(Matcher(pat, s), p, |s|)
  }

  /** The search reports a position where the pattern matches with no match
      before it, or that it matches nowhere. */
  lemma LeftmostSpec(pat: Pattern, s: string, p: nat)
    requires p <= |s|
    ensures var m := Leftmost(pat, s, p);
            && (m.Some? ==> p <= m.value <= |s| && MatchAt(pat, s, m.value).Some?
                            && forall q :: p <= q < m.value ==> MatchAt(pat, s, q).None?)
            && (m.None? ==> forall q :: p <= q <= |s| ==> MatchAt(pat, s, q).None?)
  {
    var ok, m := Matcher(pat, s), Leftmost(pat, s, p);
    if m.Some? {
      assert ok(m.value);
      forall q | p <= q < m.value ensures MatchAt(pat, s, q).None? {
        assert !ok(q);
      }
    } else {
      forall q | p <= q <= |s| ensures MatchAt(pat, s, q).None? {
        assert !ok(q);
      }
    }
  }

  /** `First` stops at the first accepted position. */
  lemma {:induction false} FirstIs(ok: nat -> bool, p: nat, n: nat, k: nat)
    requires p <= k <= n && ok(k)
    requires forall q :: p <= q < k ==> !ok(q)
    ensures First(ok, p, n) == Some(k)
    decreases k - p
  {
    if p < k {
      FirstIs(ok, p + 1, n, k);
    }
  }

  /** The eleven captured characters of the leftmost match of `pat`, if any. */
  function Search(pat: Pattern, s: string): (r: Option<string>)
    ensures r.Some? ==> |r.value| == 11 && forall i :: 0 <= i < 11 ==> IsIdChar(r.value[i])
    ensures r.None? <==> forall q :: 0 <= q <= |s| ==> MatchAt(pat, s, q).None?
  {
    LeftmostSpec(pat, s, 0);
    match Leftmost(pat, s, 0)
    case None => None
    case Some(p) =>
      var g := MatchAt(pat, s, p).value;
      Some(s[g..g + 11])
  }

  /** `extract_video_id`: the input itself when it is a bare id, else the id
      from the first URL pattern that matches, else the input unchanged. The
      result is always the input or eleven id characters. */
  function ExtractVideoId(s: string): (r: string)
    ensures r == s || (|r| == 11 && forall i :: 0 <= i < 11 ==> IsIdChar(r[i]))
  {
    if IsBareId(s) then s
    else match Search(ShortForms, s)
      case Some(id) => id
      case None =>
        match Search(WatchQueryForm, s)
        case Some(id) => id
        case None => s
  }

  /** The leftmost match is the only match position with no match before it. */
  lemma LeftmostIs(pat: Pattern, s: string, p: nat)
    requires p <= |s| && MatchAt(pat, s, p).Some?
    requires forall q :: 0 <= q < p ==> MatchAt(pat, s, q).None?
    ensures Leftmost(pat, s, 0) == Some(p)
  {
    var ok := Matcher(pat, s);
    forall q | 0 <= q < p ensures !ok(q) {
      assert MatchAt(pat, s, q).None?;
    }
    FirstIs(ok, 0, |s|, p);
  }

  /** A bare id comes back unchanged. */
  lemma BareIdUnchanged(s: string)
    requires IsBareId(s)
    ensures ExtractVideoId(s) == s
  {
  }

  /** Otherwise the first URL pattern wins: its id at the leftmost position
      where it matches. */
  lemma ShortFormWins(s: string, p: nat)
    requires !IsBareId(s)
    requires p <= |s| && MatchAt(ShortForms, s, p).Some?
    requires forall q :: 0 <= q < p ==> MatchAt(ShortForms, s, q).None?
    ensures ExtractVideoId(s) == s[MatchAt(ShortForms, s, p).value..MatchAt(ShortForms, s, p).value + 11]
  {
    LeftmostIs(ShortForms, s, p);
  }

  /** The "watch?…&v=" form is used only when the first pattern matches
      nowhere; its id follows the last "&v=" on the line. */
  lemma WatchQueryFallback(s: string, p: nat)
    requires !IsBareId(s)
    requires forall q :: 0 <= q <= |s| ==> MatchAt(ShortForms, s, q).None?
    requires p <= |s| && MatchAt(WatchQueryForm, s, p).Some?
    requires forall q :: 0 <= q < p ==> MatchAt(WatchQueryForm, s, q).None?
    ensures ExtractVideoId(s) == s[MatchAt(WatchQueryForm, s, p).value..MatchAt(WatchQueryForm, s, p).value + 11]
  {
    LeftmostSpec(ShortForms, s, 0);
    LeftmostIs(WatchQueryForm, s, p);
  }

  /** When nothing matches, the input is returned unchanged. */
  lemma NoMatchUnchanged(s: string)
    requires !IsBareId(s)
    requires forall q :: 0 <= q <= |s| ==> MatchAt(ShortForms, s, q).None?
    requires forall q :: 0 <= q <= |s| ==> MatchAt(WatchQueryForm, s, q).None?
    ensures ExtractVideoId(s) == s
  {
    LeftmostSpec(ShortForms, s, 0);
    LeftmostSpec(WatchQueryForm, s, 0);
  }

  /** A fetched transcript entry. */
  datatype Entry = Entry(start: real, text: string)

  /** The loop of `get_transcript` that converts fetched entries: one item per
      entry, in order, timestamped with the entry's start, its text with
      newlines turned into spaces and then stripped. */
  method NormalizeEntries(entries: seq<Entry>) returns (items: seq<TranscriptItem>)
    ensures |items| == |entries|
    ensures forall i :: 0 <= i < |items| ==>
      items[i] == TranscriptItem(Some(entries[i].start), PyStrip(ReplaceChar(entries[i].text, '\n', ' ')))
  {
    items := [];
    for i := 0 to |entries|
      invariant |items| == i
      invariant forall k :: 0 <= k < i ==>
        items[k] == TranscriptItem(Some(entries[k].start), PyStrip(ReplaceChar(entries[k].text, '\n', ' ')))
    {
      var entry := entries[i];
      items := items + [TranscriptItem(Some(entry.start), PyStrip(ReplaceChar(entry.text, '\n', ' ')))];
    }
  }

  /** A normalised text has no newline and no surrounding whitespace. */
  lemma NormalizedText(text: string)
    ensures '\n' !in PyStrip(ReplaceChar(text, '\n', ' '))
    ensures var t := PyStrip(ReplaceChar(text, '\n', ' '));
            t != [] ==> !IsPySpace(t[0]) && !IsPySpace(t[|t| - 1])
  {
    var r := ReplaceChar(text, '\n', ' ');
    assert '\n' !in r;
    TrimSubset(r, IsPySpace);
  }

  /** The dictionary `get_video_info` returns when the video service fails. */
  datatype VideoInfo = VideoInfo(videoId: string, title: string, duration: int, embedUrl: string)

  const EmbedPrefix := "https://www.youtube.com/embed/"

  /** The fallback information: title "Unknown", duration 0, and an embed
      URL that carries the same extracted id as `video_id`. */
  function FallbackInfo(url: string): (info: VideoInfo)
    ensures info.title == "Unknown" && info.duration == 0
    ensures info.videoId == ExtractVideoId(url)
    ensures info.embedUrl == EmbedPrefix + info.videoId
  {
    VideoInfo(ExtractVideoId(url), "Unknown", 0, EmbedPrefix + ExtractVideoId(url))
  }
}
