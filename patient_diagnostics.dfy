/** The patient's video library and chat (frontend/app/patient/diagnostics/page.tsx):
    the conversion of the backend's video list into library entries, the
    selection of a video, and the growth of the chat's message list.

    The page state is the `Library` object. Each network outcome is a
    parameter, and so is the clock's rendering of the current time. The
    chat request is returned instead of sent. */
module PatientDiagnostics {
  import opened Common
  import opened Text
  import VideoRoutes
  import LocalVideoPlayer

  /** A subtitle as it arrives in the list's JSON; either field may be absent. */
  datatype RawCue = RawCue(start: Option<real>, end: Option<real>, text: string)

  /** A library entry. */
  datatype Diagnostic = Diagnostic(
    id: string,
    date: string,
    time: string,
    kind: string,
    status: string,
    videoUrl: string,
    summary: string,
    transcript: seq<LocalVideoPlayer.TranscriptItem>,
    isLocalVideo: bool)

  /** `{ timestamp: item.start || 0, start, end, text }`. */
  function ConvertCue(c: RawCue): LocalVideoPlayer.TranscriptItem {
    LocalVideoPlayer.TranscriptItem(Some(if c.start.Some? then c.start.value else 0.0), c.start, c.end, c.text)
  }

  /** `video.transcript?.map(...) || []`. */
  function ConvertTranscript(transcript: Option<seq<RawCue>>): seq<LocalVideoPlayer.TranscriptItem> {
    if transcript.None? then [] else Map(transcript.value, ConvertCue)
  }

  /** The conversion keeps the number, order and text of the lines; every
      line gets a timestamp, its start or 0; a missing transcript is empty. */
  lemma ConvertTranscriptKeeps(transcript: Option<seq<RawCue>>)
    ensures transcript.None? ==> ConvertTranscript(transcript) == []
    ensures transcript.Some? ==>
              var r := ConvertTranscript(transcript);
              && |r| == |transcript.value|
              && forall i :: 0 <= i < |r| ==>
                   && r[i].text == transcript.value[i].text
                   && r[i].start == transcript.value[i].start
                   && r[i].end == transcript.value[i].end
                   && r[i].timestamp.Some?
                   && r[i].timestamp.value == (if transcript.value[i].start.Some? then transcript.value[i].start.value else 0.0)
  {
  }

  /** A backend subtitle as the page receives it. */
  function FromCue(c: VideoRoutes.Cue): RawCue {
    RawCue(Some(c.start), Some(c.end), c.text)
  }

  /** A listed video as a library entry: every one plays in the local
      player. */
  function FromListed(v: VideoRoutes.PatientVideo): Diagnostic {
    Diagnostic(v.id, v.date, v.time, v.kind, v.status, v.videoUrl, v.summary,
               ConvertTranscript(Some(Map(v.transcript, FromCue))), true)
  }

  /** `fetchVideos`: one library entry per listed video, in list order, each
      marked as a local video, with the listing's fields copied. */
  function FetchVideos(listed: seq<VideoRoutes.PatientVideo>): (r: seq<Diagnostic>)
    ensures |r| == |listed|
    ensures forall i :: 0 <= i < |r| ==>
              && r[i].isLocalVideo
              && r[i].id == listed[i].id && r[i].videoUrl == listed[i].videoUrl
              && r[i].date == listed[i].date && r[i].time == listed[i].time
              && r[i].kind == listed[i].kind && r[i].status == listed[i].status
              && r[i].summary == listed[i].summary
              && r[i].transcript == ConvertTranscript(Some(Map(listed[i].transcript, FromCue)))
              && |r[i].transcript| == |listed[i].transcript|
  {
    Map(listed, FromListed)
  }

  /** A backend subtitle keeps its own interval in the local player: the
      overlay shows it exactly from its start to its end. */
  lemma ListedCueInterval(c: VideoRoutes.Cue, t: real)
    ensures var item := ConvertCue(FromCue(c));
            && LocalVideoPlayer.StartOf(item) == c.start
            && LocalVideoPlayer.EndOf(item) == c.end
            && (LocalVideoPlayer.Shows(item, t) <==> c.start <= t <= c.end)
            && item.text == c.text
  {
  }

  datatype Sender = User | Bot

  datatype Message = Message(id: int, text: string, sender: Sender, timestamp: string)

  const Greeting := "Hello! I'm here to help you understand this educational video about brain nutrition. Feel free to pause at any time to ask questions about what you've watched."
  const NoAnswer := "I apologize, I couldn't process your question. Please try again."
  const NoConnection := "I'm having trouble connecting to the AI service. Please make sure the backend is running on port 8000."
  const PauseHint := "Video paused. Feel free to ask questions about what you've watched so far! I can help explain any medical terms or concepts."

  /** The fixed duration the page sends with every question. */
  const SentDuration := 273.0

  /** What POST /api/chat/ is sent. */
  datatype ChatRequest = ChatRequest(
    message: string,
    transcript: seq<LocalVideoPlayer.TranscriptItem>,
    currentTime: real,
    videoDuration: real)

  /** How the chat request ended: a JSON body whose `response` field may be
      missing, or an exception. */
  datatype ChatOutcome = Answered(response: Option<string>) | Unreachable

  /** The bot's answer: the response when it is a non-empty text, the
      apology when it is missing or empty, the connection notice when the
      request failed. The answer is never empty. */
  function BotText(outcome: ChatOutcome): (r: string)
    ensures r != []
    ensures outcome.Unreachable? ==> r == NoConnection
    ensures outcome.Answered? && outcome.response.Some? && outcome.response.value != [] ==> r == outcome.response.value
    ensures outcome.Answered? && (outcome.response.None? || outcome.response.value == []) ==> r == NoAnswer
  {
    match outcome
    case Unreachable => NoConnection
    case Answered(response) => if response.Some? && response.value != [] then response.value else NoAnswer
  }

  /** The messages are numbered 1, 2, 3, ... in the order they were added. */
  predicate Numbered(messages: seq<Message>) {
    forall i :: 0 <= i < |messages| ==> messages[i].id == i + 1
  }

  /** The library page's state. */
  class Library {
    var diagnostics: seq<Diagnostic>
    var selected: Option<Diagnostic>
    var messages: seq<Message>
    var input: string
    var playing: bool
    var currentTime: real

    predicate Valid()
      reads this
    {
      Numbered(messages)
    }

    constructor()
      ensures Valid()
      ensures diagnostics == [] && selected.None? && messages == [] && input == ""
      ensures !playing && currentTime == 0.0
    {
      diagnostics := [];
      selected := None;
      messages := [];
      input := "";
      playing := false;
      currentTime := 0.0;
    }

    /** `fetchVideos` with the list the backend answered, if it answered. */
    method Fetched(listed: Option<seq<VideoRoutes.PatientVideo>>)
      modifies this
      ensures listed.Some? ==> diagnostics == FetchVideos(listed.value)
      ensures listed.None? ==> diagnostics == old(diagnostics)
      ensures selected == old(selected) && messages == old(messages) && input == old(input)
      ensures playing == old(playing) && currentTime == old(currentTime)
    {
      if listed.Some? {
        diagnostics := FetchVideos(listed.value);
      }
    }

    /** `handleSelectDiagnostic`: the video is selected from its start,
        paused, and the conversation restarts with the greeting. */
    method Select(d: Diagnostic, now: string)
      modifies this
      ensures Valid()
      ensures selected == Some(d) && currentTime == 0.0 && !playing
      ensures messages == [Message(1, Greeting, Bot, now)]
      ensures diagnostics == old(diagnostics) && input == old(input)
    {
      selected := Some(d);
      currentTime := 0.0;
      playing := false;
      messages := [Message(1, Greeting, Bot, now)];
    }

    /** `handleSendMessage`: nothing happens for a blank question or with no
        video selected. Otherwise the question is added as message n + 1
        and the input cleared, the question is sent with the selected
        video's transcript and the playback position, and the answer is
        added as message n + 2. */
    method Send(outcome: ChatOutcome, now: string) returns (request: Option<ChatRequest>)
      requires Valid()
      modifies this
      ensures Valid()
      ensures JsTrim(old(input)) == [] || old(selected).None? ==>
                request.None? && messages == old(messages) && input == old(input)
      ensures JsTrim(old(input)) != [] && old(selected).Some? ==>
                && request == Some(ChatRequest(old(input), old(selected).value.transcript, currentTime, SentDuration))
                && messages == old(messages) + [Message(|old(messages)| + 1, old(input), User, now),
                                                Message(|old(messages)| + 2, BotText(outcome), Bot, now)]
                && input == ""
      ensures diagnostics == old(diagnostics) && selected == old(selected)
      ensures playing == old(playing) && currentTime == old(currentTime)
    {
      request := None;
      if JsTrim(input) != [] && selected.Some? {
        var n := |messages|;
        var question := input;
        messages := messages + [Message(n + 1, question, User, now)];
        input := "";
        request := Some(ChatRequest(question, selected.value.transcript, currentTime, SentDuration));
        messages := messages + [Message(n + 2, BotText(outcome), Bot, now)];
      }
    }

    /** `handlePlayPause`: pausing while the greeting is the only message
        adds the pause hint as message 2. */
    method PlayPause(nowPlaying: bool, now: string)
      requires Valid()
      modifies this
      ensures Valid()
      ensures playing == nowPlaying
      ensures !nowPlaying && |old(messages)| == 1 ==> messages == old(messages) + [Message(2, PauseHint, Bot, now)]
      ensures nowPlaying || |old(messages)| != 1 ==> messages == old(messages)
      ensures diagnostics == old(diagnostics) && selected == old(selected)
      ensures input == old(input) && currentTime == old(currentTime)
    {
      playing := nowPlaying;
      if !nowPlaying && |messages| == 1 {
        messages := messages + [Message(2, PauseHint, Bot, now)];
      }
    }

    /** The input field's `onChange`. */
    method Type(text: string)
      modifies this
      ensures input == text
      ensures diagnostics == old(diagnostics) && selected == old(selected) && messages == old(messages)
      ensures playing == old(playing) && currentTime == old(currentTime)
    {
      input := text;
    }

    /** The player's `onTimeUpdate`. */
    method TimeUpdate(t: real)
      modifies this
      ensures currentTime == t
      ensures diagnostics == old(diagnostics) && selected == old(selected) && messages == old(messages)
      ensures playing == old(playing) && input == old(input)
    {
      currentTime := t;
    }
  }
}
