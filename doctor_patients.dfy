/** The doctor's patient page (frontend/app/doctor/patients/page.tsx): the
    mapping of the backend's video list into the doctor's instruction list,
    the choice of the recording sent for transcription, the subtitles used
    when transcription fails, the guard on sending a recording, and two
    display helpers of the prescription list.

    Media recording, blobs and timers are outside the model: a recording is
    represented by its size in bytes. Network outcomes are parameters. */
module DoctorPatients {
  import opened Common
  import opened Text
  import VideoRoutes
  import SubtitleEditor

  /** An entry of the doctor's instruction list. */
  datatype Instruction = Instruction(
    id: string,
    title: string,
    dateSent: string,
    duration: string,
    status: string,
    completedAt: Option<string>)

  const InstructionPrefix := "Doctor Instruction: "

  /** The title shown for a listed video: `type` with its first
      "Doctor Instruction: " removed. */
  function TitleOf(kind: string): string {
    ReplaceFirst(kind, InstructionPrefix, "")
  }

  /** The backend lists an uploaded video's type as "Doctor Instruction: "
      followed by its title, so the doctor sees the title that was uploaded,
      whatever the title contains. */
  lemma TitleRoundTrip(title: string)
    ensures TitleOf(VideoRoutes.InstructionKind + ": " + title) == title
  {
    var kind := VideoRoutes.InstructionKind + ": " + title;
    assert kind == InstructionPrefix + title;
    assert OccursAt(kind, 0, InstructionPrefix);
    assert IndexOf(kind, InstructionPrefix, 0) == Some(0);
    assert kind[|InstructionPrefix|..] == title;
  }

  /** A title without the prefix is shown as it is. */
  lemma TitleWithoutPrefix(kind: string)
    requires forall j :: 0 <= j ==> !OccursAt(kind, j, InstructionPrefix)
    ensures TitleOf(kind) == kind
  {
  }

  /** The mapping as written: `status` is read from the entry's `watched`
      field and `completedAt` from its `watched_at` field, here `watched`
      and `watchedAt`, each absent when the entry lacks the field. */
  function InstructionFromFields(v: VideoRoutes.PatientVideo, watched: Option<bool>,
                                 watchedAt: Option<string>, render: string -> string): (r: Instruction)
    ensures r.status == "watched" <==> watched == Some(true)
    ensures r.status == "watched" || r.status == "unwatched"
    ensures r.completedAt.Some? <==> watchedAt.Some? && watchedAt.value != []
    ensures r.id == v.id && r.dateSent == v.date && r.duration == "0:00"
  {
    Instruction(v.id, TitleOf(v.kind), v.date, "0:00",
                if watched == Some(true) then "watched" else "unwatched",
                if watchedAt.Some? && watchedAt.value != [] then Some(render(watchedAt.value)) else None)
  }

  /** `fetchVideos` as written, on the entries GET /api/videos/list sends:
      they carry `status` but neither `watched` nor `watched_at`. */
  function InstructionAsWritten(v: VideoRoutes.PatientVideo, render: string -> string): Instruction {
    InstructionFromFields(v, None, None, render)
  }

  /** Every listed video shows as unwatched, even one the patient has
      watched. */
  lemma AsWrittenNeverWatched(v: VideoRoutes.PatientVideo, render: string -> string)
    ensures InstructionAsWritten(v, render).status == "unwatched"
    ensures InstructionAsWritten(v, render).completedAt.None?
  {
  }

  /** A concrete entry: the backend reports "watched", the doctor sees
      "unwatched". */
  lemma WatchedVideoShownUnwatched(render: string -> string)
    ensures var v := VideoRoutes.PatientVideo("v1", "Jan 01, 2025", "10:00 AM",
                                              VideoRoutes.InstructionKind + ": Walk", "watched",
                                              VideoRoutes.StreamPrefix + "v1", "", []);
            v.status == "watched" && InstructionAsWritten(v, render).status == "unwatched"
  {
  }

  /** The mapping with the status taken from the field the listing does
      send: a video is shown as watched exactly when the backend has it as
      watched. The listing carries no completion time, so none is shown. */
  function InstructionOf(v: VideoRoutes.PatientVideo): (r: Instruction)
    ensures r.status == "watched" <==> v.status == "watched"
    ensures r.status == "watched" || r.status == "unwatched"
    ensures r.id == v.id && r.dateSent == v.date && r.duration == "0:00"
  {
    Instruction(v.id, TitleOf(v.kind), v.date, "0:00",
                if v.status == "watched" then "watched" else "unwatched", None)
  }

  /** `fetchVideos`: one instruction per listed video, in list order. */
  function FetchVideos(listed: seq<VideoRoutes.PatientVideo>): (r: seq<Instruction>)
    ensures |r| == |listed|
    ensures forall i :: 0 <= i < |r| ==> r[i] == InstructionOf(listed[i])
  {
    Map(listed, InstructionOf)
  }

  /** The two recordings the audio recorder's `onstop` can send. */
  datatype Recording = AudioTrack | VideoTrack

  /** What is sent for transcription: the audio recording when it holds any
      bytes, else the video recording when it does, else nothing. */
  function TranscriptionSource(audioSize: nat, videoSize: nat): (r: Option<Recording>)
    ensures r == Some(AudioTrack) <==> audioSize > 0
    ensures r == Some(VideoTrack) <==> audioSize == 0 && videoSize > 0
    ensures r.None? <==> audioSize == 0 && videoSize == 0
  {
    if audioSize > 0 then Some(AudioTrack)
    else if videoSize > 0 then Some(VideoTrack)
    else None
  }

  /** The subtitles used when transcription fails. */
  const MockSubtitles: seq<SubtitleEditor.Subtitle> := [
    SubtitleEditor.Subtitle(0.0, 2.5, "Hello, this is your doctor speaking."),
    SubtitleEditor.Subtitle(2.5, 5.0, "Today we'll practice a simple memory exercise."),
    SubtitleEditor.Subtitle(5.0, 8.0, "Please follow along with the instructions.")]

  /** The fallback subtitles run back to back from 0 to 8 seconds, each of
      positive length. */
  lemma MockSubtitlesContiguous()
    ensures |MockSubtitles| == 3
    ensures MockSubtitles[0].start == 0.0 && MockSubtitles[2].end == 8.0
    ensures forall i :: 0 < i < |MockSubtitles| ==> MockSubtitles[i].start == MockSubtitles[i - 1].end
    ensures forall i :: 0 <= i < |MockSubtitles| ==> MockSubtitles[i].start < MockSubtitles[i].end
  {
  }

  /** How the transcription request ended: a successful answer, whose
      `transcription` field may be missing, or an error status or exception. */
  datatype TranscribeOutcome = Transcribed(transcription: Option<seq<SubtitleEditor.Subtitle>>) | Failed

  /** The subtitles after `transcribeAudio`. */
  function SubtitlesAfter(outcome: TranscribeOutcome): (r: seq<SubtitleEditor.Subtitle>)
    ensures outcome.Failed? ==> r == MockSubtitles
    ensures outcome.Transcribed? && outcome.transcription.Some? ==> r == outcome.transcription.value
    ensures outcome.Transcribed? && outcome.transcription.None? ==> r == []
  {
    match outcome
    case Failed => MockSubtitles
    case Transcribed(t) => if t.Some? then t.value else []
  }

  /** The form `handleSendVideo` uploads. */
  datatype UploadForm = UploadForm(title: string, description: string, subtitles: seq<SubtitleEditor.Subtitle>)

  /** `handleSendVideo`: an upload only with a recording and a non-empty
      title; the form carries the title, description and subtitles. */
  function SendVideo(hasRecording: bool, title: string, description: string,
                     subtitles: seq<SubtitleEditor.Subtitle>): (r: Option<UploadForm>)
    ensures r.Some? <==> hasRecording && title != []
    ensures r.Some? ==> r.value == UploadForm(title, description, subtitles)
  {
    if hasRecording && title != [] then Some(UploadForm(title, description, subtitles)) else None
  }

  /** "<n> Medication Prescribed", with "Medications" for more than one. */
  function MedicationLabel(n: nat): (r: string)
    ensures StartsWith(r, NatToString(n) + " Medication")
  {
    NatToString(n) + " Medication" + (if n > 1 then "s" else "") + " Prescribed"
  }

  /** The label is plural exactly when there is more than one medication. */
  lemma MedicationLabelPlural(n: nat)
    ensures var r := MedicationLabel(n);
            var plain := NatToString(n) + " Medication";
            (n > 1 ==> r[|plain|..] == "s Prescribed")
            && (n <= 1 ==> r[|plain|..] == " Prescribed")
  {
    var plain := NatToString(n) + " Medication";
    if n > 1 {
      assert MedicationLabel(n) == plain + "s Prescribed";
    } else {
      assert MedicationLabel(n) == plain + " Prescribed";
    }
  }

  /** `med.charAt(0).toUpperCase() + med.slice(1)`. */
  function Capitalize(s: string): (r: string)
    ensures |r| == |s|
    ensures s != [] ==> r[0] == ToUpperChar(s[0]) && r[1..] == s[1..]
  {
    if s == [] then [] else [ToUpperChar(s[0])] + s[1..]
  }

  /** Capitalising twice is capitalising once. */
  lemma CapitalizeIdempotent(s: string)
    ensures Capitalize(Capitalize(s)) == Capitalize(s)
  {
  }
}
