# healthhack: a verified model of its data logic

healthhack is a patient/doctor web application. Its FastAPI backend stores
prescriptions and uploaded instruction videos, turns transcriptions into
timed subtitle segments, extracts YouTube ids and frames chat questions about
a video. Its React frontend plays videos with captions, edits subtitles,
collects prescription input and shows the patient's prescriptions, videos and
chat. This project models the deterministic data logic under that UI and
HTTP plumbing, and proves what each piece promises.

One Dafny module per source file:

- `PrescriptionRoutes` (prescription.py): the prescription store as a class
  over a `seq` of records. It covers finalize, list (filter, then an in-place
  insertion sort newest first), mark-read with its 404, and the cleanup of
  code fences in the AI reply.
- `VideoRoutes` (videos.py): the video store as a class. It covers upload
  (file extension, the new record), the listing loop, the lookups behind
  stream and details, and the status update.
- `Transcribe` (transcribe.py): sentence splitting at `[.!?]` followed by
  whitespace, the word count, and the loop that lays segments back to back.
  It also covers the replies of the transcription route: mock data, the
  empty upload, the service's segments and the fallback after an exception.
- `YouTubeService` (youtube_service.py): `extract_video_id` as an exact
  leftmost-match search over its two patterns, the normalisation of
  transcript entries and the fallback video information.
- `GroqService` (groq_service.py): defaulting of position and duration, the
  watched/upcoming split, `_format_time` and the empty-completion fallback.
- `DiagnosticService` (diagnostic_service.py): the fixed catalogue of six
  videos and lookup by id.
- `SubtitleEditor` (SubtitleEditor.tsx): `MM:SS.cc` formatting and parsing
  (a round trip on whole hundredths), SubRip export, and the editor state
  (add, delete, edit, save, cancel) as a class.
- `PrescriptionModal` (PrescriptionModal.tsx): the dialog state as a class.
  It covers the list handlers, the case-insensitive scribe list, the
  comma-separated context lists and the submission loop.
- `LocalVideoPlayer`, `YouTubePlayer`: caption lookup, time formatting, URL
  prefixing and the seek/restart/state handlers, each player as a class.
- `PatientPrescriptions`, `DoctorPatients`, `PatientDiagnostics`: the three
  pages' state updates and mappings of backend records.
- Shared helpers: `Common` (Option, Result, filtering, removal and
  assignment by index), `Text` (whitespace classes of Python and JavaScript,
  trim/strip, split/join, decimal rendering, padding, ASCII case) and
  `JsNumber` (`parseInt`, NaN, and the truncating `%` of JavaScript).

Network calls, AI answers, clocks and ids are parameters of the operations
that use them.

## Model

| member | source | states |
|---|---|---|
| `PrescriptionRoutes.PrescriptionStore.constructor` | backend/app/api/routes/prescription.py:22-31 | a store with no file to load starts empty |
| `PrescriptionRoutes.PrescriptionStore.Finalize` | backend/app/api/routes/prescription.py:169-193 | exactly one record is appended at the end and earlier records are unchanged; the new record copies the request and is active and unread; the response counts the request's medications |
| `PrescriptionRoutes.FinalizedIsListed` | backend/app/api/routes/prescription.py:173-185 | a finalized record is active and unread and appears in its patient's listing |
| `PrescriptionRoutes.PrescriptionStore.List` | backend/app/api/routes/prescription.py:204-211 | the result is a permutation of the patient's records (all records without a patient id), newest first |
| `PrescriptionRoutes.ListedForPatient` | backend/app/api/routes/prescription.py:207-208 | listing for a patient keeps each of that patient's records as often as stored and no other record |
| `PrescriptionRoutes.ListedAll` | backend/app/api/routes/prescription.py:207 | without a patient id every record is kept |
| `PrescriptionRoutes.SortNewestFirst` | backend/app/api/routes/prescription.py:211 | the in-place sort leaves the array ordered by non-increasing created_at and a permutation of its old contents |
| `PrescriptionRoutes.SinkLeft` | backend/app/api/routes/prescription.py:211 | one insertion step extends the sorted prefix by one element and keeps the multiset |
| `Common.FirstWith` | backend/app/api/routes/prescription.py:229 | the index found holds the key and no earlier element does; None exactly when no element has it (the same `next(...)` lookup serves videos.py:102) |
| `Common.FirstWithIs` | backend/app/api/routes/videos.py:102 | a position holding the key with none before it is the one the lookup finds |
| `PrescriptionRoutes.PrescriptionStore.IndexOf` | backend/app/api/routes/prescription.py:229 | the linear scan returns the first index with the id |
| `PrescriptionRoutes.PrescriptionStore.MarkRead` | backend/app/api/routes/prescription.py:229-237 | an unknown id gives 404 and leaves the store unchanged; otherwise only the first matching record changes, to read with the given instant |
| `PrescriptionRoutes.MarkReadTwice` | backend/app/api/routes/prescription.py:234-235 | marking read twice equals marking once at the later instant |
| `PrescriptionRoutes.CleanFencesFenceFree` | backend/app/api/routes/prescription.py:134-141 | a reply with no fence at either end is only stripped |
| `PrescriptionRoutes.CleanFencesJsonBlock` | backend/app/api/routes/prescription.py:135-141 | a fenced JSON block gives back its stripped body |
| `PrescriptionRoutes.StripIdempotent` | backend/app/api/routes/prescription.py:134-141 | stripping twice is stripping once |
| `VideoRoutes.FileExtension` | backend/app/api/routes/videos.py:35 | the extension has no '.'; with a '.' in the name the name ends with "." + extension, otherwise it is "webm" |
| `VideoRoutes.LastPiece` | backend/app/api/routes/videos.py:35 | with the separator present the last piece follows the last separator |
| `VideoRoutes.VideoStore.constructor` | backend/app/api/routes/videos.py:18 | the store starts empty |
| `VideoRoutes.VideoStore.Upload` | backend/app/api/routes/videos.py:32-68 | exactly the new record is appended and the success response names its id |
| `VideoRoutes.UploadedVideo` | backend/app/api/routes/videos.py:35-59 | an uploaded video is unwatched, a doctor instruction, stored as id "." extension, with subtitles [] when they did not parse |
| `VideoRoutes.VideoStore.List` | backend/app/api/routes/videos.py:79-90 | one entry per stored video in storage order, with type "<type>: <title>" and stream URL "/api/videos/stream/" + id |
| `VideoRoutes.VideoStore.IndexOf` | backend/app/api/routes/videos.py:102 | the linear scan returns the first index with the id |
| `VideoRoutes.VideoStore.StreamVideo` | backend/app/api/routes/videos.py:102-119 | 404 for an unknown id or a missing file; otherwise the stored file as video/webm |
| `VideoRoutes.VideoStore.Details` | backend/app/api/routes/videos.py:126-131 | 404 for an unknown id; otherwise the stored record |
| `VideoRoutes.VideoStore.UpdateStatus` | backend/app/api/routes/videos.py:138-151 | 404 and no change for an unknown id; otherwise only the first matching record changes |
| `VideoRoutes.StatusUpdateFields` | backend/app/api/routes/videos.py:143-146 | the status becomes the given one, completed_at is set only for "watched", nothing else changes |
| `Transcribe.Sentences` | backend/app/api/routes/transcribe.py:59 | at least one piece; every piece but the last ends in '.', '!' or '?'; no piece contains a cut point |
| `Transcribe.Gaps` | backend/app/api/routes/transcribe.py:59 | the removed separators are non-empty whitespace runs |
| `Transcribe.SentencesRebuild` | backend/app/api/routes/transcribe.py:59 | one separator between each two pieces, and the pieces with the separators put back are the text itself |
| `Transcribe.WordCount` | backend/app/api/routes/transcribe.py:66 | zero exactly when the text is all whitespace |
| `Transcribe.Kept` | backend/app/api/routes/transcribe.py:75-81 | no more kept texts than pieces |
| `Transcribe.KeptNonEmpty` | backend/app/api/routes/transcribe.py:77-78 | no kept text is empty: blank pieces are skipped |
| `Transcribe.ParseTranscriptionToSegments` | backend/app/api/routes/transcribe.py:51-85 | one segment per non-blank stripped sentence, in order, laid back to back in slots of the total duration over the number of pieces |
| `Transcribe.LaySegments` | backend/app/api/routes/transcribe.py:72-83 | the loop gives the kept texts in order, each one slot long, back to back from 0 |
| `Transcribe.BackToBackTimes` | backend/app/api/routes/transcribe.py:73-83 | the first segment starts at 0 and each later one starts where the previous ends |
| `Transcribe.BlankTextNoSegments` | backend/app/api/routes/transcribe.py:59-85 | empty or whitespace-only text yields no segments |
| `Transcribe.DefaultDuration` | backend/app/api/routes/transcribe.py:65-67 | without a duration, n words last n * 0.4 seconds, that is n / 150 minutes |
| `Transcribe.TranscribeAudio` | backend/app/api/routes/transcribe.py:93-218 | mock data without a client; one "Recording was empty" segment for an empty upload; for a non-empty upload, the service's segments with status "success" and no warning exactly when it answered, and the seven contiguous fallback segments with status "fallback" and a warning naming the error exactly when it raised |
| `Transcribe.EmptyUploadSkipsService` | backend/app/api/routes/transcribe.py:113-120 | the reply to an empty upload does not depend on the service |
| `YouTubeService.ExtractVideoId` | backend/app/services/youtube_service.py:11-29 | the result is the input or eleven id characters |
| `YouTubeService.BareIdUnchanged` | backend/app/services/youtube_service.py:14-15 | a bare eleven-character id comes back unchanged |
| `YouTubeService.ShortFormWins` | backend/app/services/youtube_service.py:18-26 | with a watch?v=, youtu.be/ or embed/ match, the id at the leftmost match is returned |
| `YouTubeService.WatchQueryFallback` | backend/app/services/youtube_service.py:19-26 | the watch?...&v= form is used only when the first pattern matches nowhere |
| `YouTubeService.NoMatchUnchanged` | backend/app/services/youtube_service.py:29 | when nothing matches the input is returned |
| `YouTubeService.Search` | backend/app/services/youtube_service.py:24-26 | a found id is eleven id characters; nothing is found exactly when the pattern matches at no position |
| `YouTubeService.LeftmostSpec` | backend/app/services/youtube_service.py:24 | the search reports a matching position with no match before it, or that there is none |
| `YouTubeService.LeftmostIs` | backend/app/services/youtube_service.py:24 | the search finds the first position where the pattern matches |
| `YouTubeService.NormalizeEntries` | backend/app/services/youtube_service.py:83-90 | one item per entry in order, timestamp from start, newlines replaced by spaces and the text stripped |
| `YouTubeService.NormalizedText` | backend/app/services/youtube_service.py:89 | a normalised text has no newline and no surrounding whitespace |
| `YouTubeService.FallbackInfo` | backend/app/services/youtube_service.py:128-133 | title "Unknown", duration 0, the extracted id and its embed URL |
| `GroqService.CurrentTime` | backend/app/services/groq_service.py:23-24 | a missing position is 0 |
| `GroqService.VideoDuration` | backend/app/services/groq_service.py:27-28 | a missing or zero duration is 120; the result is never zero |
| `GroqService.WatchedUpcomingPartition` | backend/app/services/groq_service.py:31-39 | watched holds exactly the items at or before the position, upcoming exactly those after; they are disjoint and together hold every timestamped item |
| `GroqService.Prompt` | backend/app/services/groq_service.py:23-39 | the prompt uses the position or 0.0, the duration or 120.0 when it is missing or zero, and the split at that position |
| `GroqService.Mod60` | backend/app/services/groq_service.py:107 | Python's float `% 60` lies in [0, 60) |
| `GroqService.FormatTime` | backend/app/services/groq_service.py:103-107 | the text ends in ':' and two characters |
| `GroqService.FormatTimeFields` | backend/app/services/groq_service.py:105-107 | for s >= 0: whole minutes padded to at least two digits, ':', whole seconds of the minute in 00..59 |
| `GroqService.FormatTimeMissing` | backend/app/services/groq_service.py:103-104 | a missing time is "00:00" |
| `GroqService.GenerateResponse` | backend/app/services/groq_service.py:84-97 | a missing or empty completion is replaced by the apology; the answer is never empty |
| `DiagnosticService.NewService` | backend/app/services/diagnostic_service.py:6-9 | the service starts with six diagnostics numbered 1 to 6 |
| `DiagnosticService.History` | backend/app/services/diagnostic_service.py:11-13 | the stored list is returned unchanged |
| `DiagnosticService.ById` | backend/app/services/diagnostic_service.py:15-20 | a found diagnostic has the id; None exactly when no diagnostic has it |
| `DiagnosticService.ByIdAt` | backend/app/services/diagnostic_service.py:15-20 | the lookup returns the first diagnostic with the id |
| `DiagnosticService.CatalogueShape` | backend/app/services/diagnostic_service.py:24-84 | ids 1 to 6 in order and distinct; every entry completed, with a video URL and an empty transcript |
| `DiagnosticService.CatalogueLookup` | backend/app/services/diagnostic_service.py:15-84 | ids 1 to 6 find their entry, every other id finds nothing |
| `SubtitleEditor.FormatTime` | frontend/components/SubtitleEditor.tsx:39-46 | the text is at least eight characters |
| `SubtitleEditor.FormatTimeCentis` | frontend/components/SubtitleEditor.tsx:39-46 | on whole hundredths: minutes padded to two digits, seconds in 00..59, hundredths in 00..99 |
| `SubtitleEditor.ParseTime` | frontend/components/SubtitleEditor.tsx:48-56 | a string that does not split into two parts on ':' gives 0 |
| `SubtitleEditor.ParseTimeFields` | frontend/components/SubtitleEditor.tsx:50-53 | "m:s.c" in digits reads as m * 60 + s + c / 100 |
| `SubtitleEditor.ParseTimeWhole` | frontend/components/SubtitleEditor.tsx:52-53 | a missing ".c" counts as 0 |
| `SubtitleEditor.FormatParseRoundTrip` | frontend/components/SubtitleEditor.tsx:39-56 | parsing a formatted time of whole hundredths gives back that time |
| `SubtitleEditor.FormatTimeSrt` | frontend/components/SubtitleEditor.tsx:111-121 | the text is at least twelve characters |
| `SubtitleEditor.FormatTimeSrtMillis` | frontend/components/SubtitleEditor.tsx:111-121 | on whole milliseconds: hours, minutes, seconds and milliseconds of the time, padded, and they add back to it |
| `SubtitleEditor.SrtBlocks` | frontend/components/SubtitleEditor.tsx:97-101 | one block per subtitle, block i numbered i + 1 |
| `SubtitleEditor.SrtTextIsBlocks` | frontend/components/SubtitleEditor.tsx:95-101 | the export is the blocks one after another, in list order |
| `SubtitleEditor.DraftOf` | frontend/components/SubtitleEditor.tsx:58-61 | the draft is truthy: a copy of row i for a shown row, and the empty object `{}` exactly past the end |
| `SubtitleEditor.NewSubtitle` | frontend/components/SubtitleEditor.tsx:84-90 | the added row starts at the last row's end (0 when empty), ends at min(start + 3, duration), reads "New subtitle" |
| `SubtitleEditor.AddDraftAsWritten` | frontend/components/SubtitleEditor.tsx:83-93 | as written, the draft opened after adding is the empty object, not the added row, and `handleSave`'s guard lets it through |
| `SubtitleEditor.Editor.constructor` | frontend/components/SubtitleEditor.tsx:36-37 | nothing is being edited |
| `SubtitleEditor.Editor.Edit` | frontend/components/SubtitleEditor.tsx:58-61 | the edited index and a copy of its row become the draft |
| `SubtitleEditor.Editor.Save` | frontend/components/SubtitleEditor.tsx:63-71 | only the edited row is replaced, the length kept and the edit state cleared; nothing happens when nothing is edited |
| `SubtitleEditor.Editor.Cancel` | frontend/components/SubtitleEditor.tsx:73-76 | the edit state is cleared and the list untouched |
| `SubtitleEditor.Editor.Delete` | frontend/components/SubtitleEditor.tsx:78-81 | exactly row i is removed, the rest keep their order |
| `SubtitleEditor.Editor.Add` | frontend/components/SubtitleEditor.tsx:83-93 | the new row is appended and opened for editing as its own draft |
| `SubtitleEditor.Editor.Export` | frontend/components/SubtitleEditor.tsx:95-101 | the loop builds the SubRip text of the list |
| `PrescriptionModal.Form.constructor` | frontend/components/PrescriptionModal.tsx:79-94 | one blank medication, rsid pair and gene pair; empty context, results and scribe list |
| `PrescriptionModal.Form.AddMedication` | frontend/components/PrescriptionModal.tsx:97-99 | exactly one blank medication is appended |
| `PrescriptionModal.Form.RemoveMedication` | frontend/components/PrescriptionModal.tsx:101-103 | exactly index i is removed |
| `PrescriptionModal.Form.ChangeMedication` | frontend/components/PrescriptionModal.tsx:105-109 | only index i changes |
| `PrescriptionModal.Form.AddRsidVariant` | frontend/components/PrescriptionModal.tsx:111-113 | exactly one empty rsid/genotype pair is appended |
| `PrescriptionModal.Form.RemoveRsidVariant` | frontend/components/PrescriptionModal.tsx:115-117 | exactly index i is removed |
| `PrescriptionModal.Form.ChangeRsidVariant` | frontend/components/PrescriptionModal.tsx:119-123 | only the named field of row i changes |
| `PrescriptionModal.Form.AddGeneVariant` | frontend/components/PrescriptionModal.tsx:125-127 | exactly one empty gene/star pair is appended |
| `PrescriptionModal.Form.RemoveGeneVariant` | frontend/components/PrescriptionModal.tsx:129-131 | exactly index i is removed |
| `PrescriptionModal.Form.ChangeGeneVariant` | frontend/components/PrescriptionModal.tsx:133-137 | only the named field of row i changes |
| `PrescriptionModal.ParseListItems` | frontend/components/PrescriptionModal.tsx:342-345 | no item is empty, contains ',' or has surrounding whitespace; the items are exactly the non-empty trimmed pieces |
| `PrescriptionModal.Form.ArrayInput` | frontend/components/PrescriptionModal.tsx:342-345 | the parsed list replaces exactly the named context list |
| `PrescriptionModal.AddName` | frontend/components/PrescriptionModal.tsx:347-356 | a name present in any case leaves the list unchanged; otherwise it is appended; afterwards it is present |
| `PrescriptionModal.AddNameKeepsDistinct` | frontend/components/PrescriptionModal.tsx:347-356 | adding keeps the list free of case-insensitive duplicates |
| `PrescriptionModal.RemoveKeepsDistinct` | frontend/components/PrescriptionModal.tsx:647 | removing an entry keeps the list free of case-insensitive duplicates |
| `PrescriptionModal.Form.AddToScribe` | frontend/components/PrescriptionModal.tsx:347-356 | the scribe list stays duplicate-free and only it changes |
| `PrescriptionModal.Form.RemoveFromScribe` | frontend/components/PrescriptionModal.tsx:647 | the scribe list stays duplicate-free and only it changes |
| `PrescriptionModal.ValidMedications` | frontend/components/PrescriptionModal.tsx:200 | no medication submitted is blank |
| `PrescriptionModal.AllVariantsShape` | frontend/components/PrescriptionModal.tsx:261-267 | the complete rsid pairs come first, then the complete gene pairs, each with both fields set |
| `PrescriptionModal.NoVariantsWhenIncomplete` | frontend/components/PrescriptionModal.tsx:261-273 | with no complete pair there is no variant |
| `PrescriptionModal.ResultFor` | frontend/components/PrescriptionModal.tsx:157-193 | an analysed score gives the AI's result; every other outcome gives an error naming the medication |
| `PrescriptionModal.ScoreAll` | frontend/components/PrescriptionModal.tsx:212-330 | one request per valid medication, in order, each with the endpoint and variants of the mode, and its result from what that request got back |
| `PrescriptionModal.AcceptsFile` | frontend/components/PrescriptionModal.tsx:142 | a CSV or PDF type is accepted whatever the name, a `.csv` or `.pdf` name whatever the type, and nothing else |
| `PrescriptionModal.Form.SetInputMethod` | frontend/components/PrescriptionModal.tsx:416 | the tab sets the input method and nothing else changes |
| `PrescriptionModal.Form.ChooseFile` | frontend/components/PrescriptionModal.tsx:139-148 | an accepted file becomes the chosen file; a refused one raises the alert and keeps the earlier choice; choosing nothing changes nothing |
| `PrescriptionModal.Form.RemoveFile` | frontend/components/PrescriptionModal.tsx:150-155 | no file is chosen afterwards and nothing else changes |
| `PrescriptionModal.Form.Submit` | frontend/components/PrescriptionModal.tsx:195-340 | results cleared; stops with no non-blank medication, or in manual mode with no complete variant; otherwise one request and one result per valid medication, in order |
| `LocalVideoPlayer.FindShowing` | frontend/components/LocalVideoPlayer.tsx:59-64 | the position found shows at t, and none before it; None exactly when no line shows |
| `LocalVideoPlayer.CaptionAt` | frontend/components/LocalVideoPlayer.tsx:59-65 | the text of the first line whose closed interval holds t, '' when none does |
| `LocalVideoPlayer.HighlightWithinOverlay` | frontend/components/LocalVideoPlayer.tsx:221-223 | a highlighted line also shows; the two differ only at a line's end |
| `LocalVideoPlayer.BoundaryShowsEarlierLine` | frontend/components/LocalVideoPlayer.tsx:59-65 | at a shared boundary the overlay shows the earlier line while the later one is highlighted |
| `LocalVideoPlayer.FormatTime` | frontend/components/LocalVideoPlayer.tsx:117-121 | the text is at least four characters |
| `LocalVideoPlayer.FormatTimeFields` | frontend/components/LocalVideoPlayer.tsx:117-121 | unpadded whole minutes, ':', two-digit seconds in 00..59 |
| `LocalVideoPlayer.FullVideoUrl` | frontend/components/LocalVideoPlayer.tsx:132-133 | URLs starting "/api/videos/" get the backend origin in front, others are unchanged |
| `LocalVideoPlayer.FullVideoUrlIdempotent` | frontend/components/LocalVideoPlayer.tsx:132-133 | prefixing twice is prefixing once |
| `LocalVideoPlayer.StreamUrlIsLocal` | frontend/components/LocalVideoPlayer.tsx:132-133 | the backend's stream URLs get the backend origin |
| `LocalVideoPlayer.Player.constructor` | frontend/components/LocalVideoPlayer.tsx:33-37 | at the start, nothing reported and no caption |
| `LocalVideoPlayer.Player.TimeUpdate` | frontend/components/LocalVideoPlayer.tsx:55-65 | the time is reported and the caption becomes the one at that time |
| `LocalVideoPlayer.Player.SeekTo` | frontend/components/LocalVideoPlayer.tsx:94-100 | with the element present, it moves to the time and reports it; otherwise nothing changes |
| `LocalVideoPlayer.Player.Seek` | frontend/components/LocalVideoPlayer.tsx:94-100 | the slider's first value is the target |
| `LocalVideoPlayer.Player.Restart` | frontend/components/LocalVideoPlayer.tsx:110-115 | seeks to and reports 0 |
| `LocalVideoPlayer.Player.TranscriptClick` | frontend/components/LocalVideoPlayer.tsx:123-129 | seeks to and reports the clicked line's start |
| `YouTubePlayer.ExtractVideoId` | frontend/components/YouTubePlayer.tsx:33-36 | eleven id characters or ''; '' exactly when no pattern matches |
| `YouTubePlayer.ExtractAtFirstMatch` | frontend/components/YouTubePlayer.tsx:33-36 | the id is the one at the leftmost match |
| `YouTubePlayer.AgreesWithBackend` | frontend/components/YouTubePlayer.tsx:33-36 | where the player finds an id, the backend finds the same one; where it finds none, the backend returns the input or uses its second pattern |
| `YouTubePlayer.CurrentSubtitleIsLastStarted` | frontend/components/YouTubePlayer.tsx:144-152 | the caption is the text of the last line, in list order, that has started |
| `YouTubePlayer.CurrentSubtitleBeforeFirst` | frontend/components/YouTubePlayer.tsx:144-152 | with no line started, and for an empty transcript, the caption is '' |
| `YouTubePlayer.FormatTime` | frontend/components/YouTubePlayer.tsx:137-141 | the text is at least five characters |
| `YouTubePlayer.FormatTimeFields` | frontend/components/YouTubePlayer.tsx:137-141 | minutes padded to at least two digits, ':', two-digit seconds in 00..59 |
| `YouTubePlayer.PlayingReport` | frontend/components/YouTubePlayer.tsx:98-105 | playing for state 1, paused for state 2, nothing for any other state |
| `YouTubePlayer.Controller.constructor` | frontend/components/YouTubePlayer.tsx:27-30 | not ready, nothing reported |
| `YouTubePlayer.Controller.Ready` | frontend/components/YouTubePlayer.tsx:57-60 | the player becomes ready and nothing is reported |
| `YouTubePlayer.Controller.StateChange` | frontend/components/YouTubePlayer.tsx:98-105 | the report of the state, if any, is passed on, and the player's playing flag follows it; other states change nothing |
| `YouTubePlayer.Controller.SeekTo` | frontend/components/YouTubePlayer.tsx:108-113 | once ready, it moves to the time and reports it |
| `YouTubePlayer.Controller.Reset` | frontend/components/YouTubePlayer.tsx:116-123 | once ready, it reports time 0 and paused |
| `PatientPrescriptions.MarkAsRead` | frontend/app/patient/prescriptions/page.tsx:53-63 | the length is kept; on success the entries with the id become read at the instant and all others are unchanged; nothing changes on failure |
| `PatientPrescriptions.MarkAsReadTwice` | frontend/app/patient/prescriptions/page.tsx:60-62 | marking is idempotent and never makes a read entry unread |
| `PatientPrescriptions.MedicationLines` | frontend/app/patient/prescriptions/page.tsx:94 | line i is "i+1. " followed by medication i |
| `PatientPrescriptions.MedicationListLines` | frontend/app/patient/prescriptions/page.tsx:94 | the medication block splits back into the numbered lines, in list order |
| `PatientPrescriptions.DownloadTextLayout` | frontend/app/patient/prescriptions/page.tsx:80-105 | the trimmed text is the header with the status uppercased, the medication block and the footer |
| `PatientPrescriptions.FilenameDateHasNoSlash` | frontend/app/patient/prescriptions/page.tsx:112 | every '/' of the date becomes '-' in the file name |
| `DoctorPatients.TitleRoundTrip` | frontend/app/doctor/patients/page.tsx:94 | the title removed from "Doctor Instruction: " + title is that title |
| `DoctorPatients.TitleWithoutPrefix` | frontend/app/doctor/patients/page.tsx:94 | a type without the prefix is shown as it is |
| `DoctorPatients.InstructionFromFields` | frontend/app/doctor/patients/page.tsx:92-99 | status 'watched' exactly when the watched flag is set; duration always '0:00' |
| `DoctorPatients.AsWrittenNeverWatched` | frontend/app/doctor/patients/page.tsx:96-98 | as written, every listed video shows as unwatched with no completion time |
| `DoctorPatients.WatchedVideoShownUnwatched` | frontend/app/doctor/patients/page.tsx:96-97 | a video listed as watched is shown unwatched |
| `DoctorPatients.InstructionOf` | frontend/app/doctor/patients/page.tsx:92-99 | status 'watched' exactly when the backend lists it as watched; duration '0:00' |
| `DoctorPatients.FetchVideos` | frontend/app/doctor/patients/page.tsx:86-100 | one instruction per listed video, in list order, each `InstructionOf` of its video: the corrected mapping, whose status follows the listing's `status` |
| `DoctorPatients.TranscriptionSource` | frontend/app/doctor/patients/page.tsx:224-234 | a non-empty audio recording, else a non-empty video recording, else nothing |
| `DoctorPatients.MockSubtitlesContiguous` | frontend/app/doctor/patients/page.tsx:280-296 | the fallback subtitles run back to back 0-2.5, 2.5-5 and 5-8 |
| `DoctorPatients.SubtitlesAfter` | frontend/app/doctor/patients/page.tsx:274-296 | a failure gives the fallback subtitles, a reply its transcription or [] |
| `DoctorPatients.SendVideo` | frontend/app/doctor/patients/page.tsx:302-310 | an upload only with a recording and a non-empty title |
| `DoctorPatients.MedicationLabel` | frontend/app/doctor/patients/page.tsx:472 | the label starts with the count and "Medication" |
| `DoctorPatients.MedicationLabelPlural` | frontend/app/doctor/patients/page.tsx:472 | plural exactly when the count is above one |
| `DoctorPatients.Capitalize` | frontend/app/doctor/patients/page.tsx:513 | the first character is uppercased and the rest kept |
| `DoctorPatients.CapitalizeIdempotent` | frontend/app/doctor/patients/page.tsx:513 | capitalising twice is capitalising once |
| `PatientDiagnostics.ConvertTranscriptKeeps` | frontend/app/patient/diagnostics/page.tsx:74-79 | count, order and text kept; timestamp is start or 0; a missing transcript is [] |
| `PatientDiagnostics.ListedCueInterval` | frontend/app/patient/diagnostics/page.tsx:74-79 | a backend subtitle keeps its own interval in the local player |
| `PatientDiagnostics.FetchVideos` | frontend/app/patient/diagnostics/page.tsx:63-82 | one entry per listed video, in order, each played locally, with id, date, time, type, status, URL and summary copied and the transcript converted cue by cue (whose properties `ConvertTranscriptKeeps` states) |
| `PatientDiagnostics.BotText` | frontend/app/patient/diagnostics/page.tsx:142-157 | the response when non-empty, otherwise the fallback, and the connection message on an exception |
| `PatientDiagnostics.Library.constructor` | frontend/app/patient/diagnostics/page.tsx:48-54 | nothing selected, no messages, empty input, paused at 0 |
| `PatientDiagnostics.Library.Fetched` | frontend/app/patient/diagnostics/page.tsx:63-88 | the library becomes the mapped list when the backend answered |
| `PatientDiagnostics.Library.Select` | frontend/app/patient/diagnostics/page.tsx:91-105 | time 0, paused, and the messages replaced by the single greeting |
| `PatientDiagnostics.Library.Send` | frontend/app/patient/diagnostics/page.tsx:112-162 | nothing for blank input or no selection; otherwise the question as message n + 1, input cleared, the answer as message n + 2 |
| `PatientDiagnostics.Library.PlayPause` | frontend/app/patient/diagnostics/page.tsx:164-177 | the pause hint is added only when pausing with exactly one message |
| `PatientDiagnostics.Library.Type` | frontend/app/patient/diagnostics/page.tsx:348 | only the input changes |
| `PatientDiagnostics.Library.TimeUpdate` | frontend/app/patient/diagnostics/page.tsx:285 | only the playback time changes |

## Left out

- Network, AI and third-party calls become parameters: scoring, AI analysis, chat, transcription, YouTube, pytube. The JSON files and file writes of the stores are left out as well; each store is an in-memory `seq`.
- Clocks, uuids and locale formatting (`datetime.now`, `uuid4`, `strftime`, `toLocaleString`) are parameters. Instants are integers.
- PatientDiagnostics.Library.Send: both new messages carry the same instant, while the page reads `new Date()` once before the request and once after it.
- PrescriptionRoutes.FinalizeRequest is the body after validation: the `"Dr. Smith"` default of `doctor_name` is applied before it and is not modelled.
- VideoRoutes.NewVideo: a subtitles string that is valid JSON but not a list (such as `"{}"`) is stored as it is by the source; the model has only a parsed list or a parse failure.
- Numbers are exact reals. IEEE rounding, Python `round(…, 2)` on segment times and the buffered/progress percentages are left out.
- `parseInt` is modelled on exact integers: precision loss on very long digit strings is left out.
- `JsNumber.Rem` is stated only for positive divisors, the only ones the source uses.
- Unicode case mapping is left out: `ToLower` and `ToUpper` change ASCII letters only.
- Browser media is left out: getUserMedia, MediaRecorder, Blob and URL objects, volume and mute, and the YouTube polling interval.
- Interleavings while an `await` is pending are left out: each handler is one atomic step.
- Component re-renders and React's batching of setter calls are left out.
- `Common.Assign` appends when the index is past the end. JavaScript would leave holes there, and no handler reaches that case.
- The result selection in the dialog (`handleSelectAlternative`) and rendering-only lookups are left out. The chosen file's content is left out, and so is clearing the file input's DOM value in `handleRemoveFile`.
- PrescriptionModal.ResultFor: the AI result is taken as given, and its raw score data is not modelled. An error `detail` that is not a string is not modelled.
- SubtitleEditor.Editor.Edit: requires a shown row; a past-the-end index is covered by `DraftOf` and `AddDraftAsWritten`.
- SubtitleEditor.Editor.Save: the list holds complete rows only, so the as-written save of the empty object over the added row is shown by `AddDraftAsWritten` (the guard passes) and not carried into the editor's list.
- LocalVideoPlayer.Player.Seek: requires a non-empty slider value, which the slider always gives.
- LocalVideoPlayer.Player.TimeUpdate: requires the element to exist, because the listener is attached only then.
- PatientPrescriptions.DownloadTextLayout: shows the line structure of the medication block only; the header and footer are stated as the template's lines, without a whole-text split.
- DoctorPatients.InstructionOf: the corrected mapping shows no completion time, because the listing carries none.
- PrescriptionRoutes.SortNewestFirst: states newest-first order and a permutation, not that records created at the same instant keep their relative order as Python's stable sort does.
- Transcribe.TranscribeAudio: an exception raised by `get_groq_client()` or `audio.read()`, before the empty-upload test, is not modelled; only the transcription step after it can raise. How the Whisper reply is turned into segments (transcribe.py:146-188) is part of that step's outcome.
- YouTubeService.ExtractVideoId: Python's `re` is modelled only for these two patterns and the bare-id check.
- The scoring-file endpoint is modelled as a request per medication, with the file content left out.

## Findings

| source | as written | input that shows it | evidently intended | confidence | as-written member | corrected member |
|---|---|---|---|---|---|---|
| frontend/components/SubtitleEditor.tsx:83-93 | `handleEdit(subtitles.length)` reads the list from before the append, so the draft is the spread of `undefined`, an empty object | any list, for example the empty one: the draft after adding is `{}`, not the new "New subtitle" row, and saving it would write `{}` over that row | the editor opens on the row just added, with that row as the draft | not executed | `SubtitleEditor.AddDraftAsWritten` | `SubtitleEditor.Editor.Add` |
| frontend/app/doctor/patients/page.tsx:96-98 | the status is read from `video.watched` and the completion time from `video.watched_at`, fields the video listing never sends | a listed video whose status is "watched": it is shown as unwatched | the status follows the listing's `status` field | not executed | `DoctorPatients.WatchedVideoShownUnwatched` | `DoctorPatients.InstructionOf` |
