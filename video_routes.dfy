/** The video routes of the backend (backend/app/api/routes/videos.py): the
    in-memory `video_storage` list, upload, the patient-facing listing, the
    lookups behind streaming and details, and the status update.

    The storage list is the `videos` field of a `VideoStore`. Writing the file,
    `uuid4`, `datetime.now` and `strftime` are outside the model: the new id,
    the instant and the date/time renderings are parameters. */
module VideoRoutes {
  import opened Common
  import opened Text

  /** One subtitle of the uploaded JSON array. */
  datatype Cue = Cue(start: real, end: real, text: string)

  /** The metadata record upload stores. */
  datatype Video = Video(
    id: string,
    title: string,
    description: string,
    filename: string,
    subtitles: seq<Cue>,
    uploadedAt: int,
    status: string,
    kind: string,
    completedAt: Option<int>)

  /** One entry of GET /list, the patient's view of a stored video. */
  datatype PatientVideo = PatientVideo(
    id: string,
    date: string,
    time: string,
    kind: string,
    status: string,
    videoUrl: string,
    summary: string,
    transcript: seq<Cue>)

  datatype UploadResponse = UploadResponse(success: bool, videoId: string, message: string)

  /** What GET /stream/{id} serves. */
  datatype Stream = Stream(filename: string, mediaType: string, disposition: string)

  const InstructionKind := "Doctor Instruction"
  const StreamPrefix := "/api/videos/stream/"
  const VideoNotFound := HttpError(404, "Video not found")
  const FileNotFound := HttpError(404, "Video file not found")

  /** The uploaded file's extension: the text after the last '.', or "webm". */
  function FileExtension(filename: string): (ext: string)
    ensures '.' !in ext
    ensures '.' in filename ==> EndsWith(filename, "." + ext)
    ensures '.' !in filename ==> ext == "webm"
  {
    if '.' in filename then
      var parts := Split(filename, '.');
      LastPiece(filename, '.');
      SplitPiecesNoSep(filename, '.');
      parts[|parts| - 1]
    else "webm"
  }

  /** With a separator present there are at least two pieces, and the last one
      is what follows the last separator. */
  lemma LastPiece(s: string, sep: char)
    requires sep in s
    ensures var parts := Split(s, sep);
            |parts| >= 2 && EndsWith(s, [sep] + parts[|parts| - 1])
  {
    TwoPieces(s, sep);
    JoinSplit(s, sep);
    JoinEndsWithLast(Split(s, sep), sep);
  }

  /** A string holding the separator splits into at least two pieces. */
  lemma TwoPieces(s: string, sep: char)
    requires sep in s
    ensures |Split(s, sep)| >= 2
  {
    JoinSplit(s, sep);
    SplitPiecesNoSep(s, sep);
  }

  /** Joined text ends with the separator and the last part. */
  lemma JoinEndsWithLast(parts: seq<string>, sep: char)
    requires |parts| >= 2
    ensures EndsWith(Join(parts, [sep]), [sep] + parts[|parts| - 1])
  {
    var n := |parts|;
    var init, rest := parts[..n - 1], parts[n - 1..];
    assert init + rest == parts;
    JoinConcat(init, rest, [sep]);
    assert Join(rest, [sep]) == parts[n - 1];
    EndsWithSepLast(Join(init, [sep]), sep, parts[n - 1]);
  }

  lemma EndsWithSepLast(a: string, c: char, w: string)
    ensures EndsWith(a + [c] + w, [c] + w)
  {
    assert (a + [c] + w)[|a|..] == [c] + w;
  }

  /** The name the file is saved under. */
  function StoredFilename(id: string, filename: string): string {
    id + "." + FileExtension(filename)
  }

  /** The record upload appends; an unparseable subtitles string (`None`) becomes []. */
  function NewVideo(id: string, filename: string, title: string, description: string,
                    subtitles: Option<seq<Cue>>, now: int): Video {
    Video(id, title, description, StoredFilename(id, filename),
          if subtitles.Some? then subtitles.value else [], now, "unwatched", InstructionKind, None)
  }

  /** The key the stream, details and status routes look videos up by. */
  function VideoId(v: Video): string {
    v.id
  }

  /** The record after a status update at instant `now`. */
  function WithStatus(v: Video, status: string, now: int): Video {
    if status == "watched" then v.(status := status, completedAt := Some(now))
    else v.(status := status)
  }

  class VideoStore {
    var videos: seq<Video>

    /** The module-level list starts empty. */
    constructor ()
      ensures videos == []
    {
      videos := [];
    }

    /** POST /upload: store the metadata of a new video. */
    method Upload(newId: string, filename: string, title: string, description: string,
                  subtitles: Option<seq<Cue>>, now: int) returns (resp: UploadResponse)
      modifies this
      ensures videos == old(videos) + [NewVideo(newId, filename, title, description, subtitles, now)]
      ensures resp == UploadResponse(true, newId, "Video uploaded successfully")
    {
      videos := videos + [NewVideo(newId, filename, title, description, subtitles, now)];
      resp := UploadResponse(true, newId, "Video uploaded successfully");
    }

    /** GET /list: one patient entry per stored video, in storage order. */
    method List(formatDate: int -> string, formatTime: int -> string) returns (r: seq<PatientVideo>)
      ensures |r| == |videos|
      ensures forall i :: 0 <= i < |r| ==>
        && r[i].id == videos[i].id
        && r[i].date == formatDate(videos[i].uploadedAt)
        && r[i].time == formatTime(videos[i].uploadedAt)
        && r[i].kind == videos[i].kind + ": " + videos[i].title
        && r[i].status == videos[i].status
        && r[i].videoUrl == StreamPrefix + videos[i].id
        && r[i].summary == videos[i].description
        && r[i].transcript == videos[i].subtitles
    {
      r := [];
      for i := 0 to |videos|
        invariant |r| == i
        invariant forall k :: 0 <= k < i ==>
          && r[k].id == videos[k].id
          && r[k].date == formatDate(videos[k].uploadedAt)
          && r[k].time == formatTime(videos[k].uploadedAt)
          && r[k].kind == videos[k].kind + ": " + videos[k].title
          && r[k].status == videos[k].status
          && r[k].videoUrl == StreamPrefix + videos[k].id
          && r[k].summary == videos[k].description
          && r[k].transcript == videos[k].subtitles
      {
        var v := videos[i];
        r := r + [PatientVideo(v.id, formatDate(v.uploadedAt), formatTime(v.uploadedAt),
                               v.kind + ": " + v.title, v.status, StreamPrefix + v.id,
                               v.description, v.subtitles)];
      }
    }

    /** The index of the first stored video with `id`, by a linear scan. */
    method IndexOf(id: string) returns (k: Option<nat>)
      ensures k == FirstWith(videos, VideoId, id)
    {
      var i := 0;
      while i < |videos|
        invariant 0 <= i <= |videos|
        invariant forall j :: 0 <= j < i ==> videos[j].id != id
      {
        if videos[i].id == id {
          FirstWithIs(videos, VideoId, id, i);
          return Some(i);
        }
        i := i + 1;
      }
      k := None;
    }

    /** GET /stream/{id}: the stored file, or 404 for an unknown id or a missing file. */
    method StreamVideo(id: string, fileExists: string -> bool) returns (r: Result<Stream>)
      ensures FirstWith(videos, VideoId, id).None? ==> r == Err(VideoNotFound)
      ensures FirstWith(videos, VideoId, id).Some? ==>
        var v := videos[FirstWith(videos, VideoId, id).value];
        r == if fileExists(v.filename)
             then Ok(Stream(v.filename, "video/webm", "inline; filename=" + v.filename))
             else Err(FileNotFound)
    {
      var k := IndexOf(id);
      if k.None? {
        return Err(VideoNotFound);
      }
      var v := videos[k.value];
      if !fileExists(v.filename) {
        return Err(FileNotFound);
      }
      r := Ok(Stream(v.filename, "video/webm", "inline; filename=" + v.filename));
    }

    /** GET /{id}: the stored record, or 404. */
    method Details(id: string) returns (r: Result<Video>)
      ensures FirstWith(videos, VideoId, id).None? ==> r == Err(VideoNotFound)
      ensures FirstWith(videos, VideoId, id).Some? ==> r == Ok(videos[FirstWith(videos, VideoId, id).value])
    {
      var k := IndexOf(id);
      if k.None? {
        return Err(VideoNotFound);
      }
      r := Ok(videos[k.value]);
    }

    /** PUT /{id}/status: set the status of the first video with `id`, and its
        completion instant when the status is "watched"; 404 for an unknown id. */
    method UpdateStatus(id: string, status: string, now: int) returns (r: Result<string>)
      modifies this
      ensures FirstWith(old(videos), VideoId, id).None? ==> r == Err(VideoNotFound) && videos == old(videos)
      ensures FirstWith(old(videos), VideoId, id).Some? ==>
        var k := FirstWith(old(videos), VideoId, id).value;
        r == Ok("Video status updated to " + status)
        && videos == old(videos)[k := WithStatus(old(videos)[k], status, now)]
    {
      var k := IndexOf(id);
      if k.None? {
        return Err(VideoNotFound);
      }
      videos := videos[k.value := WithStatus(videos[k.value], status, now)];
      r := Ok("Video status updated to " + status);
    }
  }

  /** A status update changes the status and nothing else, except that "watched"
      also records the completion instant. */
  lemma StatusUpdateFields(v: Video, status: string, now: int)
    ensures WithStatus(v, status, now).status == status
    ensures WithStatus(v, status, now).(status := v.status, completedAt := v.completedAt) == v
    ensures WithStatus(v, status, now).completedAt ==
            if status == "watched" then Some(now) else v.completedAt
  {
  }

  /** An uploaded video is unwatched, a doctor instruction, stored under
      "<id>.<extension>", and listed with the kind "Doctor Instruction: <title>". */
  lemma UploadedVideo(id: string, filename: string, title: string, description: string,
                      subtitles: Option<seq<Cue>>, now: int)
    ensures var v := NewVideo(id, filename, title, description, subtitles, now);
            && v.status == "unwatched" && v.completedAt.None?
            && v.kind + ": " + v.title == "Doctor Instruction: " + title
            && StartsWith(v.filename, id + ".")
            && (subtitles.None? ==> v.subtitles == [])
  {
    var v := NewVideo(id, filename, title, description, subtitles, now);
    assert v.filename[..|id + "."|] == id + ".";
  }
}
