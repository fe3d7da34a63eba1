/** The transcript record shared by the backend services
    (backend/app/models/chat_models.py). */
module ChatModels {
  import opened Common

  /** A transcript line; the timestamp, in seconds, may be absent. */
  datatype TranscriptItem = TranscriptItem(timestamp: Option<real>, text: string)
}
