/** The diagnostic catalogue (backend/app/services/diagnostic_service.py): a
    fixed list of six educational videos, returned whole or looked up by id.
    The list is built once and never changed, so the service is a value. */
module DiagnosticService {
  import opened Common
  import opened ChatModels

  datatype Diagnostic = Diagnostic(
    id: int,
    date: string,
    time: string,
    kind: string,
    status: string,
    videoUrl: Option<string>,
    summary: string,
    transcript: Option<seq<TranscriptItem>>)

  datatype Service = Service(diagnostics: seq<Diagnostic>)

  const WatchPrefix := "https://www.youtube.com/watch?v="

  /** The hand-written part of a catalogue entry. */
  datatype Row = Row(date: string, time: string, kind: string, videoId: string, summary: string)

  const Rows: seq<Row> := [
    Row("November 8, 2024", "10:30 AM", "Understanding Alzheimer's Disease", "xyQY8a-ng6g",
        "Educational video explaining Alzheimer's disease, its symptoms, stages, and impact on the brain."),
    Row("November 1, 2024", "2:15 PM", "Memory Care Activities", "8nLl7dGPX0M",
        "Practical activities and exercises to help maintain cognitive function in Alzheimer's patients."),
    Row("October 25, 2024", "11:00 AM", "Communication Strategies", "OM0CMaafAjo",
        "Effective communication techniques when caring for someone with dementia or Alzheimer's."),
    Row("October 18, 2024", "3:45 PM", "10 Warning Signs of Alzheimer's", "Pp_RKRNZJKQ",
        "Learn about the 10 warning signs of Alzheimer's disease and when to seek medical help."),
    Row("October 10, 2024", "9:30 AM", "Brain Exercises for Memory", "UjAqBhSb9DE",
        "Simple brain exercises and activities to help improve memory and cognitive function."),
    Row("October 3, 2024", "1:00 PM", "Caring for Someone with Dementia", "HBRLMoL5YHY",
        "Comprehensive guide for caregivers on how to provide effective care for dementia patients.")]

  /** A catalogue entry: completed, with a YouTube watch URL and a transcript
      that is fetched later. */
  function Entry(id: int, row: Row): Diagnostic {
    Diagnostic(id, row.date, row.time, row.kind, "completed",
               Some(WatchPrefix + row.videoId), row.summary, Some([]))
  }

  /** `_initialize_diagnostics`: entry `i` of the rows gets id i + 1. */
  function InitialDiagnostics(): seq<Diagnostic> {
    seq(|Rows|, i requires 0 <= i < |Rows| => Entry(i + 1, Rows[i]))
  }

  /** The service as its constructor leaves it. */
  function NewService(): (svc: Service)
    ensures |svc.diagnostics| == 6
    ensures forall i :: 0 <= i < 6 ==> svc.diagnostics[i].id == i + 1
  {
    Service(InitialDiagnostics())
  }

  /** `get_diagnostic_history`: the stored list itself. */
  function History(svc: Service): (r: seq<Diagnostic>)
    ensures r == svc.diagnostics
  {
    svc.diagnostics
  }

  /** `get_diagnostic_by_id`: the first diagnostic with the id, or None. */
  function ById(diagnostics: seq<Diagnostic>, id: int): (r: Option<Diagnostic>)
    ensures r.Some? ==> r.value in diagnostics && r.value.id == id
    ensures r.None? <==> forall j :: 0 <= j < |diagnostics| ==> diagnostics[j].id != id
  {
    if diagnostics == [] then None
    else if diagnostics[0].id == id then Some(diagnostics[0])
    else ById(diagnostics[1..], id)
  }

  /** The lookup finds the entry at the first position holding the id: an
      entry after it with the same id is never returned. */
  lemma {:induction false} ByIdAt(diagnostics: seq<Diagnostic>, id: int, k: nat)
    requires k < |diagnostics| && diagnostics[k].id == id
    requires forall j :: 0 <= j < k ==> diagnostics[j].id != id
    ensures ById(diagnostics, id) == Some(diagnostics[k])
  {
    if k > 0 {
      ByIdAt(diagnostics[1..], id, k - 1);
    }
  }

  /** The catalogue holds ids 1 to 6 in order, so they are distinct; every
      entry is completed, has a video URL and an empty transcript. */
  lemma CatalogueShape()
    ensures var d := InitialDiagnostics();
            && |d| == 6
            && (forall i :: 0 <= i < 6 ==> d[i].id == i + 1)
            && (forall i, j :: 0 <= i < j < 6 ==> d[i].id != d[j].id)
            && (forall i :: 0 <= i < 6 ==>
                  d[i].status == "completed" && d[i].transcript == Some([]) && d[i].videoUrl.Some?)
  {
  }

  /** Looking up 1 to 6 in the initial catalogue gives entry id - 1; every
      other id gives None. */
  lemma CatalogueLookup(id: int)
    ensures 1 <= id <= 6 ==> ById(InitialDiagnostics(), id) == Some(InitialDiagnostics()[id - 1])
    ensures !(1 <= id <= 6) ==> ById(InitialDiagnostics(), id).None?
  {
    var d := InitialDiagnostics();
    if 1 <= id <= 6 {
      ByIdAt(d, id, id - 1);
    }
  }
}
