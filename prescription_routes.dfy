/** The prescription routes of the backend (backend/app/api/routes/prescription.py):
    the store of finalized prescriptions, its listing and mark-as-read, and the
    clean-up of the AI reply before it is parsed as JSON.

    The JSON file the routes load and save is the `records` field of a
    `PrescriptionStore`; the clock and the id generator are parameters. Instants
    are integers: `datetime.now().isoformat()` strings of one format compare like
    the instants they name. */
module PrescriptionRoutes {
  import opened Common
  import opened Text

  datatype Prescription = Prescription(
    id: string,
    patientId: Option<int>,
    patientName: string,
    doctorName: Option<string>,
    medications: seq<string>,
    createdAt: int,
    status: string,
    read: bool,
    readAt: Option<int>)

  /** The body of POST /finalize (`FinalizePrescriptionRequest`) once
      validated; the `"Dr. Smith"` default of `doctor_name` is applied before
      it. */
  datatype FinalizeRequest = FinalizeRequest(
    patientId: Option<int>,
    patientName: string,
    medications: seq<string>,
    doctorName: Option<string>)

  datatype FinalizeResponse = FinalizeResponse(
    success: bool,
    prescriptionId: string,
    message: string,
    medicationsCount: nat)

  /** The record finalize stores for a request. */
  function NewRecord(req: FinalizeRequest, id: string, now: int): Prescription {
    Prescription(id, req.patientId, req.patientName, req.doctorName, req.medications,
                 now, "active", false, None)
  }

  /** Does a record belong in the listing for `patientId`? */
  predicate ForPatient(p: Prescription, patientId: Option<int>) {
    patientId.None? || p.patientId == Some(patientId.value)
  }

  /** The records listed for `patientId`, before sorting. */
  function Listed(records: seq<Prescription>, patientId: Option<int>): seq<Prescription> {
    Filter(records, p => ForPatient(p, patientId))
  }

  /** Newest first: created_at never increases along the list. */
  predicate NewestFirst(s: seq<Prescription>) {
    forall i, j :: 0 <= i < j < |s| ==> s[i].createdAt >= s[j].createdAt
  }

  /** The record after mark-as-read at instant `now`. */
  function MarkedRead(p: Prescription, now: int): Prescription {
    p.(read := true, readAt := Some(now))
  }

  /** The key mark-as-read looks records up by. */
  function RecordId(p: Prescription): string {
    p.id
  }

  const NotFound := HttpError(404, "Prescription not found")

  class PrescriptionStore {
    var records: seq<Prescription>

    /** A store whose file does not exist yet (or fails to load) starts empty. */
    constructor ()
      ensures records == []
    {
      records := [];
    }

    /** POST /finalize: append one record built from the request. */
    method Finalize(req: FinalizeRequest, newId: string, now: int) returns (resp: FinalizeResponse)
      modifies this
      ensures |records| == |old(records)| + 1
      ensures records[..|old(records)|] == old(records)
      ensures records[|records| - 1] == NewRecord(req, newId, now)
      ensures resp.success && resp.prescriptionId == newId
      ensures resp.message == "Prescription sent to " + req.patientName
      ensures resp.medicationsCount == |req.medications|
    {
      records := records + [NewRecord(req, newId, now)];
      resp := FinalizeResponse(true, newId, "Prescription sent to " + req.patientName, |req.medications|);
    }

    /** GET /list: the patient's records (all records without a patient id), newest first. */
    method List(patientId: Option<int>) returns (r: seq<Prescription>)
      ensures multiset(r) == multiset(Listed(records, patientId))
      ensures NewestFirst(r)
    {
      var filtered := Listed(records, patientId);
      var a := new Prescription[|filtered|](i requires 0 <= i < |filtered| => filtered[i]);
      assert a[..] == filtered;
      SortNewestFirst(a);
      r := a[..];
    }

    /** The index of the first record with `id`, by a linear scan. */
    method IndexOf(id: string) returns (k: Option<nat>)
      ensures k == FirstWith(records, RecordId, id)
    {
      var i := 0;
      while i < |records|
        invariant 0 <= i <= |records|
        invariant forall j :: 0 <= j < i ==> records[j].id != id
      {
        if records[i].id == id {
          FirstWithIs(records, RecordId, id, i);
          return Some(i);
        }
        i := i + 1;
      }
      k := None;
    }

    /** PUT /{id}/read: mark the first record with `id` as read at `now`, or 404. */
    method MarkRead(id: string, now: int) returns (r: Result<string>)
      modifies this
      ensures FirstWith(old(records), RecordId, id).None? ==> r == Err(NotFound) && records == old(records)
      ensures FirstWith(old(records), RecordId, id).Some? ==>
        var k := FirstWith(old(records), RecordId, id).value;
        r == Ok("Prescription marked as read")
        && records == old(records)[k := MarkedRead(old(records)[k], now)]
    {
      var k := IndexOf(id);
      if k.None? {
        return Err(NotFound);
      }
      records := records[k.value := MarkedRead(records[k.value], now)];
      r := Ok("Prescription marked as read");
    }
  }

  /** `list.sort(key=created_at, reverse=True)`, in place: an insertion sort that
      moves each record left past the older ones. */
  method SortNewestFirst(a: array<Prescription>)
    modifies a
    ensures NewestFirst(a[..])
    ensures multiset(a[..]) == multiset(old(a[..]))
  {
    var i := 0;
    while i < a.Length
      invariant 0 <= i <= a.Length
      invariant NewestFirst(a[..i])
      invariant multiset(a[..]) == multiset(old(a[..]))
    {
      SinkLeft(a, i);
      i := i + 1;
    }
    assert a[..a.Length] == a[..];
  }

  /** One insertion step: with `a[..i]` newest first, move `a[i]` left past the
      strictly older records so that `a[..i + 1]` is newest first. */
  method SinkLeft(a: array<Prescription>, i: nat)
    requires i < a.Length
    requires NewestFirst(a[..i])
    modifies a
    ensures NewestFirst(a[..i + 1])
    ensures multiset(a[..]) == multiset(old(a[..]))
  {
    var j := i;
    SinkStart(a[..], i);
    while j > 0 && a[j - 1].createdAt < a[j].createdAt
      invariant 0 <= j <= i
      invariant SunkTo(a[..], j, i)
      invariant multiset(a[..]) == multiset(old(a[..]))
    {
      ghost var before := a[..];
      a[j - 1], a[j] := a[j], a[j - 1];
      assert a[..] == Swap(before, j);
      SwapStep(before, j, i);
      j := j - 1;
    }
    SinkDone(a[..], j, i);
  }

  /** Inside `s[..i + 1]`, the record at `j` is newer than every record after
      it, and the others are newest first. */
  ghost predicate SunkTo(s: seq<Prescription>, j: nat, i: nat)
    requires j <= i < |s|
  {
    && (forall k, l :: 0 <= k < l <= i && k != j && l != j ==> s[k].createdAt >= s[l].createdAt)
    && (forall l :: j < l <= i ==> s[j].createdAt > s[l].createdAt)
  }

  /** `s` with the records at `j - 1` and `j` exchanged. */
  function Swap(s: seq<Prescription>, j: nat): (r: seq<Prescription>)
    requires 0 < j < |s|
    ensures |r| == |s| && multiset(r) == multiset(s)
  {
    s[j - 1 := s[j]][j := s[j - 1]]
  }

  lemma SinkStart(s: seq<Prescription>, i: nat)
    requires i < |s| && NewestFirst(s[..i])
    ensures SunkTo(s, i, i)
  {
    forall k, l | 0 <= k < l <= i && k != i && l != i
      ensures s[k].createdAt >= s[l].createdAt
    {
      assert s[..i][k] == s[k] && s[..i][l] == s[l];
    }
  }

  lemma SwapStep(s: seq<Prescription>, j: nat, i: nat)
    requires 0 < j <= i < |s| && SunkTo(s, j, i)
    requires s[j - 1].createdAt < s[j].createdAt
    ensures SunkTo(Swap(s, j), j - 1, i)
  {
    var r := Swap(s, j);
    forall k, l | 0 <= k < l <= i && k != j - 1 && l != j - 1
      ensures r[k].createdAt >= r[l].createdAt
    {
      var k', l' := if k == j then j - 1 else k, if l == j then j - 1 else l;
      assert r[k] == s[k'] && r[l] == s[l'];
      if k == j {
        assert s[j - 1].createdAt < s[j].createdAt;
      }
    }
  }

  lemma SinkDone(s: seq<Prescription>, j: nat, i: nat)
    requires j <= i < |s| && SunkTo(s, j, i)
    requires j == 0 || s[j - 1].createdAt >= s[j].createdAt
    ensures NewestFirst(s[..i + 1])
  {
    var t := s[..i + 1];
    forall k, l | 0 <= k < l < |t| ensures t[k].createdAt >= t[l].createdAt {
      assert t[k] == s[k] && t[l] == s[l];
      if k != j && l == j {
        assert s[k].createdAt >= s[j - 1].createdAt || k == j - 1;
      }
    }
  }

  /** Listing for a patient keeps exactly that patient's records, each as often as it is stored. */
  lemma ListedForPatient(records: seq<Prescription>, pid: int, p: Prescription)
    ensures multiset(Listed(records, Some(pid)))[p] ==
            if p.patientId == Some(pid) then multiset(records)[p] else 0
  {
    FilterCount(records, q => ForPatient(q, Some(pid)), p);
  }

  /** Listing without a patient id keeps every record. */
  lemma ListedAll(records: seq<Prescription>)
    ensures Listed(records, None) == records
  {
    FilterAll(records, q => ForPatient(q, None));
  }

  /** A finalized prescription appears in the listing for its patient (and in the
      unfiltered listing), unread and active. */
  lemma FinalizedIsListed(records: seq<Prescription>, req: FinalizeRequest, id: string, now: int)
    ensures NewRecord(req, id, now) in Listed(records + [NewRecord(req, id, now)], req.patientId)
    ensures NewRecord(req, id, now).status == "active" && !NewRecord(req, id, now).read
  {
    var p := NewRecord(req, id, now);
    FilterMembership(records + [p], q => ForPatient(q, req.patientId), p);
  }

  /** Marking as read twice changes only the read instant. */
  lemma MarkReadTwice(p: Prescription, t1: int, t2: int)
    ensures MarkedRead(MarkedRead(p, t1), t2) == MarkedRead(p, t2)
  {
  }

  /** `s` without a leading `fence`, when it has one. */
  function DropPrefix(s: string, fence: string): string {
    if StartsWith(s, fence) then s[|fence|..] else s
  }

  /** `s` without a trailing `fence`, when it has one. */
  function DropSuffix(s: string, fence: string): string {
    if EndsWith(s, fence) then s[..|s| - |fence|] else s
  }

  /** The AI reply with Markdown code fences removed, as analyze-prescription
      cleans it before `json.loads`: strip, drop "```json", then "```", then a
      trailing "```", and strip again. */
  function CleanFences(reply: string): string {
    PyStrip(DropSuffix(DropPrefix(DropPrefix(PyStrip(reply), "```json"), "```"), "```"))
  }

  /** A reply that, once stripped, neither starts nor ends with a fence is only stripped. */
  lemma CleanFencesFenceFree(reply: string)
    requires !StartsWith(PyStrip(reply), "```") && !EndsWith(PyStrip(reply), "```")
    ensures CleanFences(reply) == PyStrip(reply)
  {
    FenceFreeDrops(PyStrip(reply));
    StripIdempotent(reply);
  }

  lemma FenceFreeDrops(a: string)
    requires !StartsWith(a, "```") && !EndsWith(a, "```")
    ensures DropSuffix(DropPrefix(DropPrefix(a, "```json"), "```"), "```") == a
  {
    NotStartsWithLonger(a, "```", "json");
    assert "```" + "json" == "```json";
    assert DropPrefix(a, "```json") == a;
  }

  /** A fenced JSON block gives back its stripped body. */
  lemma CleanFencesJsonBlock(body: string)
    requires body == [] || body[0] != '`'
    ensures CleanFences("```json" + body + "```") == PyStrip(body)
  {
    var s := "```json" + body + "```";
    StripFenced(s);
    DropJsonFence(body);
    UnfencedBody(body);
    CleanFencesOf(s, body);
  }

  lemma DropJsonFence(body: string)
    ensures DropPrefix("```json" + body + "```", "```json") == body + "```"
  {
    var s := "```json" + body + "```";
    assert s[..7] == "```json";
  }

  lemma UnfencedBody(body: string)
    requires body == [] || body[0] != '`'
    ensures DropSuffix(DropPrefix(body + "```", "```"), "```") == body
  {
    var b := body + "```";
    if body != [] {
      assert b[0] == body[0];
      assert DropPrefix(b, "```") == b;
    } else {
      assert DropPrefix(b, "```") == [];
    }
  }

  lemma CleanFencesOf(s: string, body: string)
    requires PyStrip(s) == s
    requires DropSuffix(DropPrefix(DropPrefix(s, "```json"), "```"), "```") == body
    ensures CleanFences(s) == PyStrip(body)
  {
  }

  lemma NotStartsWithLonger(s: string, p: string, q: string)
    requires !StartsWith(s, p)
    ensures !StartsWith(s, p + q)
  {
    if |p + q| <= |s| {
      assert s[..|p|] == s[..|p + q|][..|p|];
      assert (p + q)[..|p|] == p;
    }
  }

  /** Stripping twice is stripping once. */
  lemma StripIdempotent(s: string)
    ensures PyStrip(PyStrip(s)) == PyStrip(s)
  {
    var t := PyStrip(s);
    if t != [] {
      assert TrimStart(t, IsPySpace) == t;
      assert TrimEnd(t, IsPySpace) == t;
    }
  }

  /** A string that starts and ends with a backtick has nothing to strip. */
  lemma StripFenced(s: string)
    requires |s| > 0 && s[0] == '`' && s[|s| - 1] == '`'
    ensures PyStrip(s) == s
  {
    assert TrimStart(s, IsPySpace) == s;
  }
}
