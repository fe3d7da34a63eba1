/** The prescription dialog (frontend/components/PrescriptionModal.tsx): the
    editable lists of medications and genetic variants, the patient context
    lists typed as comma-separated text, the case-insensitive "scribe" list
    of chosen medications, and the submission that scores each medication.

    The dialog's state is the `Form` object; each setter call is an
    assignment of a field. The scoring service and the AI analysis are
    outside the model: their outcome for each request is a parameter. */
module PrescriptionModal {
  import opened Common
  import opened Text

  datatype RsidPair = RsidPair(rsid: string, genotype: string)
  datatype GenePair = GenePair(gene: string, star: string)
  datatype RsidField = Rsid | Genotype
  datatype GeneField = Gene | Star

  /** A genetic variant as the scoring service receives it. */
  datatype Variant = RsidVariant(rsid: string, genotype: string) | GeneVariant(gene: string, star: string)

  datatype Context = Context(
    age: Option<int>,
    sex: string,
    ancestry: string,
    comorbidities: seq<string>,
    currentMedications: seq<string>,
    allergies: seq<string>)

  /** The three context fields typed as comma-separated lists. */
  datatype ListField = Comorbidities | CurrentMedications | Allergies

  datatype InputMethod = Manual | FileInput

  /** A file picked in the upload tab: its MIME type and its name (the
      content is sent to the scoring endpoint and not modelled). */
  datatype ChosenFile = ChosenFile(mimeType: string, name: string)

  /** A per-medication result; the AI's other fields are not modelled. */
  datatype MedicationResult = MedicationResult(medication: string, error: Option<string>)

  /** What is sent to the scoring service for one medication. */
  datatype ScoreRequest =
    | ManualRequest(variants: seq<Variant>, medication: string, context: Context)
    | FileRequest(medication: string, context: Context)

  /** How the AI analysis of a score ended: its result, an error status, or an exception. */
  datatype AiOutcome = Analysed(result: MedicationResult) | AiRejected | AiUnreachable

  /** How the scoring request ended: a score (then analysed by the AI), an
      error status with the body's `detail` if any, or an exception. */
  datatype ScoreOutcome = Scored(ai: AiOutcome) | ScoreRejected(detail: Option<string>) | ScoreUnreachable

  /** Why submission stopped before any request. */
  datatype Stop = NoMedication | NoVariant

  function SetRsid(p: RsidPair, field: RsidField, value: string): RsidPair {
    match field
    case Rsid => p.(rsid := value)
    case Genotype => p.(genotype := value)
  }

  function SetGene(p: GenePair, field: GeneField, value: string): GenePair {
    match field
    case Gene => p.(gene := value)
    case Star => p.(star := value)
  }

  /** `{ ...list[i], [field]: value }`: past the end there is no pair to
      copy, and the field that is not set stays empty. */
  function RsidUpdate(pairs: seq<RsidPair>, i: nat, field: RsidField, value: string): RsidPair {
    SetRsid(if i < |pairs| then pairs[i] else RsidPair("", ""), field, value)
  }

  function GeneUpdate(pairs: seq<GenePair>, i: nat, field: GeneField, value: string): GenePair {
    SetGene(if i < |pairs| then pairs[i] else GenePair("", ""), field, value)
  }

  predicate IsBlank(s: string) {
    JsTrim(s) == []
  }

  /** `medications.filter(med => med.trim() !== '')`. */
  function ValidMedications(medications: seq<string>): (r: seq<string>)
    ensures forall i :: 0 <= i < |r| ==> !IsBlank(r[i])
  {
    Filter(medications, (m: string) => !IsBlank(m))
  }

  predicate CompleteRsid(p: RsidPair) {
    p.rsid != [] && p.genotype != []
  }

  predicate CompleteGene(p: GenePair) {
    p.gene != [] && p.star != []
  }

  function AsRsidVariant(p: RsidPair): Variant {
    RsidVariant(p.rsid, p.genotype)
  }

  function AsGeneVariant(p: GenePair): Variant {
    GeneVariant(p.gene, p.star)
  }

  /** The variants of a manual submission: the complete rsid pairs, then the
      complete gene pairs, each in list order. */
  function AllVariants(rsids: seq<RsidPair>, genes: seq<GenePair>): seq<Variant> {
    Map(Filter(rsids, CompleteRsid), AsRsidVariant) + Map(Filter(genes, CompleteGene), AsGeneVariant)
  }

  /** Every variant sent has both its fields set; the rsid variants come
      first, one per complete rsid pair, then one per complete gene pair. */
  lemma AllVariantsShape(rsids: seq<RsidPair>, genes: seq<GenePair>)
    ensures var v := AllVariants(rsids, genes);
            var k := |Filter(rsids, CompleteRsid)|;
            && |v| == k + |Filter(genes, CompleteGene)|
            && (forall i :: 0 <= i < k ==> v[i].RsidVariant? && v[i].rsid != [] && v[i].genotype != [])
            && (forall i :: k <= i < |v| ==> v[i].GeneVariant? && v[i].gene != [] && v[i].star != [])
  {
  }

  /** No complete pair of either kind means no variant at all. */
  lemma NoVariantsWhenIncomplete(rsids: seq<RsidPair>, genes: seq<GenePair>)
    requires forall i :: 0 <= i < |rsids| ==> !CompleteRsid(rsids[i])
    requires forall i :: 0 <= i < |genes| ==> !CompleteGene(genes[i])
    ensures AllVariants(rsids, genes) == []
  {
    FilterNone(rsids, CompleteRsid);
    FilterNone(genes, CompleteGene);
  }

  /** The context sent: blank entries dropped from its three lists. */
  function CleanContext(c: Context): Context {
    c.(comorbidities := ValidMedications(c.comorbidities),
       currentMedications := ValidMedications(c.currentMedications),
       allergies := ValidMedications(c.allergies))
  }

  /** The result recorded for one medication. */
  function ResultFor(medication: string, outcome: ScoreOutcome): (r: MedicationResult)
    ensures !(outcome.Scored? && outcome.ai.Analysed?) ==> r.medication == medication && r.error.Some?
    ensures outcome.Scored? && outcome.ai.Analysed? ==> r == outcome.ai.result
  {
    match outcome
    case Scored(Analysed(result)) => result
    case Scored(AiRejected) => MedicationResult(medication, Some("AI analysis unavailable"))
    case Scored(AiUnreachable) => MedicationResult(medication, Some("AI analysis failed"))
    case ScoreRejected(detail) =>
      MedicationResult(medication, Some(if detail.Some? && detail.value != [] then detail.value
                                        else "Failed to analyze " + medication))
    case ScoreUnreachable => MedicationResult(medication, Some("Network error for " + medication))
  }

  /** The request for one medication. */
  function RequestFor(fileMode: bool, variants: seq<Variant>, medication: string, context: Context): ScoreRequest {
    if fileMode then FileRequest(medication, CleanContext(context))
    else ManualRequest(variants, medication, CleanContext(context))
  }

  /** `handleArrayInput`: the comma-separated pieces, trimmed, without the
      empty ones. */
  function ParseList(value: string): seq<string> {
    Filter(Map(Split(value, ','), JsTrim), (item: string) => item != [])
  }

  /** No item is empty, holds a comma or starts or ends with whitespace; the
      items are exactly the non-empty trimmed pieces. */
  lemma ParseListItems(value: string)
    ensures var r := ParseList(value);
            forall i :: 0 <= i < |r| ==>
              && r[i] != [] && ',' !in r[i]
              && !IsJsSpace(r[i][0]) && !IsJsSpace(r[i][|r[i]| - 1])
    ensures forall x :: x in ParseList(value) <==>
              x != [] && exists p :: p in Split(value, ',') && JsTrim(p) == x
  {
    var pieces := Split(value, ',');
    var trimmed := Map(pieces, JsTrim);
    var keep := (item: string) => item != [];
    SplitPiecesNoSep(value, ',');
    forall i | 0 <= i < |trimmed| ensures ',' !in trimmed[i] {
      TrimSubset(pieces[i], IsJsSpace);
    }
    forall x ensures x in ParseList(value) <==> x in trimmed && x != [] {
      FilterMembership(trimmed, keep, x);
    }
    forall x ensures x in trimmed <==> exists p :: p in pieces && JsTrim(p) == x {
      if x in trimmed {
        var i :| 0 <= i < |trimmed| && trimmed[i] == x;
        assert pieces[i] in pieces;
      }
      if exists p :: p in pieces && JsTrim(p) == x {
        var p :| p in pieces && JsTrim(p) == x;
        var i :| 0 <= i < |pieces| && pieces[i] == p;
        assert trimmed[i] == x;
      }
    }
  }

  /** The two names are equal up to case. */
  predicate SameName(a: string, b: string) {
    ToLower(a) == ToLower(b)
  }

  /** Some entry of the list is the name up to case. */
  predicate HasName(scribe: seq<string>, name: string) {
    exists i :: 0 <= i < |scribe| && SameName(scribe[i], name)
  }

  /** No two entries are equal up to case. */
  predicate NoCaseDuplicates(scribe: seq<string>) {
    forall i, j :: 0 <= i < j < |scribe| ==> !SameName(scribe[i], scribe[j])
  }

  /** `handleAddToScribe`: append the name unless it is already present up
      to case. */
  function AddName(scribe: seq<string>, name: string): (r: seq<string>)
    ensures HasName(r, name)
    ensures HasName(scribe, name) ==> r == scribe
    ensures !HasName(scribe, name) ==> r == scribe + [name]
  {
    if HasName(scribe, name) then scribe
    else
      assert SameName((scribe + [name])[|scribe|], name);
      scribe + [name]
  }

  /** Adding keeps the list free of duplicates up to case. */
  lemma AddNameKeepsDistinct(scribe: seq<string>, name: string)
    requires NoCaseDuplicates(scribe)
    ensures NoCaseDuplicates(AddName(scribe, name))
  {
    if !HasName(scribe, name) {
      var r := scribe + [name];
      forall i, j | 0 <= i < j < |r| ensures !SameName(r[i], r[j]) {
        if j == |scribe| {
          assert r[j] == name && r[i] == scribe[i];
          assert !SameName(scribe[i], name);
        }
      }
    }
  }

  /** Removing an entry (the row's remove button) keeps the list free of
      duplicates up to case. */
  lemma RemoveKeepsDistinct(scribe: seq<string>, i: int)
    requires NoCaseDuplicates(scribe)
    ensures NoCaseDuplicates(RemoveAt(scribe, i))
  {
    var r := RemoveAt(scribe, i);
    if 0 <= i < |scribe| {
      forall a, b | 0 <= a < b < |r| ensures !SameName(r[a], r[b]) {
        var a', b' := if a < i then a else a + 1, if b < i then b else b + 1;
        assert r[a] == scribe[a'] && r[b] == scribe[b'] && a' < b';
      }
    }
  }

  /** The file input accepts a CSV or PDF file, by type or by name. */
  function AcceptsFile(mimeType: string, name: string): (ok: bool)
    ensures mimeType == "text/csv" || mimeType == "application/pdf" ==> ok
    ensures EndsWith(name, ".csv") || EndsWith(name, ".pdf") ==> ok
    ensures ok ==> mimeType in {"text/csv", "application/pdf"} || EndsWith(name, ".csv") || EndsWith(name, ".pdf")
  {
    mimeType == "text/csv" || mimeType == "application/pdf" || EndsWith(name, ".csv") || EndsWith(name, ".pdf")
  }

  /** The loop over the valid medications, for either endpoint: one request
      per medication, and its result from what the endpoint answered. */
  method ScoreAll(valid: seq<string>, fileMode: bool, variants: seq<Variant>, context: Context,
                  score: ScoreRequest -> ScoreOutcome)
    returns (requests: seq<ScoreRequest>, all: seq<MedicationResult>)
    ensures |requests| == |valid| && |all| == |valid|
    ensures forall i :: 0 <= i < |valid| ==>
              && requests[i] == RequestFor(fileMode, variants, valid[i], context)
              && all[i] == ResultFor(valid[i], score(requests[i]))
  {
    requests, all := [], [];
    for k := 0 to |valid|
      invariant |requests| == k && |all| == k
      invariant forall i :: 0 <= i < k ==>
                  && requests[i] == RequestFor(fileMode, variants, valid[i], context)
                  && all[i] == ResultFor(valid[i], score(requests[i]))
    {
      var request := RequestFor(fileMode, variants, valid[k], context);
      requests := requests + [request];
      all := all + [ResultFor(valid[k], score(request))];
    }
  }

  class Form {
    var medications: seq<string>
    var rsidVariants: seq<RsidPair>
    var geneVariants: seq<GenePair>
    var context: Context
    var inputMethod: InputMethod
    /** The file chosen in the upload tab, `uploadedFile`. */
    var uploaded: Option<ChosenFile>
    var results: seq<MedicationResult>
    /** The scribe list, `prescriptions` in the dialog. */
    var scribe: seq<string>

    predicate Valid()
      reads this
    {
      NoCaseDuplicates(scribe)
    }

    /** The dialog as it opens: one empty row in each list. */
    constructor()
      ensures Valid()
      ensures medications == [""] && rsidVariants == [RsidPair("", "")] && geneVariants == [GenePair("", "")]
      ensures context == Context(None, "", "", [], [], []) && inputMethod == Manual && uploaded.None?
      ensures results == [] && scribe == []
    {
      medications := [""];
      rsidVariants := [RsidPair("", "")];
      geneVariants := [GenePair("", "")];
      context := Context(None, "", "", [], [], []);
      inputMethod := Manual;
      uploaded := None;
      results := [];
      scribe := [];
    }

    method AddMedication()
      modifies this
      ensures medications == old(medications) + [""]
      ensures rsidVariants == old(rsidVariants) && geneVariants == old(geneVariants) && scribe == old(scribe)
      ensures context == old(context) && results == old(results)
      ensures inputMethod == old(inputMethod) && uploaded == old(uploaded)
    {
      medications := medications + [""];
    }

    method RemoveMedication(i: int)
      modifies this
      ensures medications == RemoveAt(old(medications), i)
      ensures rsidVariants == old(rsidVariants) && geneVariants == old(geneVariants) && scribe == old(scribe)
      ensures context == old(context) && results == old(results)
      ensures inputMethod == old(inputMethod) && uploaded == old(uploaded)
    {
      medications := RemoveAt(medications, i);
    }

    method ChangeMedication(i: nat, value: string)
      modifies this
      ensures medications == Assign(old(medications), i, value)
      ensures rsidVariants == old(rsidVariants) && geneVariants == old(geneVariants) && scribe == old(scribe)
      ensures context == old(context) && results == old(results)
      ensures inputMethod == old(inputMethod) && uploaded == old(uploaded)
    {
      medications := Assign(medications, i, value);
    }

    method AddRsidVariant()
      modifies this
      ensures rsidVariants == old(rsidVariants) + [RsidPair("", "")]
      ensures medications == old(medications) && geneVariants == old(geneVariants) && scribe == old(scribe)
      ensures context == old(context) && results == old(results)
      ensures inputMethod == old(inputMethod) && uploaded == old(uploaded)
    {
      rsidVariants := rsidVariants + [RsidPair("", "")];
    }

    method RemoveRsidVariant(i: int)
      modifies this
      ensures rsidVariants == RemoveAt(old(rsidVariants), i)
      ensures medications == old(medications) && geneVariants == old(geneVariants) && scribe == old(scribe)
      ensures context == old(context) && results == old(results)
      ensures inputMethod == old(inputMethod) && uploaded == old(uploaded)
    {
      rsidVariants := RemoveAt(rsidVariants, i);
    }

    /** Only the named field of row `i` changes. */
    method ChangeRsidVariant(i: nat, field: RsidField, value: string)
      modifies this
      ensures rsidVariants == Assign(old(rsidVariants), i, RsidUpdate(old(rsidVariants), i, field, value))
      ensures i < |old(rsidVariants)| ==>
                (field == Rsid ==> rsidVariants[i] == old(rsidVariants)[i].(rsid := value))
                && (field == Genotype ==> rsidVariants[i] == old(rsidVariants)[i].(genotype := value))
      ensures medications == old(medications) && geneVariants == old(geneVariants) && scribe == old(scribe)
      ensures context == old(context) && results == old(results)
      ensures inputMethod == old(inputMethod) && uploaded == old(uploaded)
    {
      rsidVariants := Assign(rsidVariants, i, RsidUpdate(rsidVariants, i, field, value));
    }

    method AddGeneVariant()
      modifies this
      ensures geneVariants == old(geneVariants) + [GenePair("", "")]
      ensures medications == old(medications) && rsidVariants == old(rsidVariants) && scribe == old(scribe)
      ensures context == old(context) && results == old(results)
      ensures inputMethod == old(inputMethod) && uploaded == old(uploaded)
    {
      geneVariants := geneVariants + [GenePair("", "")];
    }

    method RemoveGeneVariant(i: int)
      modifies this
      ensures geneVariants == RemoveAt(old(geneVariants), i)
      ensures medications == old(medications) && rsidVariants == old(rsidVariants) && scribe == old(scribe)
      ensures context == old(context) && results == old(results)
      ensures inputMethod == old(inputMethod) && uploaded == old(uploaded)
    {
      geneVariants := RemoveAt(geneVariants, i);
    }

    /** Only the named field of row `i` changes. */
    method ChangeGeneVariant(i: nat, field: GeneField, value: string)
      modifies this
      ensures geneVariants == Assign(old(geneVariants), i, GeneUpdate(old(geneVariants), i, field, value))
      ensures i < |old(geneVariants)| ==>
                (field == Gene ==> geneVariants[i] == old(geneVariants)[i].(gene := value))
                && (field == Star ==> geneVariants[i] == old(geneVariants)[i].(star := value))
      ensures medications == old(medications) && rsidVariants == old(rsidVariants) && scribe == old(scribe)
      ensures context == old(context) && results == old(results)
      ensures inputMethod == old(inputMethod) && uploaded == old(uploaded)
    {
      geneVariants := Assign(geneVariants, i, GeneUpdate(geneVariants, i, field, value));
    }

    /** `handleArrayInput`: the typed list replaces one context list. */
    method ArrayInput(field: ListField, value: string)
      modifies this
      ensures field == Comorbidities ==> context == old(context).(comorbidities := ParseList(value))
      ensures field == CurrentMedications ==> context == old(context).(currentMedications := ParseList(value))
      ensures field == Allergies ==> context == old(context).(allergies := ParseList(value))
      ensures medications == old(medications) && rsidVariants == old(rsidVariants)
      ensures geneVariants == old(geneVariants) && scribe == old(scribe) && results == old(results)
      ensures inputMethod == old(inputMethod) && uploaded == old(uploaded)
    {
      var items := ParseList(value);
      match field
      case Comorbidities => context := context.(comorbidities := items);
      case CurrentMedications => context := context.(currentMedications := items);
      case Allergies => context := context.(allergies := items);
    }

    /** `handleAddToScribe`. */
    method AddToScribe(name: string)
      requires Valid()
      modifies this
      ensures Valid()
      ensures scribe == AddName(old(scribe), name)
      ensures medications == old(medications) && rsidVariants == old(rsidVariants)
      ensures geneVariants == old(geneVariants) && context == old(context) && results == old(results)
      ensures inputMethod == old(inputMethod) && uploaded == old(uploaded)
    {
      AddNameKeepsDistinct(scribe, name);
      scribe := AddName(scribe, name);
    }

    /** The remove button of scribe row `i`. */
    method RemoveFromScribe(i: int)
      requires Valid()
      modifies this
      ensures Valid()
      ensures scribe == RemoveAt(old(scribe), i)
      ensures medications == old(medications) && rsidVariants == old(rsidVariants)
      ensures geneVariants == old(geneVariants) && context == old(context) && results == old(results)
      ensures inputMethod == old(inputMethod) && uploaded == old(uploaded)
    {
      RemoveKeepsDistinct(scribe, i);
      scribe := RemoveAt(scribe, i);
    }

    /** The tab switch between manual input and file upload. */
    method SetInputMethod(m: InputMethod)
      modifies this
      ensures inputMethod == m && uploaded == old(uploaded)
      ensures medications == old(medications) && rsidVariants == old(rsidVariants) && geneVariants == old(geneVariants)
      ensures context == old(context) && scribe == old(scribe) && results == old(results)
    {
      inputMethod := m;
    }

    /** `handleFileChange`: a CSV or PDF file becomes the chosen file; any
        other file is refused with an alert and the earlier choice stays;
        choosing nothing changes nothing. */
    method ChooseFile(chosen: Option<ChosenFile>) returns (alert: Option<string>)
      modifies this
      ensures chosen.Some? && AcceptsFile(chosen.value.mimeType, chosen.value.name) ==>
                uploaded == chosen && alert.None?
      ensures chosen.Some? && !AcceptsFile(chosen.value.mimeType, chosen.value.name) ==>
                uploaded == old(uploaded) && alert == Some("Please upload a CSV or PDF file")
      ensures chosen.None? ==> uploaded == old(uploaded) && alert.None?
      ensures inputMethod == old(inputMethod)
      ensures medications == old(medications) && rsidVariants == old(rsidVariants) && geneVariants == old(geneVariants)
      ensures context == old(context) && scribe == old(scribe) && results == old(results)
    {
      alert := None;
      if chosen.Some? {
        if AcceptsFile(chosen.value.mimeType, chosen.value.name) {
          uploaded := chosen;
        } else {
          alert := Some("Please upload a CSV or PDF file");
        }
      }
    }

    /** `handleRemoveFile`: no file is chosen any more. */
    method RemoveFile()
      modifies this
      ensures uploaded.None? && inputMethod == old(inputMethod)
      ensures medications == old(medications) && rsidVariants == old(rsidVariants) && geneVariants == old(geneVariants)
      ensures context == old(context) && scribe == old(scribe) && results == old(results)
    {
      uploaded := None;
    }

    /** `handleSubmit`: the results are cleared; with no non-blank
        medication, or in manual mode with no complete variant, it stops
        before any request. Otherwise each non-blank medication, in order,
        gets one request and one result. The file endpoint is used only in
        file mode with a file chosen. */
    method Submit(score: ScoreRequest -> ScoreOutcome) returns (stop: Option<Stop>, requests: seq<ScoreRequest>)
      modifies this
      ensures var valid := ValidMedications(old(medications));
              var fileMode := old(inputMethod) == FileInput && old(uploaded).Some?;
              var variants := AllVariants(old(rsidVariants), old(geneVariants));
              && (stop == Some(NoMedication) <==> valid == [])
              && (stop == Some(NoVariant) <==> valid != [] && !fileMode && variants == [])
              && (stop.Some? ==> results == [] && requests == [])
              && (stop.None? ==>
                    && |requests| == |valid| && |results| == |valid|
                    && forall i :: 0 <= i < |valid| ==>
                         && requests[i] == RequestFor(fileMode, variants, valid[i], old(context))
                         && results[i] == ResultFor(valid[i], score(requests[i])))
      ensures medications == old(medications) && rsidVariants == old(rsidVariants) && geneVariants == old(geneVariants)
      ensures context == old(context) && scribe == old(scribe)
      ensures inputMethod == old(inputMethod) && uploaded == old(uploaded)
    {
      results := [];
      requests := [];
      var valid := ValidMedications(medications);
      if valid == [] {
        return Some(NoMedication), [];
      }
      var fileMode := inputMethod == FileInput && uploaded.Some?;
      var variants := AllVariants(rsidVariants, geneVariants);
      if !fileMode && variants == [] {
        return Some(NoVariant), [];
      }
      var all;
      requests, all := ScoreAll(valid, fileMode, variants, context, score);
      results := all;
      stop := None;
    }
  }
}
