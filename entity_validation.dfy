/**
 * The per-entity verdicts of `entity_validator.py`: looking up an entity's source
 * text units, and the decisions of the Groq, NLI and hybrid validators once the
 * external answers (the language model's reply, the NLI model's averaged score)
 * are given as inputs.
 *
 * Confidence is the likelihood that the description is hallucinated: 0 means well
 * supported, 1 means invented.
 */
module EntityValidation {
  import opened Wrappers
  import opened Strings
  import opened ApiResponse

  /** A row of `entities.parquet`; `textUnitIds` is already decoded from JSON. */
  datatype EntityRow = EntityRow(id: string, title: string, entityType: string, description: string, textUnitIds: seq<string>)

  /** A row of `text_units.parquet`. */
  datatype TextUnit = TextUnit(id: string, text: string)

  /** An entry of `issues`. Messages that embed a formatted number keep the number. */
  datatype Issue =
    | Text(message: string)
    | LowCoverage(found: nat, total: nat)      // "Low term coverage (…%)"
    | Uncertain(found: nat, total: nat)        // "Uncertain (coverage: …%)"
    | WeakEntailment(confidence: real)         // "… (avg entailment: 1-confidence)"

  /** `ValidationResult`, without the wall-clock `validation_time`. */
  datatype ValidationResult = ValidationResult(
    entityId: string, entityName: string, entityType: string, description: string,
    confidence: real, isHallucinated: bool, validationMethod: string, issues: seq<Issue>)

  /** What the chat-completion call gave back: some content, `None` content, or an exception. */
  datatype ApiReply = Answer(content: string) | EmptyContent | Failure(error: string)

  const NoSourceIssue: Issue := Text("No source texts available")
  const EmptyResponseError: string := "API returned empty response"

  function ApiErrorIssue(error: string): Issue {
    Text("API error: " + error)
  }

  /** A result for `row` with the row's own id, name, type and description. */
  function ResultFor(row: EntityRow, confidence: real, isHallucinated: bool, validationMethod: string, issues: seq<Issue>): ValidationResult {
    ValidationResult(row.id, row.title, row.entityType, row.description, confidence, isHallucinated, validationMethod, issues)
  }

  /** The verdict side of 0.5 matches the hallucination flag. */
  predicate Calibrated(r: ValidationResult) {
    (r.isHallucinated ==> r.confidence >= 0.5) && (!r.isHallucinated ==> r.confidence <= 0.5)
  }

  // ---------------------------------------------------------------- source texts

  /** `{row['id']: row['text'] for row in text_units}`: a later row with the same id wins. */
  function TextUnitMap(units: seq<TextUnit>): (m: map<string, string>)
    ensures forall id :: id in m <==> exists k :: 0 <= k < |units| && units[k].id == id
    decreases |units|
  {
    if units == [] then map[]
    else
      var init := units[..|units| - 1];
      var last := units[|units| - 1];
      var m := TextUnitMap(init)[last.id := last.text];
      assert forall k :: 0 <= k < |init| ==> init[k] == units[k];
      m
  }

  /** A unit whose id does not occur again later gives its text to the map. */
  lemma {:induction false} TextUnitMapLastWins(units: seq<TextUnit>, k: nat)
    requires k < |units|
    requires forall j :: k < j < |units| ==> units[j].id != units[k].id
    ensures TextUnitMap(units)[units[k].id] == units[k].text
    decreases |units|
  {
    if k < |units| - 1 {
      TextUnitMapLastWins(units[..|units| - 1], k);
    }
  }

  /** `get_source_texts` as a value: the texts of the known ids, in id order. */
  function SourceTexts(ids: seq<string>, textUnits: map<string, string>): (texts: seq<string>)
    ensures |texts| <= |ids|
    decreases |ids|
  {
    if ids == [] then []
    else
      var last := ids[|ids| - 1];
      SourceTexts(ids[..|ids| - 1], textUnits) + (if last in textUnits then [textUnits[last]] else [])
  }

  /** Looking up two lists of ids one after the other is looking up their concatenation. */
  lemma {:induction false} SourceTextsAppend(a: seq<string>, b: seq<string>, textUnits: map<string, string>)
    ensures SourceTexts(a + b, textUnits) == SourceTexts(a, textUnits) + SourceTexts(b, textUnits)
    decreases |b|
  {
    if b == [] {
      assert a + b == a;
    } else {
      var init := b[..|b| - 1];
      assert (a + b)[..|a + b| - 1] == a + init;
      SourceTextsAppend(a, init, textUnits);
    }
  }

  /** Nothing is found exactly when no id is known. */
  lemma {:induction false} SourceTextsEmpty(ids: seq<string>, textUnits: map<string, string>)
    ensures SourceTexts(ids, textUnits) == [] <==> forall k :: 0 <= k < |ids| ==> ids[k] !in textUnits
    decreases |ids|
  {
    if ids != [] {
      var init := ids[..|ids| - 1];
      SourceTextsEmpty(init, textUnits);
      assert forall k :: 0 <= k < |init| ==> init[k] == ids[k];
    }
  }

  /** When every id is known, the result is each id's text, in order, duplicates kept. */
  lemma {:induction false} SourceTextsAllKnown(ids: seq<string>, textUnits: map<string, string>)
    requires forall k :: 0 <= k < |ids| ==> ids[k] in textUnits
    ensures |SourceTexts(ids, textUnits)| == |ids|
    ensures forall k :: 0 <= k < |ids| ==> SourceTexts(ids, textUnits)[k] == textUnits[ids[k]]
    decreases |ids|
  {
    if ids != [] {
      var init := ids[..|ids| - 1];
      assert forall k :: 0 <= k < |init| ==> init[k] == ids[k];
      SourceTextsAllKnown(init, textUnits);
    }
  }

  /** Unknown ids are dropped: a text is found for an id only if the id is known. */
  lemma {:induction false} SourceTextsFromMap(ids: seq<string>, textUnits: map<string, string>)
    ensures forall t :: t in SourceTexts(ids, textUnits) ==> exists k :: 0 <= k < |ids| && ids[k] in textUnits && textUnits[ids[k]] == t
    decreases |ids|
  {
    if ids != [] {
      var init := ids[..|ids| - 1];
      SourceTextsFromMap(init, textUnits);
      assert forall k :: 0 <= k < |init| ==> init[k] == ids[k];
    }
  }

  /** `get_source_texts`: the loop over `text_unit_ids`. */
  method GetSourceTexts(row: EntityRow, textUnits: map<string, string>) returns (texts: seq<string>)
    ensures texts == SourceTexts(row.textUnitIds, textUnits)
  {
    var ids := row.textUnitIds;
    texts := [];
    for i := 0 to |ids|
      invariant texts == SourceTexts(ids[..i], textUnits)
    {
      assert ids[..i + 1][..i] == ids[..i];
      if ids[i] in textUnits {
        texts := texts + [textUnits[ids[i]]];
      }
    }
    assert ids[..|ids|] == ids;
  }

  /** The result every validator returns for an entity without source texts. */
  function NoSourceResult(row: EntityRow, validationMethod: string): (r: ValidationResult)
    ensures r.entityId == row.id && r.validationMethod == validationMethod
    ensures r.confidence == 0.0 && !r.isHallucinated && r.issues == [NoSourceIssue]
  {
    ResultFor(row, 0.0, false, validationMethod, [NoSourceIssue])
  }

  // ---------------------------------------------------------------- Groq validator

  function TextIssues(messages: seq<string>): (issues: seq<Issue>)
    ensures |issues| == |messages|
    ensures forall k :: 0 <= k < |messages| ==> issues[k] == Text(messages[k])
  {
    seq(|messages|, k requires 0 <= k < |messages| => Text(messages[k]))
  }

  /** `GroqEntityValidator.validate_entity`, given the reply of the chat completion. */
  function GroqValidate(row: EntityRow, textUnits: map<string, string>, reply: ApiReply): (r: ValidationResult)
    ensures r.entityId == row.id && r.validationMethod == "groq"
    ensures Calibrated(r)
    ensures |r.issues| <= 1
  {
    if SourceTexts(row.textUnitIds, textUnits) == [] then NoSourceResult(row, "groq")
    else
      match reply
      case Answer(content) =>
        var v := ApiVerdict(Strip(content));
        ResultFor(row, v.confidence, v.isHallucinated, "groq", TextIssues(v.issues))
      case EmptyContent => ResultFor(row, 0.0, false, "groq", [ApiErrorIssue(EmptyResponseError)])
      case Failure(e) => ResultFor(row, 0.0, false, "groq", [ApiErrorIssue(e)])
  }

  /** A failed call is reported as an issue, never as a hallucination. */
  lemma GroqFailureNotHallucinated(row: EntityRow, textUnits: map<string, string>, reply: ApiReply)
    requires !reply.Answer?
    ensures !GroqValidate(row, textUnits, reply).isHallucinated
    ensures GroqValidate(row, textUnits, reply).confidence == 0.0
    ensures |GroqValidate(row, textUnits, reply).issues| == 1
  {
  }

  // ---------------------------------------------------------------- NLI validator

  /** `GPUNLIValidator.validate_entity`, given the model's averaged contradiction
      score (`1 - max entailment`, averaged over the sentences that were checked). */
  function NliValidate(row: EntityRow, textUnits: map<string, string>, contradiction: real): (r: ValidationResult)
    ensures r.entityId == row.id && r.validationMethod == "gpu_nli"
    ensures Calibrated(r)
    ensures SourceTexts(row.textUnitIds, textUnits) != [] ==>
      r.confidence == contradiction && (r.isHallucinated <==> contradiction > 0.5) && (r.isHallucinated <==> r.issues != [])
  {
    if SourceTexts(row.textUnitIds, textUnits) == [] then NoSourceResult(row, "gpu_nli")
    else
      var hallucinated := contradiction > 0.5;
      ResultFor(row, contradiction, hallucinated, "gpu_nli", if hallucinated then [WeakEntailment(contradiction)] else [])
  }

  // ---------------------------------------------------------------- hybrid validator

  /** The characters `word.strip('.,;:!?()"\'')` removes. */
  const Punctuation: set<char> := {'.', ',', ';', ':', '!', '?', '(', ')', '"', '\''}

  /** The words kept as key terms: longer than three characters and all letters. */
  predicate IsKeyWord(w: string) {
    |w| > 3 && IsAlphaWord(w)
  }

  /** `[word.strip(P) for word in words if len(word) > 3 and word.isalpha()]` */
  function KeyTermsOf(words: seq<string>): (terms: seq<string>)
    ensures |terms| <= |words|
    decreases |words|
  {
    if words == [] then []
    else
      var w := words[0];
      (if IsKeyWord(w) then [StripSet(w, Punctuation)] else []) + KeyTermsOf(words[1..])
  }

  /** The words of `words` that pass the filter, unchanged. */
  function Filtered(words: seq<string>): (kept: seq<string>)
    ensures forall k :: 0 <= k < |kept| ==> IsKeyWord(kept[k])
    decreases |words|
  {
    if words == [] then []
    else
      var rest := Filtered(words[1..]);
      (if IsKeyWord(words[0]) then [words[0]] else []) + rest
  }

  /** The strip never changes a key term: a word of letters has no punctuation at its ends. */
  lemma {:induction false} KeyTermsAreFilteredWords(words: seq<string>)
    ensures KeyTermsOf(words) == Filtered(words)
    decreases |words|
  {
    if words != [] {
      KeyTermsAreFilteredWords(words[1..]);
      var w := words[0];
      if IsKeyWord(w) {
        assert !IsAlpha(w[0]) || w[0] !in Punctuation;
        assert !IsAlpha(w[|w| - 1]) || w[|w| - 1] !in Punctuation;
        StripSetNoop(w, Punctuation);
      }
    }
  }

  /** The key terms of a description: its lowercase words of four or more letters. */
  function KeyTerms(description: string): seq<string> {
    KeyTermsOf(Words(Lower(description)))
  }

  /** How many of `terms` occur in `source`. */
  function CountFound(terms: seq<string>, source: string): (found: nat)
    ensures found <= |terms|
    decreases |terms|
  {
    if terms == [] then 0
    else (if Contains(source, terms[0]) then 1 else 0) + CountFound(terms[1..], source)
  }

  /** `found / total if total else 0.0` */
  function Coverage(found: nat, total: nat): (c: real)
    requires found <= total
    ensures 0.0 <= c <= 1.0
    ensures total == 0 ==> c == 0.0
    ensures total > 0 && found == total ==> c == 1.0
  {
    if total == 0 then 0.0 else found as real / total as real
  }

  /** The text-matching facts the hybrid decision rests on. */
  datatype Evidence = Evidence(found: nat, total: nat, nameFound: bool)

  predicate WellFormed(e: Evidence) {
    e.found <= e.total
  }

  /** `coverage > 0.7`, in integers. */
  predicate AboveHigh(e: Evidence) {
    10 * e.found > 7 * e.total
  }

  /** `coverage < 0.3`, in integers (no key terms means coverage 0.0). */
  predicate BelowLow(e: Evidence) {
    e.total == 0 || 10 * e.found < 3 * e.total
  }

  /** `coverage < 0.5`, in integers. */
  predicate BelowHalf(e: Evidence) {
    e.total == 0 || 2 * e.found < e.total
  }

  /** The integer comparisons are the ones on the real-valued coverage. */
  lemma CoverageThresholds(e: Evidence)
    requires WellFormed(e)
    ensures AboveHigh(e) <==> Coverage(e.found, e.total) > 0.7
    ensures BelowLow(e) <==> Coverage(e.found, e.total) < 0.3
    ensures BelowHalf(e) <==> Coverage(e.found, e.total) < 0.5
  {
    if e.total > 0 {
      var f := e.found as real;
      var n := e.total as real;
      var c := f / n;
      assert c * n == f;
      RatioCompare(f, n, 7.0, 10.0);
      RatioCompare(f, n, 3.0, 10.0);
      RatioCompare(f, n, 1.0, 2.0);
    }
  }

  /** Comparing a ratio `f / n` against `p / q` by cross-multiplying. */
  lemma RatioCompare(f: real, n: real, p: real, q: real)
    requires n > 0.0 && q > 0.0
    ensures f / n > p / q <==> q * f > p * n
    ensures f / n < p / q <==> q * f < p * n
  {
    assert f / n - p / q == (q * f - p * n) / (n * q);
  }

  /** `" ".join(source_texts).lower()` */
  function CombinedSource(texts: seq<string>): string {
    Lower(Join(" ", texts))
  }

  /** Term coverage and the name test of the text-matching step. */
  function EvidenceOf(row: EntityRow, texts: seq<string>): (e: Evidence)
    ensures WellFormed(e)
    ensures e.total == |KeyTerms(row.description)|
  {
    var source := CombinedSource(texts);
    var terms := KeyTerms(row.description);
    Evidence(CountFound(terms, source), |terms|, Contains(source, Lower(row.title)))
  }

  function EvidenceFor(row: EntityRow, textUnits: map<string, string>): Evidence {
    EvidenceOf(row, SourceTexts(row.textUnitIds, textUnits))
  }

  /** The issues of the "likely hallucinated" branch: one per failing test, name first. */
  function FailureIssues(name: string, e: Evidence): (issues: seq<Issue>)
    ensures |issues| == (if e.nameFound then 0 else 1) + (if BelowLow(e) then 1 else 0)
  {
    (if e.nameFound then [] else [Text("Entity name '" + name + "' not found in source texts")]) +
    (if BelowLow(e) then [LowCoverage(e.found, e.total)] else [])
  }

  /** The lines after `REASON:` in a spot-check answer, in order. */
  function ReasonTexts(lines: seq<string>): (reasons: seq<string>)
    ensures |reasons| <= |lines|
    decreases |lines|
  {
    if lines == [] then []
    else
      var line := lines[0];
      (if StartsWith(line, "REASON:") then (TaggedHasColon(line, "REASON:"); [Strip(AfterFirst(line, ':'))]) else []) +
      ReasonTexts(lines[1..])
  }

  /** There is a reason exactly when some line starts with `REASON:`. */
  lemma {:induction false} ReasonTextsEmpty(lines: seq<string>)
    ensures ReasonTexts(lines) == [] <==> forall k :: 0 <= k < |lines| ==> !StartsWith(lines[k], "REASON:")
    decreases |lines|
  {
    if lines != [] {
      ReasonTextsEmpty(lines[1..]);
      assert forall k :: 1 <= k < |lines| ==> lines[k] == lines[1..][k - 1];
    }
  }

  /** `_groq_spot_check`, given the reply of the chat completion. The result carries
      an empty entity id. */
  function SpotCheck(name: string, entityType: string, description: string, reply: ApiReply): (r: ValidationResult)
    ensures r.entityId == "" && r.entityName == name && r.validationMethod == "hybrid_groq"
    ensures Calibrated(r)
    ensures reply.Answer? ==> (r.isHallucinated <==> Contains(Upper(Strip(reply.content)), "HALLUCINATED"))
    ensures reply.Answer? ==> r.confidence == (if r.isHallucinated then 0.7 else 0.3)
    ensures !reply.Answer? ==> r.confidence == 0.5 && !r.isHallucinated && |r.issues| == 1
  {
    match reply
    case Answer(content) =>
      var answer := Strip(content);
      var hallucinated := Contains(Upper(answer), "HALLUCINATED");
      ValidationResult("", name, entityType, description, if hallucinated then 0.7 else 0.3, hallucinated,
        "hybrid_groq", TextIssues(ReasonTexts(SplitOn(answer, '\n'))))
    case EmptyContent =>
      ValidationResult("", name, entityType, description, 0.5, false, "hybrid_groq", [ApiErrorIssue(EmptyResponseError)])
    case Failure(e) =>
      ValidationResult("", name, entityType, description, 0.5, false, "hybrid_groq", [ApiErrorIssue(e)])
  }

  /** The substring test also fires on "NOT HALLUCINATED". */
  lemma NotHallucinatedCountsAsHallucinated(name: string, entityType: string, description: string, content: string)
    requires Contains(Upper(Strip(content)), "NOT HALLUCINATED")
    ensures SpotCheck(name, entityType, description, Answer(content)).isHallucinated
  {
    var phrase := "NOT HALLUCINATED";
    assert phrase[4..4 + |"HALLUCINATED"|] == "HALLUCINATED";
    assert OccursAt(phrase, "HALLUCINATED", 4);
    ContainsTransitive(Upper(Strip(content)), phrase, "HALLUCINATED");
  }

  /** `HybridValidator.validate_entity` as written. In the uncertain band with Groq
      available it returns the spot check's result, whose entity id is empty. */
  function HybridValidate(row: EntityRow, textUnits: map<string, string>, groqAvailable: bool, reply: ApiReply): (r: ValidationResult)
    ensures Calibrated(r)
    ensures r.entityName == row.title
  {
    var texts := SourceTexts(row.textUnitIds, textUnits);
    if texts == [] then NoSourceResult(row, "hybrid")
    else
      var e := EvidenceOf(row, texts);
      if AboveHigh(e) && e.nameFound then ResultFor(row, 0.1, false, "hybrid_text", [])
      else if BelowLow(e) || !e.nameFound then ResultFor(row, 0.8, true, "hybrid_text", FailureIssues(row.title, e))
      else if groqAvailable then SpotCheck(row.title, row.entityType, row.description, reply).(validationMethod := "hybrid_groq")
      else ResultFor(row, 0.5, BelowHalf(e), "hybrid_text", [Uncertain(e.found, e.total)])
  }

  /** Name found and coverage above 0.7: supported, with no issues. */
  lemma HybridHighCoverage(row: EntityRow, textUnits: map<string, string>, groqAvailable: bool, reply: ApiReply)
    requires SourceTexts(row.textUnitIds, textUnits) != []
    requires EvidenceFor(row, textUnits).nameFound
    requires Coverage(EvidenceFor(row, textUnits).found, EvidenceFor(row, textUnits).total) > 0.7
    ensures var r := HybridValidate(row, textUnits, groqAvailable, reply);
      !r.isHallucinated && r.confidence == 0.1 && r.issues == [] && r.validationMethod == "hybrid_text" && r.entityId == row.id
  {
    CoverageThresholds(EvidenceFor(row, textUnits));
  }

  /** Name missing or coverage below 0.3: hallucinated with confidence 0.8, one issue
      per failing test. */
  lemma HybridLowCoverage(row: EntityRow, textUnits: map<string, string>, groqAvailable: bool, reply: ApiReply)
    requires SourceTexts(row.textUnitIds, textUnits) != []
    requires var e := EvidenceFor(row, textUnits); !e.nameFound || Coverage(e.found, e.total) < 0.3
    ensures var r := HybridValidate(row, textUnits, groqAvailable, reply);
      var e := EvidenceFor(row, textUnits);
      r.isHallucinated && r.confidence == 0.8 && r.validationMethod == "hybrid_text" && r.entityId == row.id &&
      |r.issues| == (if e.nameFound then 0 else 1) + (if Coverage(e.found, e.total) < 0.3 then 1 else 0) &&
      r.issues != []
  {
    CoverageThresholds(EvidenceFor(row, textUnits));
  }

  /** In the uncertain band without Groq: confidence 0.5, hallucinated iff coverage is below 0.5. */
  lemma HybridUncertainWithoutGroq(row: EntityRow, textUnits: map<string, string>, reply: ApiReply)
    requires SourceTexts(row.textUnitIds, textUnits) != []
    requires var e := EvidenceFor(row, textUnits);
      e.nameFound && 0.3 <= Coverage(e.found, e.total) <= 0.7
    ensures var r := HybridValidate(row, textUnits, false, reply);
      var e := EvidenceFor(row, textUnits);
      r.confidence == 0.5 && (r.isHallucinated <==> Coverage(e.found, e.total) < 0.5) && r.entityId == row.id
  {
    CoverageThresholds(EvidenceFor(row, textUnits));
  }

  /** In the uncertain band with Groq the result is the spot check's, so its entity id is "". */
  lemma HybridSpotCheckDropsId(row: EntityRow, textUnits: map<string, string>, reply: ApiReply)
    requires SourceTexts(row.textUnitIds, textUnits) != []
    requires var e := EvidenceFor(row, textUnits);
      e.nameFound && 0.3 <= Coverage(e.found, e.total) <= 0.7
    ensures HybridValidate(row, textUnits, true, reply).entityId == ""
    ensures HybridValidate(row, textUnits, true, reply).validationMethod == "hybrid_groq"
  {
    CoverageThresholds(EvidenceFor(row, textUnits));
  }

  /** The hybrid validator with the caller also filling in the entity id, as the
      comment on the spot check's result says it should. */
  function HybridValidateKeepingId(row: EntityRow, textUnits: map<string, string>, groqAvailable: bool, reply: ApiReply): (r: ValidationResult)
    ensures r.entityId == row.id
    ensures Calibrated(r)
  {
    HybridValidate(row, textUnits, groqAvailable, reply).(entityId := row.id)
  }

  /** Only the entity id differs between the two. */
  lemma KeepingIdChangesOnlyId(row: EntityRow, textUnits: map<string, string>, groqAvailable: bool, reply: ApiReply)
    ensures HybridValidateKeepingId(row, textUnits, groqAvailable, reply).(entityId := "") ==
      HybridValidate(row, textUnits, groqAvailable, reply).(entityId := "")
  {
  }

  /** Every validator gives the same verdict for an entity without source texts. */
  lemma NoSourceTextsVerdict(row: EntityRow, textUnits: map<string, string>, groqAvailable: bool, reply: ApiReply, contradiction: real)
    requires forall k :: 0 <= k < |row.textUnitIds| ==> row.textUnitIds[k] !in textUnits
    ensures var rs := [GroqValidate(row, textUnits, reply), NliValidate(row, textUnits, contradiction),
                       HybridValidate(row, textUnits, groqAvailable, reply)];
      forall k :: 0 <= k < |rs| ==>
        rs[k].confidence == 0.0 && !rs[k].isHallucinated && rs[k].issues == [NoSourceIssue] && rs[k].entityId == row.id
  {
    SourceTextsEmpty(row.textUnitIds, textUnits);
  }
}
