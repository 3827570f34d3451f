/**
 * `GroqEntityValidator._parse_api_response`: reading the fact-checking model's answer
 * in the format `SUPPORTED: YES|NO`, `CONFIDENCE: <number>`, `ISSUES: <text>`.
 *
 * The answer is read line by line (each line stripped); for each tag the last line
 * carrying it decides. The SUPPORTED field is the verdict; the raw confidence is then
 * pulled to the verdict's side of 0.5, because the model sometimes reports its
 * confidence in support rather than in hallucination.
 */
module ApiResponse {
  import opened Wrappers
  import opened Strings

  const SupportedTag: string := "SUPPORTED:"
  const ConfidenceTag: string := "CONFIDENCE:"
  const IssuesTag: string := "ISSUES:"

  /** `(confidence, is_hallucinated, issues)` */
  datatype Verdict = Verdict(confidence: real, isHallucinated: bool, issues: seq<string>)

  /** `response.strip().split('\n')` */
  function ResponseLines(response: string): seq<string> {
    SplitOn(Strip(response), '\n')
  }

  /** A line that starts with a tag ending in ':' holds a colon. */
  lemma TaggedHasColon(line: string, tag: string)
    requires tag != [] && tag[|tag| - 1] == ':' && StartsWith(line, tag)
    ensures ':' in line
  {
    assert line[|tag| - 1] == tag[|tag| - 1];
  }

  /** No line starts with two of the three tags. */
  lemma TagsExclusive(line: string)
    ensures !(StartsWith(line, SupportedTag) && StartsWith(line, ConfidenceTag))
    ensures !(StartsWith(line, SupportedTag) && StartsWith(line, IssuesTag))
    ensures !(StartsWith(line, ConfidenceTag) && StartsWith(line, IssuesTag))
  {
    if StartsWith(line, SupportedTag) { assert line[0] == 'S'; }
    if StartsWith(line, ConfidenceTag) { assert line[0] == 'C'; }
    if StartsWith(line, IssuesTag) { assert line[0] == 'I'; }
  }

  /** The line, once stripped, starts with `tag`. */
  predicate HasTag(line: string, tag: string) {
    StartsWith(Strip(line), tag)
  }

  /** The last stripped line of `lines` that starts with `tag`. */
  function LastTagged(lines: seq<string>, tag: string): (r: Option<string>)
    ensures r.Some? ==> StartsWith(r.value, tag)
    decreases |lines|
  {
    if lines == [] then None
    else if HasTag(lines[|lines| - 1], tag) then Some(Strip(lines[|lines| - 1]))
    else LastTagged(lines[..|lines| - 1], tag)
  }

  /** One more line: it decides if it carries the tag, otherwise nothing changes. */
  lemma LastTaggedSnoc(lines: seq<string>, i: nat, tag: string)
    requires i < |lines|
    ensures LastTagged(lines[..i + 1], tag) ==
      if HasTag(lines[i], tag) then Some(Strip(lines[i])) else LastTagged(lines[..i], tag)
  {
    assert lines[..i + 1][..i] == lines[..i];
  }

  /** `LastTagged` finds nothing exactly when no line carries the tag. */
  lemma {:induction false} LastTaggedNone(lines: seq<string>, tag: string)
    ensures LastTagged(lines, tag).None? <==> forall k :: 0 <= k < |lines| ==> !HasTag(lines[k], tag)
    decreases |lines|
  {
    if lines != [] {
      var init := lines[..|lines| - 1];
      var last := |lines| - 1;
      LastTaggedNone(init, tag);
      assert forall k :: 0 <= k < |init| ==> init[k] == lines[k];
      if HasTag(lines[last], tag) {
        assert LastTagged(lines, tag).Some?;
      } else {
        assert LastTagged(lines, tag) == LastTagged(init, tag);
        assert (forall k :: 0 <= k < |lines| ==> !HasTag(lines[k], tag))
          <==> (forall k :: 0 <= k < |init| ==> !HasTag(init[k], tag));
      }
    }
  }

  /** Item `k` satisfies `f` and no item after it does. */
  predicate LastWith<T>(xs: seq<T>, k: int, f: T -> bool) {
    0 <= k < |xs| && f(xs[k]) && forall j :: k < j < |xs| ==> !f(xs[j])
  }

  /** The test "this line carries `tag`". */
  function Tagged(tag: string): string -> bool {
    line => HasTag(line, tag)
  }

  /** Line `k` carries the tag and no line after it does. */
  predicate LastWithTag(lines: seq<string>, k: int, tag: string) {
    LastWith(lines, k, Tagged(tag))
  }

  /** What `LastTagged` finds is the last line that carries the tag. */
  lemma {:induction false} LastTaggedIsLast(lines: seq<string>, tag: string)
    requires LastTagged(lines, tag).Some?
    ensures exists k :: LastWithTag(lines, k, tag) && Strip(lines[k]) == LastTagged(lines, tag).value
    decreases |lines|
  {
    var last := |lines| - 1;
    if HasTag(lines[last], tag) {
      assert Tagged(tag)(lines[last]);
      assert LastWithTag(lines, last, tag);
    } else {
      var init := lines[..last];
      LastTaggedIsLast(init, tag);
      var k :| LastWithTag(init, k, tag) && Strip(init[k]) == LastTagged(init, tag).value;
      assert !Tagged(tag)(lines[last]);
      LastWithExtend(lines, k, Tagged(tag));
    }
  }

  /** An item failing `f` appended after the last one satisfying it leaves that one the last. */
  lemma LastWithExtend<T>(xs: seq<T>, k: int, f: T -> bool)
    requires xs != [] && !f(xs[|xs| - 1])
    requires LastWith(xs[..|xs| - 1], k, f)
    ensures LastWith(xs, k, f) && xs[k] == xs[..|xs| - 1][k]
  {
    var init := xs[..|xs| - 1];
    assert xs[k] == init[k];
    forall j | k < j < |xs| ensures !f(xs[j]) {
      if j < |init| {
        assert xs[j] == init[j];
      }
    }
  }

  /** The text of an `ISSUES:` line after its first colon, unless it reads "none",
      "none." or nothing (ignoring case). */
  function IssueText(line: string): Option<string>
    requires StartsWith(line, IssuesTag)
  {
    TaggedHasColon(line, IssuesTag);
    var text := Strip(AfterFirst(line, ':'));
    if Lower(text) in ["none", "none.", ""] then None else Some(text)
  }

  /** The last `ISSUES:` line that reports an actual issue. */
  function LastIssue(lines: seq<string>): Option<string>
    decreases |lines|
  {
    if lines == [] then None
    else
      var line := Strip(lines[|lines| - 1]);
      if StartsWith(line, IssuesTag) && IssueText(line).Some? then IssueText(line)
      else LastIssue(lines[..|lines| - 1])
  }

  lemma LastIssueSnoc(lines: seq<string>, i: nat)
    requires i < |lines|
    ensures var line := Strip(lines[i]);
      LastIssue(lines[..i + 1]) ==
        if StartsWith(line, IssuesTag) && IssueText(line).Some? then IssueText(line) else LastIssue(lines[..i])
  {
    assert lines[..i + 1][..i] == lines[..i];
  }

  /** The decimal digits `d` read as a number. */
  function DigitsValue(d: string): nat
    requires forall k :: 0 <= k < |d| ==> IsDigit(d[k])
    decreases |d|
  {
    if d == [] then 0 else DigitsValue(d[..|d| - 1]) * 10 + DigitValue(d[|d| - 1])
  }

  function DigitValue(c: char): (v: nat)
    requires IsDigit(c)
    ensures v < 10
  {
    assert '0' as int <= c as int <= '9' as int;
    c as int - '0' as int
  }

  function Pow10(n: nat): (p: nat)
    ensures p >= 1
  {
    if n == 0 then 1 else 10 * Pow10(n - 1)
  }

  /** `float(w)` on the decimal subset: optional sign, digits, optional fraction, at
      least one digit. Anything else raises, which is `None` here. */
  function ParseDecimal(w: string): Option<real> {
    var negative := w != [] && w[0] == '-';
    var body := if w != [] && (w[0] == '-' || w[0] == '+') then w[1..] else w;
    var whole := TakeDigits(body);
    var rest := body[|whole|..];
    var hasPoint := rest != [] && rest[0] == '.';
    var fraction := if hasPoint then TakeDigits(rest[1..]) else [];
    var consumed := |whole| + (if hasPoint then 1 + |fraction| else 0);
    if consumed != |body| || |whole| + |fraction| == 0 then None
    else
      var magnitude := DigitsValue(whole) as real + DigitsValue(fraction) as real / Pow10(|fraction|) as real;
      Some(if negative then -magnitude else magnitude)
  }

  /** `float(line.split(':')[1].strip().split()[0])`, or 0.0 when any step raises. */
  function ConfidenceValue(line: string): real
    requires ':' in line
  {
    var field := UpTo(AfterFirst(line, ':'), ':');
    var words := Words(Strip(field));
    if words == [] then 0.0 else ParseDecimal(words[0]).GetOr(0.0)
  }

  /** The `supported` flag after the loop: true unless the last SUPPORTED line lacks "YES". */
  function Supported(lines: seq<string>): bool {
    match LastTagged(lines, SupportedTag)
    case None => true
    case Some(line) => Contains(Upper(line), "YES")
  }

  /** `raw_confidence` after the loop: read from the last CONFIDENCE line, 0.0 without one. */
  function RawConfidence(lines: seq<string>): real {
    match LastTagged(lines, ConfidenceTag)
    case None => 0.0
    case Some(line) => TaggedHasColon(line, ConfidenceTag); ConfidenceValue(line)
  }

  /** `issues` after the loop. */
  function Issues(lines: seq<string>): seq<string> {
    match LastIssue(lines)
    case None => []
    case Some(text) => [text]
  }

  /** The raw confidence pulled to the verdict's side of 0.5. */
  function AdjustedConfidence(supported: bool, raw: real): (c: real)
    ensures supported ==> c <= 0.5
    ensures !supported ==> c >= 0.5
    ensures supported && raw <= 0.5 ==> c == raw
    ensures !supported && raw >= 0.5 ==> c == raw
  {
    if supported then (if raw > 0.5 then 0.1 else raw)
    else (if raw < 0.5 then 0.8 else raw)
  }

  /** What `_parse_api_response` returns for `response`. */
  function ApiVerdict(response: string): (v: Verdict)
    ensures v.isHallucinated ==> v.confidence >= 0.5
    ensures !v.isHallucinated ==> v.confidence <= 0.5
    ensures |v.issues| <= 1
  {
    var lines := ResponseLines(response);
    var supported := Supported(lines);
    Verdict(AdjustedConfidence(supported, RawConfidence(lines)), !supported, Issues(lines))
  }

  /** The loop state after one more line. */
  lemma {:induction false} SupportedSnoc(lines: seq<string>, i: nat)
    requires i < |lines|
    ensures Supported(lines[..i + 1]) ==
      if StartsWith(Strip(lines[i]), SupportedTag) then Contains(Upper(Strip(lines[i])), "YES")
      else Supported(lines[..i])
  {
    LastTaggedSnoc(lines, i, SupportedTag);
  }

  lemma {:induction false} RawConfidenceSnoc(lines: seq<string>, i: nat)
    requires i < |lines|
    ensures StartsWith(Strip(lines[i]), ConfidenceTag) ==> ':' in Strip(lines[i])
    ensures RawConfidence(lines[..i + 1]) ==
      if StartsWith(Strip(lines[i]), ConfidenceTag) then
        (TaggedHasColon(Strip(lines[i]), ConfidenceTag); ConfidenceValue(Strip(lines[i])))
      else RawConfidence(lines[..i])
  {
    LastTaggedSnoc(lines, i, ConfidenceTag);
    if StartsWith(Strip(lines[i]), ConfidenceTag) {
      TaggedHasColon(Strip(lines[i]), ConfidenceTag);
    }
  }

  lemma {:induction false} IssuesSnoc(lines: seq<string>, i: nat)
    requires i < |lines|
    ensures var line := Strip(lines[i]);
      Issues(lines[..i + 1]) ==
        if StartsWith(line, IssuesTag) && IssueText(line).Some? then [IssueText(line).value] else Issues(lines[..i])
  {
    LastIssueSnoc(lines, i);
  }

  /** `_parse_api_response`: one pass over the lines, then the calibration. */
  method ParseApiResponse(response: string) returns (confidence: real, isHallucinated: bool, issues: seq<string>)
    ensures Verdict(confidence, isHallucinated, issues) == ApiVerdict(response)
  {
    var lines := SplitOn(Strip(response), '\n');
    var supported, rawConfidence;
    supported, rawConfidence, issues := ScanLines(lines);
    if supported {
      confidence := if rawConfidence > 0.5 then 0.1 else rawConfidence;
    } else {
      confidence := if rawConfidence < 0.5 then 0.8 else rawConfidence;
    }
    isHallucinated := !supported;
  }

  /** The loop of `_parse_api_response`, updating the three fields line by line. */
  method ScanLines(lines: seq<string>) returns (supported: bool, rawConfidence: real, issues: seq<string>)
    ensures supported == Supported(lines)
    ensures rawConfidence == RawConfidence(lines)
    ensures issues == Issues(lines)
  {
    supported := true;
    rawConfidence := 0.0;
    issues := [];
    for i := 0 to |lines|
      invariant supported == Supported(lines[..i])
      invariant rawConfidence == RawConfidence(lines[..i])
      invariant issues == Issues(lines[..i])
    {
      var line := Strip(lines[i]);
      TagsExclusive(line);
      SupportedSnoc(lines, i);
      RawConfidenceSnoc(lines, i);
      IssuesSnoc(lines, i);
      if StartsWith(line, SupportedTag) {
        supported := Contains(Upper(line), "YES");
      } else if StartsWith(line, ConfidenceTag) {
        rawConfidence := ConfidenceValue(line);
      } else if StartsWith(line, IssuesTag) {
        var text := Strip(AfterFirst(line, ':'));
        if Lower(text) !in ["none", "none.", ""] {
          issues := [text];
        }
      }
    }
    assert lines[..|lines|] == lines;
  }

  /** Without any SUPPORTED line the entity is judged supported. */
  lemma NoSupportedLineMeansSupported(response: string)
    requires forall k :: 0 <= k < |ResponseLines(response)| ==> !HasTag(ResponseLines(response)[k], SupportedTag)
    ensures !ApiVerdict(response).isHallucinated
  {
    LastTaggedNone(ResponseLines(response), SupportedTag);
  }

  /** Without any CONFIDENCE line the raw confidence is 0.0, so a supported verdict
      reports 0.0 and an unsupported one 0.8. */
  lemma NoConfidenceLine(response: string)
    requires forall k :: 0 <= k < |ResponseLines(response)| ==> !HasTag(ResponseLines(response)[k], ConfidenceTag)
    ensures ApiVerdict(response).confidence == if ApiVerdict(response).isHallucinated then 0.8 else 0.0
  {
    LastTaggedNone(ResponseLines(response), ConfidenceTag);
  }

  /** A later "ISSUES: None" line does not clear an issue reported earlier. */
  lemma {:induction false} LaterNoneKeepsIssue(lines: seq<string>, line: string)
    requires StartsWith(Strip(line), IssuesTag)
    requires IssueText(Strip(line)).None?
    ensures Issues(lines + [line]) == Issues(lines)
  {
    assert (lines + [line])[..|lines|] == lines;
    assert (lines + [line])[|lines|] == line;
  }

  /** An issue line that reports something replaces whatever was reported before. */
  lemma LastReportedIssueWins(lines: seq<string>, line: string)
    requires StartsWith(Strip(line), IssuesTag)
    requires IssueText(Strip(line)).Some?
    ensures Issues(lines + [line]) == [IssueText(Strip(line)).value]
  {
  }
}
