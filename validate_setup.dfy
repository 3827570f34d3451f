/**
 * `validate_setup.py`: the checks a new installation must pass, printed one mark per
 * check, and the `all_good` accumulator that decides the final verdict.
 *
 * Most checks fold their result in with `&=`, which always evaluates (and prints) the
 * check; the two API-key checks and the Stirling PDF check use `all_good and ...`,
 * which skips the check, and its mark, once `all_good` is false.
 */
module SetupValidation {
  import opened Wrappers
  import opened Strings

  /** What the script inspects: the interpreter, the paths that exist relative to the
      working directory, the environment variables, and the results of the Docker and
      Stirling probes. */
  datatype Environment = Environment(
    pythonMajor: int,
    pythonMinor: int,
    hasRealPrefix: bool,
    basePrefix: Option<string>,
    prefix: string,
    paths: set<string>,
    groqKey: Option<string>,
    openaiKey: Option<string>,
    dockerOk: bool,
    stirlingOk: bool,
    pdfFiles: seq<string>)

  /** One printed check: its outcome and its message. */
  datatype Mark = Mark(passed: bool, message: string)

  /** `check_mark`'s printed line. */
  function Line(m: Mark): (line: string)
    ensures |line| == |m.message| + 2 && line[1] == ' ' && line[2..] == m.message
    ensures line[0] == '✅' <==> m.passed
  {
    (if m.passed then "✅" else "❌") + " " + m.message
  }

  /** `check_mark`: emits the mark and hands the condition back unchanged. */
  method CheckMark(condition: bool, message: string, shown: seq<Mark>) returns (result: bool, shown': seq<Mark>)
    ensures result == condition
    ensures shown' == shown + [Mark(condition, message)]
  {
    shown' := shown + [Mark(condition, message)];
    result := condition;
  }

  const RequiredFiles: seq<string> :=
    ["pipeline_orchestrator.py", "settings_fast.yaml", "docker-compose.yml", "requirements.txt", ".env"]
  const GroqPlaceholder: string := "your_groq_api_key_here"
  const OpenAiPlaceholder: string := "your_openai_api_key_here"
  const StirlingMessage: string := "Stirling PDF service running (http://localhost:8080)"

  /** A key is configured when set, non-empty and not the template's placeholder. */
  predicate KeyValid(key: Option<string>, placeholder: string) {
    key.Some? && key.value != "" && key.value != placeholder
  }

  predicate PythonOk(env: Environment) {
    env.pythonMajor == 3 && env.pythonMinor >= 8
  }

  predicate VenvActive(env: Environment) {
    env.hasRealPrefix || (env.basePrefix.Some? && env.basePrefix.value != env.prefix)
  }

  function PythonMessage(env: Environment): string {
    "Python version: " + IntToString(env.pythonMajor) + "." + IntToString(env.pythonMinor)
  }

  function PdfMessage(env: Environment): string {
    "PDF file available: " + if env.pdfFiles != [] then env.pdfFiles[0] else "None found"
  }

  predicate StructureOk(env: Environment) {
    "graphrag_output" in env.paths && "graphrag_output/settings.yaml" in env.paths
  }

  // ---------------------------------------------------------------- the fold, as a specification

  /** A check and how it is folded in: `lazy` for `all_good = all_good and ...`,
      otherwise `all_good &= ...`. */
  datatype Step = Step(mark: Mark, lazy: bool)

  /** The accumulator and the marks printed so far. */
  datatype State = State(allGood: bool, shown: seq<Mark>)

  function Next(s: State, step: Step): State {
    if step.lazy && !s.allGood then s
    else State(s.allGood && step.mark.passed, s.shown + [step.mark])
  }

  function Run(s: State, steps: seq<Step>): State
    decreases |steps|
  {
    if steps == [] then s else Run(Next(s, steps[0]), steps[1..])
  }

  function FileSteps(env: Environment, files: seq<string>): (steps: seq<Step>)
    ensures |steps| == |files|
    ensures forall k :: 0 <= k < |files| ==>
      steps[k] == Step(Mark(files[k] in env.paths, "Required file: " + files[k]), false)
    decreases |files|
  {
    if files == [] then []
    else [Step(Mark(files[0] in env.paths, "Required file: " + files[0]), false)] + FileSteps(env, files[1..])
  }

  /** The checks after the required files, in the script's order. */
  function LaterSteps(env: Environment): seq<Step> {
    [ Step(Mark(KeyValid(env.groqKey, GroqPlaceholder), "Groq API key configured"), true),
      Step(Mark(KeyValid(env.openaiKey, OpenAiPlaceholder), "OpenAI API key configured"), true),
      Step(Mark(env.dockerOk, "Docker installed"), false),
      Step(Mark(env.stirlingOk, StirlingMessage), true),
      Step(Mark(env.pdfFiles != [], PdfMessage(env)), false),
      Step(Mark(StructureOk(env), "GraphRAG directory structure"), false) ]
  }

  /** The interpreter, virtual-environment and required-file checks. */
  function InstallationSteps(env: Environment): seq<Step> {
    [ Step(Mark(PythonOk(env), PythonMessage(env)), false),
      Step(Mark(VenvActive(env), "Virtual environment activated"), false) ]
    + FileSteps(env, RequiredFiles)
  }

  /** Every check of `validate_setup`, in order. */
  function SetupSteps(env: Environment): seq<Step> {
    InstallationSteps(env) + LaterSteps(env)
  }

  /** The marks of the `&=` checks, which are printed whatever the accumulator holds. */
  function StrictMarks(steps: seq<Step>): (marks: seq<Mark>)
    ensures |marks| <= |steps|
    decreases |steps|
  {
    if steps == [] then []
    else (if steps[0].lazy then [] else [steps[0].mark]) + StrictMarks(steps[1..])
  }

  predicate AllPass(steps: seq<Step>) {
    forall k :: 0 <= k < |steps| ==> steps[k].mark.passed
  }

  predicate AllShownPass(marks: seq<Mark>) {
    forall k :: 0 <= k < |marks| ==> marks[k].passed
  }

  /** Once `all_good` is false it stays false, and only the `&=` checks are printed. */
  lemma {:induction false} RunAfterFailure(shown: seq<Mark>, steps: seq<Step>)
    ensures Run(State(false, shown), steps) == State(false, shown + StrictMarks(steps))
    decreases |steps|
  {
    if steps != [] {
      var m := if steps[0].lazy then [] else [steps[0].mark];
      assert Next(State(false, shown), steps[0]) == State(false, shown + m);
      RunAfterFailure(shown + m, steps[1..]);
      assert StrictMarks(steps) == m + StrictMarks(steps[1..]);
      assert shown + m + StrictMarks(steps[1..]) == shown + StrictMarks(steps);
    }
  }

  /** From a true accumulator the verdict is true iff every check passes. */
  lemma {:induction false} RunAllGood(shown: seq<Mark>, steps: seq<Step>)
    ensures Run(State(true, shown), steps).allGood <==> AllPass(steps)
    decreases |steps|
  {
    if steps != [] {
      if steps[0].mark.passed {
        RunAllGood(shown + [steps[0].mark], steps[1..]);
        assert AllPass(steps) <==> AllPass(steps[1..]) by {
          assert forall k :: 1 <= k < |steps| ==> steps[k] == steps[1..][k - 1];
        }
      } else {
        RunAfterFailure(shown + [steps[0].mark], steps[1..]);
      }
    }
  }

  /** From a true accumulator, the verdict is true iff every printed check passed. */
  lemma {:induction false} RunPassedIffShownPassed(shown: seq<Mark>, steps: seq<Step>)
    requires AllShownPass(shown)
    ensures var r := Run(State(true, shown), steps); r.allGood <==> AllShownPass(r.shown)
    decreases |steps|
  {
    if steps != [] {
      var m := steps[0].mark;
      if m.passed {
        RunPassedIffShownPassed(shown + [m], steps[1..]);
      } else {
        RunAfterFailure(shown + [m], steps[1..]);
        var r := Run(State(true, shown), steps);
        assert r.shown[|shown|] == m;
      }
    }
  }

  // ---------------------------------------------------------------- the script

  /** `validate_setup`. `passed` is the verdict (PASSED or FAILED) and `shown` the marks
      printed, in order. */
  method ValidateSetup(env: Environment) returns (passed: bool, shown: seq<Mark>)
    ensures State(passed, shown) == Run(State(true, []), SetupSteps(env))
    ensures |shown| >= |RequiredFiles| + 2
    ensures shown[0] == Mark(PythonOk(env), PythonMessage(env))
    ensures shown[1] == Mark(VenvActive(env), "Virtual environment activated")
    ensures forall k :: 0 <= k < |RequiredFiles| ==>
      shown[k + 2] == Mark(RequiredFiles[k] in env.paths, "Required file: " + RequiredFiles[k])
  {
    var allGood;
    allGood, shown := CheckInstallation(env);
    RunAppend(State(true, []), InstallationSteps(env), LaterSteps(env));
    allGood, shown := CheckServices(env, allGood, shown);
    passed := allGood;
  }

  /** The interpreter, virtual-environment and required-file checks (all `&=`). */
  method CheckInstallation(env: Environment) returns (allGood: bool, shown: seq<Mark>)
    ensures State(allGood, shown) == Run(State(true, []), InstallationSteps(env))
    ensures |shown| == |RequiredFiles| + 2
    ensures shown[0] == Mark(PythonOk(env), PythonMessage(env))
    ensures shown[1] == Mark(VenvActive(env), "Virtual environment activated")
    ensures forall k :: 0 <= k < |RequiredFiles| ==>
      shown[k + 2] == Mark(RequiredFiles[k] in env.paths, "Required file: " + RequiredFiles[k])
  {
    ghost var steps := InstallationSteps(env);
    ghost var rest := steps;
    allGood := true;
    shown := [];
    var ok;

    var pythonOk := env.pythonMajor == 3 && env.pythonMinor >= 8;
    ok, shown := CheckMark(pythonOk, PythonMessage(env), shown);
    allGood := allGood && ok;
    RunStep(State(true, []), rest);
    rest := rest[1..];

    var venvActive := env.hasRealPrefix || (env.basePrefix.Some? && env.basePrefix.value != env.prefix);
    ghost var before := State(allGood, shown);
    ok, shown := CheckMark(venvActive, "Virtual environment activated", shown);
    allGood := allGood && ok;
    RunStep(before, rest);
    rest := rest[1..];
    assert rest == FileSteps(env, RequiredFiles);

    var files := RequiredFiles;
    for i := 0 to |files|
      invariant rest == FileSteps(env, RequiredFiles)[i..]
      invariant Run(State(allGood, shown), rest) == Run(State(true, []), steps)
      invariant |shown| == i + 2
      invariant shown[0] == Mark(PythonOk(env), PythonMessage(env))
      invariant shown[1] == Mark(VenvActive(env), "Virtual environment activated")
      invariant forall k :: 0 <= k < i ==> shown[k + 2] == Mark(files[k] in env.paths, "Required file: " + files[k])
    {
      before := State(allGood, shown);
      var present := files[i] in env.paths;
      ok, shown := CheckMark(present, "Required file: " + files[i], shown);
      allGood := allGood && ok;
      RunStep(before, rest);
      rest := rest[1..];
    }
  }

  /** The key, Docker, Stirling, PDF and directory checks, continuing the fold. */
  method CheckServices(env: Environment, allGood0: bool, shown0: seq<Mark>) returns (allGood: bool, shown: seq<Mark>)
    ensures State(allGood, shown) == Run(State(allGood0, shown0), LaterSteps(env))
    ensures |shown| >= |shown0| && shown[..|shown0|] == shown0
  {
    ghost var rest := LaterSteps(env);
    allGood, shown := allGood0, shown0;
    var ok;

    var groqValid := env.groqKey.Some? && env.groqKey.value != "" && env.groqKey.value != GroqPlaceholder;
    var openaiValid := env.openaiKey.Some? && env.openaiKey.value != "" && env.openaiKey.value != OpenAiPlaceholder;
    ghost var before := State(allGood, shown);
    if allGood {
      ok, shown := CheckMark(groqValid, "Groq API key configured", shown);
      allGood := ok;
    }
    RunStep(before, rest);
    rest := rest[1..];

    before := State(allGood, shown);
    if allGood {
      ok, shown := CheckMark(openaiValid, "OpenAI API key configured", shown);
      allGood := ok;
    }
    RunStep(before, rest);
    rest := rest[1..];

    before := State(allGood, shown);
    ok, shown := CheckMark(env.dockerOk, "Docker installed", shown);
    allGood := allGood && ok;
    RunStep(before, rest);
    rest := rest[1..];

    before := State(allGood, shown);
    if allGood {
      ok, shown := CheckMark(env.stirlingOk, StirlingMessage, shown);
      allGood := ok;
    }
    RunStep(before, rest);
    rest := rest[1..];

    before := State(allGood, shown);
    var pdfAvailable := |env.pdfFiles| > 0;
    ok, shown := CheckMark(pdfAvailable, PdfMessage(env), shown);
    allGood := allGood && ok;
    RunStep(before, rest);
    rest := rest[1..];

    before := State(allGood, shown);
    var structureOk := "graphrag_output" in env.paths && "graphrag_output/settings.yaml" in env.paths;
    ok, shown := CheckMark(structureOk, "GraphRAG directory structure", shown);
    allGood := allGood && ok;
    RunStep(before, rest);
    rest := rest[1..];
    assert rest == [];
    RunExtends(State(allGood0, shown0), LaterSteps(env));
  }

  /** The fold only ever appends marks. */
  lemma {:induction false} RunExtends(s: State, steps: seq<Step>)
    ensures |Run(s, steps).shown| >= |s.shown| && Run(s, steps).shown[..|s.shown|] == s.shown
    decreases |steps|
  {
    if steps != [] {
      var n := Next(s, steps[0]);
      RunExtends(n, steps[1..]);
      assert n.shown[..|s.shown|] == s.shown;
    }
  }

  /** The fold over two runs of steps is the fold over their concatenation. */
  lemma {:induction false} RunAppend(s: State, a: seq<Step>, b: seq<Step>)
    ensures Run(s, a + b) == Run(Run(s, a), b)
    decreases |a|
  {
    if a == [] {
      assert a + b == b;
    } else {
      assert (a + b)[0] == a[0] && (a + b)[1..] == a[1..] + b;
      RunAppend(Next(s, a[0]), a[1..], b);
    }
  }

  /** One step of the fold. */
  lemma RunStep(s: State, steps: seq<Step>)
    requires steps != []
    ensures Run(s, steps) == Run(Next(s, steps[0]), steps[1..])
  {
  }

  /** PASSED iff every check passes, and iff every printed check passed. */
  lemma VerdictSpec(env: Environment)
    ensures var r := Run(State(true, []), SetupSteps(env));
      (r.allGood <==> AllPass(SetupSteps(env))) && (r.allGood <==> AllShownPass(r.shown))
  {
    RunAllGood([], SetupSteps(env));
    RunPassedIffShownPassed([], SetupSteps(env));
  }

  /** An early failure hides the key and Stirling checks: with a wrong Python version
      only the ten `&=` checks are printed. */
  lemma {:induction false} EarlyFailureSkipsLazyChecks(env: Environment)
    requires !PythonOk(env)
    ensures var r := Run(State(true, []), SetupSteps(env));
      !r.allGood && |SetupSteps(env)| == 13 && |r.shown| == 10 && r.shown == StrictMarks(SetupSteps(env))
  {
    var steps := SetupSteps(env);
    var first := steps[0];
    assert Next(State(true, []), first) == State(false, [first.mark]);
    RunAfterFailure([first.mark], steps[1..]);
    var fs := FileSteps(env, RequiredFiles);
    assert steps[1..] == [steps[1]] + fs + LaterSteps(env);
    StrictMarksAppend([steps[1]] + fs, LaterSteps(env));
    StrictMarksAppend([steps[1]], fs);
    StrictAll(fs);
    LaterStrictMarks(env);
    assert StrictMarks(steps) == [first.mark] + StrictMarks(steps[1..]);
  }

  lemma LaterStrictMarks(env: Environment)
    ensures var later := LaterSteps(env);
      StrictMarks(later) == [later[2].mark, later[4].mark, later[5].mark]
  {
    var later := LaterSteps(env);
    assert StrictMarks(later[6..]) == [];
    assert StrictMarks(later[5..]) == [later[5].mark];
    assert StrictMarks(later[4..]) == [later[4].mark, later[5].mark];
    assert StrictMarks(later[3..]) == StrictMarks(later[4..]);
    assert StrictMarks(later[2..]) == [later[2].mark, later[4].mark, later[5].mark];
    assert StrictMarks(later[1..]) == StrictMarks(later[2..]);
    assert later[0..] == later;
  }

  lemma {:induction false} StrictMarksAppend(a: seq<Step>, b: seq<Step>)
    ensures StrictMarks(a + b) == StrictMarks(a) + StrictMarks(b)
    decreases |a|
  {
    if a != [] {
      assert (a + b)[0] == a[0] && (a + b)[1..] == a[1..] + b;
      StrictMarksAppend(a[1..], b);
      var h := if a[0].lazy then [] else [a[0].mark];
      assert StrictMarks(a + b) == h + (StrictMarks(a[1..]) + StrictMarks(b));
    } else {
      assert a + b == b;
    }
  }

  /** With no lazy step, every check is printed. */
  lemma {:induction false} StrictAll(steps: seq<Step>)
    requires forall k :: 0 <= k < |steps| ==> !steps[k].lazy
    ensures StrictMarks(steps) == seq(|steps|, k requires 0 <= k < |steps| => steps[k].mark)
    decreases |steps|
  {
    if steps != [] {
      StrictAll(steps[1..]);
    }
  }
}
