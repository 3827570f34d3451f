/**
 * The decisions of `graphrag_monitor.py`: finding the API key in `.env`, mapping the
 * status probe to a verdict, the large-dataset warning of the time estimate, when the
 * monitoring loop stops, and which checks `main` runs.
 *
 * The HTTP probe, the process scan and the clock are inputs.
 */
module GraphRagMonitor {
  import opened Wrappers
  import opened Strings

  // ---------------------------------------------------------------- API key

  const KeyPrefix: string := "GRAPHRAG_API_KEY="

  /** The value of the first `.env` line that starts with the key prefix: the text
      after the line's first '='. */
  function FirstKeyValue(lines: seq<string>): (v: Option<string>)
    decreases |lines|
  {
    if lines == [] then None
    else if StartsWith(lines[0], KeyPrefix) then (PrefixHasEquals(lines[0]); Some(AfterFirst(lines[0], '=')))
    else FirstKeyValue(lines[1..])
  }

  /** A line with the key prefix holds a '='. */
  lemma PrefixHasEquals(line: string)
    requires StartsWith(line, KeyPrefix)
    ensures '=' in line
  {
    assert line[|KeyPrefix| - 1] == '=';
  }

  /** The value is everything after the prefix, untrimmed: the prefix holds no other
      '=', and the value may hold more of them. */
  lemma KeyValueIsRestOfLine(line: string)
    requires StartsWith(line, KeyPrefix)
    ensures '=' in line
    ensures AfterFirst(line, '=') == line[|KeyPrefix|..]
  {
    var p := |KeyPrefix| - 1;
    assert line[..|KeyPrefix|] == KeyPrefix;
    forall k | 0 <= k < p
      ensures line[k] != '='
    {
      assert line[k] == line[..|KeyPrefix|][k] == KeyPrefix[k];
    }
    assert line[p] == line[..|KeyPrefix|][p] == '=';
    AfterFirstAt(line, '=', p);
  }

  /** The text after the first `c` when the first `c` is at index `n`. */
  lemma {:induction false} AfterFirstAt(s: string, c: char, n: nat)
    requires n < |s| && s[n] == c
    requires forall k :: 0 <= k < n ==> s[k] != c
    ensures c in s && AfterFirst(s, c) == s[n + 1..]
    decreases n
  {
    if n > 0 {
      AfterFirstAt(s[1..], c, n - 1);
      assert s[1..][n..] == s[n + 1..];
    }
  }

  /** `FirstKeyValue` picks the first matching line, and finds none only when no line matches. */
  lemma {:induction false} FirstKeyValueSpec(lines: seq<string>)
    ensures FirstKeyValue(lines).None? <==> forall k :: 0 <= k < |lines| ==> !StartsWith(lines[k], KeyPrefix)
    ensures FirstKeyValue(lines).Some? ==>
      exists k :: 0 <= k < |lines| && StartsWith(lines[k], KeyPrefix) &&
        FirstKeyValue(lines).value == lines[k][|KeyPrefix|..] &&
        forall j :: 0 <= j < k ==> !StartsWith(lines[j], KeyPrefix)
    decreases |lines|
  {
    if lines != [] {
      FirstKeyValueSpec(lines[1..]);
      assert forall k :: 1 <= k < |lines| ==> lines[k] == lines[1..][k - 1];
      if StartsWith(lines[0], KeyPrefix) {
        KeyValueIsRestOfLine(lines[0]);
      } else if FirstKeyValue(lines[1..]).Some? {
        var k :| 0 <= k < |lines[1..]| && StartsWith(lines[1..][k], KeyPrefix) &&
          FirstKeyValue(lines[1..]).value == lines[1..][k][|KeyPrefix|..] &&
          forall j :: 0 <= j < k ==> !StartsWith(lines[1..][j], KeyPrefix);
        assert lines[k + 1] == lines[1..][k];
      }
    }
  }

  /** The loop over the `.env` lines, stopping at the first match. */
  method LookupEnvKey(content: string) returns (apiKey: Option<string>)
    ensures apiKey == FirstKeyValue(SplitOn(content, '\n'))
  {
    var lines := SplitOn(content, '\n');
    apiKey := None;
    var i := 0;
    while i < |lines|
      invariant 0 <= i <= |lines|
      invariant FirstKeyValue(lines) == FirstKeyValue(lines[i..])
    {
      assert lines[i..][1..] == lines[i + 1..];
      if StartsWith(lines[i], KeyPrefix) {
        PrefixHasEquals(lines[i]);
        apiKey := Some(AfterFirst(lines[i], '='));
        return;
      }
      i := i + 1;
    }
  }

  /** A string argument is truthy when present and non-empty. */
  predicate Truthy(s: Option<string>) {
    s.Some? && s.value != ""
  }

  /** The key the status check ends up with: a truthy argument, else the `.env` value. */
  function ResolvedKey(apiKey: Option<string>, envFile: Option<string>): Option<string> {
    if Truthy(apiKey) then apiKey
    else if envFile.Some? then
      match FirstKeyValue(SplitOn(envFile.value, '\n'))
      case Some(v) => Some(v)
      case None => apiKey
    else apiKey
  }

  /** The answer to `GET /v1/models`: a status code, or an exception. */
  datatype Probe = Status(code: int) | ProbeFailed(error: string)

  /** 200 is accessible; 429 (rate limited), any other code and an exception are not. */
  function StatusVerdict(probe: Probe): (ok: bool)
    ensures ok <==> probe == Status(200)
  {
    match probe
    case Status(code) => if code == 200 then true else if code == 429 then false else false
    case ProbeFailed(_) => false
  }

  /** `check_openai_api_status`. `requested` says whether the probe was made. */
  method CheckApiStatus(apiKey: Option<string>, envFile: Option<string>, probe: Probe)
    returns (verdict: Option<bool>, requested: bool)
    ensures requested <==> Truthy(ResolvedKey(apiKey, envFile))
    ensures !requested ==> verdict == None
    ensures requested ==> verdict == Some(StatusVerdict(probe))
    ensures Truthy(apiKey) ==> requested
  {
    var key := apiKey;
    if !Truthy(key) && envFile.Some? {
      var found := LookupEnvKey(envFile.value);
      if found.Some? {
        key := found;
      }
    }
    if !Truthy(key) {
      return None, false;
    }
    return Some(StatusVerdict(probe)), true;
  }

  /** A matching line with an empty value ends the search: a later line with a value
      is not used, and without a key argument no request is made. */
  lemma EmptyValueStopsSearch(rest: string)
    ensures FirstKeyValue(SplitOn(KeyPrefix + "\n" + rest, '\n')) == Some("")
    ensures !Truthy(ResolvedKey(None, Some(KeyPrefix + "\n" + rest)))
  {
    SplitAppend(KeyPrefix, rest, '\n');
    KeyValueIsRestOfLine(KeyPrefix);
  }

  /** Splitting `a + [sep] + b` with no separator in `a`: `a` and then the parts of `b`. */
  lemma {:induction false} SplitAppend(a: string, b: string, sep: char)
    requires sep !in a
    ensures SplitOn(a + [sep] + b, sep) == [a] + SplitOn(b, sep)
    decreases |a|
  {
    var s := a + [sep] + b;
    if a == [] {
      assert s[0] == sep && s[1..] == b;
    } else {
      assert s[0] == a[0] && s[1..] == a[1..] + [sep] + b;
      SplitAppend(a[1..], b, sep);
      assert [a[0]] + a[1..] == a;
    }
  }

  // ---------------------------------------------------------------- time estimate

  /** `estimate_processing_time`: minutes at 50,000 characters a minute, and whether the
      large-dataset advice is printed. */
  function EstimateMinutes(chars: int): (r: (real, bool))
    ensures r.0 * 50000.0 == chars as real
    ensures r.1 <==> r.0 > 30.0
  {
    var minutes := chars as real / 50000.0;
    (minutes, minutes > 30.0)
  }

  /** The warning fires exactly above 1,500,000 characters. */
  lemma LargeDatasetThreshold(chars: int)
    ensures EstimateMinutes(chars).1 <==> chars > 1500000
  {
    var m := EstimateMinutes(chars).0;
    assert m * 50000.0 == chars as real;
    assert m > 30.0 <==> m * 50000.0 > 1500000.0;
  }

  // ---------------------------------------------------------------- monitoring loop

  /** What one pass of the monitoring loop observes: the clock when the loop guard is
      evaluated and when the pass reads it, and how many GraphRAG processes the scan
      found. */
  datatype Reading = Reading(guardTime: real, now: real, processes: nat)

  /** Why monitoring ended. `NoMoreReadings` only means the given readings ran out. */
  datatype StopReason = LikelyCompleted(pass: nat) | TimeLimit(pass: nat) | NoMoreReadings

  /** The loop guard: less than the maximum duration has passed since the start. */
  predicate WithinLimit(r: Reading, start: real, maxDurationMinutes: int) {
    r.guardTime - start < (maxDurationMinutes * 60) as real
  }

  /** The early exit: no process seen and more than five minutes elapsed. */
  predicate Finished(r: Reading, start: real) {
    r.processes == 0 && r.now - start > 300.0
  }

  /** A pass after which the loop goes round again. */
  predicate Continues(r: Reading, start: real, maxDurationMinutes: int) {
    WithinLimit(r, start, maxDurationMinutes) && !Finished(r, start)
  }

  /** The monitor object; `monitor_indexing_process` records its start time. */
  class Monitor {
    var startTime: Option<real>

    constructor ()
      ensures startTime == None
    {
      startTime := None;
    }

    /** `monitor_indexing_process`: one pass per reading while the guard holds. It stops
        early only on a pass that sees no process after more than 300 seconds, and
        otherwise when the guard finds `maxDurationMinutes * 60` seconds elapsed. */
    method MonitorIndexing(maxDurationMinutes: int, start: real, readings: seq<Reading>) returns (stop: StopReason)
      modifies this
      ensures startTime == Some(start)
      ensures stop.LikelyCompleted? ==>
        && stop.pass < |readings|
        && WithinLimit(readings[stop.pass], start, maxDurationMinutes)
        && Finished(readings[stop.pass], start)
      ensures stop.TimeLimit? ==>
        stop.pass < |readings| && !WithinLimit(readings[stop.pass], start, maxDurationMinutes)
      ensures var passes := match stop case LikelyCompleted(k) => k case TimeLimit(k) => k case NoMoreReadings => |readings|;
        forall k :: 0 <= k < passes && k < |readings| ==> Continues(readings[k], start, maxDurationMinutes)
    {
      startTime := Some(start);
      var maxDuration := maxDurationMinutes * 60;
      var i := 0;
      while i < |readings|
        invariant 0 <= i <= |readings|
        invariant startTime == Some(start)
        invariant forall k :: 0 <= k < i ==> Continues(readings[k], start, maxDurationMinutes)
      {
        if readings[i].guardTime - start >= maxDuration as real {
          return TimeLimit(i);
        }
        var elapsed := readings[i].now - start;
        if readings[i].processes == 0 && elapsed > 300.0 {
          return LikelyCompleted(i);
        }
        i := i + 1;
      }
      return NoMoreReadings;
    }
  }

  // ---------------------------------------------------------------- main

  /** The command-line flags of `main`. */
  datatype Args = Args(checkApi: bool, analyze: bool, monitor: bool, estimate: Option<int>, maxTime: int)

  /** What `main` runs, in order. `EstimateInput` is the estimate of the default path,
      over the characters of the input files. */
  datatype Action = CheckApi | Analyze | Estimate(chars: int) | Monitor(minutes: int) | EstimateInput(files: nat, totalChars: nat)

  /** `--estimate 0` is falsy like an absent `--estimate`. */
  predicate EstimateGiven(args: Args) {
    args.estimate.Some? && args.estimate.value != 0
  }

  /** `not any([check_api, analyze, monitor, estimate])` */
  predicate DefaultPath(args: Args) {
    !args.checkApi && !args.analyze && !args.monitor && !EstimateGiven(args)
  }

  function Sum(xs: seq<nat>): nat
    decreases |xs|
  {
    if xs == [] then 0 else Sum(xs[..|xs| - 1]) + xs[|xs| - 1]
  }

  /** The checks `main` runs. `inputFiles` holds the lengths of the `*.txt` files of the
      input directory, or `None` when that directory does not exist. */
  function MainActions(args: Args, inputFiles: Option<seq<nat>>): (actions: seq<Action>)
    ensures DefaultPath(args) ==> |actions| >= 2 && actions[0] == CheckApi && actions[1] == Analyze
    ensures !DefaultPath(args) ==> forall k :: 0 <= k < |actions| ==> !actions[k].EstimateInput?
  {
    if DefaultPath(args) then
      [CheckApi, Analyze] +
        if inputFiles.Some? && inputFiles.value != [] then [EstimateInput(|inputFiles.value|, Sum(inputFiles.value))] else []
    else
      (if args.checkApi then [CheckApi] else []) +
      (if args.analyze then [Analyze] else []) +
      (if EstimateGiven(args) then [Estimate(args.estimate.value)] else []) +
      (if args.monitor then [Monitor(args.maxTime)] else [])
  }

  /** `--estimate 0` alone runs no explicit estimate but the whole default path. */
  lemma EstimateZeroIsAbsent(maxTime: int, inputFiles: Option<seq<nat>>)
    ensures var actions := MainActions(Args(false, false, false, Some(0), maxTime), inputFiles);
      actions[..2] == [CheckApi, Analyze] && forall k :: 0 <= k < |actions| ==> !actions[k].Estimate?
  {
  }

  /** Each flag that is set runs its check exactly once, and nothing else runs. */
  lemma ExplicitFlagsRunOnce(args: Args, inputFiles: Option<seq<nat>>)
    requires !DefaultPath(args)
    ensures var actions := MainActions(args, inputFiles);
      |actions| == (if args.checkApi then 1 else 0) + (if args.analyze then 1 else 0) +
                   (if EstimateGiven(args) then 1 else 0) + (if args.monitor then 1 else 0) &&
      (CheckApi in actions <==> args.checkApi) && (Analyze in actions <==> args.analyze) &&
      (Monitor(args.maxTime) in actions <==> args.monitor)
  {
  }
}
