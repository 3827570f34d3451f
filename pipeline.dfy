/**
 * `PipelineOrchestrator.run_pipeline`: the stage log, the per-file accounting of
 * processed PDFs and errors, and the final status; plus the pure helpers of the
 * indexing monitor (classifying output lines, formatting elapsed time).
 *
 * What the outside world answers is an input: the stat sizes, the outcome of
 * extracting and cleaning each PDF, the Stirling PDF probe, and whether GraphRAG
 * setup and indexing raise.
 */
module Pipeline {
  import opened Wrappers
  import opened Strings
  import opened TextCleaning

  // ---------------------------------------------------------------- stage log

  /** An entry of `results['pipeline_stages']`, without its timestamp. */
  datatype StageRecord = StageRecord(stage: string, status: string, details: string)

  /** The emoji `log_stage` prints for a status. */
  function StatusEmoji(status: string): (emoji: string)
    ensures status !in {"starting", "running", "completed", "failed", "warning"} <==> emoji == "ℹ️"
  {
    if status == "starting" then "\U{1F680}"
    else if status == "running" then "\U{1F504}"
    else if status == "completed" then "✅"
    else if status == "failed" then "❌"
    else if status == "warning" then "⚠️"
    else "ℹ️"
  }

  // ---------------------------------------------------------------- per-file accounting

  /** A PDF to process; `size` is `None` when the file does not exist. */
  datatype PdfFile = PdfFile(path: string, name: string, size: Option<nat>)

  /** What happened to one PDF inside the `try` of the loop: the stat size, the
      extracted text and the text read back after `process_text_file` cleaned it. */
  datatype FileOutcome =
    | ExtractionFailed(error: string)                           // stat or extraction raised
    | CleaningFailed(fileSize: nat, text: string, error: string) // raised after the text was read
    | Processed(fileSize: nat, text: string, cleaned: string)

  /** The outcomes agree with the files: `stat` of a missing file raises, so it can
      only fail extraction, and a file that got further was measured at its size. */
  predicate StatConsistent(files: seq<PdfFile>, outcomes: seq<FileOutcome>)
    requires |outcomes| == |files|
  {
    forall k :: 0 <= k < |files| && !outcomes[k].ExtractionFailed? ==> files[k].size == Some(outcomes[k].fileSize)
  }

  /** The cleaned text of every processed file is `clean_text` of its extracted text. */
  predicate CleanedByCleanText(outcomes: seq<FileOutcome>) {
    forall k :: 0 <= k < |outcomes| && outcomes[k].Processed? ==> outcomes[k].cleaned == CleanText(outcomes[k].text)
  }

  /** An entry of `results['processed_files']`. */
  datatype FileRecord = FileRecord(file: string, originalSize: nat, extractedChars: nat, cleanedChars: nat)

  const TooShort: nat := 100

  /** The records of the files processed so far, in input order. */
  function ProcessedRecords(files: seq<PdfFile>, outcomes: seq<FileOutcome>): (records: seq<FileRecord>)
    requires |outcomes| == |files|
    ensures |records| <= |files|
    decreases |files|
  {
    if files == [] then []
    else
      var n := |files| - 1;
      ProcessedRecords(files[..n], outcomes[..n]) +
        match outcomes[n]
        case Processed(size, text, cleaned) => [FileRecord(files[n].path, size, |text|, |cleaned|)]
        case _ => []
  }

  /** `f"Failed to process {pdf_file}: {e}"` */
  function ErrorMessage(file: PdfFile, error: string): string {
    "Failed to process " + file.path + ": " + error
  }

  /** When the outcomes agree with the files, every record is of an existing file,
      and its original size is that file's size. */
  lemma {:induction false} RecordsOfExistingFiles(files: seq<PdfFile>, outcomes: seq<FileOutcome>)
    requires |outcomes| == |files| && StatConsistent(files, outcomes)
    ensures forall r :: r in ProcessedRecords(files, outcomes) ==>
      exists k :: 0 <= k < |files| && files[k].path == r.file && files[k].size == Some(r.originalSize)
    decreases |files|
  {
    if files != [] {
      var n := |files| - 1;
      assert StatConsistent(files[..n], outcomes[..n]) by {
        forall k | 0 <= k < n && !outcomes[..n][k].ExtractionFailed?
          ensures files[..n][k].size == Some(outcomes[..n][k].fileSize)
        {
          assert files[..n][k] == files[k] && outcomes[..n][k] == outcomes[k];
        }
      }
      RecordsOfExistingFiles(files[..n], outcomes[..n]);
      forall r | r in ProcessedRecords(files, outcomes)
        ensures exists k :: 0 <= k < |files| && files[k].path == r.file && files[k].size == Some(r.originalSize)
      {
        if r in ProcessedRecords(files[..n], outcomes[..n]) {
          var k :| 0 <= k < n && files[..n][k].path == r.file && files[..n][k].size == Some(r.originalSize);
          assert files[..n][k] == files[k];
        } else {
          assert files[n].path == r.file && files[n].size == Some(r.originalSize);
        }
      }
    }
  }

  /** The error messages of the files that failed, in input order. */
  function ErrorMessages(files: seq<PdfFile>, outcomes: seq<FileOutcome>): (errors: seq<string>)
    requires |outcomes| == |files|
    ensures |errors| <= |files|
    decreases |files|
  {
    if files == [] then []
    else
      var n := |files| - 1;
      ErrorMessages(files[..n], outcomes[..n]) +
        match outcomes[n]
        case Processed(_, _, _) => []
        case ExtractionFailed(e) => [ErrorMessage(files[n], e)]
        case CleaningFailed(_, _, e) => [ErrorMessage(files[n], e)]
  }

  /** The stages logged for one file: a warning for a short extraction, a failure record. */
  function FileStage(file: PdfFile, outcome: FileOutcome): seq<StageRecord> {
    var warning :=
      if !outcome.ExtractionFailed? && |outcome.text| < TooShort then
        [StageRecord("Text Extraction Validation", "warning", file.name + ": Only " + Decimal(|outcome.text|) + " characters extracted")]
      else [];
    var failure := if outcome.Processed? then [] else [StageRecord("PDF Processing", "failed", file.name + ": " + outcome.error)];
    warning + failure
  }

  function FileStages(files: seq<PdfFile>, outcomes: seq<FileOutcome>): seq<StageRecord>
    requires |outcomes| == |files|
    decreases |files|
  {
    if files == [] then []
    else
      var n := |files| - 1;
      FileStages(files[..n], outcomes[..n]) + FileStage(files[n], outcomes[n])
  }

  /** The number of stage records named `name`. */
  function CountStage(stages: seq<StageRecord>, name: string): (count: nat)
    ensures count <= |stages|
    decreases |stages|
  {
    if stages == [] then 0
    else CountStage(stages[..|stages| - 1], name) + (if stages[|stages| - 1].stage == name then 1 else 0)
  }

  lemma {:induction false} CountStageAppend(a: seq<StageRecord>, b: seq<StageRecord>, name: string)
    ensures CountStage(a + b, name) == CountStage(a, name) + CountStage(b, name)
    decreases |b|
  {
    if b == [] {
      assert a + b == a;
    } else {
      var init := b[..|b| - 1];
      assert (a + b)[..|a + b| - 1] == a + init;
      CountStageAppend(a, init, name);
    }
  }

  /** One file adds one "PDF Processing" stage exactly when it fails. */
  lemma FileStageCount(file: PdfFile, outcome: FileOutcome)
    ensures CountStage(FileStage(file, outcome), "PDF Processing") == if outcome.Processed? then 0 else 1
  {
    var warning := if !outcome.ExtractionFailed? && |outcome.text| < TooShort then
      [StageRecord("Text Extraction Validation", "warning", file.name + ": Only " + Decimal(|outcome.text|) + " characters extracted")] else [];
    var failure := if outcome.Processed? then [] else [StageRecord("PDF Processing", "failed", file.name + ": " + outcome.error)];
    CountStageAppend(warning, failure, "PDF Processing");
    assert CountStage(warning, "PDF Processing") == 0;
  }

  /** Each file lands in exactly one of `processed_files` and `errors`. */
  lemma {:induction false} EveryFileAccounted(files: seq<PdfFile>, outcomes: seq<FileOutcome>)
    requires |outcomes| == |files|
    ensures |ProcessedRecords(files, outcomes)| + |ErrorMessages(files, outcomes)| == |files|
    decreases |files|
  {
    if files != [] {
      var n := |files| - 1;
      EveryFileAccounted(files[..n], outcomes[..n]);
    }
  }

  /** Each error comes with exactly one "PDF Processing" failure stage. */
  lemma {:induction false} OneFailureStagePerError(files: seq<PdfFile>, outcomes: seq<FileOutcome>)
    requires |outcomes| == |files|
    ensures CountStage(FileStages(files, outcomes), "PDF Processing") == |ErrorMessages(files, outcomes)|
    decreases |files|
  {
    if files != [] {
      var n := |files| - 1;
      OneFailureStagePerError(files[..n], outcomes[..n]);
      CountStageAppend(FileStages(files[..n], outcomes[..n]), FileStage(files[n], outcomes[n]), "PDF Processing");
      FileStageCount(files[n], outcomes[n]);
    }
  }

  /** A file is processed exactly when its outcome is `Processed`: the processed
      records are empty iff every outcome is a failure. */
  lemma {:induction false} NothingProcessed(files: seq<PdfFile>, outcomes: seq<FileOutcome>)
    requires |outcomes| == |files|
    ensures ProcessedRecords(files, outcomes) == [] <==> forall k :: 0 <= k < |outcomes| ==> !outcomes[k].Processed?
    decreases |files|
  {
    if files != [] {
      var n := |files| - 1;
      NothingProcessed(files[..n], outcomes[..n]);
      assert forall k :: 0 <= k < n ==> outcomes[..n][k] == outcomes[k];
    }
  }

  lemma CleanTextNoLonger(text: string)
    ensures |CleanText(text)| <= |text|
  {
    CleanTextShape(text);
  }

  /** Records keep the extracted and cleaned lengths of their outcomes. */
  lemma {:induction false} RecordsNoLonger(files: seq<PdfFile>, outcomes: seq<FileOutcome>)
    requires |outcomes| == |files|
    requires forall k :: 0 <= k < |outcomes| && outcomes[k].Processed? ==> |outcomes[k].cleaned| <= |outcomes[k].text|
    ensures forall r :: r in ProcessedRecords(files, outcomes) ==> r.cleanedChars <= r.extractedChars
    decreases |files|
  {
    if files != [] {
      var n := |files| - 1;
      assert forall k :: 0 <= k < n ==> outcomes[..n][k] == outcomes[k];
      RecordsNoLonger(files[..n], outcomes[..n]);
    }
  }

  /** Cleaning never lengthens a text: no processed file reports more cleaned than
      extracted characters. */
  lemma CleanedNoLonger(files: seq<PdfFile>, outcomes: seq<FileOutcome>)
    requires |outcomes| == |files| && CleanedByCleanText(outcomes)
    ensures forall r :: r in ProcessedRecords(files, outcomes) ==> r.cleanedChars <= r.extractedChars
  {
    forall k | 0 <= k < |outcomes| && outcomes[k].Processed? ensures |outcomes[k].cleaned| <= |outcomes[k].text| {
      CleanTextNoLonger(outcomes[k].text);
    }
    RecordsNoLonger(files, outcomes);
  }

  // ---------------------------------------------------------------- the whole run

  /** The answer of the Stirling PDF probe: a status code, or an exception. */
  datatype Connection = HttpStatus(code: int) | Unreachable(error: string)

  /** Whether `setup_graphrag_project` and `copy_processed_texts` raise; if not, how
      many `*.txt` files the input directory then holds. */
  datatype SetupOutcome = SetupFailed(error: string) | SetupDone(inputFiles: nat)

  /** What the run meets outside the PDFs. */
  datatype Environment = Environment(connection: Connection, setup: SetupOutcome, indexingError: Option<string>)

  datatype RunStatus = Completed | Failed

  /** The state of `results` when `run_pipeline` returns or raises. */
  datatype RunOutcome = RunOutcome(processedFiles: seq<FileRecord>, errors: seq<string>, stages: seq<StageRecord>,
                                   status: RunStatus, error: Option<string>)

  const NoFilesMessage: string := "No PDF files were successfully processed"

  /** `sum(f.stat().st_size for f in pdf_files if f.exists())` */
  function TotalSize(files: seq<PdfFile>): nat
    decreases |files|
  {
    if files == [] then 0 else TotalSize(files[..|files| - 1]) + files[|files| - 1].size.GetOr(0)
  }

  /** The total length of the cleaned texts. */
  function TotalCleaned(records: seq<FileRecord>): nat
    decreases |records|
  {
    if records == [] then 0 else TotalCleaned(records[..|records| - 1]) + records[|records| - 1].cleanedChars
  }

  function ConnectionStage(code: int): StageRecord {
    if code == 200 then StageRecord("Stirling PDF Connection", "completed", "API accessible")
    else StageRecord("Stirling PDF Connection", "warning", "API returned " + IntToString(code))
  }

  /** The stages up to and including the connection probe's stage. */
  function OpeningStages(dir: string, files: seq<PdfFile>, connection: Connection): seq<StageRecord> {
    [StageRecord("Directory Setup", "starting", ""),
     StageRecord("Directory Setup", "completed", "Created " + dir),
     StageRecord("Pipeline Initialization", "starting", Decimal(|files|) + " PDF files, " + Grouped(TotalSize(files)) + " bytes total"),
     match connection
     case HttpStatus(code) => ConnectionStage(code)
     case Unreachable(e) => StageRecord("Stirling PDF Connection", "failed", "Cannot reach API: " + e)]
  }

  /** The `except` branch: status failed, the error text, one more stage. */
  function Failure(processed: seq<FileRecord>, errors: seq<string>, stages: seq<StageRecord>, e: string): RunOutcome {
    RunOutcome(processed, errors, stages + [StageRecord("Pipeline", "failed", e)], Failed, Some(e))
  }

  /** The part of the run after the PDF loop, from the files' records and the log so far. */
  function AfterExtraction(processed: seq<FileRecord>, errors: seq<string>, extraction: seq<StageRecord>, env: Environment): RunOutcome {
    if processed == [] then Failure(processed, errors, extraction, NoFilesMessage)
    else
      var setup := extraction + [
        StageRecord("PDF Text Extraction", "completed", Decimal(|processed|) + " files, " + Grouped(TotalCleaned(processed)) + " total characters"),
        StageRecord("GraphRAG Setup", "starting", "")];
      match env.setup
      case SetupFailed(e) => Failure(processed, errors, setup, e)
      case SetupDone(count) =>
        var indexing := setup + [
          StageRecord("GraphRAG Setup", "completed", Decimal(count) + " files copied to GraphRAG input"),
          StageRecord("GraphRAG Indexing", "starting", "")];
        match env.indexingError
        case Some(e) => Failure(processed, errors, indexing, e)
        case None => RunOutcome(processed, errors, indexing + [StageRecord("GraphRAG Indexing", "completed", "")], Completed, None)
  }

  /** `run_pipeline` as a value: the contents of `results` when it returns or raises. */
  function Run(dir: string, files: seq<PdfFile>, outcomes: seq<FileOutcome>, env: Environment): RunOutcome
    requires |outcomes| == |files|
  {
    var opening := OpeningStages(dir, files, env.connection);
    match env.connection
    case Unreachable(e) => Failure([], [], opening, e)
    case HttpStatus(_) =>
      AfterExtraction(ProcessedRecords(files, outcomes), ErrorMessages(files, outcomes),
        opening + [StageRecord("PDF Text Extraction", "starting", "")] + FileStages(files, outcomes), env)
  }

  /** The run completes exactly when nothing raises and some file was processed; it then
      ends with the indexing stage, and otherwise with the "Pipeline" failure stage
      carrying the error. */
  lemma RunStatusSpec(dir: string, files: seq<PdfFile>, outcomes: seq<FileOutcome>, env: Environment)
    requires |outcomes| == |files|
    ensures var r := Run(dir, files, outcomes, env);
      (r.status == Completed <==>
        env.connection.HttpStatus? && ProcessedRecords(files, outcomes) != [] && env.setup.SetupDone? && env.indexingError.None?) &&
      (r.status == Completed <==> r.error.None?) &&
      r.stages != [] &&
      (r.status == Completed ==> r.stages[|r.stages| - 1] == StageRecord("GraphRAG Indexing", "completed", "")) &&
      (r.status == Failed ==> r.stages[|r.stages| - 1] == StageRecord("Pipeline", "failed", r.error.value))
  {
  }

  /** Once the probe has answered, every file is accounted for exactly once, and a run in
      which no file was processed fails with the "no PDF files" error. */
  lemma RunAccountsEveryFile(dir: string, files: seq<PdfFile>, outcomes: seq<FileOutcome>, env: Environment)
    requires |outcomes| == |files| && env.connection.HttpStatus?
    ensures var r := Run(dir, files, outcomes, env);
      |r.processedFiles| + |r.errors| == |files| &&
      (r.processedFiles == [] ==> r.status == Failed && r.error == Some(NoFilesMessage)) &&
      ((forall k :: 0 <= k < |outcomes| ==> !outcomes[k].Processed?) ==> r.error == Some(NoFilesMessage))
  {
    EveryFileAccounted(files, outcomes);
    NothingProcessed(files, outcomes);
  }

  /** The log starts with directory setup, and a failed probe stops the run before any
      file is touched. */
  lemma RunUnreachable(dir: string, files: seq<PdfFile>, outcomes: seq<FileOutcome>, e: string, setup: SetupOutcome, indexingError: Option<string>)
    requires |outcomes| == |files|
    ensures var r := Run(dir, files, outcomes, Environment(Unreachable(e), setup, indexingError));
      r.processedFiles == [] && r.errors == [] && r.status == Failed && r.error == Some(e) && |r.stages| == 5 &&
      r.stages[0] == StageRecord("Directory Setup", "starting", "")
  {
  }

  /** `results` of `run_pipeline`; `status` and `error` are absent until the end. */
  class PipelineResults {
    var processedFiles: seq<FileRecord>
    var errors: seq<string>
    var stages: seq<StageRecord>
    var status: Option<RunStatus>
    var error: Option<string>

    constructor ()
      ensures processedFiles == [] && errors == [] && stages == [] && status == None && error == None
    {
      processedFiles := [];
      errors := [];
      stages := [];
      status := None;
      error := None;
    }

    /** `log_stage`: appends one record and changes nothing else. */
    method LogStage(stage: string, status: string, details: string)
      modifies this
      ensures stages == old(stages) + [StageRecord(stage, status, details)]
      ensures processedFiles == old(processedFiles) && errors == old(errors)
      ensures this.status == old(this.status) && error == old(error)
    {
      stages := stages + [StageRecord(stage, status, details)];
    }

    /** The `except` branch of `run_pipeline`. */
    method Fail(e: string)
      modifies this
      ensures stages == old(stages) + [StageRecord("Pipeline", "failed", e)]
      ensures processedFiles == old(processedFiles) && errors == old(errors)
      ensures status == Some(Failed) && error == Some(e)
    {
      status := Some(Failed);
      error := Some(e);
      LogStage("Pipeline", "failed", e);
    }

    /** The state matches a run outcome. */
    predicate Holds(r: RunOutcome)
      reads this
    {
      processedFiles == r.processedFiles && errors == r.errors && stages == r.stages &&
      status == Some(r.status) && error == r.error
    }
  }

  /** The stages and accounting of one more file. */
  lemma FileStep(files: seq<PdfFile>, outcomes: seq<FileOutcome>, i: nat)
    requires |outcomes| == |files| && i < |files|
    ensures ProcessedRecords(files[..i + 1], outcomes[..i + 1]) == ProcessedRecords(files[..i], outcomes[..i]) +
      match outcomes[i]
      case Processed(size, text, cleaned) => [FileRecord(files[i].path, size, |text|, |cleaned|)]
      case _ => []
    ensures ErrorMessages(files[..i + 1], outcomes[..i + 1]) == ErrorMessages(files[..i], outcomes[..i]) +
      match outcomes[i]
      case Processed(_, _, _) => []
      case ExtractionFailed(e) => [ErrorMessage(files[i], e)]
      case CleaningFailed(_, _, e) => [ErrorMessage(files[i], e)]
    ensures FileStages(files[..i + 1], outcomes[..i + 1]) == FileStages(files[..i], outcomes[..i]) + FileStage(files[i], outcomes[i])
  {
    assert files[..i + 1][..i] == files[..i];
    assert outcomes[..i + 1][..i] == outcomes[..i];
  }

  /** `sum(f.stat().st_size for f in pdf_files if f.exists())`, as a loop. */
  method SumSizes(files: seq<PdfFile>) returns (total: nat)
    ensures total == TotalSize(files)
  {
    total := 0;
    for k := 0 to |files|
      invariant total == TotalSize(files[..k])
    {
      assert files[..k + 1][..k] == files[..k];
      if files[k].size.Some? {
        total := total + files[k].size.value;
      }
    }
    assert files[..|files|] == files;
  }

  /** The body of the loop for one PDF: a warning stage for a short extraction, then
      either a processed-file record or an error with a "PDF Processing" failure stage. */
  method ProcessFile(results: PipelineResults, file: PdfFile, outcome: FileOutcome) returns (cleaned: Option<string>)
    modifies results
    ensures results.processedFiles == old(results.processedFiles) +
      if outcome.Processed? then [FileRecord(file.path, outcome.fileSize, |outcome.text|, |outcome.cleaned|)] else []
    ensures results.errors == old(results.errors) + if outcome.Processed? then [] else [ErrorMessage(file, outcome.error)]
    ensures results.stages == old(results.stages) + FileStage(file, outcome)
    ensures results.status == old(results.status) && results.error == old(results.error)
    ensures cleaned.Some? <==> outcome.Processed?
  {
    var warning: seq<StageRecord> := [];
    if !outcome.ExtractionFailed? && |outcome.text| < TooShort {
      warning := [StageRecord("Text Extraction Validation", "warning", file.name + ": Only " + Decimal(|outcome.text|) + " characters extracted")];
      results.LogStage(warning[0].stage, warning[0].status, warning[0].details);
    }
    var failure: seq<StageRecord> := [];
    if outcome.Processed? {
      cleaned := Some(outcome.cleaned);
      results.processedFiles := results.processedFiles + [FileRecord(file.path, outcome.fileSize, |outcome.text|, |outcome.cleaned|)];
    } else {
      cleaned := None;
      results.errors := results.errors + [ErrorMessage(file, outcome.error)];
      failure := [StageRecord("PDF Processing", "failed", file.name + ": " + outcome.error)];
      results.LogStage(failure[0].stage, failure[0].status, failure[0].details);
    }
    assert results.stages == old(results.stages) + warning + failure;
  }

  /** The loop over the PDFs, in input order. */
  method ProcessFiles(results: PipelineResults, files: seq<PdfFile>, outcomes: seq<FileOutcome>)
    returns (processedTexts: seq<string>)
    requires |outcomes| == |files|
    requires results.processedFiles == [] && results.errors == []
    modifies results
    ensures results.processedFiles == ProcessedRecords(files, outcomes)
    ensures results.errors == ErrorMessages(files, outcomes)
    ensures results.stages == old(results.stages) + FileStages(files, outcomes)
    ensures results.status == old(results.status) && results.error == old(results.error)
    ensures |processedTexts| == |results.processedFiles|
  {
    processedTexts := [];
    for i := 0 to |files|
      invariant results.processedFiles == ProcessedRecords(files[..i], outcomes[..i])
      invariant results.errors == ErrorMessages(files[..i], outcomes[..i])
      invariant results.stages == old(results.stages) + FileStages(files[..i], outcomes[..i])
      invariant results.status == old(results.status) && results.error == old(results.error)
      invariant |processedTexts| == |results.processedFiles|
    {
      FileStep(files, outcomes, i);
      var cleaned := ProcessFile(results, files[i], outcomes[i]);
      if cleaned.Some? {
        processedTexts := processedTexts + [cleaned.value];
      }
    }
    assert files[..|files|] == files && outcomes[..|outcomes|] == outcomes;
  }

  /** The directory, initialization and connection stages; `false` when the probe
      raised, after which the run has failed. */
  method OpenRun(results: PipelineResults, dir: string, files: seq<PdfFile>, connection: Connection) returns (reached: bool)
    requires results.stages == [] && results.status == None && results.error == None
    modifies results
    ensures reached <==> connection.HttpStatus?
    ensures results.processedFiles == old(results.processedFiles) && results.errors == old(results.errors)
    ensures reached ==> results.stages == OpeningStages(dir, files, connection) && results.status == None && results.error == None
    ensures !reached ==>
      && results.stages == OpeningStages(dir, files, connection) + [StageRecord("Pipeline", "failed", connection.error)]
      && results.status == Some(Failed) && results.error == Some(connection.error)
  {
    results.LogStage("Directory Setup", "starting", "");
    results.LogStage("Directory Setup", "completed", "Created " + dir);
    var totalSize := SumSizes(files);
    results.LogStage("Pipeline Initialization", "starting", Decimal(|files|) + " PDF files, " + Grouped(totalSize) + " bytes total");
    match connection {
      case Unreachable(e) =>
        results.LogStage("Stirling PDF Connection", "failed", "Cannot reach API: " + e);
        assert results.stages == OpeningStages(dir, files, connection);
        results.Fail(e);
        reached := false;
      case HttpStatus(code) =>
        if code == 200 {
          results.LogStage("Stirling PDF Connection", "completed", "API accessible");
        } else {
          results.LogStage("Stirling PDF Connection", "warning", "API returned " + IntToString(code));
        }
        reached := true;
    }
  }

  /** Everything after the PDF loop: the no-file check, GraphRAG setup and indexing. */
  method FinishRun(results: PipelineResults, processedTexts: seq<string>, env: Environment) returns (raised: Option<string>)
    requires |processedTexts| == |results.processedFiles|
    requires results.status == None && results.error == None
    modifies results
    ensures results.Holds(AfterExtraction(old(results.processedFiles), old(results.errors), old(results.stages), env))
    ensures raised == results.error
  {
    if processedTexts == [] {
      results.Fail(NoFilesMessage);
      return Some(NoFilesMessage);
    }
    results.LogStage("PDF Text Extraction", "completed",
      Decimal(|results.processedFiles|) + " files, " + Grouped(TotalCleaned(results.processedFiles)) + " total characters");
    results.LogStage("GraphRAG Setup", "starting", "");
    match env.setup {
      case SetupFailed(e) =>
        results.Fail(e);
        return Some(e);
      case SetupDone(count) =>
        results.LogStage("GraphRAG Setup", "completed", Decimal(count) + " files copied to GraphRAG input");
    }
    results.LogStage("GraphRAG Indexing", "starting", "");
    match env.indexingError {
      case Some(e) =>
        results.Fail(e);
        return Some(e);
      case None =>
        results.LogStage("GraphRAG Indexing", "completed", "");
    }
    results.status := Some(Completed);
    return None;
  }

  /** `run_pipeline`, with the outside world's answers as inputs. `raised` is the text
      of the exception it re-raises, if any. */
  method RunPipeline(dir: string, files: seq<PdfFile>, outcomes: seq<FileOutcome>, env: Environment)
    returns (results: PipelineResults, raised: Option<string>)
    requires |outcomes| == |files|
    ensures fresh(results)
    ensures results.Holds(Run(dir, files, outcomes, env))
    ensures raised == results.error
  {
    results := new PipelineResults();
    var reached := OpenRun(results, dir, files, env.connection);
    if !reached {
      return results, results.error;
    }
    results.LogStage("PDF Text Extraction", "starting", "");
    var processedTexts := ProcessFiles(results, files, outcomes);
    raised := FinishRun(results, processedTexts, env);
  }

  // ---------------------------------------------------------------- monitor helpers

  const ErrorKeywords: seq<string> := ["error", "fail", "exception"]
  const WarningKeywords: seq<string> := ["warning", "warn"]
  const ProgressKeywords: seq<string> :=
    ["embedding", "chunk", "entity", "relationship", "community", "processing", "stage", "step", "progress", "complete"]

  /** `any(keyword in line.lower() for keyword in keywords)` */
  predicate MentionsAny(line: string, keywords: seq<string>) {
    exists k :: 0 <= k < |keywords| && Contains(Lower(line), keywords[k])
  }

  /** How a stderr line of the indexing process is highlighted. */
  datatype Highlight = ErrorLine | WarningLine | PlainLine

  function ClassifyStderr(line: string): Highlight {
    if MentionsAny(line, ErrorKeywords) then ErrorLine
    else if MentionsAny(line, WarningKeywords) then WarningLine
    else PlainLine
  }

  /** A stdout line reported as progress. */
  predicate IsProgressLine(line: string) {
    MentionsAny(line, ProgressKeywords)
  }

  /** An error keyword wins over a warning keyword; "warning" adds nothing to "warn". */
  lemma ClassifyStderrSpec(line: string)
    ensures ClassifyStderr(line) == ErrorLine <==>
      Contains(Lower(line), "error") || Contains(Lower(line), "fail") || Contains(Lower(line), "exception")
    ensures ClassifyStderr(line) == WarningLine <==> ClassifyStderr(line) != ErrorLine && Contains(Lower(line), "warn")
  {
    if Contains(Lower(line), "warning") {
      assert OccursAt("warning", "warn", 0);
      ContainsTransitive(Lower(line), "warning", "warn");
    }
    if Contains(Lower(line), "warn") {
      assert Contains(Lower(line), WarningKeywords[1]);
    }
    if Contains(Lower(line), "error") { assert Contains(Lower(line), ErrorKeywords[0]); }
    if Contains(Lower(line), "fail") { assert Contains(Lower(line), ErrorKeywords[1]); }
    if Contains(Lower(line), "exception") { assert Contains(Lower(line), ErrorKeywords[2]); }
  }

  /** Lowering an uppercased string is lowering it. */
  lemma LowerUpper(s: string)
    ensures Lower(Upper(s)) == Lower(s)
  {
    forall k | 0 <= k < |s| ensures Lower(Upper(s))[k] == Lower(s)[k] {
      var c := s[k];
      assert Upper(s)[k] == UpperChar(c);
    }
  }

  /** The classifications ignore case. */
  lemma ClassificationIgnoresCase(line: string)
    ensures ClassifyStderr(Upper(line)) == ClassifyStderr(line)
    ensures IsProgressLine(Upper(line)) == IsProgressLine(line)
  {
    LowerUpper(line);
  }

  /** `elapsed // 60` and `elapsed % 60`. */
  function SplitElapsed(elapsed: nat): (ms: (nat, nat))
    ensures 60 * ms.0 + ms.1 == elapsed && ms.1 < 60
  {
    (elapsed / 60, elapsed % 60)
  }

  /** The minutes-and-seconds split is the only one with seconds below 60. */
  lemma SplitElapsedUnique(elapsed: nat, m: nat, s: nat)
    requires 60 * m + s == elapsed && s < 60
    ensures SplitElapsed(elapsed) == (m, s)
  {
    var (m0, s0) := SplitElapsed(elapsed);
    assert 60 * (m - m0) == s0 - s;
    assert -60 < s0 - s < 60;
  }
}
