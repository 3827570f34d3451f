# GraFlow core, modelled in Dafny

GraFlow turns PDF documents into a GraphRAG knowledge graph. It extracts the text of each
PDF through a Stirling PDF service, cleans the text, and runs GraphRAG indexing. It then checks the
entity descriptions GraphRAG produced for hallucinations. This project models the decision
logic of that pipeline and proves properties of it:

- **Text cleaning**: `TextProcessor.clean_text` (`text_cleaning.dfy`, `strings.dfy`).
  Whitespace runs collapse to one space, and the three newline regexes are modelled
  pattern by pattern. The result is stripped.
- **The pipeline run**: `PipelineOrchestrator.run_pipeline` and its `log_stage` (`pipeline.dfy`).
  - The result dictionary is a class whose methods append records.
  - The per-file loop is a method proved against a specification of the whole run.
  - The stderr/progress line classifier and the elapsed-time split are functions.
- **Entity validation**: `entity_validator.py`.
  - `api_response.dfy` covers parsing of the Groq reply (`_parse_api_response`).
  - `entity_validation.dfy` covers source-text lookup, the Groq, NLI and hybrid validators, and the hybrid spot check.
  - `validation_batch.dfy` covers the resumable batch loop with its checkpoints, and the `--limit`/`--all` choice of `main`.
- **The monitor script**: `graphrag_monitor.py` (`graphrag_monitor.dfy`).
  - The `.env` key lookup loop and the status verdict.
  - The large-dataset warning.
  - The stop rule of the monitoring loop.
  - Which checks `main` runs.
- **The setup validator**: `validate_setup.py` (`validate_setup.dfy`).
  - The `all_good` accumulator mixes `&=` with a short-circuiting `and`.
  - It is modelled statement by statement.
  - It is proved against a fold over the list of checks.

External effects are inputs to the model:

| Effect | Modelled as |
|---|---|
| Extraction outcome of each PDF | a `FileOutcome` |
| Stirling probe | a `Connection` |
| GraphRAG setup and indexing | outcomes in `Environment` |
| Groq reply | an `ApiReply` |
| NLI contradiction score | a `real` |
| OpenAI status probe | a `Probe` |
| Monitor's clock and process scan | a sequence of `Reading`s |
| Results of the environment checks | fields of `SetupValidation.Environment` |

Python's `str` operations are modelled on ASCII in `strings.dfy`:
- `strip`, `split`, `lower`/`upper`;
- `isalpha`, substring tests;
- `"".join`.

## Model

| member | source | states |
|---|---|---|
| TextCleaning.CollapseSpaces | pipeline_orchestrator.py:148 | `re.sub(r'\s+', ' ', text)`: the result holds no whitespace other than single spaces between non-space characters, and is no longer than the input |
| TextCleaning.CollapseKeepsNonSpace | pipeline_orchestrator.py:148 | collapsing keeps every non-space character, in order |
| TextCleaning.SubstituteWithoutNewline | pipeline_orchestrator.py:151-155 | each of the three newline patterns needs a '\n' to match, so on text without one it changes nothing |
| TextCleaning.CleanTextIsCollapseStrip | pipeline_orchestrator.py:144-160 | after the whitespace collapse no newline is left, so `clean_text` equals collapse-then-strip: the page-number, "Page N" and blank-line substitutions never fire |
| TextCleaning.CleanTextShape | pipeline_orchestrator.py:144-160 | cleaned text is normalized, has no outer whitespace and no '\n' or '\r', keeps the non-space characters in order, and is never longer than the input |
| TextCleaning.CleanTextFixesClean | pipeline_orchestrator.py:144-160 | text that is already normalized and stripped is left unchanged |
| TextCleaning.CleanTextIdempotent | pipeline_orchestrator.py:144-160 | cleaning twice is cleaning once |
| Strings.JoinSplitOn | entity_validator.py:284 | `sep.join(s.split(sep)) == s`, the partner of the line splitting used throughout |
| Strings.Strip | entity_validator.py:291 | `str.strip()`: the result is a slice of the input with no whitespace at either end |
| Pipeline.StatusEmoji | pipeline_orchestrator.py:493-499 | the emoji is the default "ℹ️" exactly when the status is not one of the five known ones |
| Pipeline.PipelineResults.LogStage | pipeline_orchestrator.py:483-491 | appends exactly one stage record with the given stage, status and details, and changes nothing else |
| Pipeline.PipelineResults.Fail | pipeline_orchestrator.py:626-633 | sets status failed and the error, and appends the "Pipeline"/"failed" stage |
| Pipeline.SumSizes | pipeline_orchestrator.py:512 | the total over the files whose size is known (the ones that exist) |
| Pipeline.ProcessFile | pipeline_orchestrator.py:535-582 | one file: a processed file adds its record (size, extracted and cleaned character counts), a failure adds "Failed to process <path>: <e>" and a "PDF Processing" failed stage, a short extraction (< 100 characters) adds a warning stage |
| Pipeline.ProcessFiles | pipeline_orchestrator.py:533-582 | the loop leaves exactly the records, errors and stages the specification functions give, in input order |
| Pipeline.OpenRun | pipeline_orchestrator.py:505-527 | logs directory setup, initialization and the connection stage (completed on 200, warning on another status); an unreachable service fails the run before any file is touched |
| Pipeline.FinishRun | pipeline_orchestrator.py:584-643 | no processed file raises "No PDF files were successfully processed"; otherwise setup and indexing stages follow, and any error ends the run failed |
| Pipeline.RunPipeline | pipeline_orchestrator.py:472-645 | the whole run produces exactly the specified results, and raises exactly when the results carry an error |
| Pipeline.EveryFileAccounted | pipeline_orchestrator.py:535-582 | every input file yields either one processed record or one error message |
| Pipeline.RecordsOfExistingFiles | pipeline_orchestrator.py:538-575 | when the outcomes agree with the files' `stat`, each processed-file record names an input file and carries that file's size as `original_size` |
| Pipeline.OneFailureStagePerError | pipeline_orchestrator.py:577-581 | there is exactly one "PDF Processing" failed stage per error message |
| Pipeline.NothingProcessed | pipeline_orchestrator.py:584-585 | no processed record iff no file's processing succeeded |
| Pipeline.CleanedNoLonger | pipeline_orchestrator.py:549-575 | in every record the cleaned character count is at most the extracted one |
| Pipeline.RunStatusSpec | pipeline_orchestrator.py:505-643 | the run completes iff the service answered, some file was processed, and setup and indexing succeeded; it completes iff it has no error; the last stage is the indexing completion or the "Pipeline" failure |
| Pipeline.RunAccountsEveryFile | pipeline_orchestrator.py:535-585 | once the service answered, records plus errors equal the number of files, and a run with no processed file fails with the no-files error |
| Pipeline.RunUnreachable | pipeline_orchestrator.py:517-527 | an unreachable service leaves no record and no error, fails with that error, and logs five stages starting with directory setup |
| Pipeline.ClassifyStderrSpec | pipeline_orchestrator.py:266-270 | a stderr line is an error iff it mentions error/fail/exception (any case), and a warning iff it is not an error and mentions "warn" |
| Pipeline.ClassificationIgnoresCase | pipeline_orchestrator.py:251-270 | upper-casing a line changes neither its stderr highlight nor its progress classification |
| Pipeline.SplitElapsed | pipeline_orchestrator.py:277-278 | `elapsed//60`, `elapsed%60`: 60·minutes + seconds is the elapsed time, seconds below 60 |
| Pipeline.SplitElapsedUnique | pipeline_orchestrator.py:277-278 | the split is the only such pair |
| ApiResponse.LastTaggedNone | entity_validator.py:290-303 | no tagged line is found iff no stripped line starts with the tag |
| ApiResponse.LastTaggedIsLast | entity_validator.py:290-303 | the line found is the last one carrying the tag (a later one overrides an earlier one) |
| ApiResponse.TagsExclusive | entity_validator.py:292-300 | no line starts with two of the three tags, so the `elif` order does not matter |
| ApiResponse.AdjustedConfidence | entity_validator.py:305-312 | supported puts the confidence at most 0.5 (0.1 above 0.5), unsupported at least 0.5 (0.8 below 0.5); a raw value already on the right side passes through |
| ApiResponse.ApiVerdict | entity_validator.py:277-316 | hallucinated iff the last SUPPORTED line lacks "YES"; confidence on the verdict's side of 0.5; at most one issue |
| ApiResponse.ScanLines | entity_validator.py:284-303 | the line loop leaves `supported`, `raw_confidence` and `issues` exactly as the last SUPPORTED, CONFIDENCE and non-"none" ISSUES lines determine |
| ApiResponse.ParseApiResponse | entity_validator.py:277-316 | the parse computes exactly the verdict of the specification |
| ApiResponse.NoSupportedLineMeansSupported | entity_validator.py:286-314 | a reply without a SUPPORTED line is judged not hallucinated |
| ApiResponse.NoConfidenceLine | entity_validator.py:287-312 | without a CONFIDENCE line the confidence is 0.0, or 0.8 when unsupported |
| ApiResponse.LaterNoneKeepsIssue | entity_validator.py:300-303 | a later "ISSUES: none" does not clear an issue already reported |
| ApiResponse.LastReportedIssueWins | entity_validator.py:300-303 | a later non-empty ISSUES line replaces the issue |
| EntityValidation.TextUnitMap | entity_validator.py:59-62 | an id is a key iff some text unit has it |
| EntityValidation.TextUnitMapLastWins | entity_validator.py:59-62 | with duplicate ids the last text unit's text wins |
| EntityValidation.GetSourceTexts | entity_validator.py:64-75 | the loop returns the texts of the known ids, in id order |
| EntityValidation.SourceTextsAppend | entity_validator.py:70-75 | looking up two id lists one after the other gives the texts of the first followed by those of the second |
| EntityValidation.SourceTextsEmpty | entity_validator.py:70-75 | no source text iff none of the entity's text-unit ids is known |
| EntityValidation.SourceTextsAllKnown | entity_validator.py:70-75 | when every id is known, one text per id, in order |
| EntityValidation.SourceTextsFromMap | entity_validator.py:70-75 | every text returned is the text of one of the entity's ids |
| EntityValidation.NoSourceResult | entity_validator.py:192-203 | without sources: confidence 0.0, not hallucinated, the single issue "No source texts available" |
| EntityValidation.GroqValidate | entity_validator.py:181-243 | keeps the entity id, method "groq", confidence on the verdict's side of 0.5, at most one issue |
| EntityValidation.GroqFailureNotHallucinated | entity_validator.py:222-231 | an empty reply or an API error gives confidence 0.0, not hallucinated, one issue |
| EntityValidation.NliValidate | entity_validator.py:356-440 | with sources, the confidence is the average contradiction score, hallucinated iff above 0.5, with an issue iff hallucinated |
| EntityValidation.KeyTermsAreFilteredWords | entity_validator.py:494-498 | the punctuation strip never changes a kept word, because kept words are purely alphabetic |
| EntityValidation.Coverage | entity_validator.py:501-502 | coverage lies in [0, 1]; it is 0.0 without key terms and 1.0 when all are found |
| EntityValidation.CoverageThresholds | entity_validator.py:502-556 | the integer forms of the 0.7, 0.3 and 0.5 thresholds agree with the real-valued coverage |
| EntityValidation.FailureIssues | entity_validator.py:524-528 | one issue for a missing name, one for low coverage |
| EntityValidation.SpotCheck | entity_validator.py:562-630 | entity id ""; hallucinated iff the reply mentions HALLUCINATED, confidence 0.7/0.3; an API failure gives 0.5, not hallucinated, one issue |
| EntityValidation.ReasonTextsEmpty | entity_validator.py:601-604 | no issue iff no reply line starts with "REASON:" |
| EntityValidation.NotHallucinatedCountsAsHallucinated | entity_validator.py:597 | a reply saying "NOT HALLUCINATED" is judged hallucinated, because the test is a substring test |
| EntityValidation.HybridValidate | entity_validator.py:465-560 | every hybrid verdict keeps the entity name and has its confidence on the verdict's side of 0.5 |
| EntityValidation.HybridHighCoverage | entity_validator.py:508-520 | coverage > 0.7 with the name found: not hallucinated, 0.1, no issues, "hybrid_text" |
| EntityValidation.HybridLowCoverage | entity_validator.py:522-540 | coverage < 0.3 or the name missing: hallucinated, 0.8, one issue per failing test |
| EntityValidation.HybridUncertainWithoutGroq | entity_validator.py:548-560 | otherwise, without Groq: confidence 0.5, hallucinated iff coverage < 0.5 |
| EntityValidation.HybridSpotCheckDropsId | entity_validator.py:543-547 | in the uncertain case with Groq, the result's entity id is "" and the method "hybrid_groq" |
| EntityValidation.HybridValidateKeepingId | entity_validator.py:543-547 | the corrected validator keeps the entity's own id in every branch |
| EntityValidation.KeepingIdChangesOnlyId | entity_validator.py:543-547 | the correction differs from the code as written only in the entity id |
| EntityValidation.NoSourceTextsVerdict | entity_validator.py:476-487 | all three validators give the same no-source verdict when no id is known |
| ValidationBatch.ProcessedIds | entity_validator.py:91 | the cached ids are exactly the entity ids of the cached results |
| ValidationBatch.Pending | entity_validator.py:96-98 | every pending row is in the table with an id outside the cache, and every such row is pending |
| ValidationBatch.PendingOne | entity_validator.py:96-98 | a single row is pending exactly when its id is not cached |
| ValidationBatch.PendingAppend | entity_validator.py:96-98 | the filter keeps the table's order: the pending rows of `a + b` are those of `a` followed by those of `b` |
| ValidationBatch.PendingMultiplicity | entity_validator.py:96-98 | each row occurs as often as in the table when its id is not cached, and not at all otherwise |
| ValidationBatch.Selected | entity_validator.py:100-101 | `head(limit)` for a truthy limit, everything otherwise |
| ValidationBatch.ToProcess | entity_validator.py:96-101 | no entity already cached is taken again, and at most `limit` are taken |
| ValidationBatch.ValidateBatch | entity_validator.py:81-124 | the results are the cached ones followed by the successful validations of the selected rows, in order; checkpoints are saved whenever the count reaches a multiple of 10, then once at the end |
| ValidationBatch.CheckpointsExactly | entity_validator.py:112-114 | a checkpoint is saved exactly at each prefix of the results that holds a new result and has a length divisible by 10 |
| ValidationBatch.ValidatedFromRows | entity_validator.py:107-119 | every new result is the validation of one of the selected rows |
| ValidationBatch.ValidatedAllSucceed | entity_validator.py:107-119 | when no validation raises, one result per row, in row order |
| ValidationBatch.SelectLimit | entity_validator.py:682-691 | `--all` means no limit; a truthy `--limit` is used as given; otherwise the limit is 10 |
| ValidationBatch.MainLimitBounds | entity_validator.py:682-693 | without `--all` a run validates at most the limit; with it, every pending entity |
| ValidationBatch.SpotCheckedEntityPendingAgain | entity_validator.py:89-98 | an entity settled by a hybrid spot check is pending again after a resume |
| ValidationBatch.KeepingIdNotPendingAgain | entity_validator.py:89-98 | with the corrected validator, no entity validated before is taken up again |
| GraphRagMonitor.KeyValueIsRestOfLine | graphrag_monitor.py:40-41 | the key is everything after `GRAPHRAG_API_KEY=`, untrimmed, and may itself contain '=' |
| GraphRagMonitor.FirstKeyValueSpec | graphrag_monitor.py:36-42 | the first line starting with the prefix supplies the key; no key iff no line starts with it |
| GraphRagMonitor.LookupEnvKey | graphrag_monitor.py:37-42 | the loop with `break` returns the value of the first matching line |
| GraphRagMonitor.CheckApiStatus | graphrag_monitor.py:33-88 | a truthy argument skips the `.env` lookup; the probe is made iff a non-empty key results; without one the result is None |
| GraphRagMonitor.EmptyValueStopsSearch | graphrag_monitor.py:40-46 | a first matching line with an empty value stops the search and leaves no key, so no request |
| GraphRagMonitor.StatusVerdict | graphrag_monitor.py:62-88 | accessible iff the status is 200; 429, other codes and exceptions are not |
| GraphRagMonitor.EstimateMinutes | graphrag_monitor.py:90-107 | minutes are characters / 50,000; the advice is printed iff the minutes exceed 30 |
| GraphRagMonitor.LargeDatasetThreshold | graphrag_monitor.py:93-100 | the advice is printed iff there are more than 1,500,000 characters |
| GraphRagMonitor.Monitor.MonitorIndexing | graphrag_monitor.py:153-197 | records the start time; stops early only on a pass within the limit that sees no process after more than 300 s, and otherwise when the guard finds `max*60` seconds elapsed |
| GraphRagMonitor.MainActions | graphrag_monitor.py:205-250 | with no truthy flag, the default path runs the API check and then the analysis; the input-file estimate runs only on the default path |
| GraphRagMonitor.EstimateZeroIsAbsent | graphrag_monitor.py:227-233 | `--estimate 0` runs no explicit estimate and falls to the default path |
| GraphRagMonitor.ExplicitFlagsRunOnce | graphrag_monitor.py:221-231 | with flags, each truthy flag runs its check once and nothing else runs |
| SetupValidation.Line | validate_setup.py:16-19 | the printed line is ✅ or ❌ (✅ iff the check passed), a space, then the message |
| SetupValidation.CheckMark | validate_setup.py:16-20 | prints one mark and hands the condition back unchanged |
| SetupValidation.FileSteps | validate_setup.py:39-49 | exactly one check per required file, in list order |
| SetupValidation.ValidateSetup | validate_setup.py:22-102 | the verdict and the printed marks are exactly those of the `&=`/`and` fold over the checks; the Python, virtual-environment and file marks always come first |
| SetupValidation.CheckInstallation | validate_setup.py:29-49 | the Python check passes iff major 3 and minor ≥ 8; one mark per required file, in order |
| SetupValidation.CheckServices | validate_setup.py:51-89 | the key, Docker, Stirling, PDF and directory checks continue the fold |
| SetupValidation.RunAfterFailure | validate_setup.py:58-79 | once `all_good` is false it stays false, and only the `&=` checks are still printed |
| SetupValidation.RunAllGood | validate_setup.py:27-92 | PASSED iff every check passes |
| SetupValidation.RunPassedIffShownPassed | validate_setup.py:27-92 | PASSED iff every printed check passed |
| SetupValidation.VerdictSpec | validate_setup.py:27-102 | both characterisations of PASSED for the script's own checks |
| SetupValidation.EarlyFailureSkipsLazyChecks | validate_setup.py:30-79 | a wrong Python version hides the two key checks and the Stirling check: 10 of the 13 marks are printed |

## Left out

- PDF extraction (`PDFProcessor`), `process_text_file`, GraphRAG project setup, copying, `run_indexing` and `query`. These are HTTP, subprocess and file I/O, so their outcomes are inputs.
- Timestamps, durations and `validation_time`: clocks are not modelled. The results carry no time fields.
- Printing and logging: the printed lines are not modelled, except the setup marks and the stage records that the results keep.
- The Groq and OpenAI clients, prompt building (`_build_validation_prompt`), the NLI model and `torch`. The reply text, the status code and the average contradiction score are inputs.
- EntityValidation.NliValidate: takes the averaged contradiction score as given. The sentence split, the 10-character filter, the first three sources, the 1000-character truncation and the max/average arithmetic are not modelled.
- JSON and pandas loading, `_save_results` serialization and `generate_report`: the checkpoints are the saved result lists, not files.
- ApiResponse.ConfidenceValue parses only plain decimals (`0.8`, `-1`, `.5`). Python's `float` also accepts exponents, `inf`, `nan` and underscores, which give 0.0 here.
- Floating point: coverage and confidences are exact reals. The thresholds are compared as in the source, so a ratio rounded in binary could fall on the other side of 0.3, 0.5 or 0.7 only in the source.
- Unicode: case mapping, `isalpha` and whitespace are ASCII. `\s` is space, tab, newline, carriage return, form feed, vertical tab and the separators 0x1C-0x1F.
- Pipeline.RunPipeline: the cleaned text of each file is an input linked to `CleanText` by the `CleanedByCleanText` predicate, rather than computed inside the run.
- Pipeline.RunPipeline: does not require `StatConsistent` of its file outcomes, so on its own it also admits a missing file that is processed. RecordsOfExistingFiles gives the link to the files' sizes when the outcomes agree with them.
- Pipeline.OpenRun: directory creation is assumed to succeed. A `mkdir` failure is not among the modelled outcomes.
- The heartbeat timing and the no-output timeout of `monitor_progress` are left out. Only the line classification and the elapsed split are modelled.
- `graphrag_monitor.py`'s `analyze_current_config`, its recommendations and the artifact listing inside the monitoring loop are printing only.
- GraphRagMonitor.Monitor.MonitorIndexing: the final timeout message is not modelled. `NoMoreReadings` only says that the given clock readings ran out.
- The Docker probe, the Stirling probe and the presence of `requests` are boolean inputs in `validate_setup.py`.
- `visualize_graph.py` is not part of this model.

## Findings

| source | as written | input that shows it | evidently intended | confidence | as-written member | corrected member |
|---|---|---|---|---|---|---|
| entity_validator.py:543-547 | `_groq_spot_check` returns `entity_id=""` with the comment "Will be filled by caller", and `validate_entity` fills only the time and the method | an entity with its name in the sources and coverage between 0.3 and 0.7 (say 1 of 2 key terms), validated with Groq available and then `--resume` | the result carries the entity's id, so a resumed run skips it | not executed | ValidationBatch.SpotCheckedEntityPendingAgain (on EntityValidation.HybridValidate) | ValidationBatch.KeepingIdNotPendingAgain (on EntityValidation.HybridValidateKeepingId) |
