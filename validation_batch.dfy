/**
 * `EntityValidator.validate_batch` and the limit chosen by `main`: validate the
 * entities not yet in the cached results, at most `limit` of them, in table order,
 * skipping those whose validation raises, and save a checkpoint of the results
 * whenever their number reaches a multiple of ten, plus once at the end.
 *
 * The per-entity validator is a parameter: `None` stands for an exception. The
 * saves are recorded in a ghost log instead of being written as JSON.
 */
module ValidationBatch {
  import opened Wrappers
  import opened EntityValidation

  /** `{r.entity_id for r in results}` */
  function ProcessedIds(results: seq<ValidationResult>): (ids: set<string>)
    ensures forall k :: 0 <= k < |results| ==> results[k].entityId in ids
    ensures forall id :: id in ids ==> exists k :: 0 <= k < |results| && results[k].entityId == id
  {
    set r | r in results :: r.entityId
  }

  /** `entities[~entities['id'].isin(ids)]`: the rows whose id is not in `ids`, in order. */
  function Pending(entities: seq<EntityRow>, ids: set<string>): (p: seq<EntityRow>)
    ensures |p| <= |entities|
    ensures forall k :: 0 <= k < |p| ==> p[k].id !in ids && p[k] in entities
    ensures forall row :: row in entities && row.id !in ids ==> row in p
    decreases |entities|
  {
    if entities == [] then []
    else
      var rest := Pending(entities[1..], ids);
      assert forall row :: row in entities[1..] ==> row in entities;
      (if entities[0].id in ids then [] else [entities[0]]) + rest
  }

  /** A single row is kept exactly when its id is not in `ids`. */
  lemma PendingOne(row: EntityRow, ids: set<string>)
    ensures Pending([row], ids) == if row.id in ids then [] else [row]
  {
    assert [row][1..] == [];
  }

  /** The filter works row by row: the pending rows of two tables one after the
      other are those of the first followed by those of the second. With
      `PendingOne` this fixes the table's order and each row's multiplicity. */
  lemma {:induction false} PendingAppend(a: seq<EntityRow>, b: seq<EntityRow>, ids: set<string>)
    ensures Pending(a + b, ids) == Pending(a, ids) + Pending(b, ids)
    decreases |a|
  {
    if a == [] {
      assert a + b == b;
    } else {
      var head := if a[0].id in ids then [] else [a[0]];
      assert (a + b)[0] == a[0] && (a + b)[1..] == a[1..] + b;
      PendingAppend(a[1..], b, ids);
      calc {
        Pending(a + b, ids);
        head + Pending(a[1..] + b, ids);
        head + (Pending(a[1..], ids) + Pending(b, ids));
        (head + Pending(a[1..], ids)) + Pending(b, ids);
      }
    }
  }

  /** Each row keeps its multiplicity: it occurs as often as in the table when its
      id is not in `ids`, and not at all otherwise. */
  lemma {:induction false} PendingMultiplicity(entities: seq<EntityRow>, ids: set<string>, row: EntityRow)
    ensures multiset(Pending(entities, ids))[row] == if row.id in ids then 0 else multiset(entities)[row]
    decreases |entities|
  {
    if entities != [] {
      PendingMultiplicity(entities[1..], ids, row);
      assert entities == [entities[0]] + entities[1..];
    }
  }

  /** `if limit: rows = rows.head(limit)`; a limit of 0 counts as absent. */
  function Selected(rows: seq<EntityRow>, limit: Option<nat>): (s: seq<EntityRow>)
    ensures |s| <= |rows| && s == rows[..|s|]
    ensures limit.Some? && limit.value > 0 ==> |s| == if |rows| < limit.value then |rows| else limit.value
    ensures limit == None || limit == Some(0) ==> s == rows
  {
    if limit.Some? && limit.value > 0 && limit.value < |rows| then rows[..limit.value] else rows
  }

  /** The results the run starts from: the cache when resuming and it exists. */
  function InitialResults(resume: bool, cache: Option<seq<ValidationResult>>): seq<ValidationResult> {
    if resume && cache.Some? then cache.value else []
  }

  /** The rows the loop goes over. */
  function ToProcess(entities: seq<EntityRow>, limit: Option<nat>, start: seq<ValidationResult>): (rows: seq<EntityRow>)
    ensures forall k :: 0 <= k < |rows| ==> rows[k].id !in ProcessedIds(start) && rows[k] in entities
    ensures limit.Some? && limit.value > 0 ==> |rows| <= limit.value
  {
    Selected(Pending(entities, ProcessedIds(start)), limit)
  }

  /** The results after validating `rows` in order, starting from `start`. */
  function Validated(start: seq<ValidationResult>, rows: seq<EntityRow>, validate: EntityRow -> Option<ValidationResult>): (results: seq<ValidationResult>)
    ensures |start| <= |results| <= |start| + |rows|
    ensures results[..|start|] == start
    decreases |rows|
  {
    if rows == [] then start
    else
      var before := Validated(start, rows[..|rows| - 1], validate);
      match validate(rows[|rows| - 1])
      case None => before
      case Some(r) => before + [r]
  }

  /** The checkpoints saved inside the loop while validating `rows`. */
  function Checkpoints(start: seq<ValidationResult>, rows: seq<EntityRow>, validate: EntityRow -> Option<ValidationResult>): seq<seq<ValidationResult>>
    decreases |rows|
  {
    if rows == [] then []
    else
      var init := rows[..|rows| - 1];
      var saves := Checkpoints(start, init, validate);
      var before := Validated(start, init, validate);
      match validate(rows[|rows| - 1])
      case None => saves
      case Some(r) => if (|before| + 1) % 10 == 0 then saves + [before + [r]] else saves
  }

  /** A checkpoint is a prefix of the results whose length is a new multiple of ten. */
  predicate IsCheckpoint(s: seq<ValidationResult>, start: seq<ValidationResult>, results: seq<ValidationResult>) {
    |start| < |s| <= |results| && |s| % 10 == 0 && s == results[..|s|]
  }

  /** Extending the results by one keeps the old checkpoints and adds at most the new length. */
  lemma IsCheckpointExtend(s: seq<ValidationResult>, start: seq<ValidationResult>, before: seq<ValidationResult>, r: ValidationResult)
    ensures IsCheckpoint(s, start, before + [r]) <==>
      IsCheckpoint(s, start, before) || (s == before + [r] && |start| < |s| && |s| % 10 == 0)
  {
    var after := before + [r];
    if |s| <= |before| {
      assert after[..|s|] == before[..|s|];
    }
    if |s| == |after| {
      assert after[..|s|] == after;
    }
  }

  /** The checkpoints saved are exactly the prefixes of the results whose length is a
      multiple of ten and exceeds the cached count. */
  lemma {:induction false} CheckpointsExactly(start: seq<ValidationResult>, rows: seq<EntityRow>, validate: EntityRow -> Option<ValidationResult>)
    ensures forall s :: s in Checkpoints(start, rows, validate) <==> IsCheckpoint(s, start, Validated(start, rows, validate))
    decreases |rows|
  {
    if rows != [] {
      var init := rows[..|rows| - 1];
      CheckpointsExactly(start, init, validate);
      var before := Validated(start, init, validate);
      match validate(rows[|rows| - 1])
      case None =>
      case Some(r) =>
        forall s ensures s in Checkpoints(start, rows, validate) <==> IsCheckpoint(s, start, before + [r]) {
          IsCheckpointExtend(s, start, before, r);
        }
    }
  }

  /** Every new result is the validation of one of the rows. */
  lemma {:induction false} ValidatedFromRows(start: seq<ValidationResult>, rows: seq<EntityRow>, validate: EntityRow -> Option<ValidationResult>)
    ensures var results := Validated(start, rows, validate);
      forall k :: |start| <= k < |results| ==> exists j :: 0 <= j < |rows| && validate(rows[j]) == Some(results[k])
    decreases |rows|
  {
    if rows != [] {
      var init := rows[..|rows| - 1];
      ValidatedFromRows(start, init, validate);
      assert forall j :: 0 <= j < |init| ==> init[j] == rows[j];
      var before := Validated(start, init, validate);
      var results := Validated(start, rows, validate);
      var last := |rows| - 1;
      forall k | |start| <= k < |results| ensures exists j :: 0 <= j < |rows| && validate(rows[j]) == Some(results[k]) {
        if k < |before| {
          assert |start| <= k < |Validated(start, init, validate)|;
          assert exists j :: 0 <= j < |init| && validate(init[j]) == Some(before[k]);
          var j :| 0 <= j < |init| && validate(init[j]) == Some(before[k]);
          assert rows[j] == init[j] && results[k] == before[k];
        } else {
          assert validate(rows[last]) == Some(results[k]);
        }
      }
    }
  }

  /** Every row whose validation succeeds adds exactly one result. */
  lemma {:induction false} ValidatedAllSucceed(start: seq<ValidationResult>, rows: seq<EntityRow>, validate: EntityRow -> Option<ValidationResult>)
    requires forall k :: 0 <= k < |rows| ==> validate(rows[k]).Some?
    ensures |Validated(start, rows, validate)| == |start| + |rows|
    ensures forall k :: 0 <= k < |rows| ==> Validated(start, rows, validate)[|start| + k] == validate(rows[k]).value
    decreases |rows|
  {
    if rows != [] {
      var init := rows[..|rows| - 1];
      assert forall k :: 0 <= k < |init| ==> init[k] == rows[k];
      ValidatedAllSucceed(start, init, validate);
    }
  }

  /** One more row: its validation, when it succeeds, is appended and may be saved. */
  lemma RunSnoc(start: seq<ValidationResult>, rows: seq<EntityRow>, i: nat, validate: EntityRow -> Option<ValidationResult>)
    requires i < |rows|
    ensures var before := Validated(start, rows[..i], validate);
      var saves := Checkpoints(start, rows[..i], validate);
      match validate(rows[i])
      case None =>
        Validated(start, rows[..i + 1], validate) == before && Checkpoints(start, rows[..i + 1], validate) == saves
      case Some(r) =>
        Validated(start, rows[..i + 1], validate) == before + [r] &&
        Checkpoints(start, rows[..i + 1], validate) == if |before + [r]| % 10 == 0 then saves + [before + [r]] else saves
  {
    assert rows[..i + 1][..i] == rows[..i];
  }

  /** `validate_batch`. Returns the results and, as a ghost log, every save in order. */
  method ValidateBatch(entities: seq<EntityRow>, validate: EntityRow -> Option<ValidationResult>,
                       limit: Option<nat>, resume: bool, cache: Option<seq<ValidationResult>>)
    returns (results: seq<ValidationResult>, ghost saves: seq<seq<ValidationResult>>)
    ensures var start := InitialResults(resume, cache);
      results == Validated(start, ToProcess(entities, limit, start), validate)
    ensures var start := InitialResults(resume, cache);
      saves == Checkpoints(start, ToProcess(entities, limit, start), validate) + [results]
  {
    results := [];
    var processedIds: set<string> := {};
    if resume && cache.Some? {
      results := cache.value;
      processedIds := ProcessedIds(results);
    }
    ghost var start := results;
    var rows := Selected(Pending(entities, processedIds), limit);
    assert processedIds == ProcessedIds(start);
    saves := [];
    for i := 0 to |rows|
      invariant results == Validated(start, rows[..i], validate)
      invariant saves == Checkpoints(start, rows[..i], validate)
    {
      RunSnoc(start, rows, i, validate);
      var outcome := validate(rows[i]);
      if outcome.Some? {
        results := results + [outcome.value];
        if |results| % 10 == 0 {
          saves := saves + [results];
        }
      }
    }
    assert rows[..|rows|] == rows;
    saves := saves + [results];
  }

  /** The limit `main` passes: none with `--all`, a non-zero `--limit`, otherwise 10. */
  function SelectLimit(all: bool, limitArg: Option<nat>): (limit: Option<nat>)
    ensures all <==> limit == None
    ensures limit.Some? ==> limit.value > 0
    ensures !all && limitArg.Some? && limitArg.value > 0 ==> limit == limitArg
    ensures !all && (limitArg == None || limitArg == Some(0)) ==> limit == Some(10)
  {
    if all then None
    else if limitArg.Some? && limitArg.value != 0 then limitArg
    else Some(10)
  }

  /** Without `--all`, one run validates at most the chosen number of entities; with it,
      every entity not yet cached is taken. */
  lemma MainLimitBounds(entities: seq<EntityRow>, all: bool, limitArg: Option<nat>, start: seq<ValidationResult>)
    ensures var rows := ToProcess(entities, SelectLimit(all, limitArg), start);
      (!all ==> |rows| <= SelectLimit(all, limitArg).value) &&
      (all ==> rows == Pending(entities, ProcessedIds(start)))
  {
  }

  /** A spot-checked entity's result carries the id "", so a resumed run takes that
      entity up again. */
  lemma SpotCheckedEntityPendingAgain(entities: seq<EntityRow>, row: EntityRow, textUnits: map<string, string>, reply: ApiReply)
    requires row in entities && row.id != ""
    requires SourceTexts(row.textUnitIds, textUnits) != []
    requires var e := EvidenceFor(row, textUnits);
      e.nameFound && 0.3 <= Coverage(e.found, e.total) <= 0.7
    ensures row in Pending(entities, ProcessedIds([HybridValidate(row, textUnits, true, reply)]))
  {
    HybridSpotCheckDropsId(row, textUnits, reply);
    assert ProcessedIds([HybridValidate(row, textUnits, true, reply)]) == {""};
  }

  /** With the entity id kept, no entity validated in a previous run is validated again. */
  lemma KeepingIdNotPendingAgain(entities: seq<EntityRow>, done: seq<EntityRow>, textUnits: map<string, string>,
                                 groqAvailable: bool, reply: ApiReply)
    ensures var cached := seq(|done|, k requires 0 <= k < |done| => HybridValidateKeepingId(done[k], textUnits, groqAvailable, reply));
      forall k :: 0 <= k < |done| ==> done[k] !in Pending(entities, ProcessedIds(cached))
  {
    var cached := seq(|done|, k requires 0 <= k < |done| => HybridValidateKeepingId(done[k], textUnits, groqAvailable, reply));
    forall k | 0 <= k < |done| ensures done[k] !in Pending(entities, ProcessedIds(cached)) {
      assert cached[k].entityId == done[k].id;
      assert done[k].id in ProcessedIds(cached);
    }
  }
}
