/** Importing instances in batch (CreateInstBatch): every row of an Excel import
    is converted, validated, saved and has its associations synchronized; a row
    that fails is reported and skipped, and a failed synchronization ends the
    whole import. The Excel column mapping, the validators and the save's own
    failures are oracles. */
module InstBatch {
  import opened Common
  import opened Store
  import opened Lookup
  import opened Sync
  import opened InstWrite

  /** The column the spreadsheet reader adds to each row. */
  const ImportFromKey: string := "import_from"

  /** common.InputTypeExcel. */
  const InputTypeExcel: string := "excel"

  /** One reported row failure: the row index and the error. */
  datatype RowError = RowError(row: Int64, err: Err)

  /** One row of the import: its index and its columns. */
  datatype BatchRow = BatchRow(idx: Int64, data: Record)

  /** InstBatchInfo: the input type and the rows, when there are any. */
  datatype BatchInput = BatchInput(inputType: string, batch: Option<seq<BatchRow>>)

  /** The answer of the create validator: the instance is accepted, or refused
      with an error that does or does not carry an error code. */
  datatype Verdict = Accepted | Refused(err: Err, coded: bool)

  /** The collaborators of the import: the reading of the associated objects'
      primary keys (GetObjAsstObjectPrimaryKey), the rows the reader already
      rejected (InitInstFromData), the mapping of association columns to ids
      (SetObjAsstPropertyVal), the update and create validators, the error a save
      reports, and the id the store gives a created instance of a row. */
  datatype BatchEnv = BatchEnv(
    primaryKeys: Option<Err>,
    initRows: Result<seq<RowError>>,
    convert: Record -> Result<Record>,
    validateUpdate: (Record, Int64) -> Option<Err>,
    validateCreate: Record -> Verdict,
    saveFault: Record -> Option<Err>,
    newId: Int64 -> Int64)

  // ---------------------------------------------------------------------------
  // One row

  /** The validation of one row: a row that carries the kind's id field is checked
      for update under the id it carries, which must read as an integer; any
      other row is checked for creation, where only a coded error other than a
      duplicate stops the row. */
  function Validate(env: BatchEnv, obj: ObjId, values: Record): Option<Err> {
    if InstIdFieldOf(obj) in values then
      match InstIdOf(obj, values)
      case Fail(e) => Some(e)
      case Ok(id) => env.validateUpdate(values, id)
    else
      match env.validateCreate(values)
      case Accepted => None
      case Refused(e, coded) => if coded && e != DuplicateItem then Some(e) else None
  }

  /** A row passes validation exactly when its update check passes, for a row
      with the id field, or when its create check accepts it, finds a duplicate,
      or fails with an error that has no code, for a row without. */
  lemma ValidateMeaning(env: BatchEnv, obj: ObjId, values: Record)
    ensures Validate(env, obj, values).None? <==>
      if InstIdFieldOf(obj) in values
      then values[InstIdFieldOf(obj)].Int? && env.validateUpdate(values, values[InstIdFieldOf(obj)].i).None?
      else env.validateCreate(values).Accepted? || !env.validateCreate(values).coded
           || env.validateCreate(values).err == DuplicateItem
  {
  }

  /** The part of a row that can fail without ending the import: the row, without
      its "import_from" column, is converted, validated and saved; the first
      failure is the row's error. Otherwise the values to save. */
  function RowCheck(env: BatchEnv, obj: ObjId, row: BatchRow): Result<Record> {
    match env.convert(row.data - {ImportFromKey})
    case Fail(e) => Fail(e)
    case Ok(values) =>
      match Validate(env, obj, values)
      case Some(e) => Fail(e)
      case None =>
        match env.saveFault(values)
        case Some(e) => Fail(e)
        case None => Ok(values)
  }

  /** The "import_from" column has no effect on a row. */
  lemma ImportFromIgnored(env: BatchEnv, obj: ObjId, row: BatchRow, v: Value)
    ensures RowCheck(env, obj, row.(data := row.data[ImportFromKey := v])) == RowCheck(env, obj, row)
  {
    assert row.data[ImportFromKey := v] - {ImportFromKey} == row.data - {ImportFromKey};
  }

  /** What a save leaves behind: the record store and the instance's values. */
  datatype Saved = Saved(rows: seq<Row>, values: Record)

  /** inst.Save, whose source (model/inst.go) is not part of this model: values
      that carry the id of a stored instance of the kind update that instance's
      record; other values are stored as a new record under the id the store
      assigns, which the instance then carries. */
  function SaveSpec(rows: seq<Row>, obj: ObjId, values: Record, newId: Int64): Saved {
    var id := InstIdOf(obj, values);
    if id.Ok? && IsValidInstID(rows, obj, id.value) then
      Saved(UpdateMatching(rows, ObjectType(obj), ValidCond(obj, id.value), values), values)
    else
      var rec := values[InstIdFieldOf(obj) := Int(newId)];
      Saved(rows + [Row(ObjectType(obj), rec)], rec)
  }

  /** A saved instance always carries an id, and the store then holds its record:
      the existing one, now carrying the values, or a new one at the end. The
      saved values keep every column of the row but the id. */
  lemma SaveMeaning(rows: seq<Row>, obj: ObjId, values: Record, newId: Int64)
    ensures var out := SaveSpec(rows, obj, values, newId);
      && InstIdOf(obj, out.values).Ok?
      && (forall f :: f in values && f != InstIdFieldOf(obj) ==> f in out.values && out.values[f] == values[f])
      && (if InstIdOf(obj, values).Ok? && IsValidInstID(rows, obj, InstIdOf(obj, values).value)
          then out.values == values && |out.rows| == |rows|
               && exists i :: 0 <= i < |rows| && out.rows[i] == Row(ObjectType(obj), rows[i].rec + values)
                              && InstIdOf(obj, rows[i].rec) == InstIdOf(obj, values)
          else out.rows == rows + [Row(ObjectType(obj), out.values)] && InstIdOf(obj, out.values) == Ok(newId))
  {
    var id := InstIdOf(obj, values);
    if id.Ok? && IsValidInstID(rows, obj, id.value) {
      var c := ValidCond(obj, id.value);
      UpdateMatchingMeaning(rows, ObjectType(obj), c, values);
      ValidInstIDMeaning(rows, obj, id.value);
      var i :| 0 <= i < |rows| && rows[i].table == ObjectType(obj) && InstIdOf(obj, rows[i].rec) == Ok(id.value)
               && (IsCommon(obj) ==> ObjIdField in rows[i].rec && rows[i].rec[ObjIdField] == Str(obj));
      assert FieldMatches(rows[i].rec, InstIdFieldOf(obj), c[InstIdFieldOf(obj)]);
      if IsCommon(obj) {
        assert FieldMatches(rows[i].rec, ObjIdField, c[ObjIdField]);
      }
      assert Matches(rows[i].rec, c);
    }
  }

  /** setInstAsst on a saved instance: the synchronization under the id it
      carries. */
  function SetInstAsstSpec(rows: seq<Row>, defs: seq<AsstDef>, obj: ObjId, attrs: seq<Attr>,
                           edges: set<Edge>, values: Record): SyncOutcome {
    match InstIdOf(obj, values)
    case Fail(e) => SyncOutcome(SyncState(edges, values), Some(e))
    case Ok(cur) => SyncAll(rows, AssociationsOf(defs, obj), obj, cur, attrs, SyncState(edges, values))
  }

  /** What the import changes: the record store, the edge store, the reported
      row failures, and the error that ended the import, if one did. */
  datatype BatchState = BatchState(rows: seq<Row>, edges: set<Edge>, errors: seq<RowError>, abort: Option<Err>)

  /** One row of CreateInstBatch. After an error that ended the import nothing
      happens. A row that fails is reported and changes no store. Otherwise it is
      saved and its associations are synchronized; a synchronization error ends
      the import and keeps what was already written. */
  function RowStep(env: BatchEnv, obj: ObjId, attrs: seq<Attr>, defs: seq<AsstDef>, s: BatchState, row: BatchRow)
    : BatchState
  {
    if s.abort.Some? then s
    else
      match RowCheck(env, obj, row)
      case Fail(e) => s.(errors := s.errors + [RowError(row.idx, e)])
      case Ok(values) =>
        var saved := SaveSpec(s.rows, obj, values, env.newId(row.idx));
        var out := SetInstAsstSpec(saved.rows, defs, obj, attrs, s.edges, saved.values);
        BatchState(saved.rows, out.state.edges, s.errors, out.err)
  }

  /** A saved row's synchronization changes only the edges of the saved instance,
      and never ends the import for want of an id: the saved instance carries
      one. */
  lemma RowSaved(env: BatchEnv, obj: ObjId, attrs: seq<Attr>, defs: seq<AsstDef>, s: BatchState, row: BatchRow)
    requires s.abort.None? && RowCheck(env, obj, row).Ok?
    ensures var saved := SaveSpec(s.rows, obj, RowCheck(env, obj, row).value, env.newId(row.idx));
      var out := RowStep(env, obj, attrs, defs, s, row);
      && out.rows == saved.rows && out.errors == s.errors
      && InstIdOf(obj, saved.values).Ok?
      && forall e: Edge :: e.objId != obj || e.instId != InstIdOf(obj, saved.values).value ==>
           (e in out.edges <==> e in s.edges)
  {
    var values := RowCheck(env, obj, row).value;
    var saved := SaveSpec(s.rows, obj, values, env.newId(row.idx));
    SaveMeaning(s.rows, obj, values, env.newId(row.idx));
    var cur := InstIdOf(obj, saved.values).value;
    SyncAllKeepsOthers(saved.rows, AssociationsOf(defs, obj), obj, cur, attrs, SyncState(s.edges, saved.values));
  }

  // ---------------------------------------------------------------------------
  // The batch

  /** A left fold of a step over the rows. */
  function Fold(s: BatchState, rows: seq<BatchRow>, step: (BatchState, BatchRow) -> BatchState): BatchState
  {
    if rows == [] then s
    else
      var n := |rows| - 1;
      step(Fold(s, rows[..n], step), rows[n])
  }

  /** The row step of a kind, as a step of a fold. */
  function RowSteps(env: BatchEnv, obj: ObjId, attrs: seq<Attr>, defs: seq<AsstDef>): (BatchState, BatchRow) -> BatchState {
    (s, row) => RowStep(env, obj, attrs, defs, s, row)
  }

  /** CreateInstBatch: an input that is not an Excel import, or has no rows,
      gives an empty result; a failure to prepare the rows ends the import;
      otherwise the rows the reader rejected are reported first, then every row
      is imported in turn. */
  function CreateInstBatchSpec(env: BatchEnv, obj: ObjId, attrs: seq<Attr>, defs: seq<AsstDef>,
                               rows: seq<Row>, edges: set<Edge>, input: BatchInput): BatchState
  {
    if input.inputType != InputTypeExcel || input.batch.None? then BatchState(rows, edges, [], None)
    else if env.primaryKeys.Some? then BatchState(rows, edges, [], Some(SearchPropertyFailed))
    else if env.initRows.Fail? then BatchState(rows, edges, [], Some(InstSelectFailed))
    else Fold(BatchState(rows, edges, env.initRows.value, None), input.batch.value, RowSteps(env, obj, attrs, defs))
  }

  /** Once the import has ended, no later row changes anything. */
  lemma {:induction false} AbortStays(env: BatchEnv, obj: ObjId, attrs: seq<Attr>, defs: seq<AsstDef>,
                                      s: BatchState, rows: seq<BatchRow>, k: nat)
    requires k <= |rows|
    requires Fold(s, rows[..k], RowSteps(env, obj, attrs, defs)).abort.Some?
    ensures Fold(s, rows, RowSteps(env, obj, attrs, defs)) == Fold(s, rows[..k], RowSteps(env, obj, attrs, defs))
  {
    if k < |rows| {
      var n := |rows| - 1;
      assert rows[..n][..k] == rows[..k];
      AbortStays(env, obj, attrs, defs, s, rows[..n], k);
    } else {
      assert rows[..k] == rows;
    }
  }

  /** Whether a reported failure names one of the rows. */
  predicate NamesRow(rows: seq<BatchRow>, e: RowError) {
    exists i :: 0 <= i < |rows| && rows[i].idx == e.row
  }

  /** Row failures are only ever added, after those already reported, and each
      added failure names one of the rows. */
  lemma {:induction false} ErrorsNameRows(env: BatchEnv, obj: ObjId, attrs: seq<Attr>, defs: seq<AsstDef>,
                                          s: BatchState, rows: seq<BatchRow>)
    ensures var out := Fold(s, rows, RowSteps(env, obj, attrs, defs));
      && s.errors <= out.errors
      && forall j :: |s.errors| <= j < |out.errors| ==> NamesRow(rows, out.errors[j])
  {
    if rows != [] {
      var n := |rows| - 1;
      ErrorsNameRows(env, obj, attrs, defs, s, rows[..n]);
      var prev := Fold(s, rows[..n], RowSteps(env, obj, attrs, defs));
      var out := Fold(s, rows, RowSteps(env, obj, attrs, defs));
      assert out == RowStep(env, obj, attrs, defs, prev, rows[n]);
      forall j | |s.errors| <= j < |out.errors|
        ensures NamesRow(rows, out.errors[j])
      {
        if j < |prev.errors| {
          assert NamesRow(rows[..n], prev.errors[j]);
          var i :| 0 <= i < n && rows[..n][i].idx == prev.errors[j].row;
          assert rows[i].idx == out.errors[j].row;
        } else {
          assert out.errors[j].row == rows[n].idx;
        }
      }
    }
  }

  /** The outcome of CreateInstBatch. A non-Excel input or an input without rows
      gives an empty result and changes nothing; a failed preparation ends the
      import and changes nothing. Otherwise the reader's rejections come first,
      and every further failure names a row of the import. */
  lemma CreateInstBatchOutcome(env: BatchEnv, obj: ObjId, attrs: seq<Attr>, defs: seq<AsstDef>,
                               rows: seq<Row>, edges: set<Edge>, input: BatchInput)
    ensures var out := CreateInstBatchSpec(env, obj, attrs, defs, rows, edges, input);
      && (input.inputType != InputTypeExcel || input.batch.None? ==> out == BatchState(rows, edges, [], None))
      && (input.inputType == InputTypeExcel && input.batch.Some? && (env.primaryKeys.Some? || env.initRows.Fail?) ==>
            out.abort.Some? && out.rows == rows && out.edges == edges)
      && (input.inputType == InputTypeExcel && input.batch.Some? && env.primaryKeys.None? && env.initRows.Ok? ==>
            && env.initRows.value <= out.errors
            && forall j :: |env.initRows.value| <= j < |out.errors| ==> NamesRow(input.batch.value, out.errors[j]))
  {
    if input.inputType == InputTypeExcel && input.batch.Some? && env.primaryKeys.None? && env.initRows.Ok? {
      ErrorsNameRows(env, obj, attrs, defs, BatchState(rows, edges, env.initRows.value, None), input.batch.value);
    }
  }

  // ---------------------------------------------------------------------------
  // The imperative import

  /** BatchResult: the failures reported so far. */
  class BatchResult {
    var errors: seq<RowError>

    constructor (errors: seq<RowError>)
      ensures this.errors == errors
    {
      this.errors := errors;
    }
  }

  /** inst.Save. */
  method SaveInst(st: Store, item: Instance, newId: Int64)
    modifies st`rows, item`values
    ensures Saved(st.rows, item.values) == SaveSpec(old(st.rows), item.obj, old(item.values), newId)
  {
    var id := InstIdOf(item.obj, item.values);
    if id.Ok? && |Query(st.rows, ObjectType(item.obj), ValidCond(item.obj, id.value))| > 0 {
      st.rows := UpdateMatching(st.rows, ObjectType(item.obj), ValidCond(item.obj, id.value), item.values);
    } else {
      item.values := item.values[InstIdFieldOf(item.obj) := Int(newId)];
      st.rows := st.rows + [Row(ObjectType(item.obj), item.values)];
    }
  }

  /** The body of the row loop of CreateInstBatch. */
  method ImportInstRow(st: Store, results: BatchResult, env: BatchEnv, obj: ObjId, attrs: seq<Attr>, row: BatchRow)
    returns (abort: Option<Err>)
    modifies st`rows, st`edges, results
    ensures BatchState(st.rows, st.edges, results.errors, abort)
         == RowStep(env, obj, attrs, st.defs, old(BatchState(st.rows, st.edges, results.errors, None)), row)
  {
    var colInput := row.data - {ImportFromKey};
    var converted := env.convert(colInput);
    if converted.Fail? {
      results.errors := results.errors + [RowError(row.idx, converted.error)];
      return None;
    }
    var item := new Instance(obj, converted.value);
    var refused := Validate(env, obj, item.values);
    if refused.Some? {
      results.errors := results.errors + [RowError(row.idx, refused.value)];
      return None;
    }
    var saveErr := env.saveFault(item.values);
    if saveErr.Some? {
      results.errors := results.errors + [RowError(row.idx, saveErr.value)];
      return None;
    }
    SaveInst(st, item, env.newId(row.idx));
    abort := SetInstAsst(st, item, attrs);
  }

  /** One more row of the batch is one more row step. */
  lemma BatchSnoc(env: BatchEnv, obj: ObjId, attrs: seq<Attr>, defs: seq<AsstDef>, s: BatchState,
                  rows: seq<BatchRow>, k: nat)
    requires k < |rows|
    ensures Fold(s, rows[..k + 1], RowSteps(env, obj, attrs, defs))
         == RowStep(env, obj, attrs, defs, Fold(s, rows[..k], RowSteps(env, obj, attrs, defs)), rows[k])
  {
    assert rows[..k + 1][..k] == rows[..k];
  }

  /** The row loop of CreateInstBatch, from the errors already reported. */
  method ImportAll(st: Store, acc: BatchResult, env: BatchEnv, obj: ObjId, attrs: seq<Attr>, rows: seq<BatchRow>)
    returns (abort: Option<Err>)
    modifies st`rows, st`edges, acc
    ensures BatchState(st.rows, st.edges, acc.errors, abort)
         == Fold(old(BatchState(st.rows, st.edges, acc.errors, None)), rows, RowSteps(env, obj, attrs, st.defs))
  {
    ghost var s0 := BatchState(st.rows, st.edges, acc.errors, None);
    var k := 0;
    while k < |rows|
      invariant 0 <= k <= |rows|
      invariant BatchState(st.rows, st.edges, acc.errors, None) == Fold(s0, rows[..k], RowSteps(env, obj, attrs, st.defs))
    {
      BatchSnoc(env, obj, attrs, st.defs, s0, rows, k);
      abort := ImportInstRow(st, acc, env, obj, attrs, rows[k]);
      if abort.Some? {
        AbortStays(env, obj, attrs, st.defs, s0, rows, k + 1);
        return abort;
      }
      k := k + 1;
    }
    assert rows[..k] == rows;
    abort := None;
  }

  /** CreateInstBatch: the result, or no result and the error that ended the import. */
  method CreateInstBatch(st: Store, env: BatchEnv, obj: ObjId, attrs: seq<Attr>, input: BatchInput)
    returns (results: BatchResult?, err: Option<Err>)
    modifies st`rows, st`edges
    ensures var out := CreateInstBatchSpec(env, obj, attrs, st.defs, old(st.rows), old(st.edges), input);
      && st.rows == out.rows && st.edges == out.edges && err == out.abort
      && (err.None? <==> results != null)
      && (results != null ==> results.errors == out.errors)
  {
    if input.inputType != InputTypeExcel || input.batch.None? {
      results := new BatchResult([]);
      return results, None;
    }
    if env.primaryKeys.Some? {
      return null, Some(SearchPropertyFailed);
    }
    if env.initRows.Fail? {
      return null, Some(InstSelectFailed);
    }
    var acc := new BatchResult(env.initRows.value);
    err := ImportAll(st, acc, env, obj, attrs, input.batch.value);
    results := if err.None? then acc else null;
  }
}
