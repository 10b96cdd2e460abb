/** Creating and updating instances (CreateInst, UpdateInst): the record store
    write and the association synchronization that accompanies it. The
    validators are oracles whose verdict is a parameter. */
module InstWrite {
  import opened Common
  import opened Store
  import opened Lookup
  import opened Sync

  /** What the write paths change: the record store and the edge store. */
  datatype WriteOutcome = WriteOutcome(rows: seq<Row>, edges: set<Edge>, err: Option<Err>)

  // ---------------------------------------------------------------------------
  // The store update

  /** UpdateObject: every record of the collection that satisfies the condition
      takes the given values over its own; the others are untouched. */
  function UpdateMatching(rows: seq<Row>, table: string, cond: Cond, data: Record): seq<Row>
  {
    if rows == [] then []
    else
      var r := rows[0];
      [if r.table == table && Matches(r.rec, cond) then Row(r.table, r.rec + data) else r]
      + UpdateMatching(rows[1..], table, cond, data)
  }

  /** The update keeps the store order and touches only the selected records,
      which then hold the given values for every key the data names. */
  lemma {:induction false} UpdateMatchingMeaning(rows: seq<Row>, table: string, cond: Cond, data: Record)
    ensures var out := UpdateMatching(rows, table, cond, data);
      && |out| == |rows|
      && forall i :: 0 <= i < |rows| ==>
           out[i] == if rows[i].table == table && Matches(rows[i].rec, cond) then Row(table, rows[i].rec + data) else rows[i]
  {
    if rows != [] {
      UpdateMatchingMeaning(rows[1..], table, cond, data);
      var out := UpdateMatching(rows, table, cond, data);
      assert forall i :: 1 <= i < |rows| ==> out[i] == UpdateMatching(rows[1..], table, cond, data)[i - 1];
    }
  }

  // ---------------------------------------------------------------------------
  // CreateInst

  /** CreateInst: a refused validation changes nothing; otherwise the record is
      stored under the id the store assigns, then the new instance's associations
      are synchronized. The stored record keeps the caller's values: the
      rewritten association values stay on the returned instance only. */
  function CreateInstSpec(rows: seq<Row>, edges: set<Edge>, defs: seq<AsstDef>, obj: ObjId, attrs: seq<Attr>,
                          data: Record, verdict: Option<Err>, newId: Int64): WriteOutcome
  {
    if verdict.Some? then WriteOutcome(rows, edges, verdict)
    else
      var rec := data[InstIdFieldOf(obj) := Int(newId)];
      var out := SyncAll(rows + [Row(ObjectType(obj), rec)], AssociationsOf(defs, obj), obj, newId, attrs,
                         SyncState(edges, rec));
      WriteOutcome(rows + [Row(ObjectType(obj), rec)], out.state.edges, out.err)
  }

  /** A created instance is stored under its new id, with its values, and only
      its own edges change. */
  lemma CreateInstEffect(rows: seq<Row>, edges: set<Edge>, defs: seq<AsstDef>, obj: ObjId, attrs: seq<Attr>,
                         data: Record, newId: Int64)
    ensures var out := CreateInstSpec(rows, edges, defs, obj, attrs, data, None, newId);
      && out.rows[..|rows|] == rows && |out.rows| == |rows| + 1
      && out.rows[|rows|].table == ObjectType(obj)
      && InstIdOf(obj, out.rows[|rows|].rec) == Ok(newId)
      && (forall f :: f in data && f != InstIdFieldOf(obj) ==> f in out.rows[|rows|].rec && out.rows[|rows|].rec[f] == data[f])
      && forall e: Edge :: e.objId != obj || e.instId != newId ==> (e in out.edges <==> e in edges)
  {
    var rec := data[InstIdFieldOf(obj) := Int(newId)];
    SyncAllKeepsOthers(rows + [Row(ObjectType(obj), rec)], AssociationsOf(defs, obj), obj, newId, attrs,
                       SyncState(edges, rec));
    assert (rows + [Row(ObjectType(obj), rec)])[..|rows|] == rows;
  }

  /** CreateInst: validate, store, synchronize. The returned instance is null
      whenever an error is reported. */
  method CreateInst(st: Store, obj: ObjId, attrs: seq<Attr>, data: Record, verdict: Option<Err>, newId: Int64)
    returns (item: Instance?, err: Option<Err>)
    modifies st`rows, st`edges
    ensures WriteOutcome(st.rows, st.edges, err) ==
      CreateInstSpec(old(st.rows), old(st.edges), st.defs, obj, attrs, data, verdict, newId)
    ensures err.Some? <==> item == null
    ensures item != null ==>
      (fresh(item) && item.obj == obj &&
       item.values == SyncAll(st.rows, AssociationsOf(st.defs, obj), obj, newId, attrs,
                              SyncState(old(st.edges), data[InstIdFieldOf(obj) := Int(newId)])).state.values)
  {
    if verdict.Some? {
      return null, verdict;
    }
    var created := new Instance(obj, data);
    created.values := created.values[InstIdFieldOf(obj) := Int(newId)];
    st.rows := st.rows + [Row(ObjectType(obj), created.values)];
    err := SetInstAsst(st, created, attrs);
    item := if err.None? then created else null;
  }

  // ---------------------------------------------------------------------------
  // UpdateInst

  /** The lookup of UpdateInst: the id alone when a positive id is given,
      otherwise the caller's condition. */
  function UpdateLookup(obj: ObjId, cond: Cond, instId: Int64): Cond {
    if 0 < instId then map[InstIdFieldOf(obj) := Op(DbEq, Int(instId))] else cond
  }

  /** The loop of UpdateInst over the found records: each takes the new values,
      then its associations are synchronized under the id it then holds. */
  function SyncEach(rows: seq<Row>, assts: seq<AsstDef>, obj: ObjId, attrs: seq<Attr>, data: Record,
                    recs: seq<Record>, edges: set<Edge>): (set<Edge>, Option<Err>)
  {
    if recs == [] then (edges, None)
    else
      var prev := SyncEach(rows, assts, obj, attrs, data, recs[..|recs| - 1], edges);
      if prev.1.Some? then prev
      else SyncRecord(rows, assts, obj, attrs, data, recs[|recs| - 1], prev.0)
  }

  /** One found record of UpdateInst's loop: it takes the new values, then its
      associations are synchronized under the id it then holds. */
  function SyncRecord(rows: seq<Row>, assts: seq<AsstDef>, obj: ObjId, attrs: seq<Attr>, data: Record,
                      rec: Record, edges: set<Edge>): (set<Edge>, Option<Err>)
  {
    var v := rec + data;
    match InstIdOf(obj, v)
    case Fail(e) => (edges, Some(e))
    case Ok(id) =>
      var out := SyncAll(rows, assts, obj, id, attrs, SyncState(edges, v));
      (out.state.edges, out.err)
  }

  lemma {:induction false} SyncEachFailureStays(rows: seq<Row>, assts: seq<AsstDef>, obj: ObjId, attrs: seq<Attr>,
                                                data: Record, recs: seq<Record>, edges: set<Edge>, n: nat)
    requires n <= |recs| && SyncEach(rows, assts, obj, attrs, data, recs[..n], edges).1.Some?
    ensures SyncEach(rows, assts, obj, attrs, data, recs, edges) == SyncEach(rows, assts, obj, attrs, data, recs[..n], edges)
    decreases |recs|
  {
    if n < |recs| {
      var init := recs[..|recs| - 1];
      assert init[..n] == recs[..n];
      SyncEachFailureStays(rows, assts, obj, attrs, data, init, edges, n);
    } else {
      assert recs[..n] == recs;
    }
  }

  /** The ids the loop synchronizes: the id each found record holds once the new
      values are applied. */
  function SyncedIds(obj: ObjId, data: Record, recs: seq<Record>): set<Int64> {
    set k, id | 0 <= k < |recs| && InstIdOf(obj, recs[k] + data) == Ok(id) :: id
  }

  /** The loop only changes the edges leaving the instances it synchronizes. */
  lemma {:induction false} SyncEachKeepsOthers(rows: seq<Row>, assts: seq<AsstDef>, obj: ObjId, attrs: seq<Attr>,
                                               data: Record, recs: seq<Record>, edges: set<Edge>)
    ensures forall e: Edge :: e.objId != obj || e.instId !in SyncedIds(obj, data, recs) ==>
      (e in SyncEach(rows, assts, obj, attrs, data, recs, edges).0 <==> e in edges)
  {
    if recs != [] {
      var init := recs[..|recs| - 1];
      SyncEachKeepsOthers(rows, assts, obj, attrs, data, init, edges);
      var prev := SyncEach(rows, assts, obj, attrs, data, init, edges);
      assert SyncedIds(obj, data, init) <= SyncedIds(obj, data, recs) by {
        forall id | id in SyncedIds(obj, data, init) ensures id in SyncedIds(obj, data, recs) {
          var k :| 0 <= k < |init| && InstIdOf(obj, init[k] + data) == Ok(id);
          assert recs[k] == init[k];
        }
      }
      var v := recs[|recs| - 1] + data;
      if prev.1.None? && InstIdOf(obj, v).Ok? {
        var id := InstIdOf(obj, v).value;
        assert id in SyncedIds(obj, data, recs);
        SyncAllKeepsOthers(rows, assts, obj, id, attrs, SyncState(prev.0, v));
      }
    }
  }

  /** UpdateInst: validate, look the instances up, synchronize each one's
      associations, then write the caller's values to every record the caller's
      condition selects. */
  function UpdateInstSpec(rows: seq<Row>, edges: set<Edge>, kinds: map<ObjId, Kind>, defs: seq<AsstDef>,
                          obj: ObjId, attrs: seq<Attr>, data: Record, cond: Cond, instId: Int64,
                          verdict: Option<Err>): WriteOutcome
  {
    if verdict.Some? then WriteOutcome(rows, edges, verdict)
    else match FindInstSpec(rows, kinds, defs, obj, UpdateLookup(obj, cond, instId), false)
      case Fail(e) => WriteOutcome(rows, edges, Some(e))
      case Ok(f) =>
        var synced := SyncEach(rows, AssociationsOf(defs, obj), obj, attrs, data, f.recs, edges);
        if synced.1.Some? then WriteOutcome(rows, synced.0, synced.1)
        else WriteOutcome(UpdateMatching(rows, ObjectType(obj), cond, data), synced.0, None)
  }

  /** A refused validation, a failed lookup or a failed synchronization leaves
      the record store as it was; a completed update writes the caller's values,
      as given, into exactly the records the caller's condition selects. */
  lemma UpdateInstEffect(rows: seq<Row>, edges: set<Edge>, kinds: map<ObjId, Kind>, defs: seq<AsstDef>,
                         obj: ObjId, attrs: seq<Attr>, data: Record, cond: Cond, instId: Int64, verdict: Option<Err>)
    ensures var out := UpdateInstSpec(rows, edges, kinds, defs, obj, attrs, data, cond, instId, verdict);
      && (verdict.Some? ==> out == WriteOutcome(rows, edges, verdict))
      && (out.err.Some? ==> out.rows == rows)
      && (out.err.None? ==>
            && |out.rows| == |rows|
            && forall i :: 0 <= i < |rows| ==>
                 if rows[i].table == ObjectType(obj) && Matches(rows[i].rec, cond)
                 then out.rows[i].rec == rows[i].rec + data && (forall f :: f in data ==> out.rows[i].rec[f] == data[f])
                 else out.rows[i] == rows[i])
  {
    UpdateMatchingMeaning(rows, ObjectType(obj), cond, data);
  }

  /** With a positive id, only the records holding that id are synchronized. */
  lemma UpdateLookupById(obj: ObjId, cond: Cond, instId: Int64, rec: Record)
    requires 0 < instId
    ensures Matches(rec, UpdateLookup(obj, cond, instId)) <==> InstIdOf(obj, rec) == Ok(instId)
  {
    var c := UpdateLookup(obj, cond, instId);
    var f := InstIdFieldOf(obj);
    if Matches(rec, c) {
      assert FieldMatches(rec, f, c[f]);
    }
  }

  /** SetValue for every key of the new values. */
  method SetValues(inst: Instance, data: Record)
    modifies inst`values
    ensures inst.values == old(inst.values) + data
  {
    inst.values := inst.values + data;
  }

  /** The body of UpdateInst's loop for one found record. */
  method SyncOne(st: Store, obj: ObjId, attrs: seq<Attr>, data: Record, rec: Record) returns (err: Option<Err>)
    modifies st`edges
    ensures (st.edges, err) == SyncRecord(st.rows, AssociationsOf(st.defs, obj), obj, attrs, data, rec, old(st.edges))
  {
    var inst := new Instance(obj, rec);
    SetValues(inst, data);
    err := SetInstAsst(st, inst, attrs);
  }

  /** The synchronization loop of UpdateInst. */
  method SyncFound(st: Store, obj: ObjId, attrs: seq<Attr>, data: Record, recs: seq<Record>) returns (err: Option<Err>)
    modifies st`edges
    ensures (st.edges, err) == SyncEach(st.rows, AssociationsOf(st.defs, obj), obj, attrs, data, recs, old(st.edges))
  {
    ghost var e0 := st.edges;
    var assts := AssociationsOf(st.defs, obj);
    var k := 0;
    while k < |recs|
      invariant 0 <= k <= |recs|
      invariant SyncEach(st.rows, assts, obj, attrs, data, recs[..k], e0) == (st.edges, None)
    {
      assert recs[..k + 1][..k] == recs[..k];
      var e := SyncOne(st, obj, attrs, data, recs[k]);
      if e.Some? {
        SyncEachFailureStays(st.rows, assts, obj, attrs, data, recs, e0, k + 1);
        return e;
      }
      k := k + 1;
    }
    assert recs[..k] == recs;
    err := None;
  }

  /** UpdateInst. */
  method UpdateInst(st: Store, obj: ObjId, attrs: seq<Attr>, data: Record, cond: Cond, instId: Int64, verdict: Option<Err>)
    returns (err: Option<Err>)
    modifies st`rows, st`edges
    ensures WriteOutcome(st.rows, st.edges, err) ==
      UpdateInstSpec(old(st.rows), old(st.edges), st.kinds, st.defs, obj, attrs, data, cond, instId, verdict)
  {
    if verdict.Some? {
      return verdict;
    }
    var query := cond;
    if 0 < instId {
      query := map[InstIdFieldOf(obj) := Op(DbEq, Int(instId))];
    }
    var found := FindInst(st, obj, query, false);
    if found.Fail? {
      return Some(found.error);
    }
    err := SyncFound(st, obj, attrs, data, found.value.recs);
    if err.Some? {
      return;
    }
    st.rows := UpdateMatching(st.rows, ObjectType(obj), cond, data);
  }
}
