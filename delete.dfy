/** The delete path (DeleteInstByInstID, DeleteInst): every safety check runs
    before anything is removed; then each instance on the removal list is checked
    for incoming associations, loses its edges and its record.

    Two versions of the removal loop are modelled: RemoveAsWritten follows the
    code line by line, Remove is the evidently intended behaviour that the
    methods implement. */
module Delete {
  import opened Common
  import opened Store
  import opened Lookup
  import opened HostCheck

  /** What the delete path writes: the record store and the edge store. */
  datatype DelState = DelState(rows: seq<Row>, edges: set<Edge>)

  /** The state reached and the error, if any, that stopped the deletion. */
  datatype DelOutcome = DelOutcome(state: DelState, err: Option<Err>)

  /** What the delete path reads but does not write: the model layer, the mainline
      hierarchy, the host bindings, the supplier account of the request, and the
      (kind, instance) pairs that CheckBeAssociation refuses to release. */
  datatype Env = Env(kinds: map<ObjId, Kind>, defs: seq<AsstDef>,
                     mainline: map<(ObjId, Int64), seq<MainlineNode>>, hosts: set<Int64>,
                     owner: string, associated: set<(ObjId, Int64)>)

  // ---------------------------------------------------------------------------
  // Conditions and store primitives

  /** The lookup of DeleteInstByInstID: the owner, the ids, and the kind for a common kind. */
  function BatchCond(obj: ObjId, owner: string, ids: seq<Int64>): Cond {
    var c := map[OwnerField := Is(Str(owner)), InstIdFieldOf(obj) := Op(DbIn, IdSet(set x | x in ids))];
    if IsCommon(obj) then c[ObjIdField := Is(Str(obj))] else c
  }

  /** The condition selecting the record of one instance. */
  function InstCond(obj: ObjId, owner: string, id: Int64): Cond {
    var c := map[OwnerField := Is(Str(owner)), InstIdFieldOf(obj) := Is(Int(id))];
    if IsCommon(obj) then c[ObjIdField := Is(Str(obj))] else c
  }

  /** DelObject: drop the records of a collection that satisfy a condition. */
  function RemoveMatching(rows: seq<Row>, table: string, cond: Cond): seq<Row>
  {
    if rows == [] then []
    else (if rows[0].table == table && Matches(rows[0].rec, cond) then [] else [rows[0]])
         + RemoveMatching(rows[1..], table, cond)
  }

  /** The records kept are exactly those that do not satisfy the condition. */
  lemma {:induction false} RemoveMatchingMeaning(rows: seq<Row>, table: string, cond: Cond)
    ensures forall r :: r in RemoveMatching(rows, table, cond) <==>
      r in rows && !(r.table == table && Matches(r.rec, cond))
  {
    if rows != [] {
      RemoveMatchingMeaning(rows[1..], table, cond);
      assert forall r :: r in rows <==> r == rows[0] || r in rows[1..];
    }
  }

  /** The edges that point at an instance. */
  function Incoming(edges: set<Edge>, obj: ObjId, id: Int64): set<Edge> {
    set e | e in edges && e.asstObjId == obj && e.asstInstId == id
  }

  /** The edges that leave an instance. */
  function Outgoing(edges: set<Edge>, obj: ObjId, id: Int64): set<Edge> {
    set e | e in edges && e.objId == obj && e.instId == id
  }

  // ---------------------------------------------------------------------------
  // The safety checks

  /** The mainline children of a found instance (GetMainlineChildInst). */
  function ChildrenOf(mainline: map<(ObjId, Int64), seq<MainlineNode>>, obj: ObjId, rec: Record): seq<MainlineNode> {
    match InstIdOf(obj, rec)
    case Ok(id) => if (obj, id) in mainline then mainline[(obj, id)] else []
    case Fail(_) => []
  }

  /** The mainline subtree rooted at a found instance. */
  function TreeOf(mainline: map<(ObjId, Int64), seq<MainlineNode>>, obj: ObjId, rec: Record): MainlineNode {
    MainlineNode(obj, rec, ChildrenOf(mainline, obj, rec))
  }

  /** The check loop of DeleteInstByInstID: hasHost on every found instance; an
      error or a veto fails with CCErrTopoHasHostCheckFailed, otherwise the
      removal lists are concatenated. */
  function CollectRemovals(mainline: map<(ObjId, Int64), seq<MainlineNode>>, hosts: set<Int64>,
                           obj: ObjId, recs: seq<Record>): Result<seq<Deleted>>
  {
    if recs == [] then Ok([])
    else match CollectRemovals(mainline, hosts, obj, recs[..|recs| - 1])
      case Fail(e) => Fail(e)
      case Ok(dels) =>
        match HostCheck.HostCheck(TreeOf(mainline, obj, recs[|recs| - 1]), hosts)
        case Fail(_) => Fail(HasHostCheckFailed)
        case Ok(w) => if w.blocked then Fail(HasHostCheckFailed) else Ok(dels + w.removal)
  }

  lemma {:induction false} CollectFailureStays(mainline: map<(ObjId, Int64), seq<MainlineNode>>, hosts: set<Int64>,
                                               obj: ObjId, recs: seq<Record>, n: nat)
    requires n <= |recs| && CollectRemovals(mainline, hosts, obj, recs[..n]).Fail?
    ensures CollectRemovals(mainline, hosts, obj, recs) == CollectRemovals(mainline, hosts, obj, recs[..n])
    decreases |recs|
  {
    if n < |recs| {
      var init := recs[..|recs| - 1];
      assert init[..n] == recs[..n];
      CollectFailureStays(mainline, hosts, obj, init, n);
    } else {
      assert recs[..n] == recs;
    }
  }

  /** The checks pass exactly when every found instance's walk succeeds unvetoed,
      and the removal list then holds every entry of every walk and nothing else. */
  lemma {:induction false} CollectRemovalsMeaning(mainline: map<(ObjId, Int64), seq<MainlineNode>>,
                                                  hosts: set<Int64>, obj: ObjId, recs: seq<Record>)
    ensures CollectRemovals(mainline, hosts, obj, recs).Ok? <==>
      forall k :: 0 <= k < |recs| ==>
        HostCheck.HostCheck(TreeOf(mainline, obj, recs[k]), hosts).Ok? && !HostCheck.HostCheck(TreeOf(mainline, obj, recs[k]), hosts).value.blocked
    ensures CollectRemovals(mainline, hosts, obj, recs).Fail? ==> CollectRemovals(mainline, hosts, obj, recs).error == HasHostCheckFailed
    ensures CollectRemovals(mainline, hosts, obj, recs).Ok? ==>
      var dels := CollectRemovals(mainline, hosts, obj, recs).value;
      && (forall k, x :: 0 <= k < |recs| && x in HostCheck.HostCheck(TreeOf(mainline, obj, recs[k]), hosts).value.removal ==> x in dels)
      && (forall x :: x in dels ==> exists k :: 0 <= k < |recs| && x in HostCheck.HostCheck(TreeOf(mainline, obj, recs[k]), hosts).value.removal)
  {
    if recs != [] {
      var init := recs[..|recs| - 1];
      CollectRemovalsMeaning(mainline, hosts, obj, init);
      assert forall k :: 0 <= k < |init| ==> init[k] == recs[k];
    }
  }

  /** An unvetoed walk starts with the instance it was run on. */
  lemma WalkStartsAtRoot(t: MainlineNode, hosts: set<Int64>)
    requires HostCheck.HostCheck(t, hosts).Ok? && !HostCheck.HostCheck(t, hosts).value.blocked
    ensures var r := HostCheck.HostCheck(t, hosts).value.removal;
      |r| >= 1 && r[0] == Deleted(t.obj, InstIdOf(t.obj, t.rec).value)
  {
    WalkKeepsRoot(t, hosts, InstIdOf(t.obj, t.rec).value, |t.children|);
  }

  lemma {:induction false} WalkKeepsRoot(t: MainlineNode, hosts: set<Int64>, id: Int64, n: nat)
    requires n <= |t.children| && WalkChildren(t, hosts, id, n).Ok?
    ensures var r := WalkChildren(t, hosts, id, n).value.removal;
      |r| >= 1 && r[0] == Deleted(t.obj, id)
  {
    if n > 0 {
      WalkKeepsRoot(t, hosts, id, n - 1);
    }
  }

  /** When every node of every found subtree has an id, the checks veto the
      deletion exactly when one of those subtrees holds a module with a bound host. */
  lemma DeleteVetoIffBoundHost(mainline: map<(ObjId, Int64), seq<MainlineNode>>, hosts: set<Int64>,
                               obj: ObjId, recs: seq<Record>)
    requires forall k :: 0 <= k < |recs| ==> IdsPresent(TreeOf(mainline, obj, recs[k]))
    ensures CollectRemovals(mainline, hosts, obj, recs).Fail? <==>
      exists k :: 0 <= k < |recs| && HasBoundModule(TreeOf(mainline, obj, recs[k]), hosts)
  {
    CollectRemovalsMeaning(mainline, hosts, obj, recs);
    forall k | 0 <= k < |recs| {
      HostCheckMeaning(TreeOf(mainline, obj, recs[k]), hosts);
    }
  }

  // ---------------------------------------------------------------------------
  // The removal loop, as written and as intended

  /** The removal loop as the code has it: the incoming-association check and the
      incoming-edge delete use the batch kind obj for every entry; the outgoing-edge
      delete compares bk_inst_id with the whole entry and so removes nothing; the
      record delete reuses the batch condition. */
  function RemoveAsWritten(s: DelState, obj: ObjId, batch: Cond, associated: set<(ObjId, Int64)>,
                           dels: seq<Deleted>): DelOutcome
  {
    if dels == [] then DelOutcome(s, None)
    else
      var prev := RemoveAsWritten(s, obj, batch, associated, dels[..|dels| - 1]);
      if prev.err.Some? then prev
      else
        var d := dels[|dels| - 1];
        var st := prev.state;
        if (obj, d.id) in associated then DelOutcome(st, Some(BeAssociated(obj, d.id)))
        else DelOutcome(DelState(RemoveMatching(st.rows, ObjectType(obj), batch),
                                 st.edges - Incoming(st.edges, obj, d.id)), None)
  }

  /** The removal loop as intended: each entry is checked, loses its incoming and
      outgoing edges and its own record, all under its own kind. */
  function Remove(s: DelState, owner: string, associated: set<(ObjId, Int64)>, dels: seq<Deleted>): DelOutcome
  {
    if dels == [] then DelOutcome(s, None)
    else
      var prev := Remove(s, owner, associated, dels[..|dels| - 1]);
      if prev.err.Some? then prev
      else
        var d := dels[|dels| - 1];
        var st := prev.state;
        if (d.obj, d.id) in associated then DelOutcome(st, Some(BeAssociated(d.obj, d.id)))
        else DelOutcome(DelState(RemoveMatching(st.rows, ObjectType(d.obj), InstCond(d.obj, owner, d.id)),
                                 st.edges - Incoming(st.edges, d.obj, d.id) - Outgoing(st.edges, d.obj, d.id)), None)
  }

  lemma {:induction false} RemoveFailureStays(s: DelState, owner: string, associated: set<(ObjId, Int64)>,
                                              dels: seq<Deleted>, n: nat)
    requires n <= |dels| && Remove(s, owner, associated, dels[..n]).err.Some?
    ensures Remove(s, owner, associated, dels) == Remove(s, owner, associated, dels[..n])
    decreases |dels|
  {
    if n < |dels| {
      var init := dels[..|dels| - 1];
      assert init[..n] == dels[..n];
      RemoveFailureStays(s, owner, associated, init, n);
    } else {
      assert dels[..n] == dels;
    }
  }

  /** The removal only ever removes: every record and edge left was there before. */
  lemma {:induction false} RemoveOnlyRemoves(s: DelState, owner: string, associated: set<(ObjId, Int64)>,
                                             dels: seq<Deleted>)
    ensures var out := Remove(s, owner, associated, dels).state;
      (forall r :: r in out.rows ==> r in s.rows) && out.edges <= s.edges
  {
    if dels != [] {
      var init := dels[..|dels| - 1];
      RemoveOnlyRemoves(s, owner, associated, init);
      var prev := Remove(s, owner, associated, init);
      if prev.err.None? {
        var d := dels[|dels| - 1];
        RemoveMatchingMeaning(prev.state.rows, ObjectType(d.obj), InstCond(d.obj, owner, d.id));
      }
    }
  }

  /** A completed removal leaves no edge into or out of any listed instance and no
      record of it, and keeps every edge and record that concerns none of them. */
  lemma {:induction false} RemoveEffect(s: DelState, owner: string, associated: set<(ObjId, Int64)>,
                                        dels: seq<Deleted>)
    requires Remove(s, owner, associated, dels).err.None?
    ensures var out := Remove(s, owner, associated, dels).state;
      && (forall d :: d in dels ==>
            && (forall e :: e in out.edges ==> !(e.asstObjId == d.obj && e.asstInstId == d.id))
            && (forall e :: e in out.edges ==> !(e.objId == d.obj && e.instId == d.id))
            && (forall r :: r in out.rows ==>
                  !(r.table == ObjectType(d.obj) && Matches(r.rec, InstCond(d.obj, owner, d.id)))))
      && (forall e :: e in s.edges && (forall d :: d in dels ==>
            !(e.asstObjId == d.obj && e.asstInstId == d.id) && !(e.objId == d.obj && e.instId == d.id)) ==>
            e in out.edges)
      && (forall r :: r in s.rows && (forall d :: d in dels ==>
            !(r.table == ObjectType(d.obj) && Matches(r.rec, InstCond(d.obj, owner, d.id)))) ==>
            r in out.rows)
  {
    if dels != [] {
      var init := dels[..|dels| - 1];
      var d := dels[|dels| - 1];
      RemoveEffect(s, owner, associated, init);
      var prev := Remove(s, owner, associated, init).state;
      RemoveOnlyRemoves(s, owner, associated, init);
      RemoveMatchingMeaning(prev.rows, ObjectType(d.obj), InstCond(d.obj, owner, d.id));
      assert forall x :: x in dels <==> x in init || x == d;
    }
  }

  /** Two instance conditions select a common record only when they name the same
      kind and the same id. */
  lemma InstCondsDisjoint(rec: Record, owner: string, a: ObjId, x: Int64, b: ObjId, y: Int64)
    requires ObjectType(a) == ObjectType(b)
    requires Matches(rec, InstCond(a, owner, x)) && Matches(rec, InstCond(b, owner, y))
    ensures a == b && x == y
  {
    var ca := InstCond(a, owner, x);
    var cb := InstCond(b, owner, y);
    if IsCommon(a) {
      assert IsCommon(b);
      assert FieldMatches(rec, ObjIdField, ca[ObjIdField]);
      assert FieldMatches(rec, ObjIdField, cb[ObjIdField]);
    } else {
      assert !IsCommon(b);
    }
    assert FieldMatches(rec, InstIdFieldOf(a), ca[InstIdFieldOf(a)]);
    assert FieldMatches(rec, InstIdFieldOf(b), cb[InstIdFieldOf(b)]);
  }

  /** Entries other than a given instance never remove that instance's records. */
  lemma {:induction false} RemoveKeepsOthers(s: DelState, owner: string, associated: set<(ObjId, Int64)>,
                                             dels: seq<Deleted>, k: ObjId, id: Int64)
    requires forall j :: 0 <= j < |dels| ==> dels[j] != Deleted(k, id)
    ensures forall r :: r in s.rows && r.table == ObjectType(k) && Matches(r.rec, InstCond(k, owner, id)) ==>
      r in Remove(s, owner, associated, dels).state.rows
  {
    if dels != [] {
      var init := dels[..|dels| - 1];
      var d := dels[|dels| - 1];
      RemoveKeepsOthers(s, owner, associated, init, k, id);
      var prev := Remove(s, owner, associated, init);
      if prev.err.None? && (d.obj, d.id) !in associated {
        RemoveMatchingMeaning(prev.state.rows, ObjectType(d.obj), InstCond(d.obj, owner, d.id));
        forall r | r in s.rows && r.table == ObjectType(k) && Matches(r.rec, InstCond(k, owner, id))
          ensures r in Remove(s, owner, associated, dels).state.rows
        {
          if r.table == ObjectType(d.obj) && Matches(r.rec, InstCond(d.obj, owner, d.id)) {
            InstCondsDisjoint(r.rec, owner, k, id, d.obj, d.id);
          }
        }
      }
    }
  }

  /** A refused entry stops the deletion: the refusal names a listed instance that
      CheckBeAssociation holds, and that instance keeps its records. */
  lemma {:induction false} RemoveRefusal(s: DelState, owner: string, associated: set<(ObjId, Int64)>,
                                         dels: seq<Deleted>)
    requires Remove(s, owner, associated, dels).err.Some?
    ensures var e := Remove(s, owner, associated, dels).err.value;
      && e.BeAssociated? && (e.objId, e.instId) in associated && Deleted(e.objId, e.instId) in dels
      && forall r :: r in s.rows && r.table == ObjectType(e.objId) && Matches(r.rec, InstCond(e.objId, owner, e.instId)) ==>
           r in Remove(s, owner, associated, dels).state.rows
  {
    var init := dels[..|dels| - 1];
    var d := dels[|dels| - 1];
    var prev := Remove(s, owner, associated, init);
    if prev.err.Some? {
      RemoveRefusal(s, owner, associated, init);
    } else {
      assert (d.obj, d.id) in associated;
      forall j | 0 <= j < |init| ensures init[j] != Deleted(d.obj, d.id) {
        if init[j] == Deleted(d.obj, d.id) {
          RefusedNotPassed(s, owner, associated, init, j);
        }
      }
      RemoveKeepsOthers(s, owner, associated, init, d.obj, d.id);
    }
  }

  /** An entry the check holds cannot be passed over: a completed prefix never
      contains one. */
  lemma {:induction false} RefusedNotPassed(s: DelState, owner: string, associated: set<(ObjId, Int64)>,
                                            dels: seq<Deleted>, j: nat)
    requires j < |dels| && Remove(s, owner, associated, dels).err.None?
    ensures (dels[j].obj, dels[j].id) !in associated
  {
    var init := dels[..|dels| - 1];
    if j < |dels| - 1 {
      RefusedNotPassed(s, owner, associated, init, j);
    }
  }

  // ---------------------------------------------------------------------------
  // DeleteInstByInstID and DeleteInst

  /** DeleteInstByInstID as intended: look the instances up, run every check, then remove. */
  function DeleteByIds(env: Env, s: DelState, obj: ObjId, ids: seq<Int64>): DelOutcome
  {
    match FindInstSpec(s.rows, env.kinds, env.defs, obj, BatchCond(obj, env.owner, ids), false)
    case Fail(e) => DelOutcome(s, Some(e))
    case Ok(f) =>
      match CollectRemovals(env.mainline, env.hosts, obj, f.recs)
      case Fail(e) => DelOutcome(s, Some(e))
      case Ok(dels) => Remove(s, env.owner, env.associated, dels)
  }

  /** DeleteInstByInstID as written. */
  function DeleteByIdsAsWritten(env: Env, s: DelState, obj: ObjId, ids: seq<Int64>): DelOutcome
  {
    var batch := BatchCond(obj, env.owner, ids);
    match FindInstSpec(s.rows, env.kinds, env.defs, obj, batch, false)
    case Fail(e) => DelOutcome(s, Some(e))
    case Ok(f) =>
      match CollectRemovals(env.mainline, env.hosts, obj, f.recs)
      case Fail(e) => DelOutcome(s, Some(e))
      case Ok(dels) => RemoveAsWritten(s, obj, batch, env.associated, dels)
  }

  /** Every check runs before any removal: when any found instance's subtree holds
      a module with a bound host, the deletion fails with
      CCErrTopoHasHostCheckFailed and the stores are untouched. */
  lemma DeleteVetoedLeavesStore(env: Env, s: DelState, obj: ObjId, ids: seq<Int64>)
    requires FindInstSpec(s.rows, env.kinds, env.defs, obj, BatchCond(obj, env.owner, ids), false).Ok?
    requires var recs := FindInstSpec(s.rows, env.kinds, env.defs, obj, BatchCond(obj, env.owner, ids), false).value.recs;
      && (forall k :: 0 <= k < |recs| ==> IdsPresent(TreeOf(env.mainline, obj, recs[k])))
      && exists k :: 0 <= k < |recs| && HasBoundModule(TreeOf(env.mainline, obj, recs[k]), env.hosts)
    ensures DeleteByIds(env, s, obj, ids) == DelOutcome(s, Some(HasHostCheckFailed))
  {
    var recs := FindInstSpec(s.rows, env.kinds, env.defs, obj, BatchCond(obj, env.owner, ids), false).value.recs;
    DeleteVetoIffBoundHost(env.mainline, env.hosts, obj, recs);
    CollectRemovalsMeaning(env.mainline, env.hosts, obj, recs);
  }

  /** The record of instance id and the record the batch lookup finds for it are
      the same records. */
  lemma BatchCondCovers(rec: Record, obj: ObjId, owner: string, ids: seq<Int64>, x: Int64)
    requires x in ids && Matches(rec, InstCond(obj, owner, x))
    ensures Matches(rec, BatchCond(obj, owner, ids))
  {
    var c := InstCond(obj, owner, x);
    var b := BatchCond(obj, owner, ids);
    assert FieldMatches(rec, InstIdFieldOf(obj), c[InstIdFieldOf(obj)]);
    assert FieldMatches(rec, OwnerField, c[OwnerField]);
    if IsCommon(obj) {
      assert FieldMatches(rec, ObjIdField, c[ObjIdField]);
    }
    forall f | f in b ensures FieldMatches(rec, f, b[f]) {
    }
  }

  /** The expansion leaves a field alone when no association definition names it. */
  lemma {:induction false} ExpandKeepsField(rows: seq<Row>, kinds: map<ObjId, Kind>, ds: seq<AsstDef>,
                                            rec: Record, detail: bool, f: string)
    requires forall k :: 0 <= k < |ds| ==> ds[k].attId != f
    requires ExpandRecord(rows, kinds, ds, rec, detail).Ok?
    ensures var r := ExpandRecord(rows, kinds, ds, rec, detail).value;
      (f in r <==> f in rec) && (f in rec ==> r[f] == rec[f])
  {
    if ds != [] {
      var init := ds[..|ds| - 1];
      ExpandKeepsField(rows, kinds, init, rec, detail, f);
    }
  }

  /** A stored record of instance x that the batch lookup covers comes back from
      the lookup, expanded, with its id unchanged. */
  lemma FoundCarriesId(rows: seq<Row>, kinds: map<ObjId, Kind>, defs: seq<AsstDef>, obj: ObjId,
                       owner: string, ids: seq<Int64>, x: Int64, r: Row)
    requires forall d :: d in defs && d.objId == obj ==> d.attId != InstIdFieldOf(obj)
    requires FindInstSpec(rows, kinds, defs, obj, BatchCond(obj, owner, ids), false).Ok?
    requires x in ids && r in rows && r.table == ObjectType(obj) && Matches(r.rec, InstCond(obj, owner, x))
    ensures var recs := FindInstSpec(rows, kinds, defs, obj, BatchCond(obj, owner, ids), false).value.recs;
      exists k :: 0 <= k < |recs| && InstIdOf(obj, recs[k]) == Ok(x)
  {
    var batch := BatchCond(obj, owner, ids);
    var recs := FindInstSpec(rows, kinds, defs, obj, batch, false).value.recs;
    var found := Query(rows, ObjectType(obj), batch);
    var ds := AssociationsOf(defs, obj);
    FindInstMeaning(rows, kinds, defs, obj, batch, false);
    QueryMeaning(rows, ObjectType(obj), batch);
    var i :| 0 <= i < |rows| && rows[i] == r;
    BatchCondCovers(r.rec, obj, owner, ids, x);
    assert r.rec in found;
    var k :| 0 <= k < |found| && found[k] == r.rec;
    var idf := InstIdFieldOf(obj);
    assert FieldMatches(r.rec, idf, InstCond(obj, owner, x)[idf]);
    assert forall j :: 0 <= j < |ds| ==> ds[j] in ds;
    ExpandKeepsField(rows, kinds, ds, found[k], false, idf);
    assert InstIdOf(obj, recs[k]) == Ok(x);
  }

  /** A found instance whose checks pass is on the removal list. */
  lemma FoundIsListed(mainline: map<(ObjId, Int64), seq<MainlineNode>>, hosts: set<Int64>, obj: ObjId,
                      recs: seq<Record>, k: nat, x: Int64)
    requires k < |recs| && InstIdOf(obj, recs[k]) == Ok(x)
    requires CollectRemovals(mainline, hosts, obj, recs).Ok?
    ensures Deleted(obj, x) in CollectRemovals(mainline, hosts, obj, recs).value
  {
    CollectRemovalsMeaning(mainline, hosts, obj, recs);
    var t := TreeOf(mainline, obj, recs[k]);
    WalkStartsAtRoot(t, hosts);
    var w := HostCheck.HostCheck(t, hosts).value.removal;
    assert w[0] in w;
  }

  /** A completed deletion leaves no record of any requested id of the kind (when
      the kind does not declare an association on its own id field). */
  lemma DeleteByIdsRemoves(env: Env, s: DelState, obj: ObjId, ids: seq<Int64>)
    requires forall d :: d in env.defs && d.objId == obj ==> d.attId != InstIdFieldOf(obj)
    requires DeleteByIds(env, s, obj, ids).err.None?
    ensures forall x, r :: x in ids && r in DeleteByIds(env, s, obj, ids).state.rows ==>
      !(r.table == ObjectType(obj) && Matches(r.rec, InstCond(obj, env.owner, x)))
  {
    var batch := BatchCond(obj, env.owner, ids);
    var recs := FindInstSpec(s.rows, env.kinds, env.defs, obj, batch, false).value.recs;
    var dels := CollectRemovals(env.mainline, env.hosts, obj, recs).value;
    var out := Remove(s, env.owner, env.associated, dels).state;
    assert out == DeleteByIds(env, s, obj, ids).state;
    RemoveEffect(s, env.owner, env.associated, dels);
    RemoveOnlyRemoves(s, env.owner, env.associated, dels);
    forall x, r | x in ids && r in out.rows
      ensures !(r.table == ObjectType(obj) && Matches(r.rec, InstCond(obj, env.owner, x)))
    {
      if r.table == ObjectType(obj) && Matches(r.rec, InstCond(obj, env.owner, x)) {
        FoundCarriesId(s.rows, env.kinds, env.defs, obj, env.owner, ids, x, r);
        var k :| 0 <= k < |recs| && InstIdOf(obj, recs[k]) == Ok(x);
        FoundIsListed(env.mainline, env.hosts, obj, recs, k, x);
        assert false;
      }
    }
  }

  /** The deletion of one instance by its id, as DeleteInst runs it on each match. */
  function ByIdStep(env: Env, obj: ObjId): (DelState, Int64) -> DelOutcome {
    (st: DelState, id: Int64) => DeleteByIds(env, st, obj, [id])
  }

  /** One round of the loop of DeleteInst: a missing id stops it, otherwise the
      instance is deleted by step. */
  function Round(obj: ObjId, rec: Record, step: (DelState, Int64) -> DelOutcome, prev: DelState): DelOutcome {
    match InstIdOf(obj, rec)
    case Fail(e) => DelOutcome(prev, Some(e))
    case Ok(id) => step(prev, id)
  }

  /** The loop of DeleteInst over the matched instances in match order. */
  function DeleteEach(s: DelState, obj: ObjId, recs: seq<Record>, step: (DelState, Int64) -> DelOutcome): DelOutcome
  {
    if recs == [] then DelOutcome(s, None)
    else
      var prev := DeleteEach(s, obj, recs[..|recs| - 1], step);
      if prev.err.Some? then prev else Round(obj, recs[|recs| - 1], step, prev.state)
  }

  /** DeleteInst: look the instances up, then delete each by its own id. */
  function DeleteInstSpec(env: Env, s: DelState, obj: ObjId, cond: Cond): DelOutcome
  {
    match FindInstSpec(s.rows, env.kinds, env.defs, obj, cond, false)
    case Fail(e) => DelOutcome(s, Some(e))
    case Ok(f) => DeleteEach(s, obj, f.recs, ByIdStep(env, obj))
  }

  lemma {:induction false} DeleteEachFailureStays(s: DelState, obj: ObjId, recs: seq<Record>,
                                                  step: (DelState, Int64) -> DelOutcome, n: nat)
    requires n <= |recs| && DeleteEach(s, obj, recs[..n], step).err.Some?
    ensures DeleteEach(s, obj, recs, step) == DeleteEach(s, obj, recs[..n], step)
    decreases |recs|
  {
    if n < |recs| {
      var init := recs[..|recs| - 1];
      assert init[..n] == recs[..n];
      DeleteEachFailureStays(s, obj, init, step, n);
    } else {
      assert recs[..n] == recs;
    }
  }

  /** One more matched instance: its id, then a deletion by that id. */
  lemma DeleteEachStep(s: DelState, obj: ObjId, recs: seq<Record>, step: (DelState, Int64) -> DelOutcome, k: nat)
    requires k < |recs| && DeleteEach(s, obj, recs[..k], step).err.None?
    ensures DeleteEach(s, obj, recs[..k + 1], step) == Round(obj, recs[k], step, DeleteEach(s, obj, recs[..k], step).state)
  {
    assert recs[..k + 1][..k] == recs[..k];
  }

  /** The loop of DeleteInst advanced by one instance whose round ended in out. */
  lemma DeleteEachAdvance(s: DelState, obj: ObjId, recs: seq<Record>, step: (DelState, Int64) -> DelOutcome,
                          k: nat, out: DelOutcome)
    requires k < |recs| && DeleteEach(s, obj, recs[..k], step).err.None?
    requires out == Round(obj, recs[k], step, DeleteEach(s, obj, recs[..k], step).state)
    ensures DeleteEach(s, obj, recs[..k + 1], step) == out
    ensures out.err.Some? ==> DeleteEach(s, obj, recs, step) == out
  {
    DeleteEachStep(s, obj, recs, step, k);
    if out.err.Some? {
      DeleteEachFailureStays(s, obj, recs, step, k + 1);
    }
  }

  /** A deletion by ids never adds records. */
  lemma DeleteByIdsOnlyRemoves(env: Env, s: DelState, obj: ObjId, ids: seq<Int64>)
    ensures forall r :: r in DeleteByIds(env, s, obj, ids).state.rows ==> r in s.rows
  {
    var batch := BatchCond(obj, env.owner, ids);
    var f := FindInstSpec(s.rows, env.kinds, env.defs, obj, batch, false);
    if f.Ok? {
      var dels := CollectRemovals(env.mainline, env.hosts, obj, f.value.recs);
      if dels.Ok? {
        RemoveOnlyRemoves(s, env.owner, env.associated, dels.value);
      }
    }
  }

  /** A per-instance deletion that, when it completes, adds no record and leaves
      none of the instance it was given. */
  ghost predicate StepRemoves(step: (DelState, Int64) -> DelOutcome, obj: ObjId, owner: string) {
    forall st: DelState, id: Int64 :: step(st, id).err.None? ==>
      && (forall r :: r in step(st, id).state.rows ==> r in st.rows)
      && (forall r :: r in step(st, id).state.rows ==> !(r.table == ObjectType(obj) && Matches(r.rec, InstCond(obj, owner, id))))
  }

  /** Deleting by id is such a deletion. */
  lemma ByIdStepRemoves(env: Env, obj: ObjId)
    requires forall d :: d in env.defs && d.objId == obj ==> d.attId != InstIdFieldOf(obj)
    ensures StepRemoves(ByIdStep(env, obj), obj, env.owner)
  {
    forall st: DelState, id: Int64 | ByIdStep(env, obj)(st, id).err.None?
      ensures (forall r :: r in ByIdStep(env, obj)(st, id).state.rows ==> r in st.rows)
      ensures (forall r :: r in ByIdStep(env, obj)(st, id).state.rows ==>
                !(r.table == ObjectType(obj) && Matches(r.rec, InstCond(obj, env.owner, id))))
    {
      DeleteByIdsRemoves(env, st, obj, [id]);
      DeleteByIdsOnlyRemoves(env, st, obj, [id]);
      assert id in [id];
    }
  }

  /** A completed loop over a non-empty list completed over all but the last
      instance, then deleted the last one by its id. */
  lemma DeleteEachLast(s: DelState, obj: ObjId, recs: seq<Record>, step: (DelState, Int64) -> DelOutcome)
    requires recs != [] && DeleteEach(s, obj, recs, step).err.None?
    ensures var prev := DeleteEach(s, obj, recs[..|recs| - 1], step);
      && prev.err.None? && InstIdOf(obj, recs[|recs| - 1]).Ok?
      && DeleteEach(s, obj, recs, step) == step(prev.state, InstIdOf(obj, recs[|recs| - 1]).value)
  {
  }

  /** The guarantee of a per-instance deletion for one state and one id. */
  lemma StepRemovesAt(step: (DelState, Int64) -> DelOutcome, obj: ObjId, owner: string, st: DelState, id: Int64)
    requires StepRemoves(step, obj, owner) && step(st, id).err.None?
    ensures forall r :: r in step(st, id).state.rows ==> r in st.rows
    ensures forall r :: r in step(st, id).state.rows ==> !(r.table == ObjectType(obj) && Matches(r.rec, InstCond(obj, owner, id)))
  {
  }

  /** A completed loop found an id on every matched instance and, with such a
      per-instance deletion, leaves no record of any of them. */
  lemma {:induction false} DeleteEachRemoves(s: DelState, obj: ObjId, owner: string, recs: seq<Record>,
                                             step: (DelState, Int64) -> DelOutcome)
    requires StepRemoves(step, obj, owner)
    requires DeleteEach(s, obj, recs, step).err.None?
    ensures forall k :: 0 <= k < |recs| ==> InstIdOf(obj, recs[k]).Ok?
    ensures forall k, x, r :: 0 <= k < |recs| && InstIdOf(obj, recs[k]) == Ok(x) && r in DeleteEach(s, obj, recs, step).state.rows ==>
      !(r.table == ObjectType(obj) && Matches(r.rec, InstCond(obj, owner, x)))
    decreases |recs|
  {
    if recs != [] {
      var init := recs[..|recs| - 1];
      DeleteEachLast(s, obj, recs, step);
      var prev := DeleteEach(s, obj, init, step).state;
      DeleteEachRemoves(s, obj, owner, init, step);
      var id := InstIdOf(obj, recs[|recs| - 1]).value;
      StepRemovesAt(step, obj, owner, prev, id);
      var out := step(prev, id).state;
      forall k, x, r | 0 <= k < |recs| && InstIdOf(obj, recs[k]) == Ok(x) && r in out.rows
        ensures !(r.table == ObjectType(obj) && Matches(r.rec, InstCond(obj, owner, x)))
      {
        if k < |init| {
          assert init[k] == recs[k];
        }
      }
      forall k | 0 <= k < |recs| ensures InstIdOf(obj, recs[k]).Ok? {
        if k < |init| {
          assert init[k] == recs[k];
        }
      }
    }
  }

  /** A completed DeleteInst leaves no record of any instance its condition
      matched (when the kind does not declare an association on its id field). */
  lemma DeleteInstRemoves(env: Env, s: DelState, obj: ObjId, cond: Cond)
    requires forall d :: d in env.defs && d.objId == obj ==> d.attId != InstIdFieldOf(obj)
    requires DeleteInstSpec(env, s, obj, cond).err.None?
    ensures FindInstSpec(s.rows, env.kinds, env.defs, obj, cond, false).Ok?
    ensures var recs := FindInstSpec(s.rows, env.kinds, env.defs, obj, cond, false).value.recs;
      forall k, x, r :: 0 <= k < |recs| && InstIdOf(obj, recs[k]) == Ok(x) && r in DeleteInstSpec(env, s, obj, cond).state.rows ==>
        !(r.table == ObjectType(obj) && Matches(r.rec, InstCond(obj, env.owner, x)))
  {
    ByIdStepRemoves(env, obj);
    var recs := FindInstSpec(s.rows, env.kinds, env.defs, obj, cond, false).value.recs;
    DeleteEachRemoves(s, obj, env.owner, recs, ByIdStep(env, obj));
  }

  // ---------------------------------------------------------------------------
  // Where the written removal loop departs from the intended one

  /** As written, the removal loop never removes an edge whose source kind is not
      the batch kind, and never one leaving an instance at all: the outgoing-edge
      delete matches nothing. */
  lemma {:induction false} AsWrittenKeepsOutgoing(s: DelState, obj: ObjId, batch: Cond,
                                                  associated: set<(ObjId, Int64)>, dels: seq<Deleted>)
    ensures forall e :: e in s.edges && e.asstObjId != obj ==>
      e in RemoveAsWritten(s, obj, batch, associated, dels).state.edges
  {
    if dels != [] {
      AsWrittenKeepsOutgoing(s, obj, batch, associated, dels[..|dels| - 1]);
    }
  }

  /** The business 5 holds an association to host 7. Deleting the business as
      written keeps that edge; the intended removal drops it. */
  lemma OutgoingEdgeSurvives()
    ensures var e := Edge(ObjBiz, 5, ObjHost, 7);
      var s := DelState([], {e});
      var dels := [Deleted(ObjBiz, 5)];
      && RemoveAsWritten(s, ObjBiz, BatchCond(ObjBiz, "0", [5]), {}, dels) == DelOutcome(s, None)
      && Remove(s, "0", {}, dels) == DelOutcome(DelState([], {}), None)
  {
    var e := Edge(ObjBiz, 5, ObjHost, 7);
    var s := DelState([], {e});
    var dels := [Deleted(ObjBiz, 5)];
    assert dels[..0] == [];
    assert Incoming(s.edges, ObjBiz, 5) == {};
    assert Outgoing(s.edges, ObjBiz, 5) == {e};
  }

  /** The record of business id in the default supplier account. */
  function BizRecord(id: Int64): Record {
    map[InstIdFieldOf(ObjBiz) := Int(id), OwnerField := Str("0")]
  }

  /** A business record is selected by its own id and by no other. */
  lemma BizRecordSelected(id: Int64, other: Int64)
    ensures Matches(BizRecord(id), InstCond(ObjBiz, "0", id))
    ensures other != id ==> !Matches(BizRecord(id), InstCond(ObjBiz, "0", other))
  {
    var f := InstIdFieldOf(ObjBiz);
    var c := InstCond(ObjBiz, "0", id);
    forall g | g in c ensures FieldMatches(BizRecord(id), g, c[g]) {
    }
    if other != id {
      var d := InstCond(ObjBiz, "0", other);
      assert f in d && !FieldMatches(BizRecord(id), f, d[f]);
    }
  }

  /** Businesses 1 and 2 are deleted together and business 2 is still
      associated. As written, the first round deletes both records with the batch
      condition, and the refusal of business 2 comes after its record is gone; the
      intended removal keeps business 2's record. */
  lemma RefusedRecordDeleted()
    ensures var rows := [Row(ObjectType(ObjBiz), BizRecord(1)), Row(ObjectType(ObjBiz), BizRecord(2))];
      var s := DelState(rows, {});
      var dels := [Deleted(ObjBiz, 1), Deleted(ObjBiz, 2)];
      var refused := Some(BeAssociated(ObjBiz, 2));
      && RemoveAsWritten(s, ObjBiz, BatchCond(ObjBiz, "0", [1, 2]), {(ObjBiz, 2)}, dels) == DelOutcome(DelState([], {}), refused)
      && Remove(s, "0", {(ObjBiz, 2)}, dels) == DelOutcome(DelState([rows[1]], {}), refused)
  {
    var t := ObjectType(ObjBiz);
    var rows := [Row(t, BizRecord(1)), Row(t, BizRecord(2))];
    var s := DelState(rows, {});
    var dels := [Deleted(ObjBiz, 1), Deleted(ObjBiz, 2)];
    var assoc := {(ObjBiz, 2)};
    var batch := BatchCond(ObjBiz, "0", [1, 2]);
    var one := InstCond(ObjBiz, "0", 1);
    assert t == ObjBiz;
    assert dels[..1] == [Deleted(ObjBiz, 1)] && dels[..1][..0] == [];
    assert rows[1..] == [rows[1]];
    assert {} - Incoming({}, ObjBiz, 1) == {} && {} - Incoming({}, ObjBiz, 1) - Outgoing({}, ObjBiz, 1) == {};
    BizRecordSelected(1, 1);
    BizRecordSelected(2, 1);
    BatchCondCovers(BizRecord(1), ObjBiz, "0", [1, 2], 1);
    BatchCondCovers(BizRecord(2), ObjBiz, "0", [1, 2], 2);
    assert RemoveMatching([rows[1]], t, batch) == [];
    assert RemoveMatching(rows, t, batch) == [];
    assert RemoveAsWritten(s, ObjBiz, batch, assoc, dels[..1]) == DelOutcome(DelState([], {}), None);
    assert RemoveMatching([rows[1]], t, one) == [rows[1]];
    assert RemoveMatching(rows, t, one) == [rows[1]];
    assert Remove(s, "0", assoc, dels[..1]) == DelOutcome(DelState([rows[1]], {}), None);
  }

  /** A business 1 with an empty set 3 below it. As written, the set's record
      survives the deletion of its business, since only the business's collection
      is cleared; the intended removal deletes both. */
  lemma DescendantRecordSurvives()
    ensures var rows := [Row(ObjectType(ObjBiz), BizRecord(1)), Row(ObjectType(ObjSet), SetRecord(3))];
      var s := DelState(rows, {});
      var dels := [Deleted(ObjBiz, 1), Deleted(ObjSet, 3)];
      && RemoveAsWritten(s, ObjBiz, BatchCond(ObjBiz, "0", [1]), {}, dels) == DelOutcome(DelState([rows[1]], {}), None)
      && Remove(s, "0", {}, dels) == DelOutcome(DelState([], {}), None)
  {
    assert ObjectType(ObjBiz) == ObjBiz && ObjectType(ObjSet) == ObjSet;
    var rows := [Row(ObjBiz, BizRecord(1)), Row(ObjSet, SetRecord(3))];
    var s := DelState(rows, {});
    var dels := [Deleted(ObjBiz, 1), Deleted(ObjSet, 3)];
    var batch := BatchCond(ObjBiz, "0", [1]);
    assert dels[..1] == [Deleted(ObjBiz, 1)] && dels[..1][..0] == [];
    assert rows[1..] == [rows[1]];
    assert {} - Incoming({}, ObjBiz, 1) == {} && {} - Incoming({}, ObjBiz, 1) - Outgoing({}, ObjBiz, 1) == {};
    assert {} - Incoming({}, ObjBiz, 3) == {} && {} - Incoming({}, ObjSet, 3) - Outgoing({}, ObjSet, 3) == {};
    BizRecordSelected(1, 1);
    BatchCondCovers(BizRecord(1), ObjBiz, "0", [1], 1);
    SetRecordSelected(3);
    assert RemoveMatching([rows[1]], ObjBiz, batch) == [rows[1]];
    assert RemoveMatching(rows, ObjBiz, batch) == [rows[1]];
    assert RemoveAsWritten(s, ObjBiz, batch, {}, dels[..1]) == DelOutcome(DelState([rows[1]], {}), None);
    assert RemoveMatching([rows[1]], ObjBiz, InstCond(ObjBiz, "0", 1)) == [rows[1]];
    assert RemoveMatching(rows, ObjBiz, InstCond(ObjBiz, "0", 1)) == [rows[1]];
    assert Remove(s, "0", {}, dels[..1]) == DelOutcome(DelState([rows[1]], {}), None);
    assert RemoveMatching([rows[1]], ObjSet, InstCond(ObjSet, "0", 3)) == [];
  }

  /** The record of set id in the default supplier account. */
  function SetRecord(id: Int64): Record {
    map[InstIdFieldOf(ObjSet) := Int(id), OwnerField := Str("0")]
  }

  lemma SetRecordSelected(id: Int64)
    ensures Matches(SetRecord(id), InstCond(ObjSet, "0", id))
  {
    var c := InstCond(ObjSet, "0", id);
    forall g | g in c ensures FieldMatches(SetRecord(id), g, c[g]) {
    }
  }

  // ---------------------------------------------------------------------------
  // The methods

  /** The hasHost loop of DeleteInstByInstID. */
  method CollectRemovalLists(st: Store, obj: ObjId, recs: seq<Record>) returns (r: Result<seq<Deleted>>)
    ensures r == CollectRemovals(st.mainline, st.hostModules, obj, recs)
  {
    var dels: seq<Deleted> := [];
    var k := 0;
    while k < |recs|
      invariant 0 <= k <= |recs|
      invariant CollectRemovals(st.mainline, st.hostModules, obj, recs[..k]) == Ok(dels)
    {
      assert recs[..k + 1][..k] == recs[..k];
      var w := HasHost(st, TreeOf(st.mainline, obj, recs[k]));
      if w.Fail? || w.value.blocked {
        CollectFailureStays(st.mainline, st.hostModules, obj, recs, k + 1);
        return Fail(HasHostCheckFailed);
      }
      dels := dels + w.value.removal;
      k := k + 1;
    }
    assert recs[..k] == recs;
    r := Ok(dels);
  }

  /** The removal loop: for each entry, the incoming-association check, the edge
      deletes and the record delete. */
  method RemoveEntries(st: Store, owner: string, associated: set<(ObjId, Int64)>, dels: seq<Deleted>)
    returns (err: Option<Err>)
    modifies st`rows, st`edges
    ensures DelOutcome(DelState(st.rows, st.edges), err) ==
      Remove(DelState(old(st.rows), old(st.edges)), owner, associated, dels)
  {
    ghost var s0 := DelState(st.rows, st.edges);
    var k := 0;
    while k < |dels|
      invariant 0 <= k <= |dels|
      invariant Remove(s0, owner, associated, dels[..k]) == DelOutcome(DelState(st.rows, st.edges), None)
    {
      assert dels[..k + 1][..k] == dels[..k];
      var d := dels[k];
      if (d.obj, d.id) in associated {
        RemoveFailureStays(s0, owner, associated, dels, k + 1);
        return Some(BeAssociated(d.obj, d.id));
      }
      st.edges := st.edges - Incoming(st.edges, d.obj, d.id);
      st.edges := st.edges - Outgoing(st.edges, d.obj, d.id);
      st.rows := RemoveMatching(st.rows, ObjectType(d.obj), InstCond(d.obj, owner, d.id));
      k := k + 1;
    }
    assert dels[..k] == dels;
    err := None;
  }

  /** DeleteInstByInstID: every check first, then the removals. */
  method DeleteInstByInstID(st: Store, obj: ObjId, owner: string, associated: set<(ObjId, Int64)>, ids: seq<Int64>)
    returns (err: Option<Err>)
    modifies st`rows, st`edges
    ensures DelOutcome(DelState(st.rows, st.edges), err) ==
      DeleteByIds(Env(st.kinds, st.defs, st.mainline, st.hostModules, owner, associated),
                  DelState(old(st.rows), old(st.edges)), obj, ids)
  {
    var found := FindInst(st, obj, BatchCond(obj, owner, ids), false);
    if found.Fail? {
      return Some(found.error);
    }
    var dels := CollectRemovalLists(st, obj, found.value.recs);
    if dels.Fail? {
      return Some(dels.error);
    }
    err := RemoveEntries(st, owner, associated, dels.value);
  }

  /** One round of DeleteInst: read the instance's id, then delete by it. */
  method DeleteOne(st: Store, obj: ObjId, owner: string, associated: set<(ObjId, Int64)>, rec: Record,
                   ghost step: (DelState, Int64) -> DelOutcome)
    returns (err: Option<Err>)
    requires step == ByIdStep(Env(st.kinds, st.defs, st.mainline, st.hostModules, owner, associated), obj)
    modifies st`rows, st`edges
    ensures DelOutcome(DelState(st.rows, st.edges), err) == Round(obj, rec, step, DelState(old(st.rows), old(st.edges)))
  {
    var id := InstIdOf(obj, rec);
    if id.Fail? {
      return Some(id.error);
    }
    err := DeleteInstByInstID(st, obj, owner, associated, [id.value]);
  }

  /** DeleteInst: look the instances up once, then delete each by its id. */
  method DeleteInst(st: Store, obj: ObjId, owner: string, associated: set<(ObjId, Int64)>, cond: Cond)
    returns (err: Option<Err>)
    modifies st`rows, st`edges
    ensures DelOutcome(DelState(st.rows, st.edges), err) ==
      DeleteInstSpec(Env(st.kinds, st.defs, st.mainline, st.hostModules, owner, associated),
                     DelState(old(st.rows), old(st.edges)), obj, cond)
  {
    ghost var step := ByIdStep(Env(st.kinds, st.defs, st.mainline, st.hostModules, owner, associated), obj);
    ghost var s0 := DelState(st.rows, st.edges);
    var found := FindInst(st, obj, cond, false);
    if found.Fail? {
      return Some(found.error);
    }
    var recs := found.value.recs;
    var k := 0;
    while k < |recs|
      invariant 0 <= k <= |recs|
      invariant DeleteEach(s0, obj, recs[..k], step) == DelOutcome(DelState(st.rows, st.edges), None)
    {
      var e := DeleteOne(st, obj, owner, associated, recs[k], step);
      DeleteEachAdvance(s0, obj, recs, step, k, DelOutcome(DelState(st.rows, st.edges), e));
      if e.Some? {
        return e;
      }
      k := k + 1;
    }
    assert recs[..k] == recs;
    err := None;
  }
}
