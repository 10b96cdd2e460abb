/** The association synchronizer (setInstAsst): it brings the edge store in line
    with the association attributes of one in-memory instance, and rewrites each
    such attribute to the ids that were actually linked. */
module Sync {
  import opened Common
  import opened Text
  import opened Store
  import opened Lookup

  /** The ids an association attribute's value names: a string is an id list, a
      list of descriptors contributes their instance ids, any other type none. */
  function AttrIds(v: Value): Result<seq<Int64>> {
    match v
    case Str(s) => ParseIdTokens(Split(s, InstAsstIdSplit))
    case Refs(refs) => Ok(seq(|refs|, k requires 0 <= k < |refs| => refs[k].instId))
    case _ => Ok([])
  }

  /** The first association definition declared for an attribute. */
  function FirstDef(defs: seq<AsstDef>, attId: string): (r: Option<AsstDef>)
    ensures r.None? <==> forall k :: 0 <= k < |defs| ==> defs[k].attId != attId
    ensures r.Some? ==> exists k :: (0 <= k < |defs| && defs[k] == r.value && r.value.attId == attId
      && forall j :: 0 <= j < k ==> defs[j].attId != attId)
  {
    if defs == [] then None
    else if defs[0].attId == attId then Some(defs[0])
    else
      var r := FirstDef(defs[1..], attId);
      assert forall k :: 1 <= k < |defs| ==> defs[k] == defs[1..][k - 1];
      r
  }

  /** The ids that pass isValidInstID against the target kind, in input order. */
  function ValidIds(rows: seq<Row>, asstObj: ObjId, ids: seq<Int64>): seq<Int64>
  {
    if ids == [] then []
    else
      var prev := ValidIds(rows, asstObj, ids[..|ids| - 1]);
      if IsValidInstID(rows, asstObj, ids[|ids| - 1]) then prev + [ids[|ids| - 1]] else prev
  }

  /** The filter keeps exactly the ids that pass validation, and no more of them
      than it was given. */
  lemma {:induction false} ValidIdsMeaning(rows: seq<Row>, asstObj: ObjId, ids: seq<Int64>)
    ensures |ValidIds(rows, asstObj, ids)| <= |ids|
    ensures forall x :: x in ValidIds(rows, asstObj, ids) <==> x in ids && IsValidInstID(rows, asstObj, x)
  {
    if ids != [] {
      ValidIdsMeaning(rows, asstObj, ids[..|ids| - 1]);
      assert ids == ids[..|ids| - 1] + [ids[|ids| - 1]];
    }
  }

  /** The filter keeps input order: it distributes over concatenation. */
  lemma {:induction false} ValidIdsAppend(rows: seq<Row>, asstObj: ObjId, a: seq<Int64>, b: seq<Int64>)
    ensures ValidIds(rows, asstObj, a + b) == ValidIds(rows, asstObj, a) + ValidIds(rows, asstObj, b)
    decreases |b|
  {
    if b == [] {
      assert a + b == a;
    } else {
      var n := |b|;
      assert (a + b)[..|a + b| - 1] == a + b[..n - 1];
      ValidIdsAppend(rows, asstObj, a, b[..n - 1]);
    }
  }

  /** A list of valid ids passes the filter unchanged. */
  lemma {:induction false} ValidIdsOfValid(rows: seq<Row>, asstObj: ObjId, ids: seq<Int64>)
    requires forall k :: 0 <= k < |ids| ==> IsValidInstID(rows, asstObj, ids[k])
    ensures ValidIds(rows, asstObj, ids) == ids
  {
    if ids != [] {
      var n := |ids| - 1;
      var last := ids[n];
      assert IsValidInstID(rows, asstObj, last);
      ValidIdsOfValid(rows, asstObj, ids[..n]);
      calc {
        ValidIds(rows, asstObj, ids);
        ValidIds(rows, asstObj, ids[..n]) + [last];
        ids[..n] + [last];
        { assert ids[..n] + [last] == ids; }
        ids;
      }
    }
  }

  /** Filtering twice is filtering once. */
  lemma ValidIdsIdempotent(rows: seq<Row>, asstObj: ObjId, ids: seq<Int64>)
    ensures ValidIds(rows, asstObj, ValidIds(rows, asstObj, ids)) == ValidIds(rows, asstObj, ids)
  {
    var valid := ValidIds(rows, asstObj, ids);
    ValidIdsMeaning(rows, asstObj, ids);
    assert forall k :: 0 <= k < |valid| ==> valid[k] in valid;
    ValidIdsOfValid(rows, asstObj, valid);
  }

  /** The edges of the (kind, instance, target kind) triple. */
  function Triple(edges: set<Edge>, obj: ObjId, cur: Int64, asstObj: ObjId): set<Edge> {
    set e | e in edges && e.objId == obj && e.instId == cur && e.asstObjId == asstObj
  }

  /** One edge from the instance to each listed target. */
  function NewEdges(obj: ObjId, cur: Int64, asstObj: ObjId, targets: seq<Int64>): set<Edge> {
    set x | x in targets :: Edge(obj, cur, asstObj, x)
  }

  /** What setInstAsst reads and writes: the edge store and the instance's values. */
  datatype SyncState = SyncState(edges: set<Edge>, values: Record)

  /** The state reached and the error, if any, that stopped the synchronization. */
  datatype SyncOutcome = SyncOutcome(state: SyncState, err: Option<Err>)

  /** The synchronization of one attribute of instance cur of kind obj, given the
      kind's association definitions. */
  function SyncAttr(rows: seq<Row>, assts: seq<AsstDef>, obj: ObjId, cur: Int64, attr: Attr, s: SyncState)
    : Result<SyncState>
  {
    if !attr.isAssociation || attr.id !in s.values then Ok(s)
    else match AttrIds(s.values[attr.id])
      case Fail(e) => Fail(e)
      case Ok(ids) =>
        match FirstDef(assts, attr.id)
        case None => Ok(s)
        case Some(d) =>
          var valid := ValidIds(rows, d.asstObjId, ids);
          Ok(SyncState(
            s.edges - Triple(s.edges, obj, cur, d.asstObjId) + NewEdges(obj, cur, d.asstObjId, valid),
            s.values[attr.id := Str(JoinIds(valid))]))
  }

  /** The synchronization of the attributes in order; the first error stops it and
      keeps what the earlier attributes already changed. */
  function SyncAll(rows: seq<Row>, assts: seq<AsstDef>, obj: ObjId, cur: Int64, attrs: seq<Attr>, s: SyncState)
    : SyncOutcome
  {
    if attrs == [] then SyncOutcome(s, None)
    else
      var prev := SyncAll(rows, assts, obj, cur, attrs[..|attrs| - 1], s);
      if prev.err.Some? then prev
      else match SyncAttr(rows, assts, obj, cur, attrs[|attrs| - 1], prev.state)
        case Fail(e) => SyncOutcome(prev.state, Some(e))
        case Ok(next) => SyncOutcome(next, None)
  }

  lemma {:induction false} SyncAllFailureStays(rows: seq<Row>, assts: seq<AsstDef>, obj: ObjId, cur: Int64,
                                               attrs: seq<Attr>, s: SyncState, n: nat)
    requires n <= |attrs| && SyncAll(rows, assts, obj, cur, attrs[..n], s).err.Some?
    ensures SyncAll(rows, assts, obj, cur, attrs, s) == SyncAll(rows, assts, obj, cur, attrs[..n], s)
    decreases |attrs|
  {
    if n < |attrs| {
      var init := attrs[..|attrs| - 1];
      assert init[..n] == attrs[..n];
      SyncAllFailureStays(rows, assts, obj, cur, init, s, n);
    } else {
      assert attrs[..n] == attrs;
    }
  }

  /** The effect of synchronizing an association attribute that has a definition:
      the triple's edges are exactly the listed ids that pass validation, no other
      edge changes, and the attribute now holds the joined valid ids, which read
      back as exactly those ids. */
  lemma SyncAttrEffect(rows: seq<Row>, assts: seq<AsstDef>, obj: ObjId, cur: Int64, attr: Attr, s: SyncState)
    requires attr.isAssociation && attr.id in s.values && AttrIds(s.values[attr.id]).Ok?
    requires FirstDef(assts, attr.id).Some?
    ensures var d := FirstDef(assts, attr.id).value;
      var ids := AttrIds(s.values[attr.id]).value;
      var valid := ValidIds(rows, d.asstObjId, ids);
      var r := SyncAttr(rows, assts, obj, cur, attr, s);
      && r.Ok?
      && (forall x :: Edge(obj, cur, d.asstObjId, x) in r.value.edges <==>
            x in ids && IsValidInstID(rows, d.asstObjId, x))
      && (forall e :: e in s.edges && (e.objId != obj || e.instId != cur || e.asstObjId != d.asstObjId) ==>
            e in r.value.edges)
      && (forall e :: e in r.value.edges && (e.objId != obj || e.instId != cur || e.asstObjId != d.asstObjId) ==>
            e in s.edges)
      && r.value.values == s.values[attr.id := Str(JoinIds(valid))]
      && AttrIds(r.value.values[attr.id]) == Ok(valid)
  {
    var d := FirstDef(assts, attr.id).value;
    var ids := AttrIds(s.values[attr.id]).value;
    var valid := ValidIds(rows, d.asstObjId, ids);
    ValidIdsMeaning(rows, d.asstObjId, ids);
    IdListRoundTrip(valid);
  }

  /** Edges are replaced per (kind, instance, target kind), not per attribute: of
      two association attributes that refer to the same target kind, the later
      one decides the edges, and the ids of the earlier one are unlinked unless
      the later one lists them too. */
  lemma LaterAttributeWins(rows: seq<Row>, assts: seq<AsstDef>, obj: ObjId, cur: Int64, a: Attr, b: Attr,
                           s: SyncState)
    requires a.isAssociation && b.isAssociation && a.id != b.id
    requires a.id in s.values && b.id in s.values
    requires AttrIds(s.values[a.id]).Ok? && AttrIds(s.values[b.id]).Ok?
    requires FirstDef(assts, a.id).Some? && FirstDef(assts, b.id).Some?
    requires FirstDef(assts, a.id).value.asstObjId == FirstDef(assts, b.id).value.asstObjId
    ensures var out := SyncAll(rows, assts, obj, cur, [a, b], s);
      var target := FirstDef(assts, b.id).value.asstObjId;
      && out.err.None?
      && forall x :: Edge(obj, cur, target, x) in out.state.edges <==>
           x in AttrIds(s.values[b.id]).value && IsValidInstID(rows, target, x)
  {
    SyncAttrEffect(rows, assts, obj, cur, a, s);
    var s1 := SyncAttr(rows, assts, obj, cur, a, s).value;
    assert s1.values[b.id] == s.values[b.id];
    SyncAttrEffect(rows, assts, obj, cur, b, s1);
    var s2 := SyncAttr(rows, assts, obj, cur, b, s1).value;
    assert [a][..0] == [];
    assert SyncAll(rows, assts, obj, cur, [a], s) == SyncOutcome(s1, None);
    assert [a, b][..1] == [a];
    assert SyncAll(rows, assts, obj, cur, [a, b], s) == SyncOutcome(s2, None);
  }

  /** The attributes the synchronizer leaves alone: non-association attributes,
      absent values and attributes without a definition keep their edges and
      value; an unparsable id list fails before anything changes. */
  lemma SyncAttrLeavesAlone(rows: seq<Row>, assts: seq<AsstDef>, obj: ObjId, cur: Int64, attr: Attr, s: SyncState)
    ensures !attr.isAssociation || attr.id !in s.values ==> SyncAttr(rows, assts, obj, cur, attr, s) == Ok(s)
    ensures (attr.isAssociation && attr.id in s.values && AttrIds(s.values[attr.id]).Ok?
      && (forall k :: 0 <= k < |assts| ==> assts[k].attId != attr.id)) ==>
      SyncAttr(rows, assts, obj, cur, attr, s) == Ok(s)
    ensures (attr.isAssociation && attr.id in s.values && s.values[attr.id].Str? &&
      ParseIdTokens(Split(s.values[attr.id].s, InstAsstIdSplit)).Fail?) ==>
      SyncAttr(rows, assts, obj, cur, attr, s).Fail?
  {
  }

  /** A value of an unsupported type names no ids: the whole triple is wiped and
      the attribute becomes the empty string. */
  lemma UnsupportedValueWipes(rows: seq<Row>, assts: seq<AsstDef>, obj: ObjId, cur: Int64, attr: Attr, s: SyncState)
    requires attr.isAssociation && attr.id in s.values
    requires !s.values[attr.id].Str? && !s.values[attr.id].Refs?
    requires FirstDef(assts, attr.id).Some?
    ensures var d := FirstDef(assts, attr.id).value;
      var r := SyncAttr(rows, assts, obj, cur, attr, s);
      && r.Ok?
      && r.value.edges == s.edges - Triple(s.edges, obj, cur, d.asstObjId)
      && r.value.values == s.values[attr.id := Str("")]
  {
    var d := FirstDef(assts, attr.id).value;
    assert ValidIds(rows, d.asstObjId, []) == [];
    assert NewEdges(obj, cur, d.asstObjId, []) == {};
  }

  /** The rewritten attribute value reads back as exactly the ids written. */
  lemma RewrittenValueReadsBack(valid: seq<Int64>)
    ensures AttrIds(Str(JoinIds(valid))) == Ok(valid)
  {
    IdListRoundTrip(valid);
  }

  /** Replacing a triple's edges by the same targets twice is the same as once. */
  lemma TripleRewriteIdempotent(edges: set<Edge>, obj: ObjId, cur: Int64, asstObj: ObjId, targets: seq<Int64>)
    ensures var once := edges - Triple(edges, obj, cur, asstObj) + NewEdges(obj, cur, asstObj, targets);
      once - Triple(once, obj, cur, asstObj) + NewEdges(obj, cur, asstObj, targets) == once
  {
    var once := edges - Triple(edges, obj, cur, asstObj) + NewEdges(obj, cur, asstObj, targets);
    assert Triple(once, obj, cur, asstObj) == NewEdges(obj, cur, asstObj, targets);
  }

  /** The result of synchronizing an attribute whose ids and definition are known. */
  lemma SyncAttrOf(rows: seq<Row>, assts: seq<AsstDef>, obj: ObjId, cur: Int64, attr: Attr, s: SyncState,
                   ids: seq<Int64>, d: AsstDef)
    requires attr.isAssociation && attr.id in s.values && AttrIds(s.values[attr.id]) == Ok(ids)
    requires FirstDef(assts, attr.id) == Some(d)
    ensures var valid := ValidIds(rows, d.asstObjId, ids);
      SyncAttr(rows, assts, obj, cur, attr, s) ==
        Ok(SyncState(s.edges - Triple(s.edges, obj, cur, d.asstObjId) + NewEdges(obj, cur, d.asstObjId, valid),
                     s.values[attr.id := Str(JoinIds(valid))]))
  {
  }

  /** Synchronizing an attribute a second time changes nothing. */
  lemma SyncAttrIdempotent(rows: seq<Row>, assts: seq<AsstDef>, obj: ObjId, cur: Int64, attr: Attr, s: SyncState)
    requires SyncAttr(rows, assts, obj, cur, attr, s).Ok?
    ensures var s1 := SyncAttr(rows, assts, obj, cur, attr, s).value;
      SyncAttr(rows, assts, obj, cur, attr, s1) == Ok(s1)
  {
    var s1 := SyncAttr(rows, assts, obj, cur, attr, s).value;
    if attr.isAssociation && attr.id in s.values && FirstDef(assts, attr.id).Some? {
      var d := FirstDef(assts, attr.id).value;
      var ids := AttrIds(s.values[attr.id]).value;
      var valid := ValidIds(rows, d.asstObjId, ids);
      var v1 := Str(JoinIds(valid));
      SyncAttrOf(rows, assts, obj, cur, attr, s, ids, d);
      RewrittenValueReadsBack(valid);
      ValidIdsIdempotent(rows, d.asstObjId, ids);
      TripleRewriteIdempotent(s.edges, obj, cur, d.asstObjId, valid);
      assert s1.values[attr.id] == v1;
      assert s1.values[attr.id := v1] == s1.values;
      SyncAttrOf(rows, assts, obj, cur, attr, s1, valid, d);
    }
  }

  /** The synchronization never touches the edges of other instances, and never
      adds or removes an attribute of the instance. */
  lemma {:induction false} SyncAllKeepsOthers(rows: seq<Row>, assts: seq<AsstDef>, obj: ObjId, cur: Int64,
                                              attrs: seq<Attr>, s: SyncState)
    ensures var out := SyncAll(rows, assts, obj, cur, attrs, s).state;
      && out.values.Keys == s.values.Keys
      && forall e: Edge :: e.objId != obj || e.instId != cur ==> (e in out.edges <==> e in s.edges)
  {
    if attrs != [] {
      SyncAllKeepsOthers(rows, assts, obj, cur, attrs[..|attrs| - 1], s);
    }
  }

  /** A rewritten value reads back as the valid ids, which the filter keeps whole. */
  lemma ReadRewritten(rows: seq<Row>, asstObj: ObjId, ids: seq<Int64>)
    ensures var valid := ValidIds(rows, asstObj, ids);
      && AttrIds(Str(JoinIds(valid))) == Ok(valid)
      && ValidIds(rows, asstObj, valid) == valid
  {
    RewrittenValueReadsBack(ValidIds(rows, asstObj, ids));
    ValidIdsIdempotent(rows, asstObj, ids);
  }

  /** Two states that differ at most in the (obj, cur, asstObj) triple and in the
      value of attribute id, which the second may hold already rewritten. */
  ghost predicate Close(rows: seq<Row>, obj: ObjId, cur: Int64, asstObj: ObjId, id: string, p: SyncState, q: SyncState) {
    && p.values.Keys == q.values.Keys
    && (forall k :: k in p.values && k != id ==> p.values[k] == q.values[k])
    && (forall e: Edge :: e.objId != obj || e.instId != cur || e.asstObjId != asstObj ==>
          (e in p.edges <==> e in q.edges))
    && (id in p.values ==>
          (p.values[id] == q.values[id] ||
           (AttrIds(p.values[id]).Ok? &&
            q.values[id] == Str(JoinIds(ValidIds(rows, asstObj, AttrIds(p.values[id]).value))))))
  }

  /** The attribute id itself, synchronized from either of two close states,
      reaches the same state. */
  lemma CloseSameId(rows: seq<Row>, assts: seq<AsstDef>, obj: ObjId, cur: Int64, y: Attr, p: SyncState, q: SyncState)
    requires y.isAssociation && y.id in p.values && FirstDef(assts, y.id).Some?
    requires Close(rows, obj, cur, FirstDef(assts, y.id).value.asstObjId, y.id, p, q)
    requires SyncAttr(rows, assts, obj, cur, y, p).Ok?
    ensures SyncAttr(rows, assts, obj, cur, y, q) == SyncAttr(rows, assts, obj, cur, y, p)
  {
    var d := FirstDef(assts, y.id).value;
    var ids := AttrIds(p.values[y.id]).value;
    var valid := ValidIds(rows, d.asstObjId, ids);
    ReadRewritten(rows, d.asstObjId, ids);
    var qids := AttrIds(q.values[y.id]).value;
    assert ValidIds(rows, d.asstObjId, qids) == valid;
    var p1 := SyncAttr(rows, assts, obj, cur, y, p).value;
    var q1 := SyncAttr(rows, assts, obj, cur, y, q).value;
    assert p1.edges == p.edges - Triple(p.edges, obj, cur, d.asstObjId) + NewEdges(obj, cur, d.asstObjId, valid);
    assert q1.edges == q.edges - Triple(q.edges, obj, cur, d.asstObjId) + NewEdges(obj, cur, d.asstObjId, valid);
    assert p.edges - Triple(p.edges, obj, cur, d.asstObjId) == q.edges - Triple(q.edges, obj, cur, d.asstObjId);
    assert q1.values == p1.values;
  }

  /** Any other attribute keeps two states close. */
  lemma CloseOtherId(rows: seq<Row>, assts: seq<AsstDef>, obj: ObjId, cur: Int64, asstObj: ObjId, id: string,
                     y: Attr, p: SyncState, q: SyncState)
    requires y.id != id
    requires Close(rows, obj, cur, asstObj, id, p, q)
    requires SyncAttr(rows, assts, obj, cur, y, p).Ok?
    ensures SyncAttr(rows, assts, obj, cur, y, q).Ok?
    ensures Close(rows, obj, cur, asstObj, id,
                  SyncAttr(rows, assts, obj, cur, y, p).value, SyncAttr(rows, assts, obj, cur, y, q).value)
  {
    if y.isAssociation && y.id in p.values {
      assert q.values[y.id] == p.values[y.id];
    }
  }

  /** Closeness survives one attribute, and the attribute id itself makes the two
      states equal again. */
  lemma CloseStep(rows: seq<Row>, assts: seq<AsstDef>, obj: ObjId, cur: Int64, id: string, y: Attr,
                  p: SyncState, q: SyncState)
    requires FirstDef(assts, id).Some?
    requires Close(rows, obj, cur, FirstDef(assts, id).value.asstObjId, id, p, q)
    requires SyncAttr(rows, assts, obj, cur, y, p).Ok?
    ensures var p1 := SyncAttr(rows, assts, obj, cur, y, p);
      var q1 := SyncAttr(rows, assts, obj, cur, y, q);
      && q1.Ok?
      && Close(rows, obj, cur, FirstDef(assts, id).value.asstObjId, id, p1.value, q1.value)
      && (y.isAssociation && y.id == id && id in p.values ==> q1 == p1)
  {
    if y.id != id {
      CloseOtherId(rows, assts, obj, cur, FirstDef(assts, id).value.asstObjId, id, y, p, q);
    } else if y.isAssociation && id in p.values {
      CloseSameId(rows, assts, obj, cur, y, p, q);
    }
  }

  /** Closeness survives a whole run. */
  lemma {:induction false} CloseRun(rows: seq<Row>, assts: seq<AsstDef>, obj: ObjId, cur: Int64, id: string,
                                    attrs: seq<Attr>, p: SyncState, q: SyncState)
    requires FirstDef(assts, id).Some?
    requires Close(rows, obj, cur, FirstDef(assts, id).value.asstObjId, id, p, q)
    requires SyncAll(rows, assts, obj, cur, attrs, p).err.None?
    ensures SyncAll(rows, assts, obj, cur, attrs, q).err.None?
    ensures Close(rows, obj, cur, FirstDef(assts, id).value.asstObjId, id,
                  SyncAll(rows, assts, obj, cur, attrs, p).state, SyncAll(rows, assts, obj, cur, attrs, q).state)
  {
    if attrs != [] {
      var init := attrs[..|attrs| - 1];
      CloseRun(rows, assts, obj, cur, id, init, p, q);
      CloseStep(rows, assts, obj, cur, id, attrs[|attrs| - 1],
                SyncAll(rows, assts, obj, cur, init, p).state, SyncAll(rows, assts, obj, cur, init, q).state);
    }
  }

  /** setInstAsst run a second time over the same attributes changes nothing: the
      edges and values it reached are a fixed point of the whole run. */
  lemma {:induction false} SyncAllIdempotent(rows: seq<Row>, assts: seq<AsstDef>, obj: ObjId, cur: Int64,
                                             attrs: seq<Attr>, s: SyncState)
    requires SyncAll(rows, assts, obj, cur, attrs, s).err.None?
    ensures var s1 := SyncAll(rows, assts, obj, cur, attrs, s).state;
      SyncAll(rows, assts, obj, cur, attrs, s1) == SyncOutcome(s1, None)
  {
    if attrs != [] {
      var init := attrs[..|attrs| - 1];
      var x := attrs[|attrs| - 1];
      var p := SyncAll(rows, assts, obj, cur, init, s).state;
      SyncAllIdempotent(rows, assts, obj, cur, init, s);
      var s1 := SyncAttr(rows, assts, obj, cur, x, p).value;
      if x.isAssociation && x.id in p.values && FirstDef(assts, x.id).Some? {
        assert Close(rows, obj, cur, FirstDef(assts, x.id).value.asstObjId, x.id, p, s1);
        CloseRun(rows, assts, obj, cur, x.id, init, p, s1);
        var q := SyncAll(rows, assts, obj, cur, init, s1).state;
        CloseStep(rows, assts, obj, cur, x.id, x, p, q);
      }
    }
  }

  /** After a run, each value is either as it was or the rewritten form of what it
      was. */
  ghost predicate Settled(rows: seq<Row>, assts: seq<AsstDef>, s: SyncState, p: SyncState) {
    && p.values.Keys == s.values.Keys
    && forall k :: k in s.values ==> (p.values[k] == s.values[k] ||
         (FirstDef(assts, k).Some? && AttrIds(s.values[k]).Ok? &&
          p.values[k] == Str(JoinIds(ValidIds(rows, FirstDef(assts, k).value.asstObjId, AttrIds(s.values[k]).value)))))
  }

  lemma {:induction false} SettledRun(rows: seq<Row>, assts: seq<AsstDef>, obj: ObjId, cur: Int64,
                                      attrs: seq<Attr>, s: SyncState)
    requires SyncAll(rows, assts, obj, cur, attrs, s).err.None?
    ensures Settled(rows, assts, s, SyncAll(rows, assts, obj, cur, attrs, s).state)
  {
    if attrs != [] {
      var init := attrs[..|attrs| - 1];
      var y := attrs[|attrs| - 1];
      var p := SyncAll(rows, assts, obj, cur, init, s).state;
      SettledRun(rows, assts, obj, cur, init, s);
      if y.isAssociation && y.id in p.values && FirstDef(assts, y.id).Some? && p.values[y.id] != s.values[y.id] {
        var d := FirstDef(assts, y.id).value;
        ReadRewritten(rows, d.asstObjId, AttrIds(s.values[y.id]).value);
      }
    }
  }

  /** An attribute that does not link to asstObj keeps that triple, and the value of
      any attribute that does. */
  lemma SyncAttrKeepsTriple(rows: seq<Row>, assts: seq<AsstDef>, obj: ObjId, cur: Int64, y: Attr, p: SyncState,
                            asstObj: ObjId, id: string)
    requires SyncAttr(rows, assts, obj, cur, y, p).Ok?
    requires y.isAssociation && y.id in p.values && FirstDef(assts, y.id).Some? ==>
      FirstDef(assts, y.id).value.asstObjId != asstObj
    requires id in p.values && FirstDef(assts, id).Some? && FirstDef(assts, id).value.asstObjId == asstObj
    ensures var p1 := SyncAttr(rows, assts, obj, cur, y, p).value;
      && Triple(p1.edges, obj, cur, asstObj) == Triple(p.edges, obj, cur, asstObj)
      && p1.values[id] == p.values[id]
  {
  }

  /** The edge set after setInstAsst, attribute by attribute: an association
      attribute with a definition, which no later linking attribute of the same
      target kind overrides, leaves exactly the edges to its valid ids in its
      triple, and its value reads back as those ids. */
  lemma {:induction false} SyncAllEffect(rows: seq<Row>, assts: seq<AsstDef>, obj: ObjId, cur: Int64,
                                         attrs: seq<Attr>, s: SyncState, i: nat)
    requires SyncAll(rows, assts, obj, cur, attrs, s).err.None?
    requires i < |attrs| && attrs[i].isAssociation && attrs[i].id in s.values && FirstDef(assts, attrs[i].id).Some?
    requires forall j :: (i < j < |attrs| && attrs[j].isAssociation && attrs[j].id in s.values &&
                          FirstDef(assts, attrs[j].id).Some?) ==>
      FirstDef(assts, attrs[j].id).value.asstObjId != FirstDef(assts, attrs[i].id).value.asstObjId
    ensures AttrIds(s.values[attrs[i].id]).Ok?
    ensures var asstObj := FirstDef(assts, attrs[i].id).value.asstObjId;
      var valid := ValidIds(rows, asstObj, AttrIds(s.values[attrs[i].id]).value);
      var out := SyncAll(rows, assts, obj, cur, attrs, s).state;
      && attrs[i].id in out.values
      && Triple(out.edges, obj, cur, asstObj) == NewEdges(obj, cur, asstObj, valid)
      && out.values[attrs[i].id] == Str(JoinIds(valid))
      && AttrIds(out.values[attrs[i].id]) == Ok(valid)
    decreases |attrs|
  {
    var n := |attrs| - 1;
    var init := attrs[..n];
    var x := attrs[n];
    var id := attrs[i].id;
    var asstObj := FirstDef(assts, id).value.asstObjId;
    var p := SyncAll(rows, assts, obj, cur, init, s).state;
    SyncAllKeepsOthers(rows, assts, obj, cur, init, s);
    if i == n {
      SettledRun(rows, assts, obj, cur, init, s);
      var ids := AttrIds(p.values[id]).value;
      if p.values[id] != s.values[id] {
        ReadRewritten(rows, asstObj, AttrIds(s.values[id]).value);
      }
      assert ValidIds(rows, asstObj, ids) == ValidIds(rows, asstObj, AttrIds(s.values[id]).value);
      SyncAttrEffect(rows, assts, obj, cur, x, p);
    } else {
      assert init[i] == attrs[i];
      SyncAllEffect(rows, assts, obj, cur, init, s, i);
      SyncAttrKeepsTriple(rows, assts, obj, cur, x, p, asstObj, id);
    }
  }

  /** The ids loop of one attribute value. */
  method ReadIds(v: Value) returns (r: Result<seq<Int64>>)
    ensures r == AttrIds(v)
  {
    match v {
      case Str(s) =>
        r := ParseInstIds(Split(s, InstAsstIdSplit));
      case Refs(refs) =>
        var ids: seq<Int64> := [];
        var k := 0;
        while k < |refs|
          invariant 0 <= k <= |refs|
          invariant |ids| == k && forall j :: 0 <= j < k ==> ids[j] == refs[j].instId
        {
          ids := ids + [refs[k].instId];
          k := k + 1;
        }
        assert ids == seq(|refs|, k requires 0 <= k < |refs| => refs[k].instId);
        r := Ok(ids);
      case _ =>
        r := Ok([]);
    }
  }

  /** The search for the attribute's first association definition. */
  method FindDef(assts: seq<AsstDef>, attId: string) returns (r: Option<AsstDef>)
    ensures r == FirstDef(assts, attId)
  {
    var j := 0;
    while j < |assts|
      invariant 0 <= j <= |assts|
      invariant forall k :: 0 <= k < j ==> assts[k].attId != attId
    {
      if assts[j].attId == attId {
        return Some(assts[j]);
      }
      j := j + 1;
    }
    r := None;
  }

  /** One more id through the filter. */
  lemma ValidIdsStep(rows: seq<Row>, asstObj: ObjId, ids: seq<Int64>, k: nat)
    requires k < |ids|
    ensures ValidIds(rows, asstObj, ids[..k + 1]) ==
      if IsValidInstID(rows, asstObj, ids[k]) then ValidIds(rows, asstObj, ids[..k]) + [ids[k]]
      else ValidIds(rows, asstObj, ids[..k])
  {
    assert ids[..k + 1][..k] == ids[..k];
  }

  /** One more id written in decimal. */
  lemma IdTokensStep(ids: seq<Int64>, x: Int64)
    ensures IdTokens(ids + [x]) == IdTokens(ids) + [FormatInt(x)]
  {
    assert (ids + [x])[..|ids|] == ids;
  }

  /** One more edge to a target. */
  lemma NewEdgesStep(obj: ObjId, cur: Int64, asstObj: ObjId, targets: seq<Int64>, x: Int64)
    ensures NewEdges(obj, cur, asstObj, targets + [x]) == NewEdges(obj, cur, asstObj, targets) + {Edge(obj, cur, asstObj, x)}
  {
  }

  /** The link loop: drop the triple's edges, then add one edge per valid id and
      collect the decimal forms of the valid ids. */
  method Relink(st: Store, obj: ObjId, cur: Int64, asstObj: ObjId, ids: seq<Int64>) returns (joined: string)
    modifies st`edges
    ensures var valid := ValidIds(st.rows, asstObj, ids);
      && st.edges == old(st.edges) - Triple(old(st.edges), obj, cur, asstObj) + NewEdges(obj, cur, asstObj, valid)
      && joined == JoinIds(valid)
  {
    var rows := st.rows;
    var edges := st.edges - Triple(st.edges, obj, cur, asstObj);
    ghost var base := edges;
    var valid: seq<Int64> := [];
    var validStrs: seq<string> := [];
    var k := 0;
    while k < |ids|
      invariant 0 <= k <= |ids|
      invariant valid == ValidIds(rows, asstObj, ids[..k])
      invariant validStrs == IdTokens(valid)
      invariant edges == base + NewEdges(obj, cur, asstObj, valid)
    {
      ValidIdsStep(rows, asstObj, ids, k);
      if IsValidInstID(rows, asstObj, ids[k]) {
        IdTokensStep(valid, ids[k]);
        NewEdgesStep(obj, cur, asstObj, valid, ids[k]);
        valid := valid + [ids[k]];
        validStrs := validStrs + [FormatInt(ids[k])];
        edges := edges + {Edge(obj, cur, asstObj, ids[k])};
      }
      k := k + 1;
    }
    assert ids[..k] == ids;
    st.edges := edges;
    joined := Join(validStrs, InstAsstIdSplit);
  }

  /** The synchronization of one attribute. */
  method SyncAttribute(st: Store, inst: Instance, assts: seq<AsstDef>, cur: Int64, attr: Attr)
    returns (err: Option<Err>)
    modifies st`edges, inst`values
    ensures match SyncAttr(st.rows, assts, inst.obj, cur, attr, SyncState(old(st.edges), old(inst.values)))
      case Fail(e) => err == Some(e) && st.edges == old(st.edges) && inst.values == old(inst.values)
      case Ok(s) => err == None && st.edges == s.edges && inst.values == s.values
  {
    if !attr.isAssociation || attr.id !in inst.values {
      return None;
    }
    var ids := ReadIds(inst.values[attr.id]);
    if ids.Fail? {
      return Some(ids.error);
    }
    var d := FindDef(assts, attr.id);
    if d.None? {
      return None;
    }
    var joined := Relink(st, inst.obj, cur, d.value.asstObjId, ids.value);
    inst.values := inst.values[attr.id := Str(joined)];
    err := None;
  }

  /** setInstAsst: read the instance's id, then synchronize every attribute of its
      kind in order, stopping at the first error. */
  method SetInstAsst(st: Store, inst: Instance, attrs: seq<Attr>) returns (err: Option<Err>)
    modifies st`edges, inst`values
    ensures var cur := InstIdOf(inst.obj, old(inst.values));
      if cur.Fail? then err == Some(cur.error) && st.edges == old(st.edges) && inst.values == old(inst.values)
      else SyncAll(st.rows, AssociationsOf(st.defs, inst.obj), inst.obj, cur.value, attrs,
                   SyncState(old(st.edges), old(inst.values)))
           == SyncOutcome(SyncState(st.edges, inst.values), err)
  {
    var cur := InstIdOf(inst.obj, inst.values);
    if cur.Fail? {
      return Some(cur.error);
    }
    var id := cur.value;
    var assts := AssociationsOf(st.defs, inst.obj);
    ghost var s0 := SyncState(st.edges, inst.values);
    var i := 0;
    while i < |attrs|
      invariant 0 <= i <= |attrs|
      invariant SyncAll(st.rows, assts, inst.obj, id, attrs[..i], s0) == SyncOutcome(SyncState(st.edges, inst.values), None)
    {
      assert attrs[..i + 1][..i] == attrs[..i];
      var e := SyncAttribute(st, inst, assts, id, attrs[i]);
      if e.Some? {
        SyncAllFailureStays(st.rows, assts, inst.obj, id, attrs, s0, i + 1);
        return e;
      }
      i := i + 1;
    }
    assert attrs[..i] == attrs;
    err := None;
  }
}
