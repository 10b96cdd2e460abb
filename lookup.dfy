/** Base instance lookup: the id-list codec of association attributes, the
    reference validator, the resolution of an id list into descriptors, and
    FindInst with its association-field expansion. */
module Lookup {
  import opened Common
  import opened Text
  import opened Store

  // ---------------------------------------------------------------------------
  // Id lists

  /** The id-list parse shared by the synchronizer and the expansion: blank tokens
      are skipped, every other token must be a decimal int64, and the first one
      that is not aborts the parse. */
  function ParseIdTokens(toks: seq<string>): Result<seq<Int64>>
  {
    if toks == [] then Ok([])
    else match ParseIdTokens(toks[..|toks| - 1])
      case Fail(e) => Fail(e)
      case Ok(ids) =>
        var t := toks[|toks| - 1];
        if IsBlank(t) then Ok(ids)
        else match ParseInt64(t)
          case None => Fail(ParseFailed(t))
          case Some(x) => Ok(ids + [x])
  }

  /** Once a prefix of the tokens fails, the whole list fails with the same error. */
  lemma {:induction false} ParseFailureStays(toks: seq<string>, n: nat)
    requires n <= |toks| && ParseIdTokens(toks[..n]).Fail?
    ensures ParseIdTokens(toks) == ParseIdTokens(toks[..n])
    decreases |toks|
  {
    if n < |toks| {
      var init := toks[..|toks| - 1];
      assert init[..n] == toks[..n];
      ParseFailureStays(init, n);
    } else {
      assert toks[..n] == toks;
    }
  }

  /** The parse succeeds exactly when every non-blank token is a decimal int64;
      a failure names the first token that is not. */
  lemma {:induction false} ParseIdTokensOutcome(toks: seq<string>)
    ensures ParseIdTokens(toks).Ok? <==>
      forall j :: 0 <= j < |toks| ==> IsBlank(toks[j]) || ParseInt64(toks[j]).Some?
    ensures ParseIdTokens(toks).Fail? ==> exists j :: (0 <= j < |toks|
      && ParseIdTokens(toks).error == ParseFailed(toks[j])
      && !IsBlank(toks[j]) && ParseInt64(toks[j]).None?
      && forall i :: 0 <= i < j ==> IsBlank(toks[i]) || ParseInt64(toks[i]).Some?)
  {
    if toks != [] {
      var init := toks[..|toks| - 1];
      ParseIdTokensOutcome(init);
      assert forall j :: 0 <= j < |init| ==> init[j] == toks[j];
    }
  }

  /** The token list of ids written in decimal. */
  function IdTokens(ids: seq<Int64>): (toks: seq<string>)
    ensures |toks| == |ids|
  {
    if ids == [] then [] else IdTokens(ids[..|ids| - 1]) + [FormatInt(ids[|ids| - 1])]
  }

  /** Every token is the decimal form of the id at the same position. */
  lemma {:induction false} IdTokensAt(ids: seq<Int64>)
    ensures forall k :: 0 <= k < |ids| ==> IdTokens(ids)[k] == FormatInt(ids[k])
  {
    if ids != [] {
      IdTokensAt(ids[..|ids| - 1]);
    }
  }

  /** strings.Join of the decimal forms: the value an association attribute is rewritten to. */
  function JoinIds(ids: seq<Int64>): string {
    Join(IdTokens(ids), InstAsstIdSplit)
  }

  lemma {:induction false} ParseIdTokensOfFormatted(ids: seq<Int64>)
    ensures ParseIdTokens(IdTokens(ids)) == Ok(ids)
  {
    if ids != [] {
      var n := |ids|;
      var init, last := ids[..n - 1], ids[n - 1];
      var toks := IdTokens(ids);
      assert toks == IdTokens(init) + [FormatInt(last)];
      assert toks[..n - 1] == IdTokens(init) && toks[n - 1] == FormatInt(last);
      ParseIdTokensOfFormatted(init);
      FormatIntRoundTrip(last, InstAsstIdSplit);
      assert init + [last] == ids;
    }
  }

  /** Writing an id list and parsing it back gives the same ids, in the same order. */
  lemma IdListRoundTrip(ids: seq<Int64>)
    ensures ParseIdTokens(Split(JoinIds(ids), InstAsstIdSplit)) == Ok(ids)
  {
    if ids == [] {
      assert Split(JoinIds(ids), InstAsstIdSplit) == [""];
      assert IsBlank("");
    } else {
      var toks := IdTokens(ids);
      IdTokensAt(ids);
      forall k | 0 <= k < |toks| ensures InstAsstIdSplit !in toks[k] {
        FormatIntToken(ids[k], InstAsstIdSplit);
      }
      SplitJoin(toks, InstAsstIdSplit);
      ParseIdTokensOfFormatted(ids);
    }
  }

  /** The token loop of setInstAsst and convertInstIDIntoStruct. */
  method ParseInstIds(toks: seq<string>) returns (r: Result<seq<Int64>>)
    ensures r == ParseIdTokens(toks)
  {
    var ids: seq<Int64> := [];
    var j := 0;
    while j < |toks|
      invariant 0 <= j <= |toks|
      invariant ParseIdTokens(toks[..j]) == Ok(ids)
    {
      assert toks[..j + 1][..j] == toks[..j];
      if !IsBlank(toks[j]) {
        var p := ParseInt64(toks[j]);
        if p.None? {
          ParseFailureStays(toks, j + 1);
          return Fail(ParseFailed(toks[j]));
        }
        ids := ids + [p.value];
      }
      j := j + 1;
    }
    assert toks[..j] == toks;
    r := Ok(ids);
  }

  // ---------------------------------------------------------------------------
  // Reference validator

  /** The lookup condition of isValidInstID: the id, and the kind for a common kind. */
  function ValidCond(obj: ObjId, id: Int64): Cond {
    if IsCommon(obj) then map[InstIdFieldOf(obj) := Is(Int(id)), ObjIdField := Is(Str(obj))]
    else map[InstIdFieldOf(obj) := Is(Int(id))]
  }

  /** isValidInstID: the store reports at least one record for the lookup. */
  predicate IsValidInstID(rows: seq<Row>, obj: ObjId, id: Int64) {
    |Query(rows, ObjectType(obj), ValidCond(obj, id))| > 0
  }

  /** An id is valid exactly when its kind's collection holds a record with that id,
      which for a common kind also carries the kind id. */
  lemma ValidInstIDMeaning(rows: seq<Row>, obj: ObjId, id: Int64)
    ensures IsValidInstID(rows, obj, id) <==> exists i :: (0 <= i < |rows|
      && rows[i].table == ObjectType(obj) && InstIdOf(obj, rows[i].rec) == Ok(id)
      && (IsCommon(obj) ==> ObjIdField in rows[i].rec && rows[i].rec[ObjIdField] == Str(obj)))
  {
    var found := Query(rows, ObjectType(obj), ValidCond(obj, id));
    var c := ValidCond(obj, id);
    QueryMeaning(rows, ObjectType(obj), c);
    if |found| > 0 {
      assert found[0] in found;
      var i :| 0 <= i < |rows| && rows[i] == Row(ObjectType(obj), found[0]) && Matches(found[0], c);
      assert FieldMatches(found[0], InstIdFieldOf(obj), c[InstIdFieldOf(obj)]);
      if IsCommon(obj) {
        assert FieldMatches(found[0], ObjIdField, c[ObjIdField]);
      }
    }
    if exists i :: (0 <= i < |rows|
      && rows[i].table == ObjectType(obj) && InstIdOf(obj, rows[i].rec) == Ok(id)
      && (IsCommon(obj) ==> ObjIdField in rows[i].rec && rows[i].rec[ObjIdField] == Str(obj)))
    {
      var i :| 0 <= i < |rows|
        && rows[i].table == ObjectType(obj) && InstIdOf(obj, rows[i].rec) == Ok(id)
        && (IsCommon(obj) ==> ObjIdField in rows[i].rec && rows[i].rec[ObjIdField] == Str(obj));
      assert Matches(rows[i].rec, c);
      assert rows[i].rec in found;
    }
  }

  // ---------------------------------------------------------------------------
  // Id list to descriptors (convertInstIDIntoStruct)

  /** The descriptor of one found record of the given kind. */
  function Descriptor(kind: Kind, id: Int64, name: string, rec: Record, detail: bool): InstNameAsst {
    InstNameAsst("", kind.id, kind.name, kind.icon, id, name, if detail then Some(rec) else None)
  }

  /** One descriptor per record, in order; a record whose name or id cannot be read fails. */
  function Describe(kind: Kind, recs: seq<Record>, detail: bool): Result<seq<InstNameAsst>>
  {
    if recs == [] then Ok([])
    else match Describe(kind, recs[..|recs| - 1], detail)
      case Fail(e) => Fail(e)
      case Ok(ds) =>
        var rec := recs[|recs| - 1];
        match InstNameOf(kind.id, rec)
        case Fail(e) => Fail(e)
        case Ok(name) =>
          match InstIdOf(kind.id, rec)
          case Fail(e) => Fail(e)
          case Ok(id) => Ok(ds + [Descriptor(kind, id, name, rec, detail)])
  }

  lemma {:induction false} DescribeFailureStays(kind: Kind, recs: seq<Record>, n: nat, detail: bool)
    requires n <= |recs| && Describe(kind, recs[..n], detail).Fail?
    ensures Describe(kind, recs, detail) == Describe(kind, recs[..n], detail)
    decreases |recs|
  {
    if n < |recs| {
      var init := recs[..|recs| - 1];
      assert init[..n] == recs[..n];
      DescribeFailureStays(kind, init, n, detail);
    } else {
      assert recs[..n] == recs;
    }
  }

  /** A successful description has one descriptor per record, carrying that record's
      id and name, and the record itself exactly when detail is requested. */
  lemma {:induction false} DescribeMeaning(kind: Kind, recs: seq<Record>, detail: bool)
    requires Describe(kind, recs, detail).Ok?
    ensures var ds := Describe(kind, recs, detail).value;
      && |ds| == |recs|
      && forall k :: 0 <= k < |ds| ==>
        && InstIdOf(kind.id, recs[k]) == Ok(ds[k].instId)
        && InstNameOf(kind.id, recs[k]) == Ok(ds[k].instName)
        && ds[k].objId == kind.id && ds[k].objName == kind.name && ds[k].objIcon == kind.icon
        && ds[k].instInfo == (if detail then Some(recs[k]) else None)
  {
    if recs != [] {
      var init := recs[..|recs| - 1];
      var last := recs[|recs| - 1];
      DescribeMeaning(kind, init, detail);
      var prev := Describe(kind, init, detail).value;
      var id := InstIdOf(kind.id, last).value;
      var name := InstNameOf(kind.id, last).value;
      assert Describe(kind, recs, detail).value == prev + [Descriptor(kind, id, name, last, detail)];
      assert forall k :: 0 <= k < |init| ==> init[k] == recs[k];
    }
  }

  /** The store condition convertInstIDIntoStruct looks the targets up with. */
  function TargetCond(kind: Kind, ids: seq<Int64>): Cond {
    map[InstIdFieldOf(kind.id) := Op(DbIn, IdSet(set x | x in ids))]
  }

  /** convertInstIDIntoStruct: resolve an id list into descriptors of the records
      actually found in the target kind's collection. */
  function ConvertInstIds(rows: seq<Row>, kinds: map<ObjId, Kind>, asstObjId: ObjId,
                          toks: seq<string>, detail: bool): Result<seq<InstNameAsst>>
  {
    if asstObjId !in kinds then Fail(ObjectNotFound(asstObjId))
    else
      var kind := kinds[asstObjId];
      match ParseIdTokens(toks)
      case Fail(e) => Fail(e)
      case Ok(ids) => Describe(kind, Query(rows, ObjectType(kind.id), TargetCond(kind, ids)), detail)
  }

  /** Every descriptor stands for a stored record of the target kind whose id was in
      the list, and carries the full record exactly when detail is requested. */
  lemma ConvertInstIdsSound(rows: seq<Row>, kinds: map<ObjId, Kind>, asstObjId: ObjId,
                            toks: seq<string>, detail: bool)
    requires ConvertInstIds(rows, kinds, asstObjId, toks, detail).Ok?
    ensures asstObjId in kinds && ParseIdTokens(toks).Ok?
    ensures var kind := kinds[asstObjId];
      var ids := ParseIdTokens(toks).value;
      var ds := ConvertInstIds(rows, kinds, asstObjId, toks, detail).value;
      forall k :: 0 <= k < |ds| ==>
        && ds[k].instId in ids && ds[k].objId == kind.id
        && (ds[k].instInfo.Some? <==> detail)
        && exists i :: 0 <= i < |rows| && rows[i].table == ObjectType(kind.id)
             && InstIdOf(kind.id, rows[i].rec) == Ok(ds[k].instId)
  {
    var kind := kinds[asstObjId];
    var ids := ParseIdTokens(toks).value;
    var c := TargetCond(kind, ids);
    var found := Query(rows, ObjectType(kind.id), c);
    var ds := ConvertInstIds(rows, kinds, asstObjId, toks, detail).value;
    QueryMeaning(rows, ObjectType(kind.id), c);
    DescribeMeaning(kind, found, detail);
    forall k | 0 <= k < |ds|
      ensures ds[k].instId in ids
      ensures exists i :: 0 <= i < |rows| && rows[i].table == ObjectType(kind.id)
               && InstIdOf(kind.id, rows[i].rec) == Ok(ds[k].instId)
    {
      assert found[k] in found;
      assert FieldMatches(found[k], InstIdFieldOf(kind.id), c[InstIdFieldOf(kind.id)]);
    }
  }

  /** Every stored record of the target kind whose id is in the list is described;
      ids without a record are silently left out. */
  lemma ConvertInstIdsComplete(rows: seq<Row>, kinds: map<ObjId, Kind>, asstObjId: ObjId,
                               toks: seq<string>, detail: bool)
    requires ConvertInstIds(rows, kinds, asstObjId, toks, detail).Ok?
    ensures asstObjId in kinds && ParseIdTokens(toks).Ok?
    ensures var kind := kinds[asstObjId];
      var ids := ParseIdTokens(toks).value;
      var ds := ConvertInstIds(rows, kinds, asstObjId, toks, detail).value;
      forall i :: (0 <= i < |rows| && rows[i].table == ObjectType(kind.id)
          && InstIdOf(kind.id, rows[i].rec).Ok? && InstIdOf(kind.id, rows[i].rec).value in ids) ==>
          exists k :: 0 <= k < |ds| && ds[k].instId == InstIdOf(kind.id, rows[i].rec).value
  {
    var kind := kinds[asstObjId];
    var ids := ParseIdTokens(toks).value;
    var c := TargetCond(kind, ids);
    var found := Query(rows, ObjectType(kind.id), c);
    var ds := ConvertInstIds(rows, kinds, asstObjId, toks, detail).value;
    QueryMeaning(rows, ObjectType(kind.id), c);
    DescribeMeaning(kind, found, detail);
    forall i | 0 <= i < |rows| && rows[i].table == ObjectType(kind.id)
        && InstIdOf(kind.id, rows[i].rec).Ok? && InstIdOf(kind.id, rows[i].rec).value in ids
      ensures exists k :: 0 <= k < |ds| && ds[k].instId == InstIdOf(kind.id, rows[i].rec).value
    {
      assert Matches(rows[i].rec, c);
      assert rows[i].rec in found;
      var k :| 0 <= k < |found| && found[k] == rows[i].rec;
      assert ds[k].instId == InstIdOf(kind.id, rows[i].rec).value;
    }
  }

  /** The descriptor loop of convertInstIDIntoStruct. */
  method DescribeFound(kind: Kind, found: seq<Record>, detail: bool) returns (r: Result<seq<InstNameAsst>>)
    ensures r == Describe(kind, found, detail)
  {
    var ds: seq<InstNameAsst> := [];
    var k := 0;
    while k < |found|
      invariant 0 <= k <= |found|
      invariant Describe(kind, found[..k], detail) == Ok(ds)
    {
      assert found[..k + 1][..k] == found[..k];
      var rec := found[k];
      var name := InstNameOf(kind.id, rec);
      if name.Fail? {
        DescribeFailureStays(kind, found, k + 1, detail);
        return Fail(name.error);
      }
      var id := InstIdOf(kind.id, rec);
      if id.Fail? {
        DescribeFailureStays(kind, found, k + 1, detail);
        return Fail(id.error);
      }
      ds := ds + [Descriptor(kind, id.value, name.value, rec, detail)];
      k := k + 1;
    }
    assert found[..k] == found;
    r := Ok(ds);
  }

  /** convertInstIDIntoStruct: the kind lookup, the id parse, the target query and
      the descriptors. */
  method ConvertInstIdIntoStruct(st: Store, asstObjId: ObjId, toks: seq<string>, detail: bool)
    returns (r: Result<seq<InstNameAsst>>)
    ensures r == ConvertInstIds(st.rows, st.kinds, asstObjId, toks, detail)
  {
    if asstObjId !in st.kinds {
      return Fail(ObjectNotFound(asstObjId));
    }
    var kind := st.kinds[asstObjId];
    var parsed := ParseInstIds(toks);
    if parsed.Fail? {
      return Fail(parsed.error);
    }
    var found := Query(st.rows, ObjectType(kind.id), TargetCond(kind, parsed.value));
    r := DescribeFound(kind, found, detail);
  }

  // ---------------------------------------------------------------------------
  // FindInst

  /** The mainline pseudo-attributes that the expansion leaves alone. */
  predicate IsPseudoAttr(attId: string) {
    attId == ChildStr || attId == InstParentStr
  }

  /** The expansion of one association attribute of one record. */
  function ExpandAttr(rows: seq<Row>, kinds: map<ObjId, Kind>, d: AsstDef, rec: Record, detail: bool)
    : Result<Record>
  {
    if IsPseudoAttr(d.attId) || d.attId !in rec then Ok(rec)
    else match StringField(rec, d.attId)
      case Fail(e) => Fail(e)
      case Ok(s) =>
        match ConvertInstIds(rows, kinds, d.asstObjId, Split(s, ','), detail)
        case Fail(e) => Fail(e)
        case Ok(ds) => Ok(rec[d.attId := Refs(ds)])
  }

  /** The expansion of one record by the kind's association definitions, in order. */
  function ExpandRecord(rows: seq<Row>, kinds: map<ObjId, Kind>, ds: seq<AsstDef>, rec: Record, detail: bool)
    : Result<Record>
  {
    if ds == [] then Ok(rec)
    else match ExpandRecord(rows, kinds, ds[..|ds| - 1], rec, detail)
      case Fail(e) => Fail(e)
      case Ok(r) => ExpandAttr(rows, kinds, ds[|ds| - 1], r, detail)
  }

  /** The expansion of every record, in order. */
  function ExpandAll(rows: seq<Row>, kinds: map<ObjId, Kind>, ds: seq<AsstDef>, recs: seq<Record>, detail: bool)
    : Result<seq<Record>>
  {
    if recs == [] then Ok([])
    else match ExpandAll(rows, kinds, ds, recs[..|recs| - 1], detail)
      case Fail(e) => Fail(e)
      case Ok(done) =>
        match ExpandRecord(rows, kinds, ds, recs[|recs| - 1], detail)
        case Fail(e) => Fail(e)
        case Ok(r) => Ok(done + [r])
  }

  /** The store's count and the expanded records of one lookup. */
  datatype Found = Found(count: nat, recs: seq<Record>)

  /** FindInst: query the kind's collection, then expand the association attributes. */
  function FindInstSpec(rows: seq<Row>, kinds: map<ObjId, Kind>, defs: seq<AsstDef>,
                        obj: ObjId, cond: Cond, detail: bool): Result<Found>
  {
    var found := Query(rows, ObjectType(obj), cond);
    match ExpandAll(rows, kinds, AssociationsOf(defs, obj), found, detail)
    case Fail(e) => Fail(e)
    case Ok(recs) => Ok(Found(|found|, recs))
  }

  lemma {:induction false} ExpandRecordFailureStays(rows: seq<Row>, kinds: map<ObjId, Kind>, ds: seq<AsstDef>,
                                                    rec: Record, n: nat, detail: bool)
    requires n <= |ds| && ExpandRecord(rows, kinds, ds[..n], rec, detail).Fail?
    ensures ExpandRecord(rows, kinds, ds, rec, detail) == ExpandRecord(rows, kinds, ds[..n], rec, detail)
    decreases |ds|
  {
    if n < |ds| {
      var init := ds[..|ds| - 1];
      assert init[..n] == ds[..n];
      ExpandRecordFailureStays(rows, kinds, init, rec, n, detail);
    } else {
      assert ds[..n] == ds;
    }
  }

  lemma {:induction false} ExpandAllFailureStays(rows: seq<Row>, kinds: map<ObjId, Kind>, ds: seq<AsstDef>,
                                                 recs: seq<Record>, n: nat, detail: bool)
    requires n <= |recs| && ExpandAll(rows, kinds, ds, recs[..n], detail).Fail?
    ensures ExpandAll(rows, kinds, ds, recs, detail) == ExpandAll(rows, kinds, ds, recs[..n], detail)
    decreases |recs|
  {
    if n < |recs| {
      var init := recs[..|recs| - 1];
      assert init[..n] == recs[..n];
      ExpandAllFailureStays(rows, kinds, ds, init, n, detail);
    } else {
      assert recs[..n] == recs;
    }
  }

  /** One expansion step keeps the record's fields and changes at most the
      attribute it expands, which becomes the descriptors its id list resolves to. */
  lemma ExpandAttrMeaning(rows: seq<Row>, kinds: map<ObjId, Kind>, d: AsstDef, rec: Record, detail: bool)
    requires ExpandAttr(rows, kinds, d, rec, detail).Ok?
    ensures var r := ExpandAttr(rows, kinds, d, rec, detail).value;
      && r.Keys == rec.Keys
      && (forall f :: f in rec && f != d.attId ==> r[f] == rec[f])
      && (IsPseudoAttr(d.attId) || d.attId !in rec ==> r == rec)
      && (!IsPseudoAttr(d.attId) && d.attId in rec ==>
            rec[d.attId].Str?
            && ConvertInstIds(rows, kinds, d.asstObjId, Split(rec[d.attId].s, ','), detail).Ok?
            && r[d.attId] == Refs(ConvertInstIds(rows, kinds, d.asstObjId, Split(rec[d.attId].s, ','), detail).value))
  {
  }

  /** An expanded record keeps its fields; a field no (non-pseudo) association
      definition names keeps its value, and a named field that is present is
      replaced by the descriptors its id list resolves to. */
  lemma {:induction false} ExpandRecordMeaning(rows: seq<Row>, kinds: map<ObjId, Kind>, ds: seq<AsstDef>,
                                               rec: Record, detail: bool)
    requires forall a, b :: 0 <= a < b < |ds| ==> ds[a].attId != ds[b].attId
    requires ExpandRecord(rows, kinds, ds, rec, detail).Ok?
    ensures var r := ExpandRecord(rows, kinds, ds, rec, detail).value;
      && r.Keys == rec.Keys
      && (forall f :: f in rec && (forall k :: 0 <= k < |ds| ==> ds[k].attId != f || IsPseudoAttr(f)) ==>
            r[f] == rec[f])
      && (forall k :: 0 <= k < |ds| && !IsPseudoAttr(ds[k].attId) && ds[k].attId in rec ==>
            rec[ds[k].attId].Str?
            && ConvertInstIds(rows, kinds, ds[k].asstObjId, Split(rec[ds[k].attId].s, ','), detail).Ok?
            && r[ds[k].attId] ==
               Refs(ConvertInstIds(rows, kinds, ds[k].asstObjId, Split(rec[ds[k].attId].s, ','), detail).value))
  {
    if ds != [] {
      var n := |ds|;
      var init := ds[..n - 1];
      var d := ds[n - 1];
      assert forall k :: 0 <= k < n - 1 ==> init[k] == ds[k];
      ExpandRecordMeaning(rows, kinds, init, rec, detail);
      var prev := ExpandRecord(rows, kinds, init, rec, detail).value;
      ExpandAttrMeaning(rows, kinds, d, prev, detail);
      if !IsPseudoAttr(d.attId) && d.attId in rec {
        assert forall k :: 0 <= k < n - 1 ==> init[k].attId != d.attId;
        assert prev[d.attId] == rec[d.attId];
      }
    }
  }

  /** The lookup returns the store's count unchanged and one expanded record per
      matched record, in match order. */
  lemma FindInstMeaning(rows: seq<Row>, kinds: map<ObjId, Kind>, defs: seq<AsstDef>,
                        obj: ObjId, cond: Cond, detail: bool)
    requires FindInstSpec(rows, kinds, defs, obj, cond, detail).Ok?
    ensures var f := FindInstSpec(rows, kinds, defs, obj, cond, detail).value;
      var found := Query(rows, ObjectType(obj), cond);
      && f.count == |found| && |f.recs| == |found|
      && forall k :: 0 <= k < |found| ==>
           ExpandRecord(rows, kinds, AssociationsOf(defs, obj), found[k], detail) == Ok(f.recs[k])
  {
    var found := Query(rows, ObjectType(obj), cond);
    ExpandAllMeaning(rows, kinds, AssociationsOf(defs, obj), found, detail);
  }

  lemma {:induction false} ExpandAllMeaning(rows: seq<Row>, kinds: map<ObjId, Kind>, ds: seq<AsstDef>,
                                            recs: seq<Record>, detail: bool)
    requires ExpandAll(rows, kinds, ds, recs, detail).Ok?
    ensures var out := ExpandAll(rows, kinds, ds, recs, detail).value;
      |out| == |recs| && forall k :: 0 <= k < |recs| ==> ExpandRecord(rows, kinds, ds, recs[k], detail) == Ok(out[k])
  {
    if recs != [] {
      var init := recs[..|recs| - 1];
      ExpandAllMeaning(rows, kinds, ds, init, detail);
      assert forall k :: 0 <= k < |init| ==> init[k] == recs[k];
    }
  }

  /** One association attribute of one found record: a pseudo or absent attribute
      is left alone, otherwise its id list is replaced by the descriptors. */
  method ExpandOne(st: Store, d: AsstDef, rec: Record, detail: bool) returns (r: Result<Record>)
    ensures r == ExpandAttr(st.rows, st.kinds, d, rec, detail)
  {
    if IsPseudoAttr(d.attId) || d.attId !in rec {
      return Ok(rec);
    }
    var s := StringField(rec, d.attId);
    if s.Fail? {
      return Fail(s.error);
    }
    var vals := ConvertInstIdIntoStruct(st, d.asstObjId, Split(s.value, ','), detail);
    if vals.Fail? {
      return Fail(vals.error);
    }
    r := Ok(rec[d.attId := Refs(vals.value)]);
  }

  /** The expansion loop over the kind's association definitions for one record. */
  method ExpandRecordLoop(st: Store, asstDefs: seq<AsstDef>, found: Record, detail: bool) returns (r: Result<Record>)
    ensures r == ExpandRecord(st.rows, st.kinds, asstDefs, found, detail)
  {
    var rec := found;
    var j := 0;
    while j < |asstDefs|
      invariant 0 <= j <= |asstDefs|
      invariant ExpandRecord(st.rows, st.kinds, asstDefs[..j], found, detail) == Ok(rec)
    {
      assert asstDefs[..j + 1][..j] == asstDefs[..j];
      var next := ExpandOne(st, asstDefs[j], rec, detail);
      if next.Fail? {
        ExpandRecordFailureStays(st.rows, st.kinds, asstDefs, found, j + 1, detail);
        return next;
      }
      rec := next.value;
      j := j + 1;
    }
    assert asstDefs[..j] == asstDefs;
    r := Ok(rec);
  }

  /** FindInst: the store query followed by the expansion of every matched record. */
  method FindInst(st: Store, obj: ObjId, cond: Cond, detail: bool) returns (r: Result<Found>)
    ensures r == FindInstSpec(st.rows, st.kinds, st.defs, obj, cond, detail)
  {
    var found := Query(st.rows, ObjectType(obj), cond);
    var asstDefs := AssociationsOf(st.defs, obj);
    var out: seq<Record> := [];
    var idx := 0;
    while idx < |found|
      invariant 0 <= idx <= |found|
      invariant ExpandAll(st.rows, st.kinds, asstDefs, found[..idx], detail) == Ok(out)
    {
      assert found[..idx + 1][..idx] == found[..idx];
      var rec := ExpandRecordLoop(st, asstDefs, found[idx], detail);
      if rec.Fail? {
        ExpandAllFailureStays(st.rows, st.kinds, asstDefs, found, idx + 1, detail);
        return Fail(rec.error);
      }
      out := out + [rec.value];
      idx := idx + 1;
    }
    assert found[..idx] == found;
    r := Ok(Found(|found|, out));
  }

  // ---------------------------------------------------------------------------
  // searchAssociationInst

  /** The instance ids of found records, in order; a record without one fails. */
  function IdsOf(obj: ObjId, recs: seq<Record>): Result<seq<Int64>>
  {
    if recs == [] then Ok([])
    else match IdsOf(obj, recs[..|recs| - 1])
      case Fail(e) => Fail(e)
      case Ok(ids) =>
        match InstIdOf(obj, recs[|recs| - 1])
        case Fail(e) => Fail(e)
        case Ok(id) => Ok(ids + [id])
  }

  lemma {:induction false} IdsOfFailureStays(obj: ObjId, recs: seq<Record>, n: nat)
    requires n <= |recs| && IdsOf(obj, recs[..n]).Fail?
    ensures IdsOf(obj, recs) == IdsOf(obj, recs[..n])
    decreases |recs|
  {
    if n < |recs| {
      var init := recs[..|recs| - 1];
      assert init[..n] == recs[..n];
      IdsOfFailureStays(obj, init, n);
    } else {
      assert recs[..n] == recs;
    }
  }

  lemma {:induction false} IdsOfMeaning(obj: ObjId, recs: seq<Record>)
    ensures IdsOf(obj, recs).Ok? <==> forall k :: 0 <= k < |recs| ==> InstIdOf(obj, recs[k]).Ok?
    ensures IdsOf(obj, recs).Ok? ==> (|IdsOf(obj, recs).value| == |recs|
      && forall k :: 0 <= k < |recs| ==> InstIdOf(obj, recs[k]) == Ok(IdsOf(obj, recs).value[k]))
  {
    if recs != [] {
      var init := recs[..|recs| - 1];
      IdsOfMeaning(obj, init);
      assert forall k :: 0 <= k < |init| ==> init[k] == recs[k];
    }
  }

  /** searchAssociationInst: the ids of the instances of a kind that satisfy a
      plain attribute query. */
  function SearchAssociationInstSpec(rows: seq<Row>, kinds: map<ObjId, Kind>, defs: seq<AsstDef>,
                                     objId: ObjId, cond: Cond): Result<seq<Int64>>
  {
    if objId !in kinds then Fail(ObjectNotFound(objId))
    else
      var obj := kinds[objId].id;
      match FindInstSpec(rows, kinds, defs, obj, cond, false)
      case Fail(e) => Fail(e)
      case Ok(f) => IdsOf(obj, f.recs)
  }

  /** The loop of searchAssociationInst that reads the id of every found record. */
  method IdsLoop(obj: ObjId, recs: seq<Record>) returns (r: Result<seq<Int64>>)
    ensures r == IdsOf(obj, recs)
  {
    var ids: seq<Int64> := [];
    var k := 0;
    while k < |recs|
      invariant 0 <= k <= |recs|
      invariant IdsOf(obj, recs[..k]) == Ok(ids)
    {
      assert recs[..k + 1][..k] == recs[..k];
      var id := InstIdOf(obj, recs[k]);
      if id.Fail? {
        IdsOfFailureStays(obj, recs, k + 1);
        return Fail(id.error);
      }
      ids := ids + [id.value];
      k := k + 1;
    }
    assert recs[..k] == recs;
    r := Ok(ids);
  }

  method SearchAssociationInst(st: Store, objId: ObjId, cond: Cond) returns (r: Result<seq<Int64>>)
    ensures r == SearchAssociationInstSpec(st.rows, st.kinds, st.defs, objId, cond)
  {
    if objId !in st.kinds {
      return Fail(ObjectNotFound(objId));
    }
    var obj := st.kinds[objId].id;
    var f := FindInst(st, obj, cond, false);
    if f.Fail? {
      return Fail(f.error);
    }
    r := IdsLoop(obj, f.value.recs);
  }
}
