/** FindInstByAssociationInst: find the instances of a target kind from clauses
    on the target kind itself and on the kinds associated with it. Clauses on the
    target kind go straight into its condition; clauses on another kind select
    instances of that kind, and the target instances with an edge to one of them
    become an id filter. */
module AssociationQuery {
  import opened Common
  import opened Store
  import opened Lookup

  /** metadata.ConditionItem: one clause on a field. */
  datatype Clause = Clause(field: string, operator: string, value: Value)

  /** One entry of the request's condition map: a kind and its clauses. The map
      is a sequence of entries with distinct kinds, in iteration order. */
  datatype KindClauses = KindClauses(kind: ObjId, clauses: seq<Clause>)

  /** The condition built so far and the candidate target ids collected so far. */
  datatype Building = Building(cond: Cond, targets: set<Int64>)

  /** The filter a clause puts on its field. A clause other than "$eq" keeps its
      operator; an "$eq" clause on a foreign kind is a plain value, while on the
      target kind a string value is escaped (SpeceialCharChange, the parameter
      escape) and kept under "$eq". */
  function ClauseFilter(c: Clause, self: bool, escape: string -> string): Filter {
    if c.operator != DbEq then Op(c.operator, c.value)
    else if self && c.value.Str? then Op(DbEq, Str(escape(c.value.s)))
    else Is(c.value)
  }

  /** The clauses written into a condition in order; a later clause on the same
      field replaces an earlier one. */
  function ApplyClauses(cond: Cond, cs: seq<Clause>, self: bool, escape: string -> string): Cond
  {
    if cs == [] then cond
    else ApplyClauses(cond, cs[..|cs| - 1], self, escape)[cs[|cs| - 1].field := ClauseFilter(cs[|cs| - 1], self, escape)]
  }

  /** Some clause is on field f. */
  predicate Names(cs: seq<Clause>, f: string) {
    exists i :: 0 <= i < |cs| && cs[i].field == f
  }

  /** Clause i is the last one on its field. */
  predicate LastOnField(cs: seq<Clause>, i: int)
    requires 0 <= i < |cs|
  {
    forall j :: i < j < |cs| ==> cs[j].field != cs[i].field
  }

  lemma NamesSnoc(cs: seq<Clause>, f: string)
    requires cs != []
    ensures Names(cs, f) <==> Names(cs[..|cs| - 1], f) || cs[|cs| - 1].field == f
  {
    var init := cs[..|cs| - 1];
    if Names(init, f) {
      var i :| 0 <= i < |init| && init[i].field == f;
      assert cs[i] == init[i];
    }
    if Names(cs, f) && cs[|cs| - 1].field != f {
      var i :| 0 <= i < |cs| && cs[i].field == f;
      assert init[i] == cs[i];
    }
  }

  /** Writing clauses: the fields are those of the condition and of the
      clauses, and a field no clause names keeps its filter. */
  lemma {:induction false} ApplyClausesFields(cond: Cond, cs: seq<Clause>, self: bool, escape: string -> string)
    ensures var r := ApplyClauses(cond, cs, self, escape);
      && (forall f :: f in r <==> f in cond || Names(cs, f))
      && (forall f :: f in cond && !Names(cs, f) ==> r[f] == cond[f])
  {
    if cs != [] {
      var init := cs[..|cs| - 1];
      ApplyClausesFields(cond, init, self, escape);
      forall f {
        NamesSnoc(cs, f);
      }
    }
  }

  /** Writing clauses: a named field holds the filter of the last clause on it. */
  lemma {:induction false} ApplyClausesLastWins(cond: Cond, cs: seq<Clause>, self: bool, escape: string -> string)
    ensures var r := ApplyClauses(cond, cs, self, escape);
      forall i :: 0 <= i < |cs| && LastOnField(cs, i) ==>
        cs[i].field in r && r[cs[i].field] == ClauseFilter(cs[i], self, escape)
  {
    if cs != [] {
      var init := cs[..|cs| - 1];
      ApplyClausesLastWins(cond, init, self, escape);
      var r := ApplyClauses(cond, cs, self, escape);
      forall i | 0 <= i < |cs| && LastOnField(cs, i)
        ensures cs[i].field in r && r[cs[i].field] == ClauseFilter(cs[i], self, escape)
      {
        if i < |init| {
          assert init[i] == cs[i];
          assert LastOnField(init, i) by {
            forall j | i < j < |init| ensures init[j].field != init[i].field {
              assert init[j] == cs[j];
            }
          }
        }
      }
    }
  }

  /** Writing two lists of clauses is writing the first, then the second. */
  lemma {:induction false} ApplyClausesAppend(cond: Cond, a: seq<Clause>, b: seq<Clause>, self: bool, escape: string -> string)
    ensures ApplyClauses(cond, a + b, self, escape) == ApplyClauses(ApplyClauses(cond, a, self, escape), b, self, escape)
    decreases |b|
  {
    if b == [] {
      assert a + b == a;
    } else {
      assert (a + b)[..|a + b| - 1] == a + b[..|b| - 1];
      ApplyClausesAppend(cond, a, b[..|b| - 1], self, escape);
    }
  }

  /** The scope of the target condition: the supplier account, and the kind for
      a common kind (whose instances share one collection). */
  function TargetBase(obj: ObjId, owner: string): Cond {
    if IsCommon(obj) then map[OwnerField := Is(Str(owner)), ObjIdField := Is(Str(obj))]
    else map[OwnerField := Is(Str(owner))]
  }

  /** The scope of a foreign kind's condition: its kind and the supplier account
      for a common kind, nothing for a built-in one. */
  function ForeignBase(kind: ObjId, owner: string): Cond {
    if ObjectType(kind) == ObjCommon then map[ObjIdField := Is(Str(kind)), OwnerField := Is(Str(owner))]
    else map[]
  }

  /** The instances of a foreign kind its clauses select, as ids
      (searchAssociationInst). */
  function ForeignSearch(rows: seq<Row>, kinds: map<ObjId, Kind>, defs: seq<AsstDef>, owner: string,
                         escape: string -> string, kc: KindClauses): Result<seq<Int64>>
  {
    SearchAssociationInstSpec(rows, kinds, defs, kc.kind, ApplyClauses(ForeignBase(kc.kind, owner), kc.clauses, false, escape))
  }

  /** searchAssociationInst as the function the condition loop calls. */
  function Searcher(rows: seq<Row>, kinds: map<ObjId, Kind>, defs: seq<AsstDef>, owner: string,
                    escape: string -> string): KindClauses -> Result<seq<Int64>>
  {
    kc => ForeignSearch(rows, kinds, defs, owner, escape, kc)
  }

  /** SearchInstAssociation: the target instances with an edge to one of the
      given instances of a foreign kind. */
  function Candidates(edges: set<Edge>, obj: ObjId, kind: ObjId, ids: seq<Int64>): set<Int64> {
    set e | e in edges && e.objId == obj && e.asstObjId == kind && e.asstInstId in ids :: e.instId
  }

  /** One entry of the condition map: the target kind's clauses are written into
      the condition; another kind's clauses select its instances, whose
      associated target instances join the candidates. */
  function KindStep(edges: set<Edge>, obj: ObjId, owner: string, escape: string -> string,
      search: KindClauses -> Result<seq<Int64>>, b: Building, kc: KindClauses): Result<Building>
  {
    if kc.kind == obj then Ok(Building(ApplyClauses(b.cond, kc.clauses, true, escape), b.targets))
    else match search(kc)
      case Fail(e) => Fail(e)
      case Ok(ids) => Ok(Building(b.cond, b.targets + Candidates(edges, obj, kc.kind, ids)))
  }

  /** The loop over the condition map. */
  function Build(edges: set<Edge>, obj: ObjId, owner: string, escape: string -> string,
      search: KindClauses -> Result<seq<Int64>>, kcs: seq<KindClauses>): Result<Building>
  {
    if kcs == [] then Ok(Building(TargetBase(obj, owner), {}))
    else match Build(edges, obj, owner, escape, search, kcs[..|kcs| - 1])
      case Fail(e) => Fail(e)
      case Ok(b) => KindStep(edges, obj, owner, escape, search, b, kcs[|kcs| - 1])
  }

  lemma {:induction false} BuildFailureStays(edges: set<Edge>, obj: ObjId, owner: string, escape: string -> string,
      search: KindClauses -> Result<seq<Int64>>,
                                             kcs: seq<KindClauses>, n: nat)
    requires n <= |kcs| && Build(edges, obj, owner, escape, search, kcs[..n]).Fail?
    ensures Build(edges, obj, owner, escape, search, kcs) == Build(edges, obj, owner, escape, search, kcs[..n])
    decreases |kcs|
  {
    if n < |kcs| {
      var init := kcs[..|kcs| - 1];
      assert init[..n] == kcs[..n];
      BuildFailureStays(edges, obj, owner, escape, search, init, n);
    } else {
      assert kcs[..n] == kcs;
    }
  }

  /** The clauses the request puts on the target kind itself, in order. */
  function SelfClauses(kcs: seq<KindClauses>, obj: ObjId): seq<Clause>
  {
    if kcs == [] then []
    else SelfClauses(kcs[..|kcs| - 1], obj) + (if kcs[|kcs| - 1].kind == obj then kcs[|kcs| - 1].clauses else [])
  }

  /** Some entry names a kind other than the target. */
  predicate HasForeign(kcs: seq<KindClauses>, obj: ObjId) {
    exists i :: 0 <= i < |kcs| && kcs[i].kind != obj
  }

  /** The condition collected by the loop is the target's scope with the target
      kind's own clauses written over it. */
  lemma {:induction false} BuildCond(edges: set<Edge>, obj: ObjId, owner: string, escape: string -> string,
      search: KindClauses -> Result<seq<Int64>>, kcs: seq<KindClauses>)
    requires Build(edges, obj, owner, escape, search, kcs).Ok?
    ensures Build(edges, obj, owner, escape, search, kcs).value.cond
         == ApplyClauses(TargetBase(obj, owner), SelfClauses(kcs, obj), true, escape)
  {
    if kcs != [] {
      var init := kcs[..|kcs| - 1];
      BuildCond(edges, obj, owner, escape, search, init);
      var kc := kcs[|kcs| - 1];
      if kc.kind == obj {
        ApplyClausesAppend(TargetBase(obj, owner), SelfClauses(init, obj), kc.clauses, true, escape);
      } else {
        assert SelfClauses(kcs, obj) == SelfClauses(init, obj) + [];
        assert SelfClauses(init, obj) + [] == SelfClauses(init, obj);
      }
    }
  }

  /** A completed loop searched every foreign kind successfully. */
  lemma {:induction false} BuildSearched(edges: set<Edge>, obj: ObjId, owner: string, escape: string -> string,
      search: KindClauses -> Result<seq<Int64>>, kcs: seq<KindClauses>)
    requires Build(edges, obj, owner, escape, search, kcs).Ok?
    ensures forall i :: 0 <= i < |kcs| && kcs[i].kind != obj ==> search(kcs[i]).Ok?
  {
    if kcs != [] {
      var init := kcs[..|kcs| - 1];
      BuildSearched(edges, obj, owner, escape, search, init);
      assert forall i :: 0 <= i < |init| ==> init[i] == kcs[i];
    }
  }

  /** Target instance x has an edge to one of the given instances of a kind. */
  predicate Linked(edges: set<Edge>, obj: ObjId, kind: ObjId, ids: seq<Int64>, x: Int64) {
    exists e :: e in edges && e.objId == obj && e.asstObjId == kind && e.asstInstId in ids && e.instId == x
  }

  /** One step of the loop adds a foreign kind's candidates and nothing else. */
  lemma BuildTargetsStep(edges: set<Edge>, obj: ObjId, owner: string, escape: string -> string,
      search: KindClauses -> Result<seq<Int64>>, kcs: seq<KindClauses>)
    requires kcs != [] && Build(edges, obj, owner, escape, search, kcs).Ok?
    ensures var kc := kcs[|kcs| - 1];
      var prev := Build(edges, obj, owner, escape, search, kcs[..|kcs| - 1]);
      && prev.Ok?
      && forall x :: x in Build(edges, obj, owner, escape, search, kcs).value.targets <==>
           x in prev.value.targets
           || (kc.kind != obj && Linked(edges, obj, kc.kind, search(kc).value, x))
  {
  }

  /** Target instance x has an edge to an instance that the search of some
      foreign kind of the request selected. */
  predicate LinkedToSearched(edges: set<Edge>, obj: ObjId, search: KindClauses -> Result<seq<Int64>>,
                             kcs: seq<KindClauses>, x: Int64)
  {
    exists i :: 0 <= i < |kcs| && kcs[i].kind != obj && search(kcs[i]).Ok?
      && Linked(edges, obj, kcs[i].kind, search(kcs[i]).value, x)
  }

  /** The candidates of a completed loop are exactly the target instances with
      an edge to an instance that the search of some foreign kind selected. */
  lemma {:induction false} BuildTargets(edges: set<Edge>, obj: ObjId, owner: string, escape: string -> string,
                                        search: KindClauses -> Result<seq<Int64>>, kcs: seq<KindClauses>)
    requires Build(edges, obj, owner, escape, search, kcs).Ok?
    ensures forall x :: x in Build(edges, obj, owner, escape, search, kcs).value.targets <==>
      LinkedToSearched(edges, obj, search, kcs, x)
  {
    if kcs != [] {
      var init := kcs[..|kcs| - 1];
      var kc := kcs[|kcs| - 1];
      BuildTargets(edges, obj, owner, escape, search, init);
      BuildTargetsStep(edges, obj, owner, escape, search, kcs);
      var prev := Build(edges, obj, owner, escape, search, init).value.targets;
      var now := Build(edges, obj, owner, escape, search, kcs).value.targets;
      forall x ensures x in now <==> LinkedToSearched(edges, obj, search, kcs, x) {
        if x in now && x !in prev {
          var i := |kcs| - 1;
          assert kcs[i] == kc;
        }
        if x in prev {
          var i :| 0 <= i < |init| && init[i].kind != obj && search(init[i]).Ok?
            && Linked(edges, obj, init[i].kind, search(init[i]).value, x);
          assert init[i] == kcs[i];
        }
        if LinkedToSearched(edges, obj, search, kcs, x) {
          var i :| 0 <= i < |kcs| && kcs[i].kind != obj && search(kcs[i]).Ok?
            && Linked(edges, obj, kcs[i].kind, search(kcs[i]).value, x);
          if i < |init| {
            assert init[i] == kcs[i];
          }
        }
      }
    }
  }

  /** The id filter the code adds after the loop: the candidates when there are
      any; otherwise, when the request names some kind but not the target kind,
      the empty list, so that nothing matches. */
  function FinalCondAsWritten(obj: ObjId, kcs: seq<KindClauses>, b: Building): Cond {
    if b.targets != {} then b.cond[InstIdFieldOf(obj) := Op(DbIn, IdSet(b.targets))]
    else if |kcs| != 0 && !(exists i :: 0 <= i < |kcs| && kcs[i].kind == obj) then
      b.cond[InstIdFieldOf(obj) := Op(DbIn, IdSet({}))]
    else b.cond
  }

  /** The id filter as evidently intended: the empty list whenever some foreign
      kind was searched and yielded no candidates. */
  function FinalCond(obj: ObjId, kcs: seq<KindClauses>, b: Building): Cond {
    if b.targets != {} then b.cond[InstIdFieldOf(obj) := Op(DbIn, IdSet(b.targets))]
    else if HasForeign(kcs, obj) then b.cond[InstIdFieldOf(obj) := Op(DbIn, IdSet({}))]
    else b.cond
  }

  /** The condition FindInstByAssociationInst finally queries the target kind with. */
  function AssocCond(rows: seq<Row>, kinds: map<ObjId, Kind>, defs: seq<AsstDef>, edges: set<Edge>,
                     obj: ObjId, owner: string, escape: string -> string, kcs: seq<KindClauses>): Result<Cond>
  {
    match Build(edges, obj, owner, escape, Searcher(rows, kinds, defs, owner, escape), kcs)
    case Fail(e) => Fail(e)
    case Ok(b) => Ok(FinalCond(obj, kcs, b))
  }

  function AssocCondAsWritten(rows: seq<Row>, kinds: map<ObjId, Kind>, defs: seq<AsstDef>, edges: set<Edge>,
                              obj: ObjId, owner: string, escape: string -> string, kcs: seq<KindClauses>): Result<Cond>
  {
    match Build(edges, obj, owner, escape, Searcher(rows, kinds, defs, owner, escape), kcs)
    case Fail(e) => Fail(e)
    case Ok(b) => Ok(FinalCondAsWritten(obj, kcs, b))
  }

  /** FindInstByAssociationInst: the target kind's instances under the condition. */
  function FindByAssociationSpec(rows: seq<Row>, kinds: map<ObjId, Kind>, defs: seq<AsstDef>, edges: set<Edge>,
                                 obj: ObjId, owner: string, escape: string -> string, kcs: seq<KindClauses>): Result<Found>
  {
    match AssocCond(rows, kinds, defs, edges, obj, owner, escape, kcs)
    case Fail(e) => Fail(e)
    case Ok(cond) => FindInstSpec(rows, kinds, defs, obj, cond, false)
  }

  function FindByAssociationAsWritten(rows: seq<Row>, kinds: map<ObjId, Kind>, defs: seq<AsstDef>, edges: set<Edge>,
                                      obj: ObjId, owner: string, escape: string -> string, kcs: seq<KindClauses>): Result<Found>
  {
    match AssocCondAsWritten(rows, kinds, defs, edges, obj, owner, escape, kcs)
    case Fail(e) => Fail(e)
    case Ok(cond) => FindInstSpec(rows, kinds, defs, obj, cond, false)
  }

  // ---------------------------------------------------------------------------
  // Properties of the condition

  /** The condition always holds the supplier account, and the kind for a
      common target kind; each keeps its value unless a clause on the target
      kind names that field. */
  lemma AssocCondScope(rows: seq<Row>, kinds: map<ObjId, Kind>, defs: seq<AsstDef>, edges: set<Edge>,
                       obj: ObjId, owner: string, escape: string -> string, kcs: seq<KindClauses>)
    requires AssocCond(rows, kinds, defs, edges, obj, owner, escape, kcs).Ok?
    ensures var cond := AssocCond(rows, kinds, defs, edges, obj, owner, escape, kcs).value;
      var own := SelfClauses(kcs, obj);
      && OwnerField in cond
      && (!Names(own, OwnerField) && OwnerField != InstIdFieldOf(obj) ==> cond[OwnerField] == Is(Str(owner)))
      && (IsCommon(obj) ==> ObjIdField in cond)
      && (IsCommon(obj) && !Names(own, ObjIdField) && ObjIdField != InstIdFieldOf(obj) ==> cond[ObjIdField] == Is(Str(obj)))
  {
    BuildCond(edges, obj, owner, escape, Searcher(rows, kinds, defs, owner, escape), kcs);
    ApplyClausesFields(TargetBase(obj, owner), SelfClauses(kcs, obj), true, escape);
  }

  /** A clause on the target kind that is the last on its field ends up in the
      condition, unless the id filter replaces it. */
  lemma AssocCondOwnClauses(rows: seq<Row>, kinds: map<ObjId, Kind>, defs: seq<AsstDef>, edges: set<Edge>,
                            obj: ObjId, owner: string, escape: string -> string, kcs: seq<KindClauses>, i: nat)
    requires AssocCond(rows, kinds, defs, edges, obj, owner, escape, kcs).Ok?
    requires i < |SelfClauses(kcs, obj)| && LastOnField(SelfClauses(kcs, obj), i)
    requires SelfClauses(kcs, obj)[i].field != InstIdFieldOf(obj)
    ensures var c := SelfClauses(kcs, obj)[i];
      var cond := AssocCond(rows, kinds, defs, edges, obj, owner, escape, kcs).value;
      c.field in cond && cond[c.field] == ClauseFilter(c, true, escape)
  {
    BuildCond(edges, obj, owner, escape, Searcher(rows, kinds, defs, owner, escape), kcs);
    ApplyClausesLastWins(TargetBase(obj, owner), SelfClauses(kcs, obj), true, escape);
  }

  /** With candidates, the target's id is restricted to them. */
  lemma AssocCondCandidates(rows: seq<Row>, kinds: map<ObjId, Kind>, defs: seq<AsstDef>, edges: set<Edge>,
                            obj: ObjId, owner: string, escape: string -> string, kcs: seq<KindClauses>)
    requires Build(edges, obj, owner, escape, Searcher(rows, kinds, defs, owner, escape), kcs).Ok?
    requires Build(edges, obj, owner, escape, Searcher(rows, kinds, defs, owner, escape), kcs).value.targets != {}
    ensures AssocCond(rows, kinds, defs, edges, obj, owner, escape, kcs).value[InstIdFieldOf(obj)]
         == Op(DbIn, IdSet(Build(edges, obj, owner, escape, Searcher(rows, kinds, defs, owner, escape), kcs).value.targets))
  {
  }

  /** A request naming only the target kind is its scope with its clauses, and no
      id filter is added. */
  lemma AssocCondOwnOnly(rows: seq<Row>, kinds: map<ObjId, Kind>, defs: seq<AsstDef>, edges: set<Edge>,
                         obj: ObjId, owner: string, escape: string -> string, kcs: seq<KindClauses>)
    requires !HasForeign(kcs, obj)
    ensures AssocCond(rows, kinds, defs, edges, obj, owner, escape, kcs)
         == Ok(ApplyClauses(TargetBase(obj, owner), SelfClauses(kcs, obj), true, escape))
  {
    BuildNoForeign(edges, obj, owner, escape, Searcher(rows, kinds, defs, owner, escape), kcs);
    BuildCond(edges, obj, owner, escape, Searcher(rows, kinds, defs, owner, escape), kcs);
  }

  lemma {:induction false} BuildNoForeign(edges: set<Edge>, obj: ObjId, owner: string, escape: string -> string,
      search: KindClauses -> Result<seq<Int64>>, kcs: seq<KindClauses>)
    requires !HasForeign(kcs, obj)
    ensures Build(edges, obj, owner, escape, search, kcs).Ok?
    ensures Build(edges, obj, owner, escape, search, kcs).value.targets == {}
  {
    if kcs != [] {
      var init := kcs[..|kcs| - 1];
      assert !HasForeign(init, obj) by {
        forall i | 0 <= i < |init| ensures init[i].kind == obj {
          assert init[i] == kcs[i];
        }
      }
      BuildNoForeign(edges, obj, owner, escape, search, init);
      assert kcs[|kcs| - 1].kind == obj;
    }
  }

  /** No record satisfies a condition that restricts a field to the empty list. */
  lemma {:induction false} EmptyInMatchesNothing(rows: seq<Row>, table: string, cond: Cond, f: string)
    requires f in cond && cond[f] == Op(DbIn, IdSet({}))
    ensures Query(rows, table, cond) == []
    decreases |rows|
  {
    if rows != [] {
      EmptyInMatchesNothing(rows[1..], table, cond, f);
      assert !FieldMatches(rows[0].rec, f, cond[f]);
    }
  }

  /** When a foreign kind was searched and no target instance is associated with
      what it selected, nothing is found. */
  lemma NoCandidatesFindsNothing(rows: seq<Row>, kinds: map<ObjId, Kind>, defs: seq<AsstDef>, edges: set<Edge>,
                                 obj: ObjId, owner: string, escape: string -> string, kcs: seq<KindClauses>)
    requires Build(edges, obj, owner, escape, Searcher(rows, kinds, defs, owner, escape), kcs).Ok?
    requires Build(edges, obj, owner, escape, Searcher(rows, kinds, defs, owner, escape), kcs).value.targets == {}
    requires HasForeign(kcs, obj)
    ensures FindByAssociationSpec(rows, kinds, defs, edges, obj, owner, escape, kcs) == Ok(Found(0, []))
  {
    var cond := AssocCond(rows, kinds, defs, edges, obj, owner, escape, kcs).value;
    EmptyInMatchesNothing(rows, ObjectType(obj), cond, InstIdFieldOf(obj));
  }

  /** The code as written agrees with the intended rule except when the request
      names the target kind too, and the foreign kinds yielded no candidates. */
  lemma AsWrittenAgrees(rows: seq<Row>, kinds: map<ObjId, Kind>, defs: seq<AsstDef>, edges: set<Edge>,
                        obj: ObjId, owner: string, escape: string -> string, kcs: seq<KindClauses>)
    requires Build(edges, obj, owner, escape, Searcher(rows, kinds, defs, owner, escape), kcs).Ok?
    requires Build(edges, obj, owner, escape, Searcher(rows, kinds, defs, owner, escape), kcs).value.targets != {}
          || !(exists i :: 0 <= i < |kcs| && kcs[i].kind == obj)
          || !HasForeign(kcs, obj)
    ensures AssocCondAsWritten(rows, kinds, defs, edges, obj, owner, escape, kcs)
         == AssocCond(rows, kinds, defs, edges, obj, owner, escape, kcs)
  {
    if kcs != [] && !(exists i :: 0 <= i < |kcs| && kcs[i].kind == obj) {
      assert kcs[0].kind != obj;
    }
  }

  // A request on hosts naming the host kind with no clause, and the set kind
  // with no clause, in a store holding one host and no set: no set is selected,
  // so no host is associated with a selected set.

  const SampleOwner: string := "0"
  const SampleHost: Record := map[InstIdFieldOf(ObjHost) := Int(1), OwnerField := Str(SampleOwner)]
  const SampleRows: seq<Row> := [Row(ObjHost, SampleHost)]
  const SampleKinds: map<ObjId, Kind> := map[ObjHost := Kind(ObjHost, "host", ""), ObjSet := Kind(ObjSet, "set", "")]
  const SampleRequest: seq<KindClauses> := [KindClauses(ObjHost, []), KindClauses(ObjSet, [])]

  /** The loop over that request searches no set and collects no candidate. */
  lemma SampleBuild(escape: string -> string)
    ensures Build({}, ObjHost, SampleOwner, escape, Searcher(SampleRows, SampleKinds, [], SampleOwner, escape), SampleRequest)
         == Ok(Building(TargetBase(ObjHost, SampleOwner), {}))
  {
    var base := TargetBase(ObjHost, SampleOwner);
    var setReq := KindClauses(ObjSet, []);
    assert ApplyClauses(base, [], true, escape) == base;
    assert ForeignBase(ObjSet, SampleOwner) == map[];
    assert ApplyClauses(map[], [], false, escape) == map[];
    assert Query(SampleRows, ObjSet, map[]) == [];
    assert FindInstSpec(SampleRows, SampleKinds, [], ObjSet, map[], false) == Ok(Found(0, []));
    assert ForeignSearch(SampleRows, SampleKinds, [], SampleOwner, escape, setReq) == Ok([]);
    assert Candidates({}, ObjHost, ObjSet, []) == {};
    assert setReq.kind != ObjHost;
    var none: set<Int64> := {};
    assert none + Candidates({}, ObjHost, ObjSet, []) == none;
    assert KindStep({}, ObjHost, SampleOwner, escape, Searcher(SampleRows, SampleKinds, [], SampleOwner, escape), Building(base, {}), setReq)
        == Ok(Building(base, {}));
    var first := SampleRequest[..1];
    assert first[..0] == [] && first[0] == SampleRequest[0];
    assert Build({}, ObjHost, SampleOwner, escape, Searcher(SampleRows, SampleKinds, [], SampleOwner, escape), first) == Ok(Building(base, {}));
    assert |SampleRequest| == 2 && SampleRequest[..|SampleRequest| - 1] == first;
    assert SampleRequest[1] == setReq;
  }

  /** As written, that request finds the host, which is associated with no set:
      the clauses on the set kind are dropped. The intended rule finds nothing. */
  lemma UnassociatedHostFound(escape: string -> string)
    ensures FindByAssociationAsWritten(SampleRows, SampleKinds, [], {}, ObjHost, SampleOwner, escape, SampleRequest)
         == Ok(Found(1, [SampleHost]))
    ensures FindByAssociationSpec(SampleRows, SampleKinds, [], {}, ObjHost, SampleOwner, escape, SampleRequest)
         == Ok(Found(0, []))
  {
    var base := TargetBase(ObjHost, SampleOwner);
    SampleBuild(escape);
    assert SampleRequest[0].kind == ObjHost;
    assert SampleRequest[1].kind != ObjHost;
    assert Matches(SampleHost, base);
    assert Query(SampleRows, ObjHost, base) == [SampleHost];
    assert ObjectType(ObjHost) == ObjHost;
    assert AssociationsOf([], ObjHost) == [];
    assert ExpandRecord(SampleRows, SampleKinds, [], SampleHost, false) == Ok(SampleHost);
    assert [SampleHost][..|[SampleHost]| - 1] == [];
    assert ExpandAll(SampleRows, SampleKinds, [], [], false) == Ok([]);
    assert [] + [SampleHost] == [SampleHost];
    assert ExpandAll(SampleRows, SampleKinds, [], [SampleHost], false) == Ok([SampleHost]);
    NoCandidatesFindsNothing(SampleRows, SampleKinds, [], {}, ObjHost, SampleOwner, escape, SampleRequest);
  }

  // ---------------------------------------------------------------------------
  // The method

  /** The clause loop, writing a kind's clauses into a condition. */
  method WriteClauses(cond: Cond, cs: seq<Clause>, self: bool, escape: string -> string) returns (r: Cond)
    ensures r == ApplyClauses(cond, cs, self, escape)
  {
    r := cond;
    var i := 0;
    while i < |cs|
      invariant 0 <= i <= |cs|
      invariant r == ApplyClauses(cond, cs[..i], self, escape)
    {
      assert cs[..i + 1][..i] == cs[..i];
      var c := cs[i];
      if c.operator != DbEq {
        r := r[c.field := Op(c.operator, c.value)];
      } else if self && c.value.Str? {
        r := r[c.field := Op(DbEq, Str(escape(c.value.s)))];
      } else {
        r := r[c.field := Is(c.value)];
      }
      i := i + 1;
    }
    assert cs[..i] == cs;
  }

  /** SearchInstAssociation over the store's edges. */
  method AssociatedTargets(st: Store, obj: ObjId, kind: ObjId, ids: seq<Int64>) returns (r: set<Int64>)
    ensures r == Candidates(st.edges, obj, kind, ids)
  {
    r := set e | e in st.edges && e.objId == obj && e.asstObjId == kind && e.asstInstId in ids :: e.instId;
  }

  /** One entry of the condition map. */
  method VisitKind(st: Store, obj: ObjId, owner: string, escape: string -> string, b: Building, kc: KindClauses)
    returns (r: Result<Building>)
    ensures r == KindStep(st.edges, obj, owner, escape, Searcher(st.rows, st.kinds, st.defs, owner, escape), b, kc)
  {
    if kc.kind == obj {
      var cond := WriteClauses(b.cond, kc.clauses, true, escape);
      return Ok(Building(cond, b.targets));
    }
    var base := if ObjectType(kc.kind) == ObjCommon then map[ObjIdField := Is(Str(kc.kind)), OwnerField := Is(Str(owner))]
                else map[];
    var cond := WriteClauses(base, kc.clauses, false, escape);
    var ids := SearchAssociationInst(st, kc.kind, cond);
    if ids.Fail? {
      return Fail(ids.error);
    }
    var found := AssociatedTargets(st, obj, kc.kind, ids.value);
    r := Ok(Building(b.cond, b.targets + found));
  }

  /** FindInstByAssociationInst, with the intended empty-list rule. */
  method FindInstByAssociationInst(st: Store, obj: ObjId, owner: string, escape: string -> string, kcs: seq<KindClauses>)
    returns (r: Result<Found>)
    ensures r == FindByAssociationSpec(st.rows, st.kinds, st.defs, st.edges, obj, owner, escape, kcs)
  {
    var b := Building(TargetBase(obj, owner), {});
    var foreign := false;
    var k := 0;
    while k < |kcs|
      invariant 0 <= k <= |kcs|
      invariant Build(st.edges, obj, owner, escape, Searcher(st.rows, st.kinds, st.defs, owner, escape), kcs[..k]) == Ok(b)
      invariant foreign <==> HasForeign(kcs[..k], obj)
    {
      assert kcs[..k + 1][..k] == kcs[..k];
      var next := VisitKind(st, obj, owner, escape, b, kcs[k]);
      if next.Fail? {
        BuildFailureStays(st.edges, obj, owner, escape, Searcher(st.rows, st.kinds, st.defs, owner, escape), kcs, k + 1);
        return Fail(next.error);
      }
      b := next.value;
      foreign := foreign || kcs[k].kind != obj;
      k := k + 1;
    }
    assert kcs[..k] == kcs;
    var cond := b.cond;
    if b.targets != {} {
      cond := cond[InstIdFieldOf(obj) := Op(DbIn, IdSet(b.targets))];
    } else if foreign {
      cond := cond[InstIdFieldOf(obj) := Op(DbIn, IdSet({}))];
    }
    r := FindInst(st, obj, cond, false);
  }
}
