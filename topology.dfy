/** The topology views (FindInstChildTopo, FindInstParentTopo, FindInstTopo):
    the child or parent neighbours of the matched instances grouped by kind, each
    group with its instance count and one descriptor per neighbour instance. */
module Topology {
  import opened Common
  import opened Text
  import opened Store
  import opened Lookup

  /** commonInstTopo: a kind's display data, an instance's id and name (used for
      the current instance of FindInstTopo), and the grouped neighbours. */
  datatype TopoNode = TopoNode(objId: ObjId, objName: string, objIcon: string, instId: Int64, instName: string,
                               count: nat, children: seq<InstNameAsst>)

  /** The groups of a view, keyed by neighbour kind; the order in which the code
      lists them is the iteration order of a Go map, so only the set of groups is
      modelled. */
  type Groups = map<ObjId, TopoNode>

  /** The result of the child or parent view: the number of groups and the groups. */
  datatype TopoView = TopoView(count: nat, groups: Groups)

  /** One entry of FindInstTopo: an instance with its parent and child views. */
  datatype TopoTriple = TopoTriple(prev: Groups, curr: TopoNode, next: Groups)

  // ---------------------------------------------------------------------------
  // Descriptors

  /** The descriptor of one neighbour instance: its id (read first), its name, and
      the decimal form of its id as the descriptor's ID. */
  function Entry(kind: Kind, rec: Record): Result<InstNameAsst> {
    match InstIdOf(kind.id, rec)
    case Fail(e) => Fail(e)
    case Ok(id) =>
      match InstNameOf(kind.id, rec)
      case Fail(e) => Fail(e)
      case Ok(name) => Ok(InstNameAsst(FormatInt(id), kind.id, kind.name, kind.icon, id, name, None))
  }

  /** A step applied to each record in order, collecting the results; the first
      failing step fails the whole. */
  function Gather<T>(recs: seq<Record>, step: Record -> Result<T>): Result<seq<T>>
  {
    if recs == [] then Ok([])
    else match Gather(recs[..|recs| - 1], step)
      case Fail(e) => Fail(e)
      case Ok(ts) =>
        match step(recs[|recs| - 1])
        case Fail(e) => Fail(e)
        case Ok(t) => Ok(ts + [t])
  }

  /** Gathering one more instance applies the step to it. */
  lemma GatherSnoc<T>(recs: seq<Record>, step: Record -> Result<T>, k: nat)
    requires k < |recs|
    ensures Gather(recs[..k + 1], step) ==
      match Gather(recs[..k], step)
      case Fail(e) => Fail(e)
      case Ok(ts) =>
        match step(recs[k])
        case Fail(e) => Fail(e)
        case Ok(t) => Ok(ts + [t])
  {
    assert recs[..k + 1][..k] == recs[..k];
  }

  lemma {:induction false} GatherFailureStays<T>(recs: seq<Record>, step: Record -> Result<T>, n: nat)
    requires n <= |recs| && Gather(recs[..n], step).Fail?
    ensures Gather(recs, step) == Gather(recs[..n], step)
    decreases |recs|
  {
    if n < |recs| {
      var init := recs[..|recs| - 1];
      assert init[..n] == recs[..n];
      GatherFailureStays(init, step, n);
    } else {
      assert recs[..n] == recs;
    }
  }

  /** Gathering succeeds exactly when every step does. */
  lemma {:induction false} GatherOk<T>(recs: seq<Record>, step: Record -> Result<T>)
    ensures Gather(recs, step).Ok? <==> forall i :: 0 <= i < |recs| ==> step(recs[i]).Ok?
    decreases |recs|
  {
    if recs != [] {
      var init := recs[..|recs| - 1];
      GatherOk(init, step);
      assert forall i :: 0 <= i < |init| ==> init[i] == recs[i];
    }
  }

  /** A completed gathering holds each record's result, in order. */
  lemma {:induction false} GatherMeaning<T>(recs: seq<Record>, step: Record -> Result<T>)
    requires Gather(recs, step).Ok?
    ensures var ts := Gather(recs, step).value;
      |ts| == |recs| && forall i :: 0 <= i < |recs| ==> step(recs[i]) == Ok(ts[i])
    decreases |recs|
  {
    if recs != [] {
      var init := recs[..|recs| - 1];
      GatherMeaning(init, step);
      assert forall i :: 0 <= i < |init| ==> init[i] == recs[i];
    }
  }

  /** The descriptors of a kind's neighbour instances, in order; the first
      unreadable instance fails. */
  function Entries(kind: Kind, insts: seq<Record>): Result<seq<InstNameAsst>> {
    Gather(insts, rec => Entry(kind, rec))
  }

  /** A well-formed descriptor of a kind: it names the kind, and its ID is the
      decimal form of its instance id. */
  predicate WellFormedEntry(kind: ObjId, d: InstNameAsst) {
    d.objId == kind && d.id == FormatInt(d.instId)
  }

  /** The ID of a well-formed descriptor parses back to its instance id. */
  lemma WellFormedEntryParses(kind: ObjId, d: InstNameAsst)
    requires WellFormedEntry(kind, d)
    ensures ParseInt64(d.id) == Some(d.instId)
  {
    FormatIntRoundTrip(d.instId, InstAsstIdSplit);
  }

  /** An instance that has an id and a name, so that it can be described. */
  predicate Describable(obj: ObjId, rec: Record) {
    InstIdOf(obj, rec).Ok? && InstNameOf(obj, rec).Ok?
  }

  /** The descriptors succeed exactly when every instance has an id and a name. */
  lemma EntriesOk(kind: Kind, insts: seq<Record>)
    ensures Entries(kind, insts).Ok? <==> forall i :: 0 <= i < |insts| ==> Describable(kind.id, insts[i])
  {
    GatherOk(insts, rec => Entry(kind, rec));
  }

  /** Completed descriptors: one per instance, in order, carrying that instance's
      id and name, each well formed. */
  lemma EntriesMeaning(kind: Kind, insts: seq<Record>)
    requires Entries(kind, insts).Ok?
    ensures var ds := Entries(kind, insts).value;
      && |ds| == |insts|
      && forall i :: 0 <= i < |insts| ==>
           && InstIdOf(kind.id, insts[i]) == Ok(ds[i].instId)
           && InstNameOf(kind.id, insts[i]) == Ok(ds[i].instName)
           && WellFormedEntry(kind.id, ds[i])
  {
    GatherMeaning(insts, rec => Entry(kind, rec));
  }

  // ---------------------------------------------------------------------------
  // Grouping

  /** A new group for a neighbour kind. */
  function NewGroup(kind: Kind): TopoNode {
    TopoNode(kind.id, kind.name, kind.icon, 0, "", 0, [])
  }

  /** The group of a kind found or created, its count grown by extra and the
      descriptors ds appended. */
  function Grow(gs: Groups, kind: Kind, extra: nat, ds: seq<InstNameAsst>): Groups {
    var g := if kind.id in gs then gs[kind.id] else NewGroup(kind);
    gs[kind.id := g.(count := g.count + extra, children := g.children + ds)]
  }

  /** One neighbour kind's instances added to the groups: their count and their
      descriptors, unless one of them cannot be described. */
  function AddGroup(gs: Groups, n: Neighbours): Result<Groups> {
    match Entries(n.kind, n.insts)
    case Fail(e) => Fail(e)
    case Ok(ds) => Ok(Grow(gs, n.kind, |n.insts|, ds))
  }

  /** A list of neighbour kinds added in order. */
  function AddAll(gs: Groups, ns: seq<Neighbours>): Result<Groups>
  {
    if ns == [] then Ok(gs)
    else match AddAll(gs, ns[..|ns| - 1])
      case Fail(e) => Fail(e)
      case Ok(g) => AddGroup(g, ns[|ns| - 1])
  }

  lemma {:induction false} AddAllFailureStays(gs: Groups, ns: seq<Neighbours>, n: nat)
    requires n <= |ns| && AddAll(gs, ns[..n]).Fail?
    ensures AddAll(gs, ns) == AddAll(gs, ns[..n])
    decreases |ns|
  {
    if n < |ns| {
      var init := ns[..|ns| - 1];
      assert init[..n] == ns[..n];
      AddAllFailureStays(gs, init, n);
    } else {
      assert ns[..n] == ns;
    }
  }

  /** Adding two lists is adding the first, then the second. */
  lemma {:induction false} AddAllAppend(gs: Groups, a: seq<Neighbours>, b: seq<Neighbours>)
    ensures AddAll(gs, a + b) == match AddAll(gs, a) case Fail(e) => Fail(e) case Ok(g) => AddAll(g, b)
    decreases |b|
  {
    if b == [] {
      assert a + b == a;
    } else {
      var initB := b[..|b| - 1];
      assert (a + b)[..|a + b| - 1] == a + initB;
      AddAllAppend(gs, a, initB);
      if AddAll(gs, a).Ok? && AddAll(AddAll(gs, a).value, initB).Fail? {
        assert AddAll(gs, a + b) == AddAll(gs, a + initB);
      }
    }
  }

  /** The kinds a list of neighbours names. */
  function KindsOf(ns: seq<Neighbours>): set<ObjId> {
    set i | 0 <= i < |ns| :: ns[i].kind.id
  }

  /** The number of neighbour instances of kind k in a list. */
  function Total(ns: seq<Neighbours>, k: ObjId): nat
  {
    if ns == [] then 0
    else Total(ns[..|ns| - 1], k) + (if ns[|ns| - 1].kind.id == k then |ns[|ns| - 1].insts| else 0)
  }

  lemma {:induction false} TotalOfAbsentKind(ns: seq<Neighbours>, k: ObjId)
    requires k !in KindsOf(ns)
    ensures Total(ns, k) == 0
  {
    if ns != [] {
      var init := ns[..|ns| - 1];
      KindsOfSnoc(ns);
      TotalOfAbsentKind(init, k);
    }
  }

  /** Every group is keyed by its kind, counts exactly its descriptors, and holds
      well-formed descriptors of its kind only. */
  predicate WellGrouped(gs: Groups) {
    forall k :: k in gs ==> GroupOk(k, gs[k])
  }

  /** A group of kind k: keyed by its kind, counting exactly its descriptors, all
      of them well-formed descriptors of that kind. */
  predicate GroupOk(k: ObjId, g: TopoNode) {
    && g.objId == k
    && g.count == |g.children|
    && forall j :: 0 <= j < |g.children| ==> WellFormedEntry(k, g.children[j])
  }

  /** A group grown by well-formed descriptors of its kind stays well formed. */
  lemma GrowKeepsShape(k: ObjId, g: TopoNode, ds: seq<InstNameAsst>, extra: nat)
    requires GroupOk(k, g)
    requires forall j :: 0 <= j < |ds| ==> WellFormedEntry(k, ds[j])
    requires extra == |ds|
    ensures GroupOk(k, g.(count := g.count + extra, children := g.children + ds))
  {
    var ch := g.children + ds;
    forall j | 0 <= j < |ch| ensures WellFormedEntry(k, ch[j]) {
      if j >= |g.children| {
        assert ch[j] == ds[j - |g.children|];
      }
    }
  }

  /** One step of AddAll keeps the groups well formed. */
  lemma AddGroupKeepsShape(gs: Groups, n: Neighbours)
    requires WellGrouped(gs) && AddGroup(gs, n).Ok?
    ensures WellGrouped(AddGroup(gs, n).value)
  {
    var ds := Entries(n.kind, n.insts).value;
    EntriesMeaning(n.kind, n.insts);
    var g := if n.kind.id in gs then gs[n.kind.id] else NewGroup(n.kind);
    GrowKeepsShape(n.kind.id, g, ds, |n.insts|);
  }

  /** One step of AddAll adds the step's kind and counts its instances in that
      kind's group only. */
  lemma AddGroupCounts(gs: Groups, n: Neighbours)
    requires AddGroup(gs, n).Ok?
    ensures var out := AddGroup(gs, n).value;
      && out.Keys == gs.Keys + {n.kind.id}
      && forall k :: k in out ==>
           out[k].count == (if k in gs then gs[k].count else 0) + (if k == n.kind.id then |n.insts| else 0)
  {
  }

  /** Every instance of a neighbour kind can be described. */
  predicate AllDescribable(n: Neighbours) {
    forall j :: 0 <= j < |n.insts| ==> Describable(n.kind.id, n.insts[j])
  }

  /** Adding neighbours fails exactly when some instance lacks an id or a name. */
  lemma {:induction false} AddAllOk(gs: Groups, ns: seq<Neighbours>)
    ensures AddAll(gs, ns).Ok? <==> forall i :: 0 <= i < |ns| ==> AllDescribable(ns[i])
  {
    if ns != [] {
      var init := ns[..|ns| - 1];
      var n := ns[|ns| - 1];
      AddAllOk(gs, init);
      assert forall i :: 0 <= i < |init| ==> init[i] == ns[i];
      EntriesOk(n.kind, n.insts);
    }
  }

  lemma KindsOfSnoc(ns: seq<Neighbours>)
    requires ns != []
    ensures KindsOf(ns) == KindsOf(ns[..|ns| - 1]) + {ns[|ns| - 1].kind.id}
  {
    var init := ns[..|ns| - 1];
    forall k | k in KindsOf(ns) ensures k in KindsOf(init) + {ns[|ns| - 1].kind.id} {
      var i :| 0 <= i < |ns| && ns[i].kind.id == k;
      if i < |init| {
        assert init[i] == ns[i];
      }
    }
    forall k | k in KindsOf(init) ensures k in KindsOf(ns) {
      var i :| 0 <= i < |init| && init[i].kind.id == k;
      assert ns[i] == init[i];
    }
  }

  /** Adding neighbours keeps the groups well formed. */
  lemma {:induction false} AddAllKeepsShape(gs: Groups, ns: seq<Neighbours>)
    requires WellGrouped(gs) && AddAll(gs, ns).Ok?
    ensures WellGrouped(AddAll(gs, ns).value)
  {
    if ns != [] {
      var init := ns[..|ns| - 1];
      AddAllKeepsShape(gs, init);
      AddGroupKeepsShape(AddAll(gs, init).value, ns[|ns| - 1]);
    }
  }

  /** Adding neighbours adds a group for every kind they name, and no other. */
  lemma {:induction false} AddAllKeys(gs: Groups, ns: seq<Neighbours>)
    requires AddAll(gs, ns).Ok?
    ensures AddAll(gs, ns).value.Keys == gs.Keys + KindsOf(ns)
  {
    if ns != [] {
      var init := ns[..|ns| - 1];
      AddAllKeys(gs, init);
      AddGroupCounts(AddAll(gs, init).value, ns[|ns| - 1]);
      KindsOfSnoc(ns);
    }
  }

  /** Adding neighbours grows each group's count by that kind's instance total. */
  lemma {:induction false} AddAllCounts(gs: Groups, ns: seq<Neighbours>)
    requires AddAll(gs, ns).Ok?
    ensures var out := AddAll(gs, ns).value;
      forall k :: k in out ==> out[k].count == (if k in gs then gs[k].count else 0) + Total(ns, k)
  {
    if ns != [] {
      var init := ns[..|ns| - 1];
      var n := ns[|ns| - 1];
      AddAllCounts(gs, init);
      AddAllKeys(gs, init);
      var mid := AddAll(gs, init).value;
      AddGroupCounts(mid, n);
      var out := AddAll(gs, ns).value;
      forall k | k in out
        ensures out[k].count == (if k in gs then gs[k].count else 0) + Total(ns, k)
      {
        assert Total(ns, k) == Total(init, k) + (if n.kind.id == k then |n.insts| else 0);
        if k !in mid {
          TotalOfAbsentKind(init, k);
        }
      }
    }
  }

  // ---------------------------------------------------------------------------
  // The views

  /** The neighbours of one found instance (GetChildObjectWithInsts or
      GetParentObjectWithInsts), read under its id. */
  function NeighboursOf(links: map<(ObjId, Int64), seq<Neighbours>>, obj: ObjId, rec: Record): Result<seq<Neighbours>> {
    match InstIdOf(obj, rec)
    case Fail(e) => Fail(e)
    case Ok(id) => Ok(if (obj, id) in links then links[(obj, id)] else [])
  }

  /** A step applied to each record in order, threading the groups through; the
      first failing step fails the whole. */
  function Fold(gs: Groups, recs: seq<Record>, step: (Groups, Record) -> Result<Groups>): Result<Groups>
  {
    if recs == [] then Ok(gs)
    else match Fold(gs, recs[..|recs| - 1], step)
      case Fail(e) => Fail(e)
      case Ok(g) => step(g, recs[|recs| - 1])
  }

  lemma {:induction false} FoldFailureStays(gs: Groups, recs: seq<Record>, step: (Groups, Record) -> Result<Groups>, n: nat)
    requires n <= |recs| && Fold(gs, recs[..n], step).Fail?
    ensures Fold(gs, recs, step) == Fold(gs, recs[..n], step)
    decreases |recs|
  {
    if n < |recs| {
      var init := recs[..|recs| - 1];
      assert init[..n] == recs[..n];
      FoldFailureStays(gs, init, step, n);
    } else {
      assert recs[..n] == recs;
    }
  }

  /** One found instance's neighbours added to the groups. */
  function GroupStep(links: map<(ObjId, Int64), seq<Neighbours>>, obj: ObjId, gs: Groups, rec: Record): Result<Groups> {
    match NeighboursOf(links, obj, rec)
    case Fail(e) => Fail(e)
    case Ok(ns) => AddAll(gs, ns)
  }

  /** The loop over the found instances: each one's neighbours added in order. */
  function GroupRecs(links: map<(ObjId, Int64), seq<Neighbours>>, obj: ObjId, recs: seq<Record>): Result<Groups> {
    Fold(map[], recs, (gs, rec) => GroupStep(links, obj, gs, rec))
  }

  /** All neighbours of the found instances, in order (instances without an id
      contribute none). */
  function AllNeighbours(links: map<(ObjId, Int64), seq<Neighbours>>, obj: ObjId, recs: seq<Record>): seq<Neighbours>
  {
    if recs == [] then []
    else AllNeighbours(links, obj, recs[..|recs| - 1])
         + match NeighboursOf(links, obj, recs[|recs| - 1]) case Fail(_) => [] case Ok(ns) => ns
  }

  /** Grouping instance by instance is grouping all their neighbours at once. */
  lemma {:induction false} FoldFlat(links: map<(ObjId, Int64), seq<Neighbours>>, obj: ObjId, gs: Groups, recs: seq<Record>)
    requires Fold(gs, recs, (g, rec) => GroupStep(links, obj, g, rec)).Ok?
    ensures Fold(gs, recs, (g, rec) => GroupStep(links, obj, g, rec)) == AddAll(gs, AllNeighbours(links, obj, recs))
    decreases |recs|
  {
    if recs != [] {
      var init := recs[..|recs| - 1];
      FoldFlat(links, obj, gs, init);
      AddAllAppend(gs, AllNeighbours(links, obj, init), NeighboursOf(links, obj, recs[|recs| - 1]).value);
    }
  }

  /** The view of a completed grouping: one group per neighbour kind, each
      counting exactly that kind's neighbour instances, each descriptor well
      formed, and the count of the view equal to the number of groups. */
  lemma GroupRecsMeaning(links: map<(ObjId, Int64), seq<Neighbours>>, obj: ObjId, recs: seq<Record>)
    requires GroupRecs(links, obj, recs).Ok?
    ensures var gs := GroupRecs(links, obj, recs).value;
      var all := AllNeighbours(links, obj, recs);
      && WellGrouped(gs)
      && gs.Keys == KindsOf(all)
      && forall k :: k in gs ==> gs[k].count == Total(all, k)
  {
    FoldFlat(links, obj, map[], recs);
    var all := AllNeighbours(links, obj, recs);
    AddAllKeepsShape(map[], all);
    AddAllKeys(map[], all);
    AddAllCounts(map[], all);
  }

  /** The lookup of a view when the caller gives no query: the instance's id and
      the supplier account. */
  function DefaultCond(obj: ObjId, instId: Int64, owner: string): Cond {
    map[InstIdFieldOf(obj) := Is(Int(instId)), OwnerField := Is(Str(owner))]
  }

  function QueryOrDefault(query: Option<Cond>, obj: ObjId, instId: Int64, owner: string): Cond {
    match query
    case None => DefaultCond(obj, instId, owner)
    case Some(c) => c
  }

  /** FindInstChildTopo (with the child links) or FindInstParentTopo (with the
      parent links). */
  function TopoSpec(rows: seq<Row>, kinds: map<ObjId, Kind>, defs: seq<AsstDef>,
                    links: map<(ObjId, Int64), seq<Neighbours>>, kind: Kind, instId: Int64,
                    query: Option<Cond>, owner: string): Result<TopoView>
  {
    match FindInstSpec(rows, kinds, defs, kind.id, QueryOrDefault(query, kind.id, instId, owner), false)
    case Fail(e) => Fail(e)
    case Ok(f) =>
      match GroupRecs(links, kind.id, f.recs)
      case Fail(e) => Fail(e)
      case Ok(gs) => Ok(TopoView(|gs.Keys|, gs))
  }

  /** A completed view counts its groups, and its groups are those of the
      neighbours of the found instances. */
  lemma TopoSpecMeaning(rows: seq<Row>, kinds: map<ObjId, Kind>, defs: seq<AsstDef>,
                        links: map<(ObjId, Int64), seq<Neighbours>>, kind: Kind, instId: Int64,
                        query: Option<Cond>, owner: string)
    requires TopoSpec(rows, kinds, defs, links, kind, instId, query, owner).Ok?
    ensures var v := TopoSpec(rows, kinds, defs, links, kind, instId, query, owner).value;
      var f := FindInstSpec(rows, kinds, defs, kind.id, QueryOrDefault(query, kind.id, instId, owner), false);
      && f.Ok?
      && v.count == |v.groups.Keys|
      && WellGrouped(v.groups)
      && v.groups.Keys == KindsOf(AllNeighbours(links, kind.id, f.value.recs))
      && forall k :: k in v.groups ==> v.groups[k].count == Total(AllNeighbours(links, kind.id, f.value.recs), k)
  {
    var f := FindInstSpec(rows, kinds, defs, kind.id, QueryOrDefault(query, kind.id, instId, owner), false);
    GroupRecsMeaning(links, kind.id, f.value.recs);
  }

  /** The current-instance node of FindInstTopo. */
  function Current(kind: Kind, id: Int64, name: string): TopoNode {
    TopoNode(kind.id, kind.name, kind.icon, id, name, 0, [])
  }

  /** One instance of FindInstTopo: its id and name, then the parent and child
      views looked up by that id. */
  function TopoStep(rows: seq<Row>, kinds: map<ObjId, Kind>, defs: seq<AsstDef>,
                    childLinks: map<(ObjId, Int64), seq<Neighbours>>, parentLinks: map<(ObjId, Int64), seq<Neighbours>>,
                    kind: Kind, owner: string, rec: Record): Result<TopoTriple>
  {
    match InstIdOf(kind.id, rec)
    case Fail(e) => Fail(e)
    case Ok(id) =>
      match InstNameOf(kind.id, rec)
      case Fail(e) => Fail(e)
      case Ok(name) =>
        match TopoSpec(rows, kinds, defs, parentLinks, kind, id, None, owner)
        case Fail(e) => Fail(e)
        case Ok(prev) =>
          match TopoSpec(rows, kinds, defs, childLinks, kind, id, None, owner)
          case Fail(e) => Fail(e)
          case Ok(next) => Ok(TopoTriple(prev.groups, Current(kind, id, name), next.groups))
  }

  /** The entry of one instance names that instance, and its Prev and Next are
      the parent and child views of its id. */
  predicate IsTopoEntry(rows: seq<Row>, kinds: map<ObjId, Kind>, defs: seq<AsstDef>,
                    childLinks: map<(ObjId, Int64), seq<Neighbours>>, parentLinks: map<(ObjId, Int64), seq<Neighbours>>,
                    kind: Kind, owner: string, rec: Record, t: TopoTriple)
  {
    && InstIdOf(kind.id, rec) == Ok(t.curr.instId)
    && InstNameOf(kind.id, rec) == Ok(t.curr.instName)
    && t.curr.objId == kind.id
    && TopoSpec(rows, kinds, defs, parentLinks, kind, t.curr.instId, None, owner) == Ok(TopoView(|t.prev.Keys|, t.prev))
    && TopoSpec(rows, kinds, defs, childLinks, kind, t.curr.instId, None, owner) == Ok(TopoView(|t.next.Keys|, t.next))
  }

  lemma TopoStepMeaning(rows: seq<Row>, kinds: map<ObjId, Kind>, defs: seq<AsstDef>,
                        childLinks: map<(ObjId, Int64), seq<Neighbours>>, parentLinks: map<(ObjId, Int64), seq<Neighbours>>,
                        kind: Kind, owner: string, rec: Record)
    requires TopoStep(rows, kinds, defs, childLinks, parentLinks, kind, owner, rec).Ok?
    ensures IsTopoEntry(rows, kinds, defs, childLinks, parentLinks, kind, owner, rec,
                    TopoStep(rows, kinds, defs, childLinks, parentLinks, kind, owner, rec).value)
  {
    var id := InstIdOf(kind.id, rec).value;
    TopoSpecMeaning(rows, kinds, defs, parentLinks, kind, id, None, owner);
    TopoSpecMeaning(rows, kinds, defs, childLinks, kind, id, None, owner);
  }

  /** The loop of FindInstTopo over the found instances. */
  function TopoRecs(rows: seq<Row>, kinds: map<ObjId, Kind>, defs: seq<AsstDef>,
                    childLinks: map<(ObjId, Int64), seq<Neighbours>>, parentLinks: map<(ObjId, Int64), seq<Neighbours>>,
                    kind: Kind, owner: string, recs: seq<Record>): Result<seq<TopoTriple>>
  {
    Gather(recs, TopoSteps(rows, kinds, defs, childLinks, parentLinks, kind, owner))
  }

  /** TopoStep with the store and the kind fixed, as the step Gather applies. */
  function TopoSteps(rows: seq<Row>, kinds: map<ObjId, Kind>, defs: seq<AsstDef>,
                     childLinks: map<(ObjId, Int64), seq<Neighbours>>, parentLinks: map<(ObjId, Int64), seq<Neighbours>>,
                     kind: Kind, owner: string): Record -> Result<TopoTriple>
  {
    rec => TopoStep(rows, kinds, defs, childLinks, parentLinks, kind, owner, rec)
  }

  /** FindInstTopo: one entry per found instance, in match order; the number of
      entries is the count. */
  function FindInstTopoSpec(rows: seq<Row>, kinds: map<ObjId, Kind>, defs: seq<AsstDef>,
                            childLinks: map<(ObjId, Int64), seq<Neighbours>>,
                            parentLinks: map<(ObjId, Int64), seq<Neighbours>>,
                            kind: Kind, instId: Int64, query: Option<Cond>, owner: string): Result<seq<TopoTriple>>
  {
    match FindInstSpec(rows, kinds, defs, kind.id, QueryOrDefault(query, kind.id, instId, owner), false)
    case Fail(e) => Fail(e)
    case Ok(f) => TopoRecs(rows, kinds, defs, childLinks, parentLinks, kind, owner, f.recs)
  }

  /** A completed FindInstTopo has one entry per found instance, in match order:
      the instance's own id and name, the parent view of that id as Prev and its
      child view as Next. */
  lemma TopoRecsMeaning(rows: seq<Row>, kinds: map<ObjId, Kind>, defs: seq<AsstDef>,
                        childLinks: map<(ObjId, Int64), seq<Neighbours>>,
                        parentLinks: map<(ObjId, Int64), seq<Neighbours>>,
                        kind: Kind, owner: string, recs: seq<Record>)
    requires TopoRecs(rows, kinds, defs, childLinks, parentLinks, kind, owner, recs).Ok?
    ensures var ts := TopoRecs(rows, kinds, defs, childLinks, parentLinks, kind, owner, recs).value;
      && |ts| == |recs|
      && forall i :: 0 <= i < |recs| ==> IsTopoEntry(rows, kinds, defs, childLinks, parentLinks, kind, owner, recs[i], ts[i])
  {
    var step := TopoSteps(rows, kinds, defs, childLinks, parentLinks, kind, owner);
    GatherMeaning(recs, step);
    forall i | 0 <= i < |recs|
      ensures IsTopoEntry(rows, kinds, defs, childLinks, parentLinks, kind, owner, recs[i], Gather(recs, step).value[i])
    {
      TopoStepMeaning(rows, kinds, defs, childLinks, parentLinks, kind, owner, recs[i]);
    }
  }

  // ---------------------------------------------------------------------------
  // The methods

  /** The descriptor loop over one neighbour kind's instances. */
  method DescribeNeighbours(kind: Kind, insts: seq<Record>) returns (r: Result<seq<InstNameAsst>>)
    ensures r == Entries(kind, insts)
  {
    var ds: seq<InstNameAsst> := [];
    var j := 0;
    while j < |insts|
      invariant 0 <= j <= |insts|
      invariant Entries(kind, insts[..j]) == Ok(ds)
    {
      assert insts[..j + 1][..j] == insts[..j];
      var id := InstIdOf(kind.id, insts[j]);
      if id.Fail? {
        GatherFailureStays(insts, rec => Entry(kind, rec), j + 1);
        return Fail(id.error);
      }
      var name := InstNameOf(kind.id, insts[j]);
      if name.Fail? {
        GatherFailureStays(insts, rec => Entry(kind, rec), j + 1);
        return Fail(name.error);
      }
      ds := ds + [InstNameAsst(FormatInt(id.value), kind.id, kind.name, kind.icon, id.value, name.value, None)];
      j := j + 1;
    }
    assert insts[..j] == insts;
    r := Ok(ds);
  }

  /** One neighbour kind added to the groups: its group found or created, its
      count grown, its descriptors appended. */
  method AddOne(groups: Groups, n: Neighbours) returns (r: Result<Groups>)
    ensures r == AddGroup(groups, n)
  {
    var ds := DescribeNeighbours(n.kind, n.insts);
    if ds.Fail? {
      return Fail(ds.error);
    }
    r := Ok(Grow(groups, n.kind, |n.insts|, ds.value));
  }

  /** The loop over one found instance's neighbour kinds, updating the groups. */
  method AddNeighbours(gs: Groups, ns: seq<Neighbours>) returns (r: Result<Groups>)
    ensures r == AddAll(gs, ns)
  {
    var groups := gs;
    var i := 0;
    while i < |ns|
      invariant 0 <= i <= |ns|
      invariant AddAll(gs, ns[..i]) == Ok(groups)
    {
      assert ns[..i + 1][..i] == ns[..i];
      var next := AddOne(groups, ns[i]);
      if next.Fail? {
        AddAllFailureStays(gs, ns, i + 1);
        return next;
      }
      groups := next.value;
      i := i + 1;
    }
    assert ns[..i] == ns;
    r := Ok(groups);
  }

  /** The loop over the found instances, building the groups. */
  method GroupFound(links: map<(ObjId, Int64), seq<Neighbours>>, obj: ObjId, recs: seq<Record>) returns (r: Result<Groups>)
    ensures r == GroupRecs(links, obj, recs)
  {
    ghost var step := (gs, rec) => GroupStep(links, obj, gs, rec);
    var groups: Groups := map[];
    var k := 0;
    while k < |recs|
      invariant 0 <= k <= |recs|
      invariant Fold(map[], recs[..k], step) == Ok(groups)
    {
      assert recs[..k + 1][..k] == recs[..k];
      var ns := NeighboursOf(links, obj, recs[k]);
      if ns.Fail? {
        FoldFailureStays(map[], recs, step, k + 1);
        return Fail(ns.error);
      }
      var next := AddNeighbours(groups, ns.value);
      if next.Fail? {
        FoldFailureStays(map[], recs, step, k + 1);
        return next;
      }
      groups := next.value;
      k := k + 1;
    }
    assert recs[..k] == recs;
    r := Ok(groups);
  }

  /** The shared body of the child and parent views. */
  method FindTopo(st: Store, links: map<(ObjId, Int64), seq<Neighbours>>, kind: Kind, instId: Int64,
                  query: Option<Cond>, owner: string) returns (r: Result<TopoView>)
    ensures r == TopoSpec(st.rows, st.kinds, st.defs, links, kind, instId, query, owner)
  {
    var cond := QueryOrDefault(query, kind.id, instId, owner);
    var found := FindInst(st, kind.id, cond, false);
    if found.Fail? {
      return Fail(found.error);
    }
    var gs := GroupFound(links, kind.id, found.value.recs);
    if gs.Fail? {
      return Fail(gs.error);
    }
    r := Ok(TopoView(|gs.value.Keys|, gs.value));
  }

  /** FindInstChildTopo. */
  method FindInstChildTopo(st: Store, kind: Kind, instId: Int64, query: Option<Cond>, owner: string)
    returns (r: Result<TopoView>)
    ensures r == TopoSpec(st.rows, st.kinds, st.defs, st.childLinks, kind, instId, query, owner)
  {
    r := FindTopo(st, st.childLinks, kind, instId, query, owner);
  }

  /** FindInstParentTopo. */
  method FindInstParentTopo(st: Store, kind: Kind, instId: Int64, query: Option<Cond>, owner: string)
    returns (r: Result<TopoView>)
    ensures r == TopoSpec(st.rows, st.kinds, st.defs, st.parentLinks, kind, instId, query, owner)
  {
    r := FindTopo(st, st.parentLinks, kind, instId, query, owner);
  }

  /** The body of FindInstTopo's loop for one found instance. */
  method FindOneTopo(st: Store, kind: Kind, owner: string, rec: Record) returns (r: Result<TopoTriple>)
    ensures r == TopoStep(st.rows, st.kinds, st.defs, st.childLinks, st.parentLinks, kind, owner, rec)
  {
    var id := InstIdOf(kind.id, rec);
    if id.Fail? {
      return Fail(id.error);
    }
    var name := InstNameOf(kind.id, rec);
    if name.Fail? {
      return Fail(name.error);
    }
    var prev := FindInstParentTopo(st, kind, id.value, None, owner);
    if prev.Fail? {
      return Fail(prev.error);
    }
    var next := FindInstChildTopo(st, kind, id.value, None, owner);
    if next.Fail? {
      return Fail(next.error);
    }
    r := Ok(TopoTriple(prev.value.groups, Current(kind, id.value, name.value), next.value.groups));
  }

  /** FindInstTopo's loop over the found instances. */
  method TopoLoop(st: Store, kind: Kind, owner: string, recs: seq<Record>) returns (r: Result<seq<TopoTriple>>)
    ensures r == TopoRecs(st.rows, st.kinds, st.defs, st.childLinks, st.parentLinks, kind, owner, recs)
  {
    ghost var step := TopoSteps(st.rows, st.kinds, st.defs, st.childLinks, st.parentLinks, kind, owner);
    var ts: seq<TopoTriple> := [];
    var k := 0;
    while k < |recs|
      invariant 0 <= k <= |recs|
      invariant Gather(recs[..k], step) == Ok(ts)
    {
      GatherSnoc(recs, step, k);
      var t := FindOneTopo(st, kind, owner, recs[k]);
      assert step(recs[k]) == t;
      if t.Fail? {
        GatherFailureStays(recs, step, k + 1);
        return Fail(t.error);
      }
      ts := ts + [t.value];
      k := k + 1;
    }
    assert recs[..k] == recs;
    r := Ok(ts);
  }

  /** FindInstTopo. */
  method FindInstTopo(st: Store, kind: Kind, instId: Int64, query: Option<Cond>, owner: string)
    returns (r: Result<seq<TopoTriple>>)
    ensures r == FindInstTopoSpec(st.rows, st.kinds, st.defs, st.childLinks, st.parentLinks, kind, instId, query, owner)
  {
    var found := FindInst(st, kind.id, QueryOrDefault(query, kind.id, instId, owner), false);
    if found.Fail? {
      return Fail(found.error);
    }
    r := TopoLoop(st, kind, owner, found.value.recs);
  }
}
