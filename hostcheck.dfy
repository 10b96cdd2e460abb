/** The deletion safety check (hasHost): a pre-order walk of the mainline
    subtree below an instance that collects what a deletion would remove, and
    that a module with a bound host vetoes. */
module HostCheck {
  import opened Common
  import opened Store

  /** innerHasHost: the host-module configuration query for a list of module ids
      reports at least one binding. */
  predicate InnerHasHost(hostModules: set<Int64>, moduleIds: seq<Int64>) {
    exists k :: 0 <= k < |moduleIds| && moduleIds[k] in hostModules
  }

  /** For the single module hasHost asks about, the query reports a binding
      exactly when that module has a host bound to it. */
  lemma InnerHasHostOne(hostModules: set<Int64>, id: Int64)
    ensures InnerHasHost(hostModules, [id]) <==> id in hostModules
  {
    if id in hostModules {
      assert [id][0] in hostModules;
    }
  }

  /** The outcome of a walk: what a deletion would remove and whether a bound
      host vetoed it. */
  datatype HostWalk = HostWalk(removal: seq<Deleted>, blocked: bool)

  /** hasHost on one mainline node. */
  function HostCheck(t: MainlineNode, hosts: set<Int64>): Result<HostWalk>
    decreases t, 1
  {
    match InstIdOf(t.obj, t.rec)
    case Fail(e) => Fail(e)
    case Ok(id) =>
      if t.obj == ObjModule && InnerHasHost(hosts, [id]) then Ok(HostWalk([], true))
      else WalkChildren(t, hosts, id, |t.children|)
  }

  /** The loop of hasHost over the first n children of node t (whose id is id),
      starting from the node itself; a blocked child ends the walk and keeps the
      list gathered so far. */
  function WalkChildren(t: MainlineNode, hosts: set<Int64>, id: Int64, n: nat): Result<HostWalk>
    requires n <= |t.children|
    decreases t, 0, n
  {
    if n == 0 then Ok(HostWalk([Deleted(t.obj, id)], false))
    else match WalkChildren(t, hosts, id, n - 1)
      case Fail(e) => Fail(e)
      case Ok(w) =>
        if w.blocked then Ok(w)
        else match HostCheck(t.children[n - 1], hosts)
          case Fail(e) => Fail(e)
          case Ok(c) =>
            if c.blocked then Ok(HostWalk(w.removal, true))
            else Ok(HostWalk(w.removal + c.removal, false))
  }

  // ---------------------------------------------------------------------------
  // Reference definitions

  /** Every node of the subtree has an instance id. */
  predicate IdsPresent(t: MainlineNode)
    decreases t
  {
    InstIdOf(t.obj, t.rec).Ok? && forall i :: 0 <= i < |t.children| ==> IdsPresent(t.children[i])
  }

  /** Some module in the subtree has a host bound to it. */
  predicate HasBoundModule(t: MainlineNode, hosts: set<Int64>)
    decreases t
  {
    (t.obj == ObjModule && InstIdOf(t.obj, t.rec).Ok? && InstIdOf(t.obj, t.rec).value in hosts)
    || exists i :: 0 <= i < |t.children| && HasBoundModule(t.children[i], hosts)
  }

  /** The nodes of the subtree in pre-order: the node, then each child's subtree in order. */
  function PreOrder(t: MainlineNode): seq<Deleted>
    requires IdsPresent(t)
    decreases t, 1
  {
    PreOrderFrom(t, |t.children|)
  }

  /** The node followed by the pre-orders of its first n children. */
  function PreOrderFrom(t: MainlineNode, n: nat): seq<Deleted>
    requires IdsPresent(t) && n <= |t.children|
    decreases t, 0, n
  {
    if n == 0 then [Deleted(t.obj, InstIdOf(t.obj, t.rec).value)]
    else PreOrderFrom(t, n - 1) + PreOrder(t.children[n - 1])
  }

  // ---------------------------------------------------------------------------
  // Properties

  /** When every node has an id, the walk succeeds; it is vetoed exactly when a
      module of the subtree has a bound host; an unvetoed walk removes the whole
      subtree in pre-order, and a vetoed one keeps a prefix of that order. */
  lemma {:induction false} HostCheckMeaning(t: MainlineNode, hosts: set<Int64>)
    requires IdsPresent(t)
    ensures var r := HostCheck(t, hosts);
      && r.Ok?
      && (r.value.blocked <==> HasBoundModule(t, hosts))
      && (!r.value.blocked ==> r.value.removal == PreOrder(t))
      && (r.value.blocked ==> r.value.removal <= PreOrder(t))
    decreases t, 1
  {
    var id := InstIdOf(t.obj, t.rec).value;
    InnerHasHostOne(hosts, id);
    WalkChildrenMeaning(t, hosts, id, |t.children|);
  }

  lemma {:induction false} WalkChildrenMeaning(t: MainlineNode, hosts: set<Int64>, id: Int64, n: nat)
    requires IdsPresent(t) && n <= |t.children| && id == InstIdOf(t.obj, t.rec).value
    ensures var r := WalkChildren(t, hosts, id, n);
      && r.Ok?
      && (r.value.blocked <==> exists i :: 0 <= i < n && HasBoundModule(t.children[i], hosts))
      && (!r.value.blocked ==> r.value.removal == PreOrderFrom(t, n))
      && (r.value.blocked ==> r.value.removal <= PreOrderFrom(t, n))
    decreases t, 0, n
  {
    if n > 0 {
      WalkChildrenMeaning(t, hosts, id, n - 1);
      var w := WalkChildren(t, hosts, id, n - 1).value;
      var prev := PreOrderFrom(t, n - 1);
      var child := t.children[n - 1];
      assert PreOrderFrom(t, n) == prev + PreOrder(child);
      if !w.blocked {
        HostCheckMeaning(child, hosts);
      }
    }
  }

  /** A vetoed child ends the walk: the children after it are never visited, so
      replacing them changes nothing. */
  lemma {:induction false} LaterSiblingsIgnored(t: MainlineNode, hosts: set<Int64>, id: Int64, j: nat,
                                                later: seq<MainlineNode>)
    requires j < |t.children|
    requires WalkChildren(t, hosts, id, j + 1).Ok? && WalkChildren(t, hosts, id, j + 1).value.blocked
    ensures var t' := MainlineNode(t.obj, t.rec, t.children[..j + 1] + later);
      WalkChildren(t', hosts, id, |t'.children|) == WalkChildren(t, hosts, id, |t.children|)
  {
    var t' := MainlineNode(t.obj, t.rec, t.children[..j + 1] + later);
    WalkSamePrefix(t, t', hosts, id, j + 1);
    WalkBlockedStays(t, hosts, id, j + 1, |t.children|);
    WalkBlockedStays(t', hosts, id, j + 1, |t'.children|);
  }

  /** The walk over the first n children depends on those children only. */
  lemma {:induction false} WalkSamePrefix(t: MainlineNode, t': MainlineNode, hosts: set<Int64>, id: Int64, n: nat)
    requires n <= |t.children| && n <= |t'.children| && t.obj == t'.obj
    requires t.children[..n] == t'.children[..n]
    ensures WalkChildren(t, hosts, id, n) == WalkChildren(t', hosts, id, n)
  {
    if n > 0 {
      assert t.children[..n - 1] == t.children[..n][..n - 1];
      assert t'.children[..n - 1] == t'.children[..n][..n - 1];
      WalkSamePrefix(t, t', hosts, id, n - 1);
      assert t.children[n - 1] == t.children[..n][n - 1];
    }
  }

  /** Once vetoed, the walk stays vetoed with the same list. */
  lemma {:induction false} WalkBlockedStays(t: MainlineNode, hosts: set<Int64>, id: Int64, n: nat, m: nat)
    requires n <= m <= |t.children|
    requires WalkChildren(t, hosts, id, n).Ok? && WalkChildren(t, hosts, id, n).value.blocked
    ensures WalkChildren(t, hosts, id, m) == WalkChildren(t, hosts, id, n)
    decreases m
  {
    if m > n {
      WalkBlockedStays(t, hosts, id, n, m - 1);
    }
  }

  /** Once failed, the walk stays failed with the same error. */
  lemma {:induction false} WalkFailureStays(t: MainlineNode, hosts: set<Int64>, id: Int64, n: nat, m: nat)
    requires n <= m <= |t.children|
    requires WalkChildren(t, hosts, id, n).Fail?
    ensures WalkChildren(t, hosts, id, m) == WalkChildren(t, hosts, id, n)
    decreases m
  {
    if m > n {
      WalkFailureStays(t, hosts, id, n, m - 1);
    }
  }

  // ---------------------------------------------------------------------------
  // The walk

  /** hasHost: the module veto, then the recursive walk over the mainline children. */
  method HasHost(st: Store, t: MainlineNode) returns (r: Result<HostWalk>)
    ensures r == HostCheck(t, st.hostModules)
    decreases t
  {
    var cur := InstIdOf(t.obj, t.rec);
    if cur.Fail? {
      return Fail(cur.error);
    }
    var id := cur.value;
    if !IsCommon(t.obj) && ObjectType(t.obj) == ObjModule {
      var bound := InnerHasHost(st.hostModules, [id]);
      if bound {
        return Ok(HostWalk([], true));
      }
    }
    assert !(t.obj == ObjModule && InnerHasHost(st.hostModules, [id]));
    var ids := [Deleted(t.obj, id)];
    var i := 0;
    while i < |t.children|
      invariant 0 <= i <= |t.children|
      invariant WalkChildren(t, st.hostModules, id, i) == Ok(HostWalk(ids, false))
    {
      var c := HasHost(st, t.children[i]);
      if c.Fail? {
        WalkFailureStays(t, st.hostModules, id, i + 1, |t.children|);
        return Fail(c.error);
      }
      if c.value.blocked {
        WalkBlockedStays(t, st.hostModules, id, i + 1, |t.children|);
        return Ok(HostWalk(ids, true));
      }
      ids := ids + c.value.removal;
      i := i + 1;
    }
    r := Ok(HostWalk(ids, false));
  }
}
