/** The remote collaborators of the instance operations, replaced by in-memory
    state: the record store (collections of instance records, kept in store
    order), the association-edge store, the host-binding store, the mainline
    hierarchy, and the model layer's object and association definitions. */
module Store {
  import opened Common

  /** One persisted instance record and the collection it lives in. */
  datatype Row = Row(table: string, rec: Record)

  /** How one clause of a query judges one record: a plain value and "$eq" mean
      equality, "$in" membership of an integer field in an id set. Other
      operators are not evaluated here and match nothing. */
  predicate FieldMatches(rec: Record, f: string, flt: Filter) {
    match flt
    case Is(v) => f in rec && rec[f] == v
    case Op(op, arg) =>
      if op == DbEq then f in rec && rec[f] == arg
      else if op == DbIn then f in rec && rec[f].Int? && arg.IdSet? && rec[f].i in arg.ids
      else false
  }

  /** A record satisfies a condition when it satisfies every clause. */
  predicate Matches(rec: Record, cond: Cond) {
    forall f :: f in cond ==> FieldMatches(rec, f, cond[f])
  }

  /** SearchObjects / GetHosts: the records of one collection that satisfy the
      condition, in store order. */
  function Query(rows: seq<Row>, table: string, cond: Cond): seq<Record>
  {
    if rows == [] then []
    else
      var rest := Query(rows[1..], table, cond);
      if rows[0].table == table && Matches(rows[0].rec, cond) then [rows[0].rec] + rest else rest
  }

  /** A query returns exactly the records of the collection that satisfy the
      condition: each result is such a stored record, and each such stored record
      is among the results. */
  lemma {:induction false} QueryMeaning(rows: seq<Row>, table: string, cond: Cond)
    ensures |Query(rows, table, cond)| <= |rows|
    ensures forall rec :: rec in Query(rows, table, cond) ==>
      exists i :: 0 <= i < |rows| && rows[i] == Row(table, rec) && Matches(rec, cond)
    ensures forall i :: 0 <= i < |rows| && rows[i].table == table && Matches(rows[i].rec, cond) ==>
      rows[i].rec in Query(rows, table, cond)
  {
    if rows != [] {
      QueryMeaning(rows[1..], table, cond);
      assert forall i :: 1 <= i < |rows| ==> rows[i] == rows[1..][i - 1];
    }
  }

  /** SearchObjectAssociation: the association definitions declared on one kind. */
  function AssociationsOf(defs: seq<AsstDef>, obj: ObjId): (r: seq<AsstDef>)
    ensures forall d :: d in r <==> d in defs && d.objId == obj
  {
    if defs == [] then []
    else (if defs[0].objId == obj then [defs[0]] else []) + AssociationsOf(defs[1..], obj)
  }

  /** A property group of the model layer (model.Group). */
  datatype Group = Group(id: string, name: string, owner: string, objId: ObjId)

  /** An attribute definition of the model layer (metadata.Attribute): the keys
      it is looked up by, the group it belongs to, whether it is of an
      association type, and its remaining settings. */
  datatype Property = Property(owner: string, objId: ObjId, propertyId: string, groupName: string,
                               groupId: string, isAssociation: bool, settings: Record)

  /** The state the instance operations read and write through remote calls. */
  class Store {
    /** Instance records of every collection, in store order. */
    var rows: seq<Row>
    /** Association edges between instances. */
    var edges: set<Edge>
    /** Ids of the modules that have at least one host bound to them. */
    var hostModules: set<Int64>
    /** The mainline child subtrees below each (kind, instance id). */
    var mainline: map<(ObjId, Int64), seq<MainlineNode>>
    /** Association definitions of the model layer. */
    var defs: seq<AsstDef>
    /** Object definitions of the model layer, by kind id (FindSingleObject). */
    var kinds: map<ObjId, Kind>
    /** Property groups and attribute definitions of the model layer, in store order. */
    var groups: seq<Group>
    var props: seq<Property>
    /** The child and parent neighbours of each (kind, instance id), grouped by kind. */
    var childLinks: map<(ObjId, Int64), seq<Neighbours>>
    var parentLinks: map<(ObjId, Int64), seq<Neighbours>>
  }

  /** An instance held in memory (inst.Inst): its kind and its attribute values,
      which SetValue changes without writing to the store. */
  class Instance {
    const obj: ObjId
    var values: Record

    constructor (obj: ObjId, values: Record)
      ensures this.obj == obj && this.values == values
    {
      this.obj := obj;
      this.values := values;
    }
  }
}
