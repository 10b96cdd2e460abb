/** Shared vocabulary of the topology server's instance operations: identifiers,
    dynamically typed attribute values, association edges and definitions, the
    error taxonomy, and the per-kind metadata (instance-id field, collection)
    that every query is built from. */
module Common {

  datatype Option<T> = None | Some(value: T)

  /** An operation either yields a value or fails with an error. */
  datatype Result<T> = Ok(value: T) | Fail(error: Err)

  /** Go's int64: instance ids are 64-bit signed integers. */
  type Int64 = x: int | -0x8000_0000_0000_0000 <= x < 0x8000_0000_0000_0000

  const MaxInt64: int := 0x7fff_ffff_ffff_ffff

  type ObjId = string

  /** The error outcomes the operations distinguish. */
  datatype Err =
    | ParseFailed(token: string)     // strconv.ParseInt rejected a token
    | InstIdMissing                  // the record has no integer instance-id field
    | InstNameMissing                // the record has no string instance-name field
    | TypeMismatch(field: string)    // a field that should hold a string holds something else
    | ObjectNotFound(objId: ObjId)   // no object definition for this kind
    | HasHostCheckFailed             // CCErrTopoHasHostCheckFailed
    | BeAssociated(objId: ObjId, instId: Int64) // another instance still refers to this one
    | Collaborator(code: int)        // an error reported by an opaque collaborator
    | ParamsNeedSet(field: string)   // CCErrCommParamsNeedSet: a required parameter is empty
    | DuplicateItem                  // CCErrCommDuplicateItem: the validator found an equal instance
    | SearchPropertyFailed           // CCErrCommSearchPropertyFailed
    | InstSelectFailed               // CCErrTopoInstSelectFailed

  /** A dynamically typed attribute value, as found in an instance record. */
  datatype Value =
    | Str(s: string)
    | Int(i: Int64)
    | IdSet(ids: set<Int64>)         // an id list used as the argument of "$in"
    | Refs(refs: seq<InstNameAsst>)  // resolved association descriptors
    | Other(tag: string)             // any other Go type (bool, nested map, a number GetInstID cannot read, ...)

  type Record = map<string, Value>

  /** metadata.InstNameAsst: a lightweight descriptor of an associated instance. */
  datatype InstNameAsst = InstNameAsst(
    id: string, objId: ObjId, objName: string, objIcon: string,
    instId: Int64, instName: string, instInfo: Option<Record>)

  /** The display metadata of an object kind (model.Object). */
  datatype Kind = Kind(id: ObjId, name: string, icon: string)

  /** metadata.InstAsst: one persisted association edge. */
  datatype Edge = Edge(objId: ObjId, instId: Int64, asstObjId: ObjId, asstInstId: Int64)

  /** metadata.Association: attribute attId of kind objId refers to kind asstObjId. */
  datatype AsstDef = AsstDef(objId: ObjId, attId: string, asstObjId: ObjId)

  /** An attribute of an object kind, as far as the operations look at it. */
  datatype Attr = Attr(id: string, isAssociation: bool)

  /** One clause of a store query: a plain value (equality) or an operator document. */
  datatype Filter = Is(v: Value) | Op(op: string, arg: Value)

  /** A store query: a conjunction of clauses, one per field. */
  type Cond = map<string, Filter>

  /** One node of the mainline (containment) hierarchy with its child subtrees. */
  datatype MainlineNode = MainlineNode(obj: ObjId, rec: Record, children: seq<MainlineNode>)

  /** An object kind with the instances of it that are linked to one instance
      (inst.ObjectWithInsts, as returned by GetChildObjectWithInsts and
      GetParentObjectWithInsts). */
  datatype Neighbours = Neighbours(kind: Kind, insts: seq<Record>)

  /** One entry of the deletion list built by the host check (deletedInst). */
  datatype Deleted = Deleted(obj: ObjId, id: Int64)

  // Field names and operators of the record store.
  const OwnerField: string := "bk_supplier_account"
  const ObjIdField: string := "bk_obj_id"
  const InstIdField: string := "bk_inst_id"
  const AsstInstIdField: string := "bk_asst_inst_id"
  const AsstObjIdField: string := "bk_asst_obj_id"
  const ChildStr: string := "bk_childid"
  const InstParentStr: string := "bk_parentid"
  const DbEq: string := "$eq"
  const DbIn: string := "$in"
  /** The separator of an association attribute's id list (InstAsstIDSplit). */
  const InstAsstIdSplit: char := ','

  // Built-in kinds.
  const ObjBiz: ObjId := "biz"
  const ObjSet: ObjId := "set"
  const ObjModule: ObjId := "module"
  const ObjHost: ObjId := "host"
  const ObjPlat: ObjId := "plat"
  const ObjProc: ObjId := "process"
  /** The collection that holds the instances of every user-defined kind. */
  const ObjCommon: ObjId := "object"

  /** A user-defined ("common") kind is any kind that is not built in. */
  predicate IsCommon(obj: ObjId) {
    obj !in {ObjBiz, ObjSet, ObjModule, ObjHost, ObjPlat, ObjProc}
  }

  /** The collection a kind's instances live in: built-in kinds have their own,
      common kinds share one and are told apart by their bk_obj_id field. */
  function ObjectType(obj: ObjId): (t: string)
    ensures IsCommon(obj) <==> t == ObjCommon
  {
    if IsCommon(obj) then ObjCommon else obj
  }

  /** The field that holds an instance's numeric id. */
  function InstIdFieldOf(obj: ObjId): string {
    if obj == ObjBiz then "bk_biz_id"
    else if obj == ObjSet then "bk_set_id"
    else if obj == ObjModule then "bk_module_id"
    else if obj == ObjHost then "bk_host_id"
    else if obj == ObjPlat then "bk_cloud_id"
    else if obj == ObjProc then "bk_process_id"
    else InstIdField
  }

  /** The field that holds an instance's display name. */
  function InstNameFieldOf(obj: ObjId): string {
    if obj == ObjBiz then "bk_biz_name"
    else if obj == ObjSet then "bk_set_name"
    else if obj == ObjModule then "bk_module_name"
    else if obj == ObjHost then "bk_host_innerip"
    else if obj == ObjPlat then "bk_cloud_name"
    else if obj == ObjProc then "bk_process_name"
    else "bk_inst_name"
  }

  /** inst.GetInstID: the record's id field read as an int64. */
  function InstIdOf(obj: ObjId, rec: Record): (r: Result<Int64>)
    ensures r.Ok? <==> InstIdFieldOf(obj) in rec && rec[InstIdFieldOf(obj)].Int?
    ensures r.Ok? ==> rec[InstIdFieldOf(obj)] == Int(r.value)
  {
    var f := InstIdFieldOf(obj);
    if f in rec && rec[f].Int? then Ok(rec[f].i) else Fail(InstIdMissing)
  }

  /** inst.GetInstName: the record's name field read as a string. */
  function InstNameOf(obj: ObjId, rec: Record): Result<string> {
    StringField(rec, InstNameFieldOf(obj))
  }

  /** MapStr.String: an absent field reads as "", a string as itself; a value of
      another type fails. */
  function StringField(rec: Record, f: string): (r: Result<string>)
    ensures r.Ok? <==> f !in rec || rec[f].Str?
    ensures r.Ok? && f in rec ==> rec[f] == Str(r.value)
    ensures f !in rec ==> r == Ok("")
  {
    if f !in rec then Ok("")
    else if rec[f].Str? then Ok(rec[f].s) else Fail(TypeMismatch(f))
  }
}
