# Instance and batch operations of the CMDB topology server

This project is a Dafny model of the operation layer of the bk-cmdb topology
server (`src/scene_server/topo_server/core/operation`). That layer is what the HTTP handlers
call to:

- create, read, update and delete instances of object kinds;
- keep an instance's association attributes in step with the association-edge
  store;
- answer topology questions: the parent and child neighbours of an instance,
  and the instances associated with given instances;
- import and export object models and instance data in batches.

The remote stores the code talks to are replaced by in-memory state:

- the instance records, kept in store order;
- the association edges;
- the module-to-host bindings;
- the mainline hierarchy;
- the model layer's object, group, attribute and association definitions.

Each operation is a specification function over that state. Where the source loops
or updates objects, a method with the same loop is proved equal to its
specification function. The properties the code promises are then proved about
the specification functions as lemmas.

The modules follow the program's structure:

| module | models |
|---|---|
| `Common` | ids, dynamically typed values, records, edges, association definitions, error kinds, per-kind metadata (`IsCommon`, `GetObjectType`, instance-id and instance-name fields) |
| `Text` | `strings.Split`/`Join`, `strings.TrimSpace` blank test, `strconv.ParseInt(s, 10, 64)` and `strconv.Itoa` |
| `Store` | the remote state (class `Store`), in-memory instances (class `Instance`), query semantics of `SearchObjects` |
| `Lookup` | id-list parsing, `isValidInstID`, `convertInstIDIntoStruct`, `FindInst` with association expansion, `searchAssociationInst` |
| `Sync` | `setInstAsst` |
| `HostCheck` | `innerHasHost`, `hasHost` |
| `Delete` | `DeleteInstByInstID`, `DeleteInst` |
| `InstWrite` | `CreateInst`, `UpdateInst` |
| `Topology` | `FindInstChildTopo`, `FindInstParentTopo`, `FindInstTopo` |
| `AssociationQuery` | `FindInstByAssociationInst` |
| `ObjectBatch` | `setErrors`, `getGroup`, `setObjectAttribute`, `CreateObjectBatch`, `FindObjectBatch` |
| `InstBatch` | `CreateInstBatch` |

Calls into code outside these files are parameters of the model: validators,
the Excel row mapping, attribute parsing, `xid` generation, string escaping and
the failures of remote calls. Each is a function argument (an oracle), so every
contract holds whatever those collaborators answer.

## Model

All paths are under `src/scene_server/topo_server/core/operation/`; the table
writes them in full.

| member | source | states |
|---|---|---|
| Common.ObjectType | src/scene_server/topo_server/core/operation/inst.go:150-158 | a kind is stored in the shared "object" collection exactly when it is a user-defined (common) kind |
| Common.InstIdOf | src/scene_server/topo_server/core/operation/inst.go:105-108 | `GetInstID` succeeds exactly when the record holds an integer under the kind's instance-id field, and returns that integer |
| Common.StringField | src/scene_server/topo_server/core/operation/object_batch.go:155-158 | `MapStr.String` on a field: fails exactly when the field holds a non-string; a missing field reads as the empty string |
| Text.Split | src/scene_server/topo_server/core/operation/inst_association.go:63 | `strings.Split` yields at least one part, no part contains the separator, and joining the parts gives back the input |
| Text.SplitJoin | src/scene_server/topo_server/core/operation/inst_association.go:63 | splitting a join of separator-free parts gives back exactly those parts |
| Text.ParseInt64 | src/scene_server/topo_server/core/operation/inst_association.go:69 | `strconv.ParseInt(s, 10, 64)` never accepts an empty or blank token |
| Text.DigitsRoundTrip | src/scene_server/topo_server/core/operation/inst_association.go:108 | the decimal digits of a natural number are digits and read back as that number |
| Text.FormatNonNegativeRoundTrip | src/scene_server/topo_server/core/operation/inst_association.go:108 | `strconv.Itoa` of a non-negative int64 parses back to the same value |
| Text.FormatNegativeRoundTrip | src/scene_server/topo_server/core/operation/inst_association.go:108 | `strconv.Itoa` of a negative int64, including the minimum, parses back to the same value |
| Text.FormatIntRoundTrip | src/scene_server/topo_server/core/operation/inst_association.go:108-117 | every int64 written by `Itoa` parses back to itself and is a non-blank token free of the "," separator |
| Store.QueryMeaning | src/scene_server/topo_server/core/operation/inst.go:154-169 | a search returns exactly the records of the collection that satisfy every clause of the condition: each result is such a stored record and each such record is returned |
| Store.AssociationsOf | src/scene_server/topo_server/core/operation/inst_association.go:42 | `SearchObjectAssociation` returns exactly the association definitions of the object kind |
| Store.Instance.constructor | src/scene_server/topo_server/core/operation/inst.go:180-181 | a new in-memory instance has the kind and the values it was given |
| Lookup.ParseIdTokensOutcome | src/scene_server/topo_server/core/operation/inst_association.go:133-144 | parsing an id list succeeds exactly when every token is blank or an int64; on failure the error names the first token that is neither |
| Lookup.ParseFailureStays | src/scene_server/topo_server/core/operation/inst_association.go:138-141 | the first unparsable token ends the loop: no later token changes the result |
| Lookup.IdTokensAt | src/scene_server/topo_server/core/operation/inst_association.go:108 | the i-th token written for an id list is `Itoa` of the i-th id |
| Lookup.ParseIdTokensOfFormatted | src/scene_server/topo_server/core/operation/inst_association.go:100-108 | parsing the tokens written for a list of ids gives back exactly that list |
| Lookup.IdListRoundTrip | src/scene_server/topo_server/core/operation/inst_association.go:117 | the attribute value `setInstAsst` writes (ids joined by ",") splits and parses back to exactly the ids written |
| Lookup.ParseInstIds | src/scene_server/topo_server/core/operation/inst_association.go:133-144 | the parsing loop (blank tokens skipped, first bad token fails) computes the id-list specification |
| Lookup.ValidInstIDMeaning | src/scene_server/topo_server/core/operation/inst.go:146-174 | an id is valid exactly when the kind's collection holds a record with that instance id, and, for a common kind, with `bk_obj_id` equal to the kind |
| Lookup.DescribeMeaning | src/scene_server/topo_server/core/operation/inst_association.go:164-197 | every found record gives one descriptor, in order, carrying its id, its name, the kind's id, name and icon, and the full record exactly when detail is asked for |
| Lookup.DescribeFailureStays | src/scene_server/topo_server/core/operation/inst_association.go:166-173 | a record without a name or id ends the conversion with that error |
| Lookup.DescribeFound | src/scene_server/topo_server/core/operation/inst_association.go:164-197 | the descriptor loop computes the descriptor specification |
| Lookup.ConvertInstIdsSound | src/scene_server/topo_server/core/operation/inst_association.go:126-198 | on success the target kind exists and the ids parse; every descriptor is for a listed id of that kind that a stored record carries, with instance info exactly when detail is asked for |
| Lookup.ConvertInstIdsComplete | src/scene_server/topo_server/core/operation/inst_association.go:146-197 | every stored record of the target kind whose id is listed gets a descriptor |
| Lookup.ConvertInstIdIntoStruct | src/scene_server/topo_server/core/operation/inst_association.go:126-198 | the method computes the conversion specification: unknown kind, unparsable token or unreadable record fail, otherwise the descriptors of the matching records |
| Lookup.ExpandAttrMeaning | src/scene_server/topo_server/core/operation/inst.go:358-378 | expanding one association attribute keeps every other field and the key set; `bk_childid`/`bk_parentid` and absent attributes are left alone; otherwise the string value is replaced by the descriptors of its id list |
| Lookup.ExpandRecordMeaning | src/scene_server/topo_server/core/operation/inst.go:358-379 | expanding a record over all association definitions keeps the key set and the non-association fields, and replaces each present association attribute by the descriptors of its id list |
| Lookup.ExpandRecordFailureStays | src/scene_server/topo_server/core/operation/inst.go:367-376 | the first failing attribute ends `FindInst` with its error |
| Lookup.ExpandAllMeaning | src/scene_server/topo_server/core/operation/inst.go:356-380 | every found record is expanded, in order, one result per record |
| Lookup.ExpandAllFailureStays | src/scene_server/topo_server/core/operation/inst.go:367-376 | a record whose expansion fails ends the search with that error |
| Lookup.FindInstMeaning | src/scene_server/topo_server/core/operation/inst.go:342-382 | `FindInst` returns the count of matching records and one expanded record for each, in store order |
| Lookup.ExpandOne | src/scene_server/topo_server/core/operation/inst.go:358-378 | the body for one association attribute computes its expansion: pseudo and absent attributes left alone, an unreadable value or failed conversion returned as the error, otherwise the descriptors |
| Lookup.ExpandRecordLoop | src/scene_server/topo_server/core/operation/inst.go:358-379 | the per-attribute loop computes the record expansion specification |
| Lookup.FindInst | src/scene_server/topo_server/core/operation/inst.go:342-382 | the method computes the `FindInst` specification |
| Lookup.IdsOfMeaning | src/scene_server/topo_server/core/operation/inst_association.go:213-220 | reading ids succeeds exactly when every found record has one; the ids are those of the records, in order |
| Lookup.IdsOfFailureStays | src/scene_server/topo_server/core/operation/inst_association.go:215-218 | the first record without an id ends the search with that error |
| Lookup.IdsLoop | src/scene_server/topo_server/core/operation/inst_association.go:213-220 | the id loop computes the ids of the found records, failing at the first record without one |
| Lookup.SearchAssociationInst | src/scene_server/topo_server/core/operation/inst_association.go:200-223 | the method computes the specification: unknown kind fails, otherwise the ids of the instances the query finds |
| Sync.FirstDef | src/scene_server/topo_server/core/operation/inst_association.go:84-88 | the definition used for an attribute is the first one naming it, and there is none exactly when no definition names it |
| Sync.FindDef | src/scene_server/topo_server/core/operation/inst_association.go:84-88 | the search loop with its `break` computes `FirstDef` |
| Sync.ReadIds | src/scene_server/topo_server/core/operation/inst_association.go:59-81 | reading an attribute's ids (a string list, descriptors, or another type giving none) computes the id-reading specification |
| Sync.ValidIdsMeaning | src/scene_server/topo_server/core/operation/inst_association.go:100-108 | the kept ids are exactly the listed ids that `isValidInstID` accepts, and never more than listed |
| Sync.ValidIdsAppend | src/scene_server/topo_server/core/operation/inst_association.go:101-108 | filtering distributes over concatenation: ids are judged one at a time |
| Sync.ValidIdsOfValid | src/scene_server/topo_server/core/operation/inst_association.go:101-108 | a list of valid ids is kept whole, in order |
| Sync.ValidIdsIdempotent | src/scene_server/topo_server/core/operation/inst_association.go:101-108 | filtering an already filtered list changes nothing |
| Sync.SyncAttrEffect | src/scene_server/topo_server/core/operation/inst_association.go:48-119 | for an association attribute with readable ids, the (kind, instance, target kind) edges become exactly the valid listed ids; all other edges are kept; the value is rewritten to the joined valid ids and reads back as them |
| Sync.SyncAttrOf | src/scene_server/topo_server/core/operation/inst_association.go:89-117 | the synchronisation of one attribute deletes the edge triple, adds an edge per valid id and writes back the joined valid ids |
| Sync.SyncAttrLeavesAlone | src/scene_server/topo_server/core/operation/inst_association.go:49-57 | a non-association or absent attribute, or one with no definition, changes nothing; an unparsable token fails |
| Sync.UnsupportedValueWipes | src/scene_server/topo_server/core/operation/inst_association.go:60-61 | a value that is neither a string nor descriptors deletes the edge triple and is rewritten to the empty string |
| Sync.RewrittenValueReadsBack | src/scene_server/topo_server/core/operation/inst_association.go:117 | the value written back reads as exactly the valid ids |
| Sync.TripleRewriteIdempotent | src/scene_server/topo_server/core/operation/inst_association.go:90-113 | deleting the triple and re-adding the same targets twice equals doing it once |
| Sync.SyncAttrIdempotent | src/scene_server/topo_server/core/operation/inst_association.go:48-119 | synchronising an attribute a second time changes nothing |
| Sync.SyncAllFailureStays | src/scene_server/topo_server/core/operation/inst_association.go:69-73 | the first failing attribute ends `setInstAsst` with its error |
| Sync.SyncAllKeepsOthers | src/scene_server/topo_server/core/operation/inst_association.go:31-124 | `setInstAsst` keeps the instance's set of fields and touches no edge of another instance |
| Sync.SyncAllIdempotent | src/scene_server/topo_server/core/operation/inst_association.go:31-124 | running `setInstAsst` again over the same attributes on the state it reached returns that state unchanged, with no error |
| Sync.SyncAllEffect | src/scene_server/topo_server/core/operation/inst_association.go:31-124 | after a successful `setInstAsst`, every association attribute with a definition that no later linking attribute of the same target kind overrides has exactly the edges to its valid ids in its triple, and its value reads back as those ids |
| Sync.LaterAttributeWins | src/scene_server/topo_server/core/operation/inst_association.go:84-119 | of two association attributes naming the same target kind, `setInstAsst` leaves exactly the later one's valid ids as edges to that kind: the earlier one's edges are deleted with the triple |
| Sync.Relink | src/scene_server/topo_server/core/operation/inst_association.go:90-117 | the relinking loop replaces the triple's edges by edges to the valid ids and returns their joined list |
| Sync.SyncAttribute | src/scene_server/topo_server/core/operation/inst_association.go:48-119 | the per-attribute body updates edges and values as the specification says, and on failure changes neither |
| Sync.SetInstAsst | src/scene_server/topo_server/core/operation/inst_association.go:31-124 | an instance without an id fails unchanged; otherwise the store's edges and the instance's values become those of the synchronisation specification |
| HostCheck.InnerHasHostOne | src/scene_server/topo_server/core/operation/inst.go:85-102 | a module has a host exactly when it is among the host-bound modules |
| HostCheck.HostCheckMeaning | src/scene_server/topo_server/core/operation/inst.go:103-145 | the walk is blocked exactly when the subtree holds a module with a bound host; an unblocked walk lists the subtree in pre-order; a blocked one a prefix of it |
| HostCheck.WalkChildrenMeaning | src/scene_server/topo_server/core/operation/inst.go:132-142 | after the first n children the walk is blocked exactly when one of them holds a bound module, and lists the root and their subtrees in pre-order otherwise |
| HostCheck.LaterSiblingsIgnored | src/scene_server/topo_server/core/operation/inst.go:138-140 | once a child blocks the walk, later siblings make no difference |
| HostCheck.WalkBlockedStays | src/scene_server/topo_server/core/operation/inst.go:138-140 | a blocked walk returns its partial list unchanged |
| HostCheck.WalkFailureStays | src/scene_server/topo_server/core/operation/inst.go:134-137 | a child's failure ends the walk with that error |
| HostCheck.HasHost | src/scene_server/topo_server/core/operation/inst.go:103-145 | the method computes the host-check specification |
| Delete.RemoveMatchingMeaning | src/scene_server/topo_server/core/operation/inst.go:261 | `DelObject` removes exactly the records of the collection that match the condition |
| Delete.CollectRemovalsMeaning | src/scene_server/topo_server/core/operation/inst.go:220-232 | the check succeeds exactly when no found instance's walk is blocked, fails only with CCErrTopoHasHostCheckFailed, and the removal list is exactly the union of the walks' lists |
| Delete.CollectFailureStays | src/scene_server/topo_server/core/operation/inst.go:222-229 | the first blocked instance ends the check |
| Delete.DeleteVetoIffBoundHost | src/scene_server/topo_server/core/operation/inst.go:220-232 | deletion is refused exactly when some found instance's subtree holds a module with a bound host |
| Delete.WalkStartsAtRoot | src/scene_server/topo_server/core/operation/inst.go:125-126 | an unblocked walk lists the instance itself first |
| Delete.DeleteVetoedLeavesStore | src/scene_server/topo_server/core/operation/inst.go:220-234 | when the check refuses, nothing is removed: all checks run before the removal loop |
| Delete.RemoveFailureStays | src/scene_server/topo_server/core/operation/inst.go:241-244 | the first refused instance ends the removal loop: later entries change nothing |
| Delete.RemoveOnlyRemoves | src/scene_server/topo_server/core/operation/inst.go:234-275 | the removal loop only removes records and edges |
| Delete.RemoveEffect | src/scene_server/topo_server/core/operation/inst.go:234-275 | after a successful removal no listed instance has an incoming edge, an outgoing edge or a record, and every other edge and record is kept |
| Delete.RemoveRefusal | src/scene_server/topo_server/core/operation/inst.go:237-244 | a refusal names a listed instance that is still associated, and that instance's record is kept |
| Delete.RefusedNotPassed | src/scene_server/topo_server/core/operation/inst.go:241-244 | a completed removal passed the association check for every listed instance |
| Delete.RemoveKeepsOthers | src/scene_server/topo_server/core/operation/inst.go:234-275 | the record of an instance not on the list is kept |
| Delete.InstCondsDisjoint | src/scene_server/topo_server/core/operation/inst.go:205-210 | no record of a collection matches the lookups of two different instances |
| Delete.BatchCondCovers | src/scene_server/topo_server/core/operation/inst.go:205-210 | a record matched by one instance's lookup is matched by the lookup of any batch containing its id |
| Delete.FoundCarriesId | src/scene_server/topo_server/core/operation/inst.go:215-218 | the lookup of the batch finds every stored instance with a listed id, with its id intact |
| Delete.FoundIsListed | src/scene_server/topo_server/core/operation/inst.go:231 | every found instance is on the removal list |
| Delete.DeleteByIdsRemoves | src/scene_server/topo_server/core/operation/inst.go:203-277 | after a successful `DeleteInstByInstID` no record of a listed id remains |
| Delete.DeleteByIdsOnlyRemoves | src/scene_server/topo_server/core/operation/inst.go:203-277 | `DeleteInstByInstID` only removes records |
| Delete.DeleteEachFailureStays | src/scene_server/topo_server/core/operation/inst.go:291-299 | the first failing instance ends `DeleteInst` with its error |
| Delete.DeleteEachRemoves | src/scene_server/topo_server/core/operation/inst.go:291-301 | after the loop completes every matched instance had an id and none of their records remain |
| Delete.DeleteInstRemoves | src/scene_server/topo_server/core/operation/inst.go:279-304 | after a successful `DeleteInst` no record of an instance the condition matched remains |
| Delete.AsWrittenKeepsOutgoing | src/scene_server/topo_server/core/operation/inst.go:251-258 | as written, no edge whose target is of another kind is ever deleted |
| Delete.OutgoingEdgeSurvives | src/scene_server/topo_server/core/operation/inst.go:251-258 | a business with an edge to a host: as written the edge survives the deletion; as intended it is gone |
| Delete.RefusedRecordDeleted | src/scene_server/topo_server/core/operation/inst.go:261 | deleting businesses 1 and 2 with 2 still associated: as written both records are gone; as intended record 2 is kept |
| Delete.DescendantRecordSurvives | src/scene_server/topo_server/core/operation/inst.go:234-261 | deleting a business with a set below it: as written the set's record survives; as intended it is removed |
| Delete.CollectRemovalLists | src/scene_server/topo_server/core/operation/inst.go:220-232 | the check loop computes the removal-list specification |
| Delete.RemoveEntries | src/scene_server/topo_server/core/operation/inst.go:234-275 | the removal loop computes the intended removal specification |
| Delete.DeleteInstByInstID | src/scene_server/topo_server/core/operation/inst.go:203-277 | the method changes the store as the intended `DeleteInstByInstID` specification says |
| Delete.DeleteOne | src/scene_server/topo_server/core/operation/inst.go:292-299 | one round of `DeleteInst`: a missing id fails, otherwise the instance is deleted by its id |
| Delete.DeleteInst | src/scene_server/topo_server/core/operation/inst.go:279-304 | the method changes the store as the `DeleteInst` specification says |
| InstWrite.UpdateMatchingMeaning | src/scene_server/topo_server/core/operation/inst.go:417-421 | `UpdateObject` merges the data into exactly the records that match the condition and leaves the rest, in place |
| InstWrite.CreateInstEffect | src/scene_server/topo_server/core/operation/inst.go:176-201 | an accepted create appends exactly one record, with the new id and every given field, and changes no edge of another instance |
| InstWrite.CreateInst | src/scene_server/topo_server/core/operation/inst.go:176-201 | the method changes the store as specified; it returns an instance exactly when there is no error, holding the values after association synchronisation |
| InstWrite.SyncEachKeepsOthers | src/scene_server/topo_server/core/operation/inst.go:404-414 | synchronising the found instances touches no edge of any other instance |
| InstWrite.SyncEachFailureStays | src/scene_server/topo_server/core/operation/inst.go:410-413 | the first failing synchronisation ends `UpdateInst` with its error |
| InstWrite.UpdateLookupById | src/scene_server/topo_server/core/operation/inst.go:394-398 | with a positive id, the association lookup matches exactly the record with that id |
| InstWrite.UpdateInstEffect | src/scene_server/topo_server/core/operation/inst.go:384-435 | a refused validation returns its error unchanged; any failure leaves the records; success merges the data into exactly the records the caller's condition matches |
| InstWrite.SetValues | src/scene_server/topo_server/core/operation/inst.go:406-408 | `SetValue` for each key overrides the instance's values with the data |
| InstWrite.SyncOne | src/scene_server/topo_server/core/operation/inst.go:404-413 | one found instance takes the new values and has its associations synchronized under the id it then holds |
| InstWrite.SyncFound | src/scene_server/topo_server/core/operation/inst.go:404-414 | the loop computes the synchronisation specification over the found instances |
| InstWrite.UpdateInst | src/scene_server/topo_server/core/operation/inst.go:384-435 | the method changes the store as the `UpdateInst` specification says |
| Topology.GatherOk | src/scene_server/topo_server/core/operation/inst_association.go:262-283 | collecting descriptors succeeds exactly when every instance gives one |
| Topology.GatherMeaning | src/scene_server/topo_server/core/operation/inst_association.go:262-283 | collected descriptors are one per instance, in order |
| Topology.GatherFailureStays | src/scene_server/topo_server/core/operation/inst_association.go:265-273 | the first instance without id or name ends the collection |
| Topology.WellFormedEntryParses | src/scene_server/topo_server/core/operation/inst_association.go:275-276 | a descriptor's string id parses back to its numeric id |
| Topology.EntriesOk | src/scene_server/topo_server/core/operation/inst_association.go:262-283 | the neighbours of a kind can be described exactly when each has an id and a name |
| Topology.EntriesMeaning | src/scene_server/topo_server/core/operation/inst_association.go:262-283 | each neighbour gives a descriptor with its id, its name, the string id and the kind's metadata |
| Topology.AddGroupCounts | src/scene_server/topo_server/core/operation/inst_association.go:250-260 | adding one kind's neighbours creates its group if absent and raises its count by the number of instances |
| Topology.AddGroupKeepsShape | src/scene_server/topo_server/core/operation/inst_association.go:250-283 | every group stays keyed by its kind, with one well-formed descriptor per counted instance |
| Topology.AddAllOk | src/scene_server/topo_server/core/operation/inst_association.go:248-284 | grouping succeeds exactly when every neighbour can be described |
| Topology.AddAllFailureStays | src/scene_server/topo_server/core/operation/inst_association.go:265-273 | the first failure ends the grouping |
| Topology.AddAllKeys | src/scene_server/topo_server/core/operation/inst_association.go:250-258 | the groups are exactly the kinds that had neighbours |
| Topology.AddAllCounts | src/scene_server/topo_server/core/operation/inst_association.go:260 | each group's count is the total number of neighbours of its kind |
| Topology.AddAllKeepsShape | src/scene_server/topo_server/core/operation/inst_association.go:250-283 | grouping keeps every group well formed |
| Topology.FoldFlat | src/scene_server/topo_server/core/operation/inst_association.go:241-285 | grouping instance by instance equals grouping all their neighbours at once |
| Topology.GroupRecsMeaning | src/scene_server/topo_server/core/operation/inst_association.go:240-289 | the groups of the found instances are keyed by exactly the neighbour kinds, are well formed, and count all neighbours of each kind |
| Topology.TopoSpecMeaning | src/scene_server/topo_server/core/operation/inst_association.go:225-292 | on success the lookup (caller's query, or the id and owner by default) succeeded, the count is the number of groups, and groups and counts are those of the found instances' neighbours |
| Topology.TopoStepMeaning | src/scene_server/topo_server/core/operation/inst_association.go:378-417 | each entry of `FindInstTopo` describes the instance and holds its parent and child topology looked up by its own id |
| Topology.TopoRecsMeaning | src/scene_server/topo_server/core/operation/inst_association.go:372-421 | `FindInstTopo` returns one such entry per found instance, in order |
| Topology.DescribeNeighbours | src/scene_server/topo_server/core/operation/inst_association.go:262-283 | the descriptor loop computes the descriptor specification |
| Topology.AddOne | src/scene_server/topo_server/core/operation/inst_association.go:250-283 | the per-kind body computes the group update |
| Topology.AddNeighbours | src/scene_server/topo_server/core/operation/inst_association.go:248-284 | the per-instance loop computes the grouping |
| Topology.GroupFound | src/scene_server/topo_server/core/operation/inst_association.go:241-285 | the loop over found instances computes the grouping of all their neighbours |
| Topology.FindTopo | src/scene_server/topo_server/core/operation/inst_association.go:225-292 | the shared method computes the topology specification |
| Topology.FindInstChildTopo | src/scene_server/topo_server/core/operation/inst_association.go:225-292 | `FindInstChildTopo` computes the topology specification over child links |
| Topology.FindInstParentTopo | src/scene_server/topo_server/core/operation/inst_association.go:294-360 | `FindInstParentTopo` computes the topology specification over parent links |
| Topology.FindOneTopo | src/scene_server/topo_server/core/operation/inst_association.go:381-416 | the per-instance body computes one `FindInstTopo` entry |
| Topology.TopoLoop | src/scene_server/topo_server/core/operation/inst_association.go:378-417 | the loop over the found instances computes one `FindInstTopo` entry per instance, in order, ending at the first failure |
| Topology.FindInstTopo | src/scene_server/topo_server/core/operation/inst_association.go:362-421 | the method computes the `FindInstTopo` specification |
| AssociationQuery.ApplyClausesFields | src/scene_server/topo_server/core/operation/inst_association.go:447-484 | writing clauses adds exactly the fields they name and keeps every other field of the condition |
| AssociationQuery.ApplyClausesLastWins | src/scene_server/topo_server/core/operation/inst_association.go:447-484 | the last clause on a field decides its filter: `$eq` on a string becomes an escaped `$eq`, another `$eq` a plain value, other operators an operator document |
| AssociationQuery.ApplyClausesAppend | src/scene_server/topo_server/core/operation/inst_association.go:447-484 | writing two clause lists in turn equals writing their concatenation |
| AssociationQuery.BuildFailureStays | src/scene_server/topo_server/core/operation/inst_association.go:497-517 | the first failing search ends the query with its error |
| AssociationQuery.BuildCond | src/scene_server/topo_server/core/operation/inst_association.go:432-484 | the target condition is the owner (and kind, for common kinds) overlaid with the target kind's own clauses, in order |
| AssociationQuery.BuildSearched | src/scene_server/topo_server/core/operation/inst_association.go:486-501 | on success every other kind in the request was searched successfully |
| AssociationQuery.BuildTargets | src/scene_server/topo_server/core/operation/inst_association.go:504-521 | the candidate ids are exactly the instances of the target kind with an edge to an instance found for one of the other kinds |
| AssociationQuery.AssocCondScope | src/scene_server/topo_server/core/operation/inst_association.go:432-436 | the final condition always restricts the owner, and the kind for a common kind, unless the caller's own clause overrides it |
| AssociationQuery.AssocCondOwnClauses | src/scene_server/topo_server/core/operation/inst_association.go:467-478 | the caller's last clause on each field of the target kind is in the final condition |
| AssociationQuery.AssocCondCandidates | src/scene_server/topo_server/core/operation/inst_association.go:526-529 | with candidates, the final condition restricts the instance id to exactly them |
| AssociationQuery.AssocCondOwnOnly | src/scene_server/topo_server/core/operation/inst_association.go:486-489 | a request naming only the target kind queries with its own clauses alone |
| AssociationQuery.BuildNoForeign | src/scene_server/topo_server/core/operation/inst_association.go:486-489 | with no other kind in the request, nothing is searched and there are no candidates |
| AssociationQuery.EmptyInMatchesNothing | src/scene_server/topo_server/core/operation/inst_association.go:530-535 | a condition with `$in` an empty id list matches no record |
| AssociationQuery.NoCandidatesFindsNothing | src/scene_server/topo_server/core/operation/inst_association.go:526-547 | when another kind was searched and nothing is linked to its results, the query finds nothing |
| AssociationQuery.AsWrittenAgrees | src/scene_server/topo_server/core/operation/inst_association.go:526-536 | the code's final condition equals the intended one except when candidates are empty, the target kind has clauses and another kind was searched |
| AssociationQuery.SampleBuild | src/scene_server/topo_server/core/operation/inst_association.go:439-524 | the sample request finds no candidates and keeps the target's base condition |
| AssociationQuery.UnassociatedHostFound | src/scene_server/topo_server/core/operation/inst_association.go:530-531 | the sample: as written a host with no association is returned; as intended nothing is |
| AssociationQuery.WriteClauses | src/scene_server/topo_server/core/operation/inst_association.go:447-484 | the clause loop computes the clause-writing specification |
| AssociationQuery.AssociatedTargets | src/scene_server/topo_server/core/operation/inst_association.go:504-521 | `SearchInstAssociation` returns the target-kind instances linked to the given ids of a kind |
| AssociationQuery.VisitKind | src/scene_server/topo_server/core/operation/inst_association.go:439-524 | one iteration over a kind computes the per-kind step |
| AssociationQuery.FindInstByAssociationInst | src/scene_server/topo_server/core/operation/inst_association.go:423-548 | the method computes the intended `FindInstByAssociationInst` specification |
| ObjectBatch.WithErrorEffect | src/scene_server/topo_server/core/operation/object_batch.go:31-53 | `setErrors` appends the note to the list under the object and key, creating both if needed, and changes nothing else; it only extends the report |
| ObjectBatch.ImportReport.SetErrors | src/scene_server/topo_server/core/operation/object_batch.go:31-53 | the report object is updated as `setErrors` specifies |
| ObjectBatch.ImportReport.constructor | src/scene_server/topo_server/core/operation/object_batch.go:126 | the import report starts empty |
| ObjectBatch.GroupsNamed | src/scene_server/topo_server/core/operation/object_batch.go:58-61 | the group search returns exactly the groups of the object with the name |
| ObjectBatch.GroupsNamedFirst | src/scene_server/topo_server/core/operation/object_batch.go:66-67 | the first result of the group search is a stored group |
| ObjectBatch.GroupsNamedAppend | src/scene_server/topo_server/core/operation/object_batch.go:58-61 | the group search distributes over appended groups |
| ObjectBatch.GetGroupMeaning | src/scene_server/topo_server/core/operation/object_batch.go:55-78 | the group returned is of the object with the name and is stored; the first stored match is returned, or else exactly one new group is saved, only when none existed |
| ObjectBatch.GetGroupOk | src/scene_server/topo_server/core/operation/object_batch.go:55-78 | a group getGroup returns belongs to the object, has the name, and is in the group store afterwards |
| ObjectBatch.GetGroupIdempotent | src/scene_server/topo_server/core/operation/object_batch.go:55-78 | asking again for the same group returns it and saves nothing |
| ObjectBatch.GetGroup | src/scene_server/topo_server/core/operation/object_batch.go:55-78 | the method changes the groups and returns the group as specified |
| ObjectBatch.Positions | src/scene_server/topo_server/core/operation/object_batch.go:90-94 | the attribute search returns positions within the attribute store |
| ObjectBatch.PositionsMeaning | src/scene_server/topo_server/core/operation/object_batch.go:90-94 | the search finds exactly the attributes with the owner, object and property id |
| ObjectBatch.PositionsEmpty | src/scene_server/topo_server/core/operation/object_batch.go:99 | the search is empty exactly when no attribute has the key |
| ObjectBatch.UpdateEach | src/scene_server/topo_server/core/operation/object_batch.go:108-114 | updating keeps the number of stored attributes |
| ObjectBatch.UpdateEachApplied | src/scene_server/topo_server/core/operation/object_batch.go:108-114 | when no update fails, every found attribute holds the new settings and every other is unchanged |
| ObjectBatch.UpdateEachStopped | src/scene_server/topo_server/core/operation/object_batch.go:110-112 | a failed update reports the refusal of one found attribute; those before it are updated, the rest unchanged |
| ObjectBatch.UpdateEachFailureStays | src/scene_server/topo_server/core/operation/object_batch.go:110-112 | the first failed update ends the loop |
| ObjectBatch.UpdateProperties | src/scene_server/topo_server/core/operation/object_batch.go:108-114 | the update loop computes the update specification |
| ObjectBatch.SetAttributeSucceeds | src/scene_server/topo_server/core/operation/object_batch.go:80-117 | on success the note is "success" with the row index, which parses back to it; the stored attribute is the target placed in a group of the object with its group name |
| ObjectBatch.SetAttributeStores | src/scene_server/topo_server/core/operation/object_batch.go:99-114 | a new attribute is appended and nothing is returned as found; an existing one has every same-key attribute replaced by the target and is returned as found |
| ObjectBatch.SetAttributeFails | src/scene_server/topo_server/core/operation/object_batch.go:83-112 | a failure notes the row under "errors" (group), "insert_failed" (search or save) or "update_failed" (update); only an update failure changes attributes |
| ObjectBatch.SetObjectAttribute | src/scene_server/topo_server/core/operation/object_batch.go:80-117 | the method changes groups, attributes and report as specified and returns the found and stored attributes |
| ObjectBatch.AssociateMeaning | src/scene_server/topo_server/core/operation/object_batch.go:171-188 | linking only appends definitions: exactly one per association attribute whose creation is not refused; the report only grows |
| ObjectBatch.CreateAssociations | src/scene_server/topo_server/core/operation/object_batch.go:171-188 | the linking loop computes the linking specification |
| ObjectBatch.RowStepExtends | src/scene_server/topo_server/core/operation/object_batch.go:136-188 | a row only adds notes to the report |
| ObjectBatch.ObjectStepExtends | src/scene_server/topo_server/core/operation/object_batch.go:128-189 | an object only adds notes to the report |
| ObjectBatch.ObjectStepInvalid | src/scene_server/topo_server/core/operation/object_batch.go:130-133 | an undefined object gets the "is invalid" note and nothing is written |
| ObjectBatch.BatchReportsInvalid | src/scene_server/topo_server/core/operation/object_batch.go:128-133 | every undefined object in the import has the "is invalid" note in the final report |
| ObjectBatch.RowMissingAssociatedObject | src/scene_server/topo_server/core/operation/object_batch.go:153-164 | an association attribute without `bk_asst_obj_id` writes nothing and ends with the "params need set" note |
| ObjectBatch.RowWritten | src/scene_server/topo_server/core/operation/object_batch.go:136-168 | any other parsed row writes the attribute as `setObjectAttribute` specifies and records its note |
| ObjectBatch.RowLinksStoredAttribute | src/scene_server/topo_server/core/operation/object_batch.go:167-188 | corrected: a stored association attribute gets its association definition unless creating it is refused |
| ObjectBatch.RowAsWrittenSkipsNewAttribute | src/scene_server/topo_server/core/operation/object_batch.go:99-116 | as written: a newly created attribute creates no association |
| ObjectBatch.NewAssociationAttributeUnlinked | src/scene_server/topo_server/core/operation/object_batch.go:168-182 | the sample: importing association attribute "rack_host" of "rack" stores it but links nothing as written; corrected, it links to host |
| ObjectBatch.ImportAttributeRow | src/scene_server/topo_server/core/operation/object_batch.go:136-188 | one row of the import changes the model layer and report as the corrected row step says |
| ObjectBatch.ImportRows | src/scene_server/topo_server/core/operation/object_batch.go:136-189 | the row loop computes the rows of one object |
| ObjectBatch.CreateObjectBatch | src/scene_server/topo_server/core/operation/object_batch.go:119-194 | the import changes the model layer and builds the report as the corrected batch specification says |
| ObjectBatch.AttributesOf | src/scene_server/topo_server/core/operation/object_batch.go:212 | `GetAttributes` returns exactly the attributes of the object |
| ObjectBatch.AsstInfoMeaning | src/scene_server/topo_server/core/operation/object_batch.go:217-228 | the association info has an entry exactly for each association attribute, holding the kinds it refers to |
| ObjectBatch.FindObjectBatchMeaning | src/scene_server/topo_server/core/operation/object_batch.go:196-237 | the export succeeds exactly when every requested object exists, holding an entry per requested object; otherwise it fails on the first unknown one |
| ObjectBatch.FindObjectBatchFailureStays | src/scene_server/topo_server/core/operation/object_batch.go:207-210 | the first unknown object ends the export |
| ObjectBatch.ExportAssociations | src/scene_server/topo_server/core/operation/object_batch.go:217-228 | the loop computes the association info |
| ObjectBatch.FindObjectBatch | src/scene_server/topo_server/core/operation/object_batch.go:196-237 | the method computes the export specification |
| InstBatch.ValidateMeaning | src/scene_server/topo_server/core/operation/inst_batch.go:63-90 | a row passes exactly when: with an id field, it is an integer and the update check passes; without, the create check accepts, finds a duplicate, or fails without a code |
| InstBatch.ImportFromIgnored | src/scene_server/topo_server/core/operation/inst_batch.go:51 | the "import_from" column has no effect on a row |
| InstBatch.SaveMeaning | src/scene_server/topo_server/core/operation/inst_batch.go:93 | saving with the id of a stored instance merges the row into it in place; otherwise it appends exactly one record with a new id; the saved values carry an id and every given field |
| InstBatch.RowSaved | src/scene_server/topo_server/core/operation/inst_batch.go:92-103 | a saved row reports no error and its synchronisation touches only its own edges |
| InstBatch.AbortStays | src/scene_server/topo_server/core/operation/inst_batch.go:100-103 | once association synchronisation fails, no later row changes anything |
| InstBatch.ErrorsNameRows | src/scene_server/topo_server/core/operation/inst_batch.go:50-104 | the loop keeps earlier errors and every error it adds names a row of the batch |
| InstBatch.CreateInstBatchOutcome | src/scene_server/topo_server/core/operation/inst_batch.go:23-107 | non-Excel or empty input returns no errors and changes nothing; a key or row-initialisation failure aborts unchanged; otherwise the row-initialisation errors come first and each later one names a row |
| InstBatch.BatchResult.constructor | src/scene_server/topo_server/core/operation/inst_batch.go:26 | a result holds the errors it was given |
| InstBatch.SaveInst | src/scene_server/topo_server/core/operation/inst_batch.go:93 | the method saves as the save specification says |
| InstBatch.ImportInstRow | src/scene_server/topo_server/core/operation/inst_batch.go:50-104 | one row changes records, edges and errors as the row step says |
| InstBatch.ImportAll | src/scene_server/topo_server/core/operation/inst_batch.go:50-104 | the row loop changes records, edges and errors as the fold of row steps says, and stops at the first abort |
| InstBatch.CreateInstBatch | src/scene_server/topo_server/core/operation/inst_batch.go:23-107 | the method changes the store as specified; it returns a result exactly when it does not abort, holding the specified errors |

## Left out

- Remote failures are modelled only where an oracle parameter reports them. Transport errors of the object controller, host controller and model layer are otherwise absent, because each is only "return the error".
- Pagination (`Limit`, `Start`, `Sort`), field projection (`Fields`) and `BKNoLimit` are left out, because they do not change which records match.
- The owner scope is left out: one supplier account is assumed. The owner clause is still written into every condition.
- Concurrency between requests, audit logs, `blog` logging and localisation of messages (`Languagef`) are left out; a row's message is modelled as the row index with the error.
- `MarshalJSONInto` decode failures in `FindInstByAssociationInst`, `CreateObjectBatch` and `FindObjectBatch` are left out. The decoded request is the input.
- Go map iteration order is modelled by input sequences with distinct keys. This applies to the request's condition map, the import data and the batch rows.
- `FindInstChildTopo` and `FindInstParentTopo` return their groups as a map. The order of Go's final loop over the groups is not modelled.
- `ValidatorCreate`, `ValidatorUpdate`, `SetObjAsstPropertyVal`, `InitInstFromData`, `GetObjAsstObjectPrimaryKey`, `SpeceialCharChange`, `metadata.Attribute.Parse` and `xid` are parameters (oracles). Their code is not part of this model.
- InstBatch.SaveMeaning: `inst.Save` is modelled as update-if-the-id-exists, else create. The file holding it (model/inst.go) is not part of this model.
- `CheckBeAssociation` is modelled as a set of (kind, instance) pairs it refuses.
- `GetChildObjectWithInsts`, `GetParentObjectWithInsts` and `GetMainlineChildInst` are modelled as maps from an instance to its neighbours or mainline children. Their own queries are not part of this model.
- `ObjectBatch.FindObjectBatchMeaning`: the kinds an association attribute refers to are a set, so their order is not modelled.
- `setErrors` cases where `result[objID]` is not a map, or the entry is not a `[]string`, are excluded by the types of the model.
- `FindOriginInst`'s host branch (`GetHosts`) is modelled like any other collection, because its result is handled identically.
- Store.FieldMatches: the store model evaluates only `$eq`, and `$in` of an integer field against an id set. Every other operator that `FindInstByAssociationInst` forwards as an operator document (`$ne`, `$regex`, `$gt`, ...; inst_association.go:449-464), and `$in` over another field type or argument, is judged false by the model, while the real store evaluates it. The records that `FindInstByAssociationInst`, `FindInst` and `DeleteInst` return or remove under such clauses are not modelled.
- Common.StringField: `MapStr.String` is not part of this model. It is modelled as failing on a value that is not a string. If the library instead formats such a value as text, the `TypeMismatch` and instance-name failures the model reports (`InstNameOf`, the topology entries, the `bk_asst_obj_id` read in `ObjectBatch.RowStep`) would instead be formatted values in the program.
- Common.InstIdOf: the `Int` case of `Value` stands for every value the library's int64 reading of `GetInstID` accepts. That library code is not part of this model; any other value is `Other`.
- ObjectBatch.RowStep: `metadata.Attribute.Parse` is an oracle that fills and returns its receiver, so `metaAttr` and `targetAttr` (object_batch.go:138-141) are the same attribute. Setting the owner and kind before the error check is harmless, and a parse failure records only its error.
- ObjectBatch.SetAttributeStores: the definitions returned as found are those from before the update, as read by `FindObjectAttWithParams`. Whether `model.Attribute.Update` changes the returned objects in place is outside this model.

Differences between the design description and the code, where the model follows the code:

- A create-validation failure coded CCErrCommDuplicateItem does not skip the row. The row goes on to `item.Save` (inst_batch.go:79-90).
- A `setInstAsst` failure in `CreateInstBatch` aborts the whole batch with that error (inst_batch.go:100-103). It is not recorded as a row error.

Behaviour reproduced from the code as written, without a correction:

- A create-validation error without a code is ignored, and the row is saved.
- The "Default" group assigned at object_batch.go:148-150 is overwritten by `getGroup`.
- An unreadable `bk_asst_obj_id` records both its own error and the "params need set" error.
- A blocked host walk keeps its partial list (inst.go:138-140).
- `UpdateInst` writes the caller's data under the caller's condition, whatever the id lookup found.
- An association value that is neither a string nor descriptors wipes the edge triple.
- `setInstAsst` replaces edges per (kind, instance, target kind), not per attribute. A later attribute with the same target kind deletes the earlier one's edges (`Sync.LaterAttributeWins`).

## Findings

| source | as written | input that shows it | evidently intended | confidence | as-written member | corrected member |
|---|---|---|---|---|---|---|
| src/scene_server/topo_server/core/operation/inst.go:254 | the outgoing-edge delete compares `bk_inst_id` with the whole `deletedInst` value, so it matches no edge | business 5 with an edge to host 7, deleted | the instance's outgoing edges are deleted with it | high; not executed | Delete.OutgoingEdgeSurvives | Delete.RemoveEffect |
| src/scene_server/topo_server/core/operation/inst.go:261 | each round deletes the records of the whole batch condition, before later entries are checked | businesses 1 and 2, with 2 still associated | a refused instance's record is kept; each entry deletes only its own record | high; not executed | Delete.RefusedRecordDeleted | Delete.RemoveRefusal |
| src/scene_server/topo_server/core/operation/inst.go:234-261 | mainline descendants are checked and deleted under the batch kind (`obj`), not their own | business 1 with set 3 below it | each listed descendant is checked and removed under its own kind | high; not executed | Delete.DescendantRecordSurvives | Delete.RemoveEffect |
| src/scene_server/topo_server/core/operation/inst_association.go:530-531 | when no candidates were found, the empty id filter is skipped if the target kind also has clauses | a host filter plus a set filter that matches nothing; one unassociated host | no instance is returned when a searched kind yields no candidates | medium; not executed | AssociationQuery.UnassociatedHostFound | AssociationQuery.NoCandidatesFindsNothing |
| src/scene_server/topo_server/core/operation/object_batch.go:99-116 | `setObjectAttribute` returns only the attributes it found, so a newly created association attribute gets no association | import attribute "rack_host" of "rack", associated with host, into an empty model | the stored attribute is linked to its associated object | high; not executed | ObjectBatch.NewAssociationAttributeUnlinked | ObjectBatch.RowLinksStoredAttribute |
