/** Importing and exporting object definitions in batch (CreateObjectBatch,
    FindObjectBatch): the per-object report of what happened to each imported
    attribute row, the find-or-create of property groups, the create-or-update of
    attribute definitions and the associations declared by association-type
    attributes. The remote calls of the model layer answer through an oracle
    that may refuse any of them. */
module ObjectBatch {
  import opened Common
  import opened Text
  import opened Store

  // ---------------------------------------------------------------------------
  // The import report (setErrors)

  /** One entry of an import report. Localised messages are represented by what
      they are built from. */
  datatype Note =
    | ObjectInvalid(obj: ObjId)         // "the object(%s) is invalid"
    | Failed(err: Err)                  // an error reported as it is
    | RowFailed(row: Int64, err: Err)   // import_row_int_error_str: row index and error
    | RowDone(index: string)            // a row index in decimal

  /** The result map of CreateObjectBatch: per object id, per outcome key, the
      entries recorded in order. */
  type Report = map<ObjId, map<string, seq<Note>>>

  const ErrorsKey: string := "errors"
  const InsertFailedKey: string := "insert_failed"
  const UpdateFailedKey: string := "update_failed"
  const SuccessKey: string := "success"

  /** The entries recorded for an object under a key; none when either is absent. */
  function NotesAt(res: Report, obj: ObjId, key: string): seq<Note> {
    if obj in res && key in res[obj] then res[obj][key] else []
  }

  /** setErrors: the note is appended to the object's list under the key; the
      object's sub-map and the list are created when absent. */
  function WithError(res: Report, obj: ObjId, key: string, note: Note): Report {
    var sub := if obj in res then res[obj] else map[];
    res[obj := sub[key := NotesAt(res, obj, key) + [note]]]
  }

  /** One report extends another when every list of the first is a prefix of the
      corresponding list of the second: entries are only ever appended. */
  ghost predicate Extends(res: Report, res': Report) {
    forall obj, key :: NotesAt(res, obj, key) <= NotesAt(res', obj, key)
  }

  /** setErrors appends exactly one entry to one list, and changes nothing else:
      no other object, no other key of the object, and no earlier entry. */
  lemma WithErrorEffect(res: Report, obj: ObjId, key: string, note: Note)
    ensures var r := WithError(res, obj, key, note);
      && r.Keys == res.Keys + {obj}
      && r[obj].Keys == (if obj in res then res[obj].Keys else {}) + {key}
      && NotesAt(r, obj, key) == NotesAt(res, obj, key) + [note]
      && (forall o, k :: (o != obj || k != key) ==> NotesAt(r, o, k) == NotesAt(res, o, k))
      && (forall o :: o in res && o != obj ==> r[o] == res[o])
      && Extends(res, r)
  {
    var r := WithError(res, obj, key, note);
    var sub := if obj in res then res[obj] else map[];
    assert r[obj] == sub[key := NotesAt(res, obj, key) + [note]];
  }

  /** The result map that CreateObjectBatch threads through its loops; setErrors
      changes it in place. */
  class ImportReport {
    var entries: Report

    constructor ()
      ensures entries == map[]
    {
      entries := map[];
    }

    /** setErrors. */
    method SetErrors(obj: ObjId, key: string, note: Note)
      modifies this
      ensures entries == WithError(old(entries), obj, key, note)
    {
      var sub := if obj in entries then entries[obj] else map[];
      var list := if key in sub then sub[key] else [];
      entries := entries[obj := sub[key := list + [note]]];
    }
  }

  // ---------------------------------------------------------------------------
  // The model layer's answers

  /** The remote calls of the import, as the oracle sees them. */
  datatype Call =
    | FindGroups(objId: ObjId, name: string)
    | SaveGroup(group: Group)
    | FindProperties(owner: string, objId: ObjId, propertyId: string)
    | SaveProperty(prop: Property)
    | UpdateProperty(current: Property, prop: Property)
    | CreateAssociation(def: AsstDef)

  /** The collaborators of the import: the supplier account, the attribute parser (metadata.Attribute.Parse), the error each
      remote call reports (None when it succeeds), and the group id generator. */
  datatype Env = Env(owner: string, parse: Record -> Result<Property>,
                     faults: Call -> Option<Err>, xid: (ObjId, Int64) -> string)

  // ---------------------------------------------------------------------------
  // getGroup

  /** FindObjectGroup: the groups of an object with a given name, in store order. */
  function GroupsNamed(groups: seq<Group>, obj: ObjId, name: string): (r: seq<Group>)
    ensures forall g :: g in r <==> g in groups && g.objId == obj && g.name == name
  {
    if groups == [] then []
    else
      (if groups[0].objId == obj && groups[0].name == name then [groups[0]] else [])
      + GroupsNamed(groups[1..], obj, name)
  }

  /** The first group of the result is the first matching group of the store. */
  lemma {:induction false} GroupsNamedFirst(groups: seq<Group>, obj: ObjId, name: string)
    requires |GroupsNamed(groups, obj, name)| != 0
    ensures exists i :: 0 <= i < |groups| && groups[i] == GroupsNamed(groups, obj, name)[0]
                        && forall j :: 0 <= j < i ==> groups[j].objId != obj || groups[j].name != name
  {
    if !(groups[0].objId == obj && groups[0].name == name) {
      var rest := groups[1..];
      assert GroupsNamed(groups, obj, name) == GroupsNamed(rest, obj, name);
      GroupsNamedFirst(rest, obj, name);
      var i :| 0 <= i < |rest| && rest[i] == GroupsNamed(rest, obj, name)[0]
               && forall j :: 0 <= j < i ==> rest[j].objId != obj || rest[j].name != name;
      forall j | 0 <= j < i + 1
        ensures groups[j].objId != obj || groups[j].name != name
      {
        if j > 0 {
          assert groups[j] == rest[j - 1];
        }
      }
      assert groups[i + 1] == rest[i];
    } else {
      assert groups[0] == GroupsNamed(groups, obj, name)[0];
    }
  }

  /** What getGroup leaves behind: the group store and the group (or error). */
  datatype GroupOutcome = GroupOutcome(groups: seq<Group>, group: Result<Group>)

  /** getGroup: the first group of the object with that name when there is one;
      otherwise a new group with a fresh id, the name, the owner and the object,
      saved to the store. */
  function GetGroupSpec(groups: seq<Group>, faults: Call -> Option<Err>, newId: string,
                        owner: string, obj: ObjId, name: string): GroupOutcome
  {
    var findErr := faults(FindGroups(obj, name));
    if findErr.Some? then GroupOutcome(groups, Fail(findErr.value))
    else
      var found := GroupsNamed(groups, obj, name);
      if |found| != 0 then GroupOutcome(groups, Ok(found[0]))
      else
        var g := Group(newId, name, owner, obj);
        var saveErr := faults(SaveGroup(g));
        if saveErr.Some? then GroupOutcome(groups, Fail(saveErr.value))
        else GroupOutcome(groups + [g], Ok(g))
  }

  /** The group getGroup returns belongs to the object and has the name asked
      for; it is the first such group of the store when one exists, and otherwise
      the one group the call adds. Nothing else in the store changes. */
  lemma GetGroupMeaning(groups: seq<Group>, faults: Call -> Option<Err>, newId: string,
                        owner: string, obj: ObjId, name: string)
    ensures var out := GetGroupSpec(groups, faults, newId, owner, obj, name);
      && (out.group.Ok? ==> out.group.value.objId == obj && out.group.value.name == name
                             && out.group.value in out.groups)
      && (out.groups == groups || out.groups == groups + [Group(newId, name, owner, obj)])
      && (out.groups != groups ==> forall g :: g in groups ==> g.objId != obj || g.name != name)
      && (out.group.Ok? && out.groups == groups ==>
            exists i :: 0 <= i < |groups| && groups[i] == out.group.value
                        && forall j :: 0 <= j < i ==> groups[j].objId != obj || groups[j].name != name)
  {
    var out := GetGroupSpec(groups, faults, newId, owner, obj, name);
    if faults(FindGroups(obj, name)).None? && |GroupsNamed(groups, obj, name)| != 0 {
      GroupsNamedFirst(groups, obj, name);
    }
  }

  /** A group getGroup returns is one of the object, with the name, and stored. */
  lemma GetGroupOk(groups: seq<Group>, faults: Call -> Option<Err>, newId: string,
                   owner: string, obj: ObjId, name: string)
    requires GetGroupSpec(groups, faults, newId, owner, obj, name).group.Ok?
    ensures var out := GetGroupSpec(groups, faults, newId, owner, obj, name);
      out.group.value.objId == obj && out.group.value.name == name && out.group.value in out.groups
  {
    var found := GroupsNamed(groups, obj, name);
    if |found| != 0 {
      assert found[0] in found;
    }
  }

  /** Find-or-create is idempotent: once getGroup has succeeded, calling it again
      with any fresh id finds the same group and changes nothing. */
  lemma GetGroupIdempotent(groups: seq<Group>, faults: Call -> Option<Err>, newId: string, newId': string,
                           owner: string, obj: ObjId, name: string)
    requires GetGroupSpec(groups, faults, newId, owner, obj, name).group.Ok?
    ensures var out := GetGroupSpec(groups, faults, newId, owner, obj, name);
      GetGroupSpec(out.groups, faults, newId', owner, obj, name) == out
  {
    var out := GetGroupSpec(groups, faults, newId, owner, obj, name);
    if out.groups != groups {
      var g := Group(newId, name, owner, obj);
      assert GroupsNamed(groups, obj, name) == [];
      GroupsNamedAppend(groups, [g], obj, name);
      assert GroupsNamed([g], obj, name) == [g] + GroupsNamed([], obj, name);
    }
  }

  /** The groups found in a concatenation are those found in each part. */
  lemma {:induction false} GroupsNamedAppend(a: seq<Group>, b: seq<Group>, obj: ObjId, name: string)
    ensures GroupsNamed(a + b, obj, name) == GroupsNamed(a, obj, name) + GroupsNamed(b, obj, name)
  {
    if a != [] {
      assert (a + b)[0] == a[0] && (a + b)[1..] == a[1..] + b;
      GroupsNamedAppend(a[1..], b, obj, name);
    } else {
      assert a + b == b;
    }
  }

  /** getGroup. */
  method GetGroup(st: Store, faults: Call -> Option<Err>, newId: string, owner: string, obj: ObjId, name: string)
    returns (r: Result<Group>)
    modifies st`groups
    ensures GroupOutcome(st.groups, r) == GetGroupSpec(old(st.groups), faults, newId, owner, obj, name)
  {
    var findErr := faults(FindGroups(obj, name));
    if findErr.Some? {
      return Fail(findErr.value);
    }
    var grps := GroupsNamed(st.groups, obj, name);
    if |grps| != 0 {
      return Ok(grps[0]);
    }
    var g := Group(newId, name, owner, obj);
    var saveErr := faults(SaveGroup(g));
    if saveErr.Some? {
      return Fail(saveErr.value);
    }
    st.groups := st.groups + [g];
    r := Ok(g);
  }

  // ---------------------------------------------------------------------------
  // setObjectAttribute

  /** Whether an attribute definition has the keys FindObjectAttribute looks for. */
  predicate SameKey(p: Property, owner: string, obj: ObjId, pid: string) {
    p.owner == owner && p.objId == obj && p.propertyId == pid
  }

  /** FindObjectAttribute: the positions, in store order, of the definitions with
      the given keys. */
  function Positions(props: seq<Property>, owner: string, obj: ObjId, pid: string): (r: seq<int>)
    ensures InRange(props, r)
  {
    if props == [] then []
    else
      var n := |props| - 1;
      Positions(props[..n], owner, obj, pid) + (if SameKey(props[n], owner, obj, pid) then [n] else [])
  }

  /** The positions found are exactly those of the definitions with the keys. */
  lemma {:induction false} PositionsMeaning(props: seq<Property>, owner: string, obj: ObjId, pid: string)
    ensures forall i :: i in Positions(props, owner, obj, pid) <==> 0 <= i < |props| && SameKey(props[i], owner, obj, pid)
  {
    if props != [] {
      var n := |props| - 1;
      PositionsMeaning(props[..n], owner, obj, pid);
    }
  }

  /** Nothing is found exactly when no definition has the keys. */
  lemma PositionsEmpty(props: seq<Property>, owner: string, obj: ObjId, pid: string)
    ensures Positions(props, owner, obj, pid) == [] <==> forall i :: 0 <= i < |props| ==> !SameKey(props[i], owner, obj, pid)
  {
    var pos := Positions(props, owner, obj, pid);
    PositionsMeaning(props, owner, obj, pid);
    if pos != [] {
      assert pos[0] in pos;
    }
  }

  /** The definitions at the given positions: the snapshot FindObjectAttribute returns. */
  function Snapshot(props: seq<Property>, pos: seq<int>): (r: seq<Property>)
    requires InRange(props, pos)
  {
    seq(|pos|, k requires 0 <= k < |pos| => props[pos[k]])
  }

  /** Every position names a definition of the store. */
  predicate InRange(props: seq<Property>, pos: seq<int>) {
    forall k :: 0 <= k < |pos| ==> 0 <= pos[k] < |props|
  }

  /** What the update loop leaves behind: the definitions and the first error. */
  datatype PropsOutcome = PropsOutcome(props: seq<Property>, err: Option<Err>)

  /** The update loop of setObjectAttribute: every found definition takes the new
      settings in turn; the first refused update stops the loop, and the updates
      made before it stay. */
  function UpdateEach(props: seq<Property>, pos: seq<int>, target: Property, faults: Call -> Option<Err>): (r: PropsOutcome)
    requires InRange(props, pos)
    ensures |r.props| == |props|
  {
    if pos == [] then PropsOutcome(props, None)
    else
      var n := |pos| - 1;
      var prev := UpdateEach(props, pos[..n], target, faults);
      if prev.err.Some? then prev
      else
        var e := faults(UpdateProperty(props[pos[n]], target));
        if e.Some? then PropsOutcome(prev.props, e)
        else PropsOutcome(prev.props[pos[n] := target], None)
  }

  lemma {:induction false} UpdateEachFailureStays(props: seq<Property>, pos: seq<int>, target: Property,
                                                  faults: Call -> Option<Err>, k: nat)
    requires InRange(props, pos)
    requires k <= |pos|
    requires UpdateEach(props, pos[..k], target, faults).err.Some?
    ensures UpdateEach(props, pos, target, faults) == UpdateEach(props, pos[..k], target, faults)
  {
    if k < |pos| {
      var n := |pos| - 1;
      assert pos[..n][..k] == pos[..k];
      UpdateEachFailureStays(props, pos[..n], target, faults, k);
    } else {
      assert pos[..k] == pos;
    }
  }

  /** Whether the definitions at the given positions hold the new settings and
      all others are as they were. */
  predicate UpdatedAt(props: seq<Property>, out: seq<Property>, pos: seq<int>, target: Property) {
    |out| == |props| && forall i :: 0 <= i < |props| ==> out[i] == if i in pos then target else props[i]
  }

  /** When no update is refused, every found definition holds the new settings and
      every other definition is as it was. */
  lemma {:induction false} UpdateEachApplied(props: seq<Property>, pos: seq<int>, target: Property,
                                             faults: Call -> Option<Err>)
    requires InRange(props, pos)
    requires UpdateEach(props, pos, target, faults).err.None?
    ensures UpdatedAt(props, UpdateEach(props, pos, target, faults).props, pos, target)
  {
    if pos != [] {
      var n := |pos| - 1;
      UpdateEachApplied(props, pos[..n], target, faults);
      assert pos == pos[..n] + [pos[n]];
    }
  }

  /** When an update is refused, the error is the refusal of the update of a found
      definition, the definitions found before it hold the new settings, and all
      others are as they were. */
  lemma {:induction false} UpdateEachStopped(props: seq<Property>, pos: seq<int>, target: Property,
                                             faults: Call -> Option<Err>)
    requires InRange(props, pos)
    requires UpdateEach(props, pos, target, faults).err.Some?
    ensures var out := UpdateEach(props, pos, target, faults);
      exists k :: 0 <= k < |pos| && out.err == faults(UpdateProperty(props[pos[k]], target))
                  && UpdatedAt(props, out.props, pos[..k], target)
  {
    var n := |pos| - 1;
    var prev := UpdateEach(props, pos[..n], target, faults);
    if prev.err.Some? {
      UpdateEachStopped(props, pos[..n], target, faults);
      var k :| 0 <= k < n && prev.err == faults(UpdateProperty(props[pos[..n][k]], target))
               && UpdatedAt(props, prev.props, pos[..n][..k], target);
      assert pos[..n][..k] == pos[..k];
    } else {
      UpdateEachApplied(props, pos[..n], target, faults);
    }
  }

  /** The update loop of setObjectAttribute. */
  method UpdateProperties(st: Store, pos: seq<int>, target: Property, faults: Call -> Option<Err>)
    returns (err: Option<Err>)
    requires InRange(st.props, pos)
    modifies st`props
    ensures PropsOutcome(st.props, err) == UpdateEach(old(st.props), pos, target, faults)
  {
    var snapshot := st.props;
    var k := 0;
    while k < |pos|
      invariant 0 <= k <= |pos|
      invariant UpdateEach(snapshot, pos[..k], target, faults) == PropsOutcome(st.props, None)
    {
      assert pos[..k + 1][..k] == pos[..k];
      var e := faults(UpdateProperty(snapshot[pos[k]], target));
      if e.Some? {
        UpdateEachFailureStays(snapshot, pos, target, faults, k + 1);
        return e;
      }
      st.props := st.props[pos[k] := target];
      k := k + 1;
    }
    assert pos[..k] == pos;
    err := None;
  }

  // ---------------------------------------------------------------------------
  // setObjectAttribute

  /** What setObjectAttribute leaves behind: the group and attribute stores, the
      definitions it found (which it returns), the definition it stored when it
      succeeded, and the one report entry it records. */
  datatype AttrOutcome = AttrOutcome(groups: seq<Group>, props: seq<Property>, found: seq<Property>,
                                     stored: Option<Property>, key: string, note: Note)

  /** setObjectAttribute: find or create the attribute's group; then create the
      definition when none has its keys, or update every one found; then record
      the row index under "success". A failed group lookup is recorded under
      "errors", a failed lookup or save under "insert_failed", a failed update
      under "update_failed". Only the definitions found are returned: a created
      one is not. */
  function SetAttributeSpec(groups: seq<Group>, props: seq<Property>, faults: Call -> Option<Err>, newGroupId: string,
                            owner: string, obj: ObjId, idx: Int64, target: Property): AttrOutcome
  {
    var go := GetGroupSpec(groups, faults, newGroupId, owner, obj, target.groupName);
    if go.group.Fail? then AttrOutcome(go.groups, props, [], None, ErrorsKey, RowFailed(idx, go.group.error))
    else
      var t := target.(groupId := go.group.value.id);
      var findErr := faults(FindProperties(owner, obj, t.propertyId));
      if findErr.Some? then AttrOutcome(go.groups, props, [], None, InsertFailedKey, RowFailed(idx, findErr.value))
      else
        var pos := Positions(props, owner, obj, t.propertyId);
        if |pos| == 0 then
          var saveErr := faults(SaveProperty(t));
          if saveErr.Some? then AttrOutcome(go.groups, props, [], None, InsertFailedKey, RowFailed(idx, saveErr.value))
          else AttrOutcome(go.groups, props + [t], [], Some(t), SuccessKey, RowDone(FormatInt(idx)))
        else
          var up := UpdateEach(props, pos, t, faults);
          if up.err.Some? then AttrOutcome(go.groups, up.props, [], None, UpdateFailedKey, RowFailed(idx, up.err.value))
          else AttrOutcome(go.groups, up.props, Snapshot(props, pos), Some(t), SuccessKey, RowDone(FormatInt(idx)))
  }

  /** A successful write records the row index, which reads back as that index,
      under "success"; the stored definition is the target placed in a group of
      the object with the target's group name. */
  lemma SetAttributeSucceeds(groups: seq<Group>, props: seq<Property>, faults: Call -> Option<Err>, newGroupId: string,
                             owner: string, obj: ObjId, idx: Int64, target: Property)
    requires SetAttributeSpec(groups, props, faults, newGroupId, owner, obj, idx, target).stored.Some?
    ensures var out := SetAttributeSpec(groups, props, faults, newGroupId, owner, obj, idx, target);
      var t := out.stored.value;
      && out.key == SuccessKey && out.note.RowDone? && ParseInt64(out.note.index) == Some(idx)
      && t == target.(groupId := t.groupId)
      && exists g :: g in out.groups && g.id == t.groupId && g.objId == obj && g.name == target.groupName
  {
    var go := GetGroupSpec(groups, faults, newGroupId, owner, obj, target.groupName);
    assert go.group.Ok?;
    GetGroupOk(groups, faults, newGroupId, owner, obj, target.groupName);
    var out := SetAttributeSpec(groups, props, faults, newGroupId, owner, obj, idx, target);
    assert out.groups == go.groups && out.stored.value == target.(groupId := go.group.value.id);
    assert out.note == RowDone(FormatInt(idx));
    FormatIntRoundTrip(idx, ',');
    assert go.group.value in out.groups;
  }

  /** Where a successful write stores the definition: when no definition had the
      keys, at the end of the store; otherwise every definition with the keys now
      holds it, and every other definition is as it was. Only in the second case
      are definitions returned. */
  lemma SetAttributeStores(groups: seq<Group>, props: seq<Property>, faults: Call -> Option<Err>, newGroupId: string,
                           owner: string, obj: ObjId, idx: Int64, target: Property)
    requires SetAttributeSpec(groups, props, faults, newGroupId, owner, obj, idx, target).stored.Some?
    ensures var out := SetAttributeSpec(groups, props, faults, newGroupId, owner, obj, idx, target);
      var t := out.stored.value;
      if exists i :: 0 <= i < |props| && SameKey(props[i], owner, obj, target.propertyId)
      then |out.props| == |props| && |out.found| > 0
           && forall i :: 0 <= i < |props| ==>
                out.props[i] == if SameKey(props[i], owner, obj, target.propertyId) then t else props[i]
      else out.props == props + [t] && out.found == []
  {
    var out := SetAttributeSpec(groups, props, faults, newGroupId, owner, obj, idx, target);
    var pos := Positions(props, owner, obj, target.propertyId);
    PositionsMeaning(props, owner, obj, target.propertyId);
    if |pos| != 0 {
      UpdateEachApplied(props, pos, out.stored.value, faults);
      assert pos[0] in pos;
    }
  }

  /** A failed write records the row index and the error under the key of the
      step that failed, and returns no definition. A failed group step leaves the
      definitions alone, and so does a failed lookup or save; a failed update
      happens only when some definition had the keys. */
  lemma SetAttributeFails(groups: seq<Group>, props: seq<Property>, faults: Call -> Option<Err>, newGroupId: string,
                          owner: string, obj: ObjId, idx: Int64, target: Property)
    requires SetAttributeSpec(groups, props, faults, newGroupId, owner, obj, idx, target).stored.None?
    ensures var out := SetAttributeSpec(groups, props, faults, newGroupId, owner, obj, idx, target);
      && out.note.RowFailed? && out.note.row == idx && out.found == []
      && out.key in {ErrorsKey, InsertFailedKey, UpdateFailedKey}
      && (out.key != UpdateFailedKey ==> out.props == props)
      && (out.key == ErrorsKey ==> out.groups == groups)
      && (out.key == UpdateFailedKey ==>
            |out.props| == |props| && exists i :: 0 <= i < |props| && SameKey(props[i], owner, obj, target.propertyId))
  {
    var out := SetAttributeSpec(groups, props, faults, newGroupId, owner, obj, idx, target);
    GetGroupMeaning(groups, faults, newGroupId, owner, obj, target.groupName);
    var pos := Positions(props, owner, obj, target.propertyId);
    PositionsMeaning(props, owner, obj, target.propertyId);
    if out.key == UpdateFailedKey {
      assert pos[0] in pos;
    }
  }

  /** setObjectAttribute. */
  method SetObjectAttribute(st: Store, rep: ImportReport, faults: Call -> Option<Err>, newGroupId: string,
                            owner: string, obj: ObjId, idx: Int64, target: Property)
    returns (found: seq<Property>, stored: Option<Property>)
    modifies st`groups, st`props, rep
    ensures var out := SetAttributeSpec(old(st.groups), old(st.props), faults, newGroupId, owner, obj, idx, target);
      && st.groups == out.groups && st.props == out.props && found == out.found && stored == out.stored
      && rep.entries == WithError(old(rep.entries), obj, out.key, out.note)
  {
    var grp := GetGroup(st, faults, newGroupId, owner, obj, target.groupName);
    if grp.Fail? {
      rep.SetErrors(obj, ErrorsKey, RowFailed(idx, grp.error));
      return [], None;
    }
    var t := target.(groupId := grp.value.id);
    var findErr := faults(FindProperties(owner, obj, t.propertyId));
    if findErr.Some? {
      rep.SetErrors(obj, InsertFailedKey, RowFailed(idx, findErr.value));
      return [], None;
    }
    var pos := Positions(st.props, owner, obj, t.propertyId);
    var attrs := Snapshot(st.props, pos);
    if |pos| == 0 {
      var saveErr := faults(SaveProperty(t));
      if saveErr.Some? {
        rep.SetErrors(obj, InsertFailedKey, RowFailed(idx, saveErr.value));
        return [], None;
      }
      st.props := st.props + [t];
    }
    var updateErr := UpdateProperties(st, pos, t, faults);
    if updateErr.Some? {
      rep.SetErrors(obj, UpdateFailedKey, RowFailed(idx, updateErr.value));
      return [], None;
    }
    rep.SetErrors(obj, SuccessKey, RowDone(FormatInt(idx)));
    found, stored := attrs, Some(t);
  }

  // ---------------------------------------------------------------------------
  // CreateObjectBatch

  /** One attribute row of an import: its index and its columns. */
  datatype ImportRow = ImportRow(idx: Int64, data: Record)

  /** The rows imported for one object. */
  datatype ObjectImport = ObjectImport(obj: ObjId, rows: seq<ImportRow>)

  /** What the import changes: the group, attribute and association stores of the
      model layer, and the report. */
  datatype Progress = Progress(groups: seq<Group>, props: seq<Property>, defs: seq<AsstDef>, report: Report)

  /** The association a row asks for on one of its attribute definitions. */
  function LinkOf(obj: ObjId, p: Property, asstObj: ObjId): AsstDef {
    AsstDef(obj, p.propertyId, asstObj)
  }

  /** What the association loop leaves behind. */
  datatype Links = Links(defs: seq<AsstDef>, report: Report)

  /** The association loop of CreateObjectBatch for one row: for every
      association-type definition given, an association from the object, through
      that attribute, to the row's associated object is created; a refusal is
      recorded under "errors" and the loop goes on. */
  function Associate(defs: seq<AsstDef>, rep: Report, faults: Call -> Option<Err>, obj: ObjId, idx: Int64,
                     asstObj: ObjId, attrs: seq<Property>): Links
  {
    if attrs == [] then Links(defs, rep)
    else
      var n := |attrs| - 1;
      var prev := Associate(defs, rep, faults, obj, idx, asstObj, attrs[..n]);
      if !attrs[n].isAssociation then prev
      else
        var d := LinkOf(obj, attrs[n], asstObj);
        var e := faults(CreateAssociation(d));
        if e.Some? then Links(prev.defs, WithError(prev.report, obj, ErrorsKey, RowFailed(idx, e.value)))
        else Links(prev.defs + [d], prev.report)
  }

  /** The associations after the loop are the earlier ones and those created for
      the association-type definitions whose creation was not refused; the report
      only gains entries. */
  lemma {:induction false} AssociateMeaning(defs: seq<AsstDef>, rep: Report, faults: Call -> Option<Err>, obj: ObjId,
                                            idx: Int64, asstObj: ObjId, attrs: seq<Property>)
    ensures var out := Associate(defs, rep, faults, obj, idx, asstObj, attrs);
      && |defs| <= |out.defs| && out.defs[..|defs|] == defs
      && (forall d :: d in out.defs <==> d in defs || exists a :: a in attrs && Created(faults, obj, a, asstObj, d))
      && Extends(rep, out.report)
  {
    if attrs != [] {
      var n := |attrs| - 1;
      AssociateMeaning(defs, rep, faults, obj, idx, asstObj, attrs[..n]);
      var prev := Associate(defs, rep, faults, obj, idx, asstObj, attrs[..n]);
      assert attrs == attrs[..n] + [attrs[n]];
      var d := LinkOf(obj, attrs[n], asstObj);
      if attrs[n].isAssociation && faults(CreateAssociation(d)).None? {
        assert Created(faults, obj, attrs[n], asstObj, d);
      } else {
        assert forall d' :: !Created(faults, obj, attrs[n], asstObj, d');
        if attrs[n].isAssociation {
          WithErrorEffect(prev.report, obj, ErrorsKey, RowFailed(idx, faults(CreateAssociation(d)).value));
        }
      }
    }
  }

  /** Whether the loop creates the association d for the definition a. */
  predicate Created(faults: Call -> Option<Err>, obj: ObjId, a: Property, asstObj: ObjId, d: AsstDef) {
    a.isAssociation && d == LinkOf(obj, a, asstObj) && faults(CreateAssociation(d)).None?
  }

  /** The associated object a row names; a row whose column cannot be read names none. */
  function AssociatedObject(row: ImportRow): ObjId {
    var read := StringField(row.data, AsstObjIdField);
    if read.Ok? then read.value else ""
  }

  /** One row of CreateObjectBatch. A row that does not parse is recorded under
      "errors". For an association-type row, an unreadable associated-object
      column is recorded under "errors", and an empty one is recorded as a
      missing parameter and the row goes no further. Otherwise the attribute is
      written, and associations are created for association-type definitions:
      as written, for the definitions the write found; as corrected, for the
      definition it stored. */
  function RowStep(env: Env, obj: ObjId, p: Progress, row: ImportRow, corrected: bool): Progress
  {
    var parsed := env.parse(row.data);
    if parsed.Fail? then p.(report := WithError(p.report, obj, ErrorsKey, Failed(parsed.error)))
    else
      var target := parsed.value.(owner := env.owner, objId := obj);
      var read := StringField(row.data, AsstObjIdField);
      var rep := if target.isAssociation && read.Fail? then WithError(p.report, obj, ErrorsKey, RowFailed(row.idx, read.error))
                 else p.report;
      var asstObj := if target.isAssociation then AssociatedObject(row) else "";
      if target.isAssociation && asstObj == "" then
        p.(report := WithError(rep, obj, ErrorsKey, RowFailed(row.idx, ParamsNeedSet(AsstObjIdField))))
      else
        var w := SetAttributeSpec(p.groups, p.props, env.faults, env.xid(obj, row.idx), env.owner, obj, row.idx, target);
        var linked := if corrected then (if w.stored.Some? then [w.stored.value] else []) else w.found;
        var l := Associate(p.defs, WithError(rep, obj, w.key, w.note), env.faults, obj, row.idx, asstObj, linked);
        Progress(w.groups, w.props, l.defs, l.report)
  }

  /** A left fold of a step over a sequence of inputs. */
  function Fold<X>(p: Progress, xs: seq<X>, step: (Progress, X) -> Progress): Progress
  {
    if xs == [] then p
    else
      var n := |xs| - 1;
      step(Fold(p, xs[..n], step), xs[n])
  }

  /** A fold of steps that only add report entries only adds report entries, from
      any point of the fold to its end. */
  lemma {:induction false} FoldExtends<X>(p: Progress, xs: seq<X>, step: (Progress, X) -> Progress, j: nat)
    requires j <= |xs|
    requires forall q: Progress, x: X :: Extends(q.report, step(q, x).report)
    ensures Extends(Fold(p, xs[..j], step).report, Fold(p, xs, step).report)
  {
    if j < |xs| {
      var n := |xs| - 1;
      assert xs[..n][..j] == xs[..j];
      FoldExtends(p, xs[..n], step, j);
      var a := Fold(p, xs[..j], step).report;
      var b := Fold(p, xs[..n], step).report;
      var c := Fold(p, xs, step).report;
      assert Extends(b, c);
      forall o, k
        ensures NotesAt(a, o, k) <= NotesAt(c, o, k)
      {
        assert NotesAt(a, o, k) <= NotesAt(b, o, k);
        assert NotesAt(b, o, k) <= NotesAt(c, o, k);
      }
    } else {
      assert xs[..j] == xs;
    }
  }

  /** The row step of an object, as a step of a fold. */
  function RowSteps(env: Env, obj: ObjId, corrected: bool): (Progress, ImportRow) -> Progress {
    (q, row) => RowStep(env, obj, q, row, corrected)
  }

  /** The object step of a batch, as a step of a fold. */
  function ObjectSteps(env: Env, kinds: map<ObjId, Kind>, corrected: bool): (Progress, ObjectImport) -> Progress {
    (q, imp) => ObjectStep(env, kinds, q, imp, corrected)
  }

  /** The rows of one object. */
  function Rows(env: Env, obj: ObjId, p: Progress, rows: seq<ImportRow>, corrected: bool): Progress {
    Fold(p, rows, RowSteps(env, obj, corrected))
  }

  /** One object of CreateObjectBatch: an object that is not defined is recorded
      under "errors" and its rows are not looked at. */
  function ObjectStep(env: Env, kinds: map<ObjId, Kind>, p: Progress, imp: ObjectImport, corrected: bool): Progress {
    if imp.obj !in kinds then p.(report := WithError(p.report, imp.obj, ErrorsKey, ObjectInvalid(imp.obj)))
    else Rows(env, imp.obj, p, imp.rows, corrected)
  }

  /** CreateObjectBatch from a given model layer, with an empty report. */
  function CreateObjectBatchSpec(env: Env, kinds: map<ObjId, Kind>, p: Progress, imps: seq<ObjectImport>,
                                 corrected: bool): Progress {
    Fold(p, imps, ObjectSteps(env, kinds, corrected))
  }

  lemma ExtendsTrans(a: Report, b: Report, c: Report)
    requires Extends(a, b) && Extends(b, c)
    ensures Extends(a, c)
  {
    forall o, k
      ensures NotesAt(a, o, k) <= NotesAt(c, o, k)
    {
      assert NotesAt(a, o, k) <= NotesAt(b, o, k);
    }
  }

  /** A row only adds entries to the report. */
  lemma RowStepExtends(env: Env, obj: ObjId, p: Progress, row: ImportRow, corrected: bool)
    ensures Extends(p.report, RowStep(env, obj, p, row, corrected).report)
  {
    var parsed := env.parse(row.data);
    if parsed.Fail? {
      WithErrorEffect(p.report, obj, ErrorsKey, Failed(parsed.error));
    } else {
      var target := parsed.value.(owner := env.owner, objId := obj);
      var read := StringField(row.data, AsstObjIdField);
      var rep := if target.isAssociation && read.Fail? then WithError(p.report, obj, ErrorsKey, RowFailed(row.idx, read.error))
                 else p.report;
      if target.isAssociation && read.Fail? {
        WithErrorEffect(p.report, obj, ErrorsKey, RowFailed(row.idx, read.error));
      }
      var asstObj := if target.isAssociation then AssociatedObject(row) else "";
      if target.isAssociation && asstObj == "" {
        WithErrorEffect(rep, obj, ErrorsKey, RowFailed(row.idx, ParamsNeedSet(AsstObjIdField)));
        ExtendsTrans(p.report, rep, RowStep(env, obj, p, row, corrected).report);
      } else {
        var w := SetAttributeSpec(p.groups, p.props, env.faults, env.xid(obj, row.idx), env.owner, obj, row.idx, target);
        var linked := if corrected then (if w.stored.Some? then [w.stored.value] else []) else w.found;
        var rep' := WithError(rep, obj, w.key, w.note);
        WithErrorEffect(rep, obj, w.key, w.note);
        AssociateMeaning(p.defs, rep', env.faults, obj, row.idx, asstObj, linked);
        ExtendsTrans(p.report, rep, rep');
        ExtendsTrans(p.report, rep', RowStep(env, obj, p, row, corrected).report);
      }
    }
  }

  /** An object step only adds entries to the report. */
  lemma ObjectStepExtends(env: Env, kinds: map<ObjId, Kind>, p: Progress, imp: ObjectImport, corrected: bool)
    ensures Extends(p.report, ObjectStep(env, kinds, p, imp, corrected).report)
  {
    if imp.obj !in kinds {
      WithErrorEffect(p.report, imp.obj, ErrorsKey, ObjectInvalid(imp.obj));
    } else {
      var step := RowSteps(env, imp.obj, corrected);
      forall q: Progress, row: ImportRow
        ensures Extends(q.report, step(q, row).report)
      {
        RowStepExtends(env, imp.obj, q, row, corrected);
      }
      FoldExtends(p, imp.rows, step, 0);
      assert imp.rows[..0] == [];
    }
  }

  /** An object that is not defined is reported as invalid, and none of its rows
      changes any store. */
  lemma ObjectStepInvalid(env: Env, kinds: map<ObjId, Kind>, p: Progress, imp: ObjectImport, corrected: bool)
    requires imp.obj !in kinds
    ensures var out := ObjectStep(env, kinds, p, imp, corrected);
      && out.groups == p.groups && out.props == p.props && out.defs == p.defs
      && NotesAt(out.report, imp.obj, ErrorsKey) == NotesAt(p.report, imp.obj, ErrorsKey) + [ObjectInvalid(imp.obj)]
  {
    WithErrorEffect(p.report, imp.obj, ErrorsKey, ObjectInvalid(imp.obj));
  }

  /** Every object step only adds entries to the report. */
  lemma ObjectStepsExtend(env: Env, kinds: map<ObjId, Kind>, corrected: bool)
    ensures forall q: Progress, imp: ObjectImport :: Extends(q.report, ObjectSteps(env, kinds, corrected)(q, imp).report)
  {
    forall q: Progress, imp: ObjectImport
      ensures Extends(q.report, ObjectSteps(env, kinds, corrected)(q, imp).report)
    {
      ObjectStepExtends(env, kinds, q, imp, corrected);
    }
  }

  /** An entry recorded at some point of a fold of steps that only add entries is
      still there at its end. */
  lemma FoldKeepsNote<X>(p: Progress, xs: seq<X>, step: (Progress, X) -> Progress, j: nat,
                         obj: ObjId, key: string, note: Note)
    requires j <= |xs|
    requires forall q: Progress, x: X :: Extends(q.report, step(q, x).report)
    requires note in NotesAt(Fold(p, xs[..j], step).report, obj, key)
    ensures note in NotesAt(Fold(p, xs, step).report, obj, key)
  {
    FoldExtends(p, xs, step, j);
    assert NotesAt(Fold(p, xs[..j], step).report, obj, key) <= NotesAt(Fold(p, xs, step).report, obj, key);
  }

  /** CreateObjectBatch keeps going past every failure: whatever it records for
      an object stays in the report to the end. In particular every object that is
      not defined is reported as invalid. */
  lemma BatchReportsInvalid(env: Env, kinds: map<ObjId, Kind>, p: Progress, imps: seq<ObjectImport>,
                            corrected: bool, i: nat)
    requires i < |imps| && imps[i].obj !in kinds
    ensures ObjectInvalid(imps[i].obj) in
      NotesAt(CreateObjectBatchSpec(env, kinds, p, imps, corrected).report, imps[i].obj, ErrorsKey)
  {
    var step := ObjectSteps(env, kinds, corrected);
    var before := Fold(p, imps[..i], step);
    assert imps[..i + 1][..i] == imps[..i];
    assert Fold(p, imps[..i + 1], step) == ObjectStep(env, kinds, before, imps[i], corrected);
    ObjectStepInvalid(env, kinds, before, imps[i], corrected);
    ObjectStepsExtend(env, kinds, corrected);
    FoldKeepsNote(p, imps, step, i + 1, imps[i].obj, ErrorsKey, ObjectInvalid(imps[i].obj));
  }

  /** An association-type row without an associated object changes no store; the
      missing parameter is the last entry recorded under "errors" for the object. */
  lemma RowMissingAssociatedObject(env: Env, obj: ObjId, p: Progress, row: ImportRow, corrected: bool)
    requires env.parse(row.data).Ok? && env.parse(row.data).value.isAssociation
    requires AssociatedObject(row) == ""
    ensures var out := RowStep(env, obj, p, row, corrected);
      && out.groups == p.groups && out.props == p.props && out.defs == p.defs
      && var notes := NotesAt(out.report, obj, ErrorsKey);
         |notes| > 0 && notes[|notes| - 1] == RowFailed(row.idx, ParamsNeedSet(AsstObjIdField))
  {
    var target := env.parse(row.data).value.(owner := env.owner, objId := obj);
    var read := StringField(row.data, AsstObjIdField);
    var rep := if read.Fail? then WithError(p.report, obj, ErrorsKey, RowFailed(row.idx, read.error)) else p.report;
    WithErrorEffect(rep, obj, ErrorsKey, RowFailed(row.idx, ParamsNeedSet(AsstObjIdField)));
  }

  /** A row that parses and is not stopped for a missing associated object is
      written: the stores take the outcome of setObjectAttribute and its entry is
      recorded under its key. */
  lemma RowWritten(env: Env, obj: ObjId, p: Progress, row: ImportRow, corrected: bool)
    requires env.parse(row.data).Ok?
    requires env.parse(row.data).value.isAssociation ==> AssociatedObject(row) != ""
    ensures var target := env.parse(row.data).value.(owner := env.owner, objId := obj);
      var w := SetAttributeSpec(p.groups, p.props, env.faults, env.xid(obj, row.idx), env.owner, obj, row.idx, target);
      var out := RowStep(env, obj, p, row, corrected);
      && out.groups == w.groups && out.props == w.props
      && w.note in NotesAt(out.report, obj, w.key)
  {
    var target := env.parse(row.data).value.(owner := env.owner, objId := obj);
    var rep := p.report;
    var asstObj := if target.isAssociation then AssociatedObject(row) else "";
    var w := SetAttributeSpec(p.groups, p.props, env.faults, env.xid(obj, row.idx), env.owner, obj, row.idx, target);
    var linked := if corrected then (if w.stored.Some? then [w.stored.value] else []) else w.found;
    var rep' := WithError(rep, obj, w.key, w.note);
    WithErrorEffect(rep, obj, w.key, w.note);
    AssociateMeaning(p.defs, rep', env.faults, obj, row.idx, asstObj, linked);
    var out := RowStep(env, obj, p, row, corrected);
    assert NotesAt(rep', obj, w.key) <= NotesAt(out.report, obj, w.key);
    assert w.note in NotesAt(rep', obj, w.key);
  }

  /** As corrected, an association-type row whose attribute is written links the
      attribute it stored: the association from the object, through the
      attribute, to the row's associated object exists afterwards unless its
      creation was refused. */
  lemma RowLinksStoredAttribute(env: Env, obj: ObjId, p: Progress, row: ImportRow)
    requires env.parse(row.data).Ok? && env.parse(row.data).value.isAssociation
    requires AssociatedObject(row) != ""
    requires var target := env.parse(row.data).value.(owner := env.owner, objId := obj);
      SetAttributeSpec(p.groups, p.props, env.faults, env.xid(obj, row.idx), env.owner, obj, row.idx, target).stored.Some?
    requires env.faults(CreateAssociation(AsstDef(obj, env.parse(row.data).value.propertyId, AssociatedObject(row)))).None?
    ensures AsstDef(obj, env.parse(row.data).value.propertyId, AssociatedObject(row)) in RowStep(env, obj, p, row, true).defs
  {
    var target := env.parse(row.data).value.(owner := env.owner, objId := obj);
    var w := SetAttributeSpec(p.groups, p.props, env.faults, env.xid(obj, row.idx), env.owner, obj, row.idx, target);
    SetAttributeSucceeds(p.groups, p.props, env.faults, env.xid(obj, row.idx), env.owner, obj, row.idx, target);
    var asstObj := AssociatedObject(row);
    var rep := p.report;
    var read := StringField(row.data, AsstObjIdField);
    assert read.Ok?;
    AssociateMeaning(p.defs, WithError(rep, obj, w.key, w.note), env.faults, obj, row.idx, asstObj, [w.stored.value]);
    assert Created(env.faults, obj, w.stored.value, asstObj, AsstDef(obj, target.propertyId, asstObj));
  }

  /** As written, a row whose attribute is new to the object creates no
      association at all, whatever the row asks for: setObjectAttribute returns
      only the definitions it found, and it found none. */
  lemma RowAsWrittenSkipsNewAttribute(env: Env, obj: ObjId, p: Progress, row: ImportRow)
    requires env.parse(row.data).Ok?
    requires forall i :: 0 <= i < |p.props| ==> !SameKey(p.props[i], env.owner, obj, env.parse(row.data).value.propertyId)
    ensures RowStep(env, obj, p, row, false).defs == p.defs
  {
    var target := env.parse(row.data).value.(owner := env.owner, objId := obj);
    PositionsEmpty(p.props, env.owner, obj, target.propertyId);
  }

  const SampleParsed: Property := Property("", "", "rack_host", "rack", "", true, map[])
  const SampleRow: ImportRow := ImportRow(1, map[AsstObjIdField := Str(ObjHost)])

  /** A concrete import showing the difference: importing the association-type
      attribute "rack_host" of a new object "rack", associated with hosts, into an
      empty model layer whose calls all succeed. As written, the attribute is
      created but no association is; as corrected, the association is created. */
  lemma NewAssociationAttributeUnlinked()
    ensures var env := Env("0", r => Ok(SampleParsed), c => None, (o, i) => "g1");
      var p := Progress([], [], [], map[]);
      && RowStep(env, "rack", p, SampleRow, false).defs == []
      && |RowStep(env, "rack", p, SampleRow, false).props| == 1
      && AsstDef("rack", "rack_host", ObjHost) in RowStep(env, "rack", p, SampleRow, true).defs
  {
    var env := Env("0", r => Ok(SampleParsed), c => None, (o, i) => "g1");
    var p := Progress([], [], [], map[]);
    assert env.parse(SampleRow.data) == Ok(SampleParsed);
    assert AssociatedObject(SampleRow) == ObjHost;
    RowAsWrittenSkipsNewAttribute(env, "rack", p, SampleRow);
    var target := SampleParsed.(owner := "0", objId := "rack");
    assert GetGroupSpec([], env.faults, "g1", "0", "rack", "rack").group.Ok?;
    assert SetAttributeSpec([], [], env.faults, "g1", "0", "rack", 1, target).stored.Some?;
    RowLinksStoredAttribute(env, "rack", p, SampleRow);
  }

  /** The association loop of CreateObjectBatch for one row. */
  method CreateAssociations(st: Store, rep: ImportReport, faults: Call -> Option<Err>, obj: ObjId, idx: Int64,
                            asstObj: ObjId, attrs: seq<Property>)
    modifies st`defs, rep
    ensures Links(st.defs, rep.entries) == Associate(old(st.defs), old(rep.entries), faults, obj, idx, asstObj, attrs)
  {
    ghost var defs0 := st.defs;
    ghost var rep0 := rep.entries;
    var k := 0;
    while k < |attrs|
      invariant 0 <= k <= |attrs|
      invariant Links(st.defs, rep.entries) == Associate(defs0, rep0, faults, obj, idx, asstObj, attrs[..k])
    {
      assert attrs[..k + 1][..k] == attrs[..k];
      if attrs[k].isAssociation {
        var d := LinkOf(obj, attrs[k], asstObj);
        var e := faults(CreateAssociation(d));
        if e.Some? {
          rep.SetErrors(obj, ErrorsKey, RowFailed(idx, e.value));
        } else {
          st.defs := st.defs + [d];
        }
      }
      k := k + 1;
    }
    assert attrs[..k] == attrs;
  }

  /** One row of CreateObjectBatch, as corrected: the association loop runs over
      the definition the write stored. */
  method ImportAttributeRow(st: Store, rep: ImportReport, env: Env, obj: ObjId, row: ImportRow)
    modifies st`groups, st`props, st`defs, rep
    ensures Progress(st.groups, st.props, st.defs, rep.entries)
         == RowStep(env, obj, old(Progress(st.groups, st.props, st.defs, rep.entries)), row, true)
  {
    var parsed := env.parse(row.data);
    if parsed.Fail? {
      rep.SetErrors(obj, ErrorsKey, Failed(parsed.error));
      return;
    }
    var target := parsed.value.(owner := env.owner, objId := obj);
    var asstObj := "";
    if target.isAssociation {
      var read := StringField(row.data, AsstObjIdField);
      if read.Fail? {
        rep.SetErrors(obj, ErrorsKey, RowFailed(row.idx, read.error));
      } else {
        asstObj := read.value;
      }
      if asstObj == "" {
        rep.SetErrors(obj, ErrorsKey, RowFailed(row.idx, ParamsNeedSet(AsstObjIdField)));
        return;
      }
    }
    var found, stored := SetObjectAttribute(st, rep, env.faults, env.xid(obj, row.idx), env.owner, obj, row.idx, target);
    var linked := if stored.Some? then [stored.value] else [];
    CreateAssociations(st, rep, env.faults, obj, row.idx, asstObj, linked);
  }

  /** The rows of one object of CreateObjectBatch. */
  method ImportRows(st: Store, rep: ImportReport, env: Env, obj: ObjId, rows: seq<ImportRow>)
    modifies st`groups, st`props, st`defs, rep
    ensures Progress(st.groups, st.props, st.defs, rep.entries)
         == Rows(env, obj, old(Progress(st.groups, st.props, st.defs, rep.entries)), rows, true)
  {
    ghost var p0 := Progress(st.groups, st.props, st.defs, rep.entries);
    var k := 0;
    while k < |rows|
      invariant 0 <= k <= |rows|
      invariant Progress(st.groups, st.props, st.defs, rep.entries) == Fold(p0, rows[..k], RowSteps(env, obj, true))
    {
      RowsSnoc(env, obj, p0, rows, k);
      ImportAttributeRow(st, rep, env, obj, rows[k]);
      k := k + 1;
    }
    assert rows[..k] == rows;
  }

  /** One more row of the import is one more row step. */
  lemma RowsSnoc(env: Env, obj: ObjId, p: Progress, rows: seq<ImportRow>, k: nat)
    requires k < |rows|
    ensures Fold(p, rows[..k + 1], RowSteps(env, obj, true))
         == RowStep(env, obj, Fold(p, rows[..k], RowSteps(env, obj, true)), rows[k], true)
  {
    assert rows[..k + 1][..k] == rows[..k];
  }

  /** One more object of the import is one more object step. */
  lemma ObjectsSnoc(env: Env, kinds: map<ObjId, Kind>, p: Progress, imps: seq<ObjectImport>, k: nat)
    requires k < |imps|
    ensures Fold(p, imps[..k + 1], ObjectSteps(env, kinds, true))
         == ObjectStep(env, kinds, Fold(p, imps[..k], ObjectSteps(env, kinds, true)), imps[k], true)
  {
    assert imps[..k + 1][..k] == imps[..k];
  }

  /** CreateObjectBatch: every object in turn, every row of a defined object in
      turn, into a fresh report. */
  method CreateObjectBatch(st: Store, env: Env, imps: seq<ObjectImport>) returns (rep: ImportReport)
    modifies st`groups, st`props, st`defs
    ensures fresh(rep)
    ensures Progress(st.groups, st.props, st.defs, rep.entries)
         == CreateObjectBatchSpec(env, st.kinds, old(Progress(st.groups, st.props, st.defs, map[])), imps, true)
  {
    rep := new ImportReport();
    ghost var p0 := Progress(st.groups, st.props, st.defs, map[]);
    var k := 0;
    while k < |imps|
      invariant 0 <= k <= |imps|
      invariant fresh(rep)
      invariant Progress(st.groups, st.props, st.defs, rep.entries) == Fold(p0, imps[..k], ObjectSteps(env, st.kinds, true))
    {
      ObjectsSnoc(env, st.kinds, p0, imps, k);
      var imp := imps[k];
      if imp.obj !in st.kinds {
        rep.SetErrors(imp.obj, ErrorsKey, ObjectInvalid(imp.obj));
      } else {
        ImportRows(st, rep, env, imp.obj, imp.rows);
      }
      k := k + 1;
    }
    assert imps[..k] == imps;
  }

  // ---------------------------------------------------------------------------
  // FindObjectBatch

  /** What FindObjectBatch reports for one object: its attribute definitions, and
      for each association-type attribute the objects it associates with. */
  datatype Export = Export(attrs: seq<Property>, assts: map<string, set<Kind>>)

  /** GetAttributes: the object's attribute definitions, in store order. */
  function AttributesOf(props: seq<Property>, obj: ObjId): (r: seq<Property>)
    ensures forall a :: a in r <==> a in props && a.objId == obj
  {
    if props == [] then []
    else (if props[0].objId == obj then [props[0]] else []) + AttributesOf(props[1..], obj)
  }

  /** GetChildObjectByFieldID: the defined objects an association of the object
      through the given attribute leads to. */
  function ChildKinds(kinds: map<ObjId, Kind>, defs: seq<AsstDef>, obj: ObjId, pid: string): set<Kind> {
    set k | k in kinds.Values && AsstDef(obj, pid, k.id) in defs
  }

  /** The association map of one object, built attribute by attribute: each
      association-type attribute maps to the objects it leads to. */
  function AsstInfo(kinds: map<ObjId, Kind>, defs: seq<AsstDef>, obj: ObjId, attrs: seq<Property>): map<string, set<Kind>>
  {
    if attrs == [] then map[]
    else
      var n := |attrs| - 1;
      var prev := AsstInfo(kinds, defs, obj, attrs[..n]);
      if attrs[n].isAssociation then prev[attrs[n].propertyId := ChildKinds(kinds, defs, obj, attrs[n].propertyId)]
      else prev
  }

  /** The association map has an entry for exactly the association-type
      attributes, holding the objects each leads to. */
  lemma {:induction false} AsstInfoMeaning(kinds: map<ObjId, Kind>, defs: seq<AsstDef>, obj: ObjId, attrs: seq<Property>)
    ensures var info := AsstInfo(kinds, defs, obj, attrs);
      && (forall pid :: pid in info <==> Declares(attrs, pid))
      && forall pid :: pid in info ==> info[pid] == ChildKinds(kinds, defs, obj, pid)
  {
    if attrs != [] {
      var n := |attrs| - 1;
      AsstInfoMeaning(kinds, defs, obj, attrs[..n]);
      var info := AsstInfo(kinds, defs, obj, attrs);
      var prev := AsstInfo(kinds, defs, obj, attrs[..n]);
      assert attrs == attrs[..n] + [attrs[n]];
      forall pid
        ensures pid in info <==> Declares(attrs, pid)
      {
        if pid in prev {
          assert Declares(attrs[..n], pid);
          var a :| a in attrs[..n] && a.isAssociation && a.propertyId == pid;
          assert a in attrs;
        }
        if attrs[n].isAssociation && attrs[n].propertyId == pid {
          assert attrs[n] in attrs;
        }
        if Declares(attrs, pid) {
          var a :| a in attrs && a.isAssociation && a.propertyId == pid;
          if a != attrs[n] {
            assert a in attrs[..n];
            assert Declares(attrs[..n], pid);
          }
        }
      }
    }
  }

  /** Whether some association-type attribute has the given id. */
  predicate Declares(attrs: seq<Property>, pid: string) {
    exists a :: a in attrs && a.isAssociation && a.propertyId == pid
  }

  /** The export of one defined object. */
  function ExportOf(kinds: map<ObjId, Kind>, props: seq<Property>, defs: seq<AsstDef>, obj: ObjId): Export {
    var attrs := AttributesOf(props, obj);
    Export(attrs, AsstInfo(kinds, defs, obj, attrs))
  }

  /** FindObjectBatch: the export of every object asked for; the first object
      that is not defined ends the call with its error. */
  function FindObjectBatchSpec(kinds: map<ObjId, Kind>, props: seq<Property>, defs: seq<AsstDef>, ids: seq<ObjId>)
    : Result<map<ObjId, Export>>
  {
    if ids == [] then Ok(map[])
    else
      var n := |ids| - 1;
      var prev := FindObjectBatchSpec(kinds, props, defs, ids[..n]);
      if prev.Fail? then prev
      else if ids[n] !in kinds then Fail(ObjectNotFound(ids[n]))
      else Ok(prev.value[ids[n] := ExportOf(kinds, props, defs, ids[n])])
  }

  lemma {:induction false} FindObjectBatchFailureStays(kinds: map<ObjId, Kind>, props: seq<Property>, defs: seq<AsstDef>,
                                                      ids: seq<ObjId>, k: nat)
    requires k <= |ids|
    requires FindObjectBatchSpec(kinds, props, defs, ids[..k]).Fail?
    ensures FindObjectBatchSpec(kinds, props, defs, ids) == FindObjectBatchSpec(kinds, props, defs, ids[..k])
  {
    if k < |ids| {
      var n := |ids| - 1;
      assert ids[..n][..k] == ids[..k];
      FindObjectBatchFailureStays(kinds, props, defs, ids[..n], k);
    } else {
      assert ids[..k] == ids;
    }
  }

  /** FindObjectBatch succeeds exactly when every object asked for is defined; it
      then holds one export per object asked for, and nothing else. Otherwise it
      names the first object that is not defined. */
  lemma {:induction false} FindObjectBatchMeaning(kinds: map<ObjId, Kind>, props: seq<Property>, defs: seq<AsstDef>,
                                                  ids: seq<ObjId>)
    ensures var r := FindObjectBatchSpec(kinds, props, defs, ids);
      && (r.Ok? <==> forall i :: 0 <= i < |ids| ==> ids[i] in kinds)
      && (r.Ok? ==> (forall o :: o in r.value <==> o in ids)
                    && forall o :: o in r.value ==> r.value[o] == ExportOf(kinds, props, defs, o))
      && (r.Fail? ==> exists i :: 0 <= i < |ids| && ids[i] !in kinds && r.error == ObjectNotFound(ids[i])
                                 && forall j :: 0 <= j < i ==> ids[j] in kinds)
  {
    if ids != [] {
      var n := |ids| - 1;
      FindObjectBatchMeaning(kinds, props, defs, ids[..n]);
      assert ids == ids[..n] + [ids[n]];
    }
  }

  /** The association map of one object, as FindObjectBatch builds it. */
  method ExportAssociations(st: Store, obj: ObjId, attrs: seq<Property>) returns (info: map<string, set<Kind>>)
    ensures info == AsstInfo(st.kinds, st.defs, obj, attrs)
  {
    info := map[];
    var k := 0;
    while k < |attrs|
      invariant 0 <= k <= |attrs|
      invariant info == AsstInfo(st.kinds, st.defs, obj, attrs[..k])
    {
      assert attrs[..k + 1][..k] == attrs[..k];
      if attrs[k].isAssociation {
        info := info[attrs[k].propertyId := ChildKinds(st.kinds, st.defs, obj, attrs[k].propertyId)];
      }
      k := k + 1;
    }
    assert attrs[..k] == attrs;
  }

  /** FindObjectBatch. */
  method FindObjectBatch(st: Store, ids: seq<ObjId>) returns (r: Result<map<ObjId, Export>>)
    ensures r == FindObjectBatchSpec(st.kinds, st.props, st.defs, ids)
  {
    var result := map[];
    var k := 0;
    while k < |ids|
      invariant 0 <= k <= |ids|
      invariant FindObjectBatchSpec(st.kinds, st.props, st.defs, ids[..k]) == Ok(result)
    {
      assert ids[..k + 1][..k] == ids[..k];
      var obj := ids[k];
      if obj !in st.kinds {
        FindObjectBatchFailureStays(st.kinds, st.props, st.defs, ids, k + 1);
        return Fail(ObjectNotFound(obj));
      }
      var attrs := AttributesOf(st.props, obj);
      var info := ExportAssociations(st, obj, attrs);
      result := result[obj := Export(attrs, info)];
      k := k + 1;
    }
    assert ids[..k] == ids;
    r := Ok(result);
  }
}
