/** The builder's edit operations on the field sequence.  Each one returns a new sequence
    instead of replacing component state; only the touched record differs from the input. */
module Edits {
  import opened Options
  import opened Fields

  /** `after` is `before` overwritten by the update's value when the key is present. */
  ghost predicate Merged<T>(key: Option<T>, before: T, after: T) {
    match key
    case Some(v) => after == v
    case None => after == before
  }

  /** A flag key: present means "becomes true exactly when the box reports checked". */
  ghost predicate MergedFlag(key: Option<CheckedState>, before: bool, after: bool) {
    match key
    case Some(c) => after == c.IsTrue()
    case None => after == before
  }

  /** The elements of `s` at every position other than `k`, in order: a filter by index, so
      a position outside the sequence removes nothing. */
  function Without<T>(s: seq<T>, k: int): (r: seq<T>)
    ensures 0 <= k < |s| ==> r == s[..k] + s[k + 1..]
    ensures !(0 <= k < |s|) ==> r == s
  {
    if s == [] then []
    else (if k == 0 then [] else [s[0]]) + Without(s[1..], k - 1)
  }

  /** The position `Array.prototype.splice(start, 1)` removes at, or `len` when it removes
      nothing: a negative start counts back from the end and is clamped at 0, a start past
      the end is clamped at `len`. */
  function SpliceStart(len: nat, start: int): (k: nat)
    ensures k <= len
  {
    if start < 0 then (if len + start < 0 then 0 else len + start)
    else if start > len then len
    else start
  }

  // ----- merging partial updates into records ---------------------------------------------

  /** Shallow merge of a partial conditional rule into an existing one. */
  function MergeConditional(c: ConditionalValidation, u: ConditionalUpdate): (r: ConditionalValidation)
    ensures Merged(u.enabled, c.enabled, r.enabled)
    ensures Merged(u.dependsOn, c.dependsOn, r.dependsOn)
    ensures Merged(u.condition, c.condition, r.condition)
    ensures Merged(u.value, c.value, r.value)
    ensures Merged(u.thenBranch, c.thenBranch, r.thenBranch)
    ensures Merged(u.otherwiseBranch, c.otherwiseBranch, r.otherwiseBranch)
  {
    ConditionalValidation(
      u.enabled.Or(c.enabled),
      u.dependsOn.Or(c.dependsOn),
      u.condition.Or(c.condition),
      u.value.Or(c.value),
      u.thenBranch.Or(c.thenBranch),
      u.otherwiseBranch.Or(c.otherwiseBranch))
  }

  function FlagOr(key: Option<CheckedState>, before: bool): bool {
    match key
    case Some(c) => c.IsTrue()
    case None => before
  }

  /** The record `updateField` stores: every present key overwrites, every absent key keeps
      its value, and a present conditional rule is merged key by key into the existing one. */
  function ApplyFieldUpdate(f: Field, u: FieldUpdate): (g: Field)
    ensures Merged(u.name, f.name, g.name)
    ensures Merged(u.fieldType, f.fieldType, g.fieldType)
    ensures MergedFlag(u.required, f.required, g.required)
    ensures MergedFlag(u.nullable, f.nullable, g.nullable)
    ensures Merged(u.arrayType, f.arrayType, g.arrayType)
    ensures Merged(u.arrayOfObject, f.arrayOfObject, g.arrayOfObject)
    ensures Merged(u.arrayMin, f.arrayMin, g.arrayMin)
    ensures Merged(u.arrayMax, f.arrayMax, g.arrayMax)
    ensures Merged(u.minLength, f.minLength, g.minLength)
    ensures Merged(u.maxLength, f.maxLength, g.maxLength)
    ensures Merged(u.min, f.min, g.min)
    ensures Merged(u.max, f.max, g.max)
    ensures Merged(u.customMessage, f.customMessage, g.customMessage)
    ensures g.objectFields == f.objectFields
    ensures u.conditional.None? ==> g.conditional == f.conditional
    ensures u.conditional.Some? ==> g.conditional == MergeConditional(f.conditional, u.conditional.value)
  {
    Field(
      u.name.Or(f.name),
      u.fieldType.Or(f.fieldType),
      FlagOr(u.required, f.required),
      FlagOr(u.nullable, f.nullable),
      u.minLength.Or(f.minLength),
      u.maxLength.Or(f.maxLength),
      u.min.Or(f.min),
      u.max.Or(f.max),
      u.customMessage.Or(f.customMessage),
      u.arrayType.Or(f.arrayType),
      u.arrayOfObject.Or(f.arrayOfObject),
      f.objectFields,
      u.arrayMin.Or(f.arrayMin),
      u.arrayMax.Or(f.arrayMax),
      match u.conditional
      case Some(cu) => MergeConditional(f.conditional, cu)
      case None => f.conditional)
  }

  function ApplyObjectFieldUpdate(o: ObjectField, u: ObjectFieldUpdate): (r: ObjectField)
    ensures Merged(u.name, o.name, r.name)
    ensures Merged(u.fieldType, o.fieldType, r.fieldType)
    ensures MergedFlag(u.required, o.required, r.required)
  {
    ObjectField(u.name.Or(o.name), u.fieldType.Or(o.fieldType), FlagOr(u.required, o.required))
  }

  function MergeBranch(b: Branch, u: BranchUpdate): (r: Branch)
    ensures Merged(u.required, b.required, r.required)
  {
    Branch(u.required.Or(b.required))
  }

  // ----- the operations ----------------------------------------------------------------------

  /** `addField`: a fresh initial field goes in front of the others. */
  function AddField(fields: seq<Field>): (r: seq<Field>)
    ensures |r| == |fields| + 1
    ensures r[0] == InitialField
    ensures r[1..] == fields
  {
    [InitialField] + fields
  }

  /** `addObjectField`: appends the initial object field to field `i` only. */
  function AddObjectField(fields: seq<Field>, i: nat): (r: seq<Field>)
    requires i < |fields|
    ensures |r| == |fields|
    ensures forall k :: 0 <= k < |fields| && k != i ==> r[k] == fields[k]
    ensures r[i].objectFields == fields[i].objectFields + [InitialObjectField]
    ensures r[i] == fields[i].(objectFields := r[i].objectFields)
  {
    fields[i := fields[i].(objectFields := fields[i].objectFields + [InitialObjectField])]
  }

  /** `updateField`: merges a partial update into field `index` and leaves the rest alone. */
  function UpdateField(fields: seq<Field>, index: nat, u: FieldUpdate): (r: seq<Field>)
    requires index < |fields|
    ensures |r| == |fields|
    ensures forall k :: 0 <= k < |fields| && k != index ==> r[k] == fields[k]
    ensures r[index] == ApplyFieldUpdate(fields[index], u)
  {
    fields[index := ApplyFieldUpdate(fields[index], u)]
  }

  /** `updateConditionalValidation`: merges a partial update into one branch of field `i`'s
      conditional rule; the other branch and every other key stay as they were. */
  function UpdateConditionalValidation(fields: seq<Field>, i: nat, part: Part, u: BranchUpdate): (r: seq<Field>)
    requires i < |fields|
    ensures |r| == |fields|
    ensures forall k :: 0 <= k < |fields| && k != i ==> r[k] == fields[k]
    ensures r[i] == fields[i].(conditional := r[i].conditional)
    ensures part == Then ==>
      r[i].conditional == fields[i].conditional.(thenBranch := r[i].conditional.thenBranch)
      && Merged(u.required, fields[i].conditional.thenBranch.required, r[i].conditional.thenBranch.required)
    ensures part == Otherwise ==>
      r[i].conditional == fields[i].conditional.(otherwiseBranch := r[i].conditional.otherwiseBranch)
      && Merged(u.required, fields[i].conditional.otherwiseBranch.required, r[i].conditional.otherwiseBranch.required)
  {
    var c := fields[i].conditional;
    var c' := match part
      case Then => c.(thenBranch := MergeBranch(c.thenBranch, u))
      case Otherwise => c.(otherwiseBranch := MergeBranch(c.otherwiseBranch, u));
    fields[i := fields[i].(conditional := c')]
  }

  /** `updateObjectField`: merges a partial update into object field `j` of field `i`. */
  function UpdateObjectField(fields: seq<Field>, i: nat, j: nat, u: ObjectFieldUpdate): (r: seq<Field>)
    requires i < |fields| && j < |fields[i].objectFields|
    ensures |r| == |fields|
    ensures forall k :: 0 <= k < |fields| && k != i ==> r[k] == fields[k]
    ensures r[i] == fields[i].(objectFields := r[i].objectFields)
    ensures |r[i].objectFields| == |fields[i].objectFields|
    ensures forall k :: 0 <= k < |fields[i].objectFields| && k != j ==>
      r[i].objectFields[k] == fields[i].objectFields[k]
    ensures r[i].objectFields[j] == ApplyObjectFieldUpdate(fields[i].objectFields[j], u)
  {
    var ofs := fields[i].objectFields;
    fields[i := fields[i].(objectFields := ofs[j := ApplyObjectFieldUpdate(ofs[j], u)])]
  }

  /** `removeField`: drops the field at `index`, keeping the others in order; an index that
      names no field removes nothing.  Removing the only field is allowed. */
  function RemoveField(fields: seq<Field>, index: int): (r: seq<Field>)
    ensures 0 <= index < |fields| ==> |r| == |fields| - 1 && r == fields[..index] + fields[index + 1..]
    ensures !(0 <= index < |fields|) ==> r == fields
  {
    Without(fields, index)
  }

  /** `removeObjectField`: `splice(j, 1)` on the object fields of field `i`. */
  function RemoveObjectField(fields: seq<Field>, i: nat, j: int): (r: seq<Field>)
    requires i < |fields|
    ensures |r| == |fields|
    ensures forall k :: 0 <= k < |fields| && k != i ==> r[k] == fields[k]
    ensures r[i] == fields[i].(objectFields := r[i].objectFields)
    ensures var ofs := fields[i].objectFields;
      && (0 <= j < |ofs| ==> r[i].objectFields == ofs[..j] + ofs[j + 1..])
      && (j < 0 && 0 <= |ofs| + j ==> r[i].objectFields == ofs[..|ofs| + j] + ofs[|ofs| + j + 1..])
      && (|ofs| + j < 0 ==> r[i].objectFields == (if ofs == [] then [] else ofs[1..]))
      && (|ofs| <= j ==> r[i].objectFields == ofs)
  {
    var ofs := fields[i].objectFields;
    fields[i := fields[i].(objectFields := Without(ofs, SpliceStart(|ofs|, j)))]
  }

  // ----- properties relating the operations --------------------------------------------------

  /** Removing the field `addField` just put in front restores the sequence. */
  lemma RemoveUndoesAdd(fields: seq<Field>)
    ensures RemoveField(AddField(fields), 0) == fields
  {
  }

  /** Removing the object field `addObjectField` just appended restores the sequence, whether
      it is named by its position or by -1 as `splice` allows. */
  lemma RemoveObjectFieldUndoesAdd(fields: seq<Field>, i: nat)
    requires i < |fields|
    ensures RemoveObjectField(AddObjectField(fields, i), i, |fields[i].objectFields|) == fields
    ensures RemoveObjectField(AddObjectField(fields, i), i, -1) == fields
  {
    var added := AddObjectField(fields, i);
    var n := |fields[i].objectFields|;
    assert added[i].objectFields[..n] == fields[i].objectFields;
    assert added[i].objectFields[n + 1..] == [];
    assert fields[i].objectFields + [] == fields[i].objectFields;
    assert added[i].(objectFields := fields[i].objectFields) == fields[i];
  }

  /** Applying the same partial update twice has the effect of applying it once. */
  lemma UpdateFieldIdempotent(fields: seq<Field>, index: nat, u: FieldUpdate)
    requires index < |fields|
    ensures UpdateField(UpdateField(fields, index, u), index, u) == UpdateField(fields, index, u)
  {
  }

  /** An update with no keys present changes nothing. */
  lemma EmptyUpdateChangesNothing(fields: seq<Field>, index: nat)
    requires index < |fields|
    ensures UpdateField(fields, index, NoFieldUpdate) == fields
    ensures UpdateField(fields, index, NoFieldUpdate.(conditional := Some(NoConditionalUpdate))) == fields
  {
  }

  /** Ticking "Required" changes exactly one key of exactly one field. */
  lemma RequiredUpdateIsolated(fields: seq<Field>, index: nat)
    requires index < |fields|
    ensures UpdateField(fields, index, NoFieldUpdate.(required := Some(Checked(true))))
         == fields[index := fields[index].(required := true)]
  {
  }
}
