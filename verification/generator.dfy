/** The schema-text generator: walks the field sequence and concatenates Yup source
    fragments, one entry per named field, between a fixed preamble and postamble.  The result
    is returned instead of being stored in component state. */
module Generator {
  import opened Options
  import opened Fields
  import JsonString
  import Sequences

  const Preamble: string := "import * as Yup from 'yup';\n\n" + "const validationSchema = Yup.object({\n"
  const Postamble: string := "});\n\nexport default validationSchema;"

  /** The placeholder schema shown before anything has been generated, written
      here line group by line group. */
  const DefaultSchema: string :=
    "import * as Yup from 'yup';\n\n" + "const validationSchema = Yup.object({\n" + "});\n\nexport default validationSchema;"

  // ----- looking up the field a conditional rule depends on ----------------------------------

  /** `i` is the first position holding a field called `name`. */
  ghost predicate FirstNamed(fields: seq<Field>, name: string, i: int) {
    && 0 <= i < |fields|
    && fields[i].name == name
    && forall j :: 0 <= j < i ==> fields[j].name != name
  }

  /** `getDependentFieldType`: the kind of the first field called `name`, if there is one. */
  function GetDependentFieldType(fields: seq<Field>, name: string): (r: Option<FieldType>)
    ensures r.None? <==> forall i :: 0 <= i < |fields| ==> fields[i].name != name
    ensures r.Some? ==> exists i :: FirstNamed(fields, name, i) && fields[i].fieldType == r.value
  {
    if fields == [] then None
    else if fields[0].name == name then
      assert FirstNamed(fields, name, 0);
      Some(fields[0].fieldType)
    else
      var r := GetDependentFieldType(fields[1..], name);
      assert r.Some? ==> exists i :: FirstNamed(fields[1..], name, i) && fields[1..][i].fieldType == r.value;
      assert forall i :: FirstNamed(fields[1..], name, i) ==> FirstNamed(fields, name, i + 1);
      r
  }

  /** `isNumericField`. */
  predicate IsNumericField(t: Option<FieldType>) {
    t == Some(Number)
  }

  // ----- base calls --------------------------------------------------------------------------

  function ScalarCall(t: ScalarType): string {
    match t
    case String => "Yup.string()"
    case Number => "Yup.number()"
    case Boolean => "Yup.boolean()"
    case Date => "Yup.date()"
  }

  /** The line `generateObjectFieldsSchema` writes for one object field. */
  function ObjectFieldLine(o: ObjectField): string {
    "    " + o.name + ": " + ScalarCall(o.fieldType) + (if o.required then ".required()" else ".notRequired()") + ",\n"
  }

  /** `generateObjectFieldsSchema`: one line per object field, in order.  Unlike top-level
      fields, an object field without a name still writes its line. */
  function ObjectFieldsSchema(ofs: seq<ObjectField>): (r: string)
    ensures r == "" <==> ofs == []
  {
    if ofs == [] then "" else ObjectFieldLine(ofs[0]) + ObjectFieldsSchema(ofs[1..])
  }

  /** A `.min`/`.max` call with its message, written only when the limit text is non-empty;
      the limit goes in verbatim. */
  function BoundCall(call: string, limit: string, message: string): string {
    if limit == "" then "" else "." + call + "(" + limit + ", \"" + message + "\")"
  }

  /** The array base call: element schema, then the count bounds. */
  function ArrayCall(f: Field): string {
    (if f.arrayOfObject then "Yup.array().of(Yup.object({\n" + ObjectFieldsSchema(f.objectFields) + "  }))"
     else "Yup.array().of(Yup." + f.arrayType.Name() + "())")
    + BoundCall("min", f.arrayMin, "Minimum " + f.name + " count is " + f.arrayMin)
    + BoundCall("max", f.arrayMax, "Maximum " + f.name + " count is " + f.arrayMax)
  }

  /** The base validator chosen by the field's kind. */
  function BaseCall(f: Field): string {
    match f.fieldType
    case Array => ArrayCall(f)
    case Object => "Yup.object({\n" + ObjectFieldsSchema(f.objectFields) + "  })"
    case _ => ScalarCall(f.fieldType)
  }

  // ----- required / conditional clause -------------------------------------------------------

  /** The message of every `.required("...")` the field's entry carries. */
  function RequiredMessage(f: Field): string {
    if f.customMessage != "" then f.customMessage else f.name + " is required"
  }

  /** `.required(message)` when `required` holds, `.notRequired()` otherwise. */
  function RequirementFor(f: Field, required: bool): string {
    if required then ".required(\"" + RequiredMessage(f) + "\")" else ".notRequired()"
  }

  /** The conditional rule takes over from the plain required flag. */
  predicate ConditionalActive(f: Field) {
    f.conditional.enabled && f.conditional.dependsOn != ""
  }

  /** The comparison operand: bare when the dependent field is numeric, else a JSON string. */
  function Operand(value: string, numeric: bool): string {
    if numeric then value else JsonString.Quote(value)
  }

  /** The test an `is:` line carries, per condition; the `LesserThan` tag matches no case of
      the generator's switch and so has none. */
  function Test(c: ConditionalValidation, numeric: bool): Option<string> {
    match c.condition
    case Equals => Some(Operand(c.value, numeric))
    case NotEquals => Some("(val) => val !== " + Operand(c.value, numeric))
    case Defined => Some("(val) => val !== undefined && val !== null && val !== ''")
    case Undefined => Some("(val) => val === undefined || val === null || val === ''")
    case GreaterThan => Some("(val) => val > " + c.value)
    case LessThan => Some("(val) => val < " + c.value)
    case GreaterThanOrEqual => Some("(val) => val >= " + c.value)
    case LessThanOrEqual => Some("(val) => val <= " + c.value)
    case LesserThan => None
  }

  /** The `is:` line of a `.when` clause, or nothing when the condition has no test. */
  function TestLine(c: ConditionalValidation, numeric: bool): string {
    match Test(c, numeric)
    case Some(t) => "    is: " + t + ",\n"
    case None => ""
  }

  function WhenHead(dependsOn: string): string {
    ".when('" + dependsOn + "', {\n"
  }

  function ThenLine(f: Field): string {
    "    then: (schema) => schema" + RequirementFor(f, f.conditional.thenBranch.required) + ",\n"
  }

  function OtherwiseLine(f: Field): string {
    "    otherwise: (schema) => schema" + RequirementFor(f, f.conditional.otherwiseBranch.required) + "\n  })"
  }

  /** The `.when(...)` clause; the comparison literal's form depends on the kind of the first
      field (of the whole sequence) named by `dependsOn`. */
  function WhenClause(fields: seq<Field>, f: Field): string {
    var c := f.conditional;
    var numeric := IsNumericField(GetDependentFieldType(fields, c.dependsOn));
    WhenHead(c.dependsOn) + TestLine(c, numeric) + ThenLine(f) + OtherwiseLine(f)
  }

  function RequirementClause(fields: seq<Field>, f: Field): string {
    if ConditionalActive(f) then WhenClause(fields, f) else RequirementFor(f, f.required)
  }

  // ----- kind-specific bounds and the whole entry --------------------------------------------

  function TypeBounds(f: Field): string {
    (if f.fieldType == String then
       BoundCall("min", f.minLength, "Minimum length is " + f.minLength)
       + BoundCall("max", f.maxLength, "Maximum length is " + f.maxLength)
     else "")
    + (if f.fieldType == Number then
         BoundCall("min", f.min, "Minimum value is " + f.min)
         + BoundCall("max", f.max, "Maximum value is " + f.max)
       else "")
  }

  function NullableClause(f: Field): string {
    if f.nullable then ".nullable()" else ""
  }

  /** The entry of one named field, looked up against the whole sequence `fields`. */
  function FieldEntry(fields: seq<Field>, f: Field): string {
    "  " + f.name + ": " + BaseCall(f) + NullableClause(f) + RequirementClause(fields, f) + TypeBounds(f) + ",\n"
  }

  /** What one iteration of the generator's loop adds: nothing for an unnamed field. */
  function EntryOf(fields: seq<Field>, f: Field): string {
    if f.name == "" then "" else FieldEntry(fields, f)
  }

  function Entries(fields: seq<Field>, fs: seq<Field>): string {
    if fs == [] then "" else EntryOf(fields, fs[0]) + Entries(fields, fs[1..])
  }

  /** `generateSchema`, returning the text. */
  function GenerateSchema(fields: seq<Field>): (r: string)
    ensures Sequences.StartsWith(r, Preamble) && Sequences.EndsWith(r, Postamble)
  {
    Preamble + Entries(fields, fields) + Postamble
  }

  lemma {:induction false} EntriesAppend(fields: seq<Field>, a: seq<Field>, b: seq<Field>)
    ensures Entries(fields, a + b) == Entries(fields, a) + Entries(fields, b)
  {
    if a == [] {
      assert a + b == b;
    } else {
      assert (a + b)[1..] == a[1..] + b;
      EntriesAppend(fields, a[1..], b);
    }
  }

  lemma EntriesSingle(fields: seq<Field>, f: Field)
    ensures Entries(fields, [f]) == EntryOf(fields, f)
  {
    assert Entries(fields, [f]) == EntryOf(fields, f) + Entries(fields, []);
    Sequences.AppendEmpty(EntryOf(fields, f));
  }

  lemma EntriesStep(fields: seq<Field>, i: nat)
    requires i < |fields|
    ensures Entries(fields, fields[..i + 1]) == Entries(fields, fields[..i]) + EntryOf(fields, fields[i])
  {
    Sequences.TakeOneMore(fields, i);
    EntriesAppend(fields, fields[..i], [fields[i]]);
    EntriesSingle(fields, fields[i]);
  }

  /** The generator's loop: visit the fields in order, skip the unnamed ones, append each
      entry, and wrap the result in the preamble and postamble. */
  method BuildSchema(fields: seq<Field>) returns (schemaCode: string)
    ensures schemaCode == Preamble + Entries(fields, fields) + Postamble
  {
    var body := "";
    var i := 0;
    while i < |fields|
      invariant i <= |fields|
      invariant body == Entries(fields, fields[..i])
    {
      var field := fields[i];
      EntriesStep(fields, i);
      if field.name != "" {
        body := body + FieldEntry(fields, field);
      }
      i := i + 1;
    }
    assert fields[..i] == fields;
    schemaCode := Preamble + body + Postamble;
  }
}
