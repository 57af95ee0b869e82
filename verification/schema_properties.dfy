/** Properties of the generated schema text: its overall shape, which inputs each clause
    depends on, the order of the clauses, and how the comparison literal is formatted. */
module SchemaProperties {
  import opened Fields
  import opened Generator
  import JsonString
  import opened Sequences

  // ----- overall shape -----------------------------------------------------------------------

  /** A named field's entry starts with its key and ends with the separator; an unnamed field
      has no entry at all. */
  lemma EntryShape(fields: seq<Field>, f: Field)
    ensures f.name == "" ==> EntryOf(fields, f) == ""
    ensures f.name != "" ==> StartsWith(EntryOf(fields, f), "  " + f.name + ": ")
    ensures f.name != "" ==> EndsWith(EntryOf(fields, f), ",\n")
  {
    if f.name != "" {
      var key := "  " + f.name + ": ";
      var mid := BaseCall(f) + NullableClause(f) + RequirementClause(fields, f) + TypeBounds(f);
      Sequences.GroupMiddle(key, BaseCall(f), NullableClause(f), RequirementClause(fields, f), TypeBounds(f), ",\n");
      Sequences.Affixes(key + mid, ",\n");
      Sequences.Assoc(key, mid, ",\n");
      Sequences.Affixes(key, mid + ",\n");
    }
  }

  /** The entries of a sequence are the entries of its parts, in the same order. */
  lemma EntriesInOrder(fields: seq<Field>, a: seq<Field>, f: Field, b: seq<Field>)
    ensures Entries(fields, a + [f] + b) == Entries(fields, a) + EntryOf(fields, f) + Entries(fields, b)
  {
    EntriesAppend(fields, a + [f], b);
    EntriesAppend(fields, a, [f]);
    EntriesSingle(fields, f);
  }

  lemma {:induction false} NoEntriesWithoutNames(fields: seq<Field>, fs: seq<Field>)
    requires forall i :: 0 <= i < |fs| ==> fs[i].name == ""
    ensures Entries(fields, fs) == ""
  {
    if fs != [] {
      NoEntriesWithoutNames(fields, fs[1..]);
    }
  }

  /** With no named field the generator writes exactly the placeholder schema; in particular
      the builder's initial state generates it. */
  lemma UnnamedFieldsGiveDefaultSchema(fields: seq<Field>)
    requires forall i :: 0 <= i < |fields| ==> fields[i].name == ""
    ensures GenerateSchema(fields) == DefaultSchema
  {
    NoEntriesWithoutNames(fields, fields);
    assert Preamble + "" == Preamble;
  }

  // ----- the lookup and unnamed fields ---------------------------------------------------------

  /** `i` and `j` both being the first position named `name` makes them the same position. */
  lemma FirstNamedUnique(fields: seq<Field>, name: string, i: int, j: int)
    requires FirstNamed(fields, name, i) && FirstNamed(fields, name, j)
    ensures i == j
  {
  }

  /** An unnamed field never answers a lookup of a non-empty name. */
  lemma {:induction false} LookupSkipsUnnamed(a: seq<Field>, u: Field, b: seq<Field>, name: string)
    requires u.name == "" && name != ""
    ensures GetDependentFieldType(a + [u] + b, name) == GetDependentFieldType(a + b, name)
  {
    if a == [] {
      assert a + [u] + b == [u] + b;
      assert ([u] + b)[1..] == b;
      assert a + b == b;
    } else {
      assert (a + [u] + b)[0] == a[0] && (a + b)[0] == a[0];
      assert (a + [u] + b)[1..] == a[1..] + [u] + b;
      assert (a + b)[1..] == a[1..] + b;
      LookupSkipsUnnamed(a[1..], u, b, name);
    }
  }

  /** An entry reads the field sequence only through the lookup of its `dependsOn` name. */
  lemma EntryReadsOnlyLookup(all: seq<Field>, all': seq<Field>, f: Field)
    requires ConditionalActive(f) ==>
      GetDependentFieldType(all, f.conditional.dependsOn) == GetDependentFieldType(all', f.conditional.dependsOn)
    ensures EntryOf(all, f) == EntryOf(all', f)
  {
  }

  lemma {:induction false} EntriesIgnoreUnnamed(a: seq<Field>, u: Field, b: seq<Field>, fs: seq<Field>)
    requires u.name == ""
    ensures Entries(a + [u] + b, fs) == Entries(a + b, fs)
  {
    if fs != [] {
      var f := fs[0];
      if ConditionalActive(f) {
        LookupSkipsUnnamed(a, u, b, f.conditional.dependsOn);
      }
      EntryReadsOnlyLookup(a + [u] + b, a + b, f);
      EntriesIgnoreUnnamed(a, u, b, fs[1..]);
    }
  }

  /** A field with an empty name contributes nothing, not even as a dependency target:
      the schema is the one generated without it. */
  lemma UnnamedFieldContributesNothing(a: seq<Field>, u: Field, b: seq<Field>)
    requires u.name == ""
    ensures GenerateSchema(a + [u] + b) == GenerateSchema(a + b)
  {
    var all, all' := a + [u] + b, a + b;
    calc {
      Entries(all, all);
    ==  { EntriesIgnoreUnnamed(a, u, b, all); }
      Entries(all', all);
    ==  { EntriesInOrder(all', a, u, b); }
      Entries(all', a) + EntryOf(all', u) + Entries(all', b);
    ==  { assert EntryOf(all', u) == ""; Sequences.AppendEmpty(Entries(all', a)); }
      Entries(all', a) + Entries(all', b);
    ==  { EntriesAppend(all', a, b); }
      Entries(all', all');
    }
  }

  // ----- required / conditional clause -------------------------------------------------------

  /** The three places a `.required("...")` with a message can appear all carry the same
      message: the custom message if there is one, else "<name> is required". */
  lemma RequiredMessageAtEverySite(fields: seq<Field>, f: Field)
    ensures var text := ".required(\"" + (if f.customMessage != "" then f.customMessage else f.name + " is required") + "\")";
      && (!ConditionalActive(f) && f.required ==> RequirementClause(fields, f) == text)
      && (f.conditional.thenBranch.required ==> ThenLine(f) == "    then: (schema) => schema" + text + ",\n")
      && (f.conditional.otherwiseBranch.required ==>
            OtherwiseLine(f) == "    otherwise: (schema) => schema" + text + "\n  })")
  {
  }

  /** Without an active conditional rule the clause is exactly one of `.required(msg)` and
      `.notRequired()`, chosen by the field's own flag, and the rest of the rule is unread. */
  lemma PlainRequirement(fields: seq<Field>, f: Field, c: ConditionalValidation)
    requires !ConditionalActive(f)
    requires !(c.enabled && c.dependsOn != "")
    ensures f.required ==> RequirementClause(fields, f) == ".required(\"" + RequiredMessage(f) + "\")"
    ensures !f.required ==> RequirementClause(fields, f) == ".notRequired()"
    ensures FieldEntry(fields, f.(conditional := c)) == FieldEntry(fields, f)
  {
    RequirementCongruence(fields, f, f.(conditional := c));
    EntryCongruence(fields, f, f.(conditional := c));
  }

  /** With an active conditional rule the clause is a `.when` on the dependency that ends with
      both branch bodies. */
  lemma ConditionalRequirement(fields: seq<Field>, f: Field)
    requires ConditionalActive(f)
    ensures StartsWith(RequirementClause(fields, f), WhenHead(f.conditional.dependsOn))
    ensures EndsWith(RequirementClause(fields, f), ThenLine(f) + OtherwiseLine(f))
  {
    var numeric := IsNumericField(GetDependentFieldType(fields, f.conditional.dependsOn));
    var head, test := WhenHead(f.conditional.dependsOn), TestLine(f.conditional, numeric);
    assert RequirementClause(fields, f) == head + test + ThenLine(f) + OtherwiseLine(f);
    Sequences.AssocRight(head, test, ThenLine(f), OtherwiseLine(f));
    Sequences.Affixes(head, test + ThenLine(f) + OtherwiseLine(f));
    Sequences.Assoc(head + test, ThenLine(f), OtherwiseLine(f));
    Sequences.Affixes(head + test, ThenLine(f) + OtherwiseLine(f));
  }

  /** With an active conditional rule the field's own required flag is not read. */
  lemma ConditionalIgnoresRequired(fields: seq<Field>, f: Field, b: bool)
    requires ConditionalActive(f)
    ensures FieldEntry(fields, f.(required := b)) == FieldEntry(fields, f)
  {
    ConditionalClauseIgnoresRequired(fields, f, b);
    BaseCongruence(f, f.(required := b));
    EntryCongruence(fields, f, f.(required := b));
  }

  lemma ConditionalClauseIgnoresRequired(fields: seq<Field>, f: Field, b: bool)
    requires ConditionalActive(f)
    ensures RequirementClause(fields, f.(required := b)) == RequirementClause(fields, f)
  {
    RequirementCongruence(fields, f, f.(required := b));
  }

  /** Entries built from equal parts are equal. */
  lemma EntryCongruence(fields: seq<Field>, f: Field, g: Field)
    requires f.name == g.name && BaseCall(f) == BaseCall(g) && NullableClause(f) == NullableClause(g)
    requires RequirementClause(fields, f) == RequirementClause(fields, g) && TypeBounds(f) == TypeBounds(g)
    ensures FieldEntry(fields, f) == FieldEntry(fields, g)
  {
  }

  /** The required/conditional clause reads the name, the custom message, the required flag
      only without an active rule, and of an active rule only its dependency, its test and
      its two branches. */
  lemma RequirementCongruence(fields: seq<Field>, f: Field, g: Field)
    requires f.name == g.name && f.customMessage == g.customMessage
    requires ConditionalActive(f) == ConditionalActive(g)
    requires !ConditionalActive(f) ==> f.required == g.required
    requires ConditionalActive(f) ==>
      && f.conditional.dependsOn == g.conditional.dependsOn
      && f.conditional.thenBranch == g.conditional.thenBranch
      && f.conditional.otherwiseBranch == g.conditional.otherwiseBranch
      && Test(f.conditional, true) == Test(g.conditional, true)
      && Test(f.conditional, false) == Test(g.conditional, false)
    ensures RequirementClause(fields, f) == RequirementClause(fields, g)
  {
    assert RequiredMessage(f) == RequiredMessage(g);
    if ConditionalActive(f) {
      var numeric := IsNumericField(GetDependentFieldType(fields, f.conditional.dependsOn));
      assert TestLine(f.conditional, numeric) == TestLine(g.conditional, numeric);
      assert ThenLine(f) == ThenLine(g) && OtherwiseLine(f) == OtherwiseLine(g);
      assert WhenClause(fields, f) == WhenClause(fields, g);
    }
  }

  /** The base call reads the kind, and only for arrays the element settings and the count
      bounds, and only for nested objects the object fields. */
  lemma BaseCongruence(f: Field, g: Field)
    requires f.fieldType == g.fieldType
    requires f.fieldType == Array ==>
      f.name == g.name && f.arrayOfObject == g.arrayOfObject && f.arrayType == g.arrayType
      && f.arrayMin == g.arrayMin && f.arrayMax == g.arrayMax
    requires f.fieldType == Object || (f.fieldType == Array && f.arrayOfObject) ==> f.objectFields == g.objectFields
    ensures BaseCall(f) == BaseCall(g)
  {
    if f.fieldType == Array {
      assert ArrayCall(f) == ArrayCall(g);
    }
  }

  // ----- the comparison literal --------------------------------------------------------------

  /** The first field named `name` exists and is a number field. */
  ghost predicate DependsOnNumber(fields: seq<Field>, name: string) {
    exists i :: FirstNamed(fields, name, i) && fields[i].fieldType == Number
  }

  lemma NumericLookup(fields: seq<Field>, name: string)
    ensures IsNumericField(GetDependentFieldType(fields, name)) <==> DependsOnNumber(fields, name)
  {
    var r := GetDependentFieldType(fields, name);
    if DependsOnNumber(fields, name) {
      var i :| FirstNamed(fields, name, i) && fields[i].fieldType == Number;
      var j :| FirstNamed(fields, name, j) && fields[j].fieldType == r.value;
      FirstNamedUnique(fields, name, i, j);
    }
  }

  /** The `.when` clause of an active rule: its head names the dependency, its `is:` line is
      formatted as for a number field exactly when the first field named by `dependsOn` is a
      number field (a missing field counts as non-numeric), and both branch bodies follow. */
  lemma WhenClauseShape(fields: seq<Field>, f: Field)
    requires ConditionalActive(f)
    ensures RequirementClause(fields, f)
      == WhenHead(f.conditional.dependsOn)
       + TestLine(f.conditional, DependsOnNumber(fields, f.conditional.dependsOn))
       + ThenLine(f) + OtherwiseLine(f)
  {
    NumericLookup(fields, f.conditional.dependsOn);
  }

  /** How the `is:` line writes the comparison value: equality tests write it bare for a
      numeric dependency and as a JSON string otherwise, and ordering tests always write it
      bare. */
  lemma ComparisonLiteral(c: ConditionalValidation, numeric: bool)
    ensures var operand := if numeric then c.value else JsonString.Quote(c.value);
      && (c.condition == Equals ==> TestLine(c, numeric) == "    is: " + operand + ",\n")
      && (c.condition == NotEquals ==> TestLine(c, numeric) == "    is: " + ("(val) => val !== " + operand) + ",\n")
      && (c.condition == GreaterThan ==> TestLine(c, numeric) == "    is: " + ("(val) => val > " + c.value) + ",\n")
      && (c.condition == LessThan ==> TestLine(c, numeric) == "    is: " + ("(val) => val < " + c.value) + ",\n")
      && (c.condition == GreaterThanOrEqual ==> TestLine(c, numeric) == "    is: " + ("(val) => val >= " + c.value) + ",\n")
      && (c.condition == LessThanOrEqual ==> TestLine(c, numeric) == "    is: " + ("(val) => val <= " + c.value) + ",\n")
    ensures (|| c.condition == GreaterThan || c.condition == LessThan
             || c.condition == GreaterThanOrEqual || c.condition == LessThanOrEqual) ==>
      TestLine(c, true) == TestLine(c, false)
  {
  }

  /** The presence tests read neither the comparison value nor the dependency's kind, and the
      unmatched `LesserThan` tag is the one condition that writes no `is:` line. */
  lemma PresenceTests(c: ConditionalValidation, v: string, numeric: bool)
    ensures c.condition == Defined || c.condition == Undefined || c.condition == LesserThan ==>
      Test(c.(value := v), numeric) == Test(c, numeric) && Test(c, !numeric) == Test(c, numeric)
    ensures c.condition == LesserThan <==> TestLine(c, numeric) == ""
  {
  }

  /** The presence tests do not read the comparison value. */
  lemma PresenceTestIgnoresValue(fields: seq<Field>, f: Field, v: string)
    requires f.conditional.condition == Defined || f.conditional.condition == Undefined
          || f.conditional.condition == LesserThan
    ensures FieldEntry(fields, f.(conditional := f.conditional.(value := v))) == FieldEntry(fields, f)
  {
    var g := f.(conditional := f.conditional.(value := v));
    PresenceClauseIgnoresValue(fields, f, v);
    BaseCongruence(f, g);
    EntryCongruence(fields, f, g);
  }

  lemma PresenceClauseIgnoresValue(fields: seq<Field>, f: Field, v: string)
    requires f.conditional.condition == Defined || f.conditional.condition == Undefined
          || f.conditional.condition == LesserThan
    ensures RequirementClause(fields, f.(conditional := f.conditional.(value := v))) == RequirementClause(fields, f)
  {
    PresenceTests(f.conditional, v, true);
    PresenceTests(f.conditional, v, false);
    RequirementCongruence(fields, f, f.(conditional := f.conditional.(value := v)));
  }

  // ----- kind-gated bounds and their order ---------------------------------------------------

  /** Length bounds are read only for string fields. */
  lemma LengthBoundsOnlyForStrings(fields: seq<Field>, f: Field, lo: string, hi: string)
    requires f.fieldType != String
    ensures FieldEntry(fields, f.(minLength := lo, maxLength := hi)) == FieldEntry(fields, f)
  {
    var g := f.(minLength := lo, maxLength := hi);
    BaseCongruence(f, g);
    RequirementCongruence(fields, f, g);
    assert TypeBounds(g) == TypeBounds(f);
    EntryCongruence(fields, f, g);
  }

  /** Value bounds are read only for number fields. */
  lemma ValueBoundsOnlyForNumbers(fields: seq<Field>, f: Field, lo: string, hi: string)
    requires f.fieldType != Number
    ensures FieldEntry(fields, f.(min := lo, max := hi)) == FieldEntry(fields, f)
  {
    var g := f.(min := lo, max := hi);
    BaseCongruence(f, g);
    RequirementCongruence(fields, f, g);
    assert TypeBounds(g) == TypeBounds(f);
    EntryCongruence(fields, f, g);
  }

  /** Count bounds are read only for array fields. */
  lemma CountBoundsOnlyForArrays(fields: seq<Field>, f: Field, lo: string, hi: string)
    requires f.fieldType != Array
    ensures FieldEntry(fields, f.(arrayMin := lo, arrayMax := hi)) == FieldEntry(fields, f)
  {
    var g := f.(arrayMin := lo, arrayMax := hi);
    BaseCongruence(f, g);
    RequirementCongruence(fields, f, g);
    assert TypeBounds(g) == TypeBounds(f);
    EntryCongruence(fields, f, g);
  }

  /** The kind bounds follow the required/conditional clause and end the entry. */
  lemma BoundsFollowRequirement(fields: seq<Field>, f: Field)
    ensures EndsWith(FieldEntry(fields, f), RequirementClause(fields, f) + TypeBounds(f) + ",\n")
  {
    var head := "  " + f.name + ": " + BaseCall(f) + NullableClause(f);
    Sequences.AssocRight(head, RequirementClause(fields, f), TypeBounds(f), ",\n");
    Sequences.Affixes(head, RequirementClause(fields, f) + TypeBounds(f) + ",\n");
  }

  /** String fields get their length bounds and number fields their value bounds, `.min`
      before `.max`; other kinds get none. */
  lemma KindBoundsInOrder(fields: seq<Field>, f: Field)
    ensures f.fieldType == String ==>
      EndsWith(FieldEntry(fields, f),
        BoundCall("min", f.minLength, "Minimum length is " + f.minLength)
        + BoundCall("max", f.maxLength, "Maximum length is " + f.maxLength) + ",\n")
    ensures f.fieldType == Number ==>
      EndsWith(FieldEntry(fields, f),
        BoundCall("min", f.min, "Minimum value is " + f.min)
        + BoundCall("max", f.max, "Maximum value is " + f.max) + ",\n")
    ensures f.fieldType != String && f.fieldType != Number ==>
      EndsWith(FieldEntry(fields, f), RequirementClause(fields, f) + ",\n")
  {
    var head := "  " + f.name + ": " + BaseCall(f) + NullableClause(f) + RequirementClause(fields, f);
    if f.fieldType != String && f.fieldType != Number {
      var front := "  " + f.name + ": " + BaseCall(f) + NullableClause(f);
      assert TypeBounds(f) == "";
      Sequences.AppendEmpty(head);
      Sequences.Assoc(front, RequirementClause(fields, f), ",\n");
      Sequences.Affixes(front, RequirementClause(fields, f) + ",\n");
    } else {
      Sequences.Assoc(head, TypeBounds(f), ",\n");
      Sequences.Affixes(head, TypeBounds(f) + ",\n");
    }
  }

  /** A bound is written exactly when its text is non-empty, with the text inserted verbatim
      as the limit: no range or ordering check is made. */
  lemma BoundVerbatim(call: string, limit: string, message: string)
    ensures limit == "" <==> BoundCall(call, limit, message) == ""
    ensures limit != "" ==>
      BoundCall(call, limit, message) == "." + call + "(" + limit + ", \"" + message + "\")"
  {
  }

  /** An array field's call starts with its element schema (nested object fields, or the
      element kind) and ends with its count bounds, `.min` before `.max`; the count bounds are
      therefore written before `.nullable()`, and array fields carry no kind bounds. */
  lemma ArrayCallShape(f: Field)
    requires f.fieldType == Array
    ensures StartsWith(BaseCall(f),
      if f.arrayOfObject then "Yup.array().of(Yup.object({\n" + ObjectFieldsSchema(f.objectFields) + "  }))"
      else "Yup.array().of(Yup." + f.arrayType.Name() + "())")
    ensures EndsWith(BaseCall(f),
      BoundCall("min", f.arrayMin, "Minimum " + f.name + " count is " + f.arrayMin)
      + BoundCall("max", f.arrayMax, "Maximum " + f.name + " count is " + f.arrayMax))
    ensures TypeBounds(f) == ""
  {
    var element :=
      if f.arrayOfObject then "Yup.array().of(Yup.object({\n" + ObjectFieldsSchema(f.objectFields) + "  }))"
      else "Yup.array().of(Yup." + f.arrayType.Name() + "())";
    var lo := BoundCall("min", f.arrayMin, "Minimum " + f.name + " count is " + f.arrayMin);
    var hi := BoundCall("max", f.arrayMax, "Maximum " + f.name + " count is " + f.arrayMax);
    assert BaseCall(f) == element + lo + hi;
    Sequences.Assoc(element, lo, hi);
    Sequences.Affixes(element, lo + hi);
  }

  // ----- object fields -----------------------------------------------------------------------

  lemma {:induction false} ObjectFieldsInOrder(a: seq<ObjectField>, b: seq<ObjectField>)
    ensures ObjectFieldsSchema(a + b) == ObjectFieldsSchema(a) + ObjectFieldsSchema(b)
  {
    if a == [] {
      assert a + b == b;
    } else {
      assert (a + b)[1..] == a[1..] + b;
      ObjectFieldsInOrder(a[1..], b);
    }
  }

  /** The `Yup` call of a scalar kind is named after the kind. */
  lemma ScalarCallNamed(t: ScalarType)
    ensures ScalarCall(t) == "Yup." + t.Name() + "()"
  {
  }

  /** Each object field writes one line: its key, the `Yup` call of its kind, a bare
      `.required()` or `.notRequired()`, and the separator; nothing else about it is read. */
  lemma ObjectFieldLineShape(o: ObjectField)
    ensures ObjectFieldLine(o)
      == "    " + o.name + ": " + ("Yup." + o.fieldType.Name() + "()")
       + (if o.required then ".required()" else ".notRequired()") + ",\n"
  {
    ScalarCallNamed(o.fieldType);
  }

  /** An object field nests its object-field lines in `Yup.object`; an array of objects nests
      the same lines (see ArrayCallShape). */
  lemma ObjectBody(f: Field)
    requires f.fieldType == Object
    ensures BaseCall(f) == "Yup.object({\n" + ObjectFieldsSchema(f.objectFields) + "  })"
    ensures BaseCall(f.(fieldType := Array, arrayOfObject := true, arrayMin := "", arrayMax := ""))
         == "Yup.array().of(" + BaseCall(f) + ")"
  {
    var g := f.(fieldType := Array, arrayOfObject := true, arrayMin := "", arrayMax := "");
    var body := ObjectFieldsSchema(f.objectFields);
    var nested := "Yup.object({\n" + body + "  })";
    assert BaseCall(g) == "Yup.array().of(Yup.object({\n" + body + "  }))" + "" + "";
    assert "Yup.array().of(Yup.object({\n" == "Yup.array().of(" + "Yup.object({\n";
    assert "  }))" == "  })" + ")";
    Sequences.GroupThree("Yup.array().of(", "Yup.object({\n", body, "  })", ")");
  }

  /** A field's object fields are read only when it is an object or an array of objects. */
  lemma ObjectFieldsOnlyWhenNested(fields: seq<Field>, f: Field, ofs: seq<ObjectField>)
    requires !(f.fieldType == Object || (f.fieldType == Array && f.arrayOfObject))
    ensures FieldEntry(fields, f.(objectFields := ofs)) == FieldEntry(fields, f)
  {
    var g := f.(objectFields := ofs);
    BaseCongruence(f, g);
    RequirementCongruence(fields, f, g);
    EntryCongruence(fields, f, g);
  }
}
