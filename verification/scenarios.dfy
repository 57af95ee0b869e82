/** Concrete inputs and the exact text the generator writes for them. */
module Scenarios {
  import opened Options
  import opened Fields
  import opened Edits
  import opened Generator
  import JsonString
  import Sequences

  const Email: Field := InitialField.(name := "email", required := true)

  /** From the initial state, naming the field "email", keeping it a string and ticking
      "Required" generates a schema with exactly that one entry. */
  lemma EmailScenario()
    ensures GenerateSchema(UpdateField([InitialField], 0,
              NoFieldUpdate.(name := Some("email"), fieldType := Some(String), required := Some(Checked(true)))))
         == Preamble + ("  email: Yup.string()" + ".required(\"email is required\")" + ",\n") + Postamble
  {
    assert UpdateField([InitialField], 0,
             NoFieldUpdate.(name := Some("email"), fieldType := Some(String), required := Some(Checked(true))))
        == [Email];
    EmailEntry();
    EntriesSingle([Email], Email);
  }

  lemma EmailEntry()
    ensures FieldEntry([Email], Email) == "  email: Yup.string()" + ".required(\"email is required\")" + ",\n"
  {
    var req := ".required(\"email is required\")";
    EmailRequirement();
    EmailHead();
    assert BaseCall(Email) == "Yup.string()";
    assert NullableClause(Email) == "" && TypeBounds(Email) == "";
    Sequences.AppendEmpty("  " + "email" + ": " + "Yup.string()");
    Sequences.AppendEmpty("  email: Yup.string()" + req);
  }

  /** Splits a literal for the prover; it states nothing about the model. */
  lemma EmailHead()
    ensures "  " + "email" + ": " + "Yup.string()" == "  email: Yup.string()"
  {
  }

  lemma EmailRequirement()
    ensures RequirementClause([Email], Email) == ".required(\"email is required\")"
  {
    assert RequiredMessage(Email) == "email is required";
  }

  /** A required number field without a custom message gets the default message. */
  lemma DefaultMessageScenario()
    ensures RequirementClause([], InitialField.(name := "age", fieldType := Number, required := true))
         == ".required(\"age is required\")"
  {
  }

  /** Length bounds "3" and "10" on a string field, in that order. */
  lemma LengthBoundsScenario()
    ensures TypeBounds(InitialField.(name := "code", minLength := "3", maxLength := "10"))
         == (".min(3, \"" + "Minimum length is 3" + "\")") + (".max(10, \"" + "Maximum length is 10" + "\")")
  {
    MinLengthText();
    MaxLengthText();
  }

  /** Splits the `.min` literal for the prover, as EmailHead does. */
  lemma MinLengthText()
    ensures BoundCall("min", "3", "Minimum length is " + "3") == ".min(3, \"" + "Minimum length is 3" + "\")"
  {
    assert "Minimum length is " + "3" == "Minimum length is 3";
    assert "." + "min" + "(" + "3" + ", \"" == ".min(3, \"";
  }

  /** Splits the `.max` literal for the prover, as EmailHead does. */
  lemma MaxLengthText()
    ensures BoundCall("max", "10", "Maximum length is " + "10") == ".max(10, \"" + "Maximum length is 10" + "\")"
  {
    assert "Maximum length is " + "10" == "Maximum length is 10";
    assert "." + "max" + "(" + "10" + ", \"" == ".max(10, \"";
  }

  /** An array of objects with a required string `a` and an optional number `b`. */
  lemma ArrayOfObjectsScenario()
    ensures BaseCall(InitialField.(name := "items", fieldType := Array, arrayType := Object, arrayOfObject := true,
                                   objectFields := [ObjectField("a", String, true), ObjectField("b", Number, false)]))
         == "Yup.array().of(Yup.object({\n"
          + ("    a: Yup.string().required(),\n" + "    b: Yup.number().notRequired(),\n")
          + "  }))"
  {
    var a, b := ObjectField("a", String, true), ObjectField("b", Number, false);
    ObjectLineA();
    ObjectLineB();
    assert ObjectFieldsSchema([b]) == ObjectFieldLine(b) + "";
    assert [a, b][1..] == [b];
    assert ObjectFieldsSchema([a, b]) == ObjectFieldLine(a) + ObjectFieldsSchema([b]);
  }

  lemma ObjectLineA()
    ensures ObjectFieldLine(ObjectField("a", String, true)) == "    a: Yup.string().required(),\n"
  {
  }

  lemma ObjectLineB()
    ensures ObjectFieldLine(ObjectField("b", Number, false)) == "    b: Yup.number().notRequired(),\n"
  {
  }

  const AgeRule: ConditionalValidation := InitialConditional.(enabled := true, dependsOn := "age", value := "18")
  const Guardian: Field := InitialField.(name := "guardian", conditional := AgeRule)

  /** "18" compared for equality against a number field `age` is written bare. */
  lemma EqualsNumberScenario()
    ensures TestLine(AgeRule, IsNumericField(GetDependentFieldType([Guardian, InitialField.(name := "age", fieldType := Number)], "age")))
         == "    is: " + "18" + ",\n"
  {
  }

  /** "18" compared for equality against a string field `age` is written as a JSON string. */
  lemma EqualsStringScenario()
    ensures TestLine(AgeRule, IsNumericField(GetDependentFieldType([Guardian, InitialField.(name := "age")], "age")))
         == "    is: " + "\"18\"" + ",\n"
  {
    assert JsonString.Escape("18") == "18";
    assert JsonString.Quote("18") == "\"18\"";
  }

  /** The picker's "Less Than" entry stores a tag no generator case matches: no `is:` line. */
  lemma LesserThanScenario()
    ensures TestLine(InitialConditional.(enabled := true, dependsOn := "age", condition := LesserThan, value := "18"), true)
         == ""
  {
  }
}
