/** Properties that tie the edit operations to the generated schema. */
module BuilderProperties {
  import opened Options
  import opened Fields
  import opened Edits
  import opened Generator
  import SchemaProperties
  import Sequences

  /** The builder starts with one initial field, which generates the placeholder schema. */
  lemma InitialStateGeneratesDefault()
    ensures GenerateSchema([InitialField]) == DefaultSchema
  {
    SchemaProperties.UnnamedFieldsGiveDefaultSchema([InitialField]);
  }

  /** `addField` leaves the generated schema unchanged: the new field has no name yet. */
  lemma AddFieldKeepsSchema(fields: seq<Field>)
    ensures GenerateSchema(AddField(fields)) == GenerateSchema(fields)
  {
    SchemaProperties.UnnamedFieldContributesNothing([], InitialField, fields);
    assert [] + [InitialField] + fields == AddField(fields);
    assert [] + fields == fields;
  }

  /** Removing an unnamed field leaves the generated schema unchanged. */
  lemma RemoveUnnamedKeepsSchema(fields: seq<Field>, i: nat)
    requires i < |fields| && fields[i].name == ""
    ensures GenerateSchema(RemoveField(fields, i)) == GenerateSchema(fields)
  {
    SchemaProperties.UnnamedFieldContributesNothing(fields[..i], fields[i], fields[i + 1..]);
    Sequences.SplitAround(fields, i);
  }

  /** Clearing a field's name generates the same schema as removing the field. */
  lemma ClearingNameHidesField(fields: seq<Field>, i: nat)
    requires i < |fields|
    ensures GenerateSchema(UpdateField(fields, i, NoFieldUpdate.(name := Some(""))))
         == GenerateSchema(RemoveField(fields, i))
  {
    var updated := UpdateField(fields, i, NoFieldUpdate.(name := Some("")));
    SchemaProperties.UnnamedFieldContributesNothing(fields[..i], updated[i], fields[i + 1..]);
    Sequences.UpdateAsSplice(fields, i, updated[i]);
  }
}
