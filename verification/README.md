# Yup schema builder — a Dafny model of the builder core

The builder is a form in which a user describes the fields of a record one at a time:
a name, a kind (string, number, boolean, date, array, object), required/nullable flags,
textual bounds, a custom message, nested object fields for objects and arrays of objects,
and an optional conditional rule ("required when field X equals / exceeds / is defined …").
From that list of field descriptors it writes the text of a JavaScript module that builds
the matching Yup validation schema.

This project models the core of `src/components/YupSchemaBuilder.tsx`:

- the descriptor types and their initial values (`fields.dfy`);
- the edit operations `addField`, `addObjectField`, `updateField`,
  `updateConditionalValidation`, `updateObjectField`, `removeField` and
  `removeObjectField` (`edits.dfy`). Each operation is a pure function from the old field
  sequence to the new one. The component instead copies, mutates and stores state;
- the schema-text generator: `getDependentFieldType`, `isNumericField`,
  `generateObjectFieldsSchema` and `generateSchema` (`generator.dfy`). It also includes
  `JSON.stringify` on strings, which is how the source quotes a comparison value
  (`json_string.dfy`, following the QuoteJSONString operation of ECMA-262).
  `generateSchema` is given twice:
  - as the function `GenerateSchema`;
  - as the method `BuildSchema`, the source's loop, which is proved to compute the same text.

The properties are in three places:

- `schema_properties.dfy`: the shape and order of the generated text, which inputs each
  clause reads, and how the comparison literal is formatted;
- `builder_properties.dfy`: how edits affect the generated text;
- `scenarios.dfy`: exact output for concrete inputs.

`sequences.dfy` holds generic sequence facts, and `options.dfy` holds the option type.

Two facts about the code shape the model:

- **The "Less Than" choice.** The `ConditionType` union (`YupSchemaBuilder.tsx:29-37`)
  spells the test `lessThan`. But the condition picker stores the value `lesserThan`
  (`:140`), and no case of the generator's `switch` (`:341-376`) matches it. So the model's
  `Condition` has a ninth tag, `LesserThan`, for which the `.when` clause is written with no
  `is:` line at all.
- **A flat record.** A descriptor is kept as one flat record because the generator reads
  each key on its own: for example, `arrayOfObject` on a string field is kept but never
  read. The model does the same.

## Model

| member | source | states |
|---|---|---|
| Edits.AddField | src/components/YupSchemaBuilder.tsx:147-149 | the new sequence is one initial descriptor followed by all the old ones, unchanged and in order |
| Edits.AddObjectField | src/components/YupSchemaBuilder.tsx:151-159 | field `i` gains one unnamed, optional, string object field at the end of its object fields; no other field and no other key of field `i` changes |
| Edits.ApplyFieldUpdate | src/components/YupSchemaBuilder.tsx:164-187 | every key present in the update overwrites that key, and every absent key keeps its value; `required` and `nullable` become true only when the box reports exactly `true` (an indeterminate state gives false); object fields are never touched; a present conditional update is merged key by key into the existing rule |
| Edits.MergeConditional | src/components/YupSchemaBuilder.tsx:180-185 | the conditional rule after a shallow merge: each present key replaces the old one, and each absent key keeps its value |
| Edits.UpdateField | src/components/YupSchemaBuilder.tsx:161-189 | the sequence keeps its length; only position `index` changes, and it becomes the merged record |
| Edits.UpdateFieldIdempotent | src/components/YupSchemaBuilder.tsx:161-189 | applying the same partial update twice has the same effect as applying it once |
| Edits.EmptyUpdateChangesNothing | src/components/YupSchemaBuilder.tsx:161-189 | an update with no keys changes nothing; neither does an update whose only key is an empty conditional update |
| Edits.RequiredUpdateIsolated | src/components/YupSchemaBuilder.tsx:168 | ticking "Required" sets exactly that one flag of exactly that one field |
| Edits.MergeBranch | src/components/YupSchemaBuilder.tsx:197-200 | a branch after the spread: the update's required flag when it carries one, and the old flag otherwise |
| Edits.UpdateConditionalValidation | src/components/YupSchemaBuilder.tsx:191-202 | only the named branch (`then` or `otherwise`) of field `i`'s rule changes, and its required flag is merged from the update; the other branch, the other keys of the rule and every other field are unchanged |
| Edits.ApplyObjectFieldUpdate | src/components/YupSchemaBuilder.tsx:211-221 | each present key of an object-field update overwrites that key, and `required` becomes true only for a checked box |
| Edits.UpdateObjectField | src/components/YupSchemaBuilder.tsx:204-223 | only object field `j` of field `i` changes, and it becomes the merged object field; lengths are kept |
| Edits.Without | src/components/YupSchemaBuilder.tsx:226 | a filter by position: for a position inside the sequence, the elements before it followed by those after it; otherwise the sequence itself |
| Edits.RemoveField | src/components/YupSchemaBuilder.tsx:225-228 | an index inside the sequence drops exactly that field and keeps the rest in order, one shorter; any other index (negative or too large) removes nothing |
| Edits.RemoveUndoesAdd | src/components/YupSchemaBuilder.tsx:225-228 | removing position 0 right after `addField` restores the original sequence |
| Edits.SpliceStart | src/components/YupSchemaBuilder.tsx:232 | `splice`'s start position for a list of the given length, always within the list's bounds; the contract says only that, and RemoveObjectField's ensures spell out which position each `j` removes |
| Edits.RemoveObjectField | src/components/YupSchemaBuilder.tsx:230-234 | the `splice(j, 1)` effect on field `i`'s object fields: drops position `j`; for negative `j`, drops position length + `j`, or the first object field when that is still negative (nothing when there are none); removes nothing when `j` is past the end; nothing else changes |
| Edits.RemoveObjectFieldUndoesAdd | src/components/YupSchemaBuilder.tsx:230-234 | removing the object field just appended by `addObjectField`, named by its position or by -1, restores the original sequence |
| Generator.GetDependentFieldType | src/components/YupSchemaBuilder.tsx:237-240 | no kind exactly when no field has the given name; otherwise the kind of the first field with that name |
| Generator.IsNumericField | src/components/YupSchemaBuilder.tsx:243-245 | no ensures of its own: a predicate true only of the number kind; NumericLookup states what it yields through the lookup |
| Generator.ObjectFieldsSchema | src/components/YupSchemaBuilder.tsx:248-277 | the object-field text is empty exactly when there are no object fields, since every object field writes a line, named or not; ObjectFieldsInOrder and ObjectFieldLineShape state the lines and their order |
| Generator.GenerateSchema | src/components/YupSchemaBuilder.tsx:279-429 | the generated text always starts with the `import`/`Yup.object({` preamble and ends with the closing `});` and `export default` postamble; BuildSchema and the SchemaProperties lemmas state what lies between |
| Generator.EntriesAppend | src/components/YupSchemaBuilder.tsx:283-424 | the entries of a concatenation are the entries of the first part followed by those of the second |
| Generator.BuildSchema | src/components/YupSchemaBuilder.tsx:279-429 | the generator's loop writes the preamble, then the entries of the named fields in sequence order, then the postamble |
| JsonString.Quote | src/components/YupSchemaBuilder.tsx:346-353 | no ensures of its own: `JSON.stringify` on a string, a double quote, the escaped text and a double quote; UnquoteQuote states that the literal reads back as the original value |
| JsonString.UnescapeEscape | src/components/YupSchemaBuilder.tsx:346 | the escaped body of a JSON string literal reads back as exactly the original characters |
| JsonString.UnquoteQuote | src/components/YupSchemaBuilder.tsx:346 | the quoted comparison value, read as a JSON string literal, is exactly the value the user typed |
| SchemaProperties.EntryShape | src/components/YupSchemaBuilder.tsx:283-424 | a named field's entry starts with two spaces, its name and ": ", and ends with ",\n"; an unnamed field writes nothing |
| SchemaProperties.EntriesInOrder | src/components/YupSchemaBuilder.tsx:283-424 | each field's entry sits between the entries of the fields before it and those after it |
| SchemaProperties.NoEntriesWithoutNames | src/components/YupSchemaBuilder.tsx:284 | a sequence of unnamed fields writes no entries |
| SchemaProperties.UnnamedFieldsGiveDefaultSchema | src/components/YupSchemaBuilder.tsx:279-429 | with no named field, the output is exactly the placeholder schema of line 96 |
| SchemaProperties.LookupSkipsUnnamed | src/components/YupSchemaBuilder.tsx:238 | an unnamed field never answers a lookup of a non-empty dependency name |
| SchemaProperties.EntryReadsOnlyLookup | src/components/YupSchemaBuilder.tsx:336 | an entry reads the rest of the sequence only through the lookup of its own dependency |
| SchemaProperties.EntriesIgnoreUnnamed | src/components/YupSchemaBuilder.tsx:331-337 | inserting an unnamed field anywhere in the sequence changes no field's entry |
| SchemaProperties.UnnamedFieldContributesNothing | src/components/YupSchemaBuilder.tsx:284 | the generated text with an unnamed field anywhere equals the text without it |
| SchemaProperties.RequiredMessageAtEverySite | src/components/YupSchemaBuilder.tsx:379-397 | the three places that can write `.required("…")` (plain, `then`, `otherwise`) write the same message |
| SchemaProperties.PlainRequirement | src/components/YupSchemaBuilder.tsx:395-401 | without an active rule, the clause is `.required(msg)` when the flag is set and `.notRequired()` otherwise, and the rule's other settings are not read |
| SchemaProperties.ConditionalRequirement | src/components/YupSchemaBuilder.tsx:331-394 | with an active rule, the clause starts with `.when('<dependsOn>', {` and ends with the `then` and `otherwise` lines |
| SchemaProperties.ConditionalIgnoresRequired | src/components/YupSchemaBuilder.tsx:331-401 | with an active rule the field's own required flag does not affect its entry; that the conditional and plain requirements never both appear is the if/else of `RequirementClause` |
| SchemaProperties.RequirementCongruence | src/components/YupSchemaBuilder.tsx:331-401 | the required/conditional clause reads only the name, the custom message, the flag when no rule is active, and the active rule's dependency, test and branches |
| SchemaProperties.BaseCongruence | src/components/YupSchemaBuilder.tsx:289-324 | the base call reads the kind; for arrays also the element settings, the name and the count bounds; the object fields only for objects and arrays of objects |
| SchemaProperties.NumericLookup | src/components/YupSchemaBuilder.tsx:242-245 | the dependency counts as numeric exactly when the first field with that name exists and is a number field |
| SchemaProperties.WhenClauseShape | src/components/YupSchemaBuilder.tsx:336-394 | the `.when` clause's `is:` line is formatted for a numeric dependency exactly when the first field named by `dependsOn` is a number field |
| SchemaProperties.ComparisonLiteral | src/components/YupSchemaBuilder.tsx:341-376 | equality tests write the value bare against a numeric dependency and `JSON.stringify`-quoted otherwise; ordering tests always write it bare, so their `is:` line is the same whatever the dependency's kind |
| SchemaProperties.PresenceTests | src/components/YupSchemaBuilder.tsx:341-376 | the defined/undefined tests read neither the value nor the dependency's kind; the picker's `lesserThan` is the only condition that writes no `is:` line |
| SchemaProperties.PresenceTestIgnoresValue | src/components/YupSchemaBuilder.tsx:358-363 | with a presence test, changing the comparison value leaves the entry unchanged |
| SchemaProperties.LengthBoundsOnlyForStrings | src/components/YupSchemaBuilder.tsx:403-411 | length bounds do not affect the entry of a non-string field |
| SchemaProperties.ValueBoundsOnlyForNumbers | src/components/YupSchemaBuilder.tsx:413-421 | value bounds do not affect the entry of a non-number field |
| SchemaProperties.CountBoundsOnlyForArrays | src/components/YupSchemaBuilder.tsx:302-318 | count bounds do not affect the entry of a non-array field |
| SchemaProperties.BoundsFollowRequirement | src/components/YupSchemaBuilder.tsx:395-423 | the kind bounds come after the required/conditional clause and immediately before the entry's ",\n" |
| SchemaProperties.KindBoundsInOrder | src/components/YupSchemaBuilder.tsx:403-421 | a string entry ends with its `.min` then `.max` length bounds and ",\n", a number entry with its `.min` then `.max` value bounds and ",\n"; any other entry ends with its required/conditional clause and ",\n" |
| SchemaProperties.BoundVerbatim | src/components/YupSchemaBuilder.tsx:405-410 | a bound is written exactly when its text is non-empty, with the text inserted unchecked into the call; that the same text also goes into the message is stated by KindBoundsInOrder and ArrayCallShape |
| SchemaProperties.ArrayCallShape | src/components/YupSchemaBuilder.tsx:302-317 | an array call starts with its element schema (nested object lines or the element kind) and ends with its count bounds, `.min` before `.max`; arrays get no kind bounds |
| SchemaProperties.ObjectFieldsInOrder | src/components/YupSchemaBuilder.tsx:248-277 | the object-field lines of a concatenation are those of each part, in order |
| SchemaProperties.ScalarCallNamed | src/components/YupSchemaBuilder.tsx:253-266 | a scalar kind's call is `Yup.` followed by the kind's own name and `()` |
| SchemaProperties.ObjectFieldLineShape | src/components/YupSchemaBuilder.tsx:251-274 | each object field writes one line: its key, its kind's call, a bare `.required()` or `.notRequired()` (no message), and ",\n" |
| SchemaProperties.ObjectBody | src/components/YupSchemaBuilder.tsx:319-322 | an object field nests its object-field lines in `Yup.object({ … })`, and an array of objects with the same object fields and no count bounds wraps exactly that object call in `Yup.array().of( … )`, so both kinds share the nested routine |
| SchemaProperties.ObjectFieldsOnlyWhenNested | src/components/YupSchemaBuilder.tsx:302-322 | object fields affect the entry only of objects and arrays of objects |
| BuilderProperties.InitialStateGeneratesDefault | src/components/YupSchemaBuilder.tsx:113-131 | the initial one-field state generates exactly the placeholder schema |
| BuilderProperties.AddFieldKeepsSchema | src/components/YupSchemaBuilder.tsx:147-149 | adding a field leaves the generated text unchanged until the field is named |
| BuilderProperties.RemoveUnnamedKeepsSchema | src/components/YupSchemaBuilder.tsx:225-228 | removing an unnamed field leaves the generated text unchanged |
| BuilderProperties.ClearingNameHidesField | src/components/YupSchemaBuilder.tsx:284 | clearing a field's name generates the same text as removing that field |
| Scenarios.EmailScenario | src/components/YupSchemaBuilder.tsx:279-429 | naming the initial field "email", ticking "Required" and generating gives the preamble, `  email: Yup.string().required("email is required"),` and the postamble |
| Scenarios.DefaultMessageScenario | src/components/YupSchemaBuilder.tsx:396-397 | a required field "age" with no custom message gets `.required("age is required")` |
| Scenarios.LengthBoundsScenario | src/components/YupSchemaBuilder.tsx:404-411 | length bounds "3" and "10" on a string field give `.min(3, "Minimum length is 3")` then `.max(10, "Maximum length is 10")` |
| Scenarios.ArrayOfObjectsScenario | src/components/YupSchemaBuilder.tsx:303-306 | an array of objects with a required string `a` and an optional number `b` nests exactly those two lines |
| Scenarios.EqualsNumberScenario | src/components/YupSchemaBuilder.tsx:343-344 | "18" compared for equality with a number field is written `is: 18` |
| Scenarios.EqualsStringScenario | src/components/YupSchemaBuilder.tsx:345-346 | "18" compared for equality with a string field is written `is: "18"` |
| Scenarios.LesserThanScenario | src/components/YupSchemaBuilder.tsx:140 | the picker's "Less Than" choice writes no `is:` line |

## Left out

- Rendering, styling, toasts, the clipboard and the `console.log` of the schema are left out. They are user-interface or I/O effects, not builder logic.
- The user interface keeps at least one field by disabling the remove button (`:861`). It also hides the field itself from its own "depends on" list (`:664-673`). Neither rule is part of the operations, so RemoveField is modelled for any index.
- The `type?` keys of the `then` and `otherwise` branches are never read by the generator and never set by the form, so they are not modelled.
- The source mutates shallow copies: nested arrays and the conditional rule are shared between the old and new state. The model uses values instead. Sharing between the old and the new state is invisible to the generator and to every edit, because each edit replaces the state wholesale. Sharing between two fields is not always invisible. On the first render the state is seeded with a shallow copy of `initialField` (`:131`), and `addField` in that same render copies the same object again (`:148`). So if "Add Field" is the first click, the new field and the original field share one `objectFields` array. From then on, `addObjectField` (`:153`), `updateObjectField` (`:217`) and `removeObjectField` (`:232`) on either field change both. This shows in the form (`:573`) and, when both fields are objects or arrays of objects, in the generated text (`:305`, `:321`). The model gives every field its own object-field list, so Edits.AddObjectField changes only field `i`. The shared conditional rule cannot be observed in this way, because enabling a rule replaces that object (`:639-641`, `:181`).
- Edits.UpdateField requires an index inside the sequence, which every form control passes. For another index the source does one of three things. An update carrying `conditionalValidation` throws a TypeError at `:182`, reading `conditionalValidation` of `undefined`. Otherwise a negative index writes a non-element property (`:187`) that `forEach` and `map` never visit, so nothing visible changes. An index at or past the end stores a partial record (`{...undefined, ...typedUpdates}`, with an `'indeterminate'` flag already turned into `false`), which is not a descriptor.
- Edits.UpdateObjectField requires both indices in range. For a negative object-field index the source writes a non-element property (`:217-220`) that neither `forEach` (`:250`) nor `map` (`:573`) visits, so nothing visible changes. An object-field index at or past the end stores a partial object field. An outside field index throws a TypeError.
- Edits.AddObjectField, Edits.UpdateConditionalValidation and Edits.RemoveObjectField require the field index in range. For any other field index the source throws a TypeError when it reads `objectFields` or `conditionalValidation` of `undefined`.
- Names, messages, bounds, the dependency name, the ordering comparison values and the equality and inequality values written against a numeric dependency (`:344`, `:351`) are inserted into the output unescaped, as in the source. The model proves nothing about the generated text being valid JavaScript.
- JsonString.UnescapeEscape reads `\u` escapes of surrogate code units as invalid. Dafny characters are Unicode scalar values, so the quoting never produces them; JSON texts that spell a character as a surrogate pair are outside the model.
- `App.tsx`, `Footer.tsx` and `ThemeSelector.tsx` are not part of this model. They hold page layout and theme switching.
- `src/types/schema.ts` is not part of this model. It declares only the types `SchemaField` and `SchemaBuilderState`, which the component never uses.
