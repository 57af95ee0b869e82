/** The field descriptors the schema builder edits: a top-level `Field`, the scalar
    `ObjectField` used inside object and array-of-object shapes, the conditional-requirement
    rule a `Field` carries, the initial values the builder starts from, and the partial updates
    its edit operations merge in. */
module Fields {
  import opened Options

  /** The kind of a top-level field. */
  datatype FieldType = String | Number | Boolean | Date | Array | Object {

    /** The identifier written in `Yup.<name>()` for this kind. */
    function Name(): string {
      match this
      case String => "string"
      case Number => "number"
      case Boolean => "boolean"
      case Date => "date"
      case Array => "array"
      case Object => "object"
    }
  }

  /** The kinds an object field may have: no further nesting. */
  type ScalarType = t: FieldType | !t.Array? && !t.Object? witness FieldType.String

  /** The element kinds of an array field. */
  type ElementType = t: FieldType | !t.Array? witness FieldType.String

  /** The comparison a conditional rule applies to the field it depends on.  The first
      eight are the declared condition type; `LesserThan` is the tag the condition picker
      actually stores for its "Less Than" entry, which no generator case handles. */
  datatype Condition =
    | Equals
    | NotEquals
    | Defined
    | Undefined
    | GreaterThan
    | LessThan
    | GreaterThanOrEqual
    | LessThanOrEqual
    | LesserThan

  /** The requirement policy of one branch (`then` or `otherwise`) of a conditional rule. */
  datatype Branch = Branch(required: bool)

  datatype ConditionalValidation = ConditionalValidation(
    enabled: bool,
    dependsOn: string,          // a name looked up among the top-level fields when used
    condition: Condition,
    value: string,
    thenBranch: Branch,
    otherwiseBranch: Branch
  )

  datatype ObjectField = ObjectField(name: string, fieldType: ScalarType, required: bool)

  datatype Field = Field(
    name: string,
    fieldType: FieldType,
    required: bool,
    nullable: bool,
    minLength: string,
    maxLength: string,
    min: string,
    max: string,
    customMessage: string,
    arrayType: ElementType,
    arrayOfObject: bool,
    objectFields: seq<ObjectField>,
    arrayMin: string,
    arrayMax: string,
    conditional: ConditionalValidation
  )

  const InitialConditional: ConditionalValidation :=
    ConditionalValidation(false, "", Equals, "", Branch(true), Branch(false))

  const InitialField: Field :=
    Field("", String, false, false, "", "", "", "", "", String, false, [], "", "", InitialConditional)

  /** The entry `addObjectField` appends. */
  const InitialObjectField: ObjectField := ObjectField("", String, false)

  /** The state a checkbox reports: checked, unchecked, or indeterminate. */
  datatype CheckedState = Checked(on: bool) | Indeterminate {

    /** Only a box reported as checked counts as `true`. */
    predicate IsTrue() {
      this == Checked(true)
    }
  }

  /** A partial update of a top-level field: `None` marks a key the caller left out. */
  datatype FieldUpdate = FieldUpdate(
    name: Option<string>,
    fieldType: Option<FieldType>,
    required: Option<CheckedState>,
    nullable: Option<CheckedState>,
    arrayType: Option<ElementType>,
    arrayOfObject: Option<bool>,
    arrayMin: Option<string>,
    arrayMax: Option<string>,
    minLength: Option<string>,
    maxLength: Option<string>,
    min: Option<string>,
    max: Option<string>,
    customMessage: Option<string>,
    conditional: Option<ConditionalUpdate>
  )

  /** A partial update of a conditional rule; a present branch replaces the whole branch. */
  datatype ConditionalUpdate = ConditionalUpdate(
    enabled: Option<bool>,
    dependsOn: Option<string>,
    condition: Option<Condition>,
    value: Option<string>,
    thenBranch: Option<Branch>,
    otherwiseBranch: Option<Branch>
  )

  /** A partial update of one branch of a conditional rule. */
  datatype BranchUpdate = BranchUpdate(required: Option<bool>)

  /** A partial update of an object field. */
  datatype ObjectFieldUpdate = ObjectFieldUpdate(
    name: Option<string>,
    fieldType: Option<ScalarType>,
    required: Option<CheckedState>
  )

  const NoFieldUpdate: FieldUpdate :=
    FieldUpdate(None, None, None, None, None, None, None, None, None, None, None, None, None, None)

  const NoConditionalUpdate: ConditionalUpdate :=
    ConditionalUpdate(None, None, None, None, None, None)

  /** Which branch of a conditional rule `updateConditionalValidation` edits. */
  datatype Part = Then | Otherwise
}
