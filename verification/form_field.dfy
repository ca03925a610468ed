/** A form field (services/Utils.kt): a value checked against a rule once, at
    construction. Only the verdict is kept; the value and the rule are plain
    constructor parameters and are not stored. */
module FormFields {

  /** What a field carries after construction: its verdict, nothing else.
      Being a datatype value, it cannot change once built. */
  datatype FormField = FormField(isValid: bool)

  /** `FormField(value, rule)`: the rule is applied to the value exactly once. */
  function Of<T>(value: T, rule: T -> bool): (f: FormField)
    ensures f.isValid == rule(value)
  {
    FormField(rule(value))
  }

  /** The field adds no check of its own and remembers nothing but the verdict:
      two fields are indistinguishable through `isValid` (their only member)
      exactly when their rules gave the same answer, whatever the values, the
      rules or even their types. */
  lemma OnlyTheVerdictIsKept<T, U>(v: T, rule: T -> bool, w: U, other: U -> bool)
    ensures Of(v, rule) == Of(w, other) <==> rule(v) == other(w)
  {
  }
}
