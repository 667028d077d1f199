/**
 * The pieces of the CMS's validation vocabulary the two schemas use: a
 * document field is either absent or holds a value, and each declared rule
 * that a value breaks yields a marker naming the field's path and the rule.
 */
module Sanity {
  import opened JsValues
  import Email

  /** A reference to another document, with the type of the document it points at. */
  datatype Reference = Reference(targetType: string, id: string)

  /** An image value: its uploaded asset and the optional `alt` sub-field. */
  datatype Image = Image(asset: string, alt: Option<string>)

  /** A slug value; `current` is the slug text. */
  datatype Slug = Slug(current: string)

  /** The rules a schema field can declare. */
  datatype RuleKind =
    | Required       // Rule.required()
    | EmailPattern   // Rule.regex(/^[^\s@]+@[^\s@]+\.[^\s@]+$/)
    | InList         // the value must be one of `options.list`
    | ReferenceTo    // the referenced document must have one of the `to` types

  /** A validation marker: the offending field (of a schema's field type `F`) and the rule it breaks. */
  datatype Marker<F> = Marker(field: F, rule: RuleKind)

  /**
   * `Rule.required()` on each of `fields`: a field reports a marker exactly
   * when it holds no value (`present` says which fields hold one).
   */
  function RequiredMarkers<F(==,!new)>(fields: set<F>, present: F -> bool): (ms: set<Marker<F>>)
    ensures forall f :: Marker(f, Required) in ms <==> f in fields && !present(f)
    ensures forall m :: m in ms ==> m.rule == Required && m.field in fields
  {
    set f | f in fields && !present(f) :: Marker(f, Required)
  }

  /**
   * `Rule.regex(email)` on the string field `field`. The CMS skips every rule
   * of an empty optional field, but runs all rules of a required one; the
   * pattern is matched against `value || ""`, so an empty required field is
   * reported by this rule too.
   */
  function EmailRule<F(==)>(field: F, required: bool, v: Option<string>): (ms: set<Marker<F>>)
    ensures v.None? ==> (ms == {} <==> !required)
    ensures v.Some? ==> (ms == {} <==> Email.MatchesEmailPattern(v.value))
    ensures forall m :: m in ms ==> m == Marker(field, EmailPattern)
  {
    if v.None? && !required then {}
    else
      var subject := if v.Some? then v.value else "";
      Email.EmptyIsNoEmail();
      if Email.MatchesEmailPattern(subject) then {} else {Marker(field, EmailPattern)}
  }
}
