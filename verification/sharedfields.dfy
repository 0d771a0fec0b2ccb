/**
 * Fields that several schemas spell out the same way: the optional
 * description of tasks and expenses, and the required date of expenses,
 * reflections and workouts.
 */
module SharedFields {
  import opened Wrappers
  import opened JsText
  import opened Zod

  const DescriptionBounds: Bounds :=
    Bounds(0, Some(2000), None, Some("Description must be less than 2000 characters"))
  const DateBounds: Bounds := Bounds(1, None, Some("Date is required"), None)

  /** Absent, null, or text of at most 2000 code units once trimmed. */
  predicate DescriptionOk(x: Value) { Nullish(x) || TrimmedIn(x, 0, 2000) }

  /** The `description` field, trimmed, nullable and optional. */
  function DescriptionField(v: Value): (r: Parsed<Field<string>>)
    requires v.Obj?
    ensures r.Success? <==> DescriptionOk(Get(v, "description"))
    ensures r.Success? ==> (Get(v, "description").Undefined? <==> r.value.Omitted?)
    ensures r.Success? ==> (Get(v, "description").Null? <==> r.value.NullValue?)
    ensures r.Success? && r.value.Given? ==>
              Get(v, "description").Str? && r.value.value == Trim(Get(v, "description").s)
    ensures Reported(r)
  {
    OptionalNullable(Get(v, "description"),
      TrimmedText(Get(v, "description"), [Key("description")], DescriptionBounds))
  }

  /** A required date under `key`: any non-empty string, kept as written. */
  function DateField(v: Value, key: string): (r: Parsed<string>)
    requires v.Obj?
    ensures r.Success? <==> NonEmptyText(Get(v, key))
    ensures r.Success? ==> r.value == Get(v, key).s
    ensures Reported(r)
  {
    PlainText(Get(v, key), [Key(key)], DateBounds)
  }
}
