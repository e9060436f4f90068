/** Request vocabulary shared by the controllers: values that may be missing,
    JavaScript truthiness of form fields, and the three states of a JSON body field. */
module Http {

  /** A value that may be missing: an absent request field or a nullable column. */
  datatype Option<+T> = None | Some(value: T)

  /** Whether a form field passes a JavaScript truthiness test such as `if (!Digits)`:
      an absent field and the empty string are both falsy. */
  predicate Truthy(field: Option<string>)
  {
    field.Some? && field.value != ""
  }

  /** `field || fallback` on a form field. */
  function OrElse(field: Option<string>, fallback: string): string
  {
    if Truthy(field) then field.value else fallback
  }

  /** A field of a JSON request body: left out (`undefined`), explicitly `null`, or a string. */
  datatype Field = Absent | Null | Text(text: string)
}
