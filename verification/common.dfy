/** Values shared by every page of the clinic front-end: optional values, the
    outcome of an awaited network call, and JavaScript truthiness of the
    strings the pages test with `if (x)`, and the submit status the two
    auth forms share. */
module Common {

  /** A value that may be missing (`null` or `undefined` in the source). */
  datatype Option<+T> = None | Some(value: T)

  /** What an awaited network call delivered: a response body, or a thrown
      error carrying its `message` (possibly empty). */
  datatype Reply<+T> = Ok(body: T) | Err(message: string)

  /** JavaScript truthiness of a string: only the empty string is falsy. */
  predicate Truthy(s: string)
  {
    s != ""
  }

  /** JavaScript truthiness of an optional string: `undefined` and `""` are falsy. */
  predicate Present(o: Option<string>)
  {
    o.Some? && Truthy(o.value)
  }

  /** True when `prefix` is an initial segment of `s`. */
  predicate StartsWith(s: string, prefix: string)
  {
    |prefix| <= |s| && s[..|prefix|] == prefix
  }

  /** The sign-in page, where the guard and a completed sign-up send the browser. */
  const LoginPath := "/login"

  /** What the sign-in and sign-up forms keep around their submit button:
      the spinner flag and the error banner. */
  datatype FormStatus = FormStatus(loading: bool, error: Option<string>)

  /** Start of a form's `onSubmit`: the spinner shows and the banner clears,
      whatever the form showed before. */
  function BeginSubmit(p: FormStatus): (r: FormStatus)
    ensures r.loading && r.error.None?
  {
    FormStatus(true, None)
  }
}
