/** Shapes shared by the three Redux slices: JavaScript's nullable values,
    the request status every slice keeps, and the `rejected` action of an
    async thunk. */
module Common {

  /** A JavaScript value of type `null | undefined | T`. */
  datatype Nullish<T> = Null | Undefined | Val(value: T)

  /** A value that may be absent (`T | undefined` in an optional field). */
  datatype Option<T> = None | Some(value: T)

  /** JavaScript truthiness of a `string | null | undefined`: only a
      non-empty string is truthy. */
  predicate Truthy(s: Nullish<string>) {
    s.Val? && s.value != ""
  }

  /** `a[i]` on a JavaScript array of strings: an index outside the array
      reads `undefined` instead of failing. */
  function ElementAt(a: seq<string>, i: int): (r: Nullish<string>)
    ensures 0 <= i < |a| ==> r == Val(a[i])
    ensures !(0 <= i < |a|) ==> r == Undefined
  {
    if 0 <= i < |a| then Val(a[i]) else Undefined
  }

  /** The `status` field of the files and users slices. */
  datatype Status = Idle | Loading | Rejected | Received

  /** The body the server sends with a structured error. */
  datatype ValidationErrors = ValidationErrors(message: string, fieldErrors: map<string, string>)

  /** What a thunk's `rejected` action carries: `payload` is the server's
      error body when the thunk called `rejectWithValue`, and absent when the
      thunk threw; `errorMessage` is `action.error.message`, the serialized
      message of what was thrown (possibly absent). */
  datatype Rejection = Rejection(payload: Option<ValidationErrors>, errorMessage: Option<string>)

  /** The value every `rejected` case stores in `error`: the payload's
      message when there is a payload, otherwise `action.error.message`
      (`undefined` when that is absent too). */
  function ErrorFrom(r: Rejection): (e: Nullish<string>)
    ensures r.payload.Some? ==> e == Val(r.payload.value.message)
    ensures r.payload.None? && r.errorMessage.Some? ==> e == Val(r.errorMessage.value)
    ensures r.payload.None? && r.errorMessage.None? ==> e == Undefined
    ensures !e.Null?
  {
    match r.payload
    case Some(body) => Val(body.message)
    case None => if r.errorMessage.Some? then Val(r.errorMessage.value) else Undefined
  }
}
