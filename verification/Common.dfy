/** Small shared datatypes: absent values and the HTTP-style refusals the services throw. */
module Common {

  datatype Option<+T> = None | Some(value: T)

  /** The exception classes the services throw; a refusal never carries a value. */
  datatype Error =
    | NotFound
    | BadRequest
    | Conflict
    | Forbidden
    | NoBudgetLine
    | InsufficientBudget

  datatype Outcome<+T> = Ok(value: T) | Fail(error: Error)

  type User = nat

  /** A contact named in a request, and what looking it up gave: missing, or present and active or not. */
  datatype Named = Named(id: nat, fullName: string, active: Option<bool>) {
    predicate Assignable() {
      active == Some(true)
    }
  }

  /** What an update asks of a row's contact: nothing, null, or a contact. */
  datatype ContactChange = Keep | Disconnect | Connect(contact: Named)

  /** What \s matches and trim removes: the white space and line terminators of sections 12.2 and 12.3 of ECMA-262. */
  predicate IsSpace(c: char) {
    || '\U{0009}' <= c <= '\U{000D}' || c == ' ' || c == '\U{00A0}' || c == '\U{1680}'
    || '\U{2000}' <= c <= '\U{200A}' || c == '\U{2028}' || c == '\U{2029}' || c == '\U{202F}'
    || c == '\U{205F}' || c == '\U{3000}' || c == '\U{FEFF}'
  }
}
