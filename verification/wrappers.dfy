/** Shared result shapes of the client: optional values, replies of the
    remote store, and how an asynchronous handler ends. */
module Wrappers {

  /** A value that may be absent (`null`/`undefined` in the client). */
  datatype Option<+T> = None | Some(value: T) {
    function GetOr(default: T): T {
      match this
      case Some(v) => v
      case None => default
    }
  }

  /** The reply of one remote store call: the rows it returned, or the
      error object the call was rejected with. */
  datatype Result<+T> = Ok(value: T) | Err(message: string)

  /** How an asynchronous handler ends: its promise resolves, or it
      throws (rejects) with an error message. */
  datatype Completion = Resolved | Rejected(message: string)

  /** A handler's effect on a hook's local state together with how it ended. */
  datatype Step<S> = Step(state: S, completion: Completion)

  /** What the store assigns to an inserted row: its id and its creation time. */
  datatype Stamp = Stamp(id: string, createdAt: string)

  /** Truthiness of an optional string: present and non-empty. */
  predicate Truthy(s: Option<string>) {
    s.Some? && s.value != ""
  }

  /** `a || b` on optional strings: the first truthy one, else `b`'s value or "". */
  function OrElse(a: Option<string>, b: string): (r: string)
    ensures Truthy(a) ==> r == a.value
    ensures !Truthy(a) ==> r == b
  {
    if a.Some? && a.value != "" then a.value else b
  }

  /** `a || b` on optional numbers: 0 and absence are both falsy. */
  function NumberOr(a: Option<int>, b: int): (r: int)
    ensures a.Some? && a.value != 0 ==> r == a.value
    ensures a.None? || a.value == 0 ==> r == b
  {
    if a.Some? && a.value != 0 then a.value else b
  }
}
