/** Shared vocabulary of the model: optional values, route outcomes, document ids. */
module Common {

  /** A value that may be absent (a missing JSON field, a `null` lookup result). */
  datatype Option<+T> = None | Some(value: T) {
    function GetOr(default: T): T {
      match this
      case Some(v) => v
      case None => default
    }
  }

  /** Why a route refused a request. Each route answers with exactly one of these or with success. */
  datatype Error =
    | Unauthorized        // no session, or the caller is not an admin (401/403)
    | ValidationError     // malformed or out-of-range input (400)
    | NotFound            // missing wallet, withdrawal, deposit, user or strategy (404)
    | Insufficient        // not enough funds (400)
    | AlreadyProcessed    // a state-machine guard refused a repeated action
    | Conflict            // a duplicate email at registration (409)
    | OpenPositions       // the account still holds funds or active investments (400)
    | ServiceFailure      // an exception inside the route (500)

  /** The answer of a route: success with a payload, or an error. */
  datatype Result<+T> = Ok(value: T) | Err(error: Error)

  /** Document identifiers (Mongo ObjectIds) are modelled as naturals drawn from a counter. */
  type Id = nat

  /** A JavaScript value used in a boolean position: `x || d` picks `d` when `x` is missing or "". */
  function OrDefault(x: Option<string>, d: string): (r: string)
    ensures x.Some? && x.value != "" ==> r == x.value
    ensures x.None? || x.value == "" ==> r == d
  {
    if x.Some? && x.value != "" then x.value else d
  }

  /** `!x` on an optional string: true when it is missing or empty. */
  predicate Blank(x: Option<string>) {
    x.None? || x.value == ""
  }
}
