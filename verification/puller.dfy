/** Fetching parameters: one `GetParameters` call with decryption, followed by
    the all-or-nothing validation of its response. */
module Puller {
  import opened Ssm
  import opened Errors

  /** The store reported at least one requested name it could not resolve. */
  predicate HasInvalid(output: GetParametersOutput) {
    output.invalidParameters.Some? && |output.invalidParameters.value| > 0
  }

  /** A response the puller can handle without panicking: whenever it would
      hand back the parameter list, the list is present. */
  predicate Usable(sent: SendResult) {
    sent.Responded? && !HasInvalid(sent.output) ==> sent.output.parameters.Some?
  }

  /** Validation of a response: any invalid name fails the whole request with
      the first such name; otherwise the resolved list is returned as is. */
  function Validate(output: GetParametersOutput): (r: Result<seq<Parameter>>)
    requires !HasInvalid(output) ==> output.parameters.Some?
    ensures r.Ok? <==> !HasInvalid(output)
    ensures r.Ok? ==> r.value == output.parameters.value
    ensures r.Err? ==>
      r.error.InvalidParameter? && r.error.name == output.invalidParameters.value[0]
  {
    if output.invalidParameters.Some? && output.invalidParameters.value != [] then
      Err(InvalidParameter(output.invalidParameters.value[0]))
    else
      Ok(output.parameters.value)
  }

  /** The whole fetch: an SDK failure becomes a `Dependency` error, a response
      goes through `Validate`. */
  function GetParameters(sent: SendResult): (r: Result<seq<Parameter>>)
    requires Usable(sent)
    // Parameters come back exactly when the call succeeded and no name was invalid.
    ensures r.Ok? <==> sent.Responded? && !HasInvalid(sent.output)
    // They come back unchanged, in the order the store returned them.
    ensures r.Ok? ==> r.value == sent.output.parameters.value
    ensures sent.SdkFailure? ==> r == Err(FromSdkError(sent.debug))
    // A response naming any invalid parameter fails with the first name it lists.
    ensures sent.Responded? && HasInvalid(sent.output) ==>
      r == Err(InvalidParameter(sent.output.invalidParameters.value[0]))
    // An invalid name is reported only when the store named it, and it is the first one named.
    ensures r.Err? && r.error.InvalidParameter? ==>
      sent.Responded? && HasInvalid(sent.output) && r.error.name == sent.output.invalidParameters.value[0]
    ensures r.Err? ==> !r.error.IO?
  {
    match sent
    case SdkFailure(debug) => Err(FromSdkError(debug))
    case Responded(output) => Validate(output)
  }
}
