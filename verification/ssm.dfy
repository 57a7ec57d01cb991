/** The part of the parameter-store SDK that the puller looks at: the
    `Parameter` records and the response of a `GetParameters` call. The network
    call itself is not modelled; its outcome is an input of type `SendResult`. */
module Ssm {
  import opened Optional

  /** A parameter as the SDK returns it. Both fields are optional in the SDK's
      type even though a resolved parameter always carries them. */
  datatype Parameter = Parameter(name: Option<string>, value: Option<string>)

  /** The response of one `GetParameters` call: the resolved parameters, in the
      order the store returned them, and the requested names it could not resolve. */
  datatype GetParametersOutput = GetParametersOutput(
    parameters: Option<seq<Parameter>>,
    invalidParameters: Option<seq<string>>)

  /** What sending the request produced: a response, or an SDK error of which
      only its debug rendering is kept. */
  datatype SendResult =
    | Responded(output: GetParametersOutput)
    | SdkFailure(debug: string)
}
