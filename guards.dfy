/** The argument checks of Light.GuardClauses that the core calls, and the
    exceptions the core can throw. */
module Guards {
  import opened Wrappers
  import opened Text

  datatype Error =
    /** `ArgumentNullException` for the named parameter. */
    | ArgumentNull(parameterName: string)
    /** `ArgumentException` (empty or white-space string) for the named parameter. */
    | ArgumentBlank(parameterName: string)
    /** The configuration binder could not convert a directive's text to its type. */
    | InvalidDirective(key: string, value: string)

  /** `MustNotBeNull`: `null` throws, anything else passes through. */
  function MustNotBeNull<T>(parameter: Option<T>, parameterName: string): (r: Result<T, Error>)
    ensures parameter.None? <==> r == Failure(ArgumentNull(parameterName))
    ensures parameter.Some? ==> r == Success(parameter.value)
  {
    match parameter
    case None => Failure(ArgumentNull(parameterName))
    case Some(v) => Success(v)
  }

  /** `MustNotBeNullOrWhiteSpace`: `null` throws `ArgumentNullException`; an
      empty or white-space string throws `ArgumentException`. */
  function MustNotBeNullOrWhiteSpace(parameter: Option<string>, parameterName: string): (r: Result<string, Error>)
    ensures r.Success? <==> parameter.Some? && !IsBlank(parameter.value)
    ensures r.Success? ==> r.value == parameter.value
    ensures r.Failure? ==> r.error == (if parameter.None? then ArgumentNull(parameterName) else ArgumentBlank(parameterName))
  {
    match parameter
    case None => Failure(ArgumentNull(parameterName))
    case Some(s) => if IsBlank(s) then Failure(ArgumentBlank(parameterName)) else Success(s)
  }
}
