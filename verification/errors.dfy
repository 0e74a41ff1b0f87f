/** The exceptions the change-tracking core raises, and the wrappers that carry
    them: `Option`, `Result` (a value or an exception) and `Outcome` (nothing
    or an exception). */
module Errors {

  /** Python exceptions, by class. `ValidationError` is the library's own
      error class (mongotron/exceptions.py); `External` stands for anything a
      user hook or the store driver raises. */
  datatype Error =
    | TypeError
    | ValueError
    | KeyError
    | IndexError
    | AttributeError
    | AssertionError
    | UnboundLocalError
    | UnicodeEncodeError
    | ValidationError(missing: set<string>)
    | External(code: nat)

  datatype Option<+T> = None | Some(value: T)

  /** A value, or the exception raised while computing it. */
  datatype Result<+T> = Ok(value: T) | Err(error: Error) {
    predicate IsFailure() { Err? }

    function PropagateFailure<U>(): Result<U>
      requires Err?
    {
      Err(error)
    }

    function Extract(): T
      requires Ok?
    {
      value
    }
  }

  /** Normal completion, or the exception raised. */
  datatype Outcome = Pass | Fail(error: Error)

  /** The first failure in `os`, or `Pass` when there is none: the outcome of
      checking the items one after another and stopping at the first raise. */
  function FirstFailure(os: seq<Outcome>): (r: Outcome)
    ensures r.Pass? <==> forall i :: 0 <= i < |os| ==> os[i].Pass?
    ensures r.Fail? ==> exists i :: 0 <= i < |os| && os[i] == r && forall j :: 0 <= j < i ==> os[j].Pass?
  {
    if os == [] then Pass
    else if os[0].Fail? then os[0]
    else FirstFailure(os[1..])
  }

  /** All the values of `rs`, or the first exception among them: the outcome
      of evaluating a Python list comprehension or `map` left to right. */
  function Collect<T>(rs: seq<Result<T>>): (r: Result<seq<T>>)
    ensures r.Ok? <==> forall i :: 0 <= i < |rs| ==> rs[i].Ok?
    ensures r.Ok? ==> |r.value| == |rs| && forall i :: 0 <= i < |rs| ==> rs[i] == Ok(r.value[i])
    ensures r.Err? ==> exists i :: 0 <= i < |rs| && rs[i] == Err(r.error) && forall j :: 0 <= j < i ==> rs[j].Ok?
  {
    if rs == [] then Ok([])
    else if rs[0].Err? then Err(rs[0].error)
    else
      match Collect(rs[1..])
      case Err(e) => Err(e)
      case Ok(vs) => Ok([rs[0].value] + vs)
  }
}
