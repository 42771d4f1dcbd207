/** The `Result` value of the utilities: a success flag with a value, or an error message,
    plus a details dictionary. Its accessors either return or raise `ValueError`. */
module Results {
  import opened PyValues
  import opened Exceptions

  /** `Result(value, error, success, details)`; the option type stands for Python's `None`. */
  datatype Result<T> = Result(value: Option<T>, error: Option<string>, success: bool, details: Value)
  {
    /** `r.is_ok()` */
    predicate IsOk() { success }

    /** `r.is_err()` */
    predicate IsErr()
      ensures IsErr() <==> !IsOk()
    {
      !success
    }

    /** `bool(r)` */
    predicate AsBool()
      ensures AsBool() <==> IsOk()
    {
      success
    }

    /** `f"{r.error}"`: the message, or `None` spelled out. */
    function ErrorText(): string
    {
      match error
      case None => "None"
      case Some(e) => e
    }

    /** `r.unwrap()` */
    function Unwrap(): (o: Outcome<Option<T>>)
      ensures o.Returned? <==> success
      ensures success ==> o.value == value
      ensures !success ==> o.exception == ValueError("Called unwrap on error Result: " + ErrorText())
    {
      if !success then Raised(ValueError("Called unwrap on error Result: " + ErrorText()))
      else Returned(value)
    }

    /** `r.unwrap_or(default)` */
    function UnwrapOr(default: Option<T>): (v: Option<T>)
      ensures success ==> v == value
      ensures !success ==> v == default
    {
      if success then value else default
    }

    /** `r.expect(message)` */
    function Expect(message: string): (o: Outcome<Option<T>>)
      ensures o.Returned? <==> success
      ensures success ==> o.value == value
      ensures !success ==> o.exception == ValueError(message + ": " + ErrorText())
    {
      if !success then Raised(ValueError(message + ": " + ErrorText()))
      else Returned(value)
    }
  }

  /** `Result(value, error, success, details)`: a missing or empty `details` becomes `{}`. */
  function NewResult<T>(value: Option<T>, error: Option<string>, success: bool, details: Value): (r: Result<T>)
    ensures r.value == value && r.error == error && r.success == success
    ensures r.details == if Truthy(details) then details else VDict([])
  {
    Result(value, error, success, OrEmptyDict(details))
  }

  /** `Result.ok(v)`: a success that hands `v` back through every accessor. */
  function Ok<T(!new)>(v: T): (r: Result<T>)
    ensures r.IsOk() && r.AsBool() && !r.IsErr()
    ensures r.value == Some(v) && r.error == None && r.details == VDict([])
    ensures r.Unwrap() == Returned(Some(v))
    ensures forall message :: r.Expect(message) == Returned(Some(v))
    ensures forall default :: r.UnwrapOr(default) == Some(v)
  {
    NewResult(Some(v), None, true, VNone)
  }

  /** `Result.fail(e, details)`: a failure carrying `e`, on which `unwrap` and `expect` raise. */
  function Fail<T(!new)>(e: string, details: Value): (r: Result<T>)
    ensures !r.IsOk() && !r.AsBool() && r.IsErr()
    ensures r.value == None && r.error == Some(e)
    ensures r.Unwrap() == Raised(ValueError("Called unwrap on error Result: " + e))
    ensures forall message :: r.Expect(message) == Raised(ValueError(message + ": " + e))
    ensures forall default :: r.UnwrapOr(default) == default
  {
    NewResult(None, Some(e), false, details)
  }

  /** `repr(r)` for a result over the value domain. */
  function ResultRepr(r: Result<Value>): (s: string)
    ensures r.success ==> s == "Result.ok(" + (if r.value.Some? then Str(r.value.value) else "None") + ")"
    ensures !r.success ==> s == "Result.fail(" + r.ErrorText() + ")"
  {
    if r.success then "Result.ok(" + (match r.value case Some(v) => Str(v) case None => "None") + ")"
    else "Result.fail(" + r.ErrorText() + ")"
  }
}
