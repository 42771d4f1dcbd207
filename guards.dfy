/** The `Validator` guards: each returns its argument (stripped, for `not_empty`) when the
    condition holds and otherwise raises a `ValidationError` naming the field and the value. */
module Guards {
  import opened Text
  import opened PyValues
  import opened Exceptions

  /** `ValidationError(message, field=field, value=value, details=details)`, raised. */
  function Rejection(message: string, field: string, value: Value, details: Value): (x: PyException)
    ensures x.ThalosException? && x.error.kind == Validation && WellFormed(x.error)
    ensures x.error.message == message
    ensures x.error.info == FieldInfo(VStr(field), VStr(message), value)
    ensures x.error.details == OrEmptyDict(details)
  {
    var kwargs := map["field" := VStr(field), "value" := value, "details" := details];
    ThalosException(NewValidation([VStr(message)], kwargs).value)
  }

  /** A guard's failure is always a well-formed `ValidationError` whose serialised form names the field. */
  lemma RejectionNamesField(message: string, field: string, value: Value, details: Value)
    ensures var e := Rejection(message, field, value, details).error;
      && IsA(e.kind, ErrorKind.Thalos)
      && Get(ToDict(e), "field") == Some(VStr(field))
      && Get(ToDict(e), "message") == Some(VStr(message))
      && Get(ToDict(e), "type") == Some(VStr("ValidationError"))
  {
    var e := Rejection(message, field, value, details).error;
    EveryErrorIsThalos(Validation);
    ToDictCommonKeys(e);
    ToDictSubclassKeys(e);
    ValidationClassName();
  }

  /** `Validator.not_empty(value, field)` */
  function NotEmpty(value: string, field: string): (r: Outcome<string>)
    ensures r.Returned? <==> exists i :: 0 <= i < |value| && !IsSpace(value[i])
    ensures r.Returned? ==> r.value == Strip(value) && r.value != []
    ensures r.Returned? ==> !IsSpace(r.value[0]) && !IsSpace(r.value[|r.value| - 1])
    ensures r.Raised? ==> r.exception == Rejection(field + " cannot be empty", field, VStr(value), VNone)
  {
    if value == [] || Strip(value) == [] then Raised(Rejection(field + " cannot be empty", field, VStr(value), VNone))
    else Returned(Strip(value))
  }

  /** What `not_empty` returns passes `not_empty` again, unchanged. */
  lemma NotEmptyIdempotent(value: string, field: string)
    requires NotEmpty(value, field).Returned?
    ensures NotEmpty(NotEmpty(value, field).value, field) == NotEmpty(value, field)
  {
    var s := Strip(value);
    assert LStrip(s) == s;
    assert RStrip(s) == s;
  }

  /** `Validator.min_length(value, min_len, field)` */
  function MinLength(value: string, minLen: int, field: string): (r: Outcome<string>)
    ensures r.Returned? <==> |value| >= minLen
    ensures r.Returned? ==> r.value == value
    ensures r.Raised? ==>
      r.exception == Rejection(field + " must be at least " + IntToString(minLen) + " characters", field, VStr(value),
                VDict([Entry("min_length", VInt(minLen)), Entry("actual_length", VInt(|value|))]))
  {
    if |value| < minLen then
      Raised(Rejection(field + " must be at least " + IntToString(minLen) + " characters", field, VStr(value),
                       VDict([Entry("min_length", VInt(minLen)), Entry("actual_length", VInt(|value|))])))
    else Returned(value)
  }

  /** `Validator.max_length(value, max_len, field)` */
  function MaxLength(value: string, maxLen: int, field: string): (r: Outcome<string>)
    ensures r.Returned? <==> |value| <= maxLen
    ensures r.Returned? ==> r.value == value
    ensures r.Raised? ==>
      r.exception == Rejection(field + " must be at most " + IntToString(maxLen) + " characters", field, VStr(value),
                VDict([Entry("max_length", VInt(maxLen)), Entry("actual_length", VInt(|value|))]))
  {
    if |value| > maxLen then
      Raised(Rejection(field + " must be at most " + IntToString(maxLen) + " characters", field, VStr(value),
                       VDict([Entry("max_length", VInt(maxLen)), Entry("actual_length", VInt(|value|))])))
    else Returned(value)
  }

  /** The two length guards together accept exactly the lengths in `[lo, hi]`. */
  lemma LengthWindow(value: string, lo: int, hi: int, field: string)
    ensures MinLength(value, lo, field).Returned? && MaxLength(value, hi, field).Returned? <==> lo <= |value| <= hi
    ensures lo > hi ==> MinLength(value, lo, field).Raised? || MaxLength(value, hi, field).Raised?
  {
  }

  /** `str.isalpha()`: non-empty and every character a letter. */
  predicate IsAlphaString(s: string)
  {
    s != [] && forall i :: 0 <= i < |s| ==> IsLetter(s[i])
  }

  /** `str.isalnum()`: non-empty and every character a letter or a digit. */
  predicate IsAlnumString(s: string)
  {
    s != [] && forall i :: 0 <= i < |s| ==> IsAlnum(s[i])
  }

  /** `Validator.is_alpha(value, field)` */
  function IsAlpha(value: string, field: string): (r: Outcome<string>)
    ensures r.Returned? <==> value != [] && forall i :: 0 <= i < |value| ==> IsLetter(value[i])
    ensures r.Returned? ==> r.value == value
    ensures r.Raised? ==> r.exception == Rejection(field + " must contain only letters", field, VStr(value), VNone)
  {
    if !IsAlphaString(value) then Raised(Rejection(field + " must contain only letters", field, VStr(value), VNone))
    else Returned(value)
  }

  /** `Validator.is_alphanumeric(value, field)` */
  function IsAlphanumeric(value: string, field: string): (r: Outcome<string>)
    ensures r.Returned? <==> value != [] && forall i :: 0 <= i < |value| ==> IsAlnum(value[i])
    ensures r.Returned? ==> r.value == value
    ensures r.Raised? ==> r.exception == Rejection(field + " must contain only letters and numbers", field, VStr(value), VNone)
  {
    if !IsAlnumString(value) then Raised(Rejection(field + " must contain only letters and numbers", field, VStr(value), VNone))
    else Returned(value)
  }

  /** Whatever passes `is_alpha` passes `is_alphanumeric`, and a digit anywhere fails `is_alpha`. */
  lemma AlphaWithinAlphanumeric(value: string, field: string)
    ensures IsAlpha(value, field).Returned? ==> IsAlphanumeric(value, field).Returned?
    ensures (exists i :: 0 <= i < |value| && IsDigit(value[i])) ==> IsAlpha(value, field).Raised?
  {
  }

  /** `Validator.in_range(value, min_val, max_val, field)` over integers. */
  function InRange(value: int, lo: int, hi: int, field: string): (r: Outcome<int>)
    ensures r.Returned? <==> lo <= value <= hi
    ensures r.Returned? ==> r.value == value
    ensures r.Raised? ==>
      r.exception == Rejection(field + " must be between " + IntToString(lo) + " and " + IntToString(hi), field, VInt(value),
                VDict([Entry("min", VInt(lo)), Entry("max", VInt(hi))]))
  {
    if !(lo <= value <= hi) then
      Raised(Rejection(field + " must be between " + IntToString(lo) + " and " + IntToString(hi), field, VInt(value),
                       VDict([Entry("min", VInt(lo)), Entry("max", VInt(hi))])))
    else Returned(value)
  }

  /** `Validator.is_positive(value, field)` over integers. */
  function IsPositive(value: int, field: string): (r: Outcome<int>)
    ensures r.Returned? <==> value > 0
    ensures r.Returned? ==> r.value == value
    ensures r.Raised? ==> r.exception == Rejection(field + " must be positive", field, VInt(value), VNone)
  {
    if value <= 0 then Raised(Rejection(field + " must be positive", field, VInt(value), VNone))
    else Returned(value)
  }

  /** `is_positive` is `in_range` with no upper bound: it agrees with `in_range(v, 1, hi)` for every `hi >= v`. */
  lemma PositiveIsRangeFromOne(value: int, hi: int, field: string)
    requires value <= hi
    ensures IsPositive(value, field).Returned? <==> InRange(value, 1, hi, field).Returned?
  {
  }

  /** `value in allowed`: Python compares each element of the list with the value. */
  predicate InList(value: Value, allowed: seq<Value>)
  {
    exists i :: 0 <= i < |allowed| && PyEq(allowed[i], value)
  }

  /** `Validator.one_of(value, allowed, field)` */
  function OneOf(value: Value, allowed: seq<Value>, field: string): (r: Outcome<Value>)
    ensures r.Returned? <==> exists i :: 0 <= i < |allowed| && PyEq(allowed[i], value)
    ensures r.Returned? ==> r.value == value
    ensures r.Raised? ==>
      r.exception == Rejection(field + " must be one of " + Repr(VList(allowed)), field, value,
                VDict([Entry("allowed", VList(allowed))]))
  {
    if !InList(value, allowed) then
      Raised(Rejection(field + " must be one of " + Repr(VList(allowed)), field, value,
                       VDict([Entry("allowed", VList(allowed))])))
    else Returned(value)
  }

  /** Nothing is one of an empty list; `True` is one of `[1]` because `1 == True`. */
  lemma OneOfExamples(field: string)
    ensures forall v :: OneOf(v, [], field).Raised?
    ensures OneOf(VBool(true), [VInt(1)], field) == Returned(VBool(true))
    ensures OneOf(VStr("b"), [VStr("a"), VStr("b")], field).Returned?
  {
    assert PyEq(VStr("b"), VStr("b"));
  }
}
