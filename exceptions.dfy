/** The error taxonomy of the core: one class hierarchy rooted at `ThalosError`, the
    messages its constructors build, the `[CODE_ERROR]` formatting derived from the class
    name, and the dictionary form used for serialisation. */
module Exceptions {
  import opened Text
  import opened PyValues

  /** One constructor per exception class. */
  datatype ErrorKind =
    | Thalos | CIS | Boot | Shutdown | Subsystem | CISNotBooted
    | KeyNotFound | KeyExists | Validation | State | Configuration | Memory
    | CodeGen | Template | Interface | Lifecycle | Reconciliation | Checkpoint
    | Determinism | Resource | Timeout | Dependency
    | Security | Authentication | Authorization | InputValidation

  /** `e.__class__.__name__`: every class name of the taxonomy ends in `Error`. */
  function ClassName(k: ErrorKind): string
  {
    Stem(k) + "Error"
  }

  /** The class name without its `Error` suffix. */
  function Stem(k: ErrorKind): string
  {
    match k
    case Thalos => "Thalos"
    case CIS => "CIS"
    case Boot => "Boot"
    case Shutdown => "Shutdown"
    case Subsystem => "Subsystem"
    case CISNotBooted => "CISNotBooted"
    case KeyNotFound => "KeyNotFound"
    case KeyExists => "KeyExists"
    case Validation => "Validation"
    case State => "State"
    case Configuration => "Configuration"
    case Memory => "Memory"
    case CodeGen => "CodeGen"
    case Template => "Template"
    case Interface => "Interface"
    case Lifecycle => "Lifecycle"
    case Reconciliation => "Reconciliation"
    case Checkpoint => "Checkpoint"
    case Determinism => "Determinism"
    case Resource => "Resource"
    case Timeout => "Timeout"
    case Dependency => "Dependency"
    case Security => "Security"
    case Authentication => "Authentication"
    case Authorization => "Authorization"
    case InputValidation => "InputValidation"
  }

  /** The direct base class; `ThalosError` itself derives from Python's `Exception`, outside the taxonomy. */
  function Parent(k: ErrorKind): Option<ErrorKind>
  {
    match k
    case Thalos => None
    case Boot | Shutdown | Subsystem | CISNotBooted => Some(CIS)
    case Template => Some(CodeGen)
    case Authentication | Authorization | InputValidation => Some(Security)
    case _ => Some(Thalos)
  }

  /** Number of base classes between a class and `ThalosError`. */
  function Depth(k: ErrorKind): nat
  {
    match k
    case Thalos => 0
    case Boot | Shutdown | Subsystem | CISNotBooted | Template
       | Authentication | Authorization | InputValidation => 2
    case _ => 1
  }

  /** `issubclass(k, ancestor)`, following the base classes upwards. */
  predicate IsA(k: ErrorKind, ancestor: ErrorKind)
    decreases Depth(k)
  {
    k == ancestor || (Parent(k).Some? && IsA(Parent(k).value, ancestor))
  }

  /** Every class of the taxonomy is a `ThalosError`. */
  lemma {:induction false} EveryErrorIsThalos(k: ErrorKind)
    ensures IsA(k, Thalos)
    decreases Depth(k)
  {
    if k != Thalos {
      EveryErrorIsThalos(Parent(k).value);
    }
  }

  /** The children of each base class, read off `Parent`. */
  lemma ParentCases(k: ErrorKind)
    ensures Parent(k) == None <==> k == Thalos
    ensures Parent(k) == Some(CIS) <==> k in {Boot, Shutdown, Subsystem, CISNotBooted}
    ensures Parent(k) == Some(CodeGen) <==> k == Template
    ensures Parent(k) == Some(Security) <==> k in {Authentication, Authorization, InputValidation}
    ensures Parent(k) in {None, Some(CIS), Some(CodeGen), Some(Security), Some(Thalos)}
  {
  }

  /** The `CISError` family, member by member. */
  lemma CisFamily(k: ErrorKind)
    ensures IsA(k, CIS) <==> k in {CIS, Boot, Shutdown, Subsystem, CISNotBooted}
  {
    ParentCases(k);
    assert !IsA(Thalos, CIS) && !IsA(CodeGen, CIS) && !IsA(Security, CIS);
  }

  /** The `CodeGenError` family: the generator's own errors and template errors. */
  lemma CodeGenFamily(k: ErrorKind)
    ensures IsA(k, CodeGen) <==> k in {CodeGen, Template}
  {
    ParentCases(k);
    assert !IsA(Thalos, CodeGen) && !IsA(CIS, CodeGen) && !IsA(Security, CodeGen);
  }

  /** The `SecurityError` family, member by member. */
  lemma SecurityFamily(k: ErrorKind)
    ensures IsA(k, Security) <==> k in {Security, Authentication, Authorization, InputValidation}
  {
    ParentCases(k);
    assert !IsA(Thalos, Security) && !IsA(CIS, Security) && !IsA(CodeGen, Security);
  }

  /** The root has no ancestor in the taxonomy, and input validation is a security error,
      not a `ValidationError`. */
  lemma RootAndInputValidation(k: ErrorKind)
    ensures k != Thalos ==> !IsA(Thalos, k)
    ensures !IsA(InputValidation, Validation)
  {
  }

  // ---------------------------------------------------------------------------
  // Exception values

  /** The attributes that a subclass's own `__init__` adds to `message` and `details`. */
  datatype ErrorInfo =
    | NoInfo
    | OperationInfo(operation: Value)
    | KeyInfo(key: string)
    | FieldInfo(field: Value, reason: Value, value: Value)
    | StateInfo(currentState: Value, expectedState: Value)
    | PhaseInfo(phase: Value, subsystem: Value)

  datatype ThalosError = ThalosError(kind: ErrorKind, message: string, details: Value, info: ErrorInfo)

  /** An exception as it propagates out of a call: one of the taxonomy, or a built-in. */
  datatype PyException =
    | ThalosException(error: ThalosError)
    | ValueError(text: string)
    | TypeError(text: string)

  /** What a call does: return a value or raise. */
  datatype Outcome<+T> = Returned(value: T) | Raised(exception: PyException)

  /** The classes whose constructor is `ThalosError.__init__(message, details=None)` unchanged. */
  predicate HasBaseConstructor(k: ErrorKind)
  {
    k !in {CISNotBooted, KeyNotFound, KeyExists, Validation, State, Lifecycle}
  }

  /** `K(message, details)` for a class without its own `__init__`. */
  function NewError(k: ErrorKind, message: string, details: Value): (e: ThalosError)
    requires HasBaseConstructor(k)
    ensures e.kind == k && e.message == message && e.info == NoInfo
    ensures Truthy(details) ==> e.details == details
    ensures !Truthy(details) ==> e.details == VDict([])
  {
    ThalosError(k, message, OrEmptyDict(details), NoInfo)
  }

  /** `CISNotBootedError(operation)` */
  function NewCISNotBooted(operation: Value): (e: ThalosError)
    ensures e.kind == CISNotBooted && e.info == OperationInfo(operation) && e.details == VDict([])
    ensures Truthy(operation) ==> e.message == "CIS not booted - cannot perform operation: " + Str(operation)
    ensures !Truthy(operation) ==> e.message == "CIS not booted"
  {
    var message := if Truthy(operation) then "CIS not booted - cannot perform operation: " + Str(operation)
                   else "CIS not booted";
    ThalosError(CISNotBooted, message, VDict([]), OperationInfo(operation))
  }

  /** `KeyNotFoundError(key)` */
  function NewKeyNotFound(key: string): (e: ThalosError)
    ensures e.kind == KeyNotFound && e.info == KeyInfo(key) && e.details == VDict([])
    ensures e.message == "Key not found: " + key
  {
    ThalosError(KeyNotFound, "Key not found: " + key, VDict([]), KeyInfo(key))
  }

  /** `KeyExistsError(key)` */
  function NewKeyExists(key: string): (e: ThalosError)
    ensures e.kind == KeyExists && e.info == KeyInfo(key) && e.details == VDict([])
    ensures e.message == "Key already exists: " + key
  {
    ThalosError(KeyExists, "Key already exists: " + key, VDict([]), KeyInfo(key))
  }

  /** `kwargs.get(name, default)` */
  function KwArg(kwargs: map<string, Value>, name: string, default: Value): (v: Value)
    ensures name in kwargs ==> v == kwargs[name]
    ensures name !in kwargs ==> v == default
  {
    if name in kwargs then kwargs[name] else default
  }

  /** `ValidationError(*args, **kwargs)`: `(field, reason)` with no keywords, or
      `(message, field=, reason=, value=, details=)`; any other call raises `TypeError`. */
  function NewValidation(args: seq<Value>, kwargs: map<string, Value>): (r: Outcome<ThalosError>)
    ensures r.Returned? <==> (|args| == 2 && kwargs == map[]) || |args| == 1
    ensures r.Raised? ==> r.exception == TypeError("ValidationError() takes 1 or 2 positional arguments")
    ensures r.Returned? ==> r.value.kind == Validation && r.value.info.FieldInfo?
    ensures |args| == 2 && kwargs == map[] ==>
      r == Returned(ThalosError(Validation, Str(args[0]) + ": " + Str(args[1]), VDict([]),
                                FieldInfo(args[0], args[1], VNone)))
    ensures |args| == 1 ==> r.Returned? && r.value.message == Str(args[0])
    ensures |args| == 1 ==> r.value.info.field == KwArg(kwargs, "field", VNone)
    ensures |args| == 1 ==> r.value.info.reason == KwArg(kwargs, "reason", VStr(Str(args[0])))
    ensures |args| == 1 ==> r.value.info.value == KwArg(kwargs, "value", VNone)
    ensures |args| == 1 ==> r.value.details == OrEmptyDict(KwArg(kwargs, "details", VNone))
  {
    if |args| == 2 && kwargs == map[] then
      Returned(ThalosError(Validation, Str(args[0]) + ": " + Str(args[1]), OrEmptyDict(VNone),
                           FieldInfo(args[0], args[1], VNone)))
    else if |args| == 1 then
      var message := Str(args[0]);
      Returned(ThalosError(Validation, message, OrEmptyDict(KwArg(kwargs, "details", VNone)),
                           FieldInfo(KwArg(kwargs, "field", VNone), KwArg(kwargs, "reason", VStr(message)),
                                     KwArg(kwargs, "value", VNone))))
    else
      Raised(TypeError("ValidationError() takes 1 or 2 positional arguments"))
  }

  /** `StateError(message, current_state, expected_state, details)` */
  function NewStateError(message: string, currentState: Value, expectedState: Value, details: Value): (e: ThalosError)
    ensures e.kind == State && e.message == message && e.details == OrEmptyDict(details)
    ensures e.info == StateInfo(currentState, expectedState)
  {
    ThalosError(State, message, OrEmptyDict(details), StateInfo(currentState, expectedState))
  }

  /** `LifecycleError(message, phase, subsystem, details)` */
  function NewLifecycleError(message: string, phase: Value, subsystem: Value, details: Value): (e: ThalosError)
    ensures e.kind == Lifecycle && e.message == message && e.details == OrEmptyDict(details)
    ensures e.info == PhaseInfo(phase, subsystem)
  {
    ThalosError(Lifecycle, message, OrEmptyDict(details), PhaseInfo(phase, subsystem))
  }

  /** The attributes fit the class: what any of the constructors above produces. */
  predicate WellFormed(e: ThalosError)
  {
    match e.kind
    case CISNotBooted => e.info.OperationInfo?
    case KeyNotFound | KeyExists => e.info.KeyInfo?
    case Validation => e.info.FieldInfo?
    case State => e.info.StateInfo?
    case Lifecycle => e.info.PhaseInfo?
    case _ => e.info.NoInfo?
  }

  // ---------------------------------------------------------------------------
  // Rendering

  /** `str(e)`: the plain message, for every class. */
  function ToStr(e: ThalosError): (s: string)
    ensures s == e.message
  {
    e.message
  }

  /** `s.replace(pat, '')`: every non-overlapping occurrence, scanning from the left, removed. */
  function RemoveAll(s: string, pat: string): string
    requires pat != []
    decreases |s|
  {
    if |s| < |pat| then s
    else if s[..|pat|] == pat then RemoveAll(s[|pat|..], pat)
    else [s[0]] + RemoveAll(s[1..], pat)
  }

  /** `__class__.__name__.replace('Error', '').upper()` */
  function ErrorCode(k: ErrorKind): string
  {
    Upper(RemoveAll(ClassName(k), "Error"))
  }

  /** `e.formatted_message()`, including its separate branch for the base class. */
  function FormattedMessage(e: ThalosError): string
  {
    var code := ErrorCode(e.kind);
    if code == "THALOS" then "[THALOS_ERROR] " + e.message
    else "[" + code + "_ERROR] " + e.message
  }

  /** Removing "Error" from a text that starts with a part free of 'E' keeps that part. */
  lemma {:induction false} RemoveAllKeepsPrefix(prefix: string, rest: string)
    requires 'E' !in prefix
    ensures RemoveAll(prefix + rest, "Error") == prefix + RemoveAll(rest, "Error")
    decreases |prefix|
  {
    if prefix != [] {
      var s := prefix + rest;
      assert s[0] == prefix[0] != 'E';
      assert s[1..] == prefix[1..] + rest;
      RemoveAllKeepsPrefix(prefix[1..], rest);
      assert prefix == [prefix[0]] + prefix[1..];
      assert [s[0]] + (prefix[1..] + RemoveAll(rest, "Error")) == prefix + RemoveAll(rest, "Error");
      if |s| >= 5 {
        assert s[..5][0] != "Error"[0];
        assert RemoveAll(s, "Error") == [s[0]] + RemoveAll(s[1..], "Error");
        assert RemoveAll(s, "Error") == prefix + RemoveAll(rest, "Error");
      } else {
        assert RemoveAll(rest, "Error") == rest;
        assert RemoveAll(s, "Error") == s;
      }
    } else {
      assert prefix + rest == rest;
    }
  }

  lemma RemoveAllOfError()
    ensures RemoveAll("Error", "Error") == ""
  {
    assert "Error"[..5] == "Error";
    assert "Error"[5..] == "";
  }

  /** Removing "Error" from a class name leaves its stem. */
  lemma RemoveAllLeavesStem(k: ErrorKind)
    ensures RemoveAll(ClassName(k), "Error") == Stem(k)
  {
    if k == KeyExists {
      RemoveAllKeyExists(ClassName(k), "ExistsError");
    } else {
      RemoveAllPlainStem(k);
    }
  }

  lemma RemoveAllPlainStem(k: ErrorKind)
    requires k != KeyExists
    ensures RemoveAll(ClassName(k), "Error") == Stem(k)
  {
    RemoveAllOfError();
    StemWithoutE(k);
    RemoveAllKeepsPrefix(Stem(k), "Error");
  }

  /** Only `KeyExists` has a capital E in its stem. */
  lemma StemWithoutE(k: ErrorKind)
    requires k != KeyExists
    ensures 'E' !in Stem(k)
  {
    if k in {Thalos, CIS, Boot, Shutdown, Subsystem, CISNotBooted, KeyNotFound, Validation, State, Configuration, Memory, CodeGen, Template} {
      StemWithoutEFirst(k);
    } else {
      StemWithoutESecond(k);
    }
  }

  lemma StemWithoutEFirst(k: ErrorKind)
    requires k in {Thalos, CIS, Boot, Shutdown, Subsystem, CISNotBooted, KeyNotFound, Validation, State, Configuration, Memory, CodeGen, Template}
    ensures 'E' !in Stem(k)
  {
  }

  lemma StemWithoutESecond(k: ErrorKind)
    requires k !in {Thalos, CIS, Boot, Shutdown, Subsystem, CISNotBooted, KeyNotFound, KeyExists, Validation, State, Configuration, Memory, CodeGen, Template}
    ensures 'E' !in Stem(k)
  {
  }

  /** The one class name with an 'E' before its suffix. */
  lemma RemoveAllKeyExists(name: string, tail: string)
    requires name == "Key" + tail && tail == "E" + "xists" + "Error"
    ensures RemoveAll(name, "Error") == "KeyExists"
  {
    assert tail[..5][1] == 'x';
    assert tail[1..] == "xists" + "Error";
    RemoveAllOfError();
    RemoveAllKeepsPrefix("xists", "Error");
    RemoveAllKeepsPrefix("Key", tail);
  }

  /** Every error code is the upper-cased class name with its `Error` suffix taken off. */
  lemma ErrorCodeIsStem(k: ErrorKind)
    ensures ErrorCode(k) == Upper(Stem(k))
  {
    RemoveAllLeavesStem(k);
  }

  /** `formatted_message()` is `[STEM_ERROR] message` for every class; the base-class branch changes nothing. */
  lemma {:induction false} FormattedMessageShape(e: ThalosError)
    ensures FormattedMessage(e) == "[" + Upper(Stem(e.kind)) + "_ERROR] " + e.message
    ensures ToStr(e) != FormattedMessage(e)
  {
    ErrorCodeIsStem(e.kind);
    var code := ErrorCode(e.kind);
    if code == "THALOS" {
      assert "[" + code + "_ERROR] " == "[THALOS_ERROR] ";
    }
    assert |FormattedMessage(e)| > |e.message|;
  }

  /** The base class keeps the code the test suite looks for. */
  lemma BaseCode(e: ThalosError)
    requires e.kind == ErrorKind.Thalos
    ensures FormattedMessage(e) == "[THALOS_ERROR] " + e.message
  {
    ErrorCodeIsStem(e.kind);
    UpperOfLiteral("Thalos", "THALOS");
  }

  /** `CISError` is coded `CIS`. */
  lemma CisCode(e: ThalosError)
    requires e.kind == CIS
    ensures FormattedMessage(e) == "[CIS_ERROR] " + e.message
  {
    ErrorCodeIsStem(CIS);
    UpperOfLiteral("CIS", "CIS");
    var code := ErrorCode(CIS);
    assert code == "CIS";
    assert code != "THALOS";
    assert "[" + code + "_ERROR] " == "[CIS_ERROR] ";
  }

  lemma UpperOfLiteral(s: string, u: string)
    requires |s| == |u| && forall i :: 0 <= i < |s| ==> UpperChar(s[i]) == u[i]
    ensures Upper(s) == u
  {
  }

  // ---------------------------------------------------------------------------
  // Serialisation

  /** `e.to_dict()`: `type`, `message` and `details`, then the keys the subclass adds. */
  function ToDict(e: ThalosError): (d: seq<Entry>)
    requires WellFormed(e)
    ensures UniqueKeys(d)
    ensures |d| == 3 <==> e.kind !in {Validation, State, Lifecycle}
  {
    var base := [Entry("type", VStr(ClassName(e.kind))), Entry("message", VStr(e.message)), Entry("details", e.details)];
    match e.kind
    case Validation =>
      base + [Entry("field", e.info.field), Entry("value", if e.info.value.VNone? then VNone else VStr(Str(e.info.value)))]
    case State => base + [Entry("current_state", e.info.currentState), Entry("expected_state", e.info.expectedState)]
    case Lifecycle => base + [Entry("phase", e.info.phase), Entry("subsystem", e.info.subsystem)]
    case _ => base
  }

  /** The class name `to_dict` reports for a validation error. */
  lemma ValidationClassName()
    ensures ClassName(Validation) == "ValidationError"
  {
    assert "Validation" + "Error" == "ValidationError";
  }

  /** Every dictionary form carries the class name, the message and the details. */
  lemma ToDictCommonKeys(e: ThalosError)
    requires WellFormed(e)
    ensures Get(ToDict(e), "type") == Some(VStr(ClassName(e.kind)))
    ensures Get(ToDict(e), "message") == Some(VStr(e.message))
    ensures Get(ToDict(e), "details") == Some(e.details)
  {
    var d := ToDict(e);
    GetAt(d, 0);
    GetAt(d, 1);
    GetAt(d, 2);
  }

  /** The keys `ValidationError`, `StateError` and `LifecycleError` add; a validation value is
      stringified unless it is `None`. */
  lemma ToDictSubclassKeys(e: ThalosError)
    requires WellFormed(e)
    ensures e.kind == Validation ==>
      && Get(ToDict(e), "field") == Some(e.info.field)
      && Get(ToDict(e), "value") == Some(if e.info.value.VNone? then VNone else VStr(Str(e.info.value)))
    ensures e.kind == State ==>
      Get(ToDict(e), "current_state") == Some(e.info.currentState)
      && Get(ToDict(e), "expected_state") == Some(e.info.expectedState)
    ensures e.kind == Lifecycle ==>
      Get(ToDict(e), "phase") == Some(e.info.phase) && Get(ToDict(e), "subsystem") == Some(e.info.subsystem)
  {
    var d := ToDict(e);
    if |d| == 5 {
      GetAt(d, 3);
      GetAt(d, 4);
    }
  }

  /** The test suite's error values: keys kept, messages as documented. */
  lemma KeyExistsExample()
    ensures NewKeyExists("mykey").info.key == "mykey"
    ensures Contains(Lower(ToStr(NewKeyExists("mykey"))), "already exists")
  {
    KeyExistsSaysSo("mykey");
  }

  /** Whatever the key, the lower-cased message of `KeyExistsError` says "already exists". */
  lemma KeyExistsSaysSo(key: string)
    ensures OccursAt(Lower(ToStr(NewKeyExists(key))), "already exists", 4)
  {
    var s := ToStr(NewKeyExists(key));
    assert OccursAt("Key already exists: ", "already exists", 4);
    OccursInFront("Key already exists: ", "already exists", 4, key);
    NoUpperInAlreadyExists();
    LowerKeepsWord(s, "already exists", 4);
  }

  /** "already exists" has no upper-case letter. */
  lemma NoUpperInAlreadyExists()
    ensures forall j :: 0 <= j < |"already exists"| ==> !IsUpper("already exists"[j])
  {
  }

  lemma KeyNotFoundExample()
    ensures NewKeyNotFound("missing").info.key == "missing"
    ensures ToStr(NewKeyNotFound("missing")) == "Key not found: missing"
  {
  }
}
