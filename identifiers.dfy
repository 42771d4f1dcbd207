/** The name validators: storage keys, class names, function names and identifiers.
    The first three check a first character and then match `^[start][rest]*$` with `re.match`,
    whose `$` also matches just before a final newline; the strict variants match the whole string. */
module Identifiers {
  import opened Text
  import opened PyValues

  /** The three patterns the validators use. */
  datatype Shape =
    | KeyShape       // ^[a-zA-Z_][a-zA-Z0-9_-]*$
    | ClassShape     // ^[A-Z][a-zA-Z0-9]*$
    | FunctionShape  // ^[a-z_][a-z0-9_]*$

  /** The first character class of a pattern. */
  predicate Start(p: Shape, c: char)
  {
    match p
    case KeyShape => IsLetter(c) || c == '_'
    case ClassShape => IsUpper(c)
    case FunctionShape => IsLower(c) || c == '_'
  }

  /** The repeated character class of a pattern. */
  predicate Rest(p: Shape, c: char)
  {
    match p
    case KeyShape => IsAlnum(c) || c == '_' || c == '-'
    case ClassShape => IsAlnum(c)
    case FunctionShape => IsLower(c) || IsDigit(c) || c == '_'
  }

  /** Every character of `t` is in the repeated class. */
  predicate AllRest(p: Shape, t: string)
  {
    forall i :: 0 <= i < |t| ==> Rest(p, t[i])
  }

  /** The whole string has the shape: one start character, then only repeated-class characters. */
  predicate Shaped(p: Shape, s: string)
  {
    s != [] && Start(p, s[0]) && AllRest(p, s[1..])
  }

  /** `s` ends in a newline and has the shape without it. */
  predicate ShapedThenNewline(p: Shape, s: string)
  {
    |s| >= 2 && s[|s| - 1] == '\n' && Shaped(p, s[..|s| - 1])
  }

  // ---------------------------------------------------------------------------
  // The regular expressions, as the matcher reads them

  /** `[rest]*$` matched against `t`: the class repeats, then the end of the string or a final newline. */
  predicate StarDollar(p: Shape, t: string)
    decreases |t|
  {
    t == [] || t == "\n" || (Rest(p, t[0]) && StarDollar(p, t[1..]))
  }

  /** `[rest]*\Z`: the class repeats up to the very end. */
  predicate StarEnd(p: Shape, t: string)
    decreases |t|
  {
    t == [] || (Rest(p, t[0]) && StarEnd(p, t[1..]))
  }

  /** `re.match(r'^[start][rest]*$', s)` succeeds. */
  predicate RegexMatch(p: Shape, s: string)
  {
    s != [] && Start(p, s[0]) && StarDollar(p, s[1..])
  }

  /** `re.fullmatch(r'[start][rest]*', s)` succeeds. */
  predicate RegexFullMatch(p: Shape, s: string)
  {
    s != [] && Start(p, s[0]) && StarEnd(p, s[1..])
  }

  /** `[rest]*$` accepts exactly the all-class strings, with or without one final newline. */
  lemma {:induction false} StarDollarIff(p: Shape, t: string)
    ensures StarDollar(p, t) <==> AllRest(p, t) || (t != [] && t[|t| - 1] == '\n' && AllRest(p, t[..|t| - 1]))
    decreases |t|
  {
    if t == [] || t == "\n" {
    } else {
      StarDollarIff(p, t[1..]);
      if |t| >= 2 {
        assert t[1..][..|t| - 2] == t[..|t| - 1][1..];
        assert t[1..][|t| - 2] == t[|t| - 1];
      }
    }
  }

  /** `[rest]*\Z` accepts exactly the all-class strings. */
  lemma {:induction false} StarEndIff(p: Shape, t: string)
    ensures StarEnd(p, t) <==> AllRest(p, t)
    decreases |t|
  {
    if t != [] {
      StarEndIff(p, t[1..]);
    }
  }

  /** `re.match` with `^…$` accepts the shaped strings and the shaped strings followed by one newline. */
  lemma MatchIff(p: Shape, s: string)
    ensures RegexMatch(p, s) <==> Shaped(p, s) || ShapedThenNewline(p, s)
  {
    if s != [] {
      StarDollarIff(p, s[1..]);
      if |s| >= 2 {
        assert s[1..][..|s| - 2] == s[..|s| - 1][1..];
      }
    }
  }

  // ---------------------------------------------------------------------------
  // The validators as written

  /** `validate_key(key)` */
  function ValidateKey(key: Value): (r: bool)
    ensures r <==> key.VStr? && (Shaped(KeyShape, key.s) || ShapedThenNewline(KeyShape, key.s))
  {
    if !key.VStr? || key.s == [] then false
    else if !(IsLetter(key.s[0]) || key.s[0] == '_') then false
    else MatchIff(KeyShape, key.s); RegexMatch(KeyShape, key.s)
  }

  /** `validate_class_name(name)` */
  function ValidateClassName(name: Value): (r: bool)
    ensures r <==> name.VStr? && (Shaped(ClassShape, name.s) || ShapedThenNewline(ClassShape, name.s))
  {
    if !name.VStr? || name.s == [] then false
    else if !IsUpper(name.s[0]) then false
    else MatchIff(ClassShape, name.s); RegexMatch(ClassShape, name.s)
  }

  /** `validate_function_name(name)` */
  function ValidateFunctionName(name: Value): (r: bool)
    ensures r <==> name.VStr? && (Shaped(FunctionShape, name.s) || ShapedThenNewline(FunctionShape, name.s))
  {
    if !name.VStr? || name.s == [] then false
    else if !(IsLower(name.s[0]) || name.s[0] == '_') then false
    else MatchIff(FunctionShape, name.s); RegexMatch(FunctionShape, name.s)
  }

  /** `str.isidentifier()` over ASCII: a letter or underscore, then letters, digits and underscores. */
  predicate IsIdentifier(s: string)
  {
    s != [] && (IsLetter(s[0]) || s[0] == '_') && forall i :: 1 <= i < |s| ==> IsAlnum(s[i]) || s[i] == '_'
  }

  /** `validate_identifier(identifier)`: no newline allowance, since it uses `isidentifier`. */
  function ValidateIdentifier(identifier: Value): (r: bool)
    ensures r ==> identifier.VStr? && identifier.s != [] && '\n' !in identifier.s
    ensures r <==> identifier.VStr? && IsIdentifier(identifier.s)
  {
    identifier.VStr? && identifier.s != [] && IsIdentifier(identifier.s)
  }

  // ---------------------------------------------------------------------------
  // Whole-string versions: the intended "contain only" reading

  /** `validate_key` with the pattern matched against the whole string. */
  function ValidKey(key: Value): (r: bool)
    ensures r <==> key.VStr? && Shaped(KeyShape, key.s)
  {
    if key.VStr? && RegexFullMatch(KeyShape, key.s) then StarEndIff(KeyShape, key.s[1..]); true
    else if key.VStr? && key.s != [] then StarEndIff(KeyShape, key.s[1..]); false
    else false
  }

  /** `validate_class_name` with the pattern matched against the whole string. */
  function ValidClassName(name: Value): (r: bool)
    ensures r <==> name.VStr? && Shaped(ClassShape, name.s)
  {
    if name.VStr? && RegexFullMatch(ClassShape, name.s) then StarEndIff(ClassShape, name.s[1..]); true
    else if name.VStr? && name.s != [] then StarEndIff(ClassShape, name.s[1..]); false
    else false
  }

  /** `validate_function_name` with the pattern matched against the whole string. */
  function ValidFunctionName(name: Value): (r: bool)
    ensures r <==> name.VStr? && Shaped(FunctionShape, name.s)
  {
    if name.VStr? && RegexFullMatch(FunctionShape, name.s) then StarEndIff(FunctionShape, name.s[1..]); true
    else if name.VStr? && name.s != [] then StarEndIff(FunctionShape, name.s[1..]); false
    else false
  }

  /** The whole-string validators accept what the written ones accept, except for strings ending in a newline. */
  lemma ValidIsWrittenWithoutNewline(v: Value)
    ensures ValidKey(v) <==> ValidateKey(v) && v.VStr? && v.s[|v.s| - 1] != '\n'
    ensures ValidClassName(v) <==> ValidateClassName(v) && v.VStr? && v.s[|v.s| - 1] != '\n'
    ensures ValidFunctionName(v) <==> ValidateFunctionName(v) && v.VStr? && v.s[|v.s| - 1] != '\n'
  {
  }

  /** A trailing newline slips through the written validators. */
  lemma TrailingNewlineAccepted()
    ensures ValidateKey(VStr("abc\n")) && !ValidKey(VStr("abc\n"))
    ensures ValidateClassName(VStr("Abc\n")) && !ValidClassName(VStr("Abc\n"))
    ensures ValidateFunctionName(VStr("abc\n")) && !ValidFunctionName(VStr("abc\n"))
    ensures !ValidateIdentifier(VStr("Abc\n"))
  {
    assert Shaped(KeyShape, "abc");
    assert "abc\n"[..3] == "abc";
    assert Shaped(ClassShape, "Abc");
    assert "Abc\n"[..3] == "Abc";
    assert Shaped(FunctionShape, "abc");
    assert !AllRest(KeyShape, "abc\n"[1..]) by { assert "abc\n"[1..][2] == '\n'; }
    assert !AllRest(ClassShape, "Abc\n"[1..]) by { assert "Abc\n"[1..][2] == '\n'; }
    assert !AllRest(FunctionShape, "abc\n"[1..]) by { assert "abc\n"[1..][2] == '\n'; }
    assert "Abc\n"[3] == '\n';
  }

  // ---------------------------------------------------------------------------
  // How the validators relate

  /** Every function name is a storage key, for the written and for the whole-string validators. */
  lemma FunctionNameIsKey(v: Value)
    ensures ValidateFunctionName(v) ==> ValidateKey(v)
    ensures ValidFunctionName(v) ==> ValidKey(v)
  {
  }

  /** Every identifier is a storage key. */
  lemma IdentifierIsKey(v: Value)
    ensures ValidateIdentifier(v) ==> ValidKey(v) && ValidateKey(v)
  {
  }

  /** Class and function names are identifiers when matched whole; the written validators break this. */
  lemma NamesAreIdentifiers(v: Value)
    ensures ValidClassName(v) ==> ValidateIdentifier(v)
    ensures ValidFunctionName(v) ==> ValidateIdentifier(v)
    ensures ValidateClassName(VStr("Abc\n")) && !ValidateIdentifier(VStr("Abc\n"))
  {
    TrailingNewlineAccepted();
  }

  /** A class name never passes as a function name, and the reverse. */
  lemma ClassAndFunctionDisjoint(v: Value)
    ensures !(ValidateClassName(v) && ValidateFunctionName(v))
  {
  }

  // ---------------------------------------------------------------------------
  // The documented examples

  lemma KeyExamplesAccepted()
    ensures ValidateKey(VStr("mykey"))
    ensures ValidateKey(VStr("my_key"))
    ensures ValidateKey(VStr("my-key"))
    ensures ValidateKey(VStr("key123"))
    ensures ValidateKey(VStr("_private"))
  {
    assert Shaped(KeyShape, "mykey");
    assert Shaped(KeyShape, "my_key");
    assert Shaped(KeyShape, "my-key");
    assert Shaped(KeyShape, "key123");
    assert Shaped(KeyShape, "_private");
  }

  lemma KeyExamplesRejected()
    ensures !ValidateKey(VStr(""))
    ensures !ValidateKey(VStr("123key"))
    ensures !ValidateKey(VStr("my key"))
    ensures !ValidateKey(VStr("key.name"))
    ensures !ValidateKey(VNone)
  {
    KeyRejectedFirst("");
    KeyRejectedFirst("123key");
    KeyRejectedAt("my key", 2);
    KeyRejectedAt("key.name", 3);
  }

  /** A string that is empty or starts outside the first character class is not a key. */
  lemma KeyRejectedFirst(s: string)
    requires s == [] || !Start(KeyShape, s[0])
    ensures !ValidateKey(VStr(s))
  {
  }

  /** A string with a character outside the repeated class after its first, and no final
      newline, is not a key. */
  lemma KeyRejectedAt(s: string, i: int)
    requires 1 <= i < |s| && !Rest(KeyShape, s[i]) && s[|s| - 1] != '\n'
    ensures !ValidateKey(VStr(s))
  {
    assert s[1..][i - 1] == s[i];
  }

  lemma ClassNameExamplesAccepted()
    ensures ValidateClassName(VStr("MyClass"))
    ensures ValidateClassName(VStr("User"))
    ensures ValidateClassName(VStr("MyClass123"))
    ensures ValidateClassName(VStr("A"))
  {
    assert Shaped(ClassShape, "MyClass");
    assert Shaped(ClassShape, "User");
    assert Shaped(ClassShape, "MyClass123");
    assert Shaped(ClassShape, "A");
  }

  lemma ClassNameExamplesRejected()
    ensures !ValidateClassName(VStr("myclass"))
    ensures !ValidateClassName(VStr("123Class"))
    ensures !ValidateClassName(VStr("My Class"))
    ensures !ValidateClassName(VStr(""))
  {
    assert !AllRest(ClassShape, "My Class"[1..]) by { assert "My Class"[1..][1] == ' '; }
  }

  lemma FunctionNameExamplesAccepted()
    ensures ValidateFunctionName(VStr("my_function"))
    ensures ValidateFunctionName(VStr("process"))
    ensures ValidateFunctionName(VStr("_private"))
    ensures ValidateFunctionName(VStr("func123"))
  {
    assert Shaped(FunctionShape, "my_function");
    assert Shaped(FunctionShape, "process");
    assert Shaped(FunctionShape, "_private");
    assert Shaped(FunctionShape, "func123");
  }

  lemma FunctionNameExamplesRejected()
    ensures !ValidateFunctionName(VStr("MyFunction"))
    ensures !ValidateFunctionName(VStr("123func"))
    ensures !ValidateFunctionName(VStr("my-func"))
  {
    assert !AllRest(FunctionShape, "my-func"[1..]) by { assert "my-func"[1..][1] == '-'; }
  }

  lemma IdentifierExamplesAccepted()
    ensures ValidateIdentifier(VStr("variable"))
    ensures ValidateIdentifier(VStr("_private"))
    ensures ValidateIdentifier(VStr("Capitalized"))
    ensures ValidateIdentifier(VStr("var123"))
  {
  }

  lemma IdentifierExamplesRejected()
    ensures !ValidateIdentifier(VStr("123var"))
    ensures !ValidateIdentifier(VStr("my-var"))
    ensures !ValidateIdentifier(VStr("my var"))
  {
    assert "my-var"[2] == '-';
    assert "my var"[2] == ' ';
  }
}
