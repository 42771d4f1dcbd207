# Thalos Prime core utilities, error taxonomy and conversation engine

This project models three parts of the Thalos Prime system in Dafny and proves properties of them:

- **Utilities** (`src/core/utils.py`):
  - the `Result` success/failure wrapper;
  - the `Validator` field checks;
  - the string, number and collection helpers: `truncate_string`, `deep_merge`, `ensure_list`, `clamp`, `safe_get`, `flatten_dict`, `first_or_default`, `deduplicate`, `chunk_list`;
  - the regular-expression name validators.
- **Error taxonomy** (`src/core/exceptions.py`): the 26 error classes rooted at `ThalosError`. The model covers:
  - their subclass relation;
  - their constructors, including the two call shapes of `ValidationError`;
  - `__str__`, `formatted_message` and `to_dict`.
- **Conversation engine** (`src/interfaces/chatbot/conversation.py`). `ConversationEngine` is a class with mutable state: the history, the initialized flag and the lifecycle state. The model covers:
  - initialize, validate, process_input, reconcile, checkpoint and terminate;
  - the keyword router that picks a handler for each message.

Files:

| file | module | contents |
|---|---|---|
| `text.dfy` | `Text` | Python string primitives: ASCII `isupper`/`islower`/`isalpha`/`isdigit`/`isalnum`, Python's full `isspace`, `lower`/`upper`, `strip`, substring `in`, slicing, `str(int)` |
| `values.dfy` | `PyValues` | Dynamic Python values (`None`, bool, int, str, list, dict); dicts as insertion-ordered entry lists; item lookup and assignment; `dict(items)`; `str`/`repr`; Python `==` across bool and int |
| `results.dfy` | `Results` | `Result` |
| `guards.dfy` | `Guards` | `Validator` |
| `identifiers.dfy` | `Identifiers` | `validate_key`, `validate_class_name`, `validate_function_name`, `validate_identifier`, and `re.match` with a trailing `$` |
| `lists.dfy` | `Lists` | `truncate_string`, `clamp`, `ensure_list`, `chunk_list`, `first_or_default`, `deduplicate` |
| `nested_dicts.dfy` | `NestedDicts` | `deep_merge`, `safe_get`, `flatten_dict` |
| `exceptions.dfy` | `Exceptions` | The error taxonomy |
| `conversation.dfy` | `Conversation` | `ConversationEngine` |

How Python behaviour is represented:

- **Raising.** A raised exception is the `Raised` case of `Exceptions.Outcome`; a normal return is `Returned`.
- **Loops.** Operations written as loops in Python are Dafny methods with loop invariants. Each method except `FirstOrDefault` is proved equal to a recursive specification function, and the properties are lemmas about that function. `FirstOrDefault` states its result directly: the first item that satisfies the predicate, or the default.
- **Strings.** Python's `str.__str__` on exception objects returns the plain message, as `ThalosError.__str__` is written (`src/core/exceptions.py:23-25`). The unit test at `tests/unit/test_utils.py:270` expects the formatted `[THALOS_ERROR] …` form instead, and the test at `tests/unit/test_utils.py:274` looks for `CIS_ERROR` in `str` of a `CISError`. The model follows the code, so both expectations fail on it.

## Model

| member | source | states |
|---|---|---|
| Text.Upper | src/core/exceptions.py:29 | `str.upper` keeps the length and upper-cases exactly the lower-case letters, position by position |
| Text.Lower | src/interfaces/chatbot/conversation.py:97 | `str.lower` keeps the length and lower-cases exactly the upper-case letters, position by position |
| Text.LowerIdempotent | src/interfaces/chatbot/conversation.py:97 | lower-casing twice is lower-casing once |
| Text.Strip | src/interfaces/chatbot/conversation.py:74 | `str.strip` returns a contiguous piece of its input that neither starts nor ends with whitespace; the result is empty exactly when the input is all whitespace |
| Text.StripTrims | src/interfaces/chatbot/conversation.py:74 | everything `str.strip` removes, before and after the piece it keeps, is whitespace |
| Text.LStrip | src/core/utils.py:132 | the result is a suffix of the input that does not start with whitespace; only whitespace was removed |
| Text.RStrip | src/core/utils.py:132 | the result is a prefix of the input that does not end with whitespace; only whitespace was removed |
| Text.PyPrefix | src/core/utils.py:295 | `text[:n]` is a prefix of `text`; its length follows Python's rules for non-negative and negative `n` |
| Text.IntToString | src/core/utils.py:145 | `str(n)` for `n >= 0` is a decimal numeral without leading zeros whose value is `n`; for `n < 0` it is `-` followed by such a numeral for `-n` |
| Text.NatToString | src/core/utils.py:145 | the decimal digits of a natural number: non-empty, all digits, no leading zero, and reading them back gives the number |
| Text.MissingCharNotContained | src/interfaces/chatbot/conversation.py:100 | a substring test fails when one character of the pattern does not occur in the text |
| PyValues.Get | src/core/utils.py:507 | a dict lookup finds nothing exactly when the key is absent |
| PyValues.Set | src/core/utils.py:313-315 | `d[k] = v` makes `k` map to `v` and leaves every other key alone; a new key goes at the end of the insertion order, and an existing key keeps its place |
| PyValues.FromItems | src/core/utils.py:532 | `dict(items)` has unique keys and exactly the keys of `items` |
| PyValues.FromItemsLaws | src/core/utils.py:532 | in `dict(items)` each key maps to the value of its last item, and the keys come in order of first occurrence |
| PyValues.FromItemsOfDict | src/core/utils.py:532 | `dict(items)` of a dict's own items gives back the same dict |
| PyValues.SetKeepsUnique | src/core/utils.py:313-315 | assigning a key keeps a dict's keys unique |
| PyValues.OrEmptyDict | src/core/exceptions.py:21 | `details or {}` keeps truthy details and replaces falsy ones with `{}` |
| Results.NewResult | src/core/utils.py:30-44 | the constructor stores value, error and success unchanged; falsy details become `{}` |
| Results.Ok | src/core/utils.py:61-64 | `Result.ok(v)` is ok, truthy and not an error; unwrap, expect and unwrap_or all return `v` |
| Results.Fail | src/core/utils.py:66-69 | `Result.fail(e)` is an error and falsy; unwrap raises `ValueError("Called unwrap on error Result: e")`; expect raises `ValueError(message + ": " + e)`; unwrap_or returns the default |
| Results.Result.IsErr | src/core/utils.py:75-77 | `is_err` is the negation of `is_ok` |
| Results.Result.AsBool | src/core/utils.py:117-119 | `bool(result)` is `is_ok` |
| Results.Result.Unwrap | src/core/utils.py:79-88 | unwrap returns the value exactly on success and otherwise raises the `ValueError` that names the error |
| Results.Result.UnwrapOr | src/core/utils.py:90-92 | unwrap_or returns the value on success and the default otherwise |
| Results.Result.Expect | src/core/utils.py:94-106 | expect returns the value exactly on success and otherwise raises `ValueError` with the caller's message and the error |
| Results.ResultRepr | src/core/utils.py:112-115 | repr is `Result.ok(<value>)` on success and `Result.fail(<error>)` otherwise |
| Guards.Rejection | src/core/utils.py:133-137 | every Validator failure is a well-formed `ValidationError` that carries the message, the field, the offending value and the details |
| Guards.RejectionNamesField | src/core/exceptions.py:115-119 | the `to_dict` of a Validator failure names its type `ValidationError` and holds its message and field; the error is a `ThalosError` |
| Guards.NotEmpty | src/core/utils.py:129-138 | `not_empty` succeeds exactly when some character is not whitespace; it returns the stripped value, which is non-empty and has no whitespace at either end; otherwise it raises "<field> cannot be empty" |
| Guards.NotEmptyIdempotent | src/core/utils.py:129-138 | `not_empty` applied to its own result returns the same result |
| Guards.MinLength | src/core/utils.py:140-150 | `min_length` succeeds exactly when `len(value) >= min_len` and returns the value unchanged; otherwise it raises with `min_length` and `actual_length` in the details |
| Guards.MaxLength | src/core/utils.py:152-162 | `max_length` succeeds exactly when `len(value) <= max_len`; otherwise it raises with `max_length` and `actual_length` in the details |
| Guards.LengthWindow | src/core/utils.py:140-162 | both length checks pass exactly when `lo <= len(value) <= hi`; when `lo > hi`, one of them fails |
| Guards.IsAlpha | src/core/utils.py:176-185 | `is_alpha` succeeds exactly on non-empty all-letter strings |
| Guards.IsAlphanumeric | src/core/utils.py:187-196 | `is_alphanumeric` succeeds exactly on non-empty strings of letters and digits |
| Guards.AlphaWithinAlphanumeric | src/core/utils.py:176-196 | every string that passes `is_alpha` passes `is_alphanumeric`; a string with a digit fails `is_alpha` |
| Guards.InRange | src/core/utils.py:198-209 | `in_range` succeeds exactly when `min <= value <= max`; otherwise it raises with `min` and `max` in the details |
| Guards.IsPositive | src/core/utils.py:211-220 | `is_positive` succeeds exactly when `value > 0` |
| Guards.PositiveIsRangeFromOne | src/core/utils.py:198-220 | for integers up to `hi`, `is_positive` agrees with `in_range(value, 1, hi)` |
| Guards.OneOf | src/core/utils.py:222-232 | `one_of` succeeds exactly when some allowed value is Python-equal to the value (so `True` is accepted where `1` is allowed); otherwise it raises, naming the allowed list |
| Guards.OneOfExamples | src/core/utils.py:222-232 | nothing is one of `[]`; `True` is one of `[1]`; `"b"` is one of `["a", "b"]` |
| Identifiers.StarDollarIff | src/core/utils.py:411-412 | `re.match` with a `[...]*$` tail accepts an all-allowed rest, or one followed by a single final newline |
| Identifiers.StarEndIff | src/core/utils.py:411-412 | a `[...]*` tail that must reach the end of the string accepts exactly all-allowed rests |
| Identifiers.MatchIff | src/core/utils.py:411-412 | a validator pattern matches exactly the well-shaped strings and the well-shaped strings followed by one newline |
| Identifiers.ValidateKey | src/core/utils.py:388-412 | `validate_key` is true exactly for strings of the form letter-or-underscore then letters, digits, `_` or `-`, optionally followed by one trailing newline |
| Identifiers.ValidateClassName | src/core/utils.py:415-439 | `validate_class_name` is true exactly for an upper-case letter followed by letters and digits, optionally with one trailing newline |
| Identifiers.ValidateFunctionName | src/core/utils.py:442-466 | `validate_function_name` is true exactly for a lower-case letter or `_` followed by lower-case letters, digits and `_`, optionally with one trailing newline |
| Identifiers.ValidateIdentifier | src/core/utils.py:469-488 | `validate_identifier` is true exactly for strings that are (ASCII) Python identifiers; these are non-empty and contain no newline |
| Identifiers.ValidKey | src/core/utils.py:388-412 | the corrected key check accepts exactly the well-shaped strings |
| Identifiers.ValidClassName | src/core/utils.py:415-439 | the corrected class-name check accepts exactly the well-shaped strings |
| Identifiers.ValidFunctionName | src/core/utils.py:442-466 | the corrected function-name check accepts exactly the well-shaped strings |
| Identifiers.ValidIsWrittenWithoutNewline | src/core/utils.py:388-466 | each corrected check is the written check restricted to strings that do not end in a newline |
| Identifiers.TrailingNewlineAccepted | src/core/utils.py:411-412 | the written checks accept `"abc\n"` and `"Abc\n"`; the corrected checks and `validate_identifier` reject them |
| Identifiers.FunctionNameIsKey | src/core/utils.py:388-466 | every valid function name is a valid key |
| Identifiers.IdentifierIsKey | src/core/utils.py:388-488 | every valid identifier is a valid key |
| Identifiers.NamesAreIdentifiers | src/core/utils.py:415-488 | every corrected class or function name is an identifier; `"Abc\n"` passes `validate_class_name` but is not an identifier |
| Identifiers.ClassAndFunctionDisjoint | src/core/utils.py:415-466 | no string is both a class name and a function name |
| Identifiers.KeyExamplesAccepted | tests/unit/test_utils.py:24-89 | the keys the unit tests accept are accepted |
| Identifiers.KeyExamplesRejected | tests/unit/test_utils.py:24-89 | the keys the unit tests reject are rejected, as is `None` |
| Identifiers.ClassNameExamplesAccepted | tests/unit/test_utils.py:24-89 | the class names the unit tests accept are accepted |
| Identifiers.ClassNameExamplesRejected | tests/unit/test_utils.py:24-89 | the class names the unit tests reject are rejected |
| Identifiers.FunctionNameExamplesAccepted | tests/unit/test_utils.py:24-89 | the function names the unit tests accept are accepted |
| Identifiers.FunctionNameExamplesRejected | tests/unit/test_utils.py:24-89 | the function names the unit tests reject are rejected |
| Identifiers.IdentifierExamplesAccepted | tests/unit/test_utils.py:24-89 | the identifiers the unit tests accept are accepted |
| Identifiers.IdentifierExamplesRejected | tests/unit/test_utils.py:24-89 | the identifiers the unit tests reject are rejected |
| Lists.TruncateString | src/core/utils.py:281-295 | text that fits is returned unchanged; longer text becomes `text[:max_length - len(suffix)] + suffix` with Python's negative-index slicing |
| Lists.TruncateFits | src/core/utils.py:281-295 | when the suffix fits, the result has length exactly `max_length`, ends in the suffix and starts with a prefix of the text |
| Lists.TruncateOvershoots | src/core/utils.py:281-295 | when `max_length < len(suffix)`, the result is longer than `max_length` |
| Lists.TruncateOvershootExample | src/core/utils.py:295 | `truncate_string("abcdef", 2, "...")` is `"abcde..."`, 8 characters long |
| Lists.TruncateWithin | src/core/utils.py:281-295 | the corrected truncation never exceeds `max_length`, ends in the suffix when the suffix fits, and is a prefix of the text when it does not |
| Lists.TruncateWithinAgrees | src/core/utils.py:281-295 | whenever the suffix fits, the corrected truncation equals the written one |
| Lists.TruncateExamples | tests/unit/test_utils.py:133-146 | the long test sentence becomes 20 characters ending in `...`; a short string is unchanged |
| Lists.Clamp | src/core/utils.py:372-385 | with `lo <= hi` the result lies in `[lo, hi]`, is the value when that is in range, and otherwise the nearer bound; with `lo > hi` it is `lo` |
| Lists.ClampIdempotent | src/core/utils.py:372-385 | clamping twice is clamping once, and a clamped value passes `in_range` |
| Lists.EnsureList | src/core/utils.py:336-350 | `None` becomes `[]`, a list is returned as it is, and any other value is wrapped in a one-element list |
| Lists.EnsureListIdempotent | src/core/utils.py:336-350 | `ensure_list(ensure_list(v)) == ensure_list(v)` |
| Lists.ChunkList | src/core/utils.py:594-605 | a chunk size of 0 raises the `ValueError` of `range()`; a negative size gives `[]` |
| Lists.ChunksConcat | src/core/utils.py:604-605 | concatenating the chunks from `start` gives back `items[start:]` |
| Lists.ChunksSized | src/core/utils.py:604-605 | every chunk but the last has exactly `size` items; the last has between 1 and `size` |
| Lists.ChunksCount | src/core/utils.py:604-605 | there are `ceil((len(items) - start) / size)` chunks |
| Lists.ChunkListLaws | src/core/utils.py:594-605 | for a positive size, `chunk_list` succeeds, its chunks concatenate back to the input, all chunks but the last are full, and there are `ceil(len/size)` of them |
| Lists.ChunkExamples | tests/unit/test_utils.py:186-194 | `[1..7]` in chunks of 3 is `[[1,2,3],[4,5,6],[7]]`; in chunks of 2 there are 4 |
| Lists.FirstOrDefault | src/core/utils.py:550-572 | with no predicate, returns the first item or the default; with a predicate, returns the first item satisfying it or, when none does, the default |
| Lists.FirstOrDefaultExamples | tests/unit/test_utils.py:159-170 | the unit test's five calls give `1`, `None`, `0` (the empty list with `default=0`), `4` and `None` |
| Lists.Deduplicate | src/core/utils.py:575-591 | the loop computes `Dedup(items)` |
| Lists.DedupLaws | src/core/utils.py:575-591 | the result has no duplicates and holds exactly the input's elements, in order of first occurrence |
| Lists.DedupShorter | src/core/utils.py:575-591 | deduplication never lengthens a list |
| Lists.DedupExample | tests/unit/test_utils.py:175-181 | `[1,2,2,3,1,4,3,5]` deduplicates to `[1,2,3,4,5]` |
| Lists.FirstIndex | src/core/utils.py:587-590 | the first position of `x` holds `x` and no earlier position does |
| NestedDicts.DeepMerge | src/core/utils.py:298-317 | the in-place loop over a copy of `base` computes `Merged(base, override)` |
| NestedDicts.MergedKeys | src/core/utils.py:298-317 | the merged dict has exactly the keys of `base` and `override` |
| NestedDicts.MergedKeepsBase | src/core/utils.py:298-317 | a key absent from `override` keeps its `base` value |
| NestedDicts.MergedTakesOverride | src/core/utils.py:298-317 | a key of `override` gets the override value, merged recursively with the base value when both are dicts |
| NestedDicts.MergeRule | src/core/utils.py:311-315 | the three cases of the loop body: a non-dict override wins; a dict over a dict merges recursively; a dict over a missing or non-dict value wins |
| NestedDicts.MergedUnique | src/core/utils.py:298-317 | merging keeps keys unique |
| NestedDicts.MergeIdentities | src/core/utils.py:298-317 | merging with `{}` returns `base`; merging into `{}` gives the override's values |
| NestedDicts.SafeGet | src/core/utils.py:491-510 | the loop computes `Walk(data, keys, default)` |
| NestedDicts.WalkIsReach | src/core/utils.py:491-510 | `safe_get` returns the value reached by following the keys through dicts, and the default when a step leaves the dicts, misses a key or reaches `None` |
| NestedDicts.ReachFirst | src/core/utils.py:504-509 | one step of the walk: descend when the current value is a dict holding a non-`None` value at the key; otherwise the path fails |
| NestedDicts.SafeGetNeverNoneMidway | src/core/utils.py:491-510 | a path that is reached never yields `None` |
| NestedDicts.SafeGetExamples | tests/unit/test_utils.py:92-108 | the unit test's nested lookups, missing keys and default |
| NestedDicts.JoinKey | src/core/utils.py:527 | a key is prefixed with `parent + sep` exactly when the parent is non-empty |
| NestedDicts.FlattenDict | src/core/utils.py:513-532 | the loop computes `Flatten(nested, parent, sep)` |
| NestedDicts.FlattenShape | src/core/utils.py:513-532 | a flattened dict has unique keys and no dict values, and every key starts with `parent + sep` when the parent is non-empty |
| NestedDicts.FlatItemsShape | src/core/utils.py:525-531 | the collected items hold no dict values and carry the parent prefix |
| NestedDicts.EntryItemsShape | src/core/utils.py:525-531 | the items of one entry hold no dict values and carry the parent prefix |
| NestedDicts.FlattenPlacesLeaf | src/core/utils.py:513-532 | every leaf of the nested dict appears in the flattened dict under its path joined with `sep`; when no other leaf has the same joined key, that key maps to the leaf's value |
| NestedDicts.FlattenKeysAreLeafPaths | src/core/utils.py:513-532 | every key of the flattened dict is the joined path of some leaf |
| NestedDicts.LeafListed | src/core/utils.py:525-531 | every leaf yields an item keyed by its joined path |
| NestedDicts.EntryListed | src/core/utils.py:525-531 | every leaf below one entry yields an item keyed by its joined path |
| NestedDicts.ListedIsLeaf | src/core/utils.py:525-531 | every collected item is a leaf under the path its key joins |
| NestedDicts.EntryLeaf | src/core/utils.py:525-531 | every item collected from one entry is a leaf below that entry |
| NestedDicts.FlattenCollisionExample | src/core/utils.py:525-532 | `{"a.b":1,"a":{"b":2}}` flattens to a dict where `a.b` maps to `2`: the later leaf wins |
| NestedDicts.FlattenFlatIsIdentity | src/core/utils.py:513-532 | flattening a dict without dict values returns it unchanged |
| NestedDicts.FlatItemsOfFlat | src/core/utils.py:525-531 | the items of a dict without dict values are its own entries |
| NestedDicts.FlattenExample | tests/unit/test_utils.py:113-128 | `{"a":1,"b":{"c":2,"d":{"e":3}}}` flattens to `{"a":1,"b.c":2,"b.d.e":3}` |
| Exceptions.EveryErrorIsThalos | src/core/exceptions.py:15-225 | every class of the taxonomy is a subclass of `ThalosError` |
| Exceptions.CisFamily | src/core/exceptions.py:43-69 | the `CISError` subclasses are exactly CIS, Boot, Shutdown, Subsystem and CISNotBooted |
| Exceptions.CodeGenFamily | src/core/exceptions.py:147-154 | the `CodeGenError` subclasses are exactly CodeGen and Template |
| Exceptions.SecurityFamily | src/core/exceptions.py:207-225 | the `SecurityError` subclasses are exactly Security, Authentication, Authorization and InputValidation |
| Exceptions.RootAndInputValidation | src/core/exceptions.py:88-225 | `ThalosError` is a subclass of nothing else; `InputValidationError` is not a `ValidationError` |
| Exceptions.NewError | src/core/exceptions.py:18-21 | the base constructor stores the message and replaces falsy details with `{}` |
| Exceptions.NewCISNotBooted | src/core/exceptions.py:66-69 | the message names the operation when there is one, and is "CIS not booted" otherwise |
| Exceptions.NewKeyNotFound | src/core/exceptions.py:72-77 | the message is "Key not found: <key>" and the key is kept |
| Exceptions.NewKeyExists | src/core/exceptions.py:80-85 | the message is "Key already exists: <key>" and the key is kept |
| Exceptions.NewValidation | src/core/exceptions.py:91-113 | `ValidationError(field, reason)` without keywords gives message "field: reason"; with one argument it reads field, reason, value and details from the keywords; any other arity raises `TypeError` |
| Exceptions.KwArg | src/core/exceptions.py:105-108 | returns the keyword argument when it was passed and the default otherwise |
| Exceptions.NewStateError | src/core/exceptions.py:125-128 | stores the message and both states; falsy details become `{}` |
| Exceptions.NewLifecycleError | src/core/exceptions.py:165-168 | stores the message, phase and subsystem; falsy details become `{}` |
| Exceptions.ToStr | src/core/exceptions.py:23-25 | `str(error)` is the plain message |
| Exceptions.RemoveAllKeepsPrefix | src/core/exceptions.py:29 | `replace('Error', '')` leaves a prefix without `E` untouched |
| Exceptions.RemoveAllLeavesStem | src/core/exceptions.py:29 | removing `Error` from a class name leaves its stem, `KeyExists` included |
| Exceptions.ErrorCodeIsStem | src/core/exceptions.py:29 | the error code is the upper-cased stem of the class name |
| Exceptions.FormattedMessageShape | src/core/exceptions.py:27-32 | `formatted_message` is `[<CODE>_ERROR] <message>`, which always differs from `str(error)` |
| Exceptions.BaseCode | src/core/exceptions.py:30-31 | a base `ThalosError` formats as `[THALOS_ERROR] <message>` |
| Exceptions.CisCode | src/core/exceptions.py:27-32 | a `CISError` formats as `[CIS_ERROR] <message>` |
| Exceptions.ToDict | src/core/exceptions.py:34-40 | `to_dict` has unique keys; it has exactly the three base keys unless the class is Validation, State or Lifecycle |
| Exceptions.ToDictCommonKeys | src/core/exceptions.py:34-40 | `type` is the class name, `message` the message and `details` the details |
| Exceptions.ToDictSubclassKeys | src/core/exceptions.py:115-174 | Validation adds `field` and `str(value)` (or `None`); State adds both states; Lifecycle adds phase and subsystem |
| Exceptions.KeyExistsSaysSo | src/core/exceptions.py:80-85 | the lower-cased `str` of every `KeyExistsError` says "already exists" |
| Exceptions.KeyExistsExample | tests/unit/test_utils.py:281-286 | `KeyExistsError("mykey")` keeps its key and says "already exists" |
| Exceptions.KeyNotFoundExample | tests/unit/test_utils.py:288-289 | `KeyNotFoundError("missing")` keeps its key and says "Key not found: missing" |
| Conversation.ParseState | src/interfaces/chatbot/conversation.py:31 | a recognised state name parses to the state of that name |
| Conversation.StateNameRoundTrip | src/interfaces/chatbot/conversation.py:31-184 | each of the four states prints to a name that parses back to it |
| Conversation.RouteIsFirstMatch | src/interfaces/chatbot/conversation.py:95-111 | the chosen handler's keywords occur in the lower-cased message, and those of every earlier branch do not (the general query takes whatever is left) |
| Conversation.SelectsUnfold | src/interfaces/chatbot/conversation.py:100-109 | each branch's test is the substring test on the lower-cased message for its listed keywords |
| Conversation.RouteIgnoresCase | src/interfaces/chatbot/conversation.py:97 | messages that agree after lower-casing go to the same handler |
| Conversation.RouteHelloExample | verify_deployment.py:136 | "Hello" is a greeting |
| Conversation.RouteStatusExample | src/interfaces/chatbot/conversation.py:100-102 | a status question is routed to status, even when it also mentions memory |
| Conversation.RouteMemoryExample | src/interfaces/chatbot/conversation.py:102-103 | "Memory usage?" is a memory query |
| Conversation.RouteGenerateExample | src/interfaces/chatbot/conversation.py:104-105 | "Generate a function" is a code-generation request |
| Conversation.RouteThisExample | src/interfaces/chatbot/conversation.py:106-107 | "what is this" is taken as a greeting, because the keyword `hi` is a substring test and occurs inside "this" |
| Conversation.RouteHelpExample | src/interfaces/chatbot/conversation.py:108-109 | "HELP" is a help request |
| Conversation.RouteGeneralExample | src/interfaces/chatbot/conversation.py:110-111 | "why?" falls through to the general handler |
| Conversation.ReplyIsNotEmptyInputError | src/interfaces/chatbot/conversation.py:71-111 | no handler reply equals the empty-input error, so the two outcomes of `process_input` are told apart by the reply |
| Conversation.CodeGenPrefersClass | src/interfaces/chatbot/conversation.py:127-141 | with code generation available, a message mentioning "class" yields a generated class, else one mentioning "function" yields a function, else the guidance text |
| Conversation.ReplyUsesHistoryOnlyForGeneral | src/interfaces/chatbot/conversation.py:113-163 | only the general handler's reply depends on the history length |
| Conversation.GeneralReplyEchoes | src/interfaces/chatbot/conversation.py:158-163 | the general reply quotes the message at offset 17, after `Query received: '` |
| Conversation.HelloIsGreeted | verify_deployment.py:136 | "Hello" is not blank, is its own strip, and is answered with the greeting text |
| Conversation.ExchangesAppend | src/interfaces/chatbot/conversation.py:74-93 | appending a stripped user turn and an assistant turn keeps the history a sequence of exchanges |
| Conversation.ExchangesAlternate | src/interfaces/chatbot/conversation.py:74-93 | a history of exchanges has even length; its turns alternate user, assistant, starting with user; every user turn is stripped |
| Conversation.ConversationEngine.constructor | src/interfaces/chatbot/conversation.py:26-31 | a new engine keeps its CIS, has an empty history, is not initialized and is in state `created` |
| Conversation.ConversationEngine.Initialize | src/interfaces/chatbot/conversation.py:33-44 | an initialized engine reports success and changes nothing; otherwise it fails without change unless the CIS is booted, in which case it becomes initialized |
| Conversation.ConversationEngine.Validate | src/interfaces/chatbot/conversation.py:46-59 | succeeds exactly when the engine is initialized and both subsystems are present; only success moves the state to `validated` |
| Conversation.ConversationEngine.ProcessInput | src/interfaces/chatbot/conversation.py:61-93 | blank input returns the empty-input error and leaves the history alone; otherwise the reply is the routed handler's answer to the stripped message, and exactly the user turn and the assistant turn are appended |
| Conversation.ConversationEngine.Record | src/interfaces/chatbot/conversation.py:76-91 | appends exactly the user turn, then the assistant turn, keeping the history a sequence of exchanges |
| Conversation.ConversationEngine.Reconcile | src/interfaces/chatbot/conversation.py:165-170 | always succeeds and leaves a valid engine valid |
| Conversation.ConversationEngine.Checkpoint | src/interfaces/chatbot/conversation.py:172-179 | the snapshot has version "1.0", the current state's name, the initialized flag and the whole history |
| Conversation.ConversationEngine.Terminate | src/interfaces/chatbot/conversation.py:181-185 | empties the history and moves to `terminated`; the initialized flag is kept |
| Conversation.Lifecycle | src/interfaces/chatbot/conversation.py:33-185 | with a booted CIS and both subsystems, initialize then validate yields a `validated` checkpoint, and terminate a `terminated` one with an empty history; a later initialize reports success but the state stays `terminated` |

## Left out

- `generate_id`, `sanitize_filename`, `format_timestamp`, `format_dict_for_display`: they depend on the clock, a hash function, Python's `re.sub` and `json.dumps`, none of which this model represents.
- `Validator.matches_pattern`: it takes an arbitrary regular expression, and general regex matching is not modelled. The fixed patterns of the three regular-expression name validators (`validate_key`, `validate_class_name`, `validate_function_name`) are modelled exactly; `validate_identifier` uses `str.isidentifier` on ASCII.
- `safe_divide`: it is defined on floats, which are not modelled.
- Numbers are integers only. `in_range`, `is_positive` and `clamp` are modelled on `int`.
- Character classes (`isalpha`, `isupper`, `islower`, `isdigit`, `isidentifier`, `lower`, `upper`) are ASCII only. `isspace` and `strip` cover Python's full whitespace set.
- `repr` of characters above `\xff` is not modelled.
- Dict keys are strings only.
- Exception messages are strings. A `ValidationError` built from a non-string single argument is modelled through `str` of that argument.
- Lists.Deduplicate: the method keeps its `seen` set as a Dafny `set<T>`, and hashing is replaced by Dafny equality, so `True`/`1` collapsing is not captured. The specification `Dedup` uses sequence membership in place of the set.
- Lists.Deduplicate: items are of any Dafny type with equality; Python raises `TypeError` for unhashable items such as lists and dicts, and that error path is not modelled.
- Lists.FirstOrDefault: the predicate is a total function returning `bool`; a Python predicate that raises, or returns a non-bool value tested for truthiness, is not modelled.
- Conversation: the CIS object, the memory module and the code generator are not part of this model. They are read through a `CisView` value: the booted flag, whether each subsystem is present and truthy, the status strings, the entry count and the generated code text. A `CisView` is a snapshot, changed only by assigning the engine's `cis` field; Python reads the live CIS, whose booted flag, subsystems and entry count may change between calls.
- Conversation.ConversationEngine.ProcessInput: the CIS calls are total here. The model computes the reply before recording both turns, so a handler that raises after the user turn was appended (which leaves only that turn behind) is not modelled.
- The history timestamps (`datetime.utcnow()`) are dropped from the turns.
- Conversation.ConversationEngine.Reconcile: the history field is always a sequence in the model, so reconcile's non-list repair branch cannot occur.
- `run_interactive`, `detect_intent`, `src/core/config.py` and `src/core/logging.py` are not part of this model.
- The general handler's reply says "N exchanges", but N is the number of turns, including the user turn just appended. The model reproduces the number as written.

## Findings

| source | as written | input that shows it | evidently intended | confidence | as-written member | corrected member |
|---|---|---|---|---|---|---|
| src/core/utils.py:411-412 | `re.match(r'^...*$', s)` lets `$` match before one trailing newline | `validate_key("abc\n")`, `validate_class_name("Abc\n")` and `validate_function_name("abc\n")` return True | reject any string that is not entirely well-shaped (as `re.fullmatch` would) | high, not executed | Identifiers.TrailingNewlineAccepted | Identifiers.ValidIsWrittenWithoutNewline |
| src/core/utils.py:295 | `text[:max_length - len(suffix)] + suffix` with `max_length < len(suffix)` slices from the end | `truncate_string("abcdef", 2, "...")` returns `"abcde..."` (8 characters) | the result is at most `max_length` characters long | high, not executed | Lists.TruncateOvershootExample | Lists.TruncateWithinAgrees |
