# FrostalCMS core, modelled in Dafny

This project models the request-handling and validation core of FrostalCMS,
a small PHP content-management framework. It also proves properties of that
model. The model covers:

- **Validation engine** (`Validator` and `RulesTrait`).
  - `parseRules` normalises a rule specification into field → rule →
    parameter list.
  - `validateData` runs every rule of every field in order. A passing rule
    copies the field's value into the result. A failing rule appends a
    message made with `sprintf` to the instance's `errors`.
  - The rule predicates are modelled over a PHP value datatype (`PhpValues`).
- **Middleware queue** (`RequestHandler`). Entries are piped with a priority
  and sorted when the queue runs. A cursor then moves one entry per `handle`
  call. `LogicException` is raised when the cursor runs past the end.
- **`TrailingSlash` middleware**. Every path has one canonical spelling. Any
  other spelling gets a 301 redirect (section 6.4.2 of RFC 7231).
- **`ErrorHandler` format selection**. The first media type of the `Accept`
  line that is listed in a fixed table picks the error renderer. The status
  of the error response comes from the exception. As written, the JSON and
  XML renderers call a method `HttpException` lacks, so with them most
  errors escape `process` instead of becoming a response (see Findings).
- **`HttpException`**. A table maps status codes to reason phrases, and the
  constructor checks that the code is in the table.
- **`XmlHandler`**. An error is rendered as an XML element tree. Keys are
  sanitised into element names, nested arrays become nested elements, and `&`
  is escaped.
- **`Application`**. The configuration is the defaults merged with the
  caller's overrides. The constructor sets up the queue. On each request,
  the first path segment decides whether the panel or the page middlewares
  are added.

Code that updates state in place is modelled as classes with `modifies`
clauses:

- `RequestHandler`;
- `Validator`, with its static message table as a shared `MessageStore`;
- `Application`, with its static configuration as a shared `ConfigStore`;
- `XmlHandler`.

Each method is proved equal to a specification function over values, and
the properties are lemmas about those functions. Pure code is modelled as
functions.

PHP arrays are ordered lists of `(key, value)` pairs:

- assignment replaces the value in place or appends a new entry;
- `array_merge` renumbers integer keys and lets later string keys win;
- canonical integer strings become integer keys;
- `range(0, -1)` is `[0, -1]`, so an empty array never counts as
  positional.

All files declare `strict_types`, so a call from one of them to a typed
parameter raises `TypeError` on a value of the wrong type; calling a rule
with too few arguments raises `ArgumentCountError`. The rule methods are
entered through `call_user_func_array`, an internal function, so their
`int` and `string` parameters are typed coercively: `"3"` and `true` reach
an `int` parameter as 3 and 1 (`Rules.Coerce`).

What the validator does, as its code stands:

- Nested `array` rules run `validateData` again, and a failure records its
  message under the nested field's own key (src/Validation/Validator.php:73).
  Nothing combines it with the outer field's name.
- A field with one passing and one failing rule lands both in the validated
  data and in `errors`, because each rule's outcome is recorded on its own
  (src/Validation/Validator.php:71-73;
  `ValidationExamples.MixedFieldLandsInBothMaps`).
- `validate` raises nothing for failed rules. The branch meant to raise on
  errors is empty (src/Validation/Validator.php:43-45).
- `errors` starts out null (src/Validation/Validator.php:22) and is only ever
  appended to (src/Validation/Validator.php:73). Failures therefore accumulate
  across calls on one validator (`ValidationProperties.FieldsExtendErrors`).

The validation engine runs the corrected `array` rule and the corrected rule
lookup of the two Findings below; see "## Left out" for what that changes.

## Model

Strings are byte strings: each `char` of the model stands for one byte, as
PHP's `strlen`, `trim`, `str_replace` and byte-mode `preg_replace` see it.

| member | source | states |
|---|---|---|
| PhpValues.Lookup | src/Application.php:85 | `$a[$k]` is found exactly when the key is set, and then holds the stored entry |
| PhpValues.Put | src/Validation/Validator.php:72 | after `$a[$k] = $v` the key reads `$v` and every other key reads as before |
| PhpValues.PutKeys | src/Validation/Validator.php:101 | assignment keeps a set key in place and appends a new key last |
| PhpValues.PutKeepsKeysUnique | src/Validation/Validator.php:101 | assignment never duplicates a key |
| PhpValues.PositionalIffSequentialKeys | src/Validation/Validator.php:98 | `array_keys($a) === range(0, count($a) - 1)` holds exactly for a non-empty array keyed 0..n-1, so `[]` never passes |
| PhpValues.MergeAllStrKey | src/Application.php:40-56 | merging entries into an array changes a string key only when the merged entries set it |
| PhpValues.ArrayMergeOverrides | src/Application.php:40-56 | in `array_merge($a, $b)` a string key takes `$b`'s value when `$b` sets it, and `$a`'s otherwise |
| PhpValues.TrimRight | src/Http/Middleware/TrailingSlash.php:54 | `rtrim` returns a prefix that does not end in a stripped character, and only stripped characters were removed |
| PhpValues.TrimLeft | src/Application.php:105 | `ltrim` returns a string that does not start with a stripped character, and only stripped characters were removed |
| PhpValues.TrimLeftIsSuffix | src/Application.php:105 | what `ltrim` keeps is a suffix of its input |
| PhpValues.TrimLeftPadded | src/Application.php:105 | `ltrim` skips a leading run of its characters and goes on with what follows |
| PhpValues.TrimUnpadded | src/Http/Middleware/ErrorHandler.php:110 | `trim` removes whitespace in front of a string whose ends are not whitespace |
| PhpValues.TrimKeeps | src/Http/Middleware/ErrorHandler.php:110 | `trim` leaves a string alone when neither end is whitespace |
| PhpValues.Explode | src/Http/Middleware/ErrorHandler.php:108 | `explode` yields at least one piece, and no piece contains the separator |
| PhpValues.ImplodeExplode | src/Http/Middleware/ErrorHandler.php:108 | joining the pieces with the separator gives the string back |
| PhpValues.ExplodeImplode | src/Http/Middleware/ErrorHandler.php:108 | splitting joined pieces that contain no separator gives the pieces back |
| PhpValues.ExplodeAfterPiece | src/Application.php:105 | a piece without the separator, then the separator, is the first piece |
| PhpValues.ExplodeWithoutSeparator | src/Application.php:105 | a string without the separator is a single piece |
| PhpValues.IntStringRoundTrip | src/Validation/RulesTrait.php:341 | an integer printed in decimal is an integer string that `(int)` reads back as the same integer |
| PhpValues.StringKey | src/Validation/Validator.php:95 | a string used as a key stays a string key unless it is a canonical integer, which becomes that integer key |
| PhpValues.StringKeyOfInt | src/Validation/Validator.php:95 | every integer key is reached through its decimal string |
| Rules.FindRule | src/Validation/Validator.php:67 | a rule is found only when its method name equals `"validate" . ucfirst($rule)` ignoring case |
| Rules.FindRuleNoneMeansNoRule | src/Validation/Validator.php:67-69 | a name is rejected only when no rule of the catalogue has a method of that name |
| RuleLookup.FindRequired | src/Validation/Validator.php:67 | "required" dispatches to `validateRequired` |
| RuleLookup.FindEquals | src/Validation/Validator.php:67 | "equals" dispatches to `validateEquals` |
| RuleLookup.UnknownNameIsNotFound | src/Validation/Validator.php:67-69 | "unknownRule" matches no method, so it raises RuleNotFoundException |
| Rules.ValidateRequired | src/Validation/RulesTrait.php:15-24 | fails exactly for null, false, 0, `[]`, and strings that trim to "" or "0" |
| Rules.ValidateEquals | src/Validation/RulesTrait.php:33-36 | passes exactly for identical values; a string never equals a non-string, an int never equals a non-int |
| Rules.ValidateDifferent | src/Validation/RulesTrait.php:45-48 | the exact negation of `validateEquals` |
| Rules.TrimmedLength | src/Validation/RulesTrait.php:105-158 | strings, and only strings, have a trimmed length |
| Rules.ValidateLength | src/Validation/RulesTrait.php:105-111 | false for a non-string; for a string, true iff the trimmed length equals the parameter |
| Rules.ValidateMinLength | src/Validation/RulesTrait.php:137-143 | false for a non-string; for a string, true iff the trimmed length is at least the parameter |
| Rules.ValidateMaxLength | src/Validation/RulesTrait.php:152-158 | false for a non-string; for a string, true iff the trimmed length is at most the parameter |
| Rules.ValidateBetweenLength | src/Validation/RulesTrait.php:121-128 | exactly `minLength(min)` and `maxLength(max)` together |
| Rules.GetValueSize | src/Validation/RulesTrait.php:338-346 | a size exists exactly for numeric values and arrays: an int's own value, an array's element count; "" , null and booleans have none |
| Rules.SizeOfIntString | src/Validation/RulesTrait.php:340-341 | the size of a decimal string is the integer it spells |
| Rules.ValidateSize | src/Validation/RulesTrait.php:167-170 | true iff the value has a size and it equals the parameter |
| Rules.ValidateMin | src/Validation/RulesTrait.php:196-203 | true iff the value has a size of at least the parameter |
| Rules.ValidateMax | src/Validation/RulesTrait.php:212-219 | true iff the value has a size of at most the parameter; "" never passes |
| Rules.ValidateBetween | src/Validation/RulesTrait.php:180-187 | exactly `min(min)` and `max(max)` together |
| Rules.ValidateInArray | src/Validation/RulesTrait.php:228-239 | the early-return search is true iff the value is an array holding every needle; zero needles on an array pass |
| Rules.ValidateNotInArray | src/Validation/RulesTrait.php:248-259 | the early-return search is true iff the value is an array holding none of the needles |
| Rules.MembershipRulesOnOneNeedle | src/Validation/RulesTrait.php:228-259 | on an array with one needle the two membership rules are complements; on a non-array both fail |
| Rules.Coerce | src/Validation/RulesTrait.php:105-219 | an `int` parameter takes integers, numeric strings (as the integer they spell) and booleans (as 1 or 0); a `string` parameter takes strings, integers and booleans as their printed form; null and arrays are refused; whatever is accepted has the declared type |
| Rules.CoerceKeepsFitting | src/Validation/RulesTrait.php:105-219 | a value already of the declared type is passed on unchanged |
| Rules.CoerceIntThroughString | src/Validation/RulesTrait.php:290 | an integer given for a `string` parameter becomes its decimal text, which an `int` parameter reads back as the same integer |
| Rules.CoerceArgs | src/Validation/Validator.php:71 | a call goes through iff enough arguments are given and each declared one can be coerced; the rule then receives the coerced arguments, and the undeclared ones as given; otherwise TypeError or ArgumentCountError |
| Rules.LimitIsCoerced | src/Validation/RulesTrait.php:137-143 | `minLength` with limit `"3"` acts as with 3, with `true` as with 1; `"abc"` or null as the limit raise TypeError |
| Rules.ArrayRuleAsWritten | src/Validation/RulesTrait.php:90-96 | with non-empty params and a non-array value, the nested `validateData` call throws TypeError |
| Rules.ArrayRule | src/Validation/RulesTrait.php:90-96 | the corrected rule fails a non-array value; an array gives `is_array` or a nested validation, exactly as written |
| Rules.ArrayRuleAbortsOnScalar | src/Validation/RulesTrait.php:90-96 | on value "x" with nested rules the as-written rule throws and the corrected one returns false |
| Rules.RuleCall | src/Validation/Validator.php:71 | a call that throws has arguments that cannot be coerced; only `array` nests; library rules answer through the oracle on the coerced arguments |
| Rules.Passes | src/Validation/Validator.php:71 | a library rule's verdict is the oracle's answer on the arguments it receives |
| Rules.InvokeRule | src/Validation/Validator.php:71 | calling a rule, with the membership rules run as loops, gives the outcome `RuleCall` specifies |
| Validation.SprintfLiteral | src/Validation/Validator.php:124 | `sprintf` copies text without `%` through unchanged |
| Validation.SprintfSubstitutesInOrder | src/Validation/Validator.php:124 | the k-th `%s` becomes the k-th argument, and extra arguments are ignored |
| Validation.SprintfTooFewArguments | src/Validation/Validator.php:124 | fewer arguments than `%s` directives raises ArgumentCountError |
| Validation.Format | src/Validation/Validator.php:122-125 | an integer field or a rule without a template is a TypeError; otherwise the template is filled with the field, then the arguments |
| Validation.AppendError | src/Validation/Validator.php:73 | `$errors[$field][] = $msg` adds the message at the end of that field's list and changes no other field |
| Validation.CastToArray | src/Validation/Validator.php:97 | `(array)` wraps a scalar as `[0 => v]` |
| Validation.OffsetKey | src/Validation/Validator.php:95 | a bare rule name becomes its key; an array used as a key is a TypeError |
| Validation.StepArgs | src/Validation/Validator.php:70 | a rule is called with the field's value, or null when the field is absent, first |
| Validation.MessageStore.constructor | src/Validation/Validator.php:17 | the shared message table is empty until a validator is built |
| Validation.Validator.constructor | src/Validation/Validator.php:27-30 | the shared table becomes the default templates merged with the caller's, and `errors` starts empty |
| Validation.Validator.GetErrors | src/Validation/Validator.php:111-114 | null until a failure was recorded, and the accumulator after that |
| Validation.Validator.FormatErrorMessage | src/Validation/Validator.php:122-125 | the rule's template filled with the field then the arguments; a missing template is a TypeError |
| Validation.Validator.ParseRules | src/Validation/Validator.php:85-106 | the nested loops and the recursion compute `parseRules` |
| Validation.Validator.ValidateData | src/Validation/Validator.php:56-77 | the nested loops compute the validated data and the new `errors` of `validateData` |
| Validation.Validator.ApplyRule | src/Validation/Validator.php:63-73 | one inner-loop iteration: look the rule up, call it, record the outcome |
| Validation.Validator.RecordOutcome | src/Validation/Validator.php:71-73 | a pass records the field's value, a failure appends the formatted message, an exception ends the run |
| Validation.Validator.Validate | src/Validation/Validator.php:39-47 | a parse error leaves `errors` unchanged; otherwise the result is `validateData` on the parsed rules, with failures only recorded |
| MethodGuard.GuardAdmitsEngineMethod | src/Validation/Validator.php:67 | the empty rule name passes `method_exists` as the method `validate` but is not a rule |
| MethodGuard.FindRuleWithinGuard | src/Validation/Validator.php:67 | every rule the lookup finds also passes the guard as written |
| ValidationProperties.FieldsExtendErrors | src/Validation/Validator.php:56-77 | `validateData` only adds to `errors`: every earlier message stays, in order |
| ValidationProperties.FieldsIgnoreEarlierErrors | src/Validation/Validator.php:56-77 | the result of `validateData` does not depend on the errors already recorded |
| ValidationProperties.FieldsKeepDataVerbatim | src/Validation/Validator.php:58-76 | every validated entry holds the input's value for its key, and only fields with rules are added |
| ValidationProperties.ValidatedDataComesFromInput | src/Validation/Validator.php:56-77 | every key of the validated data is a field of the rules, holding exactly the input's value |
| ValidationProperties.StepOnVerdict | src/Validation/Validator.php:71-73 | a passing rule records the field's value; a failing one adds exactly one message for that field and touches no other field |
| ValidationProperties.EveryRuleOfAFieldRuns | src/Validation/Validator.php:63-74 | with no short-circuit, each failing rule adds one message; the field is validated iff some rule passed; other fields are untouched |
| ValidationProperties.ParsedRulesAreNormalized | src/Validation/Validator.php:85-106 | every field of the parsed rules maps to an array of rules, each an array of parameters |
| ValidationProperties.ParsedRulesKeepFields | src/Validation/Validator.php:88-89 | the parsed rules have exactly the input's fields, in input order |
| ValidationExamples.ParseNormalisesShorthands | src/Validation/Validator.php:93-101 | `["required", "minLength" => 3]` normalises to `["required" => [], "minLength" => [3]]` |
| ValidationExamples.BareRuleName | src/Validation/Validator.php:94-95 | a rule name under an integer key becomes that rule with no parameters |
| ValidationExamples.ScalarParameter | src/Validation/Validator.php:97-101 | a scalar parameter becomes a one-element list |
| ValidationExamples.ParseRejectsScalarField | src/Validation/Validator.php:90-92 | a field whose rules are not an array raises RuleParsingException |
| ValidationExamples.RequiredAcceptsFive | src/Validation/Validator.php:70-72 | `required` accepts 5 and records it |
| ValidationExamples.EqualsArgs | src/Validation/Validator.php:64-70 | `equals` with `[10]` is called with the value 5 and then 10 |
| ValidationExamples.EqualsVerdict | src/Validation/RulesTrait.php:33-36 | 5 is not identical to 10 |
| ValidationExamples.EqualsRejectsFive | src/Validation/Validator.php:70-73 | the failing `equals` appends the template filled with "age", 5 and 10 |
| ValidationExamples.MixedFieldLandsInBothMaps | src/Validation/Validator.php:63-74 | a field passing `required` and failing `equals` is in the validated data and has one error |
| ValidationExamples.UnknownRuleRaises | src/Validation/Validator.php:67-69 | a rule outside the catalogue raises RuleNotFoundException |
| Pipeline.Insert | src/Http/RequestHandler.php:41-43 | inserting an entry adds exactly that entry |
| Pipeline.InsertKeepsSorted | src/Http/RequestHandler.php:41-43 | inserting into a sorted queue keeps it sorted |
| Pipeline.SortByPriority | src/Http/RequestHandler.php:41-43 | the result is in non-decreasing priority and is a permutation of the entries |
| Pipeline.SortedOrderIsUnique | src/Http/RequestHandler.php:39-44 | with distinct priorities, any two sorted permutations are equal |
| Pipeline.Stop | src/Http/RequestHandler.php:65-75 | the cursor never moves back, and stops on an entry only when that entry answers |
| Pipeline.StopSkipsDelegating | src/Http/RequestHandler.php:65-75 | every entry the cursor moves past on its way passed the request on |
| Pipeline.Answer | src/Http/RequestHandler.php:67-73 | the answering middleware when the cursor is on an entry, otherwise LogicException "Middleware queue exhausted" |
| Pipeline.RequestHandler.constructor | src/Http/RequestHandler.php:17-22 | an empty queue with the cursor at -1 |
| Pipeline.RequestHandler.GetMiddlewares | src/Http/RequestHandler.php:27-32 | the middlewares without priorities, in stored order |
| Pipeline.RequestHandler.Pipe | src/Http/RequestHandler.php:53-57 | the entry is appended, earlier entries and the cursor unchanged; priority 0 by default |
| Pipeline.RequestHandler.SortMiddlewares | src/Http/RequestHandler.php:39-44 | the queue becomes a permutation of itself in non-decreasing priority |
| Pipeline.RequestHandler.Handle | src/Http/RequestHandler.php:65-75 | the cursor moves on by one per call, and on past every delegating entry; the result is the answering middleware or LogicException |
| Pipeline.RequestHandler.Run | src/Http/RequestHandler.php:86-90 | sort, then handle from wherever the cursor was; it is never reset |
| Pipeline.FreshRunVisitsInOrder | src/Http/RequestHandler.php:65-75 | from a fresh cursor the first non-delegating entry answers |
| Pipeline.AllDelegatingExhausts | src/Http/RequestHandler.php:67-70 | when every entry delegates, the run ends in LogicException |
| Pipeline.SortedThreeEntries | src/Http/RequestHandler.php:39-44 | the only sorted arrangement of priorities 3, 1, 2 is 1, 2, 3 |
| Pipeline.SortingExample | src/Http/RequestHandler.php:27-57 | piping 3, 1, 2 lists them in that order; sorting lists 1, 2, 3 |
| Pipeline.ExhaustedExample | src/Http/RequestHandler.php:67-70 | a lone delegating middleware exhausts the queue |
| Pipeline.TraversalExample | src/Http/RequestHandler.php:65-90 | a delegating middleware passes the request to the next, which answers |
| TrailingSlashes.Normalize | src/Http/Middleware/TrailingSlash.php:52-59 | never empty; same stem as the input; "/" iff the stem is empty; otherwise ends in "/" iff the setting asks for it |
| TrailingSlashes.NormalizeFixesCanonical | src/Http/Middleware/TrailingSlash.php:52-59 | a path is left unchanged exactly when it is canonical for the setting |
| TrailingSlashes.NormalizeIdempotent | src/Http/Middleware/TrailingSlash.php:52-59 | normalising twice is normalising once |
| TrailingSlashes.Process | src/Http/Middleware/TrailingSlash.php:35-44 | delegates iff the path is canonical; otherwise a 301 to the normalised path |
| TrailingSlashes.RedirectIsFinal | src/Http/Middleware/TrailingSlash.php:35-44 | following the redirect is never redirected again |
| TrailingSlashes.DefaultStripsSlashes | src/Http/Middleware/TrailingSlash.php:29-58 | by default `/foo/` and `/foo//` redirect to `/foo`, `//` to `/`, and `/foo` is served |
| TrailingSlashes.TrailingSlashAdded | src/Http/Middleware/TrailingSlash.php:58 | with the setting on, `/foo` redirects to `/foo/` and `/foo/` is served |
| HttpErrors.New | src/Http/HttpException.php:68-74 | succeeds iff the code is in the table, with the table's phrase; otherwise RuntimeException "Http error not valid (code)" |
| HttpErrors.GetParams | src/Http/HttpException.php:81-87 | exactly the keys "code" and "message", holding the exception's code and message |
| HttpErrors.FromParams | src/Http/HttpException.php:68-74 | re-raising from parameters only yields valid exceptions |
| HttpErrors.ParamsRoundTrip | src/Http/HttpException.php:81-87 | an exception's parameters raise the same exception again |
| HttpErrors.CodesAreErrorStatuses | src/Http/HttpException.php:15-61 | every accepted code lies in 400..599 |
| HttpErrors.DefaultIsInternalServerError | src/Http/HttpException.php:68-73 | with no code: 500 "Internal Server Error" |
| HttpErrors.NotFound | src/Http/HttpException.php:21 | 404 is "Not Found" |
| HttpErrors.UnknownCodeIsRejected | src/Http/HttpException.php:70-72 | 419 is not in the table and is rejected |
| ErrorFormats.FirstListedWins | src/Http/Middleware/ErrorHandler.php:108-115 | the first item whose trimmed form is in the table decides, whatever follows |
| ErrorFormats.NoneListedFallsBack | src/Http/Middleware/ErrorHandler.php:116-117 | with no listed item the default handler is used |
| ErrorFormats.HandlersInDebug | src/Http/Middleware/ErrorHandler.php:98-106 | both tables list the same types; debug only turns the HTML page into the pretty page |
| ErrorFormats.DebugOnlySwapsHtml | src/Http/Middleware/ErrorHandler.php:98-117 | outside debug the pretty page is never chosen; in debug the same choice is made with HTML swapped for the pretty page |
| ErrorFormats.ContentTypeIgnoresDebug | src/Http/Middleware/ErrorHandler.php:63 | the error response's content type does not depend on debug mode |
| ErrorFormats.FirstListed | src/Http/Middleware/ErrorHandler.php:108-117 | the search loop returns the first listed item's handler, or the default |
| ErrorFormats.GetWhoopsHandler | src/Http/Middleware/ErrorHandler.php:96-118 | the handler for the `Accept` line split on `,` |
| ErrorFormats.ErrorStatus | src/Http/Middleware/ErrorHandler.php:60-62 | an HttpException's own code, and 500 for anything else |
| ErrorFormats.Process | src/Http/Middleware/ErrorHandler.php:57-72 | as intended: an answered request passes through untouched; a throw becomes a response with the error status and the selected handler's content type |
| ErrorFormats.ProcessAsWritten | src/Http/Middleware/ErrorHandler.php:57-72 | as written: an answered request passes through; a throw escapes as an `Error` exactly when the JSON or XML handler is selected and the throwable is an HttpException or debug is off; otherwise the response is the intended one |
| ErrorFormats.XmlWithoutDebugEscapes | src/Http/Middleware/ErrorHandlers/XmlHandler.php:26-36 | outside debug, any throw under `Accept: text/xml` escapes `process`, where the intended `process` answers with `application/xml` |
| ErrorFormats.PagesAlwaysAnswer | src/Http/Middleware/ErrorHandler.php:57-64 | with the HTML or pretty page selected, `process` as written answers as intended |
| ErrorFormats.ErrorResponseIsError | src/Http/Middleware/ErrorHandler.php:57-63 | an error response's status is always in 400..599 |
| ErrorFormats.PreferredTypeExample | src/Http/Middleware/ErrorHandler.php:108-115 | `foo,foo/bar,bar,text/json,text/html` selects JSON |
| ErrorFormats.JsonListed | src/Http/Middleware/ErrorHandler.php:102 | `text/json` maps to the JSON handler |
| ErrorFormats.ListedTypesHaveNoParameters | src/Http/Middleware/ErrorHandler.php:98-106 | no media type in the table carries parameters |
| ErrorFormats.ParametersPreventMatch | src/Http/Middleware/ErrorHandler.php:110-117 | when every item carries `;` parameters, nothing matches and the default is used |
| ErrorFormats.HtmlListed | src/Http/Middleware/ErrorHandler.php:99 | `text/html` maps to the pretty page in debug and to the HTML page otherwise |
| ErrorFormats.XmlListed | src/Http/Middleware/ErrorHandler.php:105 | `text/xml` maps to the XML handler |
| ErrorFormats.SingleTypeSelected | src/Http/Middleware/ErrorHandler.php:108-115 | a line holding one listed type selects that type's handler |
| ErrorFormats.XmlErrorExample | src/Http/Middleware/ErrorHandler.php:60-63 | in debug, a throwable other than an HttpException under `Accept: text/xml` gives a 500 response with Content-Type `application/xml` |
| ErrorFormats.NotFoundExample | src/Http/Middleware/ErrorHandler.php:60-61 | a thrown 404 under `Accept: text/html` gives a 404 response, with or without debug |
| XmlErrors.SanitizeIsName | src/Http/Middleware/ErrorHandlers/XmlHandler.php:76 | after sanitising, a key holds only ASCII letters, digits, `-`, `_`, `.`, `:` and is no longer than before |
| XmlErrors.SanitizeKeepsNames | src/Http/Middleware/ErrorHandlers/XmlHandler.php:76 | a key that is already a valid name is kept |
| XmlErrors.SanitizeAppend | src/Http/Middleware/ErrorHandlers/XmlHandler.php:76 | sanitising works character by character |
| XmlErrors.KeyTextPrefix | src/Http/Middleware/ErrorHandlers/XmlHandler.php:70-73 | a numeric key gets the prefix `unknownNode_`; any other key is kept as it is |
| XmlErrors.ElementNameIsName | src/Http/Middleware/ErrorHandlers/XmlHandler.php:70-76 | every element name is a valid name |
| XmlErrors.IntegerKeyName | src/Http/Middleware/ErrorHandlers/XmlHandler.php:70-76 | integer key i names its element `unknownNode_` followed by i |
| XmlErrors.UnescapeEscape | src/Http/Middleware/ErrorHandlers/XmlHandler.php:82 | replacing `&` by `&amp;` loses nothing: reading the text back gives the original |
| XmlErrors.EscapeWithoutAmpersand | src/Http/Middleware/ErrorHandlers/XmlHandler.php:82 | text without `&` is unchanged |
| XmlErrors.LeafTextReadsBack | src/Http/Middleware/ErrorHandlers/XmlHandler.php:82 | a scalar's element text reads back as the value's printed form |
| XmlErrors.Convert | src/Http/Middleware/ErrorHandlers/XmlHandler.php:69 | one element per entry |
| XmlErrors.ConvertFollowsData | src/Http/Middleware/ErrorHandlers/XmlHandler.php:69 | the j-th entry becomes the j-th element |
| XmlErrors.ConvertedEntry | src/Http/Middleware/ErrorHandlers/XmlHandler.php:69-84 | element j is named after key j; an array fills it with converted children, a scalar with escaped text |
| XmlErrors.ConvertedNamesAreSanitized | src/Http/Middleware/ErrorHandlers/XmlHandler.php:69-84 | every element at every depth has a valid name |
| XmlErrors.AddDataToNode | src/Http/Middleware/ErrorHandlers/XmlHandler.php:65-88 | the node keeps its children and gains the converted entries after them |
| XmlErrors.ChildOf | src/Http/Middleware/ErrorHandlers/XmlHandler.php:78-84 | the child for an entry is filled recursively for an array, and with escaped text otherwise |
| XmlErrors.ToXml | src/Http/Middleware/ErrorHandlers/XmlHandler.php:96-103 | a single `root` element holding the converted data |
| XmlErrors.Substituted | src/Http/Middleware/ErrorHandlers/XmlHandler.php:26-29 | outside debug anything but an HttpException is replaced; an HttpException, or anything in debug, is kept |
| XmlErrors.ResponseData | src/Http/Middleware/ErrorHandlers/XmlHandler.php:32-45 | an HttpException gives keys code, message and errors; anything else gives `errors` with its formatted details |
| XmlErrors.NonDebugHidesDetails | src/Http/Middleware/ErrorHandlers/XmlHandler.php:26-45 | outside debug the formatter's details never reach the document, and any error renders as HttpException(500) |
| XmlErrors.HttpErrorDocument | src/Http/Middleware/ErrorHandlers/XmlHandler.php:32-37 | an HttpException renders as `<code>`, `<message>` and `<errors>`, the first two holding the code and message |
| XmlErrors.XmlHandler.constructor | src/Http/Middleware/ErrorHandlers/XmlHandler.php:19 | debug is off until `debug()` is called |
| XmlErrors.XmlHandler.Debug | src/Http/Middleware/ErrorHandlers/XmlHandler.php:111-114 | sets the flag and nothing else |
| XmlErrors.XmlHandler.Handle | src/Http/Middleware/ErrorHandlers/XmlHandler.php:24-50 | the exception is replaced outside debug; the document is the rendering of the original exception |
| App.DefaultsHaveUniqueKeys | src/Application.php:40-56 | the defaults list each setting once |
| App.OverridesWin | src/Application.php:40-56 | a setting the overrides give has their value; any other keeps its default, or null without one |
| App.Application.Config | src/Application.php:80-86 | without a key the whole configuration; with a key that entry, null when it is missing |
| App.FirstSegment | src/Application.php:105 | the first segment never contains `/` |
| App.FirstSegmentOf | src/Application.php:105 | after any leading slashes, the segment up to the next `/` or the end is the first segment |
| App.Routes | src/Application.php:105-110 | Authentication at 50 and PanelHandler at 100 exactly when the panel setting is identical to the first segment; otherwise PageHandler at 100 |
| App.Application.constructor | src/Application.php:38-62 | the shared configuration becomes the defaults merged with the overrides; the queue holds ExceptionHandler at -100 and TrailingSlash at -50 |
| App.Application.Route | src/Application.php:105-110 | the routed entries are appended to the queue; the cursor is unchanged |
| App.Application.Run | src/Application.php:97-111 | the queue, routes included, is a sorted permutation; the cursor and the answer are those the middleware chain reaches |
| App.SortedHeadIsLowest | src/Http/RequestHandler.php:39-44 | after sorting, the entry with the strictly lowest priority is first |
| App.NeverPiped | src/Http/RequestHandler.php:39-44 | sorting brings in no middleware that was not piped |
| App.ConfigurationExample | src/Application.php:80-86 | with `["foo" => "bar"]` the setting reads "bar" and the panel stays "admin" |
| App.SharedConfigurationExample | src/Application.php:28-40 | a second application replaces the configuration the first one reads |
| App.DefaultPanel | src/Application.php:43 | the panel is "admin" by default |
| App.AdminSegment | src/Application.php:105 | the first segment of `/admin` is "admin" |
| App.AdminIsRoutedToPanel | src/Application.php:105-110 | by default `/admin` is routed to the panel |
| App.OtherSegmentIsRoutedToPages | src/Application.php:105-107 | by default any other first segment is routed to the pages |
| App.PanelQueueHead | src/Application.php:59-61 | in the sorted panel queue, the middleware at -200 comes first |
| App.PanelQueueMembers | src/Application.php:105-110 | the sorted panel queue holds Authentication and PanelHandler and no PageHandler |
| App.PanelRoutingExample | src/Application.php:97-111 | a request for `/admin` queues the panel's handlers, and the first middleware answers |

## Left out

- Library-backed rules. `numeric`, `integer`, `boolean`, `email`, `url`,
  `regex`, `date`, `dateBefore` and `dateAfter` (src/Validation/RulesTrait.php:56-81 and 261-332) call `filter_var`,
  `is_numeric` and `strtotime`. Their verdicts are a parameter `lib` of the
  model. Only their argument checks are modelled.
- Rules.ValidateInArray: `in_array` compares loosely (`==`). The model compares
  strictly, so juggling such as `"1" == 1` is not captured.
- Rules.ValidateNotInArray: the same strict comparison replaces `in_array`'s
  loose one.
- Rules.GetValueSize: `is_numeric` and `(int)` are modelled on integers and
  integer literals only. There are no decimals, exponents or surrounding
  whitespace. Integers are unbounded, so the 64-bit saturation of `(int)` on
  huge literals is not modelled.
- PhpValues.Truthy: PHP truthiness is modelled for the value kinds of the model only.
  Floats and objects (such as `DateTime`) are not part of the value
  datatype.
- Validation.Format: `sprintf` is modelled for `%s` and `%%` only.
- The default message table. `messages.php` is not part of this model, so
  the `Validator` constructor takes the default templates as a parameter.
- Rules.Coerce: numeric strings are integer literals only. Leading or
  trailing whitespace, decimals, exponents and leading-numeric strings such
  as "3abc" are not modelled, and floats are not part of the value
  datatype.
- ErrorFormats.Process: it is the intended behaviour, which the rest of the
  model uses; `ErrorFormats.ProcessAsWritten` states when the code lets an
  `Error` escape instead (third row of Findings).
- `ErrorHandler::process` output buffering, `register_shutdown_function`,
  the Whoops runner, the Whoops `PrettyPageHandler`, and the response body
  Whoops writes. These are I/O and a foreign library. A response is modelled
  as its status and headers.
- `ErrorHandlers/HtmlHandler.php` and `ErrorHandlers/JsonHandler.php` are
  not part of this model. The first is a fixed HTML template; the second
  wraps `json_encode` and Whoops' formatter. Only their content types enter
  the model, and the fact that the JSON handler, like the XML one, calls
  the undefined `getErrors()` (`ErrorFormats.ProcessAsWritten`).
- XmlErrors.XmlHandler.Handle: the array `getErrors()` returns and the
  details Whoops' formatter produces are parameters. `HttpException`
  defines no `getErrors` in src/Http/HttpException.php, so as written the
  call at src/Http/Middleware/ErrorHandlers/XmlHandler.php:36 raises `Error`
  for every HttpException, and outside debug for every exception, since
  each is replaced by one first. The model renders the document that call
  was meant to produce. The XML text
  `asXML` serialises is not modelled, only the element tree SimpleXML
  holds. A key that sanitises to an empty name gives an element with an
  empty name; what SimpleXML does with one is not modelled.
- PhpValues.StringKey: integers are unbounded, so a canonical integer string
  above `PHP_INT_MAX` (such as "9223372036854775808") becomes an integer key
  in the model, while PHP keeps it as a string key.
- XmlErrors.KeyTextPrefix: `is_numeric` is modelled on integer literals
  only, so a string key such as "1.5", "1e3" or " 5" keeps its text in the
  model, while PHP prefixes it with `unknownNode_`.
- Rules.RuleCall: the `array` case runs the corrected rule `Rules.ArrayRule`,
  so a non-array value under nested rules fails the rule instead of raising
  the TypeError the code raises (first row of Findings).
- Rules.InvokeRule: computes `Rules.RuleCall`, so it has the same
  correction.
- Validation.Validator.ApplyRule: looks rules up with the corrected
  `Rules.FindRule`, so the names "" and "data" raise RuleNotFoundException
  instead of dispatching to `validate` or `validateData` as the
  `method_exists` guard does (second row of Findings); it calls rules
  through `Rules.RuleCall`, so it has that correction too.
- Validation.Validator.ValidateData: runs `ApplyRule` for every rule, so on
  those two inputs it states the corrected outcome, not the code's.
- Validation.Validator.Validate: runs `ValidateData`, so it has the same two
  corrections.
- PSR-7 requests and responses, `ServerRequestCreator::fromGlobals` and
  `\Http\Response\send` in `Application::run`. These are I/O. A request is its
  path, and a middleware's behaviour is a parameter `delegates` that says
  whether it passes the request on. The model returns the middleware that
  answered, not its response.
- Pipeline.RequestHandler.SortMiddlewares: the order `usort` leaves entries
  of equal priority in is not stated. It depends on the PHP version.
- `Application::getRequestHandler` is the field `requestHandler` of the
  model.
- `Middleware/PanelHandler.php`, `Middleware/PageHandler`,
  `Middleware/Authentication` and `ExceptionHandler` are opaque middlewares.
  Their processing is not part of this model.
- `src/config.php` is data only. `src/Template/` and its renderers wrap
  third-party template engines. None of them is part of this model.
- Undefined-index warnings. Reading a missing key gives null, as PHP does
  after the warning. This applies to `config($key)`, and to
  `$data[$field]` when a field without data passes.

## Findings

| source | as written | input that shows it | evidently intended | confidence | as-written member | corrected member |
|---|---|---|---|---|---|---|
| src/Validation/RulesTrait.php:90-96 | `validateArray` calls `validateData($value, $params)` before testing `is_array($value)`; `validateData` declares `array $data`, so a non-array value throws TypeError and aborts the whole validation | value `"x"` with params `["bar" => ["required" => []]]` (`Rules.ArrayRuleAbortsOnScalar`) | a non-array value fails the `array` rule and is recorded as an error | medium, not executed | Rules.ArrayRuleAsWritten | Rules.ArrayRule |
| src/Http/Middleware/ErrorHandler.php:57-64 | inside the `catch` block the selected handler renders the throwable; the JSON and XML handlers put `$exception->getErrors()` in their document (JsonHandler.php:34, XmlHandler.php:36), outside debug after turning every throwable into an HttpException(500), and HttpException defines no `getErrors`, so an `Error` escapes `process` | debug off, `Accept: text/xml`, any throwable (`ErrorFormats.XmlWithoutDebugEscapes`) | the request gets an error response with the handler's content type, as the JSON and XML cases of ErrorHandlerTest.php expect | medium, not executed | ErrorFormats.ProcessAsWritten | ErrorFormats.Process |
| src/Validation/Validator.php:67 | the guard is `method_exists($this, "validate" . ucfirst($rule))`, which matches any method of the class, so the rule name `""` (and likewise `"data"`) passes as the method `validate` (`validateData`) | rule specification `["field" => ["" => []]]` (`MethodGuard.GuardAdmitsEngineMethod`) | only rules of the catalogue are dispatched; any other name raises RuleNotFoundException | medium, not executed | MethodGuard.MethodExistsAsWritten | Rules.FindRule |
