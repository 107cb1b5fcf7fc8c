/**
 * The rule catalogue of the validation engine (src/Validation/RulesTrait.php):
 * one predicate per rule over a loosely-typed value, the lookup of a rule
 * from its name, and the call of a rule with the argument list the
 * validator builds (type and arity checks included).
 */
module Rules {
  import opened Wrappers
  import opened PhpValues

  /** The exceptions the validation engine can raise. */
  datatype Exception =
    | RuleParsingException
    | RuleNotFoundException
    /** A value of the wrong type reached a typed parameter (the files declare strict types). */
    | TypeError
    /** A rule was called with fewer arguments than it declares. */
    | ArgumentCountError

  /** One `validate<Name>` method of the trait. */
  datatype Rule =
    | Required | Equals | Different | Numeric | Integer | Boolean | Array
    | Length | BetweenLength | MinLength | MaxLength
    | Size | Between | Min | Max | InArray | NotInArray
    | Email | Url | Regex | Date | DateBefore | DateAfter

  /** Every rule of the trait. */
  const AllRules: seq<Rule> := [
    Required, Equals, Different, Numeric, Integer, Boolean, Array,
    Length, BetweenLength, MinLength, MaxLength,
    Size, Between, Min, Max, InArray, NotInArray,
    Email, Url, Regex, Date, DateBefore, DateAfter
  ]

  /** The name a rule is written with in a rule specification. */
  function RuleName(r: Rule): string {
    match r
    case Required => "required"
    case Equals => "equals"
    case Different => "different"
    case Numeric => "numeric"
    case Integer => "integer"
    case Boolean => "boolean"
    case Array => "array"
    case Length => "length"
    case BetweenLength => "betweenLength"
    case MinLength => "minLength"
    case MaxLength => "maxLength"
    case Size => "size"
    case Between => "between"
    case Min => "min"
    case Max => "max"
    case InArray => "inArray"
    case NotInArray => "notInArray"
    case Email => "email"
    case Url => "url"
    case Regex => "regex"
    case Date => "date"
    case DateBefore => "dateBefore"
    case DateAfter => "dateAfter"
  }

  // ---------------------------------------------------------------------
  // Rule lookup
  // ---------------------------------------------------------------------

  function ToLowerChar(c: char): char {
    if 'A' <= c <= 'Z' then (c as int + 32) as char else c
  }

  function ToUpperChar(c: char): char {
    if 'a' <= c <= 'z' then (c as int - 32) as char else c
  }

  /** ASCII lower-casing, which is how PHP compares method names. */
  function Lower(s: string): string {
    seq(|s|, i requires 0 <= i < |s| => ToLowerChar(s[i]))
  }

  /** `ucfirst`. */
  function Ucfirst(s: string): string {
    if s == [] then s else [ToUpperChar(s[0])] + s[1..]
  }

  /** The method a rule name is dispatched to: "validate" . ucfirst($rule). */
  function MethodFor(name: string): string {
    "validate" + Ucfirst(name)
  }

  /** The trait method implementing a rule. */
  function MethodOf(r: Rule): string {
    MethodFor(RuleName(r))
  }

  /**
   * The rule whose method `method_exists` finds for a name. Method names
   * are compared without regard to case, so "REQUIRED" finds `validateRequired`.
   */
  function FindRule(name: string): (r: Option<Rule>)
    ensures r.Some? ==> Lower(MethodOf(r.value)) == Lower(MethodFor(name))
  {
    FindIn(AllRules, name)
  }

  /** The first rule of `rules` whose method matches `name`. */
  function FindIn(rules: seq<Rule>, name: string): (r: Option<Rule>)
    ensures r.Some? ==> r.value in rules && Lower(MethodOf(r.value)) == Lower(MethodFor(name))
  {
    if rules == [] then None
    else if Lower(MethodOf(rules[0])) == Lower(MethodFor(name)) then Some(rules[0])
    else FindIn(rules[1..], name)
  }

  lemma {:induction false} FindInNone(rules: seq<Rule>, name: string)
    ensures FindIn(rules, name).None? ==> forall x :: x in rules ==> Lower(MethodOf(x)) != Lower(MethodFor(name))
  {
    if rules != [] {
      FindInNone(rules[1..], name);
    }
  }

  /** A name is rejected only when no rule of the catalogue has a method of that name. */
  lemma FindRuleNoneMeansNoRule(name: string)
    ensures FindRule(name).None? ==> forall x :: Lower(MethodOf(x)) != Lower(MethodFor(name))
  {
    FindInNone(AllRules, name);
    forall x ensures x in AllRules {
      AllRulesComplete(x);
    }
  }

  lemma AllRulesComplete(x: Rule)
    ensures x in AllRules
  {
  }

  // ---------------------------------------------------------------------
  // The predicates
  // ---------------------------------------------------------------------

  /** `validateRequired`: a string is trimmed first, then the value must be truthy. */
  function ValidateRequired(value: Value): (ok: bool)
    ensures !ok <==>
      || value == Null || value == Bool(false) || value == Int(0) || value == Arr([])
      || (value.Str? && (Trim(value.s) == "" || Trim(value.s) == "0"))
  {
    Truthy(if value.Str? then Str(Trim(value.s)) else value)
  }

  /** `validateEquals`: strict identity (`===`), type and value alike. */
  function ValidateEquals(value: Value, expected: Value): (ok: bool)
    ensures ok <==> value == expected
    ensures value.Str? && !expected.Str? ==> !ok
    ensures value.Int? && !expected.Int? ==> !ok
  {
    value == expected
  }

  /** `validateDifferent`: `!==`, the exact negation of `validateEquals`. */
  function ValidateDifferent(value: Value, expected: Value): (ok: bool)
    ensures ok == !ValidateEquals(value, expected)
  {
    value != expected
  }

  /** `strlen(trim($value))` for a string; other kinds have no length. */
  function TrimmedLength(value: Value): (n: Option<nat>)
    ensures n.Some? <==> value.Str?
  {
    if value.Str? then Some(|Trim(value.s)|) else None
  }

  /** `validateLength`: false for a non-string, else the trimmed length equals `length`. */
  function ValidateLength(value: Value, length: int): (ok: bool)
    ensures ok ==> value.Str?
    ensures value.Str? ==> (ok <==> |Trim(value.s)| == length)
  {
    match TrimmedLength(value)
    case None => false
    case Some(n) => n == length
  }

  /** `validateMinLength`. */
  function ValidateMinLength(value: Value, minLength: int): (ok: bool)
    ensures ok ==> value.Str?
    ensures value.Str? ==> (ok <==> |Trim(value.s)| >= minLength)
  {
    match TrimmedLength(value)
    case None => false
    case Some(n) => n >= minLength
  }

  /** `validateMaxLength`. */
  function ValidateMaxLength(value: Value, maxLength: int): (ok: bool)
    ensures ok ==> value.Str?
    ensures value.Str? ==> (ok <==> |Trim(value.s)| <= maxLength)
  {
    match TrimmedLength(value)
    case None => false
    case Some(n) => n <= maxLength
  }

  /** `validateBetweenLength`: exactly the conjunction of the min and max rules. */
  function ValidateBetweenLength(value: Value, minLength: int, maxLength: int): (ok: bool)
    ensures ok == (ValidateMinLength(value, minLength) && ValidateMaxLength(value, maxLength))
  {
    match TrimmedLength(value)
    case None => false
    case Some(n) => n >= minLength && n <= maxLength
  }

  /** `getValueSize`: the integer of a numeric value, the element count of an array, else null. */
  function GetValueSize(value: Value): (size: Option<int>)
    ensures size.Some? <==> IsNumeric(value) || value.Arr?
    ensures value.Int? ==> size == Some(value.i)
    ensures value.Arr? ==> size == Some(|value.entries|)
    ensures value.Str? && value.s == "" ==> size.None?
    ensures value.Null? || value.Bool? ==> size.None?
  {
    if IsNumeric(value) then Some(ToInt(value))
    else if value.Arr? then Some(|value.entries|)
    else None
  }

  /** A decimal string's size is the integer it prints. */
  lemma SizeOfIntString(n: int)
    ensures GetValueSize(Str(IntToString(n))) == Some(n)
  {
    IntStringRoundTrip(n);
  }

  /** `validateSize`. */
  function ValidateSize(value: Value, size: int): (ok: bool)
    ensures ok <==> GetValueSize(value) == Some(size)
  {
    match GetValueSize(value)
    case None => false
    case Some(n) => n == size
  }

  /** `validateMin`: false when the value has no size. */
  function ValidateMin(value: Value, min: int): (ok: bool)
    ensures ok <==> GetValueSize(value).Some? && GetValueSize(value).value >= min
  {
    match GetValueSize(value)
    case None => false
    case Some(n) => n >= min
  }

  /** `validateMax`: false when the value has no size, so "" never passes. */
  function ValidateMax(value: Value, max: int): (ok: bool)
    ensures ok <==> GetValueSize(value).Some? && GetValueSize(value).value <= max
    ensures value == Str("") ==> !ok
  {
    match GetValueSize(value)
    case None => false
    case Some(n) => n <= max
  }

  /** `validateBetween`: exactly the conjunction of the min and max rules. */
  function ValidateBetween(value: Value, min: int, max: int): (ok: bool)
    ensures ok == (ValidateMin(value, min) && ValidateMax(value, max))
  {
    match GetValueSize(value)
    case None => false
    case Some(n) => n >= min && n <= max
  }

  /** `in_array($needle, $haystack)`, compared strictly. */
  predicate Contains(haystack: Entries<Value>, needle: Value) {
    needle in Values(haystack)
  }

  /** What `validateInArray` decides: the value is an array holding every needle. */
  predicate AllPresent(value: Value, needles: seq<Value>) {
    value.Arr? && forall i :: 0 <= i < |needles| ==> Contains(value.entries, needles[i])
  }

  /** What `validateNotInArray` decides: the value is an array holding none of the needles. */
  predicate NonePresent(value: Value, needles: seq<Value>) {
    value.Arr? && forall i :: 0 <= i < |needles| ==> !Contains(value.entries, needles[i])
  }

  /** `validateInArray`: a search over the needles that stops at the first missing one. */
  method ValidateInArray(value: Value, needles: seq<Value>) returns (ok: bool)
    ensures ok <==> value.Arr? && forall n :: n in needles ==> n in Values(value.entries)
    ensures ok == AllPresent(value, needles)
  {
    if !value.Arr? {
      return false;
    }
    var i := 0;
    while i < |needles|
      invariant 0 <= i <= |needles|
      invariant forall j :: 0 <= j < i ==> Contains(value.entries, needles[j])
    {
      if !Contains(value.entries, needles[i]) {
        assert needles[i] in needles;
        return false;
      }
      i := i + 1;
    }
    return true;
  }

  /** `validateNotInArray`: a search over the needles that stops at the first one present. */
  method ValidateNotInArray(value: Value, needles: seq<Value>) returns (ok: bool)
    ensures ok <==> value.Arr? && forall n :: n in needles ==> n !in Values(value.entries)
    ensures ok == NonePresent(value, needles)
  {
    if !value.Arr? {
      return false;
    }
    var i := 0;
    while i < |needles|
      invariant 0 <= i <= |needles|
      invariant forall j :: 0 <= j < i ==> !Contains(value.entries, needles[j])
    {
      if Contains(value.entries, needles[i]) {
        assert needles[i] in needles;
        return false;
      }
      i := i + 1;
    }
    return true;
  }

  /**
   * On an array and a single needle the two membership rules are
   * complements; on anything else both fail.
   */
  lemma MembershipRulesOnOneNeedle(value: Value, needle: Value)
    ensures value.Arr? ==> (NonePresent(value, [needle]) <==> !AllPresent(value, [needle]))
    ensures !value.Arr? ==> !AllPresent(value, [needle]) && !NonePresent(value, [needle])
  {
    if value.Arr? {
      assert AllPresent(value, [needle]) <==> Contains(value.entries, [needle][0]);
      assert NonePresent(value, [needle]) <==> !Contains(value.entries, [needle][0]);
    }
  }

  // ---------------------------------------------------------------------
  // Calling a rule
  // ---------------------------------------------------------------------

  /** The declared type of a rule parameter after `$value`. */
  datatype ParamKind = AnyParam | IntParam | StringParam

  /** A value of the declared type itself. */
  predicate Fits(kind: ParamKind, v: Value) {
    match kind
    case AnyParam => true
    case IntParam => v.Int?
    case StringParam => v.Str?
  }

  /**
   * The argument a rule method receives for a declared parameter. The rule
   * is entered through `call_user_func_array`, an internal function, so
   * scalar parameters are typed coercively whatever `strict_types` says:
   * an `int` parameter takes an integer, a numeric string or a boolean; a
   * `string` parameter takes a string, an integer or a boolean. Null and
   * arrays raise TypeError.
   */
  function Coerce(kind: ParamKind, v: Value): (r: Option<Value>)
    ensures r.Some? ==> Fits(kind, r.value)
    ensures kind == AnyParam ==> r == Some(v)
    ensures kind == IntParam ==> (r.Some? <==> IsNumeric(v) || v.Bool?)
    ensures kind == IntParam && IsNumeric(v) ==> r == Some(Int(ToInt(v)))
    ensures kind == IntParam && v.Bool? ==> r == Some(Int(if v.b then 1 else 0))
    ensures kind == StringParam ==> (r.Some? <==> !v.Null? && !v.Arr?)
    ensures kind == StringParam && r.Some? ==> r == Some(Str(ToPhpString(v)))
  {
    match kind
    case AnyParam => Some(v)
    case IntParam =>
      if IsNumeric(v) then Some(Int(ToInt(v)))
      else if v.Bool? then Some(Int(if v.b then 1 else 0))
      else None
    case StringParam =>
      if v.Null? || v.Arr? then None else Some(Str(ToPhpString(v)))
  }

  /** A value already of the declared type is passed on unchanged. */
  lemma CoerceKeepsFitting(kind: ParamKind, v: Value)
    requires Fits(kind, v)
    ensures Coerce(kind, v) == Some(v)
  {
    if kind == IntParam {
      assert IsNumeric(v);
    }
  }

  /** An integer passed to a `string` parameter and back to an `int` one is the same integer. */
  lemma CoerceIntThroughString(i: int)
    ensures Coerce(StringParam, Int(i)) == Some(Str(IntToString(i)))
    ensures Coerce(IntParam, Coerce(StringParam, Int(i)).value) == Some(Int(i))
  {
    IntStringRoundTrip(i);
  }

  /** The parameters, checked against a signature, match it. */
  predicate Conforms(sig: seq<ParamKind>, params: seq<Value>) {
    |params| >= |sig| && forall i :: 0 <= i < |sig| ==> Fits(sig[i], params[i])
  }

  /** The required parameters each rule method declares after `$value`. */
  function Signature(r: Rule): seq<ParamKind> {
    match r
    case Equals | Different | DateBefore | DateAfter => [AnyParam]
    case Length | MinLength | MaxLength | Size | Min | Max => [IntParam]
    case BetweenLength | Between => [IntParam, IntParam]
    case Regex => [StringParam]
    case _ => []
  }

  /**
   * PHP receives parameters left to right: a missing one raises
   * ArgumentCountError, one that cannot be coerced TypeError, whichever
   * comes first. The arguments after the declared ones are passed as they
   * are.
   */
  function CoerceArgs(sig: seq<ParamKind>, params: seq<Value>): (r: Result<seq<Value>, Exception>)
    ensures r.Ok? <==> |params| >= |sig| && forall i :: 0 <= i < |sig| ==> Coerce(sig[i], params[i]).Some?
    ensures r.Ok? ==> |r.value| == |params| && Conforms(sig, r.value)
    ensures r.Ok? ==> forall i :: 0 <= i < |sig| ==> r.value[i] == Coerce(sig[i], params[i]).value
    ensures r.Ok? ==> r.value[|sig|..] == params[|sig|..]
    ensures r.Err? ==> r.error == TypeError || r.error == ArgumentCountError
  {
    if sig == [] then Ok(params)
    else if params == [] then Err(ArgumentCountError)
    else match Coerce(sig[0], params[0])
      case None => Err(TypeError)
      case Some(v) =>
        match CoerceArgs(sig[1..], params[1..])
        case Err(e) => Err(e)
        case Ok(rest) => Ok([v] + rest)
  }

  /** What calling a rule method leads to. */
  datatype RuleOutcome =
    | Verdict(ok: bool)
    /** `validateArray` runs `validateData(data, rules)` on this validator and then answers true. */
    | Nested(data: Entries<Value>, rules: Entries<Value>)
    | Threw(e: Exception)

  /**
   * `validateArray($value, $params)` AS WRITTEN: non-empty params make it call
   * `validateData($value, $params)`, whose `array` parameters reject a
   * non-array value with a TypeError before `is_array` is ever reached.
   */
  function ArrayRuleAsWritten(value: Value, params: Value): (o: RuleOutcome)
    ensures Truthy(params) && !value.Arr? ==> o == Threw(TypeError)
  {
    if !Truthy(params) then Verdict(value.Arr?)
    else if !value.Arr? || !params.Arr? then Threw(TypeError)
    else Nested(value.entries, params.entries)
  }

  /**
   * `validateArray` as evidently intended: a non-array value fails the rule
   * (it is "not an array") instead of aborting the whole validation.
   */
  function ArrayRule(value: Value, params: Value): (o: RuleOutcome)
    ensures !value.Arr? ==> o == Verdict(false)
    ensures o.Verdict? ==> (o.ok <==> value.Arr?)
    ensures o.Nested? ==> value == Arr(o.data) && params == Arr(o.rules) && o.rules != []
    ensures o.Threw? <==> value.Arr? && Truthy(params) && !params.Arr?
    ensures value.Arr? ==> o == ArrayRuleAsWritten(value, params)
  {
    if !value.Arr? then Verdict(false)
    else if !Truthy(params) then Verdict(true)
    else if !params.Arr? then Threw(TypeError)
    else Nested(value.entries, params.entries)
  }

  /** The as-written `validateArray` aborts on data the corrected one simply rejects. */
  lemma ArrayRuleAbortsOnScalar()
    ensures ArrayRuleAsWritten(Str("x"), Arr([(StrKey("bar"), Arr([(StrKey("required"), Arr([]))]))])) == Threw(TypeError)
    ensures ArrayRule(Str("x"), Arr([(StrKey("bar"), Arr([(StrKey("required"), Arr([]))]))])) == Verdict(false)
  {
  }

  /**
   * The library-backed rules (numeric, integer, boolean, email, url, regex,
   * date, dateBefore, dateAfter) delegate to PHP's parsers; the model takes
   * their answers as a parameter.
   */
  type Library = (Rule, seq<Value>) -> bool

  predicate IsLibraryRule(r: Rule) {
    r in {Numeric, Integer, Boolean, Email, Url, Regex, Date, DateBefore, DateAfter}
  }

  /**
   * `call_user_func_array([$this, "validate<Rule>"], $args)`, where
   * `args[0]` is the value under validation and the rest are the rule's
   * parameters.
   */
  function RuleCall(lib: Library, r: Rule, args: seq<Value>): (o: RuleOutcome)
    requires |args| >= 1
    ensures o.Threw? && r != Array ==> CoerceArgs(Signature(r), args[1..]).Err?
    ensures o.Nested? ==> r == Array && |args| >= 2 && args[0] == Arr(o.data) && args[1] == Arr(o.rules)
    ensures IsLibraryRule(r) && CoerceArgs(Signature(r), args[1..]).Ok? ==>
              o == Verdict(lib(r, [args[0]] + CoerceArgs(Signature(r), args[1..]).value))
  {
    match CoerceArgs(Signature(r), args[1..])
    case Err(e) => Threw(e)
    case Ok(params) =>
      if r == Array then ArrayRule(args[0], if |args| >= 2 then args[1] else Arr([]))
      else Verdict(Passes(lib, r, [args[0]] + params))
  }

  /**
   * `["minLength" => "3"]` works like `["minLength" => 3]`, and `true` as
   * the limit means 1; a limit that is no number, or null, raises TypeError.
   */
  lemma LimitIsCoerced(lib: Library, value: Value)
    ensures RuleCall(lib, MinLength, [value, Str("3")]) == Verdict(ValidateMinLength(value, 3))
    ensures RuleCall(lib, MinLength, [value, Bool(true)]) == Verdict(ValidateMinLength(value, 1))
    ensures RuleCall(lib, MinLength, [value, Str("abc")]) == Threw(TypeError)
    ensures RuleCall(lib, MinLength, [value, Null]) == Threw(TypeError)
  {
    assert [value, Str("3")][1..] == [Str("3")];
    assert IsIntString("3") && ParseInt("3") == 3;
    assert !IsIntString("abc");
  }

  /** The verdict of a rule other than `array` on arguments of the types it declares. */
  function Passes(lib: Library, r: Rule, args: seq<Value>): (ok: bool)
    requires |args| >= 1 && r != Array && Conforms(Signature(r), args[1..])
    ensures IsLibraryRule(r) ==> ok == lib(r, args)
  {
    var value := args[0];
    match r
    case Required => ValidateRequired(value)
    case Equals => ValidateEquals(value, args[1])
    case Different => ValidateDifferent(value, args[1])
    case Length => ValidateLength(value, args[1].i)
    case BetweenLength => ValidateBetweenLength(value, args[1].i, args[2].i)
    case MinLength => ValidateMinLength(value, args[1].i)
    case MaxLength => ValidateMaxLength(value, args[1].i)
    case Size => ValidateSize(value, args[1].i)
    case Between => ValidateBetween(value, args[1].i, args[2].i)
    case Min => ValidateMin(value, args[1].i)
    case Max => ValidateMax(value, args[1].i)
    case InArray => AllPresent(value, args[1..])
    case NotInArray => NonePresent(value, args[1..])
    case _ => lib(r, args)
  }

  /** Calls a rule the way the validator does, running the membership searches as loops. */
  method InvokeRule(lib: Library, r: Rule, args: seq<Value>) returns (o: RuleOutcome)
    requires |args| >= 1
    ensures o == RuleCall(lib, r, args)
  {
    if CoerceArgs(Signature(r), args[1..]).Err? {
      return RuleCall(lib, r, args);
    }
    if r == InArray || r == NotInArray {
      assert [args[0]] + CoerceArgs(Signature(r), args[1..]).value == args;
    }
    if r == InArray {
      var ok := ValidateInArray(args[0], args[1..]);
      return Verdict(ok);
    } else if r == NotInArray {
      var ok := ValidateNotInArray(args[0], args[1..]);
      return Verdict(ok);
    }
    return RuleCall(lib, r, args);
  }
}

module RuleLookup {
  import opened Wrappers
  import opened Rules

  /** Rules whose names differ in length from `name` are passed over. */
  lemma {:induction false} FindInSkips(rules: seq<Rule>, name: string, k: nat)
    requires k <= |rules|
    requires forall i :: 0 <= i < k ==> |RuleName(rules[i])| != |name|
    ensures FindIn(rules, name) == FindIn(rules[k..], name)
  {
    if k > 0 {
      assert |Lower(MethodOf(rules[0]))| != |Lower(MethodFor(name))|;
      assert rules[1..][k - 1..] == rules[k..];
      FindInSkips(rules[1..], name, k - 1);
    }
  }

  /** A rule is found under its own name once the search reaches it. */
  lemma FindInHead(rules: seq<Rule>, name: string)
    requires rules != [] && RuleName(rules[0]) == name
    ensures FindIn(rules, name) == Some(rules[0])
  {
  }

  lemma FindRequired()
    ensures FindRule("required") == Some(Required)
  {
    FindInHead(AllRules, "required");
  }

  lemma FindEquals()
    ensures FindRule("equals") == Some(Equals)
  {
    FindInSkips(AllRules, "equals", 1);
    FindInHead(AllRules[1..], "equals");
  }

  /** A name no rule has is not found. */
  lemma UnknownNameIsNotFound()
    ensures FindRule("unknownRule") == None
  {
    FindInSkips(AllRules, "unknownRule", |AllRules|);
  }
}
