/**
 * The validation engine (src/Validation/Validator.php): rule-specification
 * parsing, the field-by-field walk that dispatches to the rule catalogue,
 * error-message formatting, and the per-instance error accumulator.
 *
 * Each imperative operation of the PHP class is a method of `Validator`
 * proved equal to a specification function over values; the properties the
 * engine promises are lemmas about those functions.
 */
module Validation {
  import opened Wrappers
  import opened PhpValues
  import opened Rules
  import opened RuleLookup

  /** field => list of formatted messages, in the order they were recorded. */
  type ErrorBag = Entries<seq<string>>

  // ---------------------------------------------------------------------
  // A size measure on values, for termination of the nested recursion
  // ---------------------------------------------------------------------

  function ValueSize(v: Value): nat
    decreases v, 1, 0
  {
    match v
    case Arr(es) => 1 + SizeFrom(es, 0)
    case _ => 1
  }

  function SizeFrom(es: Entries<Value>, i: nat): nat
    requires i <= |es|
    decreases Arr(es), 0, |es| - i
  {
    if i == |es| then 0
    else
      assert es[i] in es;
      1 + ValueSize(es[i].1) + SizeFrom(es, i + 1)
  }

  /** The size of an array's entries: one per entry plus the sizes of its values. */
  function EntriesSize(es: Entries<Value>): nat {
    SizeFrom(es, 0)
  }

  lemma {:induction false} SizeFromShift(es: Entries<Value>, i: nat)
    requires 1 <= i <= |es|
    ensures SizeFrom(es, i) == SizeFrom(es[1..], i - 1)
    decreases |es| - i
  {
    if i < |es| {
      SizeFromShift(es, i + 1);
      assert es[1..][i - 1] == es[i];
    }
  }

  /** Every entry's value, and the tail, is strictly smaller than the whole. */
  lemma EntrySmaller(es: Entries<Value>, i: nat)
    requires i < |es|
    ensures ValueSize(es[i].1) < EntriesSize(es)
    ensures EntriesSize(es[1..]) < EntriesSize(es)
  {
    SizeFromShift(es, 1);
    if i > 0 {
      EntrySmaller(es[1..], i - 1);
    }
  }

  // ---------------------------------------------------------------------
  // sprintf
  // ---------------------------------------------------------------------

  function Prefixed(p: string, r: Result<string, Exception>): Result<string, Exception> {
    if r.Ok? then Ok(p + r.value) else r
  }

  /**
   * `sprintf($format, ...$args)` for the directives the engine's templates
   * use: each "%s" takes the next argument as a string and "%%" is a literal
   * percent sign. Running out of arguments raises ArgumentCountError.
   */
  function Sprintf(format: string, args: seq<Value>): Result<string, Exception>
    decreases |format|
  {
    if format == [] then Ok("")
    else if format[0] == '%' && |format| >= 2 && format[1] == 's' then
      if args == [] then Err(ArgumentCountError)
      else Prefixed(ToPhpString(args[0]), Sprintf(format[2..], args[1..]))
    else if format[0] == '%' && |format| >= 2 && format[1] == '%' then
      Prefixed("%", Sprintf(format[2..], args))
    else Prefixed([format[0]], Sprintf(format[1..], args))
  }

  predicate NoPercent(s: string) {
    forall i :: 0 <= i < |s| ==> s[i] != '%'
  }

  /** Literal text is copied through unchanged. */
  lemma {:induction false} SprintfLiteral(p: string, t: string, args: seq<Value>)
    requires NoPercent(p)
    ensures Sprintf(p + t, args) == Prefixed(p, Sprintf(t, args))
    decreases |p|
  {
    if p != [] {
      assert (p + t)[0] == p[0] && p[0] != '%';
      assert (p + t)[1..] == p[1..] + t;
      assert NoPercent(p[1..]) by {
        forall i | 0 <= i < |p[1..]| ensures p[1..][i] != '%' {
          assert p[1..][i] == p[i + 1];
        }
      }
      SprintfLiteral(p[1..], t, args);
      var rest := Sprintf(t, args);
      if rest.Ok? {
        assert [p[0]] + (p[1..] + rest.value) == p + rest.value;
      }
    } else {
      assert p + t == t;
      var rest := Sprintf(t, args);
      if rest.Ok? {
        assert p + rest.value == rest.value;
      }
    }
  }

  /** A template made of literal pieces separated by "%s". */
  function Template(pieces: seq<string>): string
    requires |pieces| > 0
  {
    if |pieces| == 1 then pieces[0] else pieces[0] + "%s" + Template(pieces[1..])
  }

  /** The pieces with the arguments' string forms between them. */
  function Interleave(pieces: seq<string>, args: seq<Value>): string
    requires |pieces| > 0 && |args| >= |pieces| - 1
  {
    if |pieces| == 1 then pieces[0]
    else pieces[0] + ToPhpString(args[0]) + Interleave(pieces[1..], args[1..])
  }

  /**
   * Substitution is positional: the k-th "%s" is replaced by the k-th
   * argument, and surplus arguments are ignored.
   */
  lemma {:induction false} SprintfSubstitutesInOrder(pieces: seq<string>, args: seq<Value>)
    requires |pieces| > 0 && forall i :: 0 <= i < |pieces| ==> NoPercent(pieces[i])
    requires |args| >= |pieces| - 1
    ensures Sprintf(Template(pieces), args) == Ok(Interleave(pieces, args))
    decreases |pieces|
  {
    if |pieces| == 1 {
      SprintfLiteral(pieces[0], "", args);
      assert pieces[0] + "" == pieces[0];
    } else {
      var rest := Template(pieces[1..]);
      assert Template(pieces) == pieces[0] + ("%s" + rest);
      SprintfLiteral(pieces[0], "%s" + rest, args);
      assert ("%s" + rest)[2..] == rest;
      SprintfSubstitutesInOrder(pieces[1..], args[1..]);
      var tail := Interleave(pieces[1..], args[1..]);
      assert Sprintf("%s" + rest, args) == Ok(ToPhpString(args[0]) + tail);
      assert pieces[0] + (ToPhpString(args[0]) + tail) == pieces[0] + ToPhpString(args[0]) + tail;
    }
  }

  /** Fewer arguments than "%s" directives raises ArgumentCountError. */
  lemma {:induction false} SprintfTooFewArguments(pieces: seq<string>, args: seq<Value>)
    requires |pieces| > 0 && forall i :: 0 <= i < |pieces| ==> NoPercent(pieces[i])
    requires |args| < |pieces| - 1
    ensures Sprintf(Template(pieces), args) == Err(ArgumentCountError)
    decreases |pieces|
  {
    var rest := Template(pieces[1..]);
    assert Template(pieces) == pieces[0] + ("%s" + rest);
    SprintfLiteral(pieces[0], "%s" + rest, args);
    if args != [] {
      assert ("%s" + rest)[2..] == rest;
      SprintfTooFewArguments(pieces[1..], args[1..]);
    }
  }

  // ---------------------------------------------------------------------
  // Messages
  // ---------------------------------------------------------------------

  /**
   * `formatErrorMessage($rule, $field, $errors)`: the rule's template with
   * the field name in the first slot and the arguments after it. The field
   * parameter is typed `string`, so an integer field key raises TypeError;
   * a rule without a template hands null to `sprintf`, a TypeError too.
   */
  function Format(messages: Entries<string>, rule: string, field: Key, args: seq<Value>): (r: Result<string, Exception>)
    ensures field.IntKey? ==> r == Err(TypeError)
    ensures StrKey(rule) !in Keys(messages) ==> r == Err(TypeError)
    ensures field.StrKey? && Lookup(messages, StrKey(rule)).Some? ==>
              r == Sprintf(Lookup(messages, StrKey(rule)).value, [Str(field.s)] + args)
  {
    if !field.StrKey? then Err(TypeError)
    else match Lookup(messages, StrKey(rule))
      case None => Err(TypeError)
      case Some(template) => Sprintf(template, [Str(field.s)] + args)
  }

  /** `$this->errors[$field][] = $message`. */
  function AppendError(errs: ErrorBag, field: Key, msg: string): (r: ErrorBag)
    ensures Lookup(r, field) == Some(Lookup(errs, field).GetOr([]) + [msg])
    ensures forall k :: k != field ==> Lookup(r, k) == Lookup(errs, k)
  {
    Put(errs, field, Lookup(errs, field).GetOr([]) + [msg])
  }

  // ---------------------------------------------------------------------
  // parseRules
  // ---------------------------------------------------------------------

  /** `(array) $v`: null becomes [], a scalar a one-element list, an array itself. */
  function CastToArray(v: Value): (r: Entries<Value>)
    ensures !IsPositional(r) ==> EntriesSize(r) < ValueSize(v)
    ensures !v.Arr? && !v.Null? ==> r == [(IntKey(0), v)]
  {
    match v
    case Null => []
    case Arr(es) => es
    case _ => [(IntKey(0), v)]
  }

  /** The key `$a[$v]` uses: integer strings become integers, null "", booleans 0 or 1; an array is illegal. */
  function OffsetKey(v: Value): (r: Result<Key, Exception>)
    ensures r.Err? <==> v.Arr?
    ensures v.Str? && !IsCanonicalIntString(v.s) ==> r == Ok(StrKey(v.s))
  {
    match v
    case Null => Ok(StrKey(""))
    case Bool(b) => Ok(IntKey(if b then 1 else 0))
    case Int(i) => Ok(IntKey(i))
    case Str(s) => Ok(StringKey(s))
    case Arr(_) => Err(TypeError)
  }

  /** parseRules over the remaining fields, `acc` holding the fields parsed so far. */
  function ParsedFields(rules: Entries<Value>, acc: Entries<Value>): Result<Entries<Value>, Exception>
    decreases EntriesSize(rules)
  {
    if rules == [] then Ok(acc)
    else
      var fieldRules := rules[0].1;
      if !fieldRules.Arr? then Err(RuleParsingException)
      else
        EntrySmaller(rules, 0);
        match ParsedRuleSet(fieldRules.entries, [])
        case Err(e) => Err(e)
        case Ok(ruleSet) => ParsedFields(rules[1..], Put(acc, rules[0].0, Arr(ruleSet)))
  }

  /** The inner loop of parseRules over one field's rules, `acc` holding the rules normalised so far. */
  function ParsedRuleSet(entries: Entries<Value>, acc: Entries<Value>): Result<Entries<Value>, Exception>
    decreases EntriesSize(entries)
  {
    if entries == [] then Ok(acc)
    else
      EntrySmaller(entries, 0);
      var key := entries[0].0;
      var rule := entries[0].1;
      if key.IntKey? then
        match OffsetKey(rule)
        case Err(e) => Err(e)
        case Ok(k) => ParsedRuleSet(entries[1..], Put(acc, k, Arr([])))
      else
        var cast := CastToArray(rule);
        if IsPositional(cast) then ParsedRuleSet(entries[1..], Put(acc, key, Arr(cast)))
        else
          match ParsedFields(cast, [])
          case Err(e) => Err(e)
          case Ok(nested) => ParsedRuleSet(entries[1..], Put(acc, key, Arr(nested)))
  }

  /** `parseRules($rules)`. */
  function Parsed(rules: Entries<Value>): Result<Entries<Value>, Exception> {
    ParsedFields(rules, [])
  }

  // ---------------------------------------------------------------------
  // validateData
  // ---------------------------------------------------------------------

  /**
   * The argument list a rule's parameters become: a positional list is
   * spread, anything else (a named map, and also []) is passed as a single
   * argument.
   */
  function RuleParams(params: Entries<Value>): (args: seq<Value>)
    ensures |args| >= 1
    ensures forall i :: 0 <= i < |args| ==> ValueSize(args[i]) <= ValueSize(Arr(params))
  {
    if IsPositional(params) then
      assert forall i :: 0 <= i < |params| ==> ValueSize(params[i].1) < EntriesSize(params) by {
        forall i | 0 <= i < |params| { EntrySmaller(params, i); }
      }
      Values(params)
    else [Arr(params)]
  }

  /** The state a validation run ends in: its result, and the error accumulator. */
  datatype Run<T> = Run(result: Result<T, Exception>, errors: ErrorBag)

  /**
   * validateData over the remaining fields, starting from the accumulator
   * `errs` and the data validated so far.
   */
  function ValidateFields(lib: Library, messages: Entries<string>, errs: ErrorBag,
                          data: Entries<Value>, fields: Entries<Value>, validated: Entries<Value>): Run<Entries<Value>>
    decreases EntriesSize(fields), 2
  {
    if fields == [] then Run(Ok(validated), errs)
    else
      var rules := fields[0].1;
      if !rules.Arr? then Run(Err(RuleParsingException), errs)
      else
        EntrySmaller(fields, 0);
        var s := ValidateRules(lib, messages, errs, data, fields[0].0, rules.entries, validated);
        if s.result.Err? then s
        else ValidateFields(lib, messages, s.errors, data, fields[1..], s.result.value)
  }

  /**
   * One iteration of validateData's inner loop: rule `rule` with parameters
   * `params` applied to `field`. On success the result holds the validated
   * data after the rule; `errs` is the accumulator before it.
   */
  function RuleStep(lib: Library, messages: Entries<string>, errs: ErrorBag, data: Entries<Value>,
                    field: Key, rule: Key, params: Value, validated: Entries<Value>): Run<Entries<Value>>
    decreases ValueSize(params), 1
  {
    if !params.Arr? then Run(Err(TypeError), errs)
    else if !rule.StrKey? then Run(Err(TypeError), errs)
    else match FindRule(rule.s)
      case None => Run(Err(RuleNotFoundException), errs)
      case Some(r) =>
        var args := StepArgs(data, field, params.entries);
        var o := RuleCall(lib, r, args);
        assert o.Nested? ==> ValueSize(Arr(o.rules)) <= ValueSize(params);
        Recorded(lib, messages, errs, data, field, rule.s, args, o, validated)
  }

  /** The arguments a rule is called with: the field's value, then the rule's parameters. */
  function StepArgs(data: Entries<Value>, field: Key, params: Entries<Value>): (args: seq<Value>)
    ensures |args| >= 1 && args[0] == LookupOrNull(data, field)
    ensures forall i :: 1 <= i < |args| ==> ValueSize(args[i]) <= ValueSize(Arr(params))
  {
    [LookupOrNull(data, field)] + RuleParams(params)
  }

  /** A rule that is found is called, and the step records what the call led to. */
  lemma StepRecords(lib: Library, messages: Entries<string>, errs: ErrorBag, data: Entries<Value>,
                    field: Key, rule: Key, params: Value, validated: Entries<Value>)
    requires params.Arr? && rule.StrKey? && FindRule(rule.s).Some?
    ensures var args := StepArgs(data, field, params.entries);
            var o := RuleCall(lib, FindRule(rule.s).value, args);
            && (o.Nested? ==> ValueSize(Arr(o.rules)) <= ValueSize(params))
            && RuleStep(lib, messages, errs, data, field, rule, params, validated)
               == Recorded(lib, messages, errs, data, field, rule.s, args, o, validated)
  {
  }

  /**
   * What validateData does with a rule's outcome: an exception ends the
   * run, nested rules are validated against the field's array, a pass
   * records the field's value and a failure appends the formatted message.
   */
  function Recorded(lib: Library, messages: Entries<string>, errs: ErrorBag, data: Entries<Value>,
                    field: Key, rule: string, args: seq<Value>, o: RuleOutcome,
                    validated: Entries<Value>): Run<Entries<Value>>
    decreases if o.Nested? then ValueSize(Arr(o.rules)) else 0, 0
  {
    var value := LookupOrNull(data, field);
    match o
    case Threw(e) => Run(Err(e), errs)
    case Nested(d, nested) =>
      var n := ValidateFields(lib, messages, errs, d, nested, []);
      if n.result.Err? then n else Run(Ok(Put(validated, field, value)), n.errors)
    case Verdict(ok) =>
      if ok then Run(Ok(Put(validated, field, value)), errs)
      else match Format(messages, rule, field, args)
        case Err(e) => Run(Err(e), errs)
        case Ok(msg) => Run(Ok(validated), AppendError(errs, field, msg))
  }

  /** The inner loop of validateData over one field's rules. */
  function ValidateRules(lib: Library, messages: Entries<string>, errs: ErrorBag, data: Entries<Value>,
                         field: Key, rules: Entries<Value>, validated: Entries<Value>): Run<Entries<Value>>
    decreases EntriesSize(rules), 2
  {
    if rules == [] then Run(Ok(validated), errs)
    else
      EntrySmaller(rules, 0);
      var s := RuleStep(lib, messages, errs, data, field, rules[0].0, rules[0].1, validated);
      if s.result.Err? then s
      else ValidateRules(lib, messages, s.errors, data, field, rules[1..], s.result.value)
  }

  /** What the rest of validateData does after one field's rules have run. */
  function AfterField(lib: Library, messages: Entries<string>, s: Run<Entries<Value>>,
                      data: Entries<Value>, rest: Entries<Value>): Run<Entries<Value>> {
    if s.result.Err? then s else ValidateFields(lib, messages, s.errors, data, rest, s.result.value)
  }

  // ---------------------------------------------------------------------
  // The Validator class
  // ---------------------------------------------------------------------

  /** The class-wide (static) message table, shared by every Validator. */
  class MessageStore {
    var messages: Entries<string>

    constructor()
      ensures messages == []
    {
      messages := [];
    }
  }

  class Validator {
    /** Where the static `$messages` lives. */
    const store: MessageStore
    /** `$errors`: never reset once the instance exists. */
    var errors: ErrorBag

    /**
     * `new Validator($messages)`: the default templates merged with the
     * caller's, the caller's taking precedence; this overwrites the table
     * every other Validator reads.
     */
    constructor(store: MessageStore, defaults: Entries<string>, overrides: Entries<string>)
      modifies store
      ensures this.store == store && errors == []
      ensures store.messages == ArrayMerge(defaults, overrides)
    {
      this.store := store;
      errors := [];
      store.messages := ArrayMerge(defaults, overrides);
    }

    /** `getErrors()`: null until the first failure is recorded. */
    function GetErrors(): (r: Option<ErrorBag>)
      reads this
      ensures r.None? <==> errors == []
      ensures r.Some? ==> r.value == errors
    {
      if errors == [] then None else Some(errors)
    }

    /** `formatErrorMessage($rule, $field, $errors)`. */
    function FormatErrorMessage(rule: string, field: string, args: seq<Value>): (r: Result<string, Exception>)
      reads this, store
      ensures StrKey(rule) !in Keys(store.messages) ==> r == Err(TypeError)
      ensures StrKey(rule) in Keys(store.messages) ==>
                r == Sprintf(Lookup(store.messages, StrKey(rule)).value, [Str(field)] + args)
    {
      Format(store.messages, rule, StrKey(field), args)
    }

    /** `parseRules($rules)`: a loop over the fields, recursing into nested specifications. */
    method ParseRules(rules: Entries<Value>) returns (r: Result<Entries<Value>, Exception>)
      ensures r == Parsed(rules)
      decreases EntriesSize(rules)
    {
      var parsed: Entries<Value> := [];
      var i := 0;
      while i < |rules|
        invariant 0 <= i <= |rules|
        invariant ParsedFields(rules[i..], parsed) == Parsed(rules)
      {
        var field := rules[i].0;
        var fieldRules := rules[i].1;
        assert rules[i..][0] == rules[i] && rules[i..][1..] == rules[i + 1..];
        if !fieldRules.Arr? {
          return Err(RuleParsingException);
        }
        var entries := fieldRules.entries;
        EntrySmaller(rules[i..], 0);
        SuffixSmaller(rules, i);
        var ruleSet: Entries<Value> := [];
        var j := 0;
        while j < |entries|
          invariant 0 <= j <= |entries|
          invariant ParsedRuleSet(entries[j..], ruleSet) == ParsedRuleSet(entries, [])
        {
          var key := entries[j].0;
          var rule := entries[j].1;
          assert entries[j..][0] == entries[j] && entries[j..][1..] == entries[j + 1..];
          if key.IntKey? {
            var k := OffsetKey(rule);
            if k.Err? {
              return Err(k.error);
            }
            ruleSet := Put(ruleSet, k.value, Arr([]));
          } else {
            var cast := CastToArray(rule);
            if !IsPositional(cast) {
              EntrySmaller(entries, j);
              var nested := ParseRules(cast);
              if nested.Err? {
                return Err(nested.error);
              }
              cast := nested.value;
            }
            ruleSet := Put(ruleSet, key, Arr(cast));
          }
          j := j + 1;
        }
        parsed := Put(parsed, field, Arr(ruleSet));
        i := i + 1;
      }
      return Ok(parsed);
    }

    /**
     * `validateData($data, $parsedRules)`: every rule of every field, in
     * order and without short-circuit; a pass records the field's value, a
     * failure appends a message to `errors`.
     */
    method ValidateData(lib: Library, data: Entries<Value>, parsedRules: Entries<Value>)
      returns (r: Result<Entries<Value>, Exception>)
      modifies this
      ensures Run(r, errors) == ValidateFields(lib, store.messages, old(errors), data, parsedRules, [])
      decreases EntriesSize(parsedRules), 2
    {
      var validated: Entries<Value> := [];
      var i := 0;
      while i < |parsedRules|
        invariant 0 <= i <= |parsedRules|
        invariant ValidateFields(lib, store.messages, errors, data, parsedRules[i..], validated)
                  == ValidateFields(lib, store.messages, old(errors), data, parsedRules, [])
      {
        var field := parsedRules[i].0;
        var rules := parsedRules[i].1;
        assert parsedRules[i..][0] == parsedRules[i] && parsedRules[i..][1..] == parsedRules[i + 1..];
        if !rules.Arr? {
          return Err(RuleParsingException);
        }
        var entries := rules.entries;
        EntrySmaller(parsedRules[i..], 0);
        SuffixSmaller(parsedRules, i);
        var j := 0;
        while j < |entries|
          invariant 0 <= j <= |entries|
          invariant AfterField(lib, store.messages,
                      ValidateRules(lib, store.messages, errors, data, field, entries[j..], validated),
                      data, parsedRules[i + 1..])
                    == ValidateFields(lib, store.messages, old(errors), data, parsedRules, [])
        {
          assert entries[j..][0] == entries[j] && entries[j..][1..] == entries[j + 1..];
          EntrySmaller(entries, j);
          var step := ApplyRule(lib, data, field, entries[j].0, entries[j].1, validated);
          if step.Err? {
            return step;
          }
          validated := step.value;
          j := j + 1;
        }
        i := i + 1;
      }
      return Ok(validated);
    }

    /**
     * The body of validateData's inner loop for one rule: look the rule up,
     * call it with the field's value and the parameters, and record the
     * verdict.
     */
    method ApplyRule(lib: Library, data: Entries<Value>, field: Key, rule: Key, params: Value,
                     validated: Entries<Value>) returns (r: Result<Entries<Value>, Exception>)
      modifies this
      ensures Run(r, errors) == RuleStep(lib, store.messages, old(errors), data, field, rule, params, validated)
      decreases ValueSize(params), 1
    {
      if !params.Arr? {
        return Err(TypeError);
      }
      if !rule.StrKey? {
        return Err(TypeError);
      }
      var found := FindRule(rule.s);
      if found.None? {
        return Err(RuleNotFoundException);
      }
      var args := StepArgs(data, field, params.entries);
      var outcome := InvokeRule(lib, found.value, args);
      StepRecords(lib, store.messages, errors, data, field, rule, params, validated);
      r := RecordOutcome(lib, data, field, rule.s, args, outcome, validated);
    }

    /** The rest of the inner loop's body: act on the rule's outcome. */
    method RecordOutcome(lib: Library, data: Entries<Value>, field: Key, rule: string, args: seq<Value>,
                         outcome: RuleOutcome, validated: Entries<Value>) returns (r: Result<Entries<Value>, Exception>)
      modifies this
      ensures Run(r, errors) == Recorded(lib, store.messages, old(errors), data, field, rule, args, outcome, validated)
      decreases if outcome.Nested? then ValueSize(Arr(outcome.rules)) else 0, 0
    {
      var value := LookupOrNull(data, field);
      match outcome
      case Threw(e) =>
        return Err(e);
      case Nested(d, nested) =>
        r := ValidateData(lib, d, nested);
        if r.Ok? {
          r := Ok(Put(validated, field, value));
        }
      case Verdict(ok) =>
        if ok {
          return Ok(Put(validated, field, value));
        }
        var msg := Format(store.messages, rule, field, args);
        if msg.Err? {
          return Err(msg.error);
        }
        errors := AppendError(errors, field, msg.value);
        return Ok(validated);
    }

    /**
     * `validate($data, $rules)`: parseRules, then validateData. Failures are
     * only recorded in `errors`; nothing is raised for them.
     */
    method Validate(lib: Library, data: Entries<Value>, rules: Entries<Value>)
      returns (r: Result<Entries<Value>, Exception>)
      modifies this
      ensures Parsed(rules).Err? ==> r == Err(Parsed(rules).error) && errors == old(errors)
      ensures Parsed(rules).Ok? ==>
                Run(r, errors) == ValidateFields(lib, store.messages, old(errors), data, Parsed(rules).value, [])
    {
      var parsed := ParseRules(rules);
      if parsed.Err? {
        return Err(parsed.error);
      }
      r := ValidateData(lib, data, parsed.value);
    }
  }

  lemma {:induction false} SuffixSmaller(es: Entries<Value>, i: nat)
    requires i <= |es|
    ensures EntriesSize(es[i..]) <= EntriesSize(es)
  {
    if i > 0 {
      assert es[i..] == es[1..][i - 1..];
      SuffixSmaller(es[1..], i - 1);
      EntrySmaller(es, 0);
    }
  }
}

/** The rule-name guard of validateData as written (Validator.php line 67). */
module MethodGuard {
  import opened Wrappers
  import opened Rules
  import opened RuleLookup

  // ---------------------------------------------------------------------
  // The rule-name guard as written
  // ---------------------------------------------------------------------

  /** Every method of the Validator class, those of the rules trait included. */
  function ClassMethods(): seq<string> {
    ["__construct", "validate", "validateData", "parseRules", "getErrors", "formatErrorMessage", "getValueSize"]
    + seq(|AllRules|, i requires 0 <= i < |AllRules| => MethodOf(AllRules[i]))
  }

  /**
   * `method_exists($this, "validate" . ucfirst($rule))` as written: any
   * method of the class, the engine's own included, matches without regard
   * to case.
   */
  predicate MethodExistsAsWritten(rule: string) {
    exists m :: m in ClassMethods() && Lower(m) == Lower(MethodFor(rule))
  }

  /**
   * The guard lets the empty rule name through to `validate`, which then
   * runs with the field's value as its data and the rule's parameters as
   * its rules; the catalogue lookup rejects it.
   */
  lemma GuardAdmitsEngineMethod()
    ensures MethodExistsAsWritten("")
    ensures FindRule("") == None
  {
    assert MethodFor("") == "validate";
    assert "validate" in ClassMethods();
    FindInSkips(AllRules, "", |AllRules|);
  }

  /** Every rule the catalogue lookup finds also passes the guard as written. */
  lemma FindRuleWithinGuard(rule: string)
    ensures FindRule(rule).Some? ==> MethodExistsAsWritten(rule)
  {
    if FindRule(rule).Some? {
      var r := FindRule(rule).value;
      AllRulesComplete(r);
      var i :| 0 <= i < |AllRules| && AllRules[i] == r;
      assert ClassMethods()[7 + i] == MethodOf(r);
    }
  }

}
