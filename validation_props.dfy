/**
 * What the validation engine promises, proved about the specification
 * functions of module Validation: the error accumulator only grows, the
 * validated data is independent of earlier errors and comes verbatim from
 * the input, every rule of a field runs (no short-circuit), and the rule
 * parser's output is normalised.
 */
module ValidationProperties {
  import opened Wrappers
  import opened PhpValues
  import opened Rules
  import opened Validation

  // ---------------------------------------------------------------------
  // The error accumulator only grows
  // ---------------------------------------------------------------------

  /** Every field of `a` is in `b`, its message list a prefix of `b`'s. */
  ghost predicate Extends(a: ErrorBag, b: ErrorBag) {
    forall k :: Lookup(a, k).Some? ==> Lookup(b, k).Some? && Lookup(a, k).value <= Lookup(b, k).value
  }

  lemma ExtendsTransitive(a: ErrorBag, b: ErrorBag, c: ErrorBag)
    requires Extends(a, b) && Extends(b, c)
    ensures Extends(a, c)
  {
    forall k | Lookup(a, k).Some?
      ensures Lookup(c, k).Some? && Lookup(a, k).value <= Lookup(c, k).value
    {
      assert Lookup(b, k).Some?;
    }
  }

  lemma {:induction false} FieldsExtendErrors(lib: Library, messages: Entries<string>, errs: ErrorBag,
                                              data: Entries<Value>, fields: Entries<Value>, validated: Entries<Value>)
    ensures Extends(errs, ValidateFields(lib, messages, errs, data, fields, validated).errors)
    decreases EntriesSize(fields), 2
  {
    if fields != [] && fields[0].1.Arr? {
      EntrySmaller(fields, 0);
      var s := ValidateRules(lib, messages, errs, data, fields[0].0, fields[0].1.entries, validated);
      RulesExtendErrors(lib, messages, errs, data, fields[0].0, fields[0].1.entries, validated);
      if s.result.Ok? {
        FieldsExtendErrors(lib, messages, s.errors, data, fields[1..], s.result.value);
        ExtendsTransitive(errs, s.errors, ValidateFields(lib, messages, s.errors, data, fields[1..], s.result.value).errors);
      }
    }
  }

  lemma {:induction false} RulesExtendErrors(lib: Library, messages: Entries<string>, errs: ErrorBag, data: Entries<Value>,
                                             field: Key, rules: Entries<Value>, validated: Entries<Value>)
    ensures Extends(errs, ValidateRules(lib, messages, errs, data, field, rules, validated).errors)
    decreases EntriesSize(rules), 2
  {
    if rules != [] {
      EntrySmaller(rules, 0);
      var s := RuleStep(lib, messages, errs, data, field, rules[0].0, rules[0].1, validated);
      StepExtendsErrors(lib, messages, errs, data, field, rules[0].0, rules[0].1, validated);
      if s.result.Ok? {
        RulesExtendErrors(lib, messages, s.errors, data, field, rules[1..], s.result.value);
        ExtendsTransitive(errs, s.errors, ValidateRules(lib, messages, s.errors, data, field, rules[1..], s.result.value).errors);
      }
    }
  }

  lemma {:induction false} StepExtendsErrors(lib: Library, messages: Entries<string>, errs: ErrorBag, data: Entries<Value>,
                                             field: Key, rule: Key, params: Value, validated: Entries<Value>)
    ensures Extends(errs, RuleStep(lib, messages, errs, data, field, rule, params, validated).errors)
    decreases ValueSize(params), 1
  {
    if params.Arr? && rule.StrKey? && FindRule(rule.s).Some? {
      var args := StepArgs(data, field, params.entries);
      var o := RuleCall(lib, FindRule(rule.s).value, args);
      StepRecords(lib, messages, errs, data, field, rule, params, validated);
      RecordedExtendsErrors(lib, messages, errs, data, field, rule.s, args, o, validated);
    }
  }

  lemma {:induction false} RecordedExtendsErrors(lib: Library, messages: Entries<string>, errs: ErrorBag, data: Entries<Value>,
                                                 field: Key, rule: string, args: seq<Value>, o: RuleOutcome,
                                                 validated: Entries<Value>)
    ensures Extends(errs, Recorded(lib, messages, errs, data, field, rule, args, o, validated).errors)
    decreases if o.Nested? then ValueSize(Arr(o.rules)) else 0, 0
  {
    match o
    case Threw(_) =>
    case Nested(d, nested) =>
      FieldsExtendErrors(lib, messages, errs, d, nested, []);
    case Verdict(ok) =>
      if !ok && Format(messages, rule, field, args).Ok? {
        var msg := Format(messages, rule, field, args).value;
        forall k | Lookup(errs, k).Some?
          ensures Lookup(AppendError(errs, field, msg), k).Some?
          ensures Lookup(errs, k).value <= Lookup(AppendError(errs, field, msg), k).value
        {
        }
      }
  }

  // ---------------------------------------------------------------------
  // The validated data does not depend on errors already recorded
  // ---------------------------------------------------------------------

  lemma {:induction false} FieldsIgnoreEarlierErrors(lib: Library, messages: Entries<string>, e1: ErrorBag, e2: ErrorBag,
                                                     data: Entries<Value>, fields: Entries<Value>, validated: Entries<Value>)
    ensures ValidateFields(lib, messages, e1, data, fields, validated).result
         == ValidateFields(lib, messages, e2, data, fields, validated).result
    decreases EntriesSize(fields), 2
  {
    if fields != [] && fields[0].1.Arr? {
      EntrySmaller(fields, 0);
      var s1 := ValidateRules(lib, messages, e1, data, fields[0].0, fields[0].1.entries, validated);
      var s2 := ValidateRules(lib, messages, e2, data, fields[0].0, fields[0].1.entries, validated);
      RulesIgnoreEarlierErrors(lib, messages, e1, e2, data, fields[0].0, fields[0].1.entries, validated);
      if s1.result.Ok? {
        FieldsIgnoreEarlierErrors(lib, messages, s1.errors, s2.errors, data, fields[1..], s1.result.value);
      }
    }
  }

  lemma {:induction false} RulesIgnoreEarlierErrors(lib: Library, messages: Entries<string>, e1: ErrorBag, e2: ErrorBag,
                                                    data: Entries<Value>, field: Key, rules: Entries<Value>,
                                                    validated: Entries<Value>)
    ensures ValidateRules(lib, messages, e1, data, field, rules, validated).result
         == ValidateRules(lib, messages, e2, data, field, rules, validated).result
    decreases EntriesSize(rules), 2
  {
    if rules != [] {
      EntrySmaller(rules, 0);
      var s1 := RuleStep(lib, messages, e1, data, field, rules[0].0, rules[0].1, validated);
      var s2 := RuleStep(lib, messages, e2, data, field, rules[0].0, rules[0].1, validated);
      StepIgnoresEarlierErrors(lib, messages, e1, e2, data, field, rules[0].0, rules[0].1, validated);
      if s1.result.Ok? {
        RulesIgnoreEarlierErrors(lib, messages, s1.errors, s2.errors, data, field, rules[1..], s1.result.value);
      }
    }
  }

  lemma {:induction false} StepIgnoresEarlierErrors(lib: Library, messages: Entries<string>, e1: ErrorBag, e2: ErrorBag,
                                                    data: Entries<Value>, field: Key, rule: Key, params: Value,
                                                    validated: Entries<Value>)
    ensures RuleStep(lib, messages, e1, data, field, rule, params, validated).result
         == RuleStep(lib, messages, e2, data, field, rule, params, validated).result
    decreases ValueSize(params), 1
  {
    if params.Arr? && rule.StrKey? && FindRule(rule.s).Some? {
      var args := StepArgs(data, field, params.entries);
      var o := RuleCall(lib, FindRule(rule.s).value, args);
      StepRecords(lib, messages, e1, data, field, rule, params, validated);
      StepRecords(lib, messages, e2, data, field, rule, params, validated);
      RecordedIgnoresEarlierErrors(lib, messages, e1, e2, data, field, rule.s, args, o, validated);
    }
  }

  lemma {:induction false} RecordedIgnoresEarlierErrors(lib: Library, messages: Entries<string>, e1: ErrorBag, e2: ErrorBag,
                                                        data: Entries<Value>, field: Key, rule: string, args: seq<Value>,
                                                        o: RuleOutcome, validated: Entries<Value>)
    ensures Recorded(lib, messages, e1, data, field, rule, args, o, validated).result
         == Recorded(lib, messages, e2, data, field, rule, args, o, validated).result
    decreases if o.Nested? then ValueSize(Arr(o.rules)) else 0, 0
  {
    if o.Nested? {
      FieldsIgnoreEarlierErrors(lib, messages, e1, e2, o.data, o.rules, []);
    }
  }

  // ---------------------------------------------------------------------
  // The validated data comes verbatim from the input
  // ---------------------------------------------------------------------

  /** Every entry of `validated` holds the input's value for its key. */
  ghost predicate FromData(validated: Entries<Value>, data: Entries<Value>) {
    forall k :: Lookup(validated, k).Some? ==> Lookup(validated, k).value == LookupOrNull(data, k)
  }

  /** Recording an outcome either leaves the validated data alone or records the field's input value. */
  lemma RecordedKeepsDataVerbatim(lib: Library, messages: Entries<string>, errs: ErrorBag, data: Entries<Value>,
                                  field: Key, rule: string, args: seq<Value>, o: RuleOutcome, validated: Entries<Value>)
    ensures var s := Recorded(lib, messages, errs, data, field, rule, args, o, validated);
            s.result.Ok? ==> s.result.value in {validated, Put(validated, field, LookupOrNull(data, field))}
  {
    match o
    case Threw(_) =>
    case Nested(d, nested) =>
    case Verdict(ok) =>
      if !ok {
        match Format(messages, rule, field, args)
        case Err(_) =>
        case Ok(_) =>
      }
  }

  lemma PutKeepsFromData(validated: Entries<Value>, data: Entries<Value>, field: Key)
    requires FromData(validated, data)
    ensures FromData(Put(validated, field, LookupOrNull(data, field)), data)
  {
    var put := Put(validated, field, LookupOrNull(data, field));
    forall k | Lookup(put, k).Some? ensures Lookup(put, k).value == LookupOrNull(data, k) {
      if k != field {
        assert Lookup(put, k) == Lookup(validated, k);
      }
    }
  }

  /** One rule either leaves the validated data alone or records the field's input value. */
  lemma StepKeepsDataVerbatim(lib: Library, messages: Entries<string>, errs: ErrorBag, data: Entries<Value>,
                              field: Key, rule: Key, params: Value, validated: Entries<Value>)
    requires FromData(validated, data)
    ensures var s := RuleStep(lib, messages, errs, data, field, rule, params, validated);
            s.result.Ok? ==>
              FromData(s.result.value, data) &&
              forall k :: Lookup(s.result.value, k).Some? ==> Lookup(validated, k).Some? || k == field
  {
    var s := RuleStep(lib, messages, errs, data, field, rule, params, validated);
    if s.result.Ok? {
      var args := StepArgs(data, field, params.entries);
      var o := RuleCall(lib, FindRule(rule.s).value, args);
      StepRecords(lib, messages, errs, data, field, rule, params, validated);
      RecordedKeepsDataVerbatim(lib, messages, errs, data, field, rule.s, args, o, validated);
      PutKeepsFromData(validated, data, field);
    }
  }

  lemma {:induction false} RulesKeepDataVerbatim(lib: Library, messages: Entries<string>, errs: ErrorBag, data: Entries<Value>,
                                                 field: Key, rules: Entries<Value>, validated: Entries<Value>)
    requires FromData(validated, data)
    ensures var s := ValidateRules(lib, messages, errs, data, field, rules, validated);
            s.result.Ok? ==>
              FromData(s.result.value, data) &&
              forall k :: Lookup(s.result.value, k).Some? ==> Lookup(validated, k).Some? || k == field
    decreases |rules|
  {
    if rules != [] {
      EntrySmaller(rules, 0);
      var s := RuleStep(lib, messages, errs, data, field, rules[0].0, rules[0].1, validated);
      if s.result.Ok? {
        StepKeepsDataVerbatim(lib, messages, errs, data, field, rules[0].0, rules[0].1, validated);
        RulesKeepDataVerbatim(lib, messages, s.errors, data, field, rules[1..], s.result.value);
      }
    }
  }

  /**
   * validateData returns only fields that have rules, each with exactly the
   * value the input holds for it.
   */
  lemma {:induction false} FieldsKeepDataVerbatim(lib: Library, messages: Entries<string>, errs: ErrorBag,
                                                  data: Entries<Value>, fields: Entries<Value>, validated: Entries<Value>)
    requires FromData(validated, data)
    ensures var s := ValidateFields(lib, messages, errs, data, fields, validated);
            s.result.Ok? ==>
              FromData(s.result.value, data) &&
              forall k :: Lookup(s.result.value, k).Some? ==> Lookup(validated, k).Some? || k in Keys(fields)
    decreases |fields|
  {
    if fields != [] && fields[0].1.Arr? {
      EntrySmaller(fields, 0);
      var s := ValidateRules(lib, messages, errs, data, fields[0].0, fields[0].1.entries, validated);
      RulesKeepDataVerbatim(lib, messages, errs, data, fields[0].0, fields[0].1.entries, validated);
      if s.result.Ok? {
        FieldsKeepDataVerbatim(lib, messages, s.errors, data, fields[1..], s.result.value);
        assert Keys(fields) == [fields[0].0] + Keys(fields[1..]);
      }
    }
  }

  lemma ValidatedDataComesFromInput(lib: Library, messages: Entries<string>, errs: ErrorBag,
                                    data: Entries<Value>, parsed: Entries<Value>)
    ensures var s := ValidateFields(lib, messages, errs, data, parsed, []);
            s.result.Ok? ==>
              forall k :: Lookup(s.result.value, k).Some? ==>
                k in Keys(parsed) && Lookup(s.result.value, k).value == LookupOrNull(data, k)
  {
    FieldsKeepDataVerbatim(lib, messages, errs, data, parsed, []);
  }

  // ---------------------------------------------------------------------
  // Every rule of a field runs
  // ---------------------------------------------------------------------

  /** The verdict a rule gives the field, when it is found and returns one. */
  function VerdictOf(lib: Library, data: Entries<Value>, field: Key, rule: Key, params: Value): Option<bool> {
    if params.Arr? && rule.StrKey? && FindRule(rule.s).Some? then
      match RuleCall(lib, FindRule(rule.s).value, StepArgs(data, field, params.entries))
      case Verdict(ok) => Some(ok)
      case _ => None
    else None
  }

  /** How many of the rules reject the field. */
  function Failures(lib: Library, data: Entries<Value>, field: Key, rules: Entries<Value>): nat {
    if rules == [] then 0
    else (if VerdictOf(lib, data, field, rules[0].0, rules[0].1) == Some(false) then 1 else 0)
         + Failures(lib, data, field, rules[1..])
  }

  function Messages(errs: ErrorBag, field: Key): seq<string> {
    Lookup(errs, field).GetOr([])
  }

  /** What one rule that gives a verdict does to the run. */
  lemma StepOnVerdict(lib: Library, messages: Entries<string>, errs: ErrorBag, data: Entries<Value>,
                      field: Key, rule: Key, params: Value, validated: Entries<Value>)
    requires VerdictOf(lib, data, field, rule, params).Some?
    requires RuleStep(lib, messages, errs, data, field, rule, params, validated).result.Ok?
    ensures var s := RuleStep(lib, messages, errs, data, field, rule, params, validated);
            if VerdictOf(lib, data, field, rule, params) == Some(true) then
              s == Run(Ok(Put(validated, field, LookupOrNull(data, field))), errs)
            else
              && s.result == Ok(validated)
              && |Messages(s.errors, field)| == |Messages(errs, field)| + 1
              && forall k :: k != field ==> Lookup(s.errors, k) == Lookup(errs, k)
  {
    var verdict := VerdictOf(lib, data, field, rule, params);
    var args := StepArgs(data, field, params.entries);
    assert RuleCall(lib, FindRule(rule.s).value, args) == Verdict(verdict.value);
    var s := RuleStep(lib, messages, errs, data, field, rule, params, validated);
    StepRecords(lib, messages, errs, data, field, rule, params, validated);
    if verdict == Some(false) {
      var msg := Format(messages, rule.s, field, args).value;
      assert s.errors == AppendError(errs, field, msg);
    }
  }

  /** Some rule of a non-empty list accepts exactly when the first does or one of the others. */
  lemma SomeAcceptsSplit(lib: Library, data: Entries<Value>, field: Key, rules: Entries<Value>)
    requires rules != []
    ensures (exists i :: 0 <= i < |rules| && VerdictOf(lib, data, field, rules[i].0, rules[i].1) == Some(true))
        <==> VerdictOf(lib, data, field, rules[0].0, rules[0].1) == Some(true) ||
             exists i :: 0 <= i < |rules[1..]| && VerdictOf(lib, data, field, rules[1..][i].0, rules[1..][i].1) == Some(true)
  {
    if exists i :: 0 <= i < |rules[1..]| && VerdictOf(lib, data, field, rules[1..][i].0, rules[1..][i].1) == Some(true) {
      var i :| 0 <= i < |rules[1..]| && VerdictOf(lib, data, field, rules[1..][i].0, rules[1..][i].1) == Some(true);
      assert rules[1..][i] == rules[i + 1];
    }
    if exists i :: 0 <= i < |rules| && VerdictOf(lib, data, field, rules[i].0, rules[i].1) == Some(true) {
      var i :| 0 <= i < |rules| && VerdictOf(lib, data, field, rules[i].0, rules[i].1) == Some(true);
      if i != 0 {
        assert rules[1..][i - 1] == rules[i];
      }
    }
  }

  /**
   * A field's rules are not short-circuited: when each gives a verdict and
   * the run completes, every rejecting rule adds one message for the field,
   * no other field's messages change, and the field is in the validated
   * data exactly when it was already or some rule accepted it.
   */
  lemma {:induction false} EveryRuleOfAFieldRuns(lib: Library, messages: Entries<string>, errs: ErrorBag,
                                                 data: Entries<Value>, field: Key, rules: Entries<Value>,
                                                 validated: Entries<Value>)
    requires forall i :: 0 <= i < |rules| ==> VerdictOf(lib, data, field, rules[i].0, rules[i].1).Some?
    requires ValidateRules(lib, messages, errs, data, field, rules, validated).result.Ok?
    ensures var s := ValidateRules(lib, messages, errs, data, field, rules, validated);
            |Messages(s.errors, field)| == |Messages(errs, field)| + Failures(lib, data, field, rules) &&
            (forall k :: k != field ==> Lookup(s.errors, k) == Lookup(errs, k)) &&
            (forall k :: k != field ==> Lookup(s.result.value, k) == Lookup(validated, k)) &&
            (Lookup(s.result.value, field).Some? <==>
              Lookup(validated, field).Some? ||
              exists i :: 0 <= i < |rules| && VerdictOf(lib, data, field, rules[i].0, rules[i].1) == Some(true))
    decreases |rules|
  {
    if rules != [] {
      var s := RuleStep(lib, messages, errs, data, field, rules[0].0, rules[0].1, validated);
      StepOnVerdict(lib, messages, errs, data, field, rules[0].0, rules[0].1, validated);
      forall i | 0 <= i < |rules[1..]|
        ensures VerdictOf(lib, data, field, rules[1..][i].0, rules[1..][i].1).Some?
      {
        assert rules[1..][i] == rules[i + 1];
      }
      EveryRuleOfAFieldRuns(lib, messages, s.errors, data, field, rules[1..], s.result.value);
      SomeAcceptsSplit(lib, data, field, rules);
    }
  }

  // ---------------------------------------------------------------------
  // parseRules
  // ---------------------------------------------------------------------

  /** Every value of `es` is an array. */
  ghost predicate AllArrays(es: Entries<Value>) {
    forall k :: Lookup(es, k).Some? ==> Lookup(es, k).value.Arr?
  }

  /** The shape validateData expects: every field maps to rules, every rule to an array of parameters. */
  ghost predicate Normalized(parsed: Entries<Value>) {
    forall k :: Lookup(parsed, k).Some? ==>
      Lookup(parsed, k).value.Arr? && AllArrays(Lookup(parsed, k).value.entries)
  }

  lemma {:induction false} ParsedRuleSetIsArrays(entries: Entries<Value>, acc: Entries<Value>)
    requires AllArrays(acc)
    ensures ParsedRuleSet(entries, acc).Ok? ==> AllArrays(ParsedRuleSet(entries, acc).value)
    decreases |entries|
  {
    if entries != [] {
      EntrySmaller(entries, 0);
      var key := entries[0].0;
      var rule := entries[0].1;
      if key.IntKey? {
        if OffsetKey(rule).Ok? {
          ParsedRuleSetIsArrays(entries[1..], Put(acc, OffsetKey(rule).value, Arr([])));
        }
      } else {
        var cast := CastToArray(rule);
        if IsPositional(cast) {
          ParsedRuleSetIsArrays(entries[1..], Put(acc, key, Arr(cast)));
        } else if ParsedFields(cast, []).Ok? {
          ParsedRuleSetIsArrays(entries[1..], Put(acc, key, Arr(ParsedFields(cast, []).value)));
        }
      }
    }
  }

  lemma {:induction false} ParsedFieldsNormalized(rules: Entries<Value>, acc: Entries<Value>)
    requires Normalized(acc)
    ensures ParsedFields(rules, acc).Ok? ==> Normalized(ParsedFields(rules, acc).value)
    decreases |rules|
  {
    if rules != [] && rules[0].1.Arr? {
      ParsedRuleSetIsArrays(rules[0].1.entries, []);
      var ruleSet := ParsedRuleSet(rules[0].1.entries, []);
      if ruleSet.Ok? {
        ParsedFieldsNormalized(rules[1..], Put(acc, rules[0].0, Arr(ruleSet.value)));
      }
    }
  }

  /** Whatever parseRules returns has the shape validateData needs. */
  lemma ParsedRulesAreNormalized(rules: Entries<Value>)
    ensures Parsed(rules).Ok? ==> Normalized(Parsed(rules).value)
  {
    ParsedFieldsNormalized(rules, []);
  }

  lemma UniqueKeysTail<V>(es: Entries<V>)
    requires es != [] && UniqueKeys(es)
    ensures UniqueKeys(es[1..])
    ensures es[0].0 !in Keys(es[1..])
  {
    forall i, j | 0 <= i < j < |es[1..]| ensures es[1..][i].0 != es[1..][j].0 {
      assert es[1..][i] == es[i + 1] && es[1..][j] == es[j + 1];
    }
  }

  /** Adding a field's entry keeps the remaining fields fresh. */
  lemma FreshAfterPut(rules: Entries<Value>, acc: Entries<Value>, v: Value)
    requires rules != [] && UniqueKeys(rules)
    requires forall k :: k in Keys(rules) ==> k !in Keys(acc)
    ensures Keys(Put(acc, rules[0].0, v)) == Keys(acc) + [rules[0].0]
    ensures forall k :: k in Keys(rules[1..]) ==> k !in Keys(Put(acc, rules[0].0, v))
  {
    assert Keys(rules) == [rules[0].0] + Keys(rules[1..]);
    UniqueKeysTail(rules);
    PutKeys(acc, rules[0].0, v);
  }

  lemma {:induction false} ParsedFieldsKeepFields(rules: Entries<Value>, acc: Entries<Value>)
    requires UniqueKeys(rules)
    requires forall k :: k in Keys(rules) ==> k !in Keys(acc)
    ensures ParsedFields(rules, acc).Ok? ==> Keys(ParsedFields(rules, acc).value) == Keys(acc) + Keys(rules)
    decreases |rules|
  {
    if rules != [] && rules[0].1.Arr? {
      var ruleSet := ParsedRuleSet(rules[0].1.entries, []);
      if ruleSet.Ok? {
        var acc' := Put(acc, rules[0].0, Arr(ruleSet.value));
        assert ParsedFields(rules, acc) == ParsedFields(rules[1..], acc');
        FreshAfterPut(rules, acc, Arr(ruleSet.value));
        UniqueKeysTail(rules);
        ParsedFieldsKeepFields(rules[1..], acc');
        var rest := ParsedFields(rules[1..], acc');
        if rest.Ok? {
          calc {
            Keys(rest.value);
            Keys(acc') + Keys(rules[1..]);
            (Keys(acc) + [rules[0].0]) + Keys(rules[1..]);
            { assert Keys(rules) == [rules[0].0] + Keys(rules[1..]); }
            Keys(acc) + Keys(rules);
          }
        }
      }
    }
  }

  /** parseRules keeps every field, in order, and adds none. */
  lemma ParsedRulesKeepFields(rules: Entries<Value>)
    requires UniqueKeys(rules)
    ensures Parsed(rules).Ok? ==> Keys(Parsed(rules).value) == Keys(rules)
  {
    ParsedFieldsKeepFields(rules, []);
  }
}

module ValidationExamples {
  import opened Wrappers
  import opened PhpValues
  import opened Rules
  import opened RuleLookup
  import opened Validation

  /** A bare rule name gets an empty parameter list; a scalar parameter is wrapped in a list. */
  lemma ParseNormalisesShorthands()
    ensures Parsed([(StrKey("name"), Arr([(IntKey(0), Str("required")), (StrKey("minLength"), Int(3))]))])
         == Ok([(StrKey("name"), Arr([(StrKey("required"), Arr([])), (StrKey("minLength"), Arr([(IntKey(0), Int(3))]))]))])
  {
    var a2 := [(StrKey("required"), Arr([])), (StrKey("minLength"), Arr([(IntKey(0), Int(3))]))];
    BareRuleName();
    ScalarParameter();
    var rules := [(StrKey("name"), Arr([(IntKey(0), Str("required")), (StrKey("minLength"), Int(3))]))];
    assert ParsedFields(rules, []) == ParsedFields([], Put([], StrKey("name"), Arr(a2)));
  }

  /** The bare name "required" under an integer key becomes the rule with no parameters. */
  lemma BareRuleName()
    ensures ParsedRuleSet([(IntKey(0), Str("required")), (StrKey("minLength"), Int(3))], [])
         == ParsedRuleSet([(StrKey("minLength"), Int(3))], [(StrKey("required"), Arr([]))])
  {
    var e0 := (IntKey(0), Str("required"));
    var e1 := (StrKey("minLength"), Int(3));
    assert !IsDigit("required"[0]);
    assert OffsetKey(Str("required")) == Ok(StrKey("required"));
    assert [e0, e1][1..] == [e1];
  }

  /** The scalar parameter 3 becomes the positional list [3]. */
  lemma ScalarParameter()
    ensures ParsedRuleSet([(StrKey("minLength"), Int(3))], [(StrKey("required"), Arr([]))])
         == Ok([(StrKey("required"), Arr([])), (StrKey("minLength"), Arr([(IntKey(0), Int(3))]))])
  {
    var cast := [(IntKey(0), Int(3))];
    assert IsPositional(cast) by {
      assert Keys(cast) == [IntKey(0)];
      assert RangeKeys(1) == [IntKey(0)];
    }
    var a1 := [(StrKey("required"), Arr([]))];
    var e1 := (StrKey("minLength"), Int(3));
    assert CastToArray(Int(3)) == cast;
    assert [e1][1..] == [];
    assert a1[1..] == [];
    assert Put(a1, StrKey("minLength"), Arr(cast)) == a1 + [(StrKey("minLength"), Arr(cast))];
    assert ParsedRuleSet([e1], a1) == ParsedRuleSet([], a1 + [(StrKey("minLength"), Arr(cast))]);
    assert a1 + [(StrKey("minLength"), Arr(cast))] == [(StrKey("required"), Arr([])), (StrKey("minLength"), Arr(cast))];
  }

  /** A field whose rules are not an array is rejected. */
  lemma ParseRejectsScalarField()
    ensures Parsed([(StrKey("name"), Str("required"))]) == Err(RuleParsingException)
  {
  }

  /** The first step of the mixed example: `required` accepts 5. */
  lemma RequiredAcceptsFive(lib: Library, messages: Entries<string>)
    ensures RuleStep(lib, messages, [], [(StrKey("age"), Int(5))], StrKey("age"), StrKey("required"), Arr([]), [])
         == Run(Ok([(StrKey("age"), Int(5))]), [])
  {
    FindRequired();
    assert !IsPositional<Value>([]) by { assert Keys<Value>([]) != RangeKeys(0); }
    var args := [Int(5), Arr([])];
    assert RuleCall(lib, Required, args) == Verdict(true);
  }

  /** `equals` with the positional parameter 10 is called with the value 5 and then 10. */
  lemma EqualsArgs()
    ensures StepArgs([(StrKey("age"), Int(5))], StrKey("age"), [(IntKey(0), Int(10))]) == [Int(5), Int(10)]
  {
    var params := [(IntKey(0), Int(10))];
    assert IsPositional(params) by {
      assert Keys(params) == [IntKey(0)];
      assert RangeKeys(1) == [IntKey(0)];
    }
    assert RuleParams(params) == [Int(10)];
  }

  /** 5 is not identical to 10. */
  lemma EqualsVerdict(lib: Library)
    ensures RuleCall(lib, Equals, [Int(5), Int(10)]) == Verdict(false)
  {
    assert ValidateEquals(Int(5), Int(10)) == false;
  }

  /**
   * The second step: `equals` with 10 rejects 5 and records the message its
   * template makes of the field, the value and the expected value.
   */
  lemma EqualsRejectsFive(lib: Library, template: string, msg: string)
    requires Sprintf(template, [Str("age"), Int(5), Int(10)]) == Ok(msg)
    ensures RuleStep(lib, [(StrKey("equals"), template)], [], [(StrKey("age"), Int(5))],
                     StrKey("age"), StrKey("equals"), Arr([(IntKey(0), Int(10))]), [(StrKey("age"), Int(5))])
         == Run(Ok([(StrKey("age"), Int(5))]), [(StrKey("age"), [msg])])
  {
    var messages := [(StrKey("equals"), template)];
    var data := [(StrKey("age"), Int(5))];
    EqualsStepIsVerdict(lib, template);
    assert Lookup(messages, StrKey("equals")) == Some(template);
    assert [Str("age")] + [Int(5), Int(10)] == [Str("age"), Int(5), Int(10)];
    assert Format(messages, "equals", StrKey("age"), [Int(5), Int(10)]) == Ok(msg);
    assert AppendError([], StrKey("age"), msg) == [(StrKey("age"), [msg])] by {
      assert [] + [msg] == [msg];
    }
  }

  /** The `equals` step calls the rule with 5 and 10 and gets a rejection. */
  lemma EqualsStepIsVerdict(lib: Library, template: string)
    ensures RuleStep(lib, [(StrKey("equals"), template)], [], [(StrKey("age"), Int(5))],
                     StrKey("age"), StrKey("equals"), Arr([(IntKey(0), Int(10))]), [(StrKey("age"), Int(5))])
         == Recorded(lib, [(StrKey("equals"), template)], [], [(StrKey("age"), Int(5))],
                     StrKey("age"), "equals", [Int(5), Int(10)], Verdict(false), [(StrKey("age"), Int(5))])
  {
    FindEquals();
    EqualsArgs();
    StepRecords(lib, [(StrKey("equals"), template)], [], [(StrKey("age"), Int(5))],
                StrKey("age"), StrKey("equals"), Arr([(IntKey(0), Int(10))]), [(StrKey("age"), Int(5))]);
    EqualsVerdict(lib);
  }

  /**
   * A field that passes one rule and fails another lands in both the
   * validated data and the error list.
   */
  lemma MixedFieldLandsInBothMaps(lib: Library, template: string, msg: string)
    requires Sprintf(template, [Str("age"), Int(5), Int(10)]) == Ok(msg)
    ensures ValidateFields(lib, [(StrKey("equals"), template)], [],
                           [(StrKey("age"), Int(5))],
                           [(StrKey("age"), Arr([(StrKey("required"), Arr([])), (StrKey("equals"), Arr([(IntKey(0), Int(10))]))]))],
                           [])
         == Run(Ok([(StrKey("age"), Int(5))]), [(StrKey("age"), [msg])])
  {
    var messages := [(StrKey("equals"), template)];
    var data := [(StrKey("age"), Int(5))];
    var r0 := (StrKey("required"), Arr([]));
    var r1 := (StrKey("equals"), Arr([(IntKey(0), Int(10))]));
    RequiredAcceptsFive(lib, messages);
    EqualsRejectsFive(lib, template, msg);
    assert [r0, r1][1..] == [r1];
    assert ValidateRules(lib, messages, [], data, StrKey("age"), [r0, r1], [])
        == ValidateRules(lib, messages, [], data, StrKey("age"), [r1], data);
    assert ValidateRules(lib, messages, [], data, StrKey("age"), [r1], data)
        == Run(Ok(data), [(StrKey("age"), [msg])]);
  }

  /** A rule outside the catalogue raises RuleNotFoundException. */
  lemma UnknownRuleRaises(lib: Library, messages: Entries<string>)
    ensures ValidateFields(lib, messages, [], [], [(StrKey("name"), Arr([(StrKey("unknownRule"), Arr([]))]))], [])
         == Run(Err(RuleNotFoundException), [])
  {
    UnknownNameIsNotFound();
  }
}
