/**
 * PHP's loosely-typed values as the core handles them: scalars, ordered
 * arrays with integer or string keys, and the handful of built-in
 * conversions the core relies on (`trim`, `rtrim`, truthiness, integer
 * printing and parsing, `array_merge`).
 */
module PhpValues {
  import opened Wrappers

  /** An array key: PHP arrays are keyed by integers or strings. */
  datatype Key = IntKey(i: int) | StrKey(s: string)

  /** A PHP value. Floats and objects are not part of the model. */
  datatype Value =
    | Null
    | Bool(b: bool)
    | Int(i: int)
    | Str(s: string)
    | Arr(entries: seq<(Key, Value)>)

  /** An ordered PHP array whose values have type V. */
  type Entries<V> = seq<(Key, V)>

  // ---------------------------------------------------------------------
  // Ordered arrays
  // ---------------------------------------------------------------------

  /** `array_keys`: the keys in iteration order. */
  function Keys<V>(es: Entries<V>): (ks: seq<Key>)
    ensures |ks| == |es|
    ensures forall i :: 0 <= i < |es| ==> ks[i] == es[i].0
  {
    if es == [] then [] else [es[0].0] + Keys(es[1..])
  }

  /** `array_values`: the values in iteration order. */
  function Values<V>(es: Entries<V>): (vs: seq<V>)
    ensures |vs| == |es|
    ensures forall i :: 0 <= i < |es| ==> vs[i] == es[i].1
  {
    if es == [] then [] else [es[0].1] + Values(es[1..])
  }

  /** No key occurs twice, as in every array PHP builds. */
  predicate UniqueKeys<V>(es: Entries<V>) {
    forall i, j :: 0 <= i < j < |es| ==> es[i].0 != es[j].0
  }

  /** `$a[$k]` when the key is set. */
  function Lookup<V>(es: Entries<V>, k: Key): (r: Option<V>)
    ensures r.Some? <==> k in Keys(es)
    ensures r.Some? ==> (k, r.value) in es
  {
    if es == [] then None
    else if es[0].0 == k then Some(es[0].1)
    else Lookup(es[1..], k)
  }

  /** `isset($a[$k]) ? $a[$k] : null`. */
  function LookupOrNull(es: Entries<Value>, k: Key): Value {
    Lookup(es, k).GetOr(Null)
  }

  /**
   * `$a[$k] = $v`: an existing key keeps its position and takes the new
   * value; a new key is appended at the end.
   */
  function Put<V>(es: Entries<V>, k: Key, v: V): (r: Entries<V>)
    ensures Lookup(r, k) == Some(v)
    ensures forall k' :: k' != k ==> Lookup(r, k') == Lookup(es, k')
  {
    if es == [] then [(k, v)]
    else if es[0].0 == k then [(k, v)] + es[1..]
    else [es[0]] + Put(es[1..], k, v)
  }

  /** Assignment keeps the key order: an existing key stays in place, a new one goes last. */
  lemma {:induction false} PutKeys<V>(es: Entries<V>, k: Key, v: V)
    ensures Keys(Put(es, k, v)) == if k in Keys(es) then Keys(es) else Keys(es) + [k]
  {
    if es != [] && es[0].0 != k {
      PutKeys(es[1..], k, v);
      assert Keys([es[0]] + Put(es[1..], k, v)) == [es[0].0] + Keys(Put(es[1..], k, v));
      assert Keys(es) == [es[0].0] + Keys(es[1..]);
    } else if es != [] {
      assert Keys([(k, v)] + es[1..]) == [k] + Keys(es[1..]);
      assert Keys(es) == [k] + Keys(es[1..]);
    }
  }

  /** Assignment never introduces a duplicate key. */
  lemma PutKeepsKeysUnique<V>(es: Entries<V>, k: Key, v: V)
    requires UniqueKeys(es)
    ensures UniqueKeys(Put(es, k, v))
  {
    var r := Put(es, k, v);
    PutKeys(es, k, v);
    forall i, j | 0 <= i < j < |r| ensures r[i].0 != r[j].0 {
      assert Keys(r)[i] == r[i].0 && Keys(r)[j] == r[j].0;
      if j < |es| {
        assert Keys(es)[i] == es[i].0 && Keys(es)[j] == es[j].0;
      } else {
        assert k !in Keys(es);
        assert Keys(es)[i] == es[i].0;
      }
    }
  }

  /**
   * `range(0, $n - 1)` as keys. PHP's `range` counts down when its bounds
   * are reversed, so for n == 0 it yields [0, -1], not [].
   */
  function RangeKeys(n: nat): seq<Key> {
    if n == 0 then [IntKey(0), IntKey(-1)] else seq(n, i => IntKey(i))
  }

  /**
   * `array_keys($a) === range(0, count($a) - 1)`: the test the core uses to
   * tell a positional parameter list from a named map.
   */
  predicate IsPositional<V>(es: Entries<V>) {
    Keys(es) == RangeKeys(|es|)
  }

  /** A positional array is a non-empty one keyed exactly 0..n-1; in particular [] is never positional. */
  lemma PositionalIffSequentialKeys<V>(es: Entries<V>)
    ensures IsPositional(es) <==> |es| > 0 && forall i :: 0 <= i < |es| ==> es[i].0 == IntKey(i)
  {
    if |es| > 0 && forall i :: 0 <= i < |es| ==> es[i].0 == IntKey(i) {
      assert Keys(es) == RangeKeys(|es|);
    }
    if IsPositional(es) && |es| > 0 {
      forall i | 0 <= i < |es| ensures es[i].0 == IntKey(i) {
        assert Keys(es)[i] == RangeKeys(|es|)[i];
      }
    }
  }

  /** The number of integer keys, which is where `array_merge` numbers the next one. */
  function CountIntKeys<V>(es: Entries<V>): nat {
    if es == [] then 0 else (if es[0].0.IntKey? then 1 else 0) + CountIntKeys(es[1..])
  }

  /** One step of `array_merge`: integer keys are renumbered and appended, string keys overwrite. */
  function MergeEntry<V>(acc: Entries<V>, e: (Key, V)): Entries<V> {
    if e.0.IntKey? then acc + [(IntKey(CountIntKeys(acc)), e.1)] else Put(acc, e.0, e.1)
  }

  function MergeAll<V>(acc: Entries<V>, es: Entries<V>): Entries<V>
    decreases |es|
  {
    if es == [] then acc else MergeAll(MergeEntry(acc, es[0]), es[1..])
  }

  /** `array_merge($a, $b)`: the entries of a, then those of b, merged one by one into an empty array. */
  function ArrayMerge<V>(a: Entries<V>, b: Entries<V>): Entries<V> {
    MergeAll([], a + b)
  }

  /** Merging a concatenation is merging its two parts one after the other. */
  lemma {:induction false} MergeAllConcat<V>(acc: Entries<V>, a: Entries<V>, b: Entries<V>)
    ensures MergeAll(acc, a + b) == MergeAll(MergeAll(acc, a), b)
    decreases |a|
  {
    if a != [] {
      assert (a + b)[0] == a[0] && (a + b)[1..] == a[1..] + b;
      MergeAllConcat(MergeEntry(acc, a[0]), a[1..], b);
    } else {
      assert a + b == b;
    }
  }

  lemma CountIntKeysAppend<V>(acc: Entries<V>, e: (Key, V))
    ensures CountIntKeys(acc + [e]) == CountIntKeys(acc) + (if e.0.IntKey? then 1 else 0)
  {
    if acc != [] {
      assert (acc + [e])[1..] == acc[1..] + [e];
      CountIntKeysAppend(acc[1..], e);
    }
  }

  /** Merging leaves every string key of the accumulator alone unless the merged entries set it. */
  lemma {:induction false} MergeAllStrKey<V>(acc: Entries<V>, es: Entries<V>, k: string)
    requires UniqueKeys(es)
    ensures Lookup(MergeAll(acc, es), StrKey(k)) ==
            if StrKey(k) in Keys(es) then Lookup(es, StrKey(k)) else Lookup(acc, StrKey(k))
    decreases |es|
  {
    if es != [] {
      var acc' := MergeEntry(acc, es[0]);
      assert UniqueKeys(es[1..]);
      MergeAllStrKey(acc', es[1..], k);
      if es[0].0.IntKey? {
        assert Lookup(acc', StrKey(k)) == Lookup(acc, StrKey(k)) by {
          LookupAppendOther(acc, (IntKey(CountIntKeys(acc)), es[0].1), StrKey(k));
        }
      }
      if es[0].0 == StrKey(k) {
        assert StrKey(k) !in Keys(es[1..]);
      }
    }
  }

  lemma LookupAppendOther<V>(es: Entries<V>, e: (Key, V), k: Key)
    requires e.0 != k
    ensures Lookup(es + [e], k) == Lookup(es, k)
  {
    if es != [] {
      assert (es + [e])[1..] == es[1..] + [e];
      LookupAppendOther(es[1..], e, k);
    }
  }

  /**
   * `array_merge` gives string keys of the second array precedence and keeps
   * the first array's value for every other string key.
   */
  lemma ArrayMergeOverrides<V>(a: Entries<V>, b: Entries<V>, k: string)
    requires UniqueKeys(a) && UniqueKeys(b)
    ensures Lookup(ArrayMerge(a, b), StrKey(k)) ==
            if StrKey(k) in Keys(b) then Lookup(b, StrKey(k)) else Lookup(a, StrKey(k))
  {
    MergeAllConcat([], a, b);
    MergeAllStrKey([], a, k);
    MergeAllStrKey(MergeAll([], a), b, k);
  }

  // ---------------------------------------------------------------------
  // Strings
  // ---------------------------------------------------------------------

  /** The characters PHP's `trim` strips by default: " \t\n\r\0\x0B". */
  const TrimChars: set<char> := {' ', '\t', '\n', '\r', '\0', '\U{0B}'}

  predicate IsTrimChar(c: char) {
    c in TrimChars
  }

  /** `rtrim($s, $chars)`: the longest prefix of s that does not end in one of the characters. */
  function TrimRight(s: string, chars: set<char>): (r: string)
    ensures r <= s
    ensures r == [] || r[|r| - 1] !in chars
    ensures forall i :: |r| <= i < |s| ==> s[i] in chars
  {
    if s == [] || s[|s| - 1] !in chars then s else TrimRight(s[..|s| - 1], chars)
  }

  /** `ltrim($s, $chars)`: the longest suffix of s that does not start with one of the characters. */
  function TrimLeft(s: string, chars: set<char>): (r: string)
    ensures |r| <= |s|
    ensures r == [] || r[0] !in chars
    ensures forall i :: 0 <= i < |s| - |r| ==> s[i] in chars
  {
    if s == [] || s[0] !in chars then s else TrimLeft(s[1..], chars)
  }

  /** What `ltrim` keeps is a suffix of its input. */
  lemma {:induction false} TrimLeftIsSuffix(s: string, chars: set<char>)
    ensures TrimLeft(s, chars) == s[|s| - |TrimLeft(s, chars)|..]
  {
    if s != [] && s[0] in chars {
      TrimLeftIsSuffix(s[1..], chars);
      assert s[1..][|s| - 1 - |TrimLeft(s[1..], chars)|..] == s[|s| - |TrimLeft(s, chars)|..];
    }
  }

  /** `trim($s)` with PHP's default character set. */
  function Trim(s: string): string {
    TrimLeft(TrimRight(s, TrimChars), TrimChars)
  }

  /** `explode($sep, $s)`: the pieces between the separators; there is always at least one. */
  function Explode(sep: char, s: string): (parts: seq<string>)
    ensures |parts| >= 1
    ensures forall i :: 0 <= i < |parts| ==> sep !in parts[i]
  {
    if s == [] then [""]
    else
      var rest := Explode(sep, s[1..]);
      if s[0] == sep then [""] + rest else [[s[0]] + rest[0]] + rest[1..]
  }

  /** `implode($sep, $parts)`. */
  function Implode(sep: char, parts: seq<string>): string
    requires |parts| >= 1
  {
    if |parts| == 1 then parts[0] else parts[0] + [sep] + Implode(sep, parts[1..])
  }

  /** Joining the pieces of `explode` with the separator gives back the string. */
  lemma {:induction false} ImplodeExplode(sep: char, s: string)
    ensures Implode(sep, Explode(sep, s)) == s
  {
    if s != [] {
      var rest := Explode(sep, s[1..]);
      ImplodeExplode(sep, s[1..]);
      if s[0] == sep {
        assert Implode(sep, [""] + rest) == [sep] + Implode(sep, rest);
      } else {
        var parts := [[s[0]] + rest[0]] + rest[1..];
        if |rest| > 1 {
          assert parts[1..] == rest[1..];
          assert Implode(sep, rest) == rest[0] + [sep] + Implode(sep, rest[1..]);
        }
      }
      assert s == [s[0]] + s[1..];
    }
  }

  /** A piece without the separator, followed by the separator, is the first piece. */
  lemma {:induction false} ExplodeAfterPiece(sep: char, a: string, b: string)
    requires sep !in a
    ensures Explode(sep, a + [sep] + b) == [a] + Explode(sep, b)
  {
    if a == [] {
      assert ([] + [sep] + b)[1..] == b;
    } else {
      assert (a + [sep] + b)[1..] == a[1..] + [sep] + b;
      assert a[0] in a;
      ExplodeAfterPiece(sep, a[1..], b);
      assert [a[0]] + a[1..] == a;
    }
  }

  /** A string without the separator is one piece. */
  lemma {:induction false} ExplodeWithoutSeparator(sep: char, s: string)
    requires sep !in s
    ensures Explode(sep, s) == [s]
  {
    if s != [] {
      assert s[0] in s;
      ExplodeWithoutSeparator(sep, s[1..]);
      assert [s[0]] + s[1..] == s;
    }
  }

  /** Splitting the joined pieces gives them back, when none contains the separator. */
  lemma {:induction false} ExplodeImplode(sep: char, parts: seq<string>)
    requires |parts| >= 1
    requires forall i :: 0 <= i < |parts| ==> sep !in parts[i]
    ensures Explode(sep, Implode(sep, parts)) == parts
  {
    if |parts| == 1 {
      ExplodeWithoutSeparator(sep, parts[0]);
    } else {
      ExplodeImplode(sep, parts[1..]);
      ExplodeAfterPiece(sep, parts[0], Implode(sep, parts[1..]));
      assert [parts[0]] + parts[1..] == parts;
    }
  }

  /** `ltrim` strips a prefix made of its characters and goes on with what follows it. */
  lemma {:induction false} TrimLeftPadded(pad: string, s: string, chars: set<char>)
    requires forall i :: 0 <= i < |pad| ==> pad[i] in chars
    ensures TrimLeft(pad + s, chars) == TrimLeft(s, chars)
  {
    if pad != [] {
      assert (pad + s)[0] == pad[0];
      assert (pad + s)[1..] == pad[1..] + s;
      TrimLeftPadded(pad[1..], s, chars);
    } else {
      assert pad + s == s;
    }
  }

  /** `trim` leaves a string alone when neither end is whitespace, and strips whitespace in front of it. */
  lemma TrimUnpadded(s: string, pad: string)
    requires s != [] && !IsTrimChar(s[0]) && !IsTrimChar(s[|s| - 1])
    requires forall i :: 0 <= i < |pad| ==> IsTrimChar(pad[i])
    ensures Trim(pad + s) == s
  {
    assert TrimRight(pad + s, TrimChars) == pad + s;
    TrimLeftPadded(pad, s, TrimChars);
  }

  /** `trim` leaves a string alone when neither end is whitespace. */
  lemma TrimKeeps(s: string)
    requires s != [] && !IsTrimChar(s[0]) && !IsTrimChar(s[|s| - 1])
    ensures Trim(s) == s
  {
    TrimUnpadded(s, "");
    assert "" + s == s;
  }

  // ---------------------------------------------------------------------
  // Integers as decimal strings
  // ---------------------------------------------------------------------

  predicate IsDigit(c: char) {
    '0' <= c <= '9'
  }

  predicate AllDigits(s: string) {
    forall i :: 0 <= i < |s| ==> IsDigit(s[i])
  }

  function DigitChar(d: nat): (c: char)
    requires d < 10
    ensures IsDigit(c) && c as int - '0' as int == d
  {
    (d + '0' as int) as char
  }

  /** The decimal digits of n, most significant first, without leading zeros. */
  function NatToString(n: nat): (s: string)
    ensures |s| > 0 && AllDigits(s)
    decreases n
  {
    if n < 10 then [DigitChar(n)] else NatToString(n / 10) + [DigitChar(n % 10)]
  }

  /** `(string) $n` for an integer. */
  function IntToString(n: int): (s: string)
    ensures |s| > 0
  {
    if n < 0 then "-" + NatToString(-n) else NatToString(n)
  }

  /** The value of a string of decimal digits. */
  function DigitsValue(s: string): nat
    requires AllDigits(s)
  {
    if s == [] then 0 else 10 * DigitsValue(s[..|s| - 1]) + (s[|s| - 1] as int - '0' as int)
  }

  /**
   * An integer literal: an optional sign followed by at least one digit.
   * This is the part of PHP's numeric-string syntax the model keeps
   * (no surrounding whitespace, decimals or exponents).
   */
  predicate IsIntString(s: string) {
    if |s| > 0 && (s[0] == '-' || s[0] == '+') then |s| > 1 && AllDigits(s[1..])
    else |s| > 0 && AllDigits(s)
  }

  /** The integer an integer literal denotes (`(int) $s`). */
  function ParseInt(s: string): int
    requires IsIntString(s)
  {
    if s[0] == '-' then -(DigitsValue(s[1..]) as int)
    else if s[0] == '+' then DigitsValue(s[1..])
    else DigitsValue(s)
  }

  lemma {:induction false} DigitsValueOfNat(n: nat)
    ensures DigitsValue(NatToString(n)) == n
    decreases n
  {
    if n >= 10 {
      var s := NatToString(n);
      assert s[..|s| - 1] == NatToString(n / 10);
      DigitsValueOfNat(n / 10);
    }
  }

  /** Printing an integer and parsing it back gives the same integer. */
  lemma IntStringRoundTrip(n: int)
    ensures IsIntString(IntToString(n))
    ensures ParseInt(IntToString(n)) == n
  {
    var s := IntToString(n);
    if n < 0 {
      assert s[1..] == NatToString(-n);
      DigitsValueOfNat(-n);
    } else {
      DigitsValueOfNat(n);
    }
  }

  /** A string PHP turns into an integer key: the canonical decimal form of an integer. */
  predicate IsCanonicalIntString(s: string) {
    IsIntString(s) && IntToString(ParseInt(s)) == s
  }

  /** The key `$a[$s]` uses for a string `$s`: canonical integer strings become integers. */
  function StringKey(s: string): (k: Key)
    ensures k.StrKey? <==> !IsCanonicalIntString(s)
    ensures k.StrKey? ==> k.s == s
    ensures k.IntKey? ==> IntToString(k.i) == s
  {
    if IsCanonicalIntString(s) then IntKey(ParseInt(s)) else StrKey(s)
  }

  /** Every integer key is also reached through its decimal string. */
  lemma StringKeyOfInt(n: int)
    ensures StringKey(IntToString(n)) == IntKey(n)
  {
    IntStringRoundTrip(n);
  }

  // ---------------------------------------------------------------------
  // Value conversions
  // ---------------------------------------------------------------------

  /** PHP truthiness (`if ($v)`): null, false, 0, "", "0" and [] are false. */
  predicate Truthy(v: Value) {
    match v
    case Null => false
    case Bool(b) => b
    case Int(i) => i != 0
    case Str(s) => s != "" && s != "0"
    case Arr(es) => es != []
  }

  /** `is_numeric`, restricted to integers and integer literals. */
  predicate IsNumeric(v: Value) {
    v.Int? || (v.Str? && IsIntString(v.s))
  }

  /** `(int) $v` for a numeric value. */
  function ToInt(v: Value): int
    requires IsNumeric(v)
  {
    if v.Int? then v.i else ParseInt(v.s)
  }

  /** The text `(string)`, `print_r` and `sprintf("%s")` give a non-array value; an array prints as "Array". */
  function ToPhpString(v: Value): string {
    match v
    case Null => ""
    case Bool(b) => if b then "1" else ""
    case Int(i) => IntToString(i)
    case Str(s) => s
    case Arr(_) => "Array"
  }
}
