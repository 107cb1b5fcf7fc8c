/**
 * `XmlHandler`: renders an error as an XML document. The data to render is
 * a PHP array; each entry becomes a child element named after its key
 * (numeric keys get an `unknownNode_` prefix, characters XML names do not
 * allow are dropped), nested arrays become nested elements, and scalars
 * become text with `&` escaped. The element tree is modelled as a value.
 */
module XmlErrors {
  import opened Wrappers
  import opened PhpValues
  import opened HttpErrors

  /** `contentType()`. */
  const ContentType := "application/xml"

  /** An XML element: its name, its text and its child elements in order. */
  datatype XmlNode = XmlNode(name: string, text: string, children: seq<XmlNode>)

  /** The characters an element name keeps: ASCII letters of either case, digits, `-`, `_`, `.`, `:`. */
  predicate IsNameChar(c: char) {
    || 'a' <= c <= 'z'
    || 'A' <= c <= 'Z'
    || '0' <= c <= '9'
    || c == '-' || c == '_' || c == '.' || c == ':'
  }

  predicate IsName(s: string) {
    forall i :: 0 <= i < |s| ==> IsNameChar(s[i])
  }

  /** Every element of the tree has a sanitised name. */
  predicate WellNamed(n: XmlNode) {
    IsName(n.name) && forall c :: c in n.children ==> WellNamed(c)
  }

  /** The key with every character an element name does not allow deleted. */
  function Sanitize(s: string): string {
    if s == [] then []
    else (if IsNameChar(s[0]) then [s[0]] else []) + Sanitize(s[1..])
  }

  /** Sanitising leaves a valid name, never longer than the key. */
  lemma {:induction false} SanitizeIsName(s: string)
    ensures IsName(Sanitize(s))
    ensures |Sanitize(s)| <= |s|
  {
    if s != [] {
      SanitizeIsName(s[1..]);
    }
  }

  /** A key that is already a valid name is kept as it is. */
  lemma {:induction false} SanitizeKeepsNames(s: string)
    requires IsName(s)
    ensures Sanitize(s) == s
  {
    if s != [] {
      SanitizeKeepsNames(s[1..]);
      assert s == [s[0]] + s[1..];
    }
  }

  /** Sanitising works character by character, so it distributes over concatenation. */
  lemma {:induction false} SanitizeAppend(a: string, b: string)
    ensures Sanitize(a + b) == Sanitize(a) + Sanitize(b)
  {
    if a != [] {
      assert (a + b)[0] == a[0];
      assert (a + b)[1..] == a[1..] + b;
      SanitizeAppend(a[1..], b);
      var head := if IsNameChar(a[0]) then [a[0]] else [];
      assert Sanitize(a + b) == head + Sanitize(a[1..] + b);
      assert Sanitize(a) == head + Sanitize(a[1..]);
    } else {
      assert a + b == b;
    }
  }

  /** A key that is numeric (an integer key or an integer string) before sanitising. */
  predicate NumericKey(k: Key) {
    k.IntKey? || IsNumeric(Str(k.s))
  }

  /** The prefix a numeric key gets. */
  const NumericPrefix := "unknownNode_"

  /** The key as text before sanitising: a numeric key is prefixed with `unknownNode_`. */
  function KeyText(k: Key): string {
    match k
    case IntKey(i) => NumericPrefix + IntToString(i)
    case StrKey(s) => if IsIntString(s) then NumericPrefix + s else s
  }

  /** Only numeric keys are prefixed; any other key is taken as it is. */
  lemma KeyTextPrefix(k: Key)
    ensures NumericKey(k) ==> NumericPrefix <= KeyText(k)
    ensures !NumericKey(k) ==> KeyText(k) == k.s
  {
  }

  /** The name of the element an entry becomes. */
  function ElementName(k: Key): string {
    Sanitize(KeyText(k))
  }

  /** Whatever the key, the element name is valid. */
  lemma ElementNameIsName(k: Key)
    ensures IsName(ElementName(k))
  {
    SanitizeIsName(KeyText(k));
  }

  /** An integer key keeps its digits and sign: entry 7 becomes `unknownNode_7`. */
  lemma IntegerKeyName(i: int)
    ensures ElementName(IntKey(i)) == NumericPrefix + IntToString(i)
  {
    SanitizeAppend(NumericPrefix, IntToString(i));
    NumericPrefixIsName();
    SanitizeKeepsNames(NumericPrefix);
    IntStringIsName(i);
    SanitizeKeepsNames(IntToString(i));
  }

  lemma NumericPrefixIsName()
    ensures IsName(NumericPrefix)
  {
  }

  lemma IntStringIsName(i: int)
    ensures IsName(IntToString(i))
  {
    var digits := NatToString(if i < 0 then -i else i);
    assert AllDigits(digits);
    if i < 0 {
      assert IntToString(i) == "-" + digits;
    }
  }

  /** `str_replace('&', '&amp;', $text)`. */
  function Escape(s: string): string {
    EscapeFrom(s, 0)
  }

  /** The escaped text of `s[i..]`. */
  function EscapeFrom(s: string, i: nat): string
    requires i <= |s|
    decreases |s| - i
  {
    if i == |s| then [] else (if s[i] == '&' then "&amp;" else [s[i]]) + EscapeFrom(s, i + 1)
  }

  /** Whether an entity reference `&amp;` starts at index `i` of `s`. */
  predicate AmpAt(s: string, i: nat) {
    i + 5 <= |s| && s[i] == '&' && s[i + 1] == 'a' && s[i + 2] == 'm' && s[i + 3] == 'p' && s[i + 4] == ';'
  }

  /** The text an XML reader takes from an escaped string: every `&amp;` stands for `&`. */
  function Unescape(s: string): string {
    UnescapeFrom(s, 0)
  }

  /** The text an XML reader takes from `s[i..]`. */
  function UnescapeFrom(s: string, i: nat): string
    requires i <= |s|
    decreases |s| - i
  {
    if i == |s| then []
    else if AmpAt(s, i) then ['&'] + UnescapeFrom(s, i + 5)
    else [s[i]] + UnescapeFrom(s, i + 1)
  }

  /** Reading `t` after an escaped prefix reads the prefix back, then `t`. */
  lemma {:induction false} UnescapeAfter(c: char, t: string)
    ensures Unescape((if c == '&' then "&amp;" else [c]) + t) == [c] + Unescape(t)
  {
    var u := (if c == '&' then "&amp;" else [c]) + t;
    var n := if c == '&' then 5 else 1;
    assert u[n..] == t;
    UnescapeShift(u, n, t);
  }

  /** Reading from index `n` of `u` is reading the suffix `u[n..]` from its start. */
  lemma {:induction false} UnescapeShift(u: string, n: nat, t: string)
    requires n <= |u| && u[n..] == t
    ensures UnescapeFrom(u, n) == Unescape(t)
  {
    UnescapeShiftFrom(u, n, t, 0);
  }

  lemma {:induction false} UnescapeShiftFrom(u: string, n: nat, t: string, j: nat)
    requires n <= |u| && u[n..] == t && j <= |t|
    ensures UnescapeFrom(u, n + j) == UnescapeFrom(t, j)
    decreases |t| - j
  {
    if j < |t| {
      assert AmpAt(u, n + j) == AmpAt(t, j);
      if AmpAt(t, j) {
        UnescapeShiftFrom(u, n, t, j + 5);
      } else {
        UnescapeShiftFrom(u, n, t, j + 1);
      }
    }
  }

  /** Escaping loses nothing: the text reads back as it was printed. */
  lemma {:induction false} UnescapeEscape(s: string)
    ensures Unescape(Escape(s)) == s
  {
    UnescapeEscapeFrom(s, 0);
  }

  lemma {:induction false} UnescapeEscapeFrom(s: string, i: nat)
    requires i <= |s|
    ensures Unescape(EscapeFrom(s, i)) == s[i..]
    decreases |s| - i
  {
    if i < |s| {
      UnescapeEscapeFrom(s, i + 1);
      UnescapeAfter(s[i], EscapeFrom(s, i + 1));
      assert s[i..] == [s[i]] + s[i + 1..];
    }
  }

  /** A string without `&` is not changed by escaping. */
  lemma {:induction false} EscapeWithoutAmpersand(s: string)
    requires '&' !in s
    ensures Escape(s) == s
  {
    EscapeFromWithoutAmpersand(s, 0);
  }

  lemma {:induction false} EscapeFromWithoutAmpersand(s: string, i: nat)
    requires i <= |s| && '&' !in s
    ensures EscapeFrom(s, i) == s[i..]
    decreases |s| - i
  {
    if i < |s| {
      EscapeFromWithoutAmpersand(s, i + 1);
      assert s[i] in s;
      assert s[i..] == [s[i]] + s[i + 1..];
    }
  }

  /** The text of the element a scalar becomes: its printed form, escaped. */
  function LeafText(v: Value): string {
    Escape(ToPhpString(v))
  }

  /** A scalar's element reads back as the value's printed form. */
  lemma LeafTextReadsBack(v: Value)
    ensures Unescape(LeafText(v)) == ToPhpString(v)
  {
    UnescapeEscape(ToPhpString(v));
  }

  // The tree is built for any naming of keys and any text of scalars, so
  // that its shape can be reasoned about apart from the strings;
  // `Convert` uses the handler's own, `ElementName` and `LeafText`.

  /** The element one entry becomes: an array fills it with children, a scalar with text. */
  function NodeOf(k: Key, v: Value, name: Key -> string, text: Value -> string): XmlNode
    decreases v, 1
  {
    if v.Arr? then XmlNode(name(k), "", ConvertFrom(v.entries, 0, name, text))
    else XmlNode(name(k), text(v), [])
  }

  /** The elements the entries from index `i` on become, in the data's order. */
  function ConvertFrom(data: Entries<Value>, i: nat, name: Key -> string, text: Value -> string): (nodes: seq<XmlNode>)
    requires i <= |data|
    ensures |nodes| == |data| - i
    decreases Arr(data), 0, |data| - i
  {
    if i == |data| then []
    else
      assert data[i] in data;
      [NodeOf(data[i].0, data[i].1, name, text)] + ConvertFrom(data, i + 1, name, text)
  }

  /** The child elements `addDataToNode` adds for `data`. */
  function Convert(data: Entries<Value>): (nodes: seq<XmlNode>)
    ensures |nodes| == |data|
  {
    ConvertFrom(data, 0, ElementName, LeafText)
  }

  /** The children follow the data: the j-th entry becomes the j-th element. */
  lemma {:induction false} ConvertFollowsData(data: Entries<Value>, i: nat, j: nat, name: Key -> string, text: Value -> string)
    requires i <= j < |data|
    ensures ConvertFrom(data, i, name, text)[j - i] == NodeOf(data[j].0, data[j].1, name, text)
    decreases j - i
  {
    if i < j {
      ConvertFollowsData(data, i + 1, j, name, text);
    }
  }

  /** Element j of the converted data: named after key j, holding value j's children or text. */
  lemma ConvertedEntry(data: Entries<Value>, j: nat)
    requires j < |data|
    ensures Convert(data)[j].name == ElementName(data[j].0)
    ensures data[j].1.Arr? ==> Convert(data)[j].text == ""
    ensures data[j].1.Arr? ==> Convert(data)[j].children == Convert(data[j].1.entries)
    ensures !data[j].1.Arr? ==> Convert(data)[j].children == []
    ensures !data[j].1.Arr? ==> Convert(data)[j].text == LeafText(data[j].1)
  {
    ConvertFollowsData(data, 0, j, ElementName, LeafText);
  }

  /** With names that are sanitised, every element of the tree is, at every depth. */
  lemma {:induction false} NodeWellNamed(k: Key, v: Value, name: Key -> string, text: Value -> string)
    requires forall k' :: IsName(name(k'))
    ensures WellNamed(NodeOf(k, v, name, text))
    decreases v, 1
  {
    if v.Arr? {
      NodesWellNamed(v.entries, 0, name, text);
    }
  }

  lemma {:induction false} NodesWellNamed(data: Entries<Value>, i: nat, name: Key -> string, text: Value -> string)
    requires i <= |data|
    requires forall k' :: IsName(name(k'))
    ensures forall c :: c in ConvertFrom(data, i, name, text) ==> WellNamed(c)
    decreases Arr(data), 0, |data| - i
  {
    if i < |data| {
      assert data[i] in data;
      NodeWellNamed(data[i].0, data[i].1, name, text);
      NodesWellNamed(data, i + 1, name, text);
    }
  }

  /** Whatever the keys, every element `addDataToNode` creates has a valid name. */
  lemma ConvertedNamesAreSanitized(data: Entries<Value>)
    ensures forall c :: c in Convert(data) ==> WellNamed(c)
  {
    forall k' {
      ElementNameIsName(k');
    }
    NodesWellNamed(data, 0, ElementName, LeafText);
  }

  /**
   * `addDataToNode($node, $data)`: one child per entry, appended in order;
   * an array value is filled in recursively, any other value is printed and
   * escaped into the child's text.
   */
  method AddDataToNode(node: XmlNode, data: Entries<Value>) returns (r: XmlNode)
    ensures r == node.(children := node.children + Convert(data))
    decreases Arr(data), 1
  {
    var children := node.children;
    var i := 0;
    while i < |data|
      invariant 0 <= i <= |data|
      invariant children + ConvertFrom(data, i, ElementName, LeafText) == node.children + Convert(data)
    {
      var child := ChildOf(data, i);
      children := children + [child];
      i := i + 1;
    }
    r := node.(children := children);
  }

  /** The child `addDataToNode` adds for entry `i`: named after the key, filled from the value. */
  method ChildOf(data: Entries<Value>, i: nat) returns (child: XmlNode)
    requires i < |data|
    ensures child == NodeOf(data[i].0, data[i].1, ElementName, LeafText)
    decreases Arr(data), 0
  {
    var key := data[i].0;
    var value := data[i].1;
    var name := ElementName(key);
    if value.Arr? {
      assert data[i] in data;
      child := AddDataToNode(XmlNode(name, "", []), value.entries);
    } else {
      child := XmlNode(name, LeafText(value), []);
    }
  }

  /** `toXml($data)`: a single `<root>` element holding the converted data. */
  method ToXml(data: Entries<Value>) returns (doc: XmlNode)
    ensures doc == XmlNode("root", "", Convert(data))
  {
    doc := AddDataToNode(XmlNode("root", "", []), data);
  }

  /** The exception the handler renders: without debug, anything but an HttpException becomes a 500. */
  function Substituted(t: Throwable, debug: bool): (r: Throwable)
    ensures !debug ==> r.HttpError?
    ensures t.HttpError? || debug ==> r == t
  {
    if !debug && !t.HttpError? then HttpError(InternalServerError) else t
  }

  /**
   * The array `handle` renders: an HttpException as its code, message and
   * errors, anything else as the one-element list of its formatted details.
   * `errors` is what the exception's `getErrors()` returns and `details`
   * what Whoops' formatter makes of it; neither is part of this model.
   */
  function ResponseData(t: Throwable, errors: Value, details: Value): (d: Entries<Value>)
    ensures t.HttpError? ==> Keys(d) == [StrKey("code"), StrKey("message"), StrKey("errors")]
    ensures t.OtherError? ==> d == [(StrKey("errors"), Arr([(IntKey(0), details)]))]
  {
    match t
    case HttpError(e) => [(StrKey("code"), Int(e.code)), (StrKey("message"), Str(e.message)), (StrKey("errors"), errors)]
    case OtherError(_) => [(StrKey("errors"), Arr([(IntKey(0), details)]))]
  }

  /** The document `handle` writes for `t`. */
  function Render(t: Throwable, debug: bool, errors: Value, details: Value): XmlNode {
    XmlNode("root", "", Convert(ResponseData(Substituted(t, debug), errors, details)))
  }

  /**
   * Without debug the formatter's details never reach the document: any
   * error renders exactly as the HttpException that stands for it.
   */
  lemma NonDebugHidesDetails(t: Throwable, errors: Value, details: Value, details': Value)
    ensures Render(t, false, errors, details) == Render(t, false, errors, details')
    ensures !t.HttpError? ==> Render(t, false, errors, details) == Render(HttpError(InternalServerError), false, errors, details)
  {
    var t' := Substituted(t, false);
    assert ResponseData(t', errors, details) == ResponseData(t', errors, details');
  }

  /** `s` is made of name characters, checked one character at a time. */
  predicate NameChars(s: string) {
    s == [] || (IsNameChar(s[0]) && NameChars(s[1..]))
  }

  lemma {:induction false} NameCharsIsName(s: string)
    requires NameChars(s)
    ensures IsName(s)
  {
    if s != [] {
      NameCharsIsName(s[1..]);
      assert forall i :: 1 <= i < |s| ==> s[i] == s[1..][i - 1];
    }
  }

  /** A plain word (not starting with a digit or a sign) names its own element. */
  lemma WordKeyName(s: string)
    requires NameChars(s) && |s| > 0 && !('0' <= s[0] <= '9') && s[0] != '-' && s[0] != '+'
    ensures ElementName(StrKey(s)) == s
  {
    assert !IsDigit(s[0]);
    assert !IsIntString(s);
    NameCharsIsName(s);
    SanitizeKeepsNames(s);
  }

  /** The keys of an HttpException's array name their elements unchanged. */
  lemma CodeKeyName()
    ensures ElementName(StrKey("code")) == "code"
  {
    WordKeyName("code");
  }

  lemma MessageKeyName()
    ensures ElementName(StrKey("message")) == "message"
  {
    WordKeyName("message");
  }

  lemma ErrorsKeyName()
    ensures ElementName(StrKey("errors")) == "errors"
  {
    WordKeyName("errors");
  }

  /**
   * An HttpException renders as `<code>`, `<message>` and `<errors>`
   * elements; the first two carry the code and the message as escaped text,
   * which reads back as they were (`LeafTextReadsBack`).
   */
  lemma HttpErrorDocument(e: HttpException, debug: bool, errors: Value, details: Value)
    ensures var doc := Render(HttpError(e), debug, errors, details);
            && doc.name == "root" && |doc.children| == 3
            && doc.children[0].name == "code" && doc.children[0].text == LeafText(Int(e.code))
            && doc.children[1].name == "message" && doc.children[1].text == LeafText(Str(e.message))
            && doc.children[2].name == "errors"
  {
    var d := ResponseData(HttpError(e), errors, details);
    var nodes := Convert(d);
    ConvertedEntry(d, 0);
    ConvertedEntry(d, 1);
    ConvertedEntry(d, 2);
    CodeKeyName();
    MessageKeyName();
    ErrorsKeyName();
  }

  class XmlHandler {
    /** `$debug`: unset (false) until `debug()` is called. */
    var debug: bool
    /** The exception Whoops handed over. */
    var exception: Throwable

    constructor(exception: Throwable)
      ensures this.exception == exception && !debug
    {
      this.exception := exception;
      debug := false;
    }

    /** `debug($debug)`. */
    method Debug(debug: bool)
      modifies this
      ensures this.debug == debug && exception == old(exception)
    {
      this.debug := debug;
    }

    /**
     * `handle()`: the exception is replaced first when debug is off and it
     * is not an HttpException; then the document for it is produced.
     */
    method Handle(errors: Value, details: Value) returns (doc: XmlNode)
      modifies this
      ensures debug == old(debug)
      ensures exception == Substituted(old(exception), debug)
      ensures doc == Render(old(exception), debug, errors, details)
    {
      if !debug && !exception.HttpError? {
        DefaultIsInternalServerError();
        exception := HttpError(New(500).value);
      }
      doc := ToXml(ResponseData(exception, errors, details));
    }
  }
}
