/**
 RFC 8259 texts and what the scan of bounded-json.js measures on them: the text of any JSON value, with any
 whitespace the grammar allows, scans to the sizes of its tree.
 */
module JsonGrammar {
  import opened Wrappers
  import opened BoundedJson

  type Bytes = seq<Byte>

  // ---------- syntax trees ----------

  /** One character of a string (RFC 8259, section 7); a multi-byte character is several `Raw` bytes. */
  datatype StringChar = Raw(b: Byte) | Escape(b: Byte) | Unicode(h1: Byte, h2: Byte, h3: Byte, h4: Byte)

  /** A value; `lead` is the whitespace after an opening bracket, `before`/`after`/`mid` surround the parts. */
  datatype Json =
    | Literal(text: Bytes)
    | Number(minus: bool, whole: Bytes, fraction: Bytes, exponent: Bytes)
    | String(chars: seq<StringChar>)
    | Array(lead: Bytes, elements: Elements)
    | Object(lead: Bytes, members: Members)

  datatype Elements =
    | NoElement
    | Element(before: Bytes, value: Json, after: Bytes, rest: Elements)

  datatype Members =
    | NoMember
    | Member(before: Bytes, key: seq<StringChar>, mid: Bytes, gap: Bytes, value: Json, after: Bytes, rest: Members)

  /** Space, tab, line feed and carriage return (RFC 8259, section 2). */
  predicate Whitespace(w: Bytes) {
    forall k :: 0 <= k < |w| ==> w[k] == 0x20 || w[k] == 0x09 || w[k] == 0x0A || w[k] == 0x0D
  }

  predicate Digits(d: Bytes) {
    d != [] && forall k :: 0 <= k < |d| ==> 0x30 <= d[k] <= 0x39
  }

  predicate ValidExponent(e: Bytes) {
    e == [] || (e[0] in {0x45, 0x65} && (Digits(e[1..]) || (|e| > 1 && e[1] in {0x2B, 0x2D} && Digits(e[2..]))))
  }

  predicate HexDigit(b: Byte) {
    0x30 <= b <= 0x39 || 0x41 <= b <= 0x46 || 0x61 <= b <= 0x66
  }

  predicate ValidChar(c: StringChar) {
    match c
    case Raw(b) => b >= 0x20 && b != 0x22 && b != 0x5C
    case Escape(b) => b in {0x22, 0x5C, 0x2F, 0x62, 0x66, 0x6E, 0x72, 0x74}
    case Unicode(h1, h2, h3, h4) => HexDigit(h1) && HexDigit(h2) && HexDigit(h3) && HexDigit(h4)
  }

  predicate ValidChars(chars: seq<StringChar>) {
    forall k :: 0 <= k < |chars| ==> ValidChar(chars[k])
  }

  const TRUE_TEXT: Bytes := [0x74, 0x72, 0x75, 0x65]
  const FALSE_TEXT: Bytes := [0x66, 0x61, 0x6C, 0x73, 0x65]
  const NULL_TEXT: Bytes := [0x6E, 0x75, 0x6C, 0x6C]

  predicate ValidJson(v: Json) {
    match v
    case Literal(text) => text == TRUE_TEXT || text == FALSE_TEXT || text == NULL_TEXT
    case Number(_, whole, fraction, exponent) =>
      Digits(whole) && (|whole| > 1 ==> whole[0] != 0x30) && (fraction == [] || Digits(fraction))
      && ValidExponent(exponent)
    case String(chars) => ValidChars(chars)
    case Array(lead, elements) => Whitespace(lead) && ValidElements(elements)
    case Object(lead, members) => Whitespace(lead) && ValidMembers(members)
  }

  predicate ValidElements(e: Elements) {
    e.Element? ==> Whitespace(e.before) && ValidJson(e.value) && Whitespace(e.after) && ValidElements(e.rest)
  }

  predicate ValidMembers(m: Members) {
    m.Member? ==> Whitespace(m.before) && ValidChars(m.key) && Whitespace(m.mid) && Whitespace(m.gap)
                  && ValidJson(m.value) && Whitespace(m.after) && ValidMembers(m.rest)
  }

  // ---------- texts ----------

  function CharText(c: StringChar): Bytes {
    match c
    case Raw(b) => [b]
    case Escape(b) => [0x5C, b]
    case Unicode(h1, h2, h3, h4) => [0x5C, 0x75, h1, h2, h3, h4]
  }

  function CharsText(chars: seq<StringChar>): Bytes {
    if chars == [] then [] else CharsText(chars[..|chars| - 1]) + CharText(chars[|chars| - 1])
  }

  function StringText(chars: seq<StringChar>): Bytes {
    [0x22] + CharsText(chars) + [0x22]
  }

  function NumberText(minus: bool, whole: Bytes, fraction: Bytes, exponent: Bytes): Bytes {
    (if minus then [0x2D] else []) + whole + (if fraction == [] then [] else [0x2E] + fraction) + exponent
  }

  function Text(v: Json): Bytes
    decreases v, 0
  {
    match v
    case Literal(text) => text
    case Number(minus, whole, fraction, exponent) => NumberText(minus, whole, fraction, exponent)
    case String(chars) => StringText(chars)
    case Array(lead, elements) => [0x5B] + lead + ElementsText(elements, true) + [0x5D]
    case Object(lead, members) => [0x7B] + lead + MembersText(members, true) + [0x7D]
  }

  function Separator(first: bool): Bytes {
    if first then [] else [0x2C]
  }

  function Padded(before: Bytes, v: Json, after: Bytes): Bytes
    decreases v, 1
  {
    before + Text(v) + after
  }

  function KeyText(before: Bytes, key: seq<StringChar>, mid: Bytes): Bytes {
    before + StringText(key) + mid
  }

  function ElementsText(e: Elements, first: bool): Bytes {
    match e
    case NoElement => []
    case Element(before, value, after, rest) =>
      Separator(first) + Padded(before, value, after) + ElementsText(rest, false)
  }

  function MembersText(m: Members, first: bool): Bytes {
    match m
    case NoMember => []
    case Member(before, key, mid, gap, value, after, rest) =>
      (Separator(first) + KeyText(before, key, mid) + [0x3A]) + Padded(gap, value, after) + MembersText(rest, false)
  }

  // ---------- sizes ----------

  /** Array elements plus object members, at every level. */
  function Entries(v: Json): nat {
    match v
    case Array(_, elements) => ElementEntries(elements)
    case Object(_, members) => MemberEntries(members)
    case _ => 0
  }

  function ElementEntries(e: Elements): nat {
    if e.NoElement? then 0 else 1 + Entries(e.value) + ElementEntries(e.rest)
  }

  function MemberEntries(m: Members): nat {
    if m.NoMember? then 0 else 1 + Entries(m.value) + MemberEntries(m.rest)
  }

  /** How deep containers nest; a scalar nests 0 deep. */
  function Nesting(v: Json): nat {
    match v
    case Array(_, elements) => 1 + ElementNesting(elements)
    case Object(_, members) => 1 + MemberNesting(members)
    case _ => 0
  }

  function ElementNesting(e: Elements): nat {
    if e.NoElement? then 0 else Max(Nesting(e.value), ElementNesting(e.rest))
  }

  function MemberNesting(m: Members): nat {
    if m.NoMember? then 0 else Max(Nesting(m.value), MemberNesting(m.rest))
  }

  /** The encoded bytes of a string together with its closing quote. */
  function StringSize(chars: seq<StringChar>): nat {
    |CharsText(chars)| + 1
  }

  /** The size of the longest string, keys included; 0 when there is none. */
  function LongestString(v: Json): nat {
    match v
    case String(chars) => StringSize(chars)
    case Array(_, elements) => ElementLongest(elements)
    case Object(_, members) => MemberLongest(members)
    case _ => 0
  }

  function ElementLongest(e: Elements): nat {
    if e.NoElement? then 0 else Max(LongestString(e.value), ElementLongest(e.rest))
  }

  function MemberLongest(m: Members): nat {
    if m.NoMember? then 0 else Max(StringSize(m.key), Max(LongestString(m.value), MemberLongest(m.rest)))
  }

  // ---------- scanning a text ----------

  /** Outside strings, between two bytes of some container. */
  predicate Ready(s: Scanner) {
    s.mode.Outside? && s.deepest >= |s.stack|
  }

  /** `s` after a piece of text with these sizes. */
  function Grown(s: Scanner, entries: nat, nesting: nat, longest: nat): Scanner {
    s.(entries := s.entries + entries, deepest := Max(s.deepest, |s.stack| + nesting),
       longest := Max(s.longest, longest))
  }

  lemma GrownTwice(s: Scanner, e1: nat, n1: nat, l1: nat, e2: nat, n2: nat, l2: nat)
    ensures Grown(Grown(s, e1, n1, l1), e2, n2, l2) == Grown(s, e1 + e2, Max(n1, n2), Max(l1, l2))
  {
  }

  lemma {:induction false} ScanWhitespace(s: Scanner, w: Bytes)
    requires s.mode.Outside? && Whitespace(w)
    ensures Run(s, w) == s
  {
    if w != [] {
      ScanWhitespace(s, w[..|w| - 1]);
    }
  }

  /** A byte of a number or a literal name: it changes nothing once its entry has been counted. */
  predicate PlainByte(b: Byte) {
    !IsJsonWhitespace(b) && b !in {0x22, 0x2C, 0x3A, 0x5B, 0x5D, 0x7B, 0x7D}
  }

  lemma {:induction false} ScanPlain(s: Scanner, text: Bytes)
    requires s.mode.Outside? && text != [] && forall k :: 0 <= k < |text| ==> PlainByte(text[k])
    ensures Run(s, text) == MarkArrayEntry(s)
  {
    if |text| > 1 {
      ScanPlain(s, text[..|text| - 1]);
    } else {
      assert text[..0] == [];
    }
  }

  lemma NumberIsPlain(v: Json)
    requires v.Number? && ValidJson(v)
    ensures Text(v) != [] && forall k :: 0 <= k < |Text(v)| ==> PlainByte(Text(v)[k])
  {
    var e := v.exponent;
    assert forall k :: 0 <= k < |e| ==> PlainByte(e[k]) by {
      if e != [] && Digits(e[1..]) {
        assert forall k :: 1 <= k < |e| ==> e[k] == e[1..][k - 1];
      } else if e != [] {
        assert forall k :: 2 <= k < |e| ==> e[k] == e[2..][k - 2];
      }
    }
  }

  lemma ScanChar(s: Scanner, n: nat, c: StringChar)
    requires s.mode == Inside(false, n) && ValidChar(c)
    ensures Run(s, CharText(c))
            == s.(mode := Inside(false, n + |CharText(c)|), longest := Max(s.longest, n + |CharText(c)|))
  {
    match c
    case Raw(b) => RunOne(s, b);
    case Escape(b) =>
      assert [0x5C, b] == [0x5C] + [b];
      ScanEscape(s, n, b);
    case Unicode(h1, h2, h3, h4) => ScanUnicode(s, n, h1, h2, h3, h4);
  }

  /** `s` inside a string, after `length` bytes. */
  function Within(s: Scanner, length: nat): Scanner {
    s.(mode := Inside(false, length), longest := Max(s.longest, length))
  }

  lemma ScanEscape(s: Scanner, n: nat, b: Byte)
    requires s.mode == Inside(false, n)
    ensures Run(s, [0x5C] + [b]) == Within(s, n + 2)
  {
    RunTwo(s, 0x5C, b);
  }

  lemma ScanTwo(s: Scanner, n: nat, a: Byte, b: Byte)
    requires s.mode == Inside(false, n) && HexDigit(a) && HexDigit(b)
    ensures Run(s, [a] + [b]) == Within(s, n + 2)
  {
    RunTwo(s, a, b);
  }

  lemma ScanUnicode(s: Scanner, n: nat, h1: Byte, h2: Byte, h3: Byte, h4: Byte)
    requires s.mode == Inside(false, n) && HexDigit(h1) && HexDigit(h2) && HexDigit(h3) && HexDigit(h4)
    ensures Run(s, [0x5C, 0x75, h1, h2, h3, h4]) == Within(s, n + 6)
  {
    assert [0x5C, 0x75, h1, h2, h3, h4] == ([0x5C] + [0x75]) + ([h1] + [h2]) + ([h3] + [h4]);
    RunThree(s, [0x5C] + [0x75], [h1] + [h2], [h3] + [h4]);
    ScanEscape(s, n, 0x75);
    ScanTwo(Within(s, n + 2), n + 2, h1, h2);
    ScanTwo(Within(Within(s, n + 2), n + 4), n + 4, h3, h4);
  }

  lemma RunOne(s: Scanner, b: Byte)
    ensures Run(s, [b]) == Step(s, b)
  {
    assert [b][..0] == [];
  }

  lemma RunTwo(s: Scanner, a: Byte, b: Byte)
    ensures Run(s, [a] + [b]) == Step(Step(s, a), b)
  {
    RunConcat(s, [a], [b]);
    RunOne(s, a);
    RunOne(Step(s, a), b);
  }

  lemma {:induction false} ScanChars(s: Scanner, chars: seq<StringChar>)
    requires s.mode == Inside(false, 0) && ValidChars(chars)
    ensures Run(s, CharsText(chars))
            == s.(mode := Inside(false, |CharsText(chars)|), longest := Max(s.longest, |CharsText(chars)|))
  {
    if chars != [] {
      var init, last := chars[..|chars| - 1], chars[|chars| - 1];
      ScanChars(s, init);
      RunConcat(s, CharsText(init), CharText(last));
      ScanChar(Run(s, CharsText(init)), |CharsText(init)|, last);
    }
  }

  lemma ScanString(s: Scanner, chars: seq<StringChar>)
    requires Ready(s) && ValidChars(chars)
    ensures Run(s, StringText(chars)) == Grown(MarkArrayEntry(s), 0, 0, StringSize(chars))
  {
    RunConcat(s, [0x22] + CharsText(chars), [0x22]);
    RunConcat(s, [0x22], CharsText(chars));
    RunOne(s, 0x22);
    ScanChars(Step(s, 0x22), chars);
    RunOne(Run(s, [0x22] + CharsText(chars)), 0x22);
  }

  /** Scanning a value counts its entry in the array around it, then adds the sizes of the value. */
  lemma {:induction false} ScanValue(s: Scanner, v: Json)
    requires Ready(s) && ValidJson(v)
    ensures Run(s, Text(v)) == Grown(MarkArrayEntry(s), Entries(v), Nesting(v), LongestString(v))
    decreases v, 1
  {
    match v
    case Literal(text) => ScanPlain(s, text);
    case Number(_, _, _, _) =>
      NumberIsPlain(v);
      ScanPlain(s, Text(v));
    case String(chars) => ScanString(s, chars);
    case Array(lead, elements) => ScanArray(s, v);
    case Object(lead, members) => ScanObject(s, v);
  }

  lemma ScanPadded(s: Scanner, before: Bytes, v: Json, after: Bytes)
    requires Ready(s) && Whitespace(before) && ValidJson(v) && Whitespace(after)
    ensures Run(s, Padded(before, v, after)) == Grown(MarkArrayEntry(s), Entries(v), Nesting(v), LongestString(v))
    decreases v, 2
  {
    RunThree(s, before, Text(v), after);
    ScanWhitespace(s, before);
    ScanValue(s, v);
    ScanWhitespace(Run(s, Text(v)), after);
  }

  lemma RunThree(s: Scanner, a: Bytes, b: Bytes, c: Bytes)
    ensures Run(s, a + b + c) == Run(Run(Run(s, a), b), c)
  {
    RunConcat(s, a + b, c);
    RunConcat(s, a, b);
  }

  /** Brackets around a body: the scanner enters with a fresh frame and leaves with its stack as before. */
  lemma ScanBracketed(s: Scanner, open: Byte, lead: Bytes, body: Bytes, close: Byte, grown: Scanner)
    requires Ready(s) && Whitespace(lead) && (open == 0x5B || open == 0x7B) && close == open + 2
    requires Ready(grown) && grown.stack != [] && grown.stack[..|grown.stack| - 1] == MarkArrayEntry(s).stack
    requires close == 0x7D ==> !InArray(grown)
    requires Run(Step(s, open), body) == grown
    ensures Run(s, [open] + lead + body + [close]) == grown.(stack := MarkArrayEntry(s).stack)
  {
    RunConcat(s, [open] + lead + body, [close]);
    RunThree(s, [open], lead, body);
    RunOne(s, open);
    ScanWhitespace(Step(s, open), lead);
    ScanClose(grown, close);
  }

  lemma ScanClose(s: Scanner, close: Byte)
    requires Ready(s) && s.stack != [] && (close == 0x5D || (close == 0x7D && !InArray(s)))
    ensures Run(s, [close]) == s.(stack := s.stack[..|s.stack| - 1])
  {
    RunOne(s, close);
  }

  /** Inside an opening bracket: what is measured there counts one nesting deeper around it. */
  lemma Enclosed(s: Scanner, open: Byte, inner: Scanner, entries: nat, nesting: nat, longest: nat)
    requires Ready(s) && (open == 0x5B || open == 0x7B)
    requires inner == Step(s, open) || (open == 0x5B && inner == SetHasEntry(Step(s, open), true))
    ensures var grown := Grown(inner, entries, nesting, longest);
            Ready(grown) && grown.stack != [] && grown.stack[..|grown.stack| - 1] == MarkArrayEntry(s).stack
            && (open == 0x7B ==> !InArray(grown))
            && grown.(stack := MarkArrayEntry(s).stack) == Grown(MarkArrayEntry(s), entries, 1 + nesting, longest)
  {
  }

  lemma {:induction false} ScanArray(s: Scanner, v: Json)
    requires v.Array? && Ready(s) && ValidJson(v)
    ensures Run(s, Text(v)) == Grown(MarkArrayEntry(s), Entries(v), Nesting(v), LongestString(v))
    decreases v, 0
  {
    var inner := Step(s, 0x5B);
    var e := v.elements;
    ScanElements(inner, e, true);
    Enclosed(s, 0x5B, if e.NoElement? then inner else SetHasEntry(inner, true),
             ElementEntries(e), ElementNesting(e), ElementLongest(e));
    ScanBracketed(s, 0x5B, v.lead, ElementsText(e, true), 0x5D, Run(inner, ElementsText(e, true)));
  }

  lemma {:induction false} ScanObject(s: Scanner, v: Json)
    requires v.Object? && Ready(s) && ValidJson(v)
    ensures Run(s, Text(v)) == Grown(MarkArrayEntry(s), Entries(v), Nesting(v), LongestString(v))
    decreases v, 0
  {
    var inner := Step(s, 0x7B);
    var m := v.members;
    ScanMembers(inner, m, true);
    Enclosed(s, 0x7B, inner, MemberEntries(m), MemberNesting(m), MemberLongest(m));
    ScanBracketed(s, 0x7B, v.lead, MembersText(m, true), 0x7D, Run(inner, MembersText(m, true)));
  }

  lemma ScanArraySeparator(s: Scanner, first: bool)
    requires Ready(s) && InArray(s) && s.stack[|s.stack| - 1].hasEntry == !first
    ensures Run(s, Separator(first)) == SetHasEntry(s, false)
  {
    if first {
      assert SetHasEntry(s, false).stack == s.stack;
    } else {
      RunOne(s, 0x2C);
    }
  }

  function CountedElement(s: Scanner): Scanner
    requires s.stack != []
  {
    SetHasEntry(s, true).(entries := s.entries + 1)
  }

  lemma CountElement(s: Scanner)
    requires InArray(s)
    ensures MarkArrayEntry(SetHasEntry(s, false)) == CountedElement(s)
    ensures SetHasEntry(CountedElement(s), true) == CountedElement(s)
  {
    assert MarkArrayEntry(SetHasEntry(s, false)).stack == CountedElement(s).stack;
    assert SetHasEntry(CountedElement(s), true).stack == CountedElement(s).stack;
  }

  /** The sizes of an element and of those after it add up. */
  lemma ElementsTogether(s: Scanner, e: Elements)
    requires InArray(s) && e.Element?
    ensures var counted := Grown(CountedElement(s), Entries(e.value), Nesting(e.value), LongestString(e.value));
            InArray(counted) && SetHasEntry(counted, true) == counted
            && Grown(counted, ElementEntries(e.rest), ElementNesting(e.rest), ElementLongest(e.rest))
               == Grown(SetHasEntry(s, true), ElementEntries(e), ElementNesting(e), ElementLongest(e))
  {
    CountElement(s);
    GrownTwice(CountedElement(s), Entries(e.value), Nesting(e.value), LongestString(e.value),
               ElementEntries(e.rest), ElementNesting(e.rest), ElementLongest(e.rest));
  }

  lemma {:induction false} ScanElements(s: Scanner, e: Elements, first: bool)
    requires Ready(s) && ValidElements(e) && InArray(s) && s.stack[|s.stack| - 1].hasEntry == !first
    ensures Run(s, ElementsText(e, first))
            == Grown(if e.NoElement? then s else SetHasEntry(s, true), ElementEntries(e), ElementNesting(e),
                     ElementLongest(e))
    decreases e
  {
    if e.Element? {
      RunThree(s, Separator(first), Padded(e.before, e.value, e.after), ElementsText(e.rest, false));
      ScanArraySeparator(s, first);
      ScanPadded(SetHasEntry(s, false), e.before, e.value, e.after);
      CountElement(s);
      var counted := Grown(CountedElement(s), Entries(e.value), Nesting(e.value), LongestString(e.value));
      ScanElements(counted, e.rest, false);
      ElementsTogether(s, e);
    }
  }

  lemma ScanObjectSeparator(s: Scanner, first: bool)
    requires Ready(s) && s.stack != [] && !InArray(s)
    ensures Run(s, Separator(first)) == s
  {
    RunOne(s, 0x2C);
  }

  lemma ScanColon(s: Scanner)
    requires Ready(s) && s.stack != [] && !InArray(s)
    ensures Run(s, [0x3A]) == Grown(s, 1, 0, 0)
  {
    RunOne(s, 0x3A);
  }

  lemma ScanKey(s: Scanner, first: bool, before: Bytes, key: seq<StringChar>, mid: Bytes)
    requires Ready(s) && s.stack != [] && !InArray(s)
    requires Whitespace(before) && ValidChars(key) && Whitespace(mid)
    ensures Run(s, Separator(first) + KeyText(before, key, mid) + [0x3A]) == Grown(s, 1, 0, StringSize(key))
  {
    RunThree(s, Separator(first), KeyText(before, key, mid), [0x3A]);
    ScanObjectSeparator(s, first);
    RunThree(s, before, StringText(key), mid);
    ScanWhitespace(s, before);
    ScanString(s, key);
    var keyed := Grown(s, 0, 0, StringSize(key));
    ScanWhitespace(keyed, mid);
    ScanColon(keyed);
  }

  /** The sizes of a member and of those after it add up. */
  lemma MembersTogether(s: Scanner, m: Members)
    requires m.Member?
    ensures var keyed := Grown(s, 1, 0, StringSize(m.key));
            Grown(Grown(keyed, Entries(m.value), Nesting(m.value), LongestString(m.value)),
                  MemberEntries(m.rest), MemberNesting(m.rest), MemberLongest(m.rest))
            == Grown(s, MemberEntries(m), MemberNesting(m), MemberLongest(m))
  {
    GrownTwice(Grown(s, 1, 0, StringSize(m.key)), Entries(m.value), Nesting(m.value), LongestString(m.value),
               MemberEntries(m.rest), MemberNesting(m.rest), MemberLongest(m.rest));
    GrownTwice(s, 1, 0, StringSize(m.key), Entries(m.value) + MemberEntries(m.rest),
               Max(Nesting(m.value), MemberNesting(m.rest)), Max(LongestString(m.value), MemberLongest(m.rest)));
  }

  /** The text of one member up to the next separator. */
  lemma {:induction false} ScanMember(s: Scanner, m: Members, first: bool)
    requires Ready(s) && m.Member? && ValidMembers(m) && s.stack != [] && !InArray(s)
    ensures Run(Run(s, Separator(first) + KeyText(m.before, m.key, m.mid) + [0x3A]), Padded(m.gap, m.value, m.after))
            == Grown(Grown(s, 1, 0, StringSize(m.key)), Entries(m.value), Nesting(m.value), LongestString(m.value))
    decreases m, 0
  {
    ScanKey(s, first, m.before, m.key, m.mid);
    var keyed := Grown(s, 1, 0, StringSize(m.key));
    ScanPadded(keyed, m.gap, m.value, m.after);
    assert MarkArrayEntry(keyed) == keyed;
  }

  lemma {:induction false} ScanMembers(s: Scanner, m: Members, first: bool)
    requires Ready(s) && ValidMembers(m) && s.stack != [] && !InArray(s)
    ensures Run(s, MembersText(m, first)) == Grown(s, MemberEntries(m), MemberNesting(m), MemberLongest(m))
    decreases m, 1
  {
    if m.Member? {
      var keyText := Separator(first) + KeyText(m.before, m.key, m.mid) + [0x3A];
      var padded, rest := Padded(m.gap, m.value, m.after), MembersText(m.rest, false);
      var next := Grown(Grown(s, 1, 0, StringSize(m.key)), Entries(m.value), Nesting(m.value), LongestString(m.value));
      assert MembersText(m, first) == keyText + padded + rest;
      assert Run(s, keyText + padded + rest) == Run(next, rest) by {
        RunThree(s, keyText, padded, rest);
        ScanMember(s, m, first);
      }
      ScanMembers(next, m.rest, false);
      MembersTogether(s, m);
    }
  }

  /** The sizes the scanner measures on a whole document are the sizes of its value. */
  lemma DocumentSizes(before: Bytes, v: Json, after: Bytes)
    requires Whitespace(before) && ValidJson(v) && Whitespace(after)
    ensures Run(START, Padded(before, v, after)) == Scanner([], Outside, Entries(v), Nesting(v), LongestString(v))
  {
    ScanPadded(START, before, v, after);
  }

  /**
   The promise of the scan: the text of any JSON value, with whitespace around it, is accepted exactly when the
   nesting, the longest string and the number of entries are within their limits, and the number counted is
   the number of array elements plus object members.
   */
  lemma DocumentVerdict(before: Bytes, v: Json, after: Bytes, limits: Limits)
    requires Whitespace(before) && ValidJson(v) && Whitespace(after)
    ensures var end := Run(START, Padded(before, v, after));
            end.entries == Entries(v)
            && (Fits(end, limits) <==> Nesting(v) <= limits.maxNestingDepth && LongestString(v) <= limits.maxStringBytes
                                       && Entries(v) <= limits.maxCollectionEntries)
  {
    DocumentSizes(before, v, after);
  }
}
