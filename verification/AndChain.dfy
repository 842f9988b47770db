/**
 `splitLiteralAndChain` of ci/test-optimization-validation/ci-package-scripts.js: a command is cut at its unquoted
 `&&`, and refused when it uses any other shell syntax.
 */
module AndChain {
  import opened Wrappers

  // ---------- white space ----------

  /** JavaScript white space, as `trim` and `\s` understand it. */
  predicate IsSpace(c: char) {
    c in {'\t', '\n', '\U{000B}', '\U{000C}', '\r', ' ', '\U{00A0}', '\U{1680}', '\U{2028}', '\U{2029}', '\U{202F}',
          '\U{205F}', '\U{3000}', '\U{FEFF}'}
    || '\U{2000}' <= c <= '\U{200A}'
  }

  predicate Spaces(s: string) {
    forall k :: 0 <= k < |s| ==> IsSpace(s[k])
  }

  function TrimStart(s: string): string {
    if s != "" && IsSpace(s[0]) then TrimStart(s[1..]) else s
  }

  function TrimEnd(s: string): string {
    if s != "" && IsSpace(s[|s| - 1]) then TrimEnd(s[..|s| - 1]) else s
  }

  function Trim(s: string): string {
    TrimEnd(TrimStart(s))
  }

  predicate Trimmed(s: string) {
    s == "" || (!IsSpace(s[0]) && !IsSpace(s[|s| - 1]))
  }

  lemma {:induction false} TrimStartCuts(s: string) returns (a: nat)
    ensures a <= |s| && Spaces(s[..a]) && TrimStart(s) == s[a..] && (a < |s| ==> !IsSpace(s[a]))
  {
    if s != "" && IsSpace(s[0]) {
      var b := TrimStartCuts(s[1..]);
      a := b + 1;
      assert s[..a] == [s[0]] + s[1..][..b];
    } else {
      a := 0;
    }
  }

  lemma {:induction false} TrimEndCuts(s: string) returns (b: nat)
    ensures b <= |s| && Spaces(s[b..]) && TrimEnd(s) == s[..b] && (b > 0 ==> !IsSpace(s[b - 1]))
  {
    if s != "" && IsSpace(s[|s| - 1]) {
      b := TrimEndCuts(s[..|s| - 1]);
      assert s[b..] == s[..|s| - 1][b..] + [s[|s| - 1]];
      assert s[..|s| - 1][..b] == s[..b];
    } else {
      b := |s|;
    }
  }

  /** Trimming removes white space at both ends and nothing else. */
  lemma TrimCuts(s: string) returns (a: nat, b: nat)
    ensures a <= b <= |s| && Spaces(s[..a]) && Spaces(s[b..]) && Trim(s) == s[a..b] && Trimmed(Trim(s))
  {
    a := TrimStartCuts(s);
    var c := TrimEndCuts(s[a..]);
    b := a + c;
    assert s[b..] == s[a..][c..];
    assert s[a..][..c] == s[a..b];
  }

  lemma {:induction false} TrimPadded(before: string, s: string, after: string)
    requires Spaces(before) && Spaces(after) && s != "" && Trimmed(s)
    ensures Trim(before + s + after) == s
    decreases |before| + |after|
  {
    var all := before + s + after;
    if before != "" {
      assert all[1..] == before[1..] + s + after;
      TrimPadded(before[1..], s, after);
    } else {
      assert TrimStart(all) == all;
      if after != "" {
        var shorter := before + s + after[..|after| - 1];
        assert all[..|all| - 1] == shorter;
        TrimPadded(before, s, after[..|after| - 1]);
        assert TrimStart(shorter) == shorter;
      } else {
        assert all == s;
      }
    }
  }

  // ---------- dynamic values ----------

  /** `d[^d\s]+d` matches between `i` and `j`. */
  predicate DelimitedAt(s: string, d: char, i: int, j: int) {
    0 <= i < j - 1 < |s| - 1 && s[i] == d && s[j] == d && forall k :: i < k < j ==> s[k] != d && !IsSpace(s[k])
  }

  predicate Delimited(s: string, d: char) {
    exists i, j :: 0 <= i < |s| && 0 <= j < |s| && DelimitedAt(s, d, i, j)
  }

  predicate Dynamic(s: string) {
    '$' in s || '`' in s || '\r' in s || '\n' in s || Delimited(s, '%') || Delimited(s, '!')
  }

  lemma DelimitedPart(s: string, a: nat, b: nat, d: char)
    requires a <= b <= |s| && Delimited(s[a..b], d)
    ensures Delimited(s, d)
  {
    var p := s[a..b];
    var i, j :| 0 <= i < |p| && 0 <= j < |p| && DelimitedAt(p, d, i, j);
    assert forall k :: a + i <= k <= a + j ==> s[k] == p[k - a];
    assert DelimitedAt(s, d, a + i, a + j);
  }

  lemma DynamicPart(s: string, a: nat, b: nat)
    requires a <= b <= |s| && !Dynamic(s)
    ensures !Dynamic(s[a..b])
  {
    if Delimited(s[a..b], '%') {
      DelimitedPart(s, a, b, '%');
    }
    if Delimited(s[a..b], '!') {
      DelimitedPart(s, a, b, '!');
    }
  }

  const GLUE := " && "

  lemma JoinAt(a: string, b: string, k: nat)
    requires k < |a| + 4 + |b|
    ensures (a + GLUE + b)[k] == if k < |a| then a[k] else if k < |a| + 4 then GLUE[k - |a|] else b[k - |a| - 4]
  {
  }

  /** No dynamic value reaches across the white space between two segments. */
  lemma DelimitedJoin(a: string, b: string, d: char)
    requires (d == '%' || d == '!') && Delimited(a + GLUE + b, d)
    ensures Delimited(a, d) || Delimited(b, d)
  {
    var s, from := a + GLUE + b, |a| + 4;
    forall k: nat | k < |s|
      ensures s[k] == if k < |a| then a[k] else if k < from then GLUE[k - |a|] else b[k - from]
    {
      JoinAt(a, b, k);
    }
    var i, j :| 0 <= i < |s| && 0 <= j < |s| && DelimitedAt(s, d, i, j);
    NotAcross(s, d, i, j, |a|);
    if j < |a| {
      assert DelimitedAt(a, d, i, j);
    } else {
      assert forall k :: i - from < k < j - from ==> b[k] == s[k + from];
      assert DelimitedAt(b, d, i - from, j - from);
    }
  }

  lemma NotAcross(s: string, d: char, i: nat, j: nat, n: nat)
    requires (d == '%' || d == '!') && DelimitedAt(s, d, i, j) && n + 4 <= |s|
    requires s[n] == ' ' && s[n + 1] == '&' && s[n + 2] == '&' && s[n + 3] == ' '
    ensures j < n || i >= n + 4
  {
    assert IsSpace(s[n]) && IsSpace(s[n + 3]);
  }

  lemma DynamicJoin(a: string, b: string)
    requires !Dynamic(a) && !Dynamic(b)
    ensures !Dynamic(a + GLUE + b)
  {
    if Delimited(a + GLUE + b, '%') {
      DelimitedJoin(a, b, '%');
    }
    if Delimited(a + GLUE + b, '!') {
      DelimitedJoin(a, b, '!');
    }
  }

  // ---------- the quote and escape automaton ----------

  datatype Stop = AtAnd(index: nat) | AtEnd | Refused

  predicate Shell(c: char) {
    c == ';' || c == '&' || c == '|' || c == '(' || c == ')'
  }

  /** From `i`, inside `quote` if there is one: the first unquoted `&&`, the end of a complete command, or a refusal. */
  function Walk(s: string, i: nat, quote: Option<char>): (stop: Stop)
    ensures stop.AtAnd? ==> i <= stop.index && stop.index + 1 < |s|
    decreases |s| - i
  {
    if i >= |s| then (if quote.Some? then Refused else AtEnd)
    else if s[i] == '\\' then Walk(s, i + 2, quote)
    else if quote.Some? then Walk(s, i + 1, if s[i] == quote.value then None else quote)
    else if s[i] == '"' || s[i] == '\'' then Walk(s, i + 1, Some(s[i]))
    else if s[i] == '&' && i + 1 < |s| && s[i + 1] == '&' then AtAnd(i)
    else if Shell(s[i]) then Refused
    else Walk(s, i + 1, None)
  }

  /** The segments of `s`, where the automaton stands at `i` in the first of them. */
  function SegmentsFrom(s: string, i: nat, quote: Option<char>): Option<seq<string>>
    decreases |s|
  {
    match Walk(s, i, quote)
    case Refused => None
    case AtEnd => if Trim(s) == "" then None else Some([Trim(s)])
    case AtAnd(k) =>
      if Trim(s[..k]) == "" then None
      else
        match SegmentsFrom(s[k + 2..], 0, None)
        case None => None
        case Some(rest) => Some([Trim(s[..k])] + rest)
  }

  function Split(command: string): Option<seq<string>> {
    var source := Trim(command);
    if source == "" || Dynamic(source) then None else SegmentsFrom(source, 0, None)
  }

  function Prepend(segments: seq<string>, rest: Option<seq<string>>): Option<seq<string>> {
    match rest
    case None => None
    case Some(r) => Some(segments + r)
  }

  /** What the loop still has to find, at `index` in the segment that began at `start`. */
  function Pending(source: string, start: nat, index: nat, quote: Option<char>): Option<seq<string>>
    requires start <= index && start <= |source|
  {
    SegmentsFrom(source[start..], index - start, quote)
  }

  lemma PendingStep(source: string, start: nat, index: nat, quote: Option<char>)
    requires start <= index < |source|
    ensures var c := source[index];
            Pending(source, start, index, quote)
            == if c == '\\' then Pending(source, start, index + 2, quote)
               else if quote.Some? then Pending(source, start, index + 1, if c == quote.value then None else quote)
               else if c == '"' || c == '\'' then Pending(source, start, index + 1, Some(c))
               else if c == '&' && index + 1 < |source| && source[index + 1] == '&' then
                 if Trim(source[start..index]) == "" then None
                 else Prepend([Trim(source[start..index])], Pending(source, index + 2, index + 2, None))
               else if Shell(c) then None
               else Pending(source, start, index + 1, None)
  {
    var s, i := source[start..], index - start;
    assert s[i] == source[index] && (index + 1 < |source| ==> s[i + 1] == source[index + 1]);
    if Walk(s, i, quote) == AtAnd(i) {
      assert s[..i] == source[start..index] && s[i + 2..] == source[index + 2..];
    }
  }

  /** The loop of the source. */
  method SplitLiteralAndChain(command: string) returns (r: Option<seq<string>>)
    ensures r == Split(command)
  {
    var source := Trim(command);
    if source == "" || Dynamic(source) {
      return None;
    }
    var segments: seq<string> := [];
    var quote: Option<char> := None;
    var start, index := 0, 0;
    assert source[0..] == source;
    PrependNothing(Pending(source, 0, 0, None));
    while index < |source|
      invariant start <= index && start <= |source|
      invariant Prepend(segments, Pending(source, start, index, quote)) == Split(command)
      decreases |source| - index
    {
      var character := source[index];
      PendingStep(source, start, index, quote);
      if character == '\\' {
        index := index + 2;
        continue;
      }
      if quote.Some? {
        if character == quote.value {
          quote := None;
        }
        index := index + 1;
        continue;
      }
      if character == '"' || character == '\'' {
        quote := Some(character);
        index := index + 1;
        continue;
      }
      if character == '&' && index + 1 < |source| && source[index + 1] == '&' {
        var segment := Trim(source[start..index]);
        if segment == "" {
          return None;
        }
        PrependTwice(segments, [segment], Pending(source, index + 2, index + 2, None));
        segments := segments + [segment];
        index := index + 2;
        start := index;
        continue;
      }
      if character == ';' || character == '&' || character == '|' || character == '(' || character == ')' {
        return None;
      }
      index := index + 1;
    }
    if quote.Some? {
      return None;
    }
    var finalSegment := Trim(source[start..]);
    if finalSegment == "" {
      return None;
    }
    segments := segments + [finalSegment];
    return Some(segments);
  }

  lemma PrependNothing(rest: Option<seq<string>>)
    ensures Prepend([], rest) == rest
  {
    if rest.Some? {
      assert [] + rest.value == rest.value;
    }
  }

  lemma PrependTwice(a: seq<string>, b: seq<string>, rest: Option<seq<string>>)
    ensures Prepend(a, Prepend(b, rest)) == Prepend(a + b, rest)
  {
    if rest.Some? {
      assert a + (b + rest.value) == (a + b) + rest.value;
    }
  }

  // ---------- the segments ----------

  /** A command that the loop leaves whole. */
  predicate StaysWhole(s: string) {
    s != "" && Trimmed(s) && !Dynamic(s) && Walk(s, 0, None).AtEnd?
  }

  lemma {:induction false} WalkTake(s: string, i: nat, quote: Option<char>, end: nat)
    requires Walk(s, i, quote) == AtAnd(end)
    ensures Walk(s[..end], i, quote) == AtEnd
    decreases |s| - i
  {
    if i < end {
      if s[i] == '\\' {
        WalkTake(s, i + 2, quote, end);
      } else if quote.Some? {
        WalkTake(s, i + 1, if s[i] == quote.value then None else quote, end);
      } else if s[i] == '"' || s[i] == '\'' {
        WalkTake(s, i + 1, Some(s[i]), end);
      } else {
        WalkTake(s, i + 1, None, end);
      }
    }
  }

  /** The automaton only looks ahead. */
  lemma {:induction false} WalkDrop(s: string, a: nat, i: nat, quote: Option<char>)
    requires a <= i && a <= |s|
    ensures var stop := Walk(s[a..], i - a, quote);
            Walk(s, i, quote) == if stop.AtAnd? then AtAnd(stop.index + a) else stop
    decreases |s| - i
  {
    if i < |s| {
      assert s[a..][i - a] == s[i] && (i + 1 < |s| ==> s[a..][i - a + 1] == s[i + 1]);
      if s[i] == '\\' {
        WalkDrop(s, a, i + 2, quote);
      } else if quote.Some? {
        WalkDrop(s, a, i + 1, if s[i] == quote.value then None else quote);
      } else if s[i] == '"' || s[i] == '\'' {
        WalkDrop(s, a, i + 1, Some(s[i]));
      } else {
        WalkDrop(s, a, i + 1, None);
      }
    }
  }

  lemma {:induction false} WalkSpaces(s: string, i: nat, a: nat, quote: Option<char>)
    requires i <= a <= |s| && forall k :: i <= k < a ==> IsSpace(s[k])
    ensures Walk(s, i, quote) == Walk(s, a, quote) || (quote.Some? && !IsQuote(quote.value))
    decreases a - i
  {
    if i < a {
      WalkSpaces(s, i + 1, a, quote);
    }
  }

  predicate IsQuote(c: char) {
    c == '"' || c == '\''
  }

  /** White space at the end can be cut, even when a backslash escapes its first character. */
  lemma {:induction false} WalkTrimEnd(s: string, b: nat, i: nat, quote: Option<char>)
    requires b <= |s| && Spaces(s[b..]) && Walk(s, i, quote) == AtEnd && (quote.Some? ==> IsQuote(quote.value))
    ensures Walk(s[..b], i, quote) == AtEnd
    decreases |s| - i
  {
    assert forall k :: b <= k < |s| ==> s[k] == s[b..][k - b];
    if i >= b {
      if i < |s| {
        WalkSpaces(s, i, |s|, quote);
      }
    } else if s[i] == '\\' {
      WalkTrimEnd(s, b, i + 2, quote);
    } else if quote.Some? {
      WalkTrimEnd(s, b, i + 1, if s[i] == quote.value then None else quote);
    } else if s[i] == '"' || s[i] == '\'' {
      WalkTrimEnd(s, b, i + 1, Some(s[i]));
    } else {
      WalkTrimEnd(s, b, i + 1, None);
    }
  }

  /** A complete piece trims to a segment. */
  lemma PieceStaysWhole(s: string)
    requires Walk(s, 0, None) == AtEnd && !Dynamic(s) && Trim(s) != ""
    ensures StaysWhole(Trim(s))
  {
    var a, b := TrimCuts(s);
    WalkTrimEnd(s, b, 0, None);
    var t := s[..b];
    assert forall k :: 0 <= k < a ==> t[k] == s[..a][k];
    WalkSpaces(t, 0, a, None);
    WalkDrop(t, a, a, None);
    assert t[a..] == s[a..b];
    DynamicPart(s, a, b);
  }

  lemma {:induction false} SegmentsStayWhole(s: string)
    requires !Dynamic(s) && SegmentsFrom(s, 0, None).Some?
    ensures var r := SegmentsFrom(s, 0, None).value; r != [] && forall k :: 0 <= k < |r| ==> StaysWhole(r[k])
    decreases |s|
  {
    var stop := Walk(s, 0, None);
    if stop.AtEnd? {
      PieceStaysWhole(s);
    } else {
      WalkTake(s, 0, None, stop.index);
      DynamicPart(s, 0, stop.index);
      PieceStaysWhole(s[..stop.index]);
      DynamicPart(s, stop.index + 2, |s|);
      assert s[stop.index + 2..|s|] == s[stop.index + 2..];
      SegmentsStayWhole(s[stop.index + 2..]);
    }
  }

  lemma WholeSplits(s: string)
    requires StaysWhole(s)
    ensures Split(s) == Some([s])
  {
    TrimPadded("", s, "");
    assert "" + s + "" == s;
  }

  // ---------- the grammar of literal chains ----------

  /** A character that stands for itself, or one after a backslash. */
  datatype Mark = Literal(c: char) | Escaped(c: char)

  datatype Part = Plain(mark: Mark) | Quoted(quote: char, marks: seq<Mark>)

  predicate ValidPart(part: Part) {
    match part
    case Plain(mark) => mark.Literal? ==> mark.c !in ['\\', '"', '\'', ';', '&', '|', '(', ')']
    case Quoted(quote, marks) =>
      quote in ['"', '\'']
      && forall k :: 0 <= k < |marks| && marks[k].Literal? ==> marks[k].c != quote && marks[k].c != '\\'
  }

  predicate ValidParts(parts: seq<Part>) {
    forall k :: 0 <= k < |parts| ==> ValidPart(parts[k])
  }

  function MarkText(mark: Mark): string {
    if mark.Literal? then [mark.c] else ['\\', mark.c]
  }

  function MarksText(marks: seq<Mark>): string {
    if marks == [] then "" else MarkText(marks[0]) + MarksText(marks[1..])
  }

  function PartText(part: Part): string {
    match part
    case Plain(mark) => MarkText(mark)
    case Quoted(quote, marks) => [quote] + MarksText(marks) + [quote]
  }

  function PartsText(parts: seq<Part>): string {
    if parts == [] then "" else PartText(parts[0]) + PartsText(parts[1..])
  }

  /** `parts` write `text`; at the end of a command a backslash with nothing to escape may follow. */
  predicate Spells(parts: seq<Part>, text: string, last: bool) {
    ValidParts(parts) && (text == PartsText(parts) || (last && text == PartsText(parts) + "\\"))
  }

  ghost predicate IsLiteral(text: string, last: bool) {
    exists parts :: Spells(parts, text, last)
  }

  /** Some character or some `%name%` or `!name!` that a shell would replace. */
  predicate HasDynamicValue(s: string) {
    (exists k :: 0 <= k < |s| && s[k] in ['$', '`', '\r', '\n'])
    || exists i, j :: 0 <= i && i + 1 < j < |s| && s[i] == s[j] && s[i] in ['%', '!']
                      && forall k :: i < k < j ==> s[k] != s[i] && !IsSpace(s[k])
  }

  function JoinPieces(pieces: seq<string>): string {
    if pieces == [] then "" else if |pieces| == 1 then pieces[0] else pieces[0] + "&&" + JoinPieces(pieces[1..])
  }

  /** The texts joined by `&&` are the source; each is literal, and trims to its segment, which is not empty. */
  ghost predicate Chains(source: string, texts: seq<string>, segments: seq<string>) {
    |texts| == |segments| > 0 && source == JoinPieces(texts)
    && forall k :: 0 <= k < |texts| ==>
         IsLiteral(texts[k], k == |texts| - 1) && Trim(texts[k]) == segments[k] && segments[k] != ""
  }

  ghost predicate IsChain(source: string, segments: seq<string>) {
    !HasDynamicValue(source) && exists texts :: Chains(source, texts, segments)
  }

  lemma DelimitedIsDynamic(s: string, d: char)
    requires d in ['%', '!']
    ensures Delimited(s, d) ==> HasDynamicValue(s)
  {
    if i, j :| 0 <= i < |s| && 0 <= j < |s| && DelimitedAt(s, d, i, j) {
      assert i + 1 < j < |s| && s[i] == s[j] && s[i] in ['%', '!'];
    }
  }

  lemma DynamicIff(s: string)
    ensures Dynamic(s) <==> HasDynamicValue(s)
  {
    DelimitedIsDynamic(s, '%');
    DelimitedIsDynamic(s, '!');
    if i, j :| 0 <= i && i + 1 < j < |s| && s[i] == s[j] && s[i] in ['%', '!']
               && forall k :: i < k < j ==> s[k] != s[i] && !IsSpace(s[k]) {
      assert DelimitedAt(s, s[i], i, j);
    }
  }

  // ---------- the automaton reads the grammar ----------

  function Shift(stop: Stop, n: nat): Stop {
    if stop.AtAnd? then AtAnd(stop.index + n) else stop
  }

  /** What the automaton does after a character that escapes nothing. */
  predicate Moves(c: char, quote: Option<char>, next: Option<char>) {
    c != '\\'
    && match quote
       case Some(q) => next == if c == q then None else quote
       case None => if c == '"' || c == '\'' then next == Some(c) else c != '&' && !Shell(c) && next == None
  }

  lemma WalkOne(c: char, rest: string, quote: Option<char>, next: Option<char>)
    requires Moves(c, quote, next)
    ensures Walk([c] + rest, 0, quote) == Shift(Walk(rest, 0, next), 1)
  {
    var s := [c] + rest;
    assert s[1..] == rest;
    WalkDrop(s, 1, 1, next);
  }

  lemma WalkPair(c: char, rest: string, quote: Option<char>)
    ensures Walk(['\\', c] + rest, 0, quote) == Shift(Walk(rest, 0, quote), 2)
  {
    var s := ['\\', c] + rest;
    assert s[2..] == rest;
    WalkDrop(s, 2, 2, quote);
  }

  lemma {:induction false} WalkMarks(quote: char, marks: seq<Mark>, rest: string)
    requires ValidPart(Quoted(quote, marks))
    ensures Walk(MarksText(marks) + rest, 0, Some(quote)) == Shift(Walk(rest, 0, Some(quote)), |MarksText(marks)|)
    decreases |marks|
  {
    if marks == [] {
      assert "" + rest == rest;
    } else {
      var first, more := MarkText(marks[0]), MarksText(marks[1..]);
      WalkMarks(quote, marks[1..], rest);
      Assoc(first, more, rest);
      WalkMark(quote, marks[0], more + rest);
    }
  }

  lemma WalkMark(quote: char, mark: Mark, rest: string)
    requires mark.Literal? ==> mark.c != quote && mark.c != '\\'
    ensures Walk(MarkText(mark) + rest, 0, Some(quote)) == Shift(Walk(rest, 0, Some(quote)), |MarkText(mark)|)
  {
    if mark.Literal? {
      WalkOne(mark.c, rest, Some(quote), Some(quote));
    } else {
      WalkPair(mark.c, rest, Some(quote));
    }
  }

  lemma Assoc(a: string, b: string, c: string)
    ensures a + b + c == a + (b + c)
  {
  }

  lemma WalkQuoted(quote: char, marks: seq<Mark>, rest: string)
    requires ValidPart(Quoted(quote, marks))
    ensures var text := [quote] + MarksText(marks) + [quote];
            Walk(text + rest, 0, None) == Shift(Walk(rest, 0, None), |text|)
  {
    var inside := MarksText(marks);
    Assoc([quote] + inside, [quote], rest);
    Assoc([quote], inside, [quote] + rest);
    WalkOne(quote, inside + ([quote] + rest), None, Some(quote));
    WalkMarks(quote, marks, [quote] + rest);
    WalkOne(quote, rest, Some(quote), None);
  }

  lemma WalkPart(part: Part, rest: string)
    requires ValidPart(part)
    ensures Walk(PartText(part) + rest, 0, None) == Shift(Walk(rest, 0, None), |PartText(part)|)
  {
    match part
    case Quoted(quote, marks) => WalkQuoted(quote, marks, rest);
    case Plain(Literal(c)) => WalkOne(c, rest, None, None);
    case Plain(Escaped(c)) => WalkPair(c, rest, None);
  }

  lemma {:induction false} WalkParts(parts: seq<Part>, rest: string)
    requires ValidParts(parts)
    ensures Walk(PartsText(parts) + rest, 0, None) == Shift(Walk(rest, 0, None), |PartsText(parts)|)
    decreases |parts|
  {
    if parts == [] {
      assert "" + rest == rest;
    } else {
      var first, more := PartText(parts[0]), PartsText(parts[1..]);
      WalkParts(parts[1..], rest);
      Assoc(first, more, rest);
      WalkPart(parts[0], more + rest);
    }
  }

  lemma WalkLiteral(text: string)
    requires IsLiteral(text, true)
    ensures Walk(text, 0, None) == AtEnd
  {
    var parts :| Spells(parts, text, true);
    var rest := if text == PartsText(parts) then "" else "\\";
    assert text == PartsText(parts) + rest;
    WalkParts(parts, rest);
    assert Walk(rest, 0, None) == AtEnd by {
      assert rest != "" ==> Walk(rest, 0, None) == Walk(rest, 2, None);
    }
  }

  lemma WalkToAnd(text: string, rest: string)
    requires IsLiteral(text, false)
    ensures Walk(text + "&&" + rest, 0, None) == AtAnd(|text|)
  {
    var parts :| Spells(parts, text, false);
    Assoc(text, "&&", rest);
    WalkParts(parts, "&&" + rest);
  }

  lemma ChainRest(texts: seq<string>, segments: seq<string>)
    requires Chains(JoinPieces(texts), texts, segments) && |texts| > 1
    ensures Chains(JoinPieces(texts[1..]), texts[1..], segments[1..]) && IsLiteral(texts[0], false)
  {
    assert IsLiteral(texts[0], 0 == |texts| - 1);
    var rest := texts[1..];
    forall k | 0 <= k < |rest|
      ensures IsLiteral(rest[k], k == |rest| - 1) && Trim(rest[k]) == segments[1..][k] && segments[1..][k] != ""
    {
      assert rest[k] == texts[k + 1] && IsLiteral(texts[k + 1], k + 1 == |texts| - 1);
    }
  }

  lemma FirstSplits(text: string, rest: string, segments: seq<string>)
    requires IsLiteral(text, false) && Trim(text) != "" && SegmentsFrom(rest, 0, None) == Some(segments)
    ensures SegmentsFrom(text + "&&" + rest, 0, None) == Some([Trim(text)] + segments)
  {
    var s := text + "&&" + rest;
    WalkToAnd(text, rest);
    assert s[..|text|] == text && s[|text| + 2..] == rest;
  }

  lemma {:induction false} ChainSplits(texts: seq<string>, segments: seq<string>)
    requires Chains(JoinPieces(texts), texts, segments)
    ensures SegmentsFrom(JoinPieces(texts), 0, None) == Some(segments)
    decreases |texts|
  {
    if |texts| == 1 {
      WalkLiteral(texts[0]);
      assert segments == [segments[0]];
    } else {
      ChainRest(texts, segments);
      ChainSplits(texts[1..], segments[1..]);
      FirstSplits(texts[0], JoinPieces(texts[1..]), segments[1..]);
      assert segments == [segments[0]] + segments[1..];
    }
  }

  // ---------- what the automaton accepts is in the grammar ----------

  /** Where the automaton stops, with a text that is complete there. */
  predicate Stops(s: string, i: nat, quote: Option<char>, end: nat) {
    end <= |s| && (Walk(s, i, quote) == AtAnd(end) || (Walk(s, i, quote) == AtEnd && end == |s|))
  }

  lemma SpellsMore(part: Part, more: seq<Part>, rest: string, last: bool)
    requires ValidPart(part) && Spells(more, rest, last)
    ensures Spells([part] + more, PartText(part) + rest, last)
  {
    assert ([part] + more)[1..] == more;
    assert PartText(part) + (PartsText(more) + "\\") == PartText(part) + PartsText(more) + "\\";
  }

  lemma SliceAt(s: string, i: nat, j: nat, k: nat)
    requires i <= j <= k <= |s|
    ensures s[i..k] == s[i..j] + s[j..k]
  {
  }

  lemma SliceQuoted(s: string, i: nat, j: nat)
    requires i < j < |s|
    ensures s[i..j + 1] == [s[i]] + s[i + 1..j] + [s[j]]
  {
  }

  lemma MarksFirst(mark: Mark, more: seq<Mark>)
    ensures MarksText([mark] + more) == MarkText(mark) + MarksText(more)
  {
    assert ([mark] + more)[1..] == more;
  }

  /** The rest of a quoted text, up to its closing quote at `j`. */
  lemma {:induction false} CloseQuote(s: string, i: nat, quote: char) returns (marks: seq<Mark>, j: nat)
    requires i <= |s| && !Walk(s, i, Some(quote)).Refused? && quote in ['"', '\'']
    ensures i <= j < |s| && s[j] == quote && s[i..j] == MarksText(marks) && ValidPart(Quoted(quote, marks))
    ensures Walk(s, j + 1, None) == Walk(s, i, Some(quote))
    decreases |s| - i
  {
    if s[i] == quote {
      marks, j := [], i;
    } else {
      var mark := if s[i] == '\\' then Escaped(if i + 1 < |s| then s[i + 1] else ' ') else Literal(s[i]);
      var next := i + |MarkText(mark)|;
      assert next <= |s| && Walk(s, next, Some(quote)) == Walk(s, i, Some(quote));
      var more;
      more, j := CloseQuote(s, next, quote);
      marks := [mark] + more;
      MarksFirst(mark, more);
      SliceAt(s, i, next, j);
    }
  }

  lemma QuotedPart(s: string, i: nat, end: nat) returns (part: Part, next: nat)
    requires Stops(s, i, None, end) && i < |s| && s[i] in ['"', '\'']
    ensures ValidPart(part) && i < next <= |s| && s[i..next] == PartText(part) && Stops(s, next, None, end)
  {
    assert Walk(s, i, None) == Walk(s, i + 1, Some(s[i]));
    var marks, j := CloseQuote(s, i + 1, s[i]);
    part, next := Quoted(s[i], marks), j + 1;
    SliceQuoted(s, i, j);
  }

  /** The part at `i`, unless a last backslash stands there. */
  lemma FirstPart(s: string, i: nat, end: nat) returns (part: Part, next: nat)
    requires Stops(s, i, None, end) && i < end && !(s[i] == '\\' && i + 1 == |s|)
    ensures ValidPart(part) && i < next <= |s| && s[i..next] == PartText(part) && Stops(s, next, None, end)
  {
    if s[i] == '"' || s[i] == '\'' {
      part, next := QuotedPart(s, i, end);
    } else if s[i] == '\\' {
      part, next := Plain(Escaped(s[i + 1])), i + 2;
    } else {
      part, next := Plain(Literal(s[i])), i + 1;
    }
  }

  lemma StopIsAhead(s: string, i: nat, end: nat)
    requires Stops(s, i, None, end) && i <= |s|
    ensures i <= end
  {
  }

  lemma {:induction false} ParseParts(s: string, i: nat, end: nat) returns (parts: seq<Part>)
    requires Stops(s, i, None, end) && i <= end
    ensures Spells(parts, s[i..end], end == |s|)
    decreases |s| - i
  {
    if i == end {
      parts := [];
    } else if s[i] == '\\' && i + 1 == |s| {
      parts := [];
      assert s[i..end] == "" + "\\";
    } else {
      var part, next := FirstPart(s, i, end);
      StopIsAhead(s, next, end);
      var more := ParseParts(s, next, end);
      parts := [part] + more;
      SliceAt(s, i, next, end);
      SpellsMore(part, more, s[next..end], end == |s|);
    }
  }

  lemma StopIsLiteral(s: string, end: nat)
    requires Stops(s, 0, None, end)
    ensures IsLiteral(s[..end], Walk(s, 0, None) == AtEnd)
  {
    var parts := ParseParts(s, 0, end);
    assert s[0..end] == s[..end];
  }

  lemma {:induction false} WalkStopsAtAnd(s: string, i: nat, quote: Option<char>)
    requires Walk(s, i, quote).AtAnd?
    ensures var k := Walk(s, i, quote).index; s[k] == '&' && s[k + 1] == '&'
    decreases |s| - i
  {
    if s[i] == '\\' {
      WalkStopsAtAnd(s, i + 2, quote);
    } else if quote.Some? {
      WalkStopsAtAnd(s, i + 1, if s[i] == quote.value then None else quote);
    } else if s[i] == '"' || s[i] == '\'' {
      WalkStopsAtAnd(s, i + 1, Some(s[i]));
    } else if Walk(s, i, quote) != AtAnd(i) {
      WalkStopsAtAnd(s, i + 1, None);
    }
  }

  lemma CutAtAnd(s: string, k: nat)
    requires k + 1 < |s| && s[k] == '&' && s[k + 1] == '&'
    ensures s == s[..k] + "&&" + s[k + 2..]
  {
    assert s[k..k + 2] == "&&";
  }

  lemma ChainFirst(first: string, source: string, texts: seq<string>, segments: seq<string>)
    requires IsLiteral(first, false) && Trim(first) != "" && Chains(source, texts, segments)
    ensures Chains(first + "&&" + source, [first] + texts, [Trim(first)] + segments)
  {
    assert ([first] + texts)[1..] == texts;
  }

  lemma {:induction false} TextsOf(s: string) returns (texts: seq<string>)
    requires SegmentsFrom(s, 0, None).Some?
    ensures Chains(s, texts, SegmentsFrom(s, 0, None).value)
    decreases |s|
  {
    var stop := Walk(s, 0, None);
    if stop.AtEnd? {
      texts := [s];
      StopIsLiteral(s, |s|);
      assert s[..|s|] == s;
    } else {
      var rest := TextsOf(s[stop.index + 2..]);
      texts := [s[..stop.index]] + rest;
      StopIsLiteral(s, stop.index);
      WalkStopsAtAnd(s, 0, None);
      CutAtAnd(s, stop.index);
      ChainFirst(s[..stop.index], s[stop.index + 2..], rest, SegmentsFrom(s[stop.index + 2..], 0, None).value);
    }
  }

  /**
   The splitter is exact: it returns `segments` if and only if the command has no dynamic value and is a chain of
   literal texts that trim to them.
   */
  lemma SplitIsExact(command: string, segments: seq<string>)
    ensures Split(command) == Some(segments) <==> IsChain(Trim(command), segments)
  {
    var source := Trim(command);
    DynamicIff(source);
    if Split(command) == Some(segments) {
      var texts := TextsOf(source);
    }
    if IsChain(source, segments) {
      var texts :| Chains(source, texts, segments);
      ChainSplits(texts, segments);
    }
  }

  // ---------- splitting and joining ----------

  /** One literal command, with no white space around it. */
  ghost predicate IsSegment(s: string) {
    s != "" && Trimmed(s) && !HasDynamicValue(s) && IsLiteral(s, true)
  }

  lemma SegmentIff(s: string)
    ensures IsSegment(s) <==> StaysWhole(s)
  {
    DynamicIff(s);
    if StaysWhole(s) {
      StopIsLiteral(s, |s|);
      assert s[..|s|] == s;
    }
    if IsSegment(s) {
      WalkLiteral(s);
    }
  }

  /** Every segment of a split is not empty and splits to exactly itself. */
  lemma SplitGivesSegments(command: string)
    requires Split(command).Some?
    ensures var r := Split(command).value;
            r != [] && forall k :: 0 <= k < |r| ==> IsSegment(r[k]) && Split(r[k]) == Some([r[k]])
  {
    SegmentsStayWhole(Trim(command));
    var r := Split(command).value;
    forall k | 0 <= k < |r|
      ensures IsSegment(r[k]) && Split(r[k]) == Some([r[k]])
    {
      SegmentIff(r[k]);
      WholeSplits(r[k]);
    }
  }

  function Join(segments: seq<string>): string
    requires segments != []
  {
    if |segments| == 1 then segments[0] else segments[0] + GLUE + Join(segments[1..])
  }

  /** The automaton crosses a segment and stops at the `&&` after it, even when a last backslash escapes the space. */
  lemma {:induction false} WalkAcross(s: string, rest: string, i: nat, quote: Option<char>)
    requires i <= |s| + 1 && Walk(s, i, quote) == AtEnd
    ensures Walk(s + GLUE + rest, i, quote) == AtAnd(|s| + 1)
    decreases |s| + 1 - i
  {
    var all := s + GLUE + rest;
    assert all[|s|] == ' ' && all[|s| + 1] == '&' && all[|s| + 2] == '&';
    if i < |s| {
      assert all[i] == s[i] && (i + 1 < |s| ==> all[i + 1] == s[i + 1]);
      if s[i] == '\\' {
        WalkAcross(s, rest, i + 2, quote);
      } else if quote.Some? {
        WalkAcross(s, rest, i + 1, if s[i] == quote.value then None else quote);
      } else if s[i] == '"' || s[i] == '\'' {
        WalkAcross(s, rest, i + 1, Some(s[i]));
      } else {
        WalkAcross(s, rest, i + 1, None);
      }
    }
  }

  lemma LeadingSpace(s: string)
    requires s != "" && !IsSpace(s[0])
    ensures SegmentsFrom(" " + s, 0, None) == SegmentsFrom(s, 0, None)
  {
    var all := " " + s;
    assert all[1..] == s;
    WalkDrop(all, 1, 1, None);
    assert Walk(all, 0, None) == Walk(all, 1, None);
    match Walk(s, 0, None)
    case Refused =>
    case AtEnd => assert TrimStart(all) == TrimStart(s);
    case AtAnd(k) =>
      assert all[..k + 1][1..] == s[..k] && all[k + 3..] == s[k + 2..];
      assert TrimStart(all[..k + 1]) == TrimStart(s[..k]);
  }

  /** A trimmed text that splits into these segments. */
  predicate SplitsInto(s: string, segments: seq<string>) {
    s != "" && Trimmed(s) && !Dynamic(s) && SegmentsFrom(s, 0, None) == Some(segments)
  }

  lemma {:induction false} WholesSplit(segments: seq<string>)
    requires segments != [] && forall k :: 0 <= k < |segments| ==> StaysWhole(segments[k])
    ensures SplitsInto(Join(segments), segments)
  {
    var first, more := segments[0], segments[1..];
    if |segments| == 1 {
      OneSplits(first);
      assert segments == [first];
    } else {
      WholesSplit(more);
      JoinFirst(first, Join(more), more);
      assert segments == [first] + more;
    }
  }

  lemma OneSplits(s: string)
    requires StaysWhole(s)
    ensures SplitsInto(s, [s])
  {
    WholeSplits(s);
    TrimPadded("", s, "");
    assert "" + s + "" == s;
  }

  lemma JoinFirst(first: string, rest: string, segments: seq<string>)
    requires StaysWhole(first) && SplitsInto(rest, segments)
    ensures SplitsInto(first + GLUE + rest, [first] + segments)
  {
    var s := first + GLUE + rest;
    DynamicJoin(first, rest);
    WalkAcross(first, rest, 0, None);
    assert s[..|first| + 1] == "" + first + " ";
    TrimPadded("", first, " ");
    assert s[|first| + 3..] == " " + rest;
    LeadingSpace(rest);
    assert s[0] == first[0] && s[|s| - 1] == rest[|rest| - 1];
  }

  /** Segments joined with ` && ` split back into the same list. */
  lemma JoinSplits(segments: seq<string>)
    requires segments != [] && forall k :: 0 <= k < |segments| ==> IsSegment(segments[k])
    ensures Split(Join(segments)) == Some(segments)
  {
    forall k | 0 <= k < |segments|
      ensures StaysWhole(segments[k])
    {
      SegmentIff(segments[k]);
    }
    WholesSplit(segments);
    TrimPadded("", Join(segments), "");
    assert "" + Join(segments) + "" == Join(segments);
  }

  /**
   Splitting is the inverse of joining with ` && `: the lists a split can give are exactly the non-empty lists of
   segments, and re-splitting the joined list gives it back, quotes and trailing backslashes included.
   */
  lemma SplitJoin(segments: seq<string>)
    ensures segments != [] && (forall k :: 0 <= k < |segments| ==> IsSegment(segments[k]))
            <==> exists command :: Split(command) == Some(segments)
    ensures (exists command :: Split(command) == Some(segments)) ==> Split(Join(segments)) == Some(segments)
  {
    if segments != [] && forall k :: 0 <= k < |segments| ==> IsSegment(segments[k]) {
      JoinSplits(segments);
    }
    if exists command :: Split(command) == Some(segments) {
      var command :| Split(command) == Some(segments);
      SplitGivesSegments(command);
    }
  }
}
