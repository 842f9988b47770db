/**
 The bracket matcher of scripts/generate-config-types.js: `balancedEnd` and `skipQuoted`, which call each other
 because a template literal may hold code and code may hold a template literal.
 */
module BalancedEnd {

  predicate IsQuote(c: char) {
    c == '"' || c == '\'' || c == '`'
  }

  /** Where a hole `${` opens in a template literal. */
  predicate HoleAt(s: string, i: nat, quote: char) {
    quote == '`' && i + 1 < |s| && s[i] == '$' && s[i + 1] == '{'
  }

  /** The index after the bracket that closes `depth` open ones, reading from `i`; -1 when there is none. */
  function CloseFrom(s: string, i: nat, depth: nat, open: char, close: char): (r: int)
    requires depth > 0
    ensures r == -1 || i < r <= |s|
    decreases |s| - i
  {
    if i >= |s| then -1
    else if s[i] == open then CloseFrom(s, i + 1, depth + 1, open, close)
    else if s[i] == close then (if depth == 1 then i + 1 else CloseFrom(s, i + 1, depth - 1, open, close))
    else if IsQuote(s[i]) then CloseFrom(s, QuoteEnd(s, i + 1, s[i]), depth, open, close)
    else CloseFrom(s, i + 1, depth, open, close)
  }

  /** The index after the closing quote, reading from `i` inside the literal; at least |s| when there is none. */
  function QuoteEnd(s: string, i: nat, quote: char): (r: nat)
    ensures i <= r && (i <= |s| ==> r <= |s| + 1)
    decreases |s| - i
  {
    if i >= |s| then i
    else if s[i] == '\\' then QuoteEnd(s, i + 2, quote)
    else if s[i] == quote then i + 1
    else if HoleAt(s, i, quote) then
      var end := CloseFrom(s, i + 2, 1, '{', '}');
      if end == -1 then |s| else QuoteEnd(s, end, quote)
    else QuoteEnd(s, i + 1, quote)
  }

  // ---------- the loops ----------

  method BalancedEnd(s: string, start: nat, open: char, close: char) returns (r: int)
    ensures r == CloseFrom(s, start, 1, open, close)
    ensures r == -1 || start < r <= |s|
    decreases |s| - start, 1
  {
    var depth: nat := 1;
    var i := start;
    while i < |s|
      invariant start <= i && depth > 0
      invariant CloseFrom(s, i, depth, open, close) == CloseFrom(s, start, 1, open, close)
      decreases |s| - i
    {
      var ch := s[i];
      if ch == open {
        depth := depth + 1;
        i := i + 1;
      } else if ch == close {
        i := i + 1;
        if depth == 1 {
          return i;
        }
        depth := depth - 1;
      } else if ch == '"' || ch == '\'' || ch == '`' {
        i := SkipQuoted(s, i, ch);
      } else {
        i := i + 1;
      }
    }
    return -1;
  }

  /** `i` is the index of the opening quote. */
  method SkipQuoted(s: string, i: nat, quote: char) returns (r: nat)
    ensures r == QuoteEnd(s, i + 1, quote) && i < r
    decreases |s| - i, 0
  {
    var isTemplate := quote == '`';
    r := i + 1;
    while r < |s|
      invariant i < r && QuoteEnd(s, r, quote) == QuoteEnd(s, i + 1, quote)
      decreases |s| - r
    {
      if s[r] == '\\' {
        r := r + 2;
        continue;
      }
      if s[r] == quote {
        return r + 1;
      }
      if isTemplate && s[r] == '$' && r + 1 < |s| && s[r + 1] == '{' {
        var end := BalancedEnd(s, r + 2, '{', '}');
        if end == -1 {
          return |s|;
        }
        r := end;
        continue;
      }
      r := r + 1;
    }
  }

  // ---------- the grammar ----------

  /** Code between brackets: plain characters, nested brackets and literals. */
  datatype Code = End | Then(piece: Piece, rest: Code)

  datatype Piece = Plain(c: char) | Group(inside: Code) | Quoted(quote: char, parts: Parts)

  /** The inside of a literal; only a template literal has holes. */
  datatype Parts = Done | Next(part: Part, rest: Parts)

  datatype Part = Literal(c: char) | Escaped(c: char) | Hole(inside: Code)

  function CodeText(code: Code, open: char, close: char): string {
    match code
    case End => []
    case Then(piece, rest) => PieceText(piece, open, close) + CodeText(rest, open, close)
  }

  function PieceText(piece: Piece, open: char, close: char): string {
    match piece
    case Plain(c) => [c]
    case Group(inside) => [open] + CodeText(inside, open, close) + [close]
    case Quoted(quote, parts) => [quote] + PartsText(parts) + [quote]
  }

  function PartsText(parts: Parts): string {
    match parts
    case Done => []
    case Next(part, rest) => PartText(part) + PartsText(rest)
  }

  function PartText(part: Part): string {
    match part
    case Literal(c) => [c]
    case Escaped(c) => ['\\', c]
    case Hole(inside) => ['$', '{'] + CodeText(inside, '{', '}') + ['}']
  }

  predicate ValidCode(code: Code, open: char, close: char) {
    match code
    case End => true
    case Then(piece, rest) => ValidPiece(piece, open, close) && ValidCode(rest, open, close)
  }

  predicate ValidPiece(piece: Piece, open: char, close: char) {
    match piece
    case Plain(c) => c != open && c != close && c != '"' && c != '\'' && c != '`'
    case Group(inside) => ValidCode(inside, open, close)
    case Quoted(quote, parts) => (quote == '"' || quote == '\'' || quote == '`') && ValidParts(parts, quote)
  }

  predicate ValidParts(parts: Parts, quote: char) {
    match parts
    case Done => true
    case Next(part, rest) =>
      ValidParts(rest, quote)
      && match part
         case Literal(c) =>
           c != quote && c != '\\' && (quote == '`' && c == '$' ==> !(rest.Next? && rest.part == Literal('{')))
         case Escaped(_) => true
         case Hole(inside) => quote == '`' && ValidCode(inside, '{', '}')
  }

  /** The characters of `s` at `i` are `text`. */
  predicate At(s: string, i: nat, text: string) {
    i + |text| <= |s| && forall k :: 0 <= k < |text| ==> s[i + k] == text[k]
  }

  predicate Brackets(open: char, close: char) {
    open != close && open != '"' && open != '\'' && open != '`' && close != '"' && close != '\'' && close != '`'
  }

  lemma AtConcat(s: string, i: nat, a: string, b: string)
    ensures At(s, i, a + b) <==> At(s, i, a) && At(s, i + |a|, b)
  {
    if At(s, i, a + b) {
      assert forall k :: 0 <= k < |a| ==> (a + b)[k] == a[k];
      assert forall k :: 0 <= k < |b| ==> (a + b)[|a| + k] == b[k];
    }
  }

  lemma AtHead(s: string, i: nat, c: char)
    ensures At(s, i, [c]) <==> i < |s| && s[i] == c
  {
    assert [c][0] == c;
  }

  /** A text between two characters. */
  lemma AtEnclosed(s: string, i: nat, a: char, text: string, b: char)
    ensures At(s, i, [a] + text + [b]) <==> i < |s| && s[i] == a && At(s, i + 1, text + [b])
    ensures At(s, i, text + [b]) <==> At(s, i, text) && i + |text| < |s| && s[i + |text|] == b
  {
    assert [a] + text + [b] == [a] + (text + [b]);
    AtConcat(s, i, [a], text + [b]);
    AtHead(s, i, a);
    AtConcat(s, i, text, [b]);
    AtHead(s, i + |text|, b);
  }

  lemma AtEscape(s: string, i: nat, c: char)
    ensures At(s, i, ['\\', c]) <==> i + 1 < |s| && s[i] == '\\' && s[i + 1] == c
  {
    assert ['\\', c] == ['\\'] + [c];
    AtConcat(s, i, ['\\'], [c]);
    AtHead(s, i, '\\');
    AtHead(s, i + 1, c);
  }

  lemma AtHole(s: string, i: nat, text: string)
    ensures At(s, i, ['$', '{'] + text + ['}'])
            <==> i + 1 < |s| && s[i] == '$' && s[i + 1] == '{' && At(s, i + 2, text + ['}'])
  {
    assert ['$', '{'] + text + ['}'] == ['$'] + (['{'] + text + ['}']);
    AtConcat(s, i, ['$'], ['{'] + text + ['}']);
    AtHead(s, i, '$');
    AtEnclosed(s, i + 1, '{', text, '}');
  }

  // ---------- a valid text is skipped ----------

  lemma {:induction false} SkipCode(s: string, i: nat, code: Code, depth: nat, open: char, close: char)
    requires Brackets(open, close) && depth > 0 && ValidCode(code, open, close) && At(s, i, CodeText(code, open, close))
    ensures CloseFrom(s, i, depth, open, close) == CloseFrom(s, i + |CodeText(code, open, close)|, depth, open, close)
    decreases code, 0
  {
    match code
    case End =>
    case Then(piece, rest) =>
      AtConcat(s, i, PieceText(piece, open, close), CodeText(rest, open, close));
      SkipPiece(s, i, piece, depth, open, close);
      SkipCode(s, i + |PieceText(piece, open, close)|, rest, depth, open, close);
  }

  lemma {:induction false} SkipPiece(s: string, i: nat, piece: Piece, depth: nat, open: char, close: char)
    requires Brackets(open, close) && depth > 0 && ValidPiece(piece, open, close)
             && At(s, i, PieceText(piece, open, close))
    ensures CloseFrom(s, i, depth, open, close) == CloseFrom(s, i + |PieceText(piece, open, close)|, depth, open, close)
    decreases piece
  {
    match piece
    case Plain(c) => AtHead(s, i, c);
    case Group(inside) => SkipGroup(s, i, inside, depth, open, close);
    case Quoted(quote, parts) => SkipQuotedText(s, i, quote, parts, depth, open, close);
  }

  lemma {:induction false} SkipQuotedText(s: string, i: nat, quote: char, parts: Parts, depth: nat,
                                          open: char, close: char)
    requires Brackets(open, close) && depth > 0 && IsQuote(quote) && ValidParts(parts, quote)
    requires At(s, i, [quote] + PartsText(parts) + [quote])
    ensures CloseFrom(s, i, depth, open, close) == CloseFrom(s, i + |PartsText(parts)| + 2, depth, open, close)
    decreases parts, 1
  {
    AtEnclosed(s, i, quote, PartsText(parts), quote);
    SkipParts(s, i + 1, parts, quote);
  }

  lemma {:induction false} SkipGroup(s: string, i: nat, inside: Code, depth: nat, open: char, close: char)
    requires Brackets(open, close) && depth > 0 && ValidCode(inside, open, close)
    requires At(s, i, [open] + CodeText(inside, open, close) + [close])
    ensures CloseFrom(s, i, depth, open, close)
            == CloseFrom(s, i + |CodeText(inside, open, close)| + 2, depth, open, close)
    decreases inside, 1
  {
    var text := CodeText(inside, open, close);
    AtGroup(s, i, open, text, close);
    SkipCode(s, i + 1, inside, depth + 1, open, close);
  }

  lemma AtGroup(s: string, i: nat, open: char, text: string, close: char)
    requires At(s, i, [open] + text + [close])
    ensures i + |text| + 1 < |s| && s[i] == open && At(s, i + 1, text) && s[i + |text| + 1] == close
  {
    AtEnclosed(s, i, open, text, close);
    AtEnclosed(s, i + 1, open, text, close);
  }

  lemma {:induction false} SkipParts(s: string, i: nat, parts: Parts, quote: char)
    requires IsQuote(quote) && ValidParts(parts, quote) && At(s, i, PartsText(parts) + [quote])
    ensures QuoteEnd(s, i, quote) == i + |PartsText(parts)| + 1
    decreases parts, 0
  {
    match parts
    case Done =>
      assert PartsText(parts) + [quote] == [quote];
      AtHead(s, i, quote);
    case Next(part, rest) =>
      TextSplit(s, i, PartText(part), PartsText(rest), quote);
      SkipParts(s, i + |PartText(part)|, rest, quote);
      SkipPart(s, i, part, rest, quote);
  }

  lemma TextSplit(s: string, i: nat, text: string, after: string, quote: char)
    requires At(s, i, text + after + [quote])
    ensures At(s, i, text) && At(s, i + |text|, after + [quote])
  {
    assert text + after + [quote] == text + (after + [quote]);
    AtConcat(s, i, text, after + [quote]);
  }

  lemma {:induction false} SkipPart(s: string, i: nat, part: Part, rest: Parts, quote: char)
    requires IsQuote(quote) && ValidParts(Next(part, rest), quote)
    requires At(s, i, PartText(part)) && At(s, i + |PartText(part)|, PartsText(rest) + [quote])
    ensures QuoteEnd(s, i, quote) == QuoteEnd(s, i + |PartText(part)|, quote)
    decreases part
  {
    match part
    case Literal(c) =>
      AtHead(s, i, c);
      NotAHole(s, i, c, rest, quote);
    case Escaped(c) => AtEscape(s, i, c);
    case Hole(inside) => SkipHole(s, i, inside);
  }

  lemma {:induction false} SkipHole(s: string, i: nat, inside: Code)
    requires ValidCode(inside, '{', '}') && At(s, i, PartText(Hole(inside)))
    ensures HoleAt(s, i, '`') && CloseFrom(s, i + 2, 1, '{', '}') == i + |PartText(Hole(inside))|
    decreases inside, 1
  {
    var text := CodeText(inside, '{', '}');
    AtHole(s, i, text);
    AtEnclosed(s, i + 2, '{', text, '}');
    SkipCode(s, i + 2, inside, 1, '{', '}');
  }

  /** A literal `$` of a template is followed by something other than `{`. */
  lemma NotAHole(s: string, i: nat, c: char, rest: Parts, quote: char)
    requires IsQuote(quote) && ValidParts(Next(Literal(c), rest), quote)
    requires At(s, i, [c]) && At(s, i + 1, PartsText(rest) + [quote])
    ensures !HoleAt(s, i, quote)
  {
    var after := PartsText(rest) + [quote];
    assert after == [after[0]] + after[1..];
    AtConcat(s, i + 1, [after[0]], after[1..]);
    AtHead(s, i + 1, after[0]);
    AtHead(s, i, c);
    if rest.Next? {
      assert after[0] == PartText(rest.part)[0];
    }
  }

  // ---------- what is skipped is a valid text ----------

  /** Closing `depth + 1` brackets is closing one and then the others. */
  lemma {:induction false} CloseOneFirst(s: string, i: nat, depth: nat, more: nat, open: char, close: char)
    requires depth > 0 && more > 0
    ensures var one := CloseFrom(s, i, depth, open, close);
            CloseFrom(s, i, depth + more, open, close) == if one == -1 then -1 else CloseFrom(s, one, more, open, close)
    decreases |s| - i
  {
    if i < |s| {
      if s[i] == open {
        CloseOneFirst(s, i + 1, depth + 1, more, open, close);
      } else if s[i] == close {
        if depth > 1 {
          CloseOneFirst(s, i + 1, depth - 1, more, open, close);
        }
      } else {
        CloseOneFirst(s, if IsQuote(s[i]) then QuoteEnd(s, i + 1, s[i]) else i + 1, depth, more, open, close);
      }
    }
  }

  lemma {:induction false} ParseCode(s: string, i: nat, open: char, close: char) returns (code: Code)
    requires Brackets(open, close) && CloseFrom(s, i, 1, open, close) != -1
    ensures ValidCode(code, open, close)
    ensures At(s, i, CodeText(code, open, close) + [close])
    ensures CloseFrom(s, i, 1, open, close) == i + |CodeText(code, open, close)| + 1
    decreases |s| - i, 1
  {
    if s[i] == close {
      AtHead(s, i, close);
      return End;
    }
    var piece := ParsePiece(s, i, open, close);
    var text := PieceText(piece, open, close);
    var rest := ParseCode(s, i + |text|, open, close);
    code := Then(piece, rest);
    TextBefore(s, i, text, CodeText(rest, open, close), close);
  }

  lemma {:induction false} ParsePiece(s: string, i: nat, open: char, close: char) returns (piece: Piece)
    requires Brackets(open, close) && CloseFrom(s, i, 1, open, close) != -1 && s[i] != close
    ensures PieceAt(s, i, piece, open, close)
    decreases |s| - i, 0
  {
    if s[i] == open {
      CloseOneFirst(s, i + 1, 1, 1, open, close);
      var inside := ParseCode(s, i + 1, open, close);
      piece := Group(inside);
      GroupAt(s, i, inside, open, close);
    } else if IsQuote(s[i]) {
      var parts := ParseParts(s, i + 1, s[i]);
      piece := Quoted(s[i], parts);
      QuotedAt(s, i, parts, open, close);
    } else {
      AtHead(s, i, s[i]);
      piece := Plain(s[i]);
    }
  }

  /** A valid piece stands at `i`, and reading over it does not change what is found. */
  predicate PieceAt(s: string, i: nat, piece: Piece, open: char, close: char) {
    var text := PieceText(piece, open, close);
    ValidPiece(piece, open, close) && At(s, i, text) && |text| > 0
    && CloseFrom(s, i, 1, open, close) == CloseFrom(s, i + |text|, 1, open, close)
  }

  lemma GroupCloses(s: string, i: nat, n: nat, open: char, close: char)
    requires i < |s| && s[i] == open && open != close && CloseFrom(s, i + 1, 1, open, close) == n
    ensures CloseFrom(s, i, 1, open, close) == CloseFrom(s, n, 1, open, close)
  {
    CloseOneFirst(s, i + 1, 1, 1, open, close);
  }

  /** A text between two characters reads as one piece, when reading over it leads to `n`. */
  predicate Reads(s: string, i: nat, text: string, n: nat, open: char, close: char) {
    At(s, i, text) && n == i + |text| && CloseFrom(s, i, 1, open, close) == CloseFrom(s, n, 1, open, close)
  }

  lemma GroupReads(s: string, i: nat, text: string, open: char, close: char)
    requires i < |s| && s[i] == open && open != close && At(s, i + 1, text + [close])
    requires CloseFrom(s, i + 1, 1, open, close) == i + |text| + 2
    ensures Reads(s, i, [open] + text + [close], i + |text| + 2, open, close)
  {
    GroupCloses(s, i, i + |text| + 2, open, close);
    EnclosedIsAt(s, i, open, text, close);
  }

  lemma GroupAt(s: string, i: nat, inside: Code, open: char, close: char)
    requires i < |s| && s[i] == open && open != close && ValidCode(inside, open, close)
    requires At(s, i + 1, CodeText(inside, open, close) + [close])
    requires CloseFrom(s, i + 1, 1, open, close) == i + |CodeText(inside, open, close)| + 2
    ensures PieceAt(s, i, Group(inside), open, close)
  {
    GroupReads(s, i, CodeText(inside, open, close), open, close);
  }

  lemma QuoteCloses(s: string, i: nat, n: nat, open: char, close: char)
    requires i < |s| && IsQuote(s[i]) && Brackets(open, close) && QuoteEnd(s, i + 1, s[i]) == n
    ensures CloseFrom(s, i, 1, open, close) == CloseFrom(s, n, 1, open, close)
  {
  }

  lemma QuoteReads(s: string, i: nat, text: string, open: char, close: char)
    requires i < |s| && IsQuote(s[i]) && Brackets(open, close) && At(s, i + 1, text + [s[i]])
    requires QuoteEnd(s, i + 1, s[i]) == i + |text| + 2
    ensures Reads(s, i, [s[i]] + text + [s[i]], i + |text| + 2, open, close)
  {
    QuoteCloses(s, i, i + |text| + 2, open, close);
    EnclosedIsAt(s, i, s[i], text, s[i]);
  }

  lemma QuotedAt(s: string, i: nat, parts: Parts, open: char, close: char)
    requires i < |s| && IsQuote(s[i]) && Brackets(open, close) && ValidParts(parts, s[i])
    requires At(s, i + 1, PartsText(parts) + [s[i]]) && QuoteEnd(s, i + 1, s[i]) == i + |PartsText(parts)| + 2
    ensures PieceAt(s, i, Quoted(s[i], parts), open, close)
  {
    QuoteReads(s, i, PartsText(parts), open, close);
  }

  lemma EnclosedIsAt(s: string, i: nat, a: char, text: string, b: char)
    requires i < |s| && s[i] == a && At(s, i + 1, text + [b])
    ensures At(s, i, [a] + text + [b])
  {
    AtEnclosed(s, i, a, text, b);
  }

  lemma {:induction false} ParseParts(s: string, i: nat, quote: char) returns (parts: Parts)
    requires IsQuote(quote) && QuoteEnd(s, i, quote) < |s|
    ensures ValidParts(parts, quote)
    ensures At(s, i, PartsText(parts) + [quote])
    ensures QuoteEnd(s, i, quote) == i + |PartsText(parts)| + 1
    decreases |s| - i, 1
  {
    if s[i] == quote {
      AtHead(s, i, quote);
      return Done;
    }
    var part := ParsePart(s, i, quote);
    var rest := ParseParts(s, i + |PartText(part)|, quote);
    parts := Next(part, rest);
    PartBefore(s, i, part, rest, quote);
  }

  lemma PartBefore(s: string, i: nat, part: Part, rest: Parts, quote: char)
    requires IsQuote(quote) && i < |s| && s[i] != quote && IsPart(s, i, part, quote) && ValidParts(rest, quote)
    requires At(s, i, PartText(part)) && At(s, i + |PartText(part)|, PartsText(rest) + [quote])
    ensures ValidParts(Next(part, rest), quote)
    ensures At(s, i, PartsText(Next(part, rest)) + [quote])
  {
    TextBefore(s, i, PartText(part), PartsText(rest), quote);
    if part == Literal('$') && rest.Next? && rest.part == Literal('{') {
      BraceFirst(s, i + 1, rest, quote);
    }
  }

  lemma TextBefore(s: string, i: nat, text: string, after: string, quote: char)
    requires At(s, i, text) && At(s, i + |text|, after + [quote])
    ensures At(s, i, text + after + [quote])
  {
    assert text + after + [quote] == text + (after + [quote]);
    AtConcat(s, i, text, after + [quote]);
  }

  lemma BraceFirst(s: string, i: nat, parts: Parts, quote: char)
    requires At(s, i, PartsText(parts) + [quote]) && parts.Next? && parts.part == Literal('{')
    ensures i < |s| && s[i] == '{'
  {
    var after := PartsText(parts.rest) + [quote];
    assert PartsText(parts) + [quote] == ['{'] + after;
    AtConcat(s, i, ['{'], after);
    AtHead(s, i, '{');
  }

  /** What stands at `i` in a literal is `part`. */
  predicate IsPart(s: string, i: nat, part: Part, quote: char)
    requires i < |s|
  {
    match part
    case Literal(c) => c == s[i] && c != '\\' && !HoleAt(s, i, quote)
    case Escaped(_) => true
    case Hole(inside) => quote == '`' && ValidCode(inside, '{', '}')
  }

  lemma {:induction false} ParsePart(s: string, i: nat, quote: char) returns (part: Part)
    requires IsQuote(quote) && QuoteEnd(s, i, quote) < |s| && s[i] != quote
    ensures IsPart(s, i, part, quote)
    ensures At(s, i, PartText(part)) && |PartText(part)| > 0
    ensures QuoteEnd(s, i, quote) == QuoteEnd(s, i + |PartText(part)|, quote)
    decreases |s| - i, 0
  {
    AtHead(s, i, s[i]);
    if s[i] == '\\' {
      AtEscape(s, i, s[i + 1]);
      part := Escaped(s[i + 1]);
    } else if HoleAt(s, i, quote) {
      var inside := ParseCode(s, i + 2, '{', '}');
      part := Hole(inside);
      AtHole(s, i, CodeText(inside, '{', '}'));
    } else {
      part := Literal(s[i]);
    }
  }

  /** From `start`, `s` reads some valid code and then the close bracket, which ends at `r`. */
  ghost predicate ClosesAt(s: string, start: nat, open: char, close: char, r: int) {
    exists code :: ValidCode(code, open, close) && At(s, start, CodeText(code, open, close) + [close])
                   && r == start + |CodeText(code, open, close)| + 1
  }

  /**
   The matcher is exact: it returns `r` if and only if the text up to `r` is code nested in any way, with any
   literals, and its close bracket. Hence it returns -1 exactly when no such text starts at `start`.
   */
  lemma CloseFromIsExact(s: string, start: nat, open: char, close: char, r: int)
    requires Brackets(open, close)
    ensures r >= 0 && CloseFrom(s, start, 1, open, close) == r <==> ClosesAt(s, start, open, close, r)
  {
    if r >= 0 && CloseFrom(s, start, 1, open, close) == r {
      var code := ParseCode(s, start, open, close);
    }
    if ClosesAt(s, start, open, close, r) {
      var code :| ValidCode(code, open, close) && At(s, start, CodeText(code, open, close) + [close])
                  && r == start + |CodeText(code, open, close)| + 1;
      AtEnclosed(s, start, open, CodeText(code, open, close), close);
      SkipCode(s, start, code, 1, open, close);
    }
  }
}
