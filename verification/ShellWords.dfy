/**
 The shell scanners of scripts/verify-exercised-tests.js: `shellSplit`, which cuts a script into words, and
 `findUnquotedGlobstar`, which reports the `**` a shell would see. Both follow one quote automaton.
 */
module ShellWords {
  import opened Wrappers

  // ---------- the quote automaton ----------

  /** `Escaped` is inside double quotes, after a backslash that has a character to escape. */
  datatype Mode = Bare | Single | Double | Escaped

  function NextMode(mode: Mode, c: char, hasNext: bool): Mode {
    match mode
    case Bare => if c == '"' then Double else if c == '\'' then Single else Bare
    case Single => if c == '\'' then Bare else Single
    case Double => if c == '"' then Bare else if c == '\\' && hasNext then Escaped else Double
    case Escaped => Double
  }

  /** A character that only steers the automaton and is in no word. */
  predicate Silent(mode: Mode, c: char, hasNext: bool) {
    match mode
    case Bare => c == '"' || c == '\''
    case Single => c == '\''
    case Double => c == '"' || (c == '\\' && hasNext)
    case Escaped => false
  }

  predicate IsBlank(c: char) {
    c == ' ' || c == '\t' || c == '\n' || c == '\r'
  }

  // ---------- splitting ----------

  datatype Splitter = Splitter(mode: Mode, out: seq<string>, cur: string)

  const START := Splitter(Bare, [], "")

  function Flush(out: seq<string>, cur: string): seq<string> {
    if cur == "" then out else out + [cur]
  }

  function Read(st: Splitter, c: char, hasNext: bool): Splitter {
    var mode := NextMode(st.mode, c, hasNext);
    if Silent(st.mode, c, hasNext) then st.(mode := mode)
    else if st.mode.Bare? && IsBlank(c) then Splitter(mode, Flush(st.out, st.cur), "")
    else st.(mode := mode, cur := st.cur + [c])
  }

  /** Reads `s`; `more` says that text follows. */
  function Feed(st: Splitter, s: string, more: bool): Splitter
    decreases |s|
  {
    if s == "" then st else Feed(Read(st, s[0], more || |s| > 1), s[1..], more)
  }

  function Words(s: string): seq<string> {
    var end := Feed(START, s, false);
    Flush(end.out, end.cur)
  }

  function ModeOf(quote: Option<char>): Mode {
    if quote.None? then Bare else if quote.value == '"' then Double else Single
  }

  method ShellSplit(s: string) returns (out: seq<string>)
    ensures out == Words(s)
  {
    out := [];
    var cur := "";
    var quote: Option<char> := None;
    var i := 0;
    assert s[0..] == s;
    while i < |s|
      invariant 0 <= i <= |s| && (quote.Some? ==> quote.value == '"' || quote.value == '\'')
      invariant Feed(START, s, false) == Feed(Splitter(ModeOf(quote), out, cur), s[i..], false)
      decreases |s| - i
    {
      var ch := s[i];
      assert s[i..][0] == ch && s[i..][1..] == s[i + 1..];
      if quote.Some? {
        if ch == quote.value {
          quote := None;
          i := i + 1;
          continue;
        }
        if quote.value == '"' && ch == '\\' && i + 1 < |s| {
          assert s[i + 1..][0] == s[i + 1] && s[i + 1..][1..] == s[i + 2..];
          cur := cur + [s[i + 1]];
          i := i + 2;
          continue;
        }
        cur := cur + [ch];
        i := i + 1;
        continue;
      }
      if ch == '"' || ch == '\'' {
        quote := Some(ch);
        i := i + 1;
        continue;
      }
      if ch == ' ' || ch == '\t' || ch == '\n' || ch == '\r' {
        if cur != "" {
          out := out + [cur];
        }
        cur := "";
        i := i + 1;
        continue;
      }
      cur := cur + [ch];
      i := i + 1;
    }
    if cur != "" {
      out := out + [cur];
    }
  }

  // ---------- quoting ----------

  /** One character of a double-quoted text; any character can be escaped. */
  datatype Piece = Raw(c: char) | Escape(c: char)

  /** A part of a word: a bare character, a single-quoted text or a double-quoted text. */
  datatype Part = Plain(c: char) | InSingle(text: string) | InDouble(pieces: seq<Piece>)

  predicate ValidPiece(p: Piece) {
    p.Raw? ==> p.c != '"' && p.c != '\\'
  }

  predicate ValidPart(p: Part) {
    match p
    case Plain(c) => c != '"' && c != '\'' && c != ' ' && c != '\t' && c != '\n' && c != '\r'
    case InSingle(text) => '\'' !in text
    case InDouble(pieces) => forall k :: 0 <= k < |pieces| ==> ValidPiece(pieces[k])
  }

  predicate ValidWord(word: seq<Part>) {
    forall k :: 0 <= k < |word| ==> ValidPart(word[k])
  }

  predicate Blank(s: string) {
    forall k :: 0 <= k < |s| ==> s[k] == ' ' || s[k] == '\t' || s[k] == '\n' || s[k] == '\r'
  }

  function PieceText(p: Piece): string {
    if p.Raw? then [p.c] else ['\\', p.c]
  }

  function PiecesText(pieces: seq<Piece>): string {
    if pieces == [] then "" else PieceText(pieces[0]) + PiecesText(pieces[1..])
  }

  function PiecesValue(pieces: seq<Piece>): string {
    if pieces == [] then "" else [pieces[0].c] + PiecesValue(pieces[1..])
  }

  function PartText(p: Part): string {
    match p
    case Plain(c) => [c]
    case InSingle(text) => ['\''] + text + ['\'']
    case InDouble(pieces) => ['"'] + PiecesText(pieces) + ['"']
  }

  function PartValue(p: Part): string {
    match p
    case Plain(c) => [c]
    case InSingle(text) => text
    case InDouble(pieces) => PiecesValue(pieces)
  }

  function WordText(word: seq<Part>): string {
    if word == [] then "" else PartText(word[0]) + WordText(word[1..])
  }

  function WordValue(word: seq<Part>): string {
    if word == [] then "" else PartValue(word[0]) + WordValue(word[1..])
  }

  /** The words of a script, each followed by its gap. */
  function ScriptText(words: seq<seq<Part>>, gaps: seq<string>): string
    requires |gaps| == |words|
  {
    if words == [] then "" else WordText(words[0]) + gaps[0] + ScriptText(words[1..], gaps[1..])
  }

  function NonEmpty(value: string): seq<string> {
    if value == "" then [] else [value]
  }

  /** The values of the words; a word whose value is empty leaves no trace. */
  function Values(words: seq<seq<Part>>): seq<string> {
    if words == [] then [] else NonEmpty(WordValue(words[0])) + Values(words[1..])
  }

  /** Only the last gap can be empty. */
  predicate ValidGaps(gaps: seq<string>) {
    forall k :: 0 <= k < |gaps| ==> Blank(gaps[k]) && (k < |gaps| - 1 ==> gaps[k] != "")
  }

  lemma {:induction false} FeedConcat(st: Splitter, a: string, b: string, more: bool)
    ensures Feed(st, a + b, more) == Feed(Feed(st, a, more || b != ""), b, more)
    decreases |a|
  {
    if a == "" {
      assert a + b == b;
    } else {
      assert (a + b)[1..] == a[1..] + b;
      FeedConcat(Read(st, a[0], more || b != "" || |a| > 1), a[1..], b, more);
    }
  }

  lemma {:induction false} FeedSingle(st: Splitter, text: string, more: bool)
    requires st.mode.Single? && '\'' !in text
    ensures Feed(st, text, more) == st.(cur := st.cur + text)
    decreases |text|
  {
    if text == "" {
      assert st.cur + text == st.cur;
    } else {
      FeedSingle(Read(st, text[0], more || |text| > 1), text[1..], more);
      Assoc(st.cur, [text[0]], text[1..]);
      assert [text[0]] + text[1..] == text;
    }
  }

  lemma {:induction false} FeedDouble(st: Splitter, pieces: seq<Piece>)
    requires st.mode.Double? && forall k :: 0 <= k < |pieces| ==> ValidPiece(pieces[k])
    ensures Feed(st, PiecesText(pieces), true) == st.(cur := st.cur + PiecesValue(pieces))
    decreases |pieces|
  {
    if pieces == [] {
      assert st.cur + "" == st.cur;
    } else {
      var rest := PiecesText(pieces[1..]);
      FeedConcat(st, PieceText(pieces[0]), rest, true);
      FeedPiece(st, pieces[0]);
      FeedDouble(st.(cur := st.cur + [pieces[0].c]), pieces[1..]);
      Assoc(st.cur, [pieces[0].c], PiecesValue(pieces[1..]));
    }
  }

  lemma Assoc<T>(a: seq<T>, b: seq<T>, c: seq<T>)
    ensures a + b + c == a + (b + c)
  {
  }

  lemma FeedPiece(st: Splitter, p: Piece)
    requires st.mode.Double? && ValidPiece(p)
    ensures Feed(st, PieceText(p), true) == st.(cur := st.cur + [p.c])
  {
    FeedOne(st, PieceText(p)[0], true);
    if p.Escape? {
      assert PieceText(p) == ['\\'] + [p.c];
      FeedConcat(st, ['\\'], [p.c], true);
      FeedOne(st.(mode := Escaped), p.c, true);
    }
  }

  lemma FeedOne(st: Splitter, c: char, more: bool)
    ensures Feed(st, [c], more) == Read(st, c, more)
  {
    assert [c][1..] == "";
  }

  /** Reading a part adds its value to the current word, whatever follows. */
  lemma FeedPart(st: Splitter, p: Part, more: bool)
    requires st.mode.Bare? && ValidPart(p)
    ensures Feed(st, PartText(p), more) == st.(cur := st.cur + PartValue(p))
  {
    match p
    case Plain(c) => FeedOne(st, c, more);
    case InSingle(text) =>
      FeedSingle(st.(mode := Single), text, true);
      FeedQuoted(st, '\'', text, text, more);
    case InDouble(pieces) =>
      FeedDouble(st.(mode := Double), pieces);
      FeedQuoted(st, '"', PiecesText(pieces), PiecesValue(pieces), more);
  }

  lemma FeedQuoted(st: Splitter, quote: char, text: string, value: string, more: bool)
    requires st.mode.Bare? && (quote == '"' || quote == '\'')
    requires var inside := st.(mode := ModeOf(Some(quote))); Feed(inside, text, true) == inside.(cur := st.cur + value)
    ensures Feed(st, [quote] + text + [quote], more) == st.(cur := st.cur + value)
  {
    FeedConcat(st, [quote] + text, [quote], more);
    FeedConcat(st, [quote], text, true);
    FeedOne(st, quote, true);
    FeedOne(st.(mode := ModeOf(Some(quote)), cur := st.cur + value), quote, more);
  }

  lemma {:induction false} FeedWord(st: Splitter, word: seq<Part>, more: bool)
    requires st.mode.Bare? && ValidWord(word)
    ensures Feed(st, WordText(word), more) == st.(cur := st.cur + WordValue(word))
    decreases |word|
  {
    if word == [] {
      assert st.cur + "" == st.cur;
    } else {
      var rest := WordText(word[1..]);
      FeedConcat(st, PartText(word[0]), rest, more);
      FeedPart(st, word[0], more || rest != "");
      FeedWord(st.(cur := st.cur + PartValue(word[0])), word[1..], more);
      Assoc(st.cur, PartValue(word[0]), WordValue(word[1..]));
    }
  }

  lemma {:induction false} FeedBlank(st: Splitter, gap: string, more: bool)
    requires st.mode.Bare? && Blank(gap)
    ensures Feed(st, gap, more) == if gap == "" then st else Splitter(Bare, Flush(st.out, st.cur), "")
    decreases |gap|
  {
    if gap != "" {
      FeedBlank(Read(st, gap[0], more || |gap| > 1), gap[1..], more);
    }
  }

  lemma {:induction false} FeedScript(out: seq<string>, words: seq<seq<Part>>, gaps: seq<string>)
    requires |gaps| == |words| && ValidGaps(gaps) && forall k :: 0 <= k < |words| ==> ValidWord(words[k])
    ensures var end := Feed(Splitter(Bare, out, ""), ScriptText(words, gaps), false);
            end.mode.Bare? && Flush(end.out, end.cur) == out + Values(words)
    decreases |words|
  {
    if words == [] {
      assert out + Values(words) == out;
    } else {
      var rest := ScriptText(words[1..], gaps[1..]);
      FeedConcat(Splitter(Bare, out, ""), WordText(words[0]) + gaps[0], rest, false);
      if |words| == 1 {
        FeedLast(out, words[0], gaps[0]);
        assert rest == "" && Values(words[1..]) == [];
        assert NonEmpty(WordValue(words[0])) + [] == NonEmpty(WordValue(words[0]));
      } else {
        FeedFirst(out, words[0], gaps[0], rest != "");
        FeedScript(Flush(out, WordValue(words[0])), words[1..], gaps[1..]);
        Assoc(out, NonEmpty(WordValue(words[0])), Values(words[1..]));
      }
    }
  }

  lemma FeedFirst(out: seq<string>, word: seq<Part>, gap: string, more: bool)
    requires ValidWord(word) && Blank(gap) && gap != ""
    ensures Feed(Splitter(Bare, out, ""), WordText(word) + gap, more) == Splitter(Bare, Flush(out, WordValue(word)), "")
    ensures Flush(out, WordValue(word)) == out + NonEmpty(WordValue(word))
  {
    FeedConcat(Splitter(Bare, out, ""), WordText(word), gap, more);
    FeedFresh(out, word, more || gap != "");
    FeedBlank(Splitter(Bare, out, WordValue(word)), gap, more);
  }

  lemma FeedFresh(out: seq<string>, word: seq<Part>, more: bool)
    requires ValidWord(word)
    ensures Feed(Splitter(Bare, out, ""), WordText(word), more) == Splitter(Bare, out, WordValue(word))
  {
    FeedWord(Splitter(Bare, out, ""), word, more);
    assert "" + WordValue(word) == WordValue(word);
  }

  lemma FlushLast(out: seq<string>, value: string)
    ensures Flush(Flush(out, value), "") == Flush(out, value) == out + NonEmpty(value)
  {
  }

  lemma FeedLast(out: seq<string>, word: seq<Part>, gap: string)
    requires ValidWord(word) && Blank(gap)
    ensures var end := Feed(Splitter(Bare, out, ""), WordText(word) + gap, false);
            end.mode.Bare? && Flush(end.out, end.cur) == out + NonEmpty(WordValue(word))
  {
    FeedConcat(Splitter(Bare, out, ""), WordText(word), gap, false);
    FeedFresh(out, word, gap != "");
    FeedBlank(Splitter(Bare, out, WordValue(word)), gap, false);
    FlushLast(out, WordValue(word));
  }

  /**
   Splitting undoes quoting: a script of words, each written with bare, single-quoted and double-quoted parts in any
   way, between any white space, splits into the values of its words.
   */
  lemma WordsOfScript(lead: string, words: seq<seq<Part>>, gaps: seq<string>)
    requires Blank(lead) && |gaps| == |words| && ValidGaps(gaps) && forall k :: 0 <= k < |words| ==> ValidWord(words[k])
    ensures Words(lead + ScriptText(words, gaps)) == Values(words)
    ensures Feed(START, lead + ScriptText(words, gaps), false).mode.Bare?
  {
    var text := ScriptText(words, gaps);
    FeedConcat(START, lead, text, false);
    FeedBlank(START, lead, text != "");
    FeedScript([], words, gaps);
    assert [] + Values(words) == Values(words);
  }

  /** The usual way to quote: double quotes around the word, a backslash before each quote and backslash. */
  function Quoted(word: string): seq<Part> {
    [InDouble(seq(|word|, k requires 0 <= k < |word| =>
                    if word[k] == '"' || word[k] == '\\' then Escape(word[k]) else Raw(word[k])))]
  }

  lemma {:induction false} QuotedValue(word: string)
    ensures ValidWord(Quoted(word)) && WordValue(Quoted(word)) == word
    decreases |word|
  {
    var pieces := Quoted(word)[0].pieces;
    assert Quoted(word)[1..] == [];
    if word == "" {
      assert PiecesValue(pieces) == "";
    } else {
      QuotedValue(word[1..]);
      assert Quoted(word[1..])[1..] == [];
      assert pieces[1..] == Quoted(word[1..])[0].pieces;
      assert [word[0]] + word[1..] == word;
    }
    assert PiecesValue(pieces) + "" == PiecesValue(pieces);
  }

  function QuotedAll(words: seq<string>): seq<seq<Part>> {
    seq(|words|, k requires 0 <= k < |words| => Quoted(words[k]))
  }

  /** Every list of non-empty words survives quoting, joining and splitting. */
  lemma QuotingRoundTrip(words: seq<string>, gaps: seq<string>)
    requires |gaps| == |words| && ValidGaps(gaps) && forall k :: 0 <= k < |words| ==> words[k] != ""
    ensures Words(ScriptText(QuotedAll(words), gaps)) == words
  {
    var quoted := QuotedAll(words);
    forall k | 0 <= k < |words|
      ensures ValidWord(quoted[k])
    {
      QuotedValue(words[k]);
    }
    WordsOfScript("", quoted, gaps);
    assert "" + ScriptText(quoted, gaps) == ScriptText(quoted, gaps);
    ValuesOfQuoted(words);
  }

  lemma {:induction false} ValuesOfQuoted(words: seq<string>)
    requires forall k :: 0 <= k < |words| ==> words[k] != ""
    ensures Values(QuotedAll(words)) == words
  {
    if words != [] {
      ValuesOfQuoted(words[1..]);
      QuotedValue(words[0]);
      QuotedTail(words);
      assert NonEmpty(words[0]) + words[1..] == words;
    }
  }

  lemma QuotedTail(words: seq<string>)
    requires words != []
    ensures QuotedAll(words) != [] && QuotedAll(words)[0] == Quoted(words[0])
            && QuotedAll(words)[1..] == QuotedAll(words[1..])
  {
  }

  // ---------- the mode at each character ----------

  /** The mode in which character `k` is read. */
  function ModeAt(s: string, k: nat): Mode
    requires k <= |s|
  {
    if k == 0 then Bare else NextMode(ModeAt(s, k - 1), s[k - 1], k < |s|)
  }

  /** The splitter is in the same mode at every character. */
  lemma {:induction false} SameAutomaton(s: string, k: nat)
    requires k <= |s|
    ensures Feed(START, s[..k], k < |s|).mode == ModeAt(s, k)
    decreases k
  {
    if k > 0 {
      SameAutomaton(s, k - 1);
      assert s[..k] == s[..k - 1] + [s[k - 1]];
      FeedConcat(START, s[..k - 1], [s[k - 1]], k < |s|);
      FeedOne(Feed(START, s[..k - 1], true), s[k - 1], k < |s|);
    }
  }

  // ---------- every text with closed quotes is a script ----------

  /** The mode after reading all of `s`. */
  function EndMode(mode: Mode, s: string): Mode
    decreases |s|
  {
    if s == "" then mode else EndMode(NextMode(mode, s[0], |s| > 1), s[1..])
  }

  lemma {:induction false} FeedMode(st: Splitter, s: string)
    ensures Feed(st, s, false).mode == EndMode(st.mode, s)
    decreases |s|
  {
    if s != "" {
      FeedMode(Read(st, s[0], |s| > 1), s[1..]);
    }
  }

  lemma EndModeIsModeAt(s: string)
    ensures EndMode(Bare, s) == ModeAt(s, |s|) == Feed(START, s, false).mode
  {
    SameAutomaton(s, |s|);
    assert s[..|s|] == s;
    FeedMode(START, s);
  }

  /** The rest of a single-quoted text, up to its closing quote. */
  lemma {:induction false} CloseSingle(s: string) returns (text: string, rest: string)
    requires EndMode(Single, s).Bare?
    ensures s == text + ['\''] + rest && '\'' !in text && EndMode(Bare, rest).Bare?
    decreases |s|
  {
    if s[0] == '\'' {
      text, rest := "", s[1..];
    } else {
      var more;
      more, rest := CloseSingle(s[1..]);
      text := [s[0]] + more;
    }
  }

  /** The rest of a double-quoted text. */
  lemma {:induction false} CloseDouble(s: string) returns (pieces: seq<Piece>, rest: string)
    requires EndMode(Double, s).Bare?
    ensures s == PiecesText(pieces) + ['"'] + rest && (forall k :: 0 <= k < |pieces| ==> ValidPiece(pieces[k]))
    ensures EndMode(Bare, rest).Bare?
    decreases |s|
  {
    if s[0] == '"' {
      pieces, rest := [], s[1..];
    } else {
      var size := if s[0] == '\\' && |s| > 1 then 2 else 1;
      assert EndMode(Double, s[size..]).Bare? by {
        assert size == 2 ==> s[1..][0] == s[1] && s[1..][1..] == s[2..];
      }
      var more;
      more, rest := CloseDouble(s[size..]);
      var piece := if size == 2 then Escape(s[1]) else Raw(s[0]);
      pieces := [piece] + more;
      PiecesFirst(piece, more);
      assert s == s[..size] + s[size..] && s[..size] == PieceText(piece);
    }
  }

  lemma PiecesFirst(piece: Piece, more: seq<Piece>)
    ensures PiecesText([piece] + more) == PieceText(piece) + PiecesText(more)
  {
    assert ([piece] + more)[1..] == more;
  }

  /** The part at the start of a text that does not begin with white space. */
  lemma FirstPart(s: string) returns (part: Part, rest: string)
    requires s != "" && !IsBlank(s[0]) && EndMode(Bare, s).Bare?
    ensures ValidPart(part) && s == PartText(part) + rest && |rest| < |s| && EndMode(Bare, rest).Bare?
  {
    if s[0] == '\'' {
      var text;
      text, rest := CloseSingle(s[1..]);
      part := InSingle(text);
    } else if s[0] == '"' {
      var pieces;
      pieces, rest := CloseDouble(s[1..]);
      part := InDouble(pieces);
    } else {
      part, rest := Plain(s[0]), s[1..];
    }
  }

  /** `s` reads as these words, after `lead` and with these gaps. */
  predicate Renders(s: string, lead: string, words: seq<seq<Part>>, gaps: seq<string>) {
    Blank(lead) && |gaps| == |words| && ValidGaps(gaps) && (forall k :: 0 <= k < |words| ==> ValidWord(words[k]))
    && s == lead + ScriptText(words, gaps)
  }

  /** A part right before a rendered text joins its first word, or is a word of its own. */
  lemma PartFirst(part: Part, rest: string, lead: string, words: seq<seq<Part>>, gaps: seq<string>)
    returns (more: seq<seq<Part>>, moreGaps: seq<string>)
    requires ValidPart(part) && Renders(rest, lead, words, gaps)
    ensures Renders(PartText(part) + rest, "", more, moreGaps)
  {
    if lead == "" && words != [] {
      more, moreGaps := [[part] + words[0]] + words[1..], gaps;
      PartJoins(part, rest, words, gaps);
    } else {
      more, moreGaps := [[part]] + words, [lead] + gaps;
      PartAlone(part, rest, lead, words, gaps);
    }
  }

  lemma PartJoins(part: Part, rest: string, words: seq<seq<Part>>, gaps: seq<string>)
    requires ValidPart(part) && Renders(rest, "", words, gaps) && words != []
    ensures Renders(PartText(part) + rest, "", [[part] + words[0]] + words[1..], gaps)
  {
    var more := [[part] + words[0]] + words[1..];
    assert "" + ScriptText(words, gaps) == ScriptText(words, gaps);
    assert "" + ScriptText(more, gaps) == ScriptText(more, gaps);
    JoinsText(part, words, gaps);
  }

  lemma JoinsText(part: Part, words: seq<seq<Part>>, gaps: seq<string>)
    requires |gaps| == |words| && words != []
    ensures ScriptText([[part] + words[0]] + words[1..], gaps) == PartText(part) + ScriptText(words, gaps)
  {
    WordFirst(part, words[0]);
    ScriptFirst([part] + words[0], gaps[0], words[1..], gaps[1..]);
    assert [gaps[0]] + gaps[1..] == gaps;
    var rest := ScriptText(words[1..], gaps[1..]);
    Assoc(PartText(part), WordText(words[0]), gaps[0]);
    Assoc(PartText(part), WordText(words[0]) + gaps[0], rest);
  }

  lemma PartAlone(part: Part, rest: string, lead: string, words: seq<seq<Part>>, gaps: seq<string>)
    requires ValidPart(part) && Renders(rest, lead, words, gaps) && (lead == "" ==> words == [])
    ensures Renders(PartText(part) + rest, "", [[part]] + words, [lead] + gaps)
  {
    var text := ScriptText([[part]] + words, [lead] + gaps);
    AloneText(part, lead, words, gaps);
    assert "" + text == text;
    Assoc(PartText(part), lead, ScriptText(words, gaps));
  }

  lemma AloneText(part: Part, lead: string, words: seq<seq<Part>>, gaps: seq<string>)
    requires |gaps| == |words|
    ensures ScriptText([[part]] + words, [lead] + gaps) == PartText(part) + lead + ScriptText(words, gaps)
  {
    WordFirst(part, []);
    assert [part] + [] == [part] && PartText(part) + "" == PartText(part);
    ScriptFirst([part], lead, words, gaps);
  }

  lemma WordFirst(part: Part, word: seq<Part>)
    ensures WordText([part] + word) == PartText(part) + WordText(word)
  {
    assert ([part] + word)[1..] == word;
  }

  lemma ScriptFirst(word: seq<Part>, gap: string, words: seq<seq<Part>>, gaps: seq<string>)
    requires |gaps| == |words|
    ensures ScriptText([word] + words, [gap] + gaps) == WordText(word) + gap + ScriptText(words, gaps)
  {
    assert ([word] + words)[1..] == words && ([gap] + gaps)[1..] == gaps;
  }

  lemma {:induction false} ParseScript(s: string) returns (lead: string, words: seq<seq<Part>>, gaps: seq<string>)
    requires EndMode(Bare, s).Bare?
    ensures Renders(s, lead, words, gaps)
    decreases |s|
  {
    if s == "" {
      lead, words, gaps := "", [], [];
    } else if IsBlank(s[0]) {
      var more;
      more, words, gaps := ParseScript(s[1..]);
      lead := [s[0]] + more;
      assert s == [s[0]] + s[1..] && [s[0]] + (more + ScriptText(words, gaps)) == lead + ScriptText(words, gaps);
    } else {
      var part, rest := FirstPart(s);
      var inner, innerWords, innerGaps := ParseScript(rest);
      lead := "";
      words, gaps := PartFirst(part, rest, inner, innerWords, innerGaps);
    }
  }

  /**
   The splitter is exact: the texts with closed quotes are the renderings, and each splits into the values of its words.
   */
  lemma SplitIsExact(s: string)
    ensures ModeAt(s, |s|).Bare? <==> exists lead, words, gaps :: Renders(s, lead, words, gaps)
    ensures forall lead, words, gaps :: Renders(s, lead, words, gaps) ==> Words(s) == Values(words)
  {
    EndModeIsModeAt(s);
    if ModeAt(s, |s|).Bare? {
      var lead, words, gaps := ParseScript(s);
    }
    forall lead, words, gaps | Renders(s, lead, words, gaps)
      ensures ModeAt(s, |s|).Bare? && Words(s) == Values(words)
    {
      WordsOfScript(lead, words, gaps);
    }
  }

  // ---------- texts that end inside a quote ----------

  /** A last backslash in double quotes, which has nothing to escape. */
  predicate EndsInBackslash(s: string) {
    s != "" && s[|s| - 1] == '\\' && ModeAt(s, |s| - 1).Double?
  }

  /** What closes the quote a text ends in; a backslash left over is escaped first. */
  function Closing(s: string): string {
    if ModeAt(s, |s|).Bare? then ""
    else if ModeAt(s, |s|).Single? then "'"
    else if EndsInBackslash(s) then "\\\""
    else "\""
  }

  lemma FeedLastTwo(st: Splitter, c: char, d: char)
    ensures Feed(st, [c, d], false) == Read(Read(st, c, true), d, false)
  {
    assert [c, d][1..] == [d];
    FeedOne(Read(st, c, true), d, false);
  }

  /** Reading on from a text whose last character is read as if more followed. */
  lemma FeedLastOf(s: string, more: string)
    requires s != ""
    ensures var st := Feed(START, s[..|s| - 1], true);
            st.mode == ModeAt(s, |s| - 1)
            && Feed(START, s, false) == Read(st, s[|s| - 1], false)
            && (more != "" ==> Feed(START, s + more, false) == Feed(Read(st, s[|s| - 1], true), more, false))
  {
    var init, c := s[..|s| - 1], s[|s| - 1];
    assert s == init + [c];
    SameAutomaton(s, |s| - 1);
    FeedConcat(START, init, [c], false);
    FeedOne(Feed(START, init, true), c, false);
    if more != "" {
      FeedConcat(START, s, more, false);
      FeedConcat(START, init, [c], true);
      FeedOne(Feed(START, init, true), c, true);
    }
  }

  lemma ClosingReads(s: string)
    requires !ModeAt(s, |s|).Bare?
    ensures Feed(START, s + Closing(s), false) == Feed(START, s, false).(mode := Bare)
  {
    var end := Feed(START, s, false);
    EndModeIsModeAt(s);
    FeedLastOf(s, Closing(s));
    var last := Read(Feed(START, s[..|s| - 1], true), s[|s| - 1], true);
    if EndsInBackslash(s) {
      FeedLastTwo(last, '\\', '"');
    } else {
      assert last == end;
      FeedOne(end, Closing(s)[0], false);
    }
  }

  /**
   A text that ends inside a quote splits as if the quote were closed at its end, so its words too are the values of a
   rendering.
   */
  lemma UnclosedQuote(s: string)
    ensures Words(s) == Words(s + Closing(s))
    ensures exists lead, words, gaps :: Renders(s + Closing(s), lead, words, gaps) && Words(s) == Values(words)
  {
    var t := s + Closing(s);
    EndModeIsModeAt(s);
    EndModeIsModeAt(t);
    if ModeAt(s, |s|).Bare? {
      assert t == s;
    } else {
      ClosingReads(s);
    }
    var lead, words, gaps := ParseScript(t);
    SplitIsExact(t);
  }

  // ---------- unquoted globstars ----------

  /** How many `*` stand directly before `k`. */
  function StarsBefore(s: string, k: nat): nat
    requires k <= |s|
  {
    if k > 0 && s[k - 1] == '*' then 1 + StarsBefore(s, k - 1) else 0
  }

  /** A `**` that the shell sees; in a longer row of stars only every second position begins one. */
  predicate UnquotedGlobstar(s: string, k: nat) {
    k + 1 < |s| && ModeAt(s, k).Bare? && s[k] == '*' && s[k + 1] == '*' && StarsBefore(s, k) % 2 == 0
  }

  datatype Finding = Finding(column: nat, context: string)

  function Context(s: string, k: nat): string
    requires k <= |s|
  {
    s[Max(0, k - 20)..Min(|s|, k + 25)]
  }

  /** `out` holds the globstars before `n`, in order, without overlap, each with its surroundings. */
  predicate FindsAll(s: string, out: seq<Finding>, n: nat) {
    (forall j :: 0 <= j < |out| ==> out[j].column < n && UnquotedGlobstar(s, out[j].column)
                                    && out[j].context == Context(s, out[j].column))
    && (forall j, l :: 0 <= j < l < |out| ==> out[j].column + 1 < out[l].column)
    && forall k :: 0 <= k < n && UnquotedGlobstar(s, k) ==> Listed(out, k)
  }

  predicate Listed(out: seq<Finding>, k: nat) {
    exists j :: 0 <= j < |out| && out[j].column == k
  }

  /** The loop stands at `i`, between characters and between stars. */
  predicate At(s: string, out: seq<Finding>, i: nat, quote: Option<char>) {
    i <= |s| && (quote.Some? ==> quote.value == '"' || quote.value == '\'')
    && ModeAt(s, i) == ModeOf(quote) && FindsAll(s, out, i)
    && (quote.None? && i < |s| && s[i] == '*' ==> StarsBefore(s, i) % 2 == 0)
    && forall j :: 0 <= j < |out| ==> out[j].column + 1 < i
  }

  /** A character that begins no unquoted pair and escapes nothing. */
  lemma OneCharacter(s: string, out: seq<Finding>, i: nat, quote: Option<char>, next: Option<char>)
    requires At(s, out, i, quote) && i < |s| && !UnquotedGlobstar(s, i)
    requires next.Some? ==> next.value == '"' || next.value == '\''
    requires NextMode(ModeOf(quote), s[i], i + 1 < |s|) == ModeOf(next)
    ensures At(s, out, i + 1, next)
  {
    assert ModeAt(s, i + 1) == ModeOf(next);
    assert StarsBefore(s, i + 1) == if s[i] == '*' then 1 + StarsBefore(s, i) else 0;
  }

  lemma EscapedPair(s: string, out: seq<Finding>, i: nat, quote: Option<char>)
    requires At(s, out, i, quote) && i + 1 < |s| && quote == Some('"') && s[i] == '\\'
    ensures At(s, out, i + 2, quote)
  {
    assert ModeAt(s, i + 1).Escaped?;
    assert ModeAt(s, i + 2).Double?;
  }

  /** A pair of stars right after an even row: it is reported and its second star is not. */
  lemma StarPair(s: string, out: seq<Finding>, i: nat)
    requires At(s, out, i, None) && i + 1 < |s| && s[i] == '*' && s[i + 1] == '*'
    ensures At(s, out + [Finding(i, Context(s, i))], i + 2, None)
  {
    assert ModeAt(s, i + 1).Bare?;
    assert ModeAt(s, i + 2).Bare?;
    assert StarsBefore(s, i + 1) == StarsBefore(s, i) + 1;
    assert StarsBefore(s, i + 2) == StarsBefore(s, i) + 2;
    FindsPair(s, out, i);
  }

  lemma FindsPair(s: string, out: seq<Finding>, n: nat)
    requires FindsAll(s, out, n) && UnquotedGlobstar(s, n) && forall j :: 0 <= j < |out| ==> out[j].column + 1 < n
    ensures FindsAll(s, out + [Finding(n, Context(s, n))], n + 2)
  {
    var more := out + [Finding(n, Context(s, n))];
    assert more[|out|].column == n;
    assert !UnquotedGlobstar(s, n + 1);
    forall k | 0 <= k < n + 2 && UnquotedGlobstar(s, k)
      ensures Listed(more, k)
    {
      if k < n {
        var j :| 0 <= j < |out| && out[j].column == k;
        assert more[j].column == k;
      }
    }
  }

  /** Exactly the unquoted globstars. */
  method FindUnquotedGlobstar(script: string) returns (out: seq<Finding>)
    ensures FindsAll(script, out, |script|)
  {
    out := [];
    var quote: Option<char> := None;
    var i := 0;
    while i < |script|
      invariant At(script, out, i, quote)
      decreases |script| - i
    {
      var ch := script[i];
      if quote.Some? {
        if quote.value == '"' && ch == '\\' && i + 1 < |script| {
          EscapedPair(script, out, i, quote);
          i := i + 2;
          continue;
        }
        OneCharacter(script, out, i, quote, if ch == quote.value then None else quote);
        if ch == quote.value {
          quote := None;
        }
        i := i + 1;
        continue;
      }
      if ch == '"' || ch == '\'' {
        OneCharacter(script, out, i, quote, Some(ch));
        quote := Some(ch);
        i := i + 1;
        continue;
      }
      if ch == '*' && i + 1 < |script| && script[i + 1] == '*' {
        StarPair(script, out, i);
        var start := Max(0, i - 20);
        var end := Min(|script|, i + 25);
        out := out + [Finding(i, script[start..end])];
        i := i + 2;
      } else {
        OneCharacter(script, out, i, quote, quote);
        i := i + 1;
      }
    }
  }
}
