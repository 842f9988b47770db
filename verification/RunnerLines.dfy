/**
 The text side of scripts/mocha-parallel-files.js: how the output of one child is cut into lines, and which of its
 lines are shown at once, kept as failures, or kept as errors.
 */
module RunnerLines {
  datatype Stream = Stdout | Stderr

  datatype Line = Line(stream: Stream, text: string)

  /** The two regular-expression tests of the source on a line. */
  datatype Tests = Tests(isFailureStart: string -> bool, isWarning: string -> bool)

  // ---------- cutting a text into lines ----------

  /** `text.split('\n')`. */
  function Parts(text: string): (parts: seq<string>)
    ensures parts != []
  {
    if text == "" then [""]
    else
      var parts := Parts(text[..|text| - 1]);
      var last := |parts| - 1;
      if text[|text| - 1] == '\n' then parts + [""] else parts[last := parts[last] + [text[|text| - 1]]]
  }

  function WithNewlines(parts: seq<string>): seq<string> {
    seq(|parts|, i requires 0 <= i < |parts| => parts[i] + "\n")
  }

  datatype Split = Split(lines: seq<string>, carry: string)

  function SplitLines(carry: string, chunk: string): Split {
    var parts := Parts(carry + chunk);
    Split(WithNewlines(parts[..|parts| - 1]), parts[|parts| - 1])
  }

  function Flatten(lines: seq<string>): string {
    if lines == [] then "" else Flatten(lines[..|lines| - 1]) + lines[|lines| - 1]
  }

  /** One more character. */
  function Extend(s: Split, c: char): Split {
    if c == '\n' then Split(s.lines + [s.carry + "\n"], "") else Split(s.lines, s.carry + [c])
  }

  lemma SplitLast(carry: string, chunk: string)
    requires chunk != ""
    ensures SplitLines(carry, chunk) == Extend(SplitLines(carry, chunk[..|chunk| - 1]), chunk[|chunk| - 1])
  {
    var text := carry + chunk;
    assert text[..|text| - 1] == carry + chunk[..|chunk| - 1];
    var before, after := Parts(text[..|text| - 1]), Parts(text);
    if text[|text| - 1] == '\n' {
      assert after[..|after| - 1] == before == before[..|before| - 1] + [before[|before| - 1]];
    } else {
      assert after[..|after| - 1] == before[..|before| - 1];
    }
  }

  predicate IsLine(line: string) {
    line != "" && line[|line| - 1] == '\n' && '\n' !in line[..|line| - 1]
  }

  /** The lines and the carry are the text; every line ends in its only newline. */
  predicate Cuts(s: Split, text: string) {
    Flatten(s.lines) + s.carry == text && '\n' !in s.carry && forall k :: 0 <= k < |s.lines| ==> IsLine(s.lines[k])
  }

  lemma CutsExtend(s: Split, text: string, c: char)
    requires Cuts(s, text)
    ensures Cuts(Extend(s, c), text + [c])
  {
    if c == '\n' {
      NewLine(s.carry);
      FlattenAppend(s.lines, s.carry + "\n");
    }
  }

  lemma {:induction false} SplitKeepsText(text: string)
    ensures Cuts(SplitLines("", text), text)
  {
    if text == "" {
      assert "" + text == "";
    } else {
      var init, c := text[..|text| - 1], text[|text| - 1];
      SplitKeepsText(init);
      SplitLast("", text);
      CutsExtend(SplitLines("", init), init, c);
      assert init + [c] == text;
    }
  }

  lemma FlattenAppend(lines: seq<string>, line: string)
    ensures Flatten(lines + [line]) == Flatten(lines) + line
  {
    assert (lines + [line])[..|lines|] == lines;
  }

  lemma NewLine(carry: string)
    requires '\n' !in carry
    ensures IsLine(carry + "\n")
  {
    assert (carry + "\n")[..|carry|] == carry;
  }

  /** Feeding a text in two chunks is feeding it in one. */
  lemma {:induction false} SplitInChunks(a: string, b: string)
    ensures var first := SplitLines("", a);
            var second := SplitLines(first.carry, b);
            SplitLines("", a + b) == Split(first.lines + second.lines, second.carry)
  {
    var first := SplitLines("", a);
    if b == "" {
      NothingFed(a);
    } else {
      var init := b[..|b| - 1];
      SplitInChunks(a, init);
      assert (a + b)[..|a + b| - 1] == a + init;
      SplitLast("", a + b);
      SplitLast(first.carry, b);
    }
  }

  lemma NothingFed(a: string)
    ensures var s := SplitLines("", a); SplitLines(s.carry, "") == Split([], s.carry)
    ensures a + "" == a
  {
    SplitKeepsText(a);
    var carry := SplitLines("", a).carry;
    assert carry + "" == carry;
    CarryIsOnePart(carry);
  }

  lemma {:induction false} CarryIsOnePart(carry: string)
    requires '\n' !in carry
    ensures Parts(carry) == [carry]
  {
    if carry != "" {
      CarryIsOnePart(carry[..|carry| - 1]);
      assert carry[..|carry| - 1] + [carry[|carry| - 1]] == carry;
    }
  }

  /** The lines cut from a list of chunks, one chunk at a time, with the carry handed on. */
  function Feed(chunks: seq<string>): Split {
    if chunks == [] then Split([], "")
    else
      var before := Feed(chunks[..|chunks| - 1]);
      var last := SplitLines(before.carry, chunks[|chunks| - 1]);
      Split(before.lines + last.lines, last.carry)
  }

  /** Any chunking of a text gives the same lines and the same carry. */
  lemma {:induction false} ChunkingIsIrrelevant(chunks: seq<string>)
    ensures Feed(chunks) == SplitLines("", Flatten(chunks))
  {
    if chunks == [] {
      assert "" + "" == "";
    } else {
      ChunkingIsIrrelevant(chunks[..|chunks| - 1]);
      SplitInChunks(Flatten(chunks[..|chunks| - 1]), chunks[|chunks| - 1]);
    }
  }

  // ---------- routing ----------

  /** Some stdout line opened the failure report. */
  predicate Failing(t: Tests, arrived: seq<Line>) {
    exists k :: 0 <= k < |arrived| && arrived[k].stream.Stdout? && t.isFailureStart(arrived[k].text)
  }

  /** The lines meant for the terminal, in arrival order: stdout before the failure report, and warnings. */
  function Shown(t: Tests, arrived: seq<Line>): seq<Line> {
    if arrived == [] then []
    else
      var last := arrived[|arrived| - 1];
      Shown(t, arrived[..|arrived| - 1])
      + if (if last.stream.Stdout? then !Failing(t, arrived) else t.isWarning(last.text)) then [last] else []
  }

  /** The failure report: every stdout line from the one that opens it. */
  function FailureLines(t: Tests, arrived: seq<Line>): seq<string> {
    if arrived == [] then []
    else
      var last := arrived[|arrived| - 1];
      FailureLines(t, arrived[..|arrived| - 1]) + if last.stream.Stdout? && Failing(t, arrived) then [last.text] else []
  }

  function ErrorLines(t: Tests, arrived: seq<Line>): seq<string> {
    if arrived == [] then []
    else
      var last := arrived[|arrived| - 1];
      ErrorLines(t, arrived[..|arrived| - 1])
      + if last.stream.Stderr? && !t.isWarning(last.text) then [last.text] else []
  }

  function Tagged(stream: Stream, texts: seq<string>): seq<Line> {
    seq(|texts|, i requires 0 <= i < |texts| => Line(stream, texts[i]))
  }

  /** The texts of one stream. */
  function Of(stream: Stream, arrived: seq<Line>): seq<string> {
    if arrived == [] then []
    else
      var last := arrived[|arrived| - 1];
      Of(stream, arrived[..|arrived| - 1]) + if last.stream == stream then [last.text] else []
  }

  /** All lines of the three destinations together. */
  function Placed(shown: seq<Line>, failures: seq<string>, errors: seq<string>): multiset<Line> {
    multiset(shown) + multiset(Tagged(Stdout, failures)) + multiset(Tagged(Stderr, errors))
  }

  /** Every line that arrived is in exactly one place, as often as it arrived. */
  lemma {:induction false} EveryLineOnce(t: Tests, arrived: seq<Line>)
    ensures multiset(arrived) == Placed(Shown(t, arrived), FailureLines(t, arrived), ErrorLines(t, arrived))
  {
    if arrived != [] {
      var init, last := arrived[..|arrived| - 1], arrived[|arrived| - 1];
      EveryLineOnce(t, init);
      assert arrived == init + [last];
      PlaceOne(t, init, last);
    }
  }

  lemma PlaceOne(t: Tests, init: seq<Line>, last: Line)
    ensures var arrived := init + [last];
            Placed(Shown(t, arrived), FailureLines(t, arrived), ErrorLines(t, arrived))
            == Placed(Shown(t, init), FailureLines(t, init), ErrorLines(t, init)) + multiset{last}
  {
    var arrived := init + [last];
    assert arrived[..|init|] == init;
    var shown, failures, errors := Shown(t, init), FailureLines(t, init), ErrorLines(t, init);
    if last.stream.Stdout? && Failing(t, arrived) {
      TaggedAppend(Stdout, failures, last.text);
    } else if last.stream.Stderr? && !t.isWarning(last.text) {
      TaggedAppend(Stderr, errors, last.text);
    }
    PlaceCases(shown, failures, errors, last);
    assert Shown(t, arrived) == shown || Shown(t, arrived) == shown + [last];
    assert FailureLines(t, arrived) == failures || FailureLines(t, arrived) == failures + [last.text];
    assert ErrorLines(t, arrived) == errors || ErrorLines(t, arrived) == errors + [last.text];
  }

  lemma PlaceCases(shown: seq<Line>, failures: seq<string>, errors: seq<string>, last: Line)
    ensures Placed(shown + [last], failures, errors) == Placed(shown, failures, errors) + multiset{last}
    ensures last.stream.Stdout? ==>
            Placed(shown, failures + [last.text], errors) == Placed(shown, failures, errors) + multiset{last}
    ensures last.stream.Stderr? ==>
            Placed(shown, failures, errors + [last.text]) == Placed(shown, failures, errors) + multiset{last}
  {
    TaggedAppend(Stdout, failures, last.text);
    TaggedAppend(Stderr, errors, last.text);
  }

  lemma TaggedAppend(stream: Stream, texts: seq<string>, text: string)
    ensures Tagged(stream, texts + [text]) == Tagged(stream, texts) + [Line(stream, text)]
  {
  }

  /** The index at which the failure report opens in the stdout lines alone. */
  function ReportStart(t: Tests, stdout: seq<string>): nat {
    if stdout == [] then 0
    else if t.isFailureStart(stdout[0]) then 0
    else 1 + ReportStart(t, stdout[1..])
  }

  lemma {:induction false} ReportStartAppend(t: Tests, stdout: seq<string>, text: string)
    ensures ReportStart(t, stdout) <= |stdout|
    ensures ReportStart(t, stdout + [text])
            == if ReportStart(t, stdout) < |stdout| || t.isFailureStart(text) then ReportStart(t, stdout)
               else |stdout| + 1
  {
    if stdout != [] {
      assert (stdout + [text])[1..] == stdout[1..] + [text];
      ReportStartAppend(t, stdout[1..], text);
    }
  }

  /**
   The two streams route independently of how they interleave: the failure report is a suffix of the stdout lines
   and the shown stdout lines are the rest.
   */
  lemma {:induction false} RoutingByStream(t: Tests, arrived: seq<Line>)
    ensures var stdout := Of(Stdout, arrived);
            var start := ReportStart(t, stdout);
            start <= |stdout| && (Failing(t, arrived) <==> start < |stdout|)
            && FailureLines(t, arrived) == stdout[start..] && Of(Stdout, Shown(t, arrived)) == stdout[..start]
  {
    if arrived != [] {
      var init, last := arrived[..|arrived| - 1], arrived[|arrived| - 1];
      RoutingByStream(t, init);
      FailingAppend(t, init, last);
      assert arrived == init + [last];
      var shown, before := Shown(t, init), Of(Stdout, init);
      OfAppend(Stdout, shown, last);
      OfAppend(Stdout, init, last);
      if last.stream.Stdout? {
        ReportStartAppend(t, before, last.text);
        assert Shown(t, arrived) == if Failing(t, arrived) then shown else shown + [last];
        SuffixAppend(before, ReportStart(t, before), last.text);
      } else {
        assert FailureLines(t, arrived) == FailureLines(t, init);
        assert Shown(t, arrived) == shown || Shown(t, arrived) == shown + [last];
      }
    }
  }

  lemma OfAppend(stream: Stream, lines: seq<Line>, last: Line)
    ensures Of(stream, lines + [last])
            == if last.stream == stream then Of(stream, lines) + [last.text] else Of(stream, lines)
  {
    assert (lines + [last])[..|lines|] == lines;
  }

  lemma SuffixAppend(texts: seq<string>, start: nat, text: string)
    requires start <= |texts|
    ensures (texts + [text])[start..] == texts[start..] + [text] && (texts + [text])[..start] == texts[..start]
    ensures (texts + [text])[..|texts| + 1] == texts + [text] && (texts + [text])[|texts| + 1..] == []
  {
  }

  lemma FailingAppend(t: Tests, init: seq<Line>, last: Line)
    ensures Failing(t, init + [last]) <==> Failing(t, init) || (last.stream.Stdout? && t.isFailureStart(last.text))
  {
    var all := init + [last];
    if Failing(t, init) {
      var k :| 0 <= k < |init| && init[k].stream.Stdout? && t.isFailureStart(init[k].text);
      assert all[k] == init[k];
    }
    if last.stream.Stdout? && t.isFailureStart(last.text) {
      assert all[|init|] == last;
    }
  }
}
