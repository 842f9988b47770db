/**
 The no-allocation JSON scan of ci/test-optimization-validation/bounded-json.js.

 `Step` and `Run` are the scanner with an unbounded stack and no limits: it only measures. `ScanJson` is
 the scanner of the source, with two fixed arrays as its stack and three limits.
 */
module BoundedJson {
  import opened Wrappers

  type Byte = b: int | 0 <= b < 0x100

  datatype Limits = Limits(maxCollectionEntries: nat, maxNestingDepth: nat, maxStringBytes: nat)

  datatype ScanError = StringTooLong | NestingTooDeep | TooManyEntries

  // ---------- the unbounded scanner ----------

  datatype Frame = Frame(isArray: bool, hasEntry: bool)

  datatype Mode = Outside | Inside(escaped: bool, length: nat)

  /** `deepest` and `longest` are the greatest nesting and the greatest string length met so far. */
  datatype Scanner = Scanner(stack: seq<Frame>, mode: Mode, entries: nat, deepest: nat, longest: nat)

  const START := Scanner([], Outside, 0, 0, 0)

  predicate IsJsonWhitespace(b: Byte) {
    b == 0x20 || b == 0x09 || b == 0x0A || b == 0x0D
  }

  predicate InArray(s: Scanner) {
    s.stack != [] && s.stack[|s.stack| - 1].isArray
  }

  function SetHasEntry(s: Scanner, value: bool): Scanner
    requires s.stack != []
  {
    s.(stack := s.stack[|s.stack| - 1 := s.stack[|s.stack| - 1].(hasEntry := value)])
  }

  /** Counts the entry that begins here when the innermost container is an array still waiting for one. */
  function MarkArrayEntry(s: Scanner): Scanner {
    if InArray(s) && !s.stack[|s.stack| - 1].hasEntry
    then SetHasEntry(s, true).(entries := s.entries + 1)
    else s
  }

  function StepInside(s: Scanner, b: Byte): Scanner
    requires s.mode.Inside?
  {
    var length := s.mode.length + 1;
    s.(longest := Max(s.longest, length),
       mode := if s.mode.escaped then Inside(false, length)
               else if b == 0x5C then Inside(true, length)
               else if b == 0x22 then Outside
               else Inside(false, length))
  }

  function StepStructure(s: Scanner, b: Byte): Scanner {
    if b == 0x5B || b == 0x7B then
      s.(stack := s.stack + [Frame(b == 0x5B, false)], deepest := Max(s.deepest, |s.stack| + 1))
    else if b == 0x5D || b == 0x7D then
      if s.stack != [] then s.(stack := s.stack[..|s.stack| - 1]) else s
    else if b == 0x2C && InArray(s) then SetHasEntry(s, false)
    else if b == 0x3A && s.stack != [] && !InArray(s) then s.(entries := s.entries + 1)
    else s
  }

  function Step(s: Scanner, b: Byte): Scanner {
    if s.mode.Inside? then StepInside(s, b)
    else if b == 0x22 then MarkArrayEntry(s).(mode := Inside(false, 0))
    else StepStructure(if IsJsonWhitespace(b) || b == 0x5D then s else MarkArrayEntry(s), b)
  }

  function Run(s: Scanner, bytes: seq<Byte>): Scanner {
    if bytes == [] then s else Step(Run(s, bytes[..|bytes| - 1]), bytes[|bytes| - 1])
  }

  predicate Fits(s: Scanner, limits: Limits) {
    s.entries <= limits.maxCollectionEntries && s.deepest <= limits.maxNestingDepth
    && s.longest <= limits.maxStringBytes
  }

  /** Which limit is reported when a byte breaks one: an opening bracket counts its entry before it nests. */
  predicate Breaks(s: Scanner, limits: Limits, error: ScanError) {
    match error
    case StringTooLong => s.longest > limits.maxStringBytes
    case TooManyEntries => s.entries > limits.maxCollectionEntries
    case NestingTooDeep => s.deepest > limits.maxNestingDepth && s.entries <= limits.maxCollectionEntries
  }

  /** The measurements never shrink. */
  lemma {:induction false} RunGrows(s: Scanner, bytes: seq<Byte>)
    ensures var t := Run(s, bytes);
            s.entries <= t.entries && s.deepest <= t.deepest && s.longest <= t.longest
  {
    if bytes != [] {
      RunGrows(s, bytes[..|bytes| - 1]);
    }
  }

  lemma {:induction false} RunConcat(s: Scanner, a: seq<Byte>, b: seq<Byte>)
    ensures Run(s, a + b) == Run(Run(s, a), b)
  {
    if b == [] {
      assert a + b == a;
    } else {
      assert (a + b)[..|a + b| - 1] == a + b[..|b| - 1];
      RunConcat(s, a, b[..|b| - 1]);
    }
  }

  lemma RunPrefixGrows(s: Scanner, bytes: seq<Byte>, k: nat)
    requires k <= |bytes|
    ensures var t, u := Run(s, bytes[..k]), Run(s, bytes);
            t.entries <= u.entries && t.deepest <= u.deepest && t.longest <= u.longest
  {
    assert bytes[..k] + bytes[k..] == bytes;
    RunConcat(s, bytes[..k], bytes[k..]);
    RunGrows(Run(s, bytes[..k]), bytes[k..]);
  }

  // ---------- the bounded scanner ----------

  /** The variables of `scanJson`: two fixed arrays serve as the stack. */
  class BoundedScanner {
    const limits: Limits
    const containerTypes: array<int>
    const arrayHasEntry: array<int>
    var collectionEntries: nat
    var depth: nat
    var escaped: bool
    var inString: bool
    var stringBytes: nat

    ghost predicate ModeIs(mode: Mode)
      reads this
    {
      if inString then mode == Inside(escaped, stringBytes) else mode.Outside? && !escaped
    }

    ghost predicate StackIs(stack: seq<Frame>)
      reads this, containerTypes, arrayHasEntry
    {
      containerTypes != arrayHasEntry
      && containerTypes.Length == arrayHasEntry.Length == limits.maxNestingDepth
      && depth == |stack| <= limits.maxNestingDepth
      && forall d :: 0 <= d < depth ==>
           containerTypes[d] == (if stack[d].isArray then 1 else 2)
           && arrayHasEntry[d] == (if stack[d].hasEntry then 1 else 0)
    }

    /** The bounded state is exactly the state `s` of the unbounded scanner, and `s` is within the limits. */
    ghost predicate Represents(s: Scanner)
      reads this, containerTypes, arrayHasEntry
    {
      StackIs(s.stack) && ModeIs(s.mode) && collectionEntries == s.entries && Fits(s, limits)
    }

    constructor (limits: Limits)
      ensures Represents(START) && this.limits == limits && fresh(containerTypes) && fresh(arrayHasEntry)
    {
      this.limits := limits;
      containerTypes := new int[limits.maxNestingDepth](_ => 0);
      arrayHasEntry := new int[limits.maxNestingDepth](_ => 0);
      collectionEntries, depth, stringBytes := 0, 0, 0;
      escaped, inString := false, false;
    }

    method AddEntry() returns (ok: bool)
      modifies this`collectionEntries
      ensures collectionEntries == old(collectionEntries) + 1
      ensures ok <==> collectionEntries <= limits.maxCollectionEntries
    {
      collectionEntries := collectionEntries + 1;
      ok := collectionEntries <= limits.maxCollectionEntries;
    }

    method MarkPendingEntry(ghost s: Scanner) returns (ok: bool)
      requires Represents(s)
      modifies this`collectionEntries, arrayHasEntry
      ensures ok <==> MarkArrayEntry(s).entries <= limits.maxCollectionEntries
      ensures ok ==> Represents(MarkArrayEntry(s))
    {
      if depth > 0 && containerTypes[depth - 1] == 1 && arrayHasEntry[depth - 1] == 0 {
        arrayHasEntry[depth - 1] := 1;
        ok := AddEntry();
      } else {
        ok := true;
      }
    }

    method ScanInString(ghost s: Scanner, b: Byte) returns (error: Option<ScanError>)
      requires Represents(s) && inString
      modifies this`stringBytes, this`escaped, this`inString
      ensures error.None? ==> Represents(Step(s, b))
      ensures error.Some? ==> Breaks(Step(s, b), limits, error.value)
    {
      stringBytes := stringBytes + 1;
      if stringBytes > limits.maxStringBytes {
        return Some(StringTooLong);
      }
      if escaped {
        escaped := false;
      } else if b == 0x5C {
        escaped := true;
      } else if b == 0x22 {
        inString := false;
      }
      error := None;
    }

    method ScanStructure(ghost s: Scanner, b: Byte) returns (error: Option<ScanError>)
      requires Represents(s) && !inString
      modifies this`collectionEntries, this`depth, containerTypes, arrayHasEntry
      ensures error.None? ==> Represents(StepStructure(s, b))
      ensures error.Some? ==> Breaks(StepStructure(s, b), limits, error.value)
    {
      var containerIndex := depth - 1;
      if b == 0x5B || b == 0x7B {
        if depth >= limits.maxNestingDepth {
          return Some(NestingTooDeep);
        }
        containerTypes[depth] := if b == 0x5B then 1 else 2;
        arrayHasEntry[depth] := 0;
        depth := depth + 1;
      } else if b == 0x5D || b == 0x7D {
        if depth > 0 {
          depth := depth - 1;
        }
      } else if b == 0x2C && containerIndex >= 0 && containerTypes[containerIndex] == 1 {
        arrayHasEntry[containerIndex] := 0;
      } else if b == 0x3A && containerIndex >= 0 && containerTypes[containerIndex] == 2 {
        var ok := AddEntry();
        if !ok {
          return Some(TooManyEntries);
        }
      }
      error := None;
    }

    /** One turn of the loop. */
    method ScanByte(ghost s: Scanner, b: Byte) returns (error: Option<ScanError>)
      requires Represents(s)
      modifies this, containerTypes, arrayHasEntry
      ensures error.None? ==> Represents(Step(s, b))
      ensures error.Some? ==> Breaks(Step(s, b), limits, error.value)
    {
      if inString {
        error := ScanInString(s, b);
      } else if b == 0x22 {
        var ok := MarkPendingEntry(s);
        if !ok {
          return Some(TooManyEntries);
        }
        inString := true;
        stringBytes := 0;
        error := None;
      } else {
        ghost var marked := s;
        if !IsJsonWhitespace(b) && b != 0x5D {
          var ok := MarkPendingEntry(s);
          if !ok {
            return Some(TooManyEntries);
          }
          marked := MarkArrayEntry(s);
        }
        error := ScanStructure(marked, b);
      }
    }
  }

  /** The scan of the bytes before `k` stays within the limits, and byte `k` breaks one. */
  predicate BreaksAt(buffer: seq<Byte>, limits: Limits, error: ScanError, k: nat) {
    k < |buffer| && Fits(Run(START, buffer[..k]), limits) && Breaks(Run(START, buffer[..k + 1]), limits, error)
  }

  /**
   Every byte sequence, JSON or not: the bounded scan succeeds exactly when the unbounded one stays within
   the limits, and then both count the same entries. A failure names the limit broken first.
   */
  method ScanJson(buffer: seq<Byte>, limits: Limits) returns (r: Result<nat, ScanError>)
    ensures r.Success? <==> Fits(Run(START, buffer), limits)
    ensures r.Success? ==> r.value == Run(START, buffer).entries
    ensures r.Failure? ==> exists k: nat :: BreaksAt(buffer, limits, r.error, k)
  {
    var scanner := new BoundedScanner(limits);
    for i := 0 to |buffer|
      invariant fresh(scanner) && fresh(scanner.containerTypes) && fresh(scanner.arrayHasEntry)
      invariant scanner.limits == limits && scanner.Represents(Run(START, buffer[..i]))
    {
      assert buffer[..i + 1][..i] == buffer[..i];
      RunPrefixGrows(START, buffer, i + 1);
      var error := scanner.ScanByte(Run(START, buffer[..i]), buffer[i]);
      if error.Some? {
        assert BreaksAt(buffer, limits, error.value, i);
        return Failure(error.value);
      }
    }
    assert buffer[..|buffer|] == buffer;
    return Success(scanner.collectionEntries);
  }

  predicate NoLarger(small: Limits, large: Limits) {
    small.maxCollectionEntries <= large.maxCollectionEntries && small.maxNestingDepth <= large.maxNestingDepth
    && small.maxStringBytes <= large.maxStringBytes
  }

  /** Raising a limit never loses an input, nor any prefix of it. */
  lemma AcceptanceIsMonotone(buffer: seq<Byte>, small: Limits, large: Limits, k: nat)
    requires k <= |buffer| && NoLarger(small, large) && Fits(Run(START, buffer), small)
    ensures Fits(Run(START, buffer[..k]), large)
  {
    RunPrefixGrows(START, buffer, k);
  }
}
