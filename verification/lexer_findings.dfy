/** Two discrepancies in src/lexer.rs and the lexer they evidently intend.

    1. lex_color pushes its token as (start, Color, i) and resumes at i,
       where i is the offset from the '#' rather than an index into the
       input. A color at index s >= 1 therefore gets a token ending at 7 and
       lexing restarts at index 7, and for s >= 7 the lexer revisits the same
       '#' forever.
    2. make_parse_error slices the next 8 bytes of a non-ASCII byte, which
       panics when fewer than 8 bytes remain.

    `IntendedLexed` is the lexer with the color token ending at start + i and
    with the non-ASCII error in place of the panic. For it the module proves
    that lexing always ends within 4 * |input| + 2 scanner calls, never
    panics, and yields tokens in increasing, non-overlapping order; the
    lexer as written is proved to agree with it on inputs with no '#' past
    index 0, modulo the panic. */
module LexerFindings {
  import opened Lexer
  import opened LexerLayout

  // The corrected definitions.

  /** lex_color with the token and the restart position at start + i. */
  function IntendedColorScan(input: seq<byte>, start: nat, i: nat): (r: Scan)
    requires start < |input| && 1 <= i <= 7
    ensures Continues(input, r)
    decreases 7 - i
  {
    if i >= |input| - start then Scan([Span(start, Color, |input|)], Next(0, Done))
    else
      var c := input[start + i];
      if i < 7 && IsHexadecimal(c) then IntendedColorScan(input, start, i + 1)
      else if i < 7 then Scan([], Fail(LexError(start + i, start + i + 1, ExpectedHexDigit)))
      else if IsHexadecimal(c) then Scan([], Fail(LexError(start, start + i + 1, TooManyHexDigits)))
      else if IsAlphanumericOrUnderscore(c) then Scan([], Fail(LexError(start, start + i + 1, ExtraAlphanumeric)))
      else Scan([Span(start, Color, start + i)], Next(start + i, Base))
  }

  /** The panic of make_parse_error replaced by the error it was computing a
      message for: an unexpected non-ASCII byte at `at`. */
  function Settle(step: Step): (r: Step)
    ensures !r.Panic?
    ensures step.Panic? ==> r == Fail(LexError(step.at, step.at + 1, NonAscii))
    ensures !step.Panic? ==> r == step
  {
    match step
    case Panic(at) => Fail(LexError(at, at + 1, NonAscii))
    case _ => step
  }

  function IntendedDispatch(input: seq<byte>, start: nat, state: State): (r: Scan)
    requires state != Done && Entry(input, start, state)
    ensures Continues(input, r) && !r.step.Panic?
  {
    if state == InColor then IntendedColorScan(input, start, 1)
    else
      var s := Dispatch(input, start, state);
      Scan(s.emitted, Settle(s.step))
  }

  function IntendedRunFrom(input: seq<byte>, start: nat, state: State, tokens: seq<Span>, fuel: nat): LexResult
    requires Entry(input, start, state)
    decreases fuel
  {
    if state == Done then Tokens(tokens)
    else if fuel == 0 then OutOfFuel
    else
      var s := IntendedDispatch(input, start, state);
      match s.step
      case Next(next, q) => IntendedRunFrom(input, next, q, tokens + s.emitted, fuel - 1)
      case Fail(e) => Failed(e)
      case Panic(at) => Panicked(at)
  }

  function IntendedLexed(input: seq<byte>, fuel: nat): LexResult {
    IntendedRunFrom(input, 0, Base, [], fuel)
  }

  /** The outcome of a whole run with a panic read as the non-ASCII error. */
  function SettleResult(r: LexResult): LexResult {
    match r
    case Panicked(at) => Failed(LexError(at, at + 1, NonAscii))
    case _ => r
  }

  // Correctness of the color scanner.

  /** Once the six digits are in, the intended token covers the '#' and the
      six digits exactly, and lexing resumes right after it. */
  lemma {:induction false} IntendedColorRun(input: seq<byte>, start: nat, i: nat)
    requires start < |input| && 1 <= i <= 7
    requires forall k :: start + 1 <= k < start + i && k < |input| ==> IsHexadecimal(input[k])
    ensures var r := IntendedColorScan(input, start, i);
      && (r.step.Next? && r.step.state == Base ==>
            && start + 7 < |input|
            && r == Scan([Span(start, Color, start + 7)], Next(start + 7, Base))
            && (forall k :: start + 1 <= k < start + 7 ==> IsHexadecimal(input[k]))
            && !IsAlphanumericOrUnderscore(input[start + 7]))
      && (r.step.Next? ==> r.step.state in {Base, Done})
      && (r.step.Next? && r.step.state == Done ==> r == Scan([Span(start, Color, |input|)], Next(0, Done)))
      && (r.step.Fail? ==> r.emitted == [] && start <= r.step.error.start < r.step.error.end <= |input|)
    decreases 7 - i
  {
    if i < |input| - start {
      if i < 7 && IsHexadecimal(input[start + i]) {
        IntendedColorRun(input, start, i + 1);
      }
    }
  }

  /** The two color scanners agree at index 0, where the relative offset is
      the index. */
  lemma {:induction false} ColorScansAgreeAtZero(input: seq<byte>, i: nat)
    requires 0 < |input| && 1 <= i <= 7
    ensures ColorScan(input, 0, i) == IntendedColorScan(input, 0, i)
    decreases 7 - i
  {
    if i < |input| && i < 7 && IsHexadecimal(input[i]) {
      ColorScansAgreeAtZero(input, i + 1);
    }
  }

  // Termination.

  /** How far a state is from moving on: scanners that consume input rank 1,
      Base ranks above the states it hands over to, and Space ranks above
      Base where it hands the byte straight back. */
  function Rank(input: seq<byte>, start: nat, state: State): nat {
    match state
    case Done => 0
    case Base => 2
    case Space => if start < |input| && (input[start] == SPACE || input[start] == NEWLINE) then 1 else 3
    case _ => 1
  }

  /** The potential that each scanner call lowers. */
  function Potential(input: seq<byte>, start: nat, state: State): int {
    4 * (|input| - start) + Rank(input, start, state)
  }

  /** Base hands over at or after its start, to a state that is not Base,
      and to Space only at a blank byte. */
  lemma {:induction false} BaseHandsOver(input: seq<byte>, i: nat)
    ensures var r := BaseScan(input, i);
      && (forall k :: 0 <= k < |r.emitted| ==> r.emitted[k] == Span(i + k, r.emitted[k].token, i + k + 1))
      && (r.emitted == [] || i + |r.emitted| <= |input|)
      && (r.step.Next? ==>
            && r.step.state != Base
            && (r.step.state != Done ==> i <= r.step.start < |input|)
            && (r.step.state == Space ==> Rank(input, r.step.start, Space) == 1)
            && (r.step.state != Done ==> r.step.start == i + |r.emitted|))
    decreases |input| - i
  {
    if i < |input| {
      match BaseAction(input, i)
      case Emit(t) => BaseHandsOver(input, i + 1);
      case Exit(step) =>
    }
  }

  lemma {:induction false} SpaceHandsOver(input: seq<byte>, i: nat)
    ensures var r := SpaceScan(input, i);
      r.step.Next? ==>
        && r.step.state in {Base, Done}
        && (r.step.state == Base ==>
              i <= r.step.start < |input| && input[r.step.start] != SPACE && input[r.step.start] != NEWLINE)
    decreases |input| - i
  {
    if i < |input| && (input[i] == SPACE || input[i] == NEWLINE) {
      SpaceHandsOver(input, i + 1);
    }
  }

  lemma {:induction false} CommentHandsOver(input: seq<byte>, i: nat)
    ensures var r := CommentScan(input, i);
      r.step.Next? && r.step.state in {Space, Done} && (r.step.state == Space ==> i < r.step.start <= |input|)
    decreases |input| - i
  {
    if i < |input| && input[i] != NEWLINE {
      CommentHandsOver(input, i + 1);
    }
  }

  lemma {:induction false} IdentHandsOver(input: seq<byte>, start: nat, i: nat)
    requires start < i <= |input|
    ensures var r := IdentScan(input, start, i);
      && r.step.Next? && r.step.state in {Base, Done} && |r.emitted| == 1
      && start < r.emitted[0].end == (if r.step.state == Base then r.step.start else |input|)
      && r.emitted[0].start == start && r.emitted[0].end <= |input|
      && (r.step.state == Base ==> r.step.start < |input|)
    decreases |input| - i
  {
    if i < |input| && IsAlphanumericOrUnderscore(input[i]) {
      IdentHandsOver(input, start, i + 1);
    }
  }

  lemma {:induction false} NumberHandsOver(input: seq<byte>, start: nat, i: nat, periodSeen: bool)
    requires start < i <= |input|
    ensures var r := NumberScan(input, start, i, periodSeen);
      && r.step.Next? && r.step.state in {Base, Done} && 1 <= |r.emitted| <= 2
      && r.emitted[0].start == start < r.emitted[0].end
      && r.emitted[|r.emitted| - 1].end <= |input|
      && (|r.emitted| == 2 ==> r.emitted[0].end == r.emitted[1].start < r.emitted[1].end)
      && (r.step.state == Base ==> r.step.start == r.emitted[|r.emitted| - 1].end < |input| || r.step.start == r.emitted[|r.emitted| - 1].end == |input|)
    decreases |input| - i
  {
    if i < |input| {
      var c := input[i];
      if IsDigit(c) {
        NumberHandsOver(input, start, i + 1, periodSeen);
      } else if c == PERIOD && !periodSeen {
        NumberHandsOver(input, start, i + 1, true);
      }
    }
  }

  lemma {:induction false} StringHandsOver(input: seq<byte>, start: nat, i: nat, skipNext: bool)
    requires start < i
    ensures var r := StringScan(input, start, i, skipNext);
      && (r.step.Next? || r.step.Fail?)
      && (r.step.Fail? ==> r.step.error.start == start && r.emitted == [])
      && (r.step.Next? ==>
            r.step.state == Base && r == Scan([Span(start, String, r.step.start)], r.step) && start < r.step.start <= |input|)
    decreases |input| - i
  {
    if i < |input| {
      if skipNext {
        StringHandsOver(input, start, i + 1, false);
      } else if input[i] == BACKSLASH {
        StringHandsOver(input, start, i + 1, true);
      } else if input[i] != QUOTE {
        StringHandsOver(input, start, i + 1, false);
      }
    }
  }

  lemma {:induction false} RawStringHandsOver(input: seq<byte>, start: nat, i: nat)
    requires start < i
    ensures var r := RawStringScan(input, start, i);
      && (r.step.Next? || r.step.Fail?)
      && (r.step.Fail? ==> r.emitted == [])
      && (r.step.Next? ==>
            r.step.state == Base && r == Scan([Span(start, RawString, r.step.start)], r.step) && start < r.step.start <= |input|)
    decreases |input| - i
  {
    if i < |input| && !(input[i] == DASH && Occurs(input, i + 1, [DASH, DASH])) {
      RawStringHandsOver(input, start, i + 1);
    }
  }

  /** The tokens `spans` are each non-empty, lie inside the input, follow one
      another without overlap, and start at or after `from`. */
  predicate Ordered(spans: seq<Span>, from: nat, limit: nat) {
    && (forall k :: 0 <= k < |spans| ==> from <= spans[k].start < spans[k].end <= limit)
    && (forall k :: 0 < k < |spans| ==> spans[k - 1].end <= spans[k].start)
  }

  /** What one intended scanner call from `start` in `state` achieves: its
      tokens are ordered, begin at its start and end before the next start,
      the next start stays inside the input, and the potential drops. */
  predicate Progress(input: seq<byte>, start: nat, state: State, r: Scan) {
    && Ordered(r.emitted, start, |input|)
    && (r.step.Next? && r.step.state != Done ==>
          && LastEnd(r.emitted, start) <= r.step.start <= |input|
          && Potential(input, r.step.start, r.step.state) < Potential(input, start, state))
  }

  lemma BaseProgress(input: seq<byte>, start: nat)
    requires start <= |input|
    ensures Progress(input, start, Base, IntendedDispatch(input, start, Base))
  {
    BaseHandsOver(input, start);
    var r := BaseScan(input, start);
    if r.emitted != [] {
      assert r.emitted[|r.emitted| - 1].end == start + |r.emitted|;
    }
  }

  lemma ColorProgress(input: seq<byte>, start: nat)
    requires Entry(input, start, InColor)
    ensures Progress(input, start, InColor, IntendedDispatch(input, start, InColor))
  {
    IntendedColorRun(input, start, 1);
  }

  lemma CommentProgress(input: seq<byte>, start: nat)
    requires Entry(input, start, InComment)
    ensures Progress(input, start, InComment, IntendedDispatch(input, start, InComment))
  {
    CommentHandsOver(input, start + 2);
  }

  lemma IdentProgress(input: seq<byte>, start: nat)
    requires Entry(input, start, InIdent)
    ensures Progress(input, start, InIdent, IntendedDispatch(input, start, InIdent))
  {
    IdentHandsOver(input, start, start + 1);
  }

  lemma NumberProgress(input: seq<byte>, start: nat)
    requires Entry(input, start, InNumber)
    ensures Progress(input, start, InNumber, IntendedDispatch(input, start, InNumber))
  {
    NumberHandsOver(input, start, start + 1, false);
  }

  lemma RawStringProgress(input: seq<byte>, start: nat)
    requires Entry(input, start, InRawString)
    ensures Progress(input, start, InRawString, IntendedDispatch(input, start, InRawString))
  {
    RawStringHandsOver(input, start, start + 3);
  }

  lemma StringProgress(input: seq<byte>, start: nat)
    requires Entry(input, start, InString)
    ensures Progress(input, start, InString, IntendedDispatch(input, start, InString))
  {
    StringHandsOver(input, start, start + 1, false);
  }

  lemma SpaceProgress(input: seq<byte>, start: nat)
    requires start <= |input|
    ensures Progress(input, start, Space, IntendedDispatch(input, start, Space))
  {
    SpaceHandsOver(input, start);
  }

  /** Every intended scanner call makes progress. */
  lemma IntendedDispatchProgress(input: seq<byte>, start: nat, state: State)
    requires state != Done && Entry(input, start, state) && start <= |input|
    ensures Progress(input, start, state, IntendedDispatch(input, start, state))
  {
    match state
    case Base => BaseProgress(input, start);
    case InColor => ColorProgress(input, start);
    case InComment => CommentProgress(input, start);
    case InIdent => IdentProgress(input, start);
    case InNumber => NumberProgress(input, start);
    case InRawString => RawStringProgress(input, start);
    case InString => StringProgress(input, start);
    case Space => SpaceProgress(input, start);
  }

  /** Ordered token lists concatenate when the second starts after the first. */
  lemma OrderedAppend(a: seq<Span>, b: seq<Span>, from: nat, mid: nat, limit: nat)
    requires Ordered(a, from, limit) && LastEnd(a, from) <= mid && from <= mid && Ordered(b, mid, limit)
    ensures Ordered(a + b, from, limit)
    ensures LastEnd(a + b, from) == if b == [] then LastEnd(a, from) else LastEnd(b, mid)
  {
    var c := a + b;
    forall k | 0 < k < |c| ensures c[k - 1].end <= c[k].start {
      if k == |a| {
        assert c[k - 1] == a[|a| - 1] && c[k] == b[0];
      }
    }
  }

  /** One intended scanner call extends an ordered token list to an ordered
      one, and the next start stays past its last token with a smaller
      potential. */
  lemma IntendedStepKeepsOrder(input: seq<byte>, start: nat, state: State, tokens: seq<Span>)
    requires state != Done && Entry(input, start, state) && start <= |input|
    requires Ordered(tokens, 0, |input|) && LastEnd(tokens, 0) <= start
    ensures var s := IntendedDispatch(input, start, state);
      s.step.Next? ==>
        && Ordered(tokens + s.emitted, 0, |input|)
        && (s.step.state != Done ==>
              && s.step.start <= |input| && LastEnd(tokens + s.emitted, 0) <= s.step.start
              && Potential(input, s.step.start, s.step.state) < Potential(input, start, state))
  {
    var s := IntendedDispatch(input, start, state);
    IntendedDispatchProgress(input, start, state);
    if s.step.Next? {
      OrderedAppend(tokens, s.emitted, 0, start, |input|);
    }
  }

  /** With enough fuel the intended lexer reaches Done or an error, never
      panics, and every token list it returns is ordered. */
  lemma {:induction false} IntendedRunFromTotal(input: seq<byte>, start: nat, state: State, tokens: seq<Span>, fuel: nat)
    requires Entry(input, start, state) && start <= |input|
    requires Ordered(tokens, 0, |input|) && LastEnd(tokens, 0) <= start
    ensures var r := IntendedRunFrom(input, start, state, tokens, fuel);
      && !r.Panicked?
      && (fuel >= Potential(input, start, state) ==> !r.OutOfFuel?)
      && (r.Tokens? ==> Ordered(r.spans, 0, |input|))
    decreases fuel
  {
    if state != Done && fuel > 0 {
      var s := IntendedDispatch(input, start, state);
      IntendedStepKeepsOrder(input, start, state, tokens);
      IntendedRunFromStep(input, start, state, tokens, fuel);
      if s.step.Next? {
        var next := IntendedRunFrom(input, s.step.start, s.step.state, tokens + s.emitted, fuel - 1);
        if s.step.state == Done {
          assert next == Tokens(tokens + s.emitted);
        } else {
          IntendedRunFromTotal(input, s.step.start, s.step.state, tokens + s.emitted, fuel - 1);
        }
      }
    }
  }

  /** One scanner call of the intended lexer: it goes on from the step's
      start and state, or stops with the step's error. */
  lemma IntendedRunFromStep(input: seq<byte>, start: nat, state: State, tokens: seq<Span>, fuel: nat)
    requires state != Done && Entry(input, start, state) && fuel > 0
    ensures var s := IntendedDispatch(input, start, state);
      && (s.step.Next? ==> IntendedRunFrom(input, start, state, tokens, fuel)
                             == IntendedRunFrom(input, s.step.start, s.step.state, tokens + s.emitted, fuel - 1))
      && (s.step.Fail? ==> IntendedRunFrom(input, start, state, tokens, fuel) == Failed(s.step.error))
  {
  }

  /** The intended lexer ends within 4 * |input| + 2 scanner calls, never
      panics, and returns its tokens in increasing, non-overlapping order
      inside the input. */
  lemma IntendedLexTerminates(input: seq<byte>, fuel: nat)
    requires fuel >= 4 * |input| + 2
    ensures IntendedLexed(input, fuel).Tokens? || IntendedLexed(input, fuel).Failed?
    ensures IntendedLexed(input, fuel).Tokens? ==> Ordered(IntendedLexed(input, fuel).spans, 0, |input|)
    ensures IntendedLexed(input, fuel).Tokens? ==> GapsAreLayout(input, IntendedLexed(input, fuel).spans)
  {
    IntendedRunFromTotal(input, 0, Base, [], fuel);
    EmptyGap(input, 0);
    IntendedRunFromLayout(input, 0, Base, [], fuel);
  }

  /** More fuel does not change a finished run. */
  lemma {:induction false} IntendedRunFromFuel(input: seq<byte>, start: nat, state: State, tokens: seq<Span>, fuel: nat, more: nat)
    requires Entry(input, start, state) && fuel <= more
    requires !IntendedRunFrom(input, start, state, tokens, fuel).OutOfFuel?
    ensures IntendedRunFrom(input, start, state, tokens, more) == IntendedRunFrom(input, start, state, tokens, fuel)
    decreases fuel
  {
    if state != Done && fuel > 0 {
      var s := IntendedDispatch(input, start, state);
      IntendedRunFromStep(input, start, state, tokens, fuel);
      IntendedRunFromStep(input, start, state, tokens, more);
      if s.step.Next? {
        IntendedRunFromFuel(input, s.step.start, s.step.state, tokens + s.emitted, fuel - 1, more - 1);
      }
    }
  }

  // Only layout between the tokens.

  lemma IntendedColorCovers(input: seq<byte>, start: nat)
    requires Entry(input, start, InColor)
    ensures Covers(input, start, IntendedColorScan(input, start, 1))
  {
    IntendedColorRun(input, start, 1);
  }

  /** Every intended scanner covers what it consumes. */
  lemma IntendedDispatchCovers(input: seq<byte>, start: nat, state: State)
    requires state != Done && Entry(input, start, state) && start <= |input|
    ensures Covers(input, start, IntendedDispatch(input, start, state))
  {
    if state == InColor {
      IntendedColorCovers(input, start);
    } else {
      DispatchCovers(input, start, state);
    }
  }

  /** A run that starts after layout returns tokens with only layout
      before, between and after them. */
  lemma {:induction false} IntendedRunFromLayout(input: seq<byte>, start: nat, state: State, tokens: seq<Span>, fuel: nat)
    requires Entry(input, start, state) && GapsBefore(input, tokens)
    requires state != Done ==> Gap(input, LastEnd(tokens, 0), start, false)
    requires state == Done ==> Gap(input, LastEnd(tokens, 0), |input|, true)
    ensures var r := IntendedRunFrom(input, start, state, tokens, fuel);
      r.Tokens? ==> GapsAreLayout(input, r.spans)
    decreases fuel
  {
    if state != Done && fuel > 0 {
      var s := IntendedDispatch(input, start, state);
      IntendedRunFromStep(input, start, state, tokens, fuel);
      if s.step.Next? {
        IntendedDispatchCovers(input, start, state);
        StepKeepsLayout(input, start, tokens, s);
        IntendedRunFromLayout(input, s.step.start, s.step.state, tokens + s.emitted, fuel - 1);
      }
    }
  }

  // Agreement with the lexer as written.

  /** No '#' past index 0, so every color the lexer meets starts at 0. */
  predicate NoLateHash(input: seq<byte>) {
    forall k :: 1 <= k < |input| ==> input[k] != HASH
  }

  lemma {:induction false} RunsAgree(input: seq<byte>, start: nat, state: State, tokens: seq<Span>, fuel: nat)
    requires Entry(input, start, state) && NoLateHash(input)
    ensures SettleResult(RunFrom(input, start, state, tokens, fuel)) == IntendedRunFrom(input, start, state, tokens, fuel)
    decreases fuel
  {
    if state != Done && fuel > 0 {
      if state == InColor {
        assert start == 0;
        ColorScansAgreeAtZero(input, 1);
      }
      var s := Dispatch(input, start, state);
      if s.step.Next? {
        RunsAgree(input, s.step.start, s.step.state, tokens + s.emitted, fuel - 1);
      }
    }
  }

  /** On an input with no '#' past index 0 the lexer as written gives the
      intended outcome, except that it panics where the intended lexer
      reports the non-ASCII byte. */
  lemma LexAgreesWithoutLateHash(input: seq<byte>, fuel: nat)
    requires NoLateHash(input)
    ensures SettleResult(Lexed(input, fuel)) == IntendedLexed(input, fuel)
  {
    RunsAgree(input, 0, Base, [], fuel);
  }

  /** So on such input the lexer as written also ends within 4 * |input| + 2
      scanner calls, and its tokens are ordered. */
  lemma LexTerminatesWithoutLateHash(input: seq<byte>, fuel: nat)
    requires NoLateHash(input) && fuel >= 4 * |input| + 2
    ensures !Lexed(input, fuel).OutOfFuel?
    ensures Lexed(input, fuel).Tokens? ==> Ordered(Lexed(input, fuel).spans, 0, |input|)
    ensures Lexed(input, fuel).Tokens? ==> GapsAreLayout(input, Lexed(input, fuel).spans)
  {
    LexAgreesWithoutLateHash(input, fuel);
    IntendedLexTerminates(input, fuel);
  }

  // The inputs that show the discrepancies.

  /** Seven spaces, "#000000", a space: the input that shows the color bug. */
  predicate IsLateColorInput(input: seq<byte>) {
    input == [0x20, 0x20, 0x20, 0x20, 0x20, 0x20, 0x20, 0x23, 0x30, 0x30, 0x30, 0x30, 0x30, 0x30, 0x20]
  }

  lemma LateColorFacts(input: seq<byte>)
    requires IsLateColorInput(input)
    ensures Dispatch(input, 0, Base) == Scan([], Next(0, Space))
    ensures Dispatch(input, 0, Space) == Scan([], Next(7, Base))
    ensures Dispatch(input, 7, Base) == Scan([], Next(7, InColor))
  {
    assert Dispatch(input, 0, Base) == Scan([], Next(0, Space)) by {
      assert input[0] == SPACE;
    }
    assert Dispatch(input, 0, Space) == Scan([], Next(7, Base)) by {
      assert forall k :: 0 <= k < 7 ==> input[k] == SPACE;
      assert input[7] == HASH;
      SpaceSkips(input, 0, 7);
    }
    assert Dispatch(input, 7, Base) == Scan([], Next(7, InColor)) by {
      assert input[7] == HASH;
    }
  }

  lemma {:induction false} SpaceSkips(input: seq<byte>, i: nat, j: nat)
    requires i <= j < |input| && forall k :: i <= k < j ==> input[k] == SPACE
    ensures SpaceScan(input, i) == SpaceScan(input, j)
    decreases j - i
  {
    if i < j {
      SpaceSkips(input, i + 1, j);
    }
  }

  lemma {:induction false} HexSkips(input: seq<byte>, start: nat, i: nat)
    requires start < |input| && 1 <= i <= 7 && start + 7 < |input|
    requires forall k :: start + i <= k < start + 7 ==> IsHexadecimal(input[k])
    ensures ColorScan(input, start, i) == ColorScan(input, start, 7)
    ensures IntendedColorScan(input, start, i) == IntendedColorScan(input, start, 7)
    decreases 7 - i
  {
    if i < 7 {
      HexSkips(input, start, i + 1);
    }
  }

  lemma LateColorScans(input: seq<byte>)
    requires IsLateColorInput(input)
    ensures ColorScan(input, 7, 1) == Scan([Span(7, Color, 7)], Next(7, Base))
    ensures IntendedColorScan(input, 7, 1) == Scan([Span(7, Color, 14)], Next(14, Base))
  {
    assert forall k :: 8 <= k < 14 ==> input[k] == '0' as byte;
    assert input[14] == SPACE;
    HexSkips(input, 7, 1);
  }

  /** As written, the lexer returns to the '#' at 7 after every color token. */
  lemma {:induction false} LateColorLoops(input: seq<byte>, tokens: seq<Span>, fuel: nat)
    requires IsLateColorInput(input)
    ensures RunFrom(input, 7, Base, tokens, fuel) == OutOfFuel
    decreases fuel
  {
    LateColorFacts(input);
    LateColorScans(input);
    if fuel >= 2 {
      assert tokens + [] == tokens;
      assert RunFrom(input, 7, Base, tokens, fuel) == RunFrom(input, 7, InColor, tokens, fuel - 1);
      assert RunFrom(input, 7, InColor, tokens, fuel - 1) == RunFrom(input, 7, Base, tokens + [Span(7, Color, 7)], fuel - 2);
      LateColorLoops(input, tokens + [Span(7, Color, 7)], fuel - 2);
    }
  }

  /** The lexer as written never finishes on this input, whatever the fuel:
      it pushes (7, Color, 7) and restarts at the '#' over and over. */
  lemma LateColorNeverEnds(fuel: nat)
    ensures Lexed([0x20, 0x20, 0x20, 0x20, 0x20, 0x20, 0x20, 0x23, 0x30, 0x30, 0x30, 0x30, 0x30, 0x30, 0x20], fuel) == OutOfFuel
  {
    var input: seq<byte> := [0x20, 0x20, 0x20, 0x20, 0x20, 0x20, 0x20, 0x23, 0x30, 0x30, 0x30, 0x30, 0x30, 0x30, 0x20];
    LateColorFacts(input);
    if fuel >= 2 {
      var none: seq<Span> := [];
      assert none + none == none;
      assert Lexed(input, fuel) == RunFrom(input, 0, Space, [], fuel - 1);
      assert RunFrom(input, 0, Space, [], fuel - 1) == RunFrom(input, 7, Base, [], fuel - 2);
      LateColorLoops(input, [], fuel - 2);
    }
  }

  /** The intended lexer yields the one color token (7, Color, 14). */
  lemma LateColorIntended()
    ensures IntendedLexed([0x20, 0x20, 0x20, 0x20, 0x20, 0x20, 0x20, 0x23, 0x30, 0x30, 0x30, 0x30, 0x30, 0x30, 0x20], 10) == Tokens([Span(7, Color, 14)])
  {
    var input: seq<byte> := [0x20, 0x20, 0x20, 0x20, 0x20, 0x20, 0x20, 0x23, 0x30, 0x30, 0x30, 0x30, 0x30, 0x30, 0x20];
    LateColorFacts(input);
    LateColorScans(input);
    assert Dispatch(input, 14, Base) == Scan([], Next(14, Space)) by {
      assert input[14] == SPACE;
    }
    assert Dispatch(input, 14, Space) == Scan([], Next(0, Done)) by {
      assert input[14] == SPACE;
    }
  }

  /** "é" in UTF-8 (c3 a9): the lexer as written panics on the first byte. */
  lemma NonAsciiNearEndPanics()
    ensures Lexed([0xc3, 0xa9], 10) == Panicked(0)
  {
  }

  /** The intended lexer reports it as an unexpected non-ASCII byte. */
  lemma NonAsciiNearEndIntended()
    ensures IntendedLexed([0xc3, 0xa9], 10) == Failed(LexError(0, 1, NonAscii))
  {
    var input: seq<byte> := [0xc3, 0xa9];
    assert Dispatch(input, 0, Base) == Scan([], Panic(0));
  }

  /** The intended error selection reports a non-ASCII byte at any distance
      from the end of input. */
  lemma IntendedNonAsciiError(input: seq<byte>, at: nat)
    requires at < |input| && input[at] >= 0x80
    ensures Settle(ParseError(input, at)) == Fail(LexError(at, at + 1, NonAscii))
  {
  }
}
