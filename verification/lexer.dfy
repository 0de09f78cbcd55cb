/** Model of the hand-written lexer of Pris (src/lexer.rs).

    The lexer is a state machine over the bytes of a source file. `Lexer.Run`
    repeatedly dispatches on the current state to one scanner method
    (`LexBase`, `LexColor`, ...), each of which appends tokens and returns the
    next start index and state, or a located error. Every scanner method is
    proved equal to a recursive scan function (`BaseScan`, `ColorScan`, ...),
    and `Run` is proved equal to `RunFrom`, which composes them; the lemmas in
    module LexerTheory state what these functions promise. */
module Lexer {
  import opened Wrappers

  newtype byte = b: int | 0 <= b < 256

  const TAB: byte := 0x09
  const NEWLINE: byte := 0x0a
  const CR: byte := 0x0d
  const SPACE: byte := 0x20
  const QUOTE: byte := 0x22
  const HASH: byte := 0x23
  const DASH: byte := 0x2d
  const PERIOD: byte := 0x2e
  const SLASH: byte := 0x2f
  const BACKSLASH: byte := 0x5c

  datatype Token =
    | String | RawString | Color | Number | Ident
    | KwAt | KwFunction | KwImport | KwPut | KwReturn
    | UnitEm | UnitH | UnitW | UnitPt
    | Comma | Dot | Equals | Hat | Minus | Plus | Slash | Star | Tilde
    | LParen | RParen | LBrace | RBrace

  datatype State =
    | Base | Done | InColor | InComment | InIdent | InNumber | InRawString | InString | Space

  /** A token with its half-open byte range: (start_index, token, past_end_index). */
  datatype Span = Span(start: nat, token: Token, end: nat)

  /** The cause of a lexical error; the message text is not modelled. */
  datatype ErrorKind =
    | TabCharacter
    | CarriageReturn
    | ControlCharacter
    | UnexpectedCharacter
    | NonAscii
    | Utf8ByteOrderMark
    | Utf16ByteOrderMark
    | Utf32ByteOrderMark
    | ExpectedHexDigit
    | TooManyHexDigits
    | ExtraAlphanumeric
    | UnterminatedString
    | UnterminatedRawString

  /** A lexical error located at the byte range [start, end). */
  datatype LexError = LexError(start: nat, end: nat, kind: ErrorKind)

  /** What a scanner hands back to `run`: the next start and state, an error,
      or a panic of the program at the given byte (an out-of-range slice). */
  datatype Step = Next(start: nat, state: State) | Fail(error: LexError) | Panic(at: nat)

  /** The tokens a scanner appends, together with the step it returns. */
  datatype Scan = Scan(emitted: seq<Span>, step: Step)

  /** The outcome of lexing a whole input. `OutOfFuel` means that the number
      of scanner calls allowed was used up before the state machine reached
      `Done`; the program itself would keep running. */
  datatype LexResult = Tokens(spans: seq<Span>) | Failed(error: LexError) | Panicked(at: nat) | OutOfFuel

  // Byte classes.

  predicate IsAlphabetic(b: byte) {
    ('a' as byte <= b <= 'z' as byte) || ('A' as byte <= b <= 'Z' as byte)
  }

  predicate IsAlphabeticOrUnderscore(b: byte) {
    IsAlphabetic(b) || b == '_' as byte
  }

  predicate IsAlphanumericOrUnderscore(b: byte) {
    IsAlphabeticOrUnderscore(b) || ('0' as byte <= b <= '9' as byte)
  }

  predicate IsDigit(b: byte) {
    '0' as byte <= b <= '9' as byte
  }

  predicate IsHexadecimal(b: byte) {
    IsDigit(b) || ('a' as byte <= b <= 'f' as byte) || ('A' as byte <= b <= 'F' as byte)
  }

  /** The byte sequence `expected` occurs in `input` at index `at`. */
  predicate Occurs(input: seq<byte>, at: nat, expected: seq<byte>) {
    at + |expected| <= |input| && input[at..at + |expected|] == expected
  }

  /** The single-byte punctuation tokens that Base emits without a state change. */
  function Punctuation(b: byte): (r: Option<Token>)
    ensures r.Some? ==> r.value in {Comma, Dot, Equals, Hat, Minus, Plus, Slash, Star, Tilde, LParen, RParen, LBrace, RBrace}
    ensures r.Some? <==> b in {',' as byte, '.' as byte, '=' as byte, '^' as byte, '-' as byte, '+' as byte, '/' as byte,
                               '*' as byte, '~' as byte, '(' as byte, ')' as byte, '{' as byte, '}' as byte}
  {
    if b == ',' as byte then Some(Comma)
    else if b == '.' as byte then Some(Dot)
    else if b == '=' as byte then Some(Equals)
    else if b == '^' as byte then Some(Hat)
    else if b == '-' as byte then Some(Minus)
    else if b == '+' as byte then Some(Plus)
    else if b == '/' as byte then Some(Slash)
    else if b == '*' as byte then Some(Star)
    else if b == '~' as byte then Some(Tilde)
    else if b == '(' as byte then Some(LParen)
    else if b == ')' as byte then Some(RParen)
    else if b == '{' as byte then Some(LBrace)
    else if b == '}' as byte then Some(RBrace)
    else None
  }

  // Error selection.

  /** make_parse_error: the error for an unexpected byte at `at`. For a
      non-ASCII byte the program slices the next 8 bytes, which panics when
      fewer than 8 bytes remain. */
  function ParseError(input: seq<byte>, at: nat): (r: Step)
    requires at < |input|
    ensures r.Fail? ==> r.error.start == at && r.error.end == at + 1
    ensures r.Panic? <==> input[at] >= 0x80 && |input| - at < 8
  {
    var x := input[at];
    if x == TAB then Fail(LexError(at, at + 1, TabCharacter))
    else if x == CR then Fail(LexError(at, at + 1, CarriageReturn))
    else if x < 0x20 || x == 0x7f then Fail(LexError(at, at + 1, ControlCharacter))
    else if x < 0x7f then Fail(LexError(at, at + 1, UnexpectedCharacter))
    else if |input| - at < 8 then Panic(at)
    else Fail(LexError(at, at + 1, NonAscii))
  }

  /** make_encoding_error: a byte order mark starting at `at`, tested in the
      order UTF-8, UTF-16, UTF-32; anything else is a parse error. */
  function EncodingError(input: seq<byte>, at: nat): (r: Step)
    requires at < |input|
    ensures Occurs(input, at, [0xef, 0xbb, 0xbf]) ==> r == Fail(LexError(at, at + 3, Utf8ByteOrderMark))
    ensures r.Fail? && r.error.kind == Utf8ByteOrderMark ==> r.error.end == at + 3 && Occurs(input, at, [0xef, 0xbb, 0xbf])
    ensures r.Fail? && r.error.kind == Utf16ByteOrderMark ==>
      r.error.end == at + 2 && (Occurs(input, at, [0xfe, 0xff]) || Occurs(input, at, [0xff, 0xfe]))
    ensures r.Fail? && r.error.kind == Utf32ByteOrderMark ==>
      r.error.end == at + 4 && (Occurs(input, at, [0x00, 0x00, 0xfe, 0xff]) || Occurs(input, at, [0xff, 0xfe, 0x00, 0x00]))
    ensures r.Fail? ==> r.error.start == at && r.error.end <= |input|
    ensures (&& !Occurs(input, at, [0xef, 0xbb, 0xbf]) && !Occurs(input, at, [0xfe, 0xff]) && !Occurs(input, at, [0xff, 0xfe])
             && !Occurs(input, at, [0x00, 0x00, 0xfe, 0xff]) && !Occurs(input, at, [0xff, 0xfe, 0x00, 0x00])) ==>
      r == ParseError(input, at)
  {
    if Occurs(input, at, [0xef, 0xbb, 0xbf]) then
      Fail(LexError(at, at + 3, Utf8ByteOrderMark))
    else if Occurs(input, at, [0xfe, 0xff]) || Occurs(input, at, [0xff, 0xfe]) then
      Fail(LexError(at, at + 2, Utf16ByteOrderMark))
    else if Occurs(input, at, [0x00, 0x00, 0xfe, 0xff]) || Occurs(input, at, [0xff, 0xfe, 0x00, 0x00]) then
      Fail(LexError(at, at + 4, Utf32ByteOrderMark))
    else
      ParseError(input, at)
  }

  // The scanners as functions. Each follows its loop in src/lexer.rs, with
  // the loop index `i` as a parameter.

  /** What each scanner may assume about the byte at its start (the debug
      assertions at the head of the scanners). */
  predicate Entry(input: seq<byte>, start: nat, state: State) {
    match state
    case InColor => start < |input| && input[start] == HASH
    case InComment => Occurs(input, start, [SLASH, SLASH])
    case InIdent => start < |input| && IsAlphabeticOrUnderscore(input[start])
    case InNumber => start < |input| && IsDigit(input[start])
    case InRawString => Occurs(input, start, [DASH, DASH, DASH])
    case InString => Occurs(input, start, [QUOTE])
    case _ => true
  }

  /** A failing step reports a non-empty range of the input, and a panic
      happens at a byte of the input. */
  predicate WithinInput(input: seq<byte>, step: Step) {
    && (step.Fail? ==> step.error.start < step.error.end <= |input|)
    && (step.Panic? ==> step.at < |input|)
  }

  /** A scan's next state satisfies that state's entry condition. */
  predicate Continues(input: seq<byte>, s: Scan) {
    s.step.Next? ==> Entry(input, s.step.start, s.step.state)
  }

  /** What Base does with the byte at `i`: push a single-byte token and go
      on with the next byte, or leave the loop with a step. */
  datatype Action = Emit(token: Token) | Exit(step: Step)

  /** The match in the loop of lex_base. */
  function BaseAction(input: seq<byte>, i: nat): (r: Action)
    requires i < |input|
    ensures r.Exit? ==> Continues(input, Scan([], r.step))
    ensures r.Exit? ==> WithinInput(input, r.step)
    ensures r.Exit? && r.step.Next? ==> r.step.start == i && r.step.state != Done
  {
    var b := input[i];
    if b == SLASH && Occurs(input, i + 1, [SLASH]) then
      assert input[i..i + 2] == [b] + input[i + 1..i + 2];
      Exit(Next(i, InComment))
    else if b == DASH && Occurs(input, i + 1, [DASH, DASH]) then
      assert input[i..i + 3] == [b] + input[i + 1..i + 3];
      Exit(Next(i, InRawString))
    else if b == QUOTE then
      assert input[i..i + 1] == [b];
      Exit(Next(i, InString))
    else if b == SPACE || b == NEWLINE then Exit(Next(i, Space))
    else if b == HASH then Exit(Next(i, InColor))
    else if IsAlphabeticOrUnderscore(b) then Exit(Next(i, InIdent))
    else if IsDigit(b) then Exit(Next(i, InNumber))
    else if Punctuation(b).Some? then Emit(Punctuation(b).value)
    else if b == 0xef || b == 0xfe || b == 0xff || b == 0x00 then Exit(EncodingError(input, i))
    else Exit(ParseError(input, i))
  }

  function BaseScan(input: seq<byte>, i: nat): (r: Scan)
    ensures Continues(input, r) && WithinInput(input, r.step)
    decreases |input| - i
  {
    if i >= |input| then Scan([], Next(0, Done))
    else match BaseAction(input, i)
      case Emit(t) =>
        var rest := BaseScan(input, i + 1);
        Scan([Span(i, t, i + 1)] + rest.emitted, rest.step)
      case Exit(step) => Scan([], step)
  }

  /** One single-byte token of Base, followed by the rest of the scan. */
  lemma BaseScanEmits(input: seq<byte>, i: nat, t: Token)
    requires i < |input| && BaseAction(input, i) == Emit(t)
    ensures BaseScan(input, i).emitted == [Span(i, t, i + 1)] + BaseScan(input, i + 1).emitted
    ensures BaseScan(input, i).step == BaseScan(input, i + 1).step
  {
  }

  /** One pass of the loop of lex_base that pushes a token keeps the scan
      from `s0` split into the tokens pushed and the scan of the rest. */
  lemma BaseLoopStep(input: seq<byte>, s0: nat, i: nat, pushed: seq<Span>, t: Token)
    requires i < |input| && BaseAction(input, i) == Emit(t)
    requires BaseScan(input, s0) == Scan(pushed + BaseScan(input, i).emitted, BaseScan(input, i).step)
    ensures BaseScan(input, s0)
         == Scan((pushed + [Span(i, t, i + 1)]) + BaseScan(input, i + 1).emitted, BaseScan(input, i + 1).step)
  {
    BaseScanEmits(input, i, t);
    assert (pushed + [Span(i, t, i + 1)]) + BaseScan(input, i + 1).emitted == pushed + BaseScan(input, i).emitted;
  }

  /** Base leaves the loop with the step of the byte at `i`, having pushed
      the tokens so far. */
  lemma BaseLoopExit(input: seq<byte>, s0: nat, i: nat, pushed: seq<Span>, step: Step)
    requires i < |input| && BaseAction(input, i) == Exit(step)
    requires BaseScan(input, s0) == Scan(pushed + BaseScan(input, i).emitted, BaseScan(input, i).step)
    ensures BaseScan(input, s0) == Scan(pushed, step)
  {
    assert BaseScan(input, i) == Scan([], step);
    assert pushed + [] == pushed;
  }

  /** At the end of the input Base is done, having pushed the tokens so far. */
  lemma BaseLoopEnd(input: seq<byte>, s0: nat, i: nat, pushed: seq<Span>)
    requires i >= |input|
    requires BaseScan(input, s0) == Scan(pushed + BaseScan(input, i).emitted, BaseScan(input, i).step)
    ensures BaseScan(input, s0) == Scan(pushed, Next(0, Done))
  {
    assert BaseScan(input, i) == Scan([], Next(0, Done));
    assert pushed + [] == pushed;
  }

  /** lex_color as written: `i` is the offset from the '#', and the token it
      pushes on success ends at that relative offset. */
  function ColorScan(input: seq<byte>, start: nat, i: nat): (r: Scan)
    requires start < |input| && 1 <= i <= 7
    ensures Continues(input, r) && WithinInput(input, r.step)
    decreases 7 - i
  {
    if i >= |input| - start then Scan([Span(start, Color, |input|)], Next(0, Done))
    else
      var c := input[start + i];
      if i < 7 && IsHexadecimal(c) then ColorScan(input, start, i + 1)
      else if i < 7 then Scan([], Fail(LexError(start + i, start + i + 1, ExpectedHexDigit)))
      else if IsHexadecimal(c) then Scan([], Fail(LexError(start, start + i + 1, TooManyHexDigits)))
      else if IsAlphanumericOrUnderscore(c) then Scan([], Fail(LexError(start, start + i + 1, ExtraAlphanumeric)))
      else Scan([Span(start, Color, i)], Next(i, Base))
  }

  function CommentScan(input: seq<byte>, i: nat): (r: Scan)
    ensures Continues(input, r) && r.emitted == [] && r.step.Next?
    decreases |input| - i
  {
    if i >= |input| then Scan([], Next(0, Done))
    else if input[i] == NEWLINE then Scan([], Next(i + 1, Space))
    else CommentScan(input, i + 1)
  }

  function IdentScan(input: seq<byte>, start: nat, i: nat): (r: Scan)
    ensures Continues(input, r) && r.step.Next?
    decreases |input| - i
  {
    if i >= |input| then Scan([Span(start, Ident, |input|)], Next(0, Done))
    else if !IsAlphanumericOrUnderscore(input[i]) then Scan([Span(start, Ident, i)], Next(i, Base))
    else IdentScan(input, start, i + 1)
  }

  function NumberScan(input: seq<byte>, start: nat, i: nat, periodSeen: bool): (r: Scan)
    ensures Continues(input, r) && r.step.Next?
    decreases |input| - i
  {
    if i >= |input| then Scan([Span(start, Number, |input|)], Next(0, Done))
    else
      var c := input[i];
      if IsDigit(c) then NumberScan(input, start, i + 1, periodSeen)
      else if c == PERIOD && !periodSeen then NumberScan(input, start, i + 1, true)
      else if c == 'e' as byte && Occurs(input, i + 1, ['m' as byte]) then
        Scan([Span(start, Number, i), Span(i, UnitEm, i + 2)], Next(i + 2, Base))
      else if c == 'p' as byte && Occurs(input, i + 1, ['t' as byte]) then
        Scan([Span(start, Number, i), Span(i, UnitPt, i + 2)], Next(i + 2, Base))
      else if c == 'h' as byte then
        Scan([Span(start, Number, i), Span(i, UnitH, i + 1)], Next(i + 1, Base))
      else if c == 'w' as byte then
        Scan([Span(start, Number, i), Span(i, UnitW, i + 1)], Next(i + 1, Base))
      else Scan([Span(start, Number, i)], Next(i, Base))
  }

  function RawStringScan(input: seq<byte>, start: nat, i: nat): (r: Scan)
    ensures Continues(input, r)
    ensures r.step.Fail? ==> r.step.error == LexError(start, start + 3, UnterminatedRawString)
    ensures !r.step.Panic?
    decreases |input| - i
  {
    if i >= |input| then Scan([], Fail(LexError(start, start + 3, UnterminatedRawString)))
    else if input[i] == DASH && Occurs(input, i + 1, [DASH, DASH]) then
      Scan([Span(start, RawString, i + 3)], Next(i + 3, Base))
    else RawStringScan(input, start, i + 1)
  }

  function StringScan(input: seq<byte>, start: nat, i: nat, skipNext: bool): (r: Scan)
    ensures Continues(input, r)
    ensures r.step.Fail? ==> r.step.error == LexError(start, start + 1, UnterminatedString)
    ensures !r.step.Panic?
    decreases |input| - i
  {
    if i >= |input| then Scan([], Fail(LexError(start, start + 1, UnterminatedString)))
    else if skipNext then StringScan(input, start, i + 1, false)
    else if input[i] == BACKSLASH then StringScan(input, start, i + 1, true)
    else if input[i] == QUOTE then Scan([Span(start, String, i + 1)], Next(i + 1, Base))
    else StringScan(input, start, i + 1, false)
  }

  function SpaceScan(input: seq<byte>, i: nat): (r: Scan)
    ensures Continues(input, r) && r.emitted == [] && WithinInput(input, r.step)
    decreases |input| - i
  {
    if i >= |input| then Scan([], Next(0, Done))
    else if input[i] == SPACE || input[i] == NEWLINE then SpaceScan(input, i + 1)
    else if input[i] == TAB || input[i] == CR then Scan([], ParseError(input, i))
    else Scan([], Next(i, Base))
  }

  /** One iteration of `run`: the scanner of `state`, started at `start`. */
  function Dispatch(input: seq<byte>, start: nat, state: State): (r: Scan)
    requires state != Done && Entry(input, start, state)
    ensures Continues(input, r) && WithinInput(input, r.step)
  {
    match state
    case Base => BaseScan(input, start)
    case InColor => ColorScan(input, start, 1)
    case InComment => CommentScan(input, start + 2)
    case InIdent => IdentScan(input, start, start + 1)
    case InNumber => NumberScan(input, start, start + 1, false)
    case InRawString => RawStringScan(input, start, start + 3)
    case InString => StringScan(input, start, start + 1, false)
    case Space => SpaceScan(input, start)
  }

  /** `run` from the given start, state and tokens, allowing at most `fuel`
      scanner calls. An error discards the tokens collected so far. */
  function RunFrom(input: seq<byte>, start: nat, state: State, tokens: seq<Span>, fuel: nat): (r: LexResult)
    requires Entry(input, start, state)
    ensures r.Tokens? ==> tokens <= r.spans
    ensures r.Failed? ==> r.error.start < r.error.end <= |input|
    ensures r.Panicked? ==> r.at < |input|
    decreases fuel
  {
    if state == Done then Tokens(tokens)
    else if fuel == 0 then OutOfFuel
    else
      var s := Dispatch(input, start, state);
      match s.step
      case Next(next, q) => RunFrom(input, next, q, tokens + s.emitted, fuel - 1)
      case Fail(e) => Failed(e)
      case Panic(at) => Panicked(at)
  }

  /** `lex(input)` with at most `fuel` scanner calls. */
  function Lexed(input: seq<byte>, fuel: nat): (r: LexResult)
    ensures r.Failed? ==> r.error.start < r.error.end <= |input|
    ensures r.Panicked? ==> r.at < |input|
    ensures |input| == 0 && fuel > 0 ==> r == Tokens([])
  {
    // On an empty input the one scan of Base goes straight to Done.
    assert |input| == 0 && fuel > 0 ==> RunFrom(input, 0, Base, [], fuel) == RunFrom(input, 0, Done, [] + [], fuel - 1);
    RunFrom(input, 0, Base, [], fuel)
  }

  /** The lexer state of src/lexer.rs: the input, the start of the current
      token, the current state and the tokens pushed so far. */
  class Lexer {
    const input: seq<byte>
    var start: nat
    var state: State
    var tokens: seq<Span>

    /** The entry condition of the current state holds. */
    ghost predicate Valid()
      reads this
    {
      Entry(input, start, state)
    }

    constructor (input: seq<byte>)
      ensures this.input == input && start == 0 && state == Base && tokens == []
      ensures Valid()
    {
      this.input := input;
      start := 0;
      state := Base;
      tokens := [];
    }

    /** Runs the state machine until `Done`, an error, or `fuel` scanner calls. */
    method Run(fuel: nat) returns (r: LexResult)
      requires Valid()
      modifies this
      ensures r == RunFrom(input, old(start), old(state), old(tokens), fuel)
    {
      var f := fuel;
      while state != Done
        invariant Valid()
        invariant RunFrom(input, start, state, tokens, f) == RunFrom(input, old(start), old(state), old(tokens), fuel)
        decreases f
      {
        if f == 0 {
          return OutOfFuel;
        }
        var step := StepOnce();
        match step {
          case Next(next, q) =>
            start := next;
            state := q;
          case Fail(e) =>
            return Failed(e);
          case Panic(at) =>
            return Panicked(at);
        }
        f := f - 1;
      }
      return Tokens(tokens);
    }

    /** The body of `run`: the scanner of the current state. */
    method StepOnce() returns (step: Step)
      requires Valid() && state != Done
      modifies this`tokens, this`start
      ensures var s := Dispatch(input, old(start), state);
        tokens == old(tokens) + s.emitted && step == s.step
      ensures state == Base ==> var s := Dispatch(input, old(start), state);
        start == if s.emitted == [] then old(start) else s.emitted[|s.emitted| - 1].end
      ensures state == InNumber ==> var s := Dispatch(input, old(start), state);
        start == if |s.emitted| == 2 && s.emitted[1].token in {UnitH, UnitW} then s.emitted[1].end else old(start)
      ensures state !in {Base, InNumber} ==> start == old(start)
    {
      match state {
        case Base => step := LexBase();
        case InColor => step := LexColor();
        case InComment => step := LexComment();
        case InIdent => step := LexIdent();
        case InNumber => step := LexNumber();
        case InRawString => step := LexRawString();
        case InString => step := LexString();
        case Space => step := LexSpace();
      }
    }

    /** Whether the byte sequence `expected` occurs at index `at`. */
    method HasAt(at: nat, expected: seq<byte>) returns (r: bool)
      ensures r == Occurs(input, at, expected)
    {
      if at + |expected| > |input| {
        return false;
      }
      var k := 0;
      while k < |expected|
        invariant 0 <= k <= |expected|
        invariant forall j :: 0 <= j < k ==> input[at + j] == expected[j]
      {
        if input[at + k] != expected[k] {
          assert input[at..at + |expected|][k] != expected[k];
          return false;
        }
        k := k + 1;
      }
      assert input[at..at + |expected|] == expected;
      return true;
    }

    /** Pushes a single-byte token and sets the start of the next token past it. */
    method PushSingle(at: nat, tok: Token)
      modifies this`tokens, this`start
      ensures tokens == old(tokens) + [Span(at, tok, at + 1)]
      ensures start == at + 1
    {
      tokens := tokens + [Span(at, tok, at + 1)];
      start := at + 1;
    }

    method LexBase() returns (r: Step)
      modifies this`tokens, this`start
      ensures var s := BaseScan(input, old(start));
        && tokens == old(tokens) + s.emitted
        && r == s.step
        && start == if s.emitted == [] then old(start) else s.emitted[|s.emitted| - 1].end
    {
      var i := start;
      ghost var pushed: seq<Span> := [];
      while i < |input|
        invariant old(start) <= i
        invariant tokens == old(tokens) + pushed
        invariant BaseScan(input, old(start)) == Scan(pushed + BaseScan(input, i).emitted, BaseScan(input, i).step)
        invariant start == if pushed == [] then old(start) else pushed[|pushed| - 1].end
        decreases |input| - i
      {
        var action := MatchBase(i);
        if action.Exit? {
          BaseLoopExit(input, old(start), i, pushed, action.step);
          return action.step;
        }
        BaseLoopStep(input, old(start), i, pushed, action.token);
        PushSingle(i, action.token);
        pushed := pushed + [Span(i, action.token, i + 1)];
        i := i + 1;
      }
      BaseLoopEnd(input, old(start), i, pushed);
      return Next(0, Done);
    }

    /** The match on the byte at `i` in the loop of lex_base. */
    method MatchBase(i: nat) returns (action: Action)
      requires i < |input|
      ensures action == BaseAction(input, i)
    {
      var b := input[i];
      // The two bytes with a lookahead: "//" starts a comment, "---" a raw string.
      var comment, raw := false, false;
      if b == SLASH {
        comment := HasAt(i + 1, [SLASH]);
      } else if b == DASH {
        raw := HasAt(i + 1, [DASH, DASH]);
      }
      var punctuation := Punctuation(b);
      if comment {
        return Exit(Next(i, InComment));
      } else if raw {
        return Exit(Next(i, InRawString));
      } else if b == QUOTE {
        return Exit(Next(i, InString));
      } else if b == SPACE || b == NEWLINE {
        return Exit(Next(i, Space));
      } else if b == HASH {
        return Exit(Next(i, InColor));
      } else if IsAlphabeticOrUnderscore(b) {
        return Exit(Next(i, InIdent));
      } else if IsDigit(b) {
        return Exit(Next(i, InNumber));
      } else if punctuation.Some? {
        // A single-byte token; Base goes on with the next byte.
        return Emit(punctuation.value);
      } else if b == 0xef || b == 0xfe || b == 0xff || b == 0x00 {
        // The start of a byte order mark, or a stray byte.
        return Exit(EncodingError(input, i));
      } else {
        return Exit(ParseError(input, i));
      }
    }

    method LexColor() returns (r: Step)
      requires Entry(input, start, InColor)
      modifies this`tokens
      ensures tokens == old(tokens) + ColorScan(input, start, 1).emitted
      ensures r == ColorScan(input, start, 1).step
    {
      var i := 1;
      while i < |input| - start
        invariant 1 <= i <= 7 && i <= |input| - start
        invariant ColorScan(input, start, i) == ColorScan(input, start, 1)
        invariant tokens == old(tokens)
        decreases 7 - i
      {
        var startI := start + i;
        var c := input[startI];
        if i < 7 {
          if IsHexadecimal(c) {
            i := i + 1;
          } else {
            return Fail(LexError(startI, startI + 1, ExpectedHexDigit));
          }
        } else if IsHexadecimal(c) {
          return Fail(LexError(start, startI + 1, TooManyHexDigits));
        } else if IsAlphanumericOrUnderscore(c) {
          return Fail(LexError(start, startI + 1, ExtraAlphanumeric));
        } else {
          tokens := tokens + [Span(start, Color, i)];
          return Next(i, Base);
        }
      }
      tokens := tokens + [Span(start, Color, |input|)];
      return Next(0, Done);
    }

    method LexComment() returns (r: Step)
      requires Entry(input, start, InComment)
      ensures r == CommentScan(input, start + 2).step
    {
      var i := start + 2;
      while i < |input|
        invariant CommentScan(input, i) == CommentScan(input, start + 2)
        decreases |input| - i
      {
        if input[i] == NEWLINE {
          return Next(i + 1, Space);
        }
        i := i + 1;
      }
      return Next(0, Done);
    }

    method LexIdent() returns (r: Step)
      requires Entry(input, start, InIdent)
      modifies this`tokens
      ensures tokens == old(tokens) + IdentScan(input, start, start + 1).emitted
      ensures r == IdentScan(input, start, start + 1).step
    {
      var i := start + 1;
      while i < |input|
        invariant IdentScan(input, start, i) == IdentScan(input, start, start + 1)
        invariant tokens == old(tokens)
        decreases |input| - i
      {
        if !IsAlphanumericOrUnderscore(input[i]) {
          tokens := tokens + [Span(start, Ident, i)];
          return Next(i, Base);
        }
        i := i + 1;
      }
      tokens := tokens + [Span(start, Ident, |input|)];
      return Next(0, Done);
    }

    method LexNumber() returns (r: Step)
      requires Entry(input, start, InNumber)
      modifies this`tokens, this`start
      ensures var s := NumberScan(input, old(start), old(start) + 1, false);
        && tokens == old(tokens) + s.emitted
        && r == s.step
        && start == if |s.emitted| == 2 && s.emitted[1].token in {UnitH, UnitW} then s.emitted[1].end else old(start)
    {
      var periodSeen := false;
      var i := start + 1;
      while i < |input|
        invariant NumberScan(input, start, i, periodSeen) == NumberScan(input, old(start), old(start) + 1, false)
        invariant tokens == old(tokens) && start == old(start)
        decreases |input| - i
      {
        var c := input[i];
        if IsDigit(c) {
          i := i + 1;
          continue;
        }
        if c == PERIOD && !periodSeen {
          periodSeen := true;
          i := i + 1;
          continue;
        }
        if c == 'e' as byte {
          var em := HasAt(i + 1, ['m' as byte]);
          if em {
            tokens := tokens + [Span(start, Number, i)];
            tokens := tokens + [Span(i, UnitEm, i + 2)];
            return Next(i + 2, Base);
          }
        }
        if c == 'p' as byte {
          var pt := HasAt(i + 1, ['t' as byte]);
          if pt {
            tokens := tokens + [Span(start, Number, i)];
            tokens := tokens + [Span(i, UnitPt, i + 2)];
            return Next(i + 2, Base);
          }
        }
        if c == 'h' as byte {
          tokens := tokens + [Span(start, Number, i)];
          PushSingle(i, UnitH);
          return Next(i + 1, Base);
        } else if c == 'w' as byte {
          tokens := tokens + [Span(start, Number, i)];
          PushSingle(i, UnitW);
          return Next(i + 1, Base);
        } else {
          tokens := tokens + [Span(start, Number, i)];
          return Next(i, Base);
        }
      }
      tokens := tokens + [Span(start, Number, |input|)];
      return Next(0, Done);
    }

    method LexRawString() returns (r: Step)
      requires Entry(input, start, InRawString)
      modifies this`tokens
      ensures tokens == old(tokens) + RawStringScan(input, start, start + 3).emitted
      ensures r == RawStringScan(input, start, start + 3).step
    {
      var i := start + 3;
      while i < |input|
        invariant RawStringScan(input, start, i) == RawStringScan(input, start, start + 3)
        invariant tokens == old(tokens)
        decreases |input| - i
      {
        if input[i] == DASH {
          var closing := HasAt(i + 1, [DASH, DASH]);
          if closing {
            tokens := tokens + [Span(start, RawString, i + 3)];
            return Next(i + 3, Base);
          }
        }
        i := i + 1;
      }
      return Fail(LexError(start, start + 3, UnterminatedRawString));
    }

    method LexString() returns (r: Step)
      requires Entry(input, start, InString)
      modifies this`tokens
      ensures tokens == old(tokens) + StringScan(input, start, start + 1, false).emitted
      ensures r == StringScan(input, start, start + 1, false).step
    {
      var skipNext := false;
      var i := start + 1;
      while i < |input|
        invariant StringScan(input, start, i, skipNext) == StringScan(input, start, start + 1, false)
        invariant tokens == old(tokens)
        decreases |input| - i
      {
        if skipNext {
          skipNext := false;
        } else if input[i] == BACKSLASH {
          skipNext := true;
        } else if input[i] == QUOTE {
          tokens := tokens + [Span(start, String, i + 1)];
          return Next(i + 1, Base);
        }
        i := i + 1;
      }
      return Fail(LexError(start, start + 1, UnterminatedString));
    }

    method LexSpace() returns (r: Step)
      ensures r == SpaceScan(input, start).step
    {
      var i := start;
      while i < |input|
        invariant SpaceScan(input, i) == SpaceScan(input, start)
        decreases |input| - i
      {
        var b := input[i];
        if b == SPACE || b == NEWLINE {
          i := i + 1;
        } else if b == TAB || b == CR {
          return ParseError(input, i);
        } else {
          return Next(i, Base);
        }
      }
      return Next(0, Done);
    }
  }

  /** lex: runs a fresh lexer over the whole input. */
  method Lex(input: seq<byte>, fuel: nat) returns (r: LexResult)
    ensures r == Lexed(input, fuel)
  {
    var lexer := new Lexer(input);
    r := lexer.Run(fuel);
  }
}
