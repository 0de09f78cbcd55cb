/** What the scanners of src/lexer.rs promise, stated about the scan
    functions of module Lexer (which the scanner methods are proved equal to),
    and the unit tests of src/lexer.rs. */
module LexerTheory {
  import opened Wrappers
  import opened Lexer

  const DASHES: seq<byte> := [DASH, DASH, DASH]

  predicate Blank(b: byte) {
    b == SPACE || b == NEWLINE
  }

  /** Every byte in [from, to) satisfies the byte class. */
  predicate AllBlank(input: seq<byte>, from: nat, to: nat)
    requires to <= |input|
  {
    forall k :: from <= k < to ==> Blank(input[k])
  }

  predicate AllHexadecimal(input: seq<byte>, from: nat, to: nat)
    requires to <= |input|
  {
    forall k :: from <= k < to ==> IsHexadecimal(input[k])
  }

  predicate AllIdentifierBytes(input: seq<byte>, from: nat, to: nat)
    requires to <= |input|
  {
    forall k :: from <= k < to ==> IsAlphanumericOrUnderscore(input[k])
  }

  predicate NoNewline(input: seq<byte>, from: nat, to: nat)
    requires to <= |input|
  {
    forall k :: from <= k < to ==> input[k] != NEWLINE
  }

  predicate IsKeyword(t: Token) {
    t in {KwAt, KwFunction, KwImport, KwPut, KwReturn}
  }

  // Occurrences.

  /** Matching a sequence that starts with `b` is matching `b`, then the rest. */
  lemma OccursCons(input: seq<byte>, at: nat, b: byte, rest: seq<byte>)
    ensures Occurs(input, at, [b] + rest) <==> at < |input| && input[at] == b && Occurs(input, at + 1, rest)
  {
    if at < |input| && at + 1 + |rest| <= |input| {
      assert input[at..at + 1 + |rest|] == [input[at]] + input[at + 1..at + 1 + |rest|];
    }
  }

  /** Matching a sequence implies matching each of its prefixes. */
  lemma OccursPrefix(input: seq<byte>, at: nat, s: seq<byte>, t: seq<byte>)
    requires Occurs(input, at, s + t)
    ensures Occurs(input, at, s)
  {
    assert input[at..at + |s|] == (s + t)[..|s|];
  }

  // Whitespace and the Space state.

  /** Space consumes spaces and newlines and nothing else. At the first other
      byte it reports a tab or carriage return as an error at that byte, and
      otherwise hands the byte back to Base; at end of input it is done. */
  lemma {:induction false} SpaceRun(input: seq<byte>, i: nat)
    requires i <= |input|
    ensures var r := SpaceScan(input, i);
      && !r.step.Panic?
      && (r.step == Next(0, Done) <==> AllBlank(input, i, |input|))
      && (r.step.Next? && r.step.state == Base ==>
            var j := r.step.start;
            i <= j < |input| && AllBlank(input, i, j) && !Blank(input[j]) && input[j] != TAB && input[j] != CR)
      && (r.step.Fail? ==>
            var j := r.step.error.start;
            && i <= j < |input| && AllBlank(input, i, j)
            && (input[j] == TAB || input[j] == CR)
            && r.step.error == LexError(j, j + 1, if input[j] == TAB then TabCharacter else CarriageReturn))
      && (r.step.Next? ==> r.step.state in {Base, Done})
    decreases |input| - i
  {
    if i < |input| && Blank(input[i]) {
      SpaceRun(input, i + 1);
    }
  }

  // Comments.

  /** A comment emits no token. It ends at the first newline at or after `i`,
      after which lexing resumes in Space; with no newline, lexing is done. */
  lemma {:induction false} CommentRun(input: seq<byte>, i: nat)
    requires i <= |input|
    ensures var r := CommentScan(input, i);
      && r.emitted == []
      && r.step.Next? && r.step.state in {Space, Done}
      && (r.step.state == Done <==> NoNewline(input, i, |input|))
      && (r.step.state == Done ==> r.step.start == 0)
      && (r.step.state == Space ==>
            var j := r.step.start;
            i < j <= |input| && input[j - 1] == NEWLINE && NoNewline(input, i, j - 1))
    decreases |input| - i
  {
    if i < |input| && input[i] != NEWLINE {
      CommentRun(input, i + 1);
    }
  }

  // Identifiers.

  lemma {:induction false} IdentRun(input: seq<byte>, start: nat, i: nat)
    requires start < i <= |input| && AllIdentifierBytes(input, start + 1, i)
    ensures var r := IdentScan(input, start, i);
      && |r.emitted| == 1 && r.emitted[0].start == start && r.emitted[0].token == Ident
      && var e := r.emitted[0].end;
      && i <= e <= |input| && AllIdentifierBytes(input, start + 1, e)
      && (e < |input| ==> !IsAlphanumericOrUnderscore(input[e]) && r.step == Next(e, Base))
      && (e == |input| ==> r.step == Next(0, Done))
    decreases |input| - i
  {
    if i < |input| && IsAlphanumericOrUnderscore(input[i]) {
      IdentRun(input, start, i + 1);
    }
  }

  /** An identifier token is the maximal run of letters, digits and
      underscores that starts at a letter or underscore. */
  lemma IdentToken(input: seq<byte>, start: nat)
    requires Entry(input, start, InIdent)
    ensures var r := Dispatch(input, start, InIdent);
      && |r.emitted| == 1 && r.emitted[0].start == start && r.emitted[0].token == Ident
      && var e := r.emitted[0].end;
      && start < e <= |input| && AllIdentifierBytes(input, start, e)
      && (e < |input| ==> !IsAlphanumericOrUnderscore(input[e]) && r.step == Next(e, Base))
      && (e == |input| ==> r.step == Next(0, Done))
  {
    IdentRun(input, start, start + 1);
  }

  // Numbers.

  predicate DigitsAndPeriods(input: seq<byte>, from: nat, to: nat)
    requires to <= |input|
  {
    forall k :: from <= k < to ==> IsDigit(input[k]) || input[k] == PERIOD
  }

  predicate HasPeriod(input: seq<byte>, from: nat, to: nat)
    requires to <= |input|
  {
    exists k :: from <= k < to && input[k] == PERIOD
  }

  predicate AtMostOnePeriod(input: seq<byte>, from: nat, to: nat)
    requires to <= |input|
  {
    forall j, k :: from <= j < k < to && input[j] == PERIOD ==> input[k] != PERIOD
  }

  /** What follows a number token that ends at `e`: a unit suffix, which
      becomes its own token, or any other byte, which Base inspects again. */
  function NumberSuffix(input: seq<byte>, start: nat, e: nat): Scan
    requires e <= |input|
  {
    var number := Span(start, Number, e);
    if e == |input| then Scan([number], Next(0, Done))
    else if Occurs(input, e, ['e' as byte, 'm' as byte]) then Scan([number, Span(e, UnitEm, e + 2)], Next(e + 2, Base))
    else if Occurs(input, e, ['p' as byte, 't' as byte]) then Scan([number, Span(e, UnitPt, e + 2)], Next(e + 2, Base))
    else if input[e] == 'h' as byte then Scan([number, Span(e, UnitH, e + 1)], Next(e + 1, Base))
    else if input[e] == 'w' as byte then Scan([number, Span(e, UnitW, e + 1)], Next(e + 1, Base))
    else Scan([number], Next(e, Base))
  }

  lemma {:induction false} NumberRun(input: seq<byte>, start: nat, i: nat, periodSeen: bool)
    requires start < i <= |input|
    requires DigitsAndPeriods(input, start + 1, i) && AtMostOnePeriod(input, start + 1, i)
    requires periodSeen <==> HasPeriod(input, start + 1, i)
    ensures exists e ::
      && i <= e <= |input|
      && DigitsAndPeriods(input, start + 1, e) && AtMostOnePeriod(input, start + 1, e)
      && (e < |input| ==> !IsDigit(input[e]) && (input[e] == PERIOD ==> HasPeriod(input, start + 1, e)))
      && NumberScan(input, start, i, periodSeen) == NumberSuffix(input, start, e)
    decreases |input| - i
  {
    if i == |input| {
      assert NumberScan(input, start, i, periodSeen) == NumberSuffix(input, start, i);
    } else {
      var c := input[i];
      if IsDigit(c) || (c == PERIOD && !periodSeen) {
        NumberRunExtends(input, start, i, periodSeen);
        NumberRun(input, start, i + 1, periodSeen || c == PERIOD);
      } else {
        NumberRunEnds(input, start, i, periodSeen);
      }
    }
  }

  /** Any other byte ends the number, and what follows is its suffix. */
  lemma NumberRunEnds(input: seq<byte>, start: nat, i: nat, periodSeen: bool)
    requires start < i < |input|
    requires periodSeen <==> HasPeriod(input, start + 1, i)
    requires !IsDigit(input[i]) && !(input[i] == PERIOD && !periodSeen)
    ensures NumberScan(input, start, i, periodSeen) == NumberSuffix(input, start, i)
    ensures input[i] == PERIOD ==> HasPeriod(input, start + 1, i)
  {
    OccursCons(input, i, 'e' as byte, ['m' as byte]);
    OccursCons(input, i, 'p' as byte, ['t' as byte]);
  }

  /** A digit, or the first period, extends the run the number scanner has
      read so far. */
  lemma NumberRunExtends(input: seq<byte>, start: nat, i: nat, periodSeen: bool)
    requires start < i < |input|
    requires DigitsAndPeriods(input, start + 1, i) && AtMostOnePeriod(input, start + 1, i)
    requires periodSeen <==> HasPeriod(input, start + 1, i)
    requires IsDigit(input[i]) || (input[i] == PERIOD && !periodSeen)
    ensures DigitsAndPeriods(input, start + 1, i + 1) && AtMostOnePeriod(input, start + 1, i + 1)
    ensures periodSeen || input[i] == PERIOD <==> HasPeriod(input, start + 1, i + 1)
    ensures NumberScan(input, start, i, periodSeen) == NumberScan(input, start, i + 1, periodSeen || input[i] == PERIOD)
  {
    if input[i] == PERIOD {
      assert HasPeriod(input, start + 1, i + 1);
    } else if HasPeriod(input, start + 1, i + 1) {
      var k :| start + 1 <= k < i + 1 && input[k] == PERIOD;
      assert k < i;
    }
  }

  /** A number is a digit followed by digits and at most one period. It is
      followed by its unit token when a unit suffix (em, pt, h, w) comes
      next; any other byte ends it and is inspected again by Base. */
  lemma NumberToken(input: seq<byte>, start: nat)
    requires Entry(input, start, InNumber)
    ensures exists e ::
      && start < e <= |input|
      && DigitsAndPeriods(input, start + 1, e) && AtMostOnePeriod(input, start + 1, e)
      && (e < |input| ==> !IsDigit(input[e]) && (input[e] == PERIOD ==> HasPeriod(input, start + 1, e)))
      && Dispatch(input, start, InNumber) == NumberSuffix(input, start, e)
  {
    NumberRun(input, start, start + 1, false);
  }

  // Strings.

  /** The first closing quote at or after `i`, where a backslash makes the
      scanner skip the byte after it. */
  function QuoteEnd(input: seq<byte>, i: nat): (r: Option<nat>)
    ensures r.Some? ==> i <= r.value < |input| && input[r.value] == QUOTE
    decreases |input| - i
  {
    if i >= |input| then None
    else if input[i] == BACKSLASH then QuoteEnd(input, i + 2)
    else if input[i] == QUOTE then Some(i)
    else QuoteEnd(input, i + 1)
  }

  /** A string literal from the quote at `start` to its closing quote, or the
      error at the opening quote when there is none. */
  function StringOutcome(start: nat, close: Option<nat>): Scan {
    match close
    case Some(q) => Scan([Span(start, String, q + 1)], Next(q + 1, Base))
    case None => Scan([], Fail(LexError(start, start + 1, UnterminatedString)))
  }

  lemma {:induction false} StringRun(input: seq<byte>, start: nat, i: nat)
    ensures StringScan(input, start, i, false) == StringOutcome(start, QuoteEnd(input, i))
    decreases |input| - i
  {
    if i < |input| {
      if input[i] == BACKSLASH {
        if i + 1 < |input| {
          StringRun(input, start, i + 2);
        }
      } else if input[i] != QUOTE {
        StringRun(input, start, i + 1);
      }
    }
  }

  /** A string token spans from its opening quote through the first quote
      that no backslash skips; an unterminated string is an error at the
      opening quote. */
  lemma StringToken(input: seq<byte>, start: nat)
    requires Entry(input, start, InString)
    ensures Dispatch(input, start, InString) == StringOutcome(start, QuoteEnd(input, start + 1))
    ensures Dispatch(input, start, InString).step.Next? ==>
      var r := Dispatch(input, start, InString);
      r.emitted[0].end == r.step.start && start + 2 <= r.step.start <= |input| && input[r.step.start - 1] == QUOTE
  {
    StringRun(input, start, start + 1);
  }

  // Raw strings.

  lemma {:induction false} RawStringRun(input: seq<byte>, start: nat, i: nat)
    requires start + 3 <= i
    requires forall j :: start + 3 <= j < i ==> !Occurs(input, j, DASHES)
    ensures var r := RawStringScan(input, start, i);
      && (r.step.Next? || r.step.Fail?)
      && (r.step.Fail? <==> forall j :: start + 3 <= j < |input| ==> !Occurs(input, j, DASHES))
      && (r.step.Fail? ==> r == Scan([], Fail(LexError(start, start + 3, UnterminatedRawString))))
      && (r.step.Next? ==>
            var e := r.step.start;
            && r == Scan([Span(start, RawString, e)], Next(e, Base))
            && i + 3 <= e <= |input| && Occurs(input, e - 3, DASHES)
            && forall j :: start + 3 <= j < e - 3 ==> !Occurs(input, j, DASHES))
    decreases |input| - i
  {
    if i < |input| {
      OccursCons(input, i, DASH, [DASH, DASH]);
      if input[i] == DASH && Occurs(input, i + 1, [DASH, DASH]) {
        assert Occurs(input, i, DASHES);
      } else {
        RawStringRun(input, start, i + 1);
      }
    }
  }

  /** A raw string token spans from its opening dashes through the first
      "---" at or after start + 3; without one, the error covers the
      opening dashes. */
  lemma RawStringToken(input: seq<byte>, start: nat)
    requires Entry(input, start, InRawString)
    ensures var r := Dispatch(input, start, InRawString);
      && (r.step.Fail? <==> forall j :: start + 3 <= j < |input| ==> !Occurs(input, j, DASHES))
      && (r.step.Fail? ==> r == Scan([], Fail(LexError(start, start + 3, UnterminatedRawString))))
      && (r.step.Next? ==>
            var e := r.step.start;
            && r == Scan([Span(start, RawString, e)], Next(e, Base))
            && start + 6 <= e <= |input| && Occurs(input, e - 3, DASHES)
            && forall j :: start + 3 <= j < e - 3 ==> !Occurs(input, j, DASHES))
  {
    RawStringRun(input, start, start + 3);
  }

  // Colors.

  lemma {:induction false} ColorRun(input: seq<byte>, start: nat, i: nat)
    requires start < |input| && 1 <= i <= 7
    requires start + i <= |input| && AllHexadecimal(input, start + 1, start + i)
    ensures var r := ColorScan(input, start, i);
      var last := if |input| - start < 7 then |input| else start + 7;
      && (!AllHexadecimal(input, start + 1, last) <==> r.step.Fail? && r.step.error.kind == ExpectedHexDigit)
      && (r.step.Fail? && r.step.error.kind == ExpectedHexDigit ==>
            var p := r.step.error.start;
            && r.emitted == [] && r.step.error.end == p + 1
            && start + i <= p < last && !IsHexadecimal(input[p]) && AllHexadecimal(input, start + 1, p))
      && (AllHexadecimal(input, start + 1, last) && |input| - start <= 7 ==>
            r == Scan([Span(start, Color, |input|)], Next(0, Done)))
      && (AllHexadecimal(input, start + 1, last) && |input| - start > 7 ==>
            var c := input[start + 7];
            r == if IsHexadecimal(c) then Scan([], Fail(LexError(start, start + 8, TooManyHexDigits)))
                 else if IsAlphanumericOrUnderscore(c) then Scan([], Fail(LexError(start, start + 8, ExtraAlphanumeric)))
                 else Scan([Span(start, Color, 7)], Next(7, Base)))
    decreases 7 - i
  {
    if i < |input| - start && i < 7 && IsHexadecimal(input[start + i]) {
      ColorRun(input, start, i + 1);
    }
  }

  /** The color scanner as written. After the '#' it expects six hexadecimal
      digits: a non-hexadecimal byte among them is an error at that byte;
      input that ends among them is accepted as a color up to the end; a
      seventh hexadecimal or identifier byte is an error from the '#' through
      that byte; and otherwise the color token and the restart position are
      the RELATIVE offset 7, which is right only for a color at offset 0. */
  lemma ColorToken(input: seq<byte>, start: nat)
    requires Entry(input, start, InColor)
    ensures var r := Dispatch(input, start, InColor);
      var last := if |input| - start < 7 then |input| else start + 7;
      && (!AllHexadecimal(input, start + 1, last) <==> r.step.Fail? && r.step.error.kind == ExpectedHexDigit)
      && (r.step.Fail? && r.step.error.kind == ExpectedHexDigit ==>
            var p := r.step.error.start;
            && r.emitted == [] && r.step.error.end == p + 1
            && start < p < last && !IsHexadecimal(input[p]) && AllHexadecimal(input, start + 1, p))
      && (AllHexadecimal(input, start + 1, last) && |input| - start <= 7 ==>
            r == Scan([Span(start, Color, |input|)], Next(0, Done)))
      && (AllHexadecimal(input, start + 1, last) && |input| - start > 7 ==>
            var c := input[start + 7];
            r == if IsHexadecimal(c) then Scan([], Fail(LexError(start, start + 8, TooManyHexDigits)))
                 else if IsAlphanumericOrUnderscore(c) then Scan([], Fail(LexError(start, start + 8, ExtraAlphanumeric)))
                 else Scan([Span(start, Color, 7)], Next(7, Base)))
  {
    ColorRun(input, start, 1);
  }

  // Base: single-byte tokens and the bytes it rejects.

  /** The bytes Base recognises: whitespace, the starts of the other states,
      and the punctuation tokens. */
  predicate Recognised(b: byte) {
    b == QUOTE || Blank(b) || b == HASH || IsAlphabeticOrUnderscore(b) || IsDigit(b) || Punctuation(b).Some?
  }

  /** Only space and newline start whitespace; "//" and "---" start a comment
      and a raw string; every unrecognised byte is an error (or the panic of
      make_parse_error) located at that byte. A tab or carriage return is an
      error covering just that byte, and so is every other stray byte except
      the start of a byte order mark, which covers the whole mark. */
  lemma BaseByte(input: seq<byte>, i: nat)
    requires i < |input|
    ensures var b, a := input[i], BaseAction(input, i);
      && (a == Exit(Next(i, Space)) <==> Blank(b))
      && (a == Exit(Next(i, InComment)) <==> Occurs(input, i, [SLASH, SLASH]))
      && (a == Exit(Next(i, InRawString)) <==> Occurs(input, i, DASHES))
      && (a.Emit? <==> Punctuation(b).Some? && !Occurs(input, i, [SLASH, SLASH]) && !Occurs(input, i, DASHES))
      && (a.Emit? ==> a.token == Punctuation(b).value)
      && (Recognised(b) <==> a.Emit? || a.step.Next?)
      && (a.Exit? && a.step.Fail? ==> a.step.error.start == i)
      && (a.Exit? && a.step.Panic? ==> a.step.at == i && b >= 0x80)
      && (b == TAB ==> a == Exit(Fail(LexError(i, i + 1, TabCharacter))))
      && (b == CR ==> a == Exit(Fail(LexError(i, i + 1, CarriageReturn))))
      && (Occurs(input, i, [0xef, 0xbb, 0xbf]) ==> a == Exit(Fail(LexError(i, i + 3, Utf8ByteOrderMark))))
      && (!Recognised(b) && a.step.Fail? && a.step.error.end != i + 1 ==>
            a.step.error.kind in {Utf8ByteOrderMark, Utf16ByteOrderMark, Utf32ByteOrderMark})
  {
    OccursCons(input, i, SLASH, [SLASH]);
    OccursCons(input, i, DASH, [DASH, DASH]);
    if Occurs(input, i, [0xef, 0xbb, 0xbf]) {
      assert input[i] == input[i..i + 3][0] == 0xef;
    }
  }

  /** Base pushes one single-byte token per punctuation byte, at consecutive
      positions, and leaves at the first byte that is not one. */
  lemma {:induction false} BaseRun(input: seq<byte>, i: nat)
    ensures var r := BaseScan(input, i);
      var n := |r.emitted|;
      && (n > 0 ==> i + n <= |input|)
      && (forall k :: 0 <= k < n ==>
            i + k < |input| && BaseAction(input, i + k) == Emit(r.emitted[k].token)
            && r.emitted[k] == Span(i + k, r.emitted[k].token, i + k + 1))
      && (i + n < |input| ==> BaseAction(input, i + n).Exit? && r.step == BaseAction(input, i + n).step)
      && (i + n >= |input| ==> r.step == Next(0, Done))
    decreases |input| - i
  {
    if i < |input| && BaseAction(input, i).Emit? {
      BaseRun(input, i + 1);
    }
  }

  // Byte order marks.

  /** The UTF-16 test runs before the UTF-32 test, so "ff fe 00 00" is
      reported as a UTF-16 mark covering two bytes. */
  lemma Utf16MarkShadowsUtf32(input: seq<byte>, at: nat)
    requires Occurs(input, at, [0xff, 0xfe, 0x00, 0x00])
    ensures EncodingError(input, at) == Fail(LexError(at, at + 2, Utf16ByteOrderMark))
  {
    assert input[at] == input[at..at + 4][0] == 0xff;
    OccursPrefix(input, at, [0xff, 0xfe], [0x00, 0x00]);
  }

  /** Hence only the big-endian UTF-32 mark is ever reported as UTF-32. */
  lemma Utf32MarkIsBigEndian(input: seq<byte>, at: nat)
    requires at < |input|
    ensures EncodingError(input, at).Fail? && EncodingError(input, at).error.kind == Utf32ByteOrderMark
        ==> Occurs(input, at, [0x00, 0x00, 0xfe, 0xff])
  {
    if Occurs(input, at, [0xff, 0xfe, 0x00, 0x00]) {
      Utf16MarkShadowsUtf32(input, at);
    }
  }

  // Keywords.

  lemma {:induction false} BaseScanNoKeywords(input: seq<byte>, i: nat)
    ensures forall s :: s in BaseScan(input, i).emitted ==> !IsKeyword(s.token)
    decreases |input| - i
  {
    if i < |input| && BaseAction(input, i).Emit? {
      BaseScanNoKeywords(input, i + 1);
    }
  }

  lemma DispatchNoKeywords(input: seq<byte>, start: nat, state: State)
    requires state != Done && Entry(input, start, state)
    ensures forall s :: s in Dispatch(input, start, state).emitted ==> !IsKeyword(s.token)
  {
    match state
    case Base => BaseScanNoKeywords(input, start);
    case InColor => ColorScanKinds(input, start, 1);
    case InIdent => IdentScanKinds(input, start, start + 1);
    case InNumber => NumberScanKinds(input, start, start + 1, false);
    case InRawString => RawStringScanKinds(input, start, start + 3);
    case InString => StringScanKinds(input, start, start + 1, false);
    case InComment =>
    case Space =>
  }

  lemma {:induction false} ColorScanKinds(input: seq<byte>, start: nat, i: nat)
    requires start < |input| && 1 <= i <= 7
    ensures forall s :: s in ColorScan(input, start, i).emitted ==> s.token == Color
    decreases 7 - i
  {
    if i < |input| - start && i < 7 && IsHexadecimal(input[start + i]) {
      ColorScanKinds(input, start, i + 1);
    }
  }

  lemma {:induction false} IdentScanKinds(input: seq<byte>, start: nat, i: nat)
    ensures forall s :: s in IdentScan(input, start, i).emitted ==> s.token == Ident
    decreases |input| - i
  {
    if i < |input| && IsAlphanumericOrUnderscore(input[i]) {
      IdentScanKinds(input, start, i + 1);
    }
  }

  lemma {:induction false} NumberScanKinds(input: seq<byte>, start: nat, i: nat, periodSeen: bool)
    ensures forall s :: s in NumberScan(input, start, i, periodSeen).emitted ==>
      s.token in {Number, UnitEm, UnitPt, UnitH, UnitW}
    decreases |input| - i
  {
    if i < |input| {
      var c := input[i];
      if IsDigit(c) {
        NumberScanKinds(input, start, i + 1, periodSeen);
      } else if c == PERIOD && !periodSeen {
        NumberScanKinds(input, start, i + 1, true);
      }
    }
  }

  lemma {:induction false} RawStringScanKinds(input: seq<byte>, start: nat, i: nat)
    ensures forall s :: s in RawStringScan(input, start, i).emitted ==> s.token == RawString
    decreases |input| - i
  {
    if i < |input| && !(input[i] == DASH && Occurs(input, i + 1, [DASH, DASH])) {
      RawStringScanKinds(input, start, i + 1);
    }
  }

  lemma {:induction false} StringScanKinds(input: seq<byte>, start: nat, i: nat, skipNext: bool)
    ensures forall s :: s in StringScan(input, start, i, skipNext).emitted ==> s.token == String
    decreases |input| - i
  {
    if i < |input| {
      if skipNext {
        StringScanKinds(input, start, i + 1, false);
      } else if input[i] == BACKSLASH {
        StringScanKinds(input, start, i + 1, true);
      } else if input[i] != QUOTE {
        StringScanKinds(input, start, i + 1, false);
      }
    }
  }

  lemma {:induction false} RunFromNoKeywords(input: seq<byte>, start: nat, state: State, tokens: seq<Span>, fuel: nat)
    requires Entry(input, start, state)
    requires forall s :: s in tokens ==> !IsKeyword(s.token)
    ensures RunFrom(input, start, state, tokens, fuel).Tokens? ==>
      forall s :: s in RunFrom(input, start, state, tokens, fuel).spans ==> !IsKeyword(s.token)
    decreases fuel
  {
    if state != Done && fuel > 0 {
      var r := Dispatch(input, start, state);
      if r.step.Next? {
        DispatchNoKeywords(input, start, state);
        RunFromNoKeywords(input, r.step.start, r.step.state, tokens + r.emitted, fuel - 1);
      }
    }
  }

  /** The lexer never produces a keyword token: keywords reach the parser as
      identifiers. */
  lemma LexNeverEmitsKeywords(input: seq<byte>, fuel: nat)
    ensures Lexed(input, fuel).Tokens? ==> forall s :: s in Lexed(input, fuel).spans ==> !IsKeyword(s.token)
  {
    RunFromNoKeywords(input, 0, Base, [], fuel);
  }

  // The unit tests of src/lexer.rs, with the inputs spelled as bytes.

  /** One iteration of `run` that moves on to the next state. */
  lemma RunStep(input: seq<byte>, start: nat, state: State, tokens: seq<Span>, fuel: nat, emitted: seq<Span>, next: nat, q: State)
    requires state != Done && Entry(input, start, state) && fuel > 0
    requires Dispatch(input, start, state) == Scan(emitted, Next(next, q))
    ensures Entry(input, next, q)
    ensures RunFrom(input, start, state, tokens, fuel) == RunFrom(input, next, q, tokens + emitted, fuel - 1)
  {
  }

  /** "foo bar" */
  lemma LexesTwoIdentifiers()
    ensures Lexed([0x66, 0x6f, 0x6f, 0x20, 0x62, 0x61, 0x72], 10) == Tokens([Span(0, Ident, 3), Span(4, Ident, 7)])
  {
    LexesTwoIdentifiersOn([0x66, 0x6f, 0x6f, 0x20, 0x62, 0x61, 0x72]);
  }

  lemma LexesTwoIdentifiersOn(input: seq<byte>)
    requires input == [0x66, 0x6f, 0x6f, 0x20, 0x62, 0x61, 0x72]
    ensures Lexed(input, 10) == Tokens([Span(0, Ident, 3), Span(4, Ident, 7)])
  {
    LexesTwoIdentifiersHead(input);
    LexesTwoIdentifiersTail(input);
    var t: seq<Span> := [Span(0, Ident, 3)];
    RunStep(input, 0, Base, [], 10, [], 0, InIdent);
    RunStep(input, 0, InIdent, [], 9, t, 3, Base);
    RunStep(input, 3, Base, t, 8, [], 3, Space);
    RunStep(input, 3, Space, t, 7, [], 4, Base);
    RunStep(input, 4, Base, t, 6, [], 4, InIdent);
    RunStep(input, 4, InIdent, t, 5, [Span(4, Ident, 7)], 0, Done);
  }

  lemma LexesTwoIdentifiersHead(input: seq<byte>)
    requires input == [0x66, 0x6f, 0x6f, 0x20, 0x62, 0x61, 0x72]
    ensures Dispatch(input, 0, Base) == Scan([], Next(0, InIdent))
    ensures Dispatch(input, 0, InIdent) == Scan([Span(0, Ident, 3)], Next(3, Base))
    ensures Dispatch(input, 3, Base) == Scan([], Next(3, Space))
  {
    assert Dispatch(input, 0, Base) == Scan([], Next(0, InIdent)) by {
      assert input[0] == 'f' as byte;
    }
    assert Dispatch(input, 0, InIdent) == Scan([Span(0, Ident, 3)], Next(3, Base)) by {
      assert input[1] == input[2] == 'o' as byte && input[3] == SPACE;
      assert IdentScan(input, 0, 2) == IdentScan(input, 0, 3);
    }
    assert Dispatch(input, 3, Base) == Scan([], Next(3, Space)) by {
      assert input[3] == SPACE;
    }
  }

  lemma LexesTwoIdentifiersTail(input: seq<byte>)
    requires input == [0x66, 0x6f, 0x6f, 0x20, 0x62, 0x61, 0x72]
    ensures Dispatch(input, 3, Space) == Scan([], Next(4, Base))
    ensures Dispatch(input, 4, Base) == Scan([], Next(4, InIdent))
    ensures Dispatch(input, 4, InIdent) == Scan([Span(4, Ident, 7)], Next(0, Done))
  {
    assert Dispatch(input, 3, Space) == Scan([], Next(4, Base)) by {
      assert input[3] == SPACE && input[4] == 'b' as byte;
      assert SpaceScan(input, 4) == Scan([], Next(4, Base));
    }
    assert Dispatch(input, 4, Base) == Scan([], Next(4, InIdent)) by {
      assert input[4] == 'b' as byte;
    }
    assert Dispatch(input, 4, InIdent) == Scan([Span(4, Ident, 7)], Next(0, Done)) by {
      assert input[5] == 'a' as byte && input[6] == 'r' as byte && |input| == 7;
      assert IdentScan(input, 4, 6) == IdentScan(input, 4, 7);
    }
  }

  /** foo "bar" */
  lemma LexesStringAfterIdentifier()
    ensures Lexed([0x66, 0x6f, 0x6f, 0x20, 0x22, 0x62, 0x61, 0x72, 0x22], 10) == Tokens([Span(0, Ident, 3), Span(4, String, 9)])
  {
    LexesStringAfterIdentifierOn([0x66, 0x6f, 0x6f, 0x20, 0x22, 0x62, 0x61, 0x72, 0x22]);
  }

  lemma LexesStringAfterIdentifierOn(input: seq<byte>)
    requires input == [0x66, 0x6f, 0x6f, 0x20, 0x22, 0x62, 0x61, 0x72, 0x22]
    ensures Lexed(input, 10) == Tokens([Span(0, Ident, 3), Span(4, String, 9)])
  {
    LexesStringAfterIdentifierHead(input);
    LexesStringAfterIdentifierTail(input);
    var t: seq<Span> := [Span(0, Ident, 3)];
    RunStep(input, 0, Base, [], 10, [], 0, InIdent);
    RunStep(input, 0, InIdent, [], 9, t, 3, Base);
    RunStep(input, 3, Base, t, 8, [], 3, Space);
    RunStep(input, 3, Space, t, 7, [], 4, Base);
    RunStep(input, 4, Base, t, 6, [], 4, InString);
    RunStep(input, 4, InString, t, 5, [Span(4, String, 9)], 9, Base);
    RunStep(input, 9, Base, t + [Span(4, String, 9)], 4, [], 0, Done);
  }

  lemma LexesStringAfterIdentifierHead(input: seq<byte>)
    requires input == [0x66, 0x6f, 0x6f, 0x20, 0x22, 0x62, 0x61, 0x72, 0x22]
    ensures Dispatch(input, 0, Base) == Scan([], Next(0, InIdent))
    ensures Dispatch(input, 0, InIdent) == Scan([Span(0, Ident, 3)], Next(3, Base))
    ensures Dispatch(input, 3, Base) == Scan([], Next(3, Space))
  {
    assert Dispatch(input, 0, Base) == Scan([], Next(0, InIdent)) by {
      assert input[0] == 'f' as byte;
    }
    assert Dispatch(input, 0, InIdent) == Scan([Span(0, Ident, 3)], Next(3, Base)) by {
      assert input[1] == input[2] == 'o' as byte && input[3] == SPACE;
      assert IdentScan(input, 0, 2) == IdentScan(input, 0, 3);
    }
    assert Dispatch(input, 3, Base) == Scan([], Next(3, Space)) by {
      assert input[3] == SPACE;
    }
  }

  lemma LexesStringAfterIdentifierTail(input: seq<byte>)
    requires input == [0x66, 0x6f, 0x6f, 0x20, 0x22, 0x62, 0x61, 0x72, 0x22]
    ensures Dispatch(input, 3, Space) == Scan([], Next(4, Base))
    ensures Dispatch(input, 4, Base) == Scan([], Next(4, InString))
    ensures Dispatch(input, 4, InString) == Scan([Span(4, String, 9)], Next(9, Base))
  {
    assert Dispatch(input, 3, Space) == Scan([], Next(4, Base)) by {
      assert input[3] == SPACE && input[4] == QUOTE;
      assert SpaceScan(input, 4) == Scan([], Next(4, Base));
    }
    assert Dispatch(input, 4, Base) == Scan([], Next(4, InString)) by {
      assert input[4] == QUOTE;
    }
    assert Dispatch(input, 4, InString) == Scan([Span(4, String, 9)], Next(9, Base)) by {
      StringRun(input, 4, 5);
      assert input[5] == 'b' as byte && input[6] == 'a' as byte && input[7] == 'r' as byte && input[8] == QUOTE;
      assert QuoteEnd(input, 5) == QuoteEnd(input, 7);
      assert QuoteEnd(input, 7) == QuoteEnd(input, 8) == Some(8);
    }
  }

  /** "bar\"baz" */
  lemma LexesStringWithEscapedQuote()
    ensures Lexed([0x22, 0x62, 0x61, 0x72, 0x5c, 0x22, 0x62, 0x61, 0x7a, 0x22], 10) == Tokens([Span(0, String, 10)])
  {
    LexesStringWithEscapedQuoteOn([0x22, 0x62, 0x61, 0x72, 0x5c, 0x22, 0x62, 0x61, 0x7a, 0x22]);
  }

  lemma LexesStringWithEscapedQuoteOn(input: seq<byte>)
    requires input == [0x22, 0x62, 0x61, 0x72, 0x5c, 0x22, 0x62, 0x61, 0x7a, 0x22]
    ensures Lexed(input, 10) == Tokens([Span(0, String, 10)])
  {
    assert Dispatch(input, 0, Base) == Scan([], Next(0, InString)) by {
      assert input[0] == QUOTE;
    }
    assert Dispatch(input, 0, InString) == Scan([Span(0, String, 10)], Next(10, Base)) by {
      StringRun(input, 0, 1);
      assert input[1] == 'b' as byte && input[2] == 'a' as byte && input[3] == 'r' as byte;
      assert input[4] == BACKSLASH;
      assert input[6] == 'b' as byte && input[7] == 'a' as byte && input[8] == 'z' as byte && input[9] == QUOTE;
      assert QuoteEnd(input, 9) == Some(9);
      assert QuoteEnd(input, 8) == QuoteEnd(input, 9);
      assert QuoteEnd(input, 7) == QuoteEnd(input, 8);
      assert QuoteEnd(input, 6) == QuoteEnd(input, 7);
      assert QuoteEnd(input, 4) == QuoteEnd(input, 6);
      assert QuoteEnd(input, 3) == QuoteEnd(input, 4);
      assert QuoteEnd(input, 2) == QuoteEnd(input, 3);
      assert QuoteEnd(input, 1) == QuoteEnd(input, 2);
    }
    assert Dispatch(input, 10, Base) == Scan([], Next(0, Done));
    var none: seq<Span> := [];
    var t := [Span(0, String, 10)];
    assert none + none == none && none + t == t && t + none == t;
    RunStep(input, 0, Base, none, 10, none, 0, InString);
    RunStep(input, 0, InString, none, 9, t, 10, Base);
    RunStep(input, 10, Base, t, 8, none, 0, Done);
  }

  /** "foo\n// This is comment\nbar" */
  lemma StripsComment()
    ensures Lexed([0x66, 0x6f, 0x6f, 0x0a, 0x2f, 0x2f, 0x20, 0x54, 0x68, 0x69, 0x73, 0x20, 0x69, 0x73, 0x20, 0x63, 0x6f, 0x6d, 0x6d, 0x65, 0x6e, 0x74, 0x0a, 0x62, 0x61, 0x72], 10) == Tokens([Span(0, Ident, 3), Span(23, Ident, 26)])
  {
    StripsCommentOn([0x66, 0x6f, 0x6f, 0x0a, 0x2f, 0x2f, 0x20, 0x54, 0x68, 0x69, 0x73, 0x20, 0x69, 0x73, 0x20, 0x63, 0x6f, 0x6d, 0x6d, 0x65, 0x6e, 0x74, 0x0a, 0x62, 0x61, 0x72]);
  }

  lemma StripsCommentOn(input: seq<byte>)
    requires input == [0x66, 0x6f, 0x6f, 0x0a, 0x2f, 0x2f, 0x20, 0x54, 0x68, 0x69, 0x73, 0x20, 0x69, 0x73, 0x20, 0x63, 0x6f, 0x6d, 0x6d, 0x65, 0x6e, 0x74, 0x0a, 0x62, 0x61, 0x72]
    ensures Lexed(input, 10) == Tokens([Span(0, Ident, 3), Span(23, Ident, 26)])
  {
    StripsCommentBefore(input);
    StripsCommentAfter(input);
  }

  /** The run up to the comment: "foo" and the newline. */
  lemma StripsCommentBefore(input: seq<byte>)
    requires input == [0x66, 0x6f, 0x6f, 0x0a, 0x2f, 0x2f, 0x20, 0x54, 0x68, 0x69, 0x73, 0x20, 0x69, 0x73, 0x20, 0x63, 0x6f, 0x6d, 0x6d, 0x65, 0x6e, 0x74, 0x0a, 0x62, 0x61, 0x72]
    ensures Entry(input, 4, InComment)
    ensures Lexed(input, 10) == RunFrom(input, 4, InComment, [Span(0, Ident, 3)], 5)
  {
    StripsCommentHead(input);
    StripsCommentMiddle(input);
    var t: seq<Span> := [Span(0, Ident, 3)];
    RunStep(input, 0, Base, [], 10, [], 0, InIdent);
    RunStep(input, 0, InIdent, [], 9, t, 3, Base);
    RunStep(input, 3, Base, t, 8, [], 3, Space);
    RunStep(input, 3, Space, t, 7, [], 4, Base);
    RunStep(input, 4, Base, t, 6, [], 4, InComment);
    assert ([] + t == t) && (t + [] == t);
  }

  /** The run from the comment: it is skipped, then "bar". */
  lemma StripsCommentAfter(input: seq<byte>)
    requires input == [0x66, 0x6f, 0x6f, 0x0a, 0x2f, 0x2f, 0x20, 0x54, 0x68, 0x69, 0x73, 0x20, 0x69, 0x73, 0x20, 0x63, 0x6f, 0x6d, 0x6d, 0x65, 0x6e, 0x74, 0x0a, 0x62, 0x61, 0x72]
    requires Entry(input, 4, InComment)
    ensures RunFrom(input, 4, InComment, [Span(0, Ident, 3)], 5) == Tokens([Span(0, Ident, 3), Span(23, Ident, 26)])
  {
    StripsCommentText(input);
    StripsCommentTail(input);
    var t: seq<Span> := [Span(0, Ident, 3)];
    RunStep(input, 4, InComment, t, 5, [], 23, Space);
    RunStep(input, 23, Space, t, 4, [], 23, Base);
    RunStep(input, 23, Base, t, 3, [], 23, InIdent);
    RunStep(input, 23, InIdent, t, 2, [Span(23, Ident, 26)], 0, Done);
  }

  lemma StripsCommentHead(input: seq<byte>)
    requires input == [0x66, 0x6f, 0x6f, 0x0a, 0x2f, 0x2f, 0x20, 0x54, 0x68, 0x69, 0x73, 0x20, 0x69, 0x73, 0x20, 0x63, 0x6f, 0x6d, 0x6d, 0x65, 0x6e, 0x74, 0x0a, 0x62, 0x61, 0x72]
    ensures Dispatch(input, 0, Base) == Scan([], Next(0, InIdent))
    ensures Dispatch(input, 0, InIdent) == Scan([Span(0, Ident, 3)], Next(3, Base))
    ensures Dispatch(input, 3, Base) == Scan([], Next(3, Space))
  {
    assert Dispatch(input, 0, Base) == Scan([], Next(0, InIdent)) by {
      assert input[0] == 'f' as byte;
    }
    assert Dispatch(input, 0, InIdent) == Scan([Span(0, Ident, 3)], Next(3, Base)) by {
      assert input[1] == input[2] == 'o' as byte && input[3] == NEWLINE;
      assert IdentScan(input, 0, 2) == IdentScan(input, 0, 3);
    }
    assert Dispatch(input, 3, Base) == Scan([], Next(3, Space)) by {
      assert input[3] == NEWLINE;
    }
  }

  lemma StripsCommentMiddle(input: seq<byte>)
    requires input == [0x66, 0x6f, 0x6f, 0x0a, 0x2f, 0x2f, 0x20, 0x54, 0x68, 0x69, 0x73, 0x20, 0x69, 0x73, 0x20, 0x63, 0x6f, 0x6d, 0x6d, 0x65, 0x6e, 0x74, 0x0a, 0x62, 0x61, 0x72]
    ensures Dispatch(input, 3, Space) == Scan([], Next(4, Base))
    ensures Dispatch(input, 4, Base) == Scan([], Next(4, InComment))
  {
    assert Dispatch(input, 3, Space) == Scan([], Next(4, Base)) by {
      assert input[3] == NEWLINE && input[4] == SLASH;
      assert SpaceScan(input, 4) == Scan([], Next(4, Base));
    }
    assert Dispatch(input, 4, Base) == Scan([], Next(4, InComment)) by {
      assert input[4] == SLASH && input[5] == SLASH;
      assert input[5..6] == [SLASH];
    }
  }

  lemma StripsCommentText(input: seq<byte>)
    requires input == [0x66, 0x6f, 0x6f, 0x0a, 0x2f, 0x2f, 0x20, 0x54, 0x68, 0x69, 0x73, 0x20, 0x69, 0x73, 0x20, 0x63, 0x6f, 0x6d, 0x6d, 0x65, 0x6e, 0x74, 0x0a, 0x62, 0x61, 0x72]
    ensures Occurs(input, 4, [SLASH, SLASH])
    ensures Dispatch(input, 4, InComment) == Scan([], Next(23, Space))
  {
    assert input[4] == SLASH && input[5] == SLASH;
    assert input[4..6] == [SLASH, SLASH];
    CommentRun(input, 6);
    assert input[22] == NEWLINE;
    assert NoNewline(input, 6, 22);
  }

  lemma StripsCommentTail(input: seq<byte>)
    requires input == [0x66, 0x6f, 0x6f, 0x0a, 0x2f, 0x2f, 0x20, 0x54, 0x68, 0x69, 0x73, 0x20, 0x69, 0x73, 0x20, 0x63, 0x6f, 0x6d, 0x6d, 0x65, 0x6e, 0x74, 0x0a, 0x62, 0x61, 0x72]
    ensures Dispatch(input, 23, Space) == Scan([], Next(23, Base))
    ensures Dispatch(input, 23, Base) == Scan([], Next(23, InIdent))
    ensures Dispatch(input, 23, InIdent) == Scan([Span(23, Ident, 26)], Next(0, Done))
  {
    assert Dispatch(input, 23, Space) == Scan([], Next(23, Base)) by {
      assert input[23] == 'b' as byte;
    }
    assert Dispatch(input, 23, Base) == Scan([], Next(23, InIdent)) by {
      assert input[23] == 'b' as byte;
    }
    assert Dispatch(input, 23, InIdent) == Scan([Span(23, Ident, 26)], Next(0, Done)) by {
      assert input[24] == 'a' as byte && input[25] == 'r' as byte && |input| == 26;
      assert IdentScan(input, 23, 25) == IdentScan(input, 23, 26);
    }
  }

  /** "foo---bar---baz" */
  lemma LexesRawString()
    ensures Lexed([0x66, 0x6f, 0x6f, 0x2d, 0x2d, 0x2d, 0x62, 0x61, 0x72, 0x2d, 0x2d, 0x2d, 0x62, 0x61, 0x7a], 10) == Tokens([Span(0, Ident, 3), Span(3, RawString, 12), Span(12, Ident, 15)])
  {
    LexesRawStringOn([0x66, 0x6f, 0x6f, 0x2d, 0x2d, 0x2d, 0x62, 0x61, 0x72, 0x2d, 0x2d, 0x2d, 0x62, 0x61, 0x7a]);
  }

  lemma LexesRawStringOn(input: seq<byte>)
    requires input == [0x66, 0x6f, 0x6f, 0x2d, 0x2d, 0x2d, 0x62, 0x61, 0x72, 0x2d, 0x2d, 0x2d, 0x62, 0x61, 0x7a]
    ensures Lexed(input, 10) == Tokens([Span(0, Ident, 3), Span(3, RawString, 12), Span(12, Ident, 15)])
  {
    LexesRawStringHead(input);
    LexesRawStringTail(input);
    var t: seq<Span> := [Span(0, Ident, 3)];
    var u: seq<Span> := t + [Span(3, RawString, 12)];
    RunStep(input, 0, Base, [], 10, [], 0, InIdent);
    RunStep(input, 0, InIdent, [], 9, t, 3, Base);
    RunStep(input, 3, Base, t, 8, [], 3, InRawString);
    RunStep(input, 3, InRawString, t, 7, [Span(3, RawString, 12)], 12, Base);
    RunStep(input, 12, Base, u, 6, [], 12, InIdent);
    RunStep(input, 12, InIdent, u, 5, [Span(12, Ident, 15)], 0, Done);
  }

  lemma LexesRawStringHead(input: seq<byte>)
    requires input == [0x66, 0x6f, 0x6f, 0x2d, 0x2d, 0x2d, 0x62, 0x61, 0x72, 0x2d, 0x2d, 0x2d, 0x62, 0x61, 0x7a]
    ensures Dispatch(input, 0, Base) == Scan([], Next(0, InIdent))
    ensures Dispatch(input, 0, InIdent) == Scan([Span(0, Ident, 3)], Next(3, Base))
    ensures Dispatch(input, 3, Base) == Scan([], Next(3, InRawString))
  {
    assert Dispatch(input, 0, Base) == Scan([], Next(0, InIdent)) by {
      assert input[0] == 'f' as byte;
    }
    assert Dispatch(input, 0, InIdent) == Scan([Span(0, Ident, 3)], Next(3, Base)) by {
      assert input[1] == input[2] == 'o' as byte && input[3] == DASH;
      assert IdentScan(input, 0, 2) == IdentScan(input, 0, 3);
    }
    assert Dispatch(input, 3, Base) == Scan([], Next(3, InRawString)) by {
      assert input[3] == DASH && input[4..6] == [DASH, DASH];
    }
  }

  lemma LexesRawStringTail(input: seq<byte>)
    requires input == [0x66, 0x6f, 0x6f, 0x2d, 0x2d, 0x2d, 0x62, 0x61, 0x72, 0x2d, 0x2d, 0x2d, 0x62, 0x61, 0x7a]
    ensures Dispatch(input, 3, InRawString) == Scan([Span(3, RawString, 12)], Next(12, Base))
    ensures Dispatch(input, 12, Base) == Scan([], Next(12, InIdent))
    ensures Dispatch(input, 12, InIdent) == Scan([Span(12, Ident, 15)], Next(0, Done))
  {
    assert input[3..6] == [DASH, DASH, DASH];
    assert Dispatch(input, 3, InRawString) == Scan([Span(3, RawString, 12)], Next(12, Base)) by {
      assert input[6] == 'b' as byte && input[7] == 'a' as byte && input[8] == 'r' as byte;
      assert input[9] == DASH && input[10..12] == [DASH, DASH];
      assert RawStringScan(input, 3, 6) == RawStringScan(input, 3, 8);
      assert RawStringScan(input, 3, 8) == RawStringScan(input, 3, 9);
    }
    assert Dispatch(input, 12, Base) == Scan([], Next(12, InIdent)) by {
      assert input[12] == 'b' as byte;
    }
    assert Dispatch(input, 12, InIdent) == Scan([Span(12, Ident, 15)], Next(0, Done)) by {
      assert input[13] == 'a' as byte && input[14] == 'z' as byte && |input| == 15;
      assert IdentScan(input, 12, 14) == IdentScan(input, 12, 15);
    }
  }

}
