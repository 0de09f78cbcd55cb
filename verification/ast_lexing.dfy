/** What the lexer of src/lexer.rs makes of the text the printers of
    src/ast.rs produce: operators, units and two-digit colours read back as
    the tokens they came from, while the unpadded colour printer produces
    text the lexer rejects. */
module AstLexing {
  import opened Lexer
  import LexerTheory
  import Ast

  /** The bytes of a string whose characters are all below 256. */
  function Bytes(s: string): (r: seq<byte>)
    requires forall i :: 0 <= i < |s| ==> s[i] as int < 256
    ensures |r| == |s| && forall i :: 0 <= i < |s| ==> r[i] as int == s[i] as int
  {
    seq(|s|, i requires 0 <= i < |s| => s[i] as int as byte)
  }

  /** The punctuation token of each operator. */
  function OperatorToken(op: Ast.BinOp): Token {
    match op
    case Add => Plus
    case Sub => Minus
    case Mul => Star
    case Div => Slash
    case Exp => Hat
  }

  /** The unit token of each unit. */
  function UnitToken(u: Ast.Unit): Token {
    match u
    case W => UnitW
    case H => UnitH
    case Em => UnitEm
    case Pt => UnitPt
  }

  /** A printed operator lexes as its own punctuation token. */
  lemma PrintedOperatorLexes(op: Ast.BinOp)
    ensures Lexed(Bytes(Ast.ShowBinOp(op)), 1) == Tokens([Span(0, OperatorToken(op), 1)])
  {
    var input := Bytes(Ast.ShowBinOp(op));
    assert BaseAction(input, 0) == Emit(OperatorToken(op));
    assert BaseScan(input, 1) == Scan([], Next(0, Done));
    assert Dispatch(input, 0, Base) == Scan([Span(0, OperatorToken(op), 1)], Next(0, Done));
    var none: seq<Span> := [];
    assert none + [Span(0, OperatorToken(op), 1)] == [Span(0, OperatorToken(op), 1)];
  }

  predicate AllDigits(s: string) {
    forall i :: 0 <= i < |s| ==> '0' <= s[i] <= '9'
  }

  /** The number scanner passes over the digits that follow the first. */
  lemma {:induction false} NumberSkipsDigits(input: seq<byte>, i: nat, e: nat)
    requires 1 <= i <= e < |input|
    requires forall k :: 1 <= k < e ==> IsDigit(input[k])
    ensures NumberScan(input, 0, i, false) == NumberScan(input, 0, e, false)
    decreases e - i
  {
    if i < e {
      NumberSkipsDigits(input, i + 1, e);
    }
  }

  /** The bytes of a unit's text. */
  function UnitBytes(u: Ast.Unit): (r: seq<byte>)
    ensures |r| == |Ast.ShowUnit(u)| && forall i :: 0 <= i < |r| ==> r[i] as int == Ast.ShowUnit(u)[i] as int
  {
    match u
    case W => ['w' as byte]
    case H => ['h' as byte]
    case Em => ['e' as byte, 'm' as byte]
    case Pt => ['p' as byte, 't' as byte]
  }

  /** At a unit's text the number scanner ends the number and reads the
      unit as its token. */
  lemma NumberWithUnitScan(input: seq<byte>, e: nat, u: Ast.Unit)
    requires 1 <= e <= |input| && input[e..] == UnitBytes(u)
    ensures NumberScan(input, 0, e, false)
         == Scan([Span(0, Number, e), Span(e, UnitToken(u), |input|)], Next(|input|, Base))
  {
    var unit := UnitBytes(u);
    assert input[e] == input[e..][0];
    match u
    case W =>
    case H =>
    case Em =>
      assert input[e + 1] == input[e..][1];
      assert input[e + 1..e + 2] == [input[e + 1]];
    case Pt =>
      assert input[e + 1] == input[e..][1];
      assert input[e + 1..e + 2] == [input[e + 1]];
  }

  /** The bytes of a whole number followed by a unit's text. */
  lemma DigitsThenUnit(digits: string, u: Ast.Unit)
    requires |digits| > 0 && AllDigits(digits)
    ensures forall i :: 0 <= i < |digits + Ast.ShowUnit(u)| ==> (digits + Ast.ShowUnit(u))[i] as int < 256
    ensures var input := Bytes(digits + Ast.ShowUnit(u));
      && (forall k :: 0 <= k < |digits| ==> IsDigit(input[k]))
      && input[|digits|..] == UnitBytes(u)
  {
    var text := digits + Ast.ShowUnit(u);
    var unit := Ast.ShowUnit(u);
    assert forall i :: 0 <= i < |text| ==> text[i] as int < 256 by {
      forall i | 0 <= i < |text| ensures text[i] as int < 256 {
        if i < |digits| { assert text[i] == digits[i]; } else { assert text[i] == unit[i - |digits|]; }
      }
    }
    var input := Bytes(text);
    var e := |digits|;
    forall k | 0 <= k < e ensures IsDigit(input[k]) {
      assert text[k] == digits[k];
    }
    forall k | 0 <= k < |input| - e ensures input[e..][k] == UnitBytes(u)[k] {
      assert text[e + k] == unit[k];
    }
  }

  /** A whole number printed with a unit lexes as a number token followed by
      the unit's token, as the lexer reads units. */
  lemma PrintedUnitLexes(digits: string, u: Ast.Unit)
    requires |digits| > 0 && AllDigits(digits)
    ensures forall i :: 0 <= i < |digits + Ast.ShowUnit(u)| ==> (digits + Ast.ShowUnit(u))[i] as int < 256
    ensures Lexed(Bytes(digits + Ast.ShowUnit(u)), 3)
         == Tokens([Span(0, Number, |digits|), Span(|digits|, UnitToken(u), |digits| + |Ast.ShowUnit(u)|)])
  {
    DigitsThenUnit(digits, u);
    var input := Bytes(digits + Ast.ShowUnit(u));
    var e := |digits|;
    var n := |input|;
    NumberWithUnitScan(input, e, u);
    NumberSkipsDigits(input, 1, e);
    var tokens := [Span(0, Number, e), Span(e, UnitToken(u), n)];
    assert Dispatch(input, 0, Base) == Scan([], Next(0, InNumber));
    assert Dispatch(input, 0, InNumber) == Scan(tokens, Next(n, Base));
    assert Dispatch(input, n, Base) == Scan([], Next(0, Done));
    var none: seq<Span> := [];
    assert none + none == none && none + tokens == tokens && tokens + none == tokens;
    LexerTheory.RunStep(input, 0, Base, none, 3, none, 0, InNumber);
    LexerTheory.RunStep(input, 0, InNumber, none, 2, tokens, n, Base);
    LexerTheory.RunStep(input, n, Base, tokens, 1, none, 0, Done);
  }

  /** The colour scanner passes over six hexadecimal digits. */
  lemma {:induction false} ColorSkipsHex(input: seq<byte>, i: nat, e: nat)
    requires 1 <= i <= e <= 7 && e < |input|
    requires forall k :: 1 <= k < e ==> IsHexadecimal(input[k])
    ensures ColorScan(input, 0, i) == ColorScan(input, 0, e)
    decreases e - i
  {
    if i < e {
      ColorSkipsHex(input, i + 1, e);
    }
  }

  lemma HexDigitBytes(c: char)
    requires Ast.IsLowerHexDigit(c)
    ensures IsHexadecimal(c as int as byte)
  {
  }

  /** A colour printed with two digits per channel, followed by a closing
      parenthesis as inside a printed coordinate, lexes as one colour token
      and the parenthesis. */
  lemma PaddedColorLexes(c: Ast.Color)
    ensures forall i :: 0 <= i < |Ast.ShowColorPadded(c) + ")"| ==> (Ast.ShowColorPadded(c) + ")")[i] as int < 256
    ensures Lexed(Bytes(Ast.ShowColorPadded(c) + ")"), 3) == Tokens([Span(0, Color, 7), Span(7, RParen, 8)])
  {
    var text := Ast.ShowColorPadded(c) + ")";
    assert forall i :: 1 <= i < 7 ==> Ast.IsLowerHexDigit(text[i]);
    assert text[0] == '#' && text[7] == ')';
    var input := Bytes(text);
    forall k | 1 <= k < 7 ensures IsHexadecimal(input[k]) {
      HexDigitBytes(text[k]);
    }
    ColorSkipsHex(input, 1, 7);
    var color := [Span(0, Color, 7)];
    var paren := [Span(7, RParen, 8)];
    assert Dispatch(input, 0, Base) == Scan([], Next(0, InColor));
    assert Dispatch(input, 0, InColor) == Scan(color, Next(7, Base));
    assert BaseAction(input, 7) == Emit(RParen);
    assert BaseScan(input, 8) == Scan([], Next(0, Done));
    assert Dispatch(input, 7, Base) == Scan(paren, Next(0, Done));
    var none: seq<Span> := [];
    assert none + color == color && color + paren == [Span(0, Color, 7), Span(7, RParen, 8)];
    LexerTheory.RunStep(input, 0, Base, none, 3, none, 0, InColor);
    assert none + none == none;
    LexerTheory.RunStep(input, 0, InColor, none, 2, color, 7, Base);
    LexerTheory.RunStep(input, 7, Base, color, 1, paren, 0, Done);
  }

  /** Black printed without padding, followed by a closing parenthesis,
      does not lex: the lexer wants six digits and meets the parenthesis
      after three. */
  lemma UnpaddedColorFailsToLex()
    ensures Ast.ShowColor(Ast.Color.Color(0, 0, 0)) + ")" == "#000)"
    ensures Lexed(Bytes("#000)"), 3) == Failed(LexError(4, 5, ExpectedHexDigit))
  {
    var input := Bytes("#000)");
    assert input == [HASH, 0x30, 0x30, 0x30, 0x29];
    ColorSkipsHex(input, 1, 4);
    assert Dispatch(input, 0, Base) == Scan([], Next(0, InColor));
    assert Dispatch(input, 0, InColor) == Scan([], Fail(LexError(4, 5, ExpectedHexDigit)));
    var none: seq<Span> := [];
    assert none + none == none;
    LexerTheory.RunStep(input, 0, Base, none, 3, none, 0, InColor);
  }
}
