/** The abstract syntax tree of src/ast.rs and its `Display` printers.

    The printers are structural recursion over `Term`, so they are modelled
    as functions. Formatting an `f64` is not modelled: every printer that
    meets a number takes the float formatter as a parameter `show`. */
module Ast {
  import opened Wrappers
  import Values
  import Text

  /** A colour channel, Rust's `u8`. */
  newtype u8 = x: int | 0 <= x < 256

  datatype Unit = W | H | Em | Pt

  datatype BinOp = Add | Sub | Mul | Div | Exp

  datatype Num = Num(value: Values.F64, unit: Option<Unit>)

  datatype Color = Color(r: u8, g: u8, b: u8)

  /** A term of the source language. The boxed `Coord` and `BinTerm` structs
      are folded into their variants. */
  datatype Term =
    | String(text: string)
    | Number(num: Num)
    | Color(color: Color)
    | Idents(parts: seq<string>)
    | Coord(x: Term, y: Term)
    | BinOp(left: Term, op: BinOp, right: Term)

  /** Every identifier path in `t` has a segment, which the printer asserts. */
  predicate WellFormed(t: Term) {
    match t
    case Idents(parts) => |parts| > 0
    case Coord(x, y) => WellFormed(x) && WellFormed(y)
    case BinOp(l, _, r) => WellFormed(l) && WellFormed(r)
    case _ => true
  }

  // Operators and units.

  function ShowBinOp(op: BinOp): (r: string)
    ensures |r| == 1
  {
    match op
    case Add => "+"
    case Sub => "-"
    case Mul => "*"
    case Div => "/"
    case Exp => "^"
  }

  /** Distinct operators print differently. */
  lemma BinOpPrintingInjective(a: BinOp, b: BinOp)
    ensures ShowBinOp(a) == ShowBinOp(b) <==> a == b
  {
  }

  function ShowUnit(u: Unit): (r: string)
    ensures 1 <= |r| <= 2
  {
    match u
    case W => "w"
    case H => "h"
    case Em => "em"
    case Pt => "pt"
  }

  /** Distinct units print differently. */
  lemma UnitPrintingInjective(a: Unit, b: Unit)
    ensures ShowUnit(a) == ShowUnit(b) <==> a == b
  {
  }

  /** The unit a printed number ends in, read back from its last characters. */
  function UnitSuffix(s: string): Option<Unit> {
    if |s| >= 2 && s[|s| - 2..] == "em" then Some(Em)
    else if |s| >= 2 && s[|s| - 2..] == "pt" then Some(Pt)
    else if |s| >= 1 && s[|s| - 1] == 'h' then Some(H)
    else if |s| >= 1 && s[|s| - 1] == 'w' then Some(W)
    else None
  }

  // Numbers.

  /** `Num` prints the number, then the unit if there is one. */
  function ShowNum(n: Num, show: Values.F64 -> string): (r: string)
    ensures |r| >= |show(n.value)| && r[..|show(n.value)|] == show(n.value)
    ensures n.unit.None? ==> r == show(n.value)
    ensures n.unit.Some? ==> r[|show(n.value)|..] == ShowUnit(n.unit.value)
  {
    var number := show(n.value);
    match n.unit
    case None => number
    case Some(u) => number + ShowUnit(u)
  }

  /** The unit can be read back from a printed number, as long as the
      number's own text is not empty and does not end in a letter that ends a
      unit (a float's text ends in a digit, or in "inf" or "NaN"). */
  lemma NumUnitRoundTrip(n: Num, show: Values.F64 -> string)
    requires |show(n.value)| > 0 && show(n.value)[|show(n.value)| - 1] !in "mthw"
    ensures UnitSuffix(ShowNum(n, show)) == n.unit
  {
    match n.unit
    case None => NoUnitSuffix(show(n.value));
    case Some(u) => UnitSuffixAfter(show(n.value), u);
  }

  /** Text that does not end in a unit letter reads back as no unit. */
  lemma NoUnitSuffix(number: string)
    requires |number| > 0 && number[|number| - 1] !in "mthw"
    ensures UnitSuffix(number) == None
  {
    if |number| >= 2 {
      assert number[|number| - 2..][1] == number[|number| - 1];
    }
  }

  /** A unit printed after such text reads back as that unit. */
  lemma UnitSuffixAfter(number: string, u: Unit)
    requires |number| > 0 && number[|number| - 1] !in "mthw"
    ensures UnitSuffix(number + ShowUnit(u)) == Some(u)
  {
    var s := number + ShowUnit(u);
    if u == H || u == W {
      assert s[|s| - 1] == ShowUnit(u)[0];
      assert s[|s| - 2..][0] == number[|number| - 1];
    } else {
      assert s[|s| - 2..] == ShowUnit(u);
    }
  }

  // Colours.

  predicate IsLowerHexDigit(c: char) {
    '0' <= c <= '9' || 'a' <= c <= 'f'
  }

  function HexDigit(d: nat): (c: char)
    requires d < 16
    ensures IsLowerHexDigit(c)
  {
    if d < 10 then ('0' as int + d) as char else ('a' as int + d - 10) as char
  }

  function HexDigitValue(c: char): nat
    requires IsLowerHexDigit(c)
  {
    if c <= '9' then c as int - '0' as int else c as int - 'a' as int + 10
  }

  /** `{:x}`: lowercase hexadecimal without leading zeros. */
  function Hex(n: nat): (r: string)
    ensures |r| >= 1 && forall i :: 0 <= i < |r| ==> IsLowerHexDigit(r[i])
    ensures n < 16 <==> |r| == 1
    ensures n < 256 ==> |r| <= 2
    ensures n > 0 ==> r[0] != '0'
    decreases n
  {
    if n < 16 then [HexDigit(n)] else Hex(n / 16) + [HexDigit(n % 16)]
  }

  /** The number a string of lowercase hexadecimal digits denotes. */
  function HexValue(s: string): nat
    requires forall i :: 0 <= i < |s| ==> IsLowerHexDigit(s[i])
  {
    if s == [] then 0 else HexValue(s[..|s| - 1]) * 16 + HexDigitValue(s[|s| - 1])
  }

  /** `{:x}` loses no information: its digits denote the number printed. */
  lemma {:induction false} HexRoundTrip(n: nat)
    ensures HexValue(Hex(n)) == n
    decreases n
  {
    var r := Hex(n);
    if n < 16 {
      assert r[..0] == [];
    } else {
      HexRoundTrip(n / 16);
      assert r[..|r| - 1] == Hex(n / 16);
    }
  }

  /** `Color` prints '#' and its three channels in `{:x}`, so the text has
      four to seven characters, all lowercase hexadecimal after the '#'. */
  function ShowColor(c: Color): (r: string)
    ensures 4 <= |r| <= 7 && r[0] == '#'
    ensures forall i :: 1 <= i < |r| ==> IsLowerHexDigit(r[i])
  {
    "#" + Hex(c.r as nat) + Hex(c.g as nat) + Hex(c.b as nat)
  }

  /** Two digits of lowercase hexadecimal, `{:02x}`. */
  function Hex2(n: u8): (r: string)
    ensures |r| == 2 && IsLowerHexDigit(r[0]) && IsLowerHexDigit(r[1])
  {
    [HexDigit(n as nat / 16), HexDigit(n as nat % 16)]
  }

  lemma Hex2RoundTrip(n: u8)
    ensures HexDigitValue(Hex2(n)[0]) * 16 + HexDigitValue(Hex2(n)[1]) == n as int
  {
  }

  /** A colour printed with two digits per channel. */
  function ShowColorPadded(c: Color): (r: string)
    ensures |r| == 7 && r[0] == '#'
    ensures forall i :: 1 <= i < 7 ==> IsLowerHexDigit(r[i])
  {
    "#" + Hex2(c.r) + Hex2(c.g) + Hex2(c.b)
  }

  /** With padding, distinct colours print differently. */
  lemma {:induction false} PaddedColorPrintingInjective(a: Color, b: Color)
    ensures ShowColorPadded(a) == ShowColorPadded(b) <==> a == b
  {
    if ShowColorPadded(a) == ShowColorPadded(b) {
      var s, t := ShowColorPadded(a), ShowColorPadded(b);
      assert s[1..3] == Hex2(a.r) && s[3..5] == Hex2(a.g) && s[5..7] == Hex2(a.b);
      assert t[1..3] == Hex2(b.r) && t[3..5] == Hex2(b.g) && t[5..7] == Hex2(b.b);
      Hex2RoundTrip(a.r); Hex2RoundTrip(a.g); Hex2RoundTrip(a.b);
      Hex2RoundTrip(b.r); Hex2RoundTrip(b.g); Hex2RoundTrip(b.b);
    }
  }

  /** Without padding, two distinct colours print as the same text. */
  lemma ColorPrintingCollides()
    ensures Color.Color(0x01, 0x23, 0x04) != Color.Color(0x12, 0x03, 0x04)
    ensures ShowColor(Color.Color(0x01, 0x23, 0x04)) == "#1234"
    ensures ShowColor(Color.Color(0x12, 0x03, 0x04)) == "#1234"
  {
    assert Hex(0x23) == Hex(2) + [HexDigit(3)];
    assert Hex(0x12) == Hex(1) + [HexDigit(2)];
  }

  // Identifier paths.

  /** `Idents` prints its first segment, then ".segment" for each further
      one, as its loop writes them. */
  function ShowIdents(parts: seq<string>): (r: string)
    requires |parts| > 0
    ensures |parts| == 1 ==> r == parts[0]
    decreases |parts|
  {
    if |parts| == 1 then parts[0]
    else ShowIdents(parts[..|parts| - 1]) + "." + parts[|parts| - 1]
  }

  lemma {:induction false} JoinSnoc(parts: seq<string>, last: string, sep: char)
    requires |parts| > 0
    ensures Text.Join(parts + [last], sep) == Text.Join(parts, sep) + [sep] + last
    decreases |parts|
  {
    if |parts| == 1 {
      assert (parts + [last])[1..] == [last];
    } else {
      assert (parts + [last])[1..] == parts[1..] + [last];
      JoinSnoc(parts[1..], last, sep);
    }
  }

  /** The printed path is the segments joined with periods. */
  lemma {:induction false} IdentsAreJoined(parts: seq<string>)
    requires |parts| > 0
    ensures ShowIdents(parts) == Text.Join(parts, '.')
    decreases |parts|
  {
    if |parts| > 1 {
      var init := parts[..|parts| - 1];
      IdentsAreJoined(init);
      JoinSnoc(init, parts[|parts| - 1], '.');
      assert init + [parts[|parts| - 1]] == parts;
    }
  }

  /** The loop of `Idents`' printer, writing into a buffer that stands for
      the formatter: the first segment, then a period and each further one. */
  method WriteIdents(parts: seq<string>) returns (out: string)
    requires |parts| > 0
    ensures out == Text.Join(parts, '.')
  {
    out := parts[0];
    for i := 1 to |parts|
      invariant out == ShowIdents(parts[..i])
    {
      assert parts[..i + 1][..i] == parts[..i];
      out := out + "." + parts[i];
    }
    assert parts[..|parts|] == parts;
    IdentsAreJoined(parts);
  }

  /** When no segment contains a period, cutting the printed path at its
      periods gives back the segments. */
  lemma IdentsRoundTrip(parts: seq<string>)
    requires |parts| > 0 && forall p :: p in parts ==> '.' !in p
    ensures Text.Split(ShowIdents(parts), '.') == parts
  {
    IdentsAreJoined(parts);
    Text.SplitJoin(parts, '.');
  }

  // Terms.

  /** `Term`'s `Display`: a string verbatim, the rest through their printers;
      a coordinate as "(x, y)" and a binary term as "(l op r)". */
  function ShowTerm(t: Term, show: Values.F64 -> string): (r: string)
    requires WellFormed(t)
    ensures t.String? ==> r == t.text
    ensures t.Coord? || t.BinOp? ==> |r| >= 2 && r[0] == '(' && r[|r| - 1] == ')'
  {
    match t
    case String(s) => s
    case Number(n) => ShowNum(n, show)
    case Color(c) => ShowColor(c)
    case Idents(parts) => ShowIdents(parts)
    case Coord(x, y) => "(" + ShowTerm(x, show) + ", " + ShowTerm(y, show) + ")"
    case BinOp(l, op, r) => "(" + ShowTerm(l, show) + " " + ShowBinOp(op) + " " + ShowTerm(r, show) + ")"
  }

  // Parenthesisation.

  predicate ParenFree(s: string) {
    '(' !in s && ')' !in s
  }

  /** No text inside `t` (its strings, identifier segments and numbers) has
      a parenthesis of its own. */
  predicate LeavesParenFree(t: Term, show: Values.F64 -> string) {
    match t
    case String(s) => ParenFree(s)
    case Number(n) => ParenFree(show(n.value))
    case Color(_) => true
    case Idents(parts) => forall p :: p in parts ==> ParenFree(p)
    case Coord(x, y) => LeavesParenFree(x, show) && LeavesParenFree(y, show)
    case BinOp(l, _, r) => LeavesParenFree(l, show) && LeavesParenFree(r, show)
  }

  /** Open minus closed parentheses. */
  function Depth(s: string): int {
    if s == [] then 0
    else (if s[0] == '(' then 1 else if s[0] == ')' then -1 else 0) + Depth(s[1..])
  }

  /** Every parenthesis is closed, and none closes before it opens. */
  predicate Balanced(s: string) {
    Depth(s) == 0 && forall k :: 0 <= k <= |s| ==> Depth(s[..k]) >= 0
  }

  /** `s` is one parenthesised group: its first parenthesis closes at its
      last character and not before. */
  predicate Enclosed(s: string) {
    && |s| >= 2 && s[0] == '(' && s[|s| - 1] == ')' && Balanced(s)
    && forall k :: 1 <= k < |s| ==> Depth(s[..k]) >= 1
  }

  lemma {:induction false} DepthAppend(a: string, b: string)
    ensures Depth(a + b) == Depth(a) + Depth(b)
  {
    if a == [] {
      assert a + b == b;
    } else {
      assert (a + b)[0] == a[0] && (a + b)[1..] == a[1..] + b;
      DepthAppend(a[1..], b);
    }
  }

  lemma {:induction false} ParenFreeDepth(s: string)
    requires ParenFree(s)
    ensures Depth(s) == 0
  {
    if s != [] {
      assert forall c :: c in s[1..] ==> c in s;
      ParenFreeDepth(s[1..]);
    }
  }

  lemma ParenFreeBalanced(s: string)
    requires ParenFree(s)
    ensures Balanced(s)
  {
    forall k | 0 <= k <= |s|
      ensures Depth(s[..k]) >= 0
    {
      assert forall c :: c in s[..k] ==> c in s;
      ParenFreeDepth(s[..k]);
    }
    ParenFreeDepth(s);
  }

  lemma BalancedAppend(a: string, b: string)
    requires Balanced(a) && Balanced(b)
    ensures Balanced(a + b)
  {
    DepthAppend(a, b);
    forall k | 0 <= k <= |a + b|
      ensures Depth((a + b)[..k]) >= 0
    {
      if k <= |a| {
        assert (a + b)[..k] == a[..k];
      } else {
        assert (a + b)[..k] == a + b[..k - |a|];
        DepthAppend(a, b[..k - |a|]);
      }
    }
  }

  lemma Wrap(inner: string)
    requires Balanced(inner)
    ensures Enclosed("(" + inner + ")")
  {
    var s := "(" + inner + ")";
    assert s == "(" + (inner + ")");
    DepthAppend("(", inner + ")");
    DepthAppend(inner, ")");
    assert Depth("(") == 1 && Depth(")") == -1;
    forall k | 1 <= k < |s|
      ensures Depth(s[..k]) >= 1
    {
      assert s[..k] == "(" + inner[..k - 1];
      DepthAppend("(", inner[..k - 1]);
    }
    forall k | 0 <= k <= |s|
      ensures Depth(s[..k]) >= 0
    {
      if k == 0 {
        assert s[..k] == [];
      } else if k == |s| {
        assert s[..k] == s;
      }
    }
  }

  /** The text of a string, number, colour or identifier path has no
      parentheses when its own texts have none. */
  lemma LeafParenFree(t: Term, show: Values.F64 -> string)
    requires WellFormed(t) && LeavesParenFree(t, show) && !t.Coord? && !t.BinOp?
    ensures ParenFree(ShowTerm(t, show))
  {
    match t
    case String(s) =>
    case Number(n) =>
      var number := show(n.value);
      if n.unit.Some? {
        assert forall c :: c in ShowNum(n, show) ==> c in number || c in ShowUnit(n.unit.value);
      }
    case Color(c) =>
      var s := ShowColor(c);
      assert forall i :: 0 <= i < |s| ==> s[i] != '(' && s[i] != ')';
    case Idents(parts) =>
      IdentsAreJoined(parts);
      JoinParenFree(parts, '.');
  }

  /** "(a, b)" and "(a op b)" of balanced texts are one parenthesised group. */
  lemma EnclosePair(a: string, middle: string, b: string)
    requires Balanced(a) && ParenFree(middle) && Balanced(b)
    ensures Enclosed("(" + a + middle + b + ")")
  {
    ParenFreeBalanced(middle);
    BalancedAppend(a, middle);
    BalancedAppend(a + middle, b);
    Wrap(a + middle + b);
    assert "(" + a + middle + b + ")" == "(" + (a + middle + b) + ")";
  }

  lemma EncloseCoord(a: string, b: string)
    requires Balanced(a) && Balanced(b)
    ensures Balanced("(" + a + ", " + b + ")") && Enclosed("(" + a + ", " + b + ")")
  {
    EnclosePair(a, ", ", b);
  }

  lemma EncloseBinOp(a: string, op: string, b: string)
    requires Balanced(a) && ParenFree(op) && Balanced(b)
    ensures Balanced("(" + a + " " + op + " " + b + ")") && Enclosed("(" + a + " " + op + " " + b + ")")
  {
    var middle := " " + op + " ";
    assert forall c :: c in middle ==> c == ' ' || c in op;
    EnclosePair(a, middle, b);
    assert "(" + a + " " + op + " " + b + ")" == "(" + a + middle + b + ")";
  }

  /** A printed term whose texts have no parentheses of their own is
      balanced, and a printed coordinate or binary term is one parenthesised
      group, so nesting in the tree is exactly nesting in the text. */
  lemma {:induction false} PrintedTermsAreParenthesised(t: Term, show: Values.F64 -> string)
    requires WellFormed(t) && LeavesParenFree(t, show)
    ensures Balanced(ShowTerm(t, show))
    ensures t.Coord? || t.BinOp? ==> Enclosed(ShowTerm(t, show))
  {
    match t
    case Coord(x, y) =>
      PrintedTermsAreParenthesised(x, show);
      PrintedTermsAreParenthesised(y, show);
      EncloseCoord(ShowTerm(x, show), ShowTerm(y, show));
    case BinOp(l, op, r) =>
      PrintedTermsAreParenthesised(l, show);
      PrintedTermsAreParenthesised(r, show);
      EncloseBinOp(ShowTerm(l, show), ShowBinOp(op), ShowTerm(r, show));
    case _ =>
      LeafParenFree(t, show);
      ParenFreeBalanced(ShowTerm(t, show));
  }

  lemma {:induction false} JoinParenFree(parts: seq<string>, sep: char)
    requires |parts| > 0 && sep != '(' && sep != ')'
    requires forall p :: p in parts ==> ParenFree(p)
    ensures ParenFree(Text.Join(parts, sep))
    decreases |parts|
  {
    if |parts| > 1 {
      JoinParenFree(parts[1..], sep);
      assert parts[0] in parts;
      var s := Text.Join(parts, sep);
      assert forall c :: c in s ==> c in parts[0] || c == sep || c in Text.Join(parts[1..], sep);
    }
  }
}
