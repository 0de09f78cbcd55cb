/** Model of the checkable part of the builtin functions of Pris
    (src/builtins.rs): argument validation, the signature each builtin
    checks before it does anything else, the splitting of text into lines,
    the `text_align` setting and the extension guard of `image`.

    What a builtin does after its arguments are validated and destructured
    (environment lookups, font and image loading, text shaping, frame
    construction) is a function parameter of the builtin: the model states
    what reaches it and which errors come before it. */
module Builtins {
  import opened Wrappers
  import opened Values
  import opened Text

  /** The errors a builtin reports; src/error.rs is not part of this model,
      so these follow the constructors that src/builtins.rs calls. */
  datatype Error =
    | Arity(fnName: string, expectedCount: nat, actualCount: nat)
    | ArgType(fnName: string, expectedType: ValType, actualType: ValType, index: nat)
    | Value(message: string)
    | MissingFont(family: string, style: string)
    | MissingFile(path: string)
    | Other(message: string)

  // Argument validation.

  /** The first index at or after `i` where an argument does not have the
      expected type. */
  function FirstMismatch(expected: seq<ValType>, actual: seq<Val>, i: nat): (r: Option<nat>)
    requires |expected| == |actual| && i <= |expected|
    ensures r.Some? ==>
      && i <= r.value < |expected| && expected[r.value] != TypeOf(actual[r.value])
      && forall j :: i <= j < r.value ==> expected[j] == TypeOf(actual[j])
    ensures r.None? <==> forall j :: i <= j < |expected| ==> expected[j] == TypeOf(actual[j])
    decreases |expected| - i
  {
    if i == |expected| then None
    else if expected[i] != TypeOf(actual[i]) then Some(i)
    else FirstMismatch(expected, actual, i + 1)
  }

  /** What validate_args decides: the arity error when the counts differ,
      otherwise the type error at the lowest mismatching position, otherwise
      success. */
  function Validation(fnName: string, expected: seq<ValType>, actual: seq<Val>): (r: Result<(), Error>)
    ensures |expected| != |actual| ==> r == Err(Arity(fnName, |expected|, |actual|))
    ensures |expected| == |actual| ==>
      (r.Ok? <==> forall i :: 0 <= i < |expected| ==> expected[i] == TypeOf(actual[i]))
    ensures |expected| == |actual| && r.Err? ==>
      exists i :: 0 <= i < |expected|
        && r.error == ArgType(fnName, expected[i], TypeOf(actual[i]), i)
        && expected[i] != TypeOf(actual[i])
        && forall j :: 0 <= j < i ==> expected[j] == TypeOf(actual[j])
  {
    if |expected| != |actual| then Err(Arity(fnName, |expected|, |actual|))
    else match FirstMismatch(expected, actual, 0)
      case None => Ok(())
      case Some(i) => Err(ArgType(fnName, expected[i], TypeOf(actual[i]), i))
  }

  /** validate_args: the count check, then the types left to right with an
      early return at the first mismatch. */
  method ValidateArgs(fnName: string, expected: seq<ValType>, actual: seq<Val>) returns (r: Result<(), Error>)
    ensures r == Validation(fnName, expected, actual)
  {
    if |expected| != |actual| {
      return Err(Arity(fnName, |expected|, |actual|));
    }
    for i := 0 to |expected|
      invariant FirstMismatch(expected, actual, i) == FirstMismatch(expected, actual, 0)
    {
      if expected[i] != TypeOf(actual[i]) {
        return Err(ArgType(fnName, expected[i], TypeOf(actual[i]), i));
      }
    }
    return Ok(());
  }

  // The builtins, up to the point where their own work begins.

  const FIT_SIGNATURE: seq<ValType> := [FrameType, CoordType(1)]
  const LINE_SIGNATURE: seq<ValType> := [CoordType(1)]
  const FILL_RECTANGLE_SIGNATURE: seq<ValType> := [CoordType(1)]
  const STR_SIGNATURE: seq<ValType> := [NumType(0)]
  const T_SIGNATURE: seq<ValType> := [StrType]
  const GLYPH_SIGNATURE: seq<ValType> := [NumType(0)]
  const IMAGE_SIGNATURE: seq<ValType> := [StrType]

  /** fit(frame, size): `scale` is the rest of fit (the zero checks and the
      scaling), given the frame and the width and height of the target box. */
  function Fit(args: seq<Val>, scale: (FrameRef, F64, F64) -> Result<Val, Error>): (r: Result<Val, Error>)
    ensures Validation("fit", FIT_SIGNATURE, args).Err? ==> r == Err(Validation("fit", FIT_SIGNATURE, args).error)
    ensures Validation("fit", FIT_SIGNATURE, args).Ok? ==>
      exists f, w, h :: args == [Frame(f), Coord(w, h, 1)] && r == scale(f, w, h)
  {
    match Validation("fit", FIT_SIGNATURE, args)
    case Err(e) => Err(e)
    case Ok(_) =>
      match args[0] {
        case Frame(frame) =>
          match args[1] {
            case Coord(w, h, 1) =>
              assert args == [Frame(frame), Coord(w, h, 1)];
              scale(frame, w, h)
            case _ => assert false; Err(Other(""))
          }
        case _ => assert false; Err(Other(""))
      }
  }

  /** line(offset): `stroke` is the rest of line (the color and line width
      lookups and the frame), given the end point. */
  function Line(args: seq<Val>, stroke: (F64, F64) -> Result<Val, Error>): (r: Result<Val, Error>)
    ensures Validation("line", LINE_SIGNATURE, args).Err? ==> r == Err(Validation("line", LINE_SIGNATURE, args).error)
    ensures Validation("line", LINE_SIGNATURE, args).Ok? ==>
      exists x, y :: args == [Coord(x, y, 1)] && r == stroke(x, y)
  {
    match Validation("line", LINE_SIGNATURE, args)
    case Err(e) => Err(e)
    case Ok(_) =>
      match args[0]
      case Coord(x, y, 1) =>
        assert args == [Coord(x, y, 1)];
        stroke(x, y)
      case _ => assert false; Err(Other(""))
  }

  /** fill_rectangle(size): `fill` is the rest of fill_rectangle (the color
      lookup and the frame), given the width and height. */
  function FillRectangle(args: seq<Val>, fill: (F64, F64) -> Result<Val, Error>): (r: Result<Val, Error>)
    ensures Validation("fill_rectangle", FILL_RECTANGLE_SIGNATURE, args).Err? ==>
      r == Err(Validation("fill_rectangle", FILL_RECTANGLE_SIGNATURE, args).error)
    ensures Validation("fill_rectangle", FILL_RECTANGLE_SIGNATURE, args).Ok? ==>
      exists w, h :: args == [Coord(w, h, 1)] && r == fill(w, h)
  {
    match Validation("fill_rectangle", FILL_RECTANGLE_SIGNATURE, args)
    case Err(e) => Err(e)
    case Ok(_) =>
      match args[0]
      case Coord(w, h, 1) =>
        assert args == [Coord(w, h, 1)];
        fill(w, h)
      case _ => assert false; Err(Other(""))
  }

  /** str(number): `show` is Rust's `{}` formatting of a float. */
  function StrBuiltin(args: seq<Val>, show: F64 -> string): (r: Result<Val, Error>)
    ensures Validation("str", STR_SIGNATURE, args).Err? ==> r == Err(Validation("str", STR_SIGNATURE, args).error)
    ensures Validation("str", STR_SIGNATURE, args).Ok? ==>
      exists x :: args == [Num(x, 0)] && r == Ok(Val.Str(show(x)))
  {
    match Validation("str", STR_SIGNATURE, args)
    case Err(e) => Err(e)
    case Ok(_) =>
      match args[0]
      case Num(x, _) =>
        assert args == [Num(x, 0)];
        Ok(Val.Str(show(x)))
      case _ => assert false; Err(Other(""))
  }

  /** glyph(index): `place` is the rest of glyph (the integrality check, the
      font lookup and the frame), given the index as a float. */
  function Glyph(args: seq<Val>, place: F64 -> Result<Val, Error>): (r: Result<Val, Error>)
    ensures Validation("glyph", GLYPH_SIGNATURE, args).Err? ==> r == Err(Validation("glyph", GLYPH_SIGNATURE, args).error)
    ensures Validation("glyph", GLYPH_SIGNATURE, args).Ok? ==>
      exists x :: args == [Num(x, 0)] && r == place(x)
  {
    match Validation("glyph", GLYPH_SIGNATURE, args)
    case Err(e) => Err(e)
    case Ok(_) =>
      match args[0]
      case Num(x, 0) =>
        assert args == [Num(x, 0)];
        place(x)
      case _ => assert false; Err(Other(""))
  }

  // Text.

  /** The alignments of `t`. */
  datatype TextAlign = Left | Center | Right

  /** The setting that selects each alignment. */
  function AlignName(a: TextAlign): string {
    match a
    case Left => "left"
    case Center => "center"
    case Right => "right"
  }

  /** The match on the `text_align` setting in `t`. */
  function TextAlignOf(name: string): (r: Result<TextAlign, Error>)
    ensures r.Ok? <==> name in {"left", "center", "right"}
    ensures r.Ok? ==> AlignName(r.value) == name
    ensures r.Err? ==> r.error == Value("'" + name + "' is not a valid value for 'text_align'. Must be one of 'left', 'center', 'right'.")
  {
    if name == "left" then Ok(Left)
    else if name == "center" then Ok(Center)
    else if name == "right" then Ok(Right)
    else Err(Value("'" + name + "' is not a valid value for 'text_align'. Must be one of 'left', 'center', 'right'."))
  }

  /** Every alignment is selected by its name, and by nothing else. */
  lemma TextAlignRoundTrip(a: TextAlign, name: string)
    ensures TextAlignOf(AlignName(a)) == Ok(a)
    ensures TextAlignOf(name) == Ok(a) <==> name == AlignName(a)
  {
  }

  /** The settings that `t` reads from the environment. */
  datatype TextSettings = TextSettings(fontFamily: string, fontStyle: string, fontSize: F64, lineHeight: F64, textAlign: string)

  /** t(text). `settings` is the outcome of the five environment lookups,
      `hasFont` says whether the font map has the face, and `layout` is the
      shaping and placement of the lines. The lines are split first, then the
      settings read, the font found and the alignment decoded, in that order. */
  function T(args: seq<Val>, settings: Result<TextSettings, Error>, hasFont: (string, string) -> bool,
             layout: (seq<string>, TextAlign, TextSettings) -> Result<Val, Error>): (r: Result<Val, Error>)
    ensures Validation("t", T_SIGNATURE, args).Err? ==> r == Err(Validation("t", T_SIGNATURE, args).error)
    ensures Validation("t", T_SIGNATURE, args).Ok? ==> |args| == 1 && args[0].Str?
    ensures Validation("t", T_SIGNATURE, args).Ok? && settings.Err? ==> r == Err(settings.error)
    ensures Validation("t", T_SIGNATURE, args).Ok? && settings.Ok? ==>
      var s := settings.value;
      && (!hasFont(s.fontFamily, s.fontStyle) ==> r == Err(MissingFont(s.fontFamily, s.fontStyle)))
      && (hasFont(s.fontFamily, s.fontStyle) && TextAlignOf(s.textAlign).Err? ==> r == Err(TextAlignOf(s.textAlign).error))
      && (hasFont(s.fontFamily, s.fontStyle) && TextAlignOf(s.textAlign).Ok? ==>
            r == layout(Split(args[0].s, '\n'), TextAlignOf(s.textAlign).value, s))
  {
    match Validation("t", T_SIGNATURE, args)
    case Err(e) => Err(e)
    case Ok(_) =>
      match args[0] {
        case Str(text) =>
          var textLines := Split(text, '\n');
          match settings {
            case Err(e) => Err(e)
            case Ok(s) =>
              if !hasFont(s.fontFamily, s.fontStyle) then Err(MissingFont(s.fontFamily, s.fontStyle))
              else
                match TextAlignOf(s.textAlign) {
                  case Err(e) => Err(e)
                  case Ok(ta) => layout(textLines, ta, s)
                }
          }
        case _ => assert false; Err(Other(""))
      }
  }

  // Images.

  predicate EndsWith(s: string, suffix: string) {
    |suffix| <= |s| && s[|s| - |suffix|..] == suffix
  }

  /** image(path): only paths ending in ".svg" reach `open`, which stands for
      loading the image and building its frame. */
  function Image(args: seq<Val>, open: string -> Result<Val, Error>): (r: Result<Val, Error>)
    ensures Validation("image", IMAGE_SIGNATURE, args).Err? ==> r == Err(Validation("image", IMAGE_SIGNATURE, args).error)
    ensures Validation("image", IMAGE_SIGNATURE, args).Ok? ==>
      exists path :: args == [Val.Str(path)]
        && (!EndsWith(path, ".svg") ==> r == Err(Other("Cannot load '" + path + "', only svg images are supported for now.")))
        && (EndsWith(path, ".svg") ==> r == open(path))
  {
    match Validation("image", IMAGE_SIGNATURE, args)
    case Err(e) => Err(e)
    case Ok(_) =>
      match args[0]
      case Str(path) =>
        assert args == [Val.Str(path)];
        if !EndsWith(path, ".svg") then Err(Other("Cannot load '" + path + "', only svg images are supported for now."))
        else open(path)
      case _ => assert false; Err(Other(""))
  }

  /** The work after validation is never consulted when validation fails:
      two builtins that differ only in that work give the same error. */
  lemma ValidationComesFirst(args: seq<Val>,
                             scale1: (FrameRef, F64, F64) -> Result<Val, Error>, scale2: (FrameRef, F64, F64) -> Result<Val, Error>,
                             stroke1: (F64, F64) -> Result<Val, Error>, stroke2: (F64, F64) -> Result<Val, Error>,
                             open1: string -> Result<Val, Error>, open2: string -> Result<Val, Error>,
                             show1: F64 -> string, show2: F64 -> string,
                             place1: F64 -> Result<Val, Error>, place2: F64 -> Result<Val, Error>,
                             settings1: Result<TextSettings, Error>, settings2: Result<TextSettings, Error>,
                             hasFont1: (string, string) -> bool, hasFont2: (string, string) -> bool,
                             layout1: (seq<string>, TextAlign, TextSettings) -> Result<Val, Error>,
                             layout2: (seq<string>, TextAlign, TextSettings) -> Result<Val, Error>)
    ensures Validation("fit", FIT_SIGNATURE, args).Err? ==> Fit(args, scale1) == Fit(args, scale2)
    ensures Validation("line", LINE_SIGNATURE, args).Err? ==> Line(args, stroke1) == Line(args, stroke2)
    ensures Validation("fill_rectangle", FILL_RECTANGLE_SIGNATURE, args).Err? ==> FillRectangle(args, stroke1) == FillRectangle(args, stroke2)
    ensures Validation("image", IMAGE_SIGNATURE, args).Err? ==> Image(args, open1) == Image(args, open2)
    ensures Validation("str", STR_SIGNATURE, args).Err? ==> StrBuiltin(args, show1) == StrBuiltin(args, show2)
    ensures Validation("glyph", GLYPH_SIGNATURE, args).Err? ==> Glyph(args, place1) == Glyph(args, place2)
    ensures Validation("t", T_SIGNATURE, args).Err? ==>
      T(args, settings1, hasFont1, layout1) == T(args, settings2, hasFont2, layout2)
  {
  }

  /** A path without the ".svg" extension is rejected without opening it. */
  lemma ImageGuardComesBeforeOpen(path: string, open1: string -> Result<Val, Error>, open2: string -> Result<Val, Error>)
    requires !EndsWith(path, ".svg")
    ensures Image([Val.Str(path)], open1) == Image([Val.Str(path)], open2)
    ensures Image([Val.Str(path)], open1).Err? && Image([Val.Str(path)], open1).error.Other?
  {
    assert FirstMismatch(IMAGE_SIGNATURE, [Val.Str(path)], 0) == None;
  }

  // Splitting text into lines.

  /** split_lines: repeatedly cuts off the text before the next newline. */
  method SplitLines(text: string) returns (lines: seq<string>)
    ensures lines == Split(text, '\n')
  {
    lines := [];
    var left := text;
    var index := Find(left, '\n');
    while index.Some?
      invariant lines + Split(left, '\n') == Split(text, '\n')
      invariant index == Find(left, '\n')
      decreases |left|
    {
      lines := lines + [left[..index.value]];
      left := left[index.value + 1..];
      index := Find(left, '\n');
    }
    lines := lines + [left];
  }

  /** The unit test of split_lines. */
  lemma SplitsTrailingNewline()
    ensures Split("\nfoo\nbar\n", '\n') == ["", "foo", "bar", ""]
  {
    var pieces := ["", "foo", "bar", ""];
    assert Join(pieces[3..], '\n') == "";
    assert Join(pieces[2..], '\n') == "bar\n" by {
      assert pieces[2..][1..] == pieces[3..];
    }
    assert Join(pieces[1..], '\n') == "foo\nbar\n" by {
      assert pieces[1..][1..] == pieces[2..];
    }
    assert Join(pieces, '\n') == "\nfoo\nbar\n" by {
      assert pieces[1..] == pieces[1..];
    }
    assert forall p :: p in pieces ==> '\n' !in p;
    SplitJoin(pieces, '\n');
  }
}
