/** Cutting a string at every occurrence of a separator character, and
    joining pieces back together with it. `split_lines` in src/builtins.rs
    cuts text at newlines; the `Display` of an identifier path in src/ast.rs
    joins its segments with periods. */
module Text {
  import opened Wrappers

  /** The index of the first `sep` in `s`, as `str::find` returns it. */
  function Find(s: string, sep: char): (r: Option<nat>)
    ensures r.Some? ==> r.value < |s| && s[r.value] == sep && sep !in s[..r.value]
    ensures r.None? <==> sep !in s
  {
    if s == [] then None
    else if s[0] == sep then Some(0)
    else match Find(s[1..], sep)
      case None => assert s == [s[0]] + s[1..]; None
      case Some(k) => assert s[..k + 1] == [s[0]] + s[1..][..k]; Some(k + 1)
  }

  /** The pieces of `text` between separators, including an empty piece
      before a leading and after a trailing separator. */
  function Split(text: string, sep: char): (r: seq<string>)
    ensures |r| >= 1
    decreases |text|
  {
    match Find(text, sep)
    case None => [text]
    case Some(k) => [text[..k]] + Split(text[k + 1..], sep)
  }

  /** The number of occurrences of `sep` in `s`. */
  function Count(s: string, sep: char): nat {
    if s == [] then 0 else (if s[0] == sep then 1 else 0) + Count(s[1..], sep)
  }

  /** The pieces with `sep` between each two of them. */
  function Join(pieces: seq<string>, sep: char): string
    requires |pieces| >= 1
  {
    if |pieces| == 1 then pieces[0] else pieces[0] + [sep] + Join(pieces[1..], sep)
  }

  lemma {:induction false} CountAppend(a: string, b: string, sep: char)
    ensures Count(a + b, sep) == Count(a, sep) + Count(b, sep)
  {
    if a != [] {
      assert (a + b)[0] == a[0] && (a + b)[1..] == a[1..] + b;
      CountAppend(a[1..], b, sep);
    } else {
      assert a + b == b;
    }
  }

  lemma {:induction false} CountAbsent(s: string, sep: char)
    requires sep !in s
    ensures Count(s, sep) == 0
  {
    if s != [] {
      assert forall c :: c in s[1..] ==> c in s;
      CountAbsent(s[1..], sep);
    }
  }

  /** `Find` returns the first occurrence. */
  lemma FindFirst(s: string, sep: char, k: nat)
    requires k < |s| && s[k] == sep && sep !in s[..k]
    ensures Find(s, sep) == Some(k)
  {
    assert s[k] in s;
  }

  /** There is one more piece than there are separators. */
  lemma {:induction false} SplitCount(text: string, sep: char)
    ensures |Split(text, sep)| == Count(text, sep) + 1
    decreases |text|
  {
    match Find(text, sep)
    case None => CountAbsent(text, sep);
    case Some(k) =>
      assert text == text[..k] + ([text[k]] + text[k + 1..]);
      CountAppend(text[..k], [text[k]] + text[k + 1..], sep);
      CountAppend([text[k]], text[k + 1..], sep);
      CountAbsent(text[..k], sep);
      SplitCount(text[k + 1..], sep);
  }

  /** No piece contains the separator. */
  lemma {:induction false} SplitPiecesLackSeparator(text: string, sep: char)
    ensures forall p :: p in Split(text, sep) ==> sep !in p
    decreases |text|
  {
    match Find(text, sep)
    case None =>
    case Some(k) => SplitPiecesLackSeparator(text[k + 1..], sep);
  }

  /** Joining the pieces with the separator gives back the text. */
  lemma {:induction false} JoinSplit(text: string, sep: char)
    ensures Join(Split(text, sep), sep) == text
    decreases |text|
  {
    match Find(text, sep)
    case None =>
    case Some(k) =>
      var rest := Split(text[k + 1..], sep);
      JoinSplit(text[k + 1..], sep);
      assert ([text[..k]] + rest)[1..] == rest;
      assert Join([text[..k]] + rest, sep) == text[..k] + [sep] + Join(rest, sep);
      assert text == text[..k] + [sep] + text[k + 1..];
  }

  /** Conversely, splitting separator-free pieces joined with the separator
      gives back the pieces. */
  lemma {:induction false} SplitJoin(pieces: seq<string>, sep: char)
    requires |pieces| >= 1 && forall p :: p in pieces ==> sep !in p
    ensures Split(Join(pieces, sep), sep) == pieces
    decreases |pieces|
  {
    if |pieces| == 1 {
      assert Find(pieces[0], sep).None?;
    } else {
      var s := Join(pieces, sep);
      var first := pieces[0];
      assert s == first + ([sep] + Join(pieces[1..], sep));
      assert s[|first|] == sep && s[..|first|] == first;
      FindFirst(s, sep, |first|);
      assert s[|first| + 1..] == Join(pieces[1..], sep);
      SplitJoin(pieces[1..], sep);
      assert pieces == [first] + pieces[1..];
    }
  }
}
