/** What lies between the tokens of src/lexer.rs: the bytes the lexer skips
    are spaces, newlines and `//` comments, each comment running up to and
    including its newline, or to the end of the input. Each scanner is shown
    to account for the bytes it consumes: it either emits nothing and skips
    layout, or emits adjacent tokens from its start to where it hands over. */
module LexerLayout {
  import opened Lexer
  import opened LexerTheory

  /** The bytes in [from, to) are spaces, newlines and complete comments; when
      `open` holds, the last comment may also run to `to` without a newline. */
  predicate Gap(input: seq<byte>, from: nat, to: nat, open: bool)
    decreases to - from, 1
  {
    if to > |input| || from > to then false
    else if from == to then true
    else if Blank(input[from]) then Gap(input, from + 1, to, open)
    else Occurs(input, from, [SLASH, SLASH]) && from + 2 <= to && RestOfComment(input, from + 2, to, open)
  }

  /** The bytes in [i, to) are the rest of a comment, through its newline,
      followed by a gap. */
  predicate RestOfComment(input: seq<byte>, i: nat, to: nat, open: bool)
    decreases to - i, 0
  {
    if to > |input| || i > to then false
    else if i == to then open
    else if input[i] == NEWLINE then Gap(input, i + 1, to, open)
    else RestOfComment(input, i + 1, to, open)
  }

  /** Each span ends where the next begins. */
  predicate Adjacent(spans: seq<Span>) {
    forall k :: 0 < k < |spans| ==> spans[k - 1].end == spans[k].start
  }

  /** How far a step has consumed: its start, or the whole input once done. */
  function Reach(input: seq<byte>, step: Step): (r: nat)
    requires step.Next?
    ensures step.state == Done ==> r == |input|
    ensures step.state != Done ==> r == step.start
  {
    if step.state == Done then |input| else step.start
  }

  /** A scan from `start` that hands over accounts for every byte up to its
      reach: it skips layout and emits nothing, or it emits adjacent tokens
      inside the input from `start` to the reach. */
  predicate Covers(input: seq<byte>, start: nat, r: Scan) {
    r.step.Next? ==>
      && (forall k :: 0 <= k < |r.emitted| ==> r.emitted[k].end <= |input|)
      && if r.emitted == [] then Gap(input, start, Reach(input, r.step), r.step.state == Done)
         else
           && r.emitted[0].start == start && Adjacent(r.emitted)
           && r.emitted[|r.emitted| - 1].end == Reach(input, r.step)
  }

  /** The last end of `spans`, or `from` when there is none. */
  function LastEnd(spans: seq<Span>, from: nat): nat {
    if spans == [] then from else spans[|spans| - 1].end
  }

  /** Only layout precedes each token, counted from the end of the previous one. */
  predicate GapsBefore(input: seq<byte>, spans: seq<Span>) {
    forall k :: 0 <= k < |spans| ==> Gap(input, if k == 0 then 0 else spans[k - 1].end, spans[k].start, false)
  }

  /** Only layout lies before, between and after the tokens. */
  predicate GapsAreLayout(input: seq<byte>, spans: seq<Span>) {
    GapsBefore(input, spans) && Gap(input, LastEnd(spans, 0), |input|, true)
  }

  // Gaps compose.

  lemma EmptyGap(input: seq<byte>, at: nat)
    requires at <= |input|
    ensures Gap(input, at, at, false)
  {
  }

  /** A closed gap followed by a gap is a gap. */
  lemma {:induction false} GapJoin(input: seq<byte>, a: nat, b: nat, c: nat, open: bool)
    requires Gap(input, a, b, false) && Gap(input, b, c, open)
    ensures Gap(input, a, c, open)
    decreases b - a, 1
  {
    if a < b {
      if Blank(input[a]) {
        GapJoin(input, a + 1, b, c, open);
      } else {
        CommentJoin(input, a + 2, b, c, open);
      }
    }
  }

  /** A closed comment tail followed by a gap is a comment tail. */
  lemma {:induction false} CommentJoin(input: seq<byte>, i: nat, b: nat, c: nat, open: bool)
    requires RestOfComment(input, i, b, false) && Gap(input, b, c, open)
    ensures RestOfComment(input, i, c, open)
    decreases b - i, 0
  {
    if input[i] == NEWLINE {
      GapJoin(input, i + 1, b, c, open);
    } else {
      CommentJoin(input, i + 1, b, c, open);
    }
  }

  // Each scanner covers what it consumes.

  /** Base emits adjacent one-byte tokens from its start, and without a
      token it hands over at its start. */
  lemma {:induction false} BaseCovers(input: seq<byte>, i: nat)
    requires i <= |input|
    ensures Covers(input, i, BaseScan(input, i))
    ensures var r := BaseScan(input, i);
      r.step.Next? && r.emitted == [] ==> Reach(input, r.step) == i
    decreases |input| - i
  {
    if i < |input| && BaseAction(input, i).Emit? {
      var t := BaseAction(input, i).token;
      BaseCovers(input, i + 1);
      BaseScanEmits(input, i, t);
      var rest := BaseScan(input, i + 1);
      var r := BaseScan(input, i);
      if r.step.Next? {
        forall k | 0 < k < |r.emitted| ensures r.emitted[k - 1].end == r.emitted[k].start {
          if k == 1 {
            assert r.emitted[1] == rest.emitted[0];
          } else {
            assert r.emitted[k - 1] == rest.emitted[k - 2] && r.emitted[k] == rest.emitted[k - 1];
          }
        }
        forall k | 0 <= k < |r.emitted| ensures r.emitted[k].end <= |input| {
          if k > 0 {
            assert r.emitted[k] == rest.emitted[k - 1];
          }
        }
      }
    }
  }

  lemma {:induction false} SpaceCovers(input: seq<byte>, i: nat)
    requires i <= |input|
    ensures Covers(input, i, SpaceScan(input, i))
    decreases |input| - i
  {
    if i < |input| && Blank(input[i]) {
      SpaceCovers(input, i + 1);
    }
  }

  /** The rest of a comment from `i` is a comment tail up to the reach. */
  lemma {:induction false} CommentScanTail(input: seq<byte>, i: nat)
    requires i <= |input|
    ensures var r := CommentScan(input, i); RestOfComment(input, i, Reach(input, r.step), r.step.state == Done)
    decreases |input| - i
  {
    if i < |input| && input[i] != NEWLINE {
      CommentScanTail(input, i + 1);
    }
  }

  lemma CommentCovers(input: seq<byte>, start: nat)
    requires Entry(input, start, InComment)
    ensures Covers(input, start, CommentScan(input, start + 2))
  {
    CommentScanTail(input, start + 2);
    assert input[start] == input[start..start + 2][0];
  }

  lemma {:induction false} IdentCovers(input: seq<byte>, start: nat, i: nat)
    requires start < i <= |input|
    ensures Covers(input, start, IdentScan(input, start, i))
    decreases |input| - i
  {
    if i < |input| && IsAlphanumericOrUnderscore(input[i]) {
      IdentCovers(input, start, i + 1);
    }
  }

  lemma {:induction false} NumberCovers(input: seq<byte>, start: nat, i: nat, periodSeen: bool)
    requires start < i <= |input|
    ensures Covers(input, start, NumberScan(input, start, i, periodSeen))
    decreases |input| - i
  {
    if i < |input| {
      if IsDigit(input[i]) {
        NumberCovers(input, start, i + 1, periodSeen);
      } else if input[i] == PERIOD && !periodSeen {
        NumberCovers(input, start, i + 1, true);
      }
    }
  }

  lemma {:induction false} RawStringCovers(input: seq<byte>, start: nat, i: nat)
    requires i <= |input|
    ensures Covers(input, start, RawStringScan(input, start, i))
    decreases |input| - i
  {
    if i < |input| && !(input[i] == DASH && Occurs(input, i + 1, [DASH, DASH])) {
      RawStringCovers(input, start, i + 1);
    }
  }

  lemma {:induction false} StringCovers(input: seq<byte>, start: nat, i: nat, skipNext: bool)
    requires i <= |input|
    ensures Covers(input, start, StringScan(input, start, i, skipNext))
    decreases |input| - i
  {
    if i < |input| {
      if skipNext {
        StringCovers(input, start, i + 1, false);
      } else if input[i] == BACKSLASH {
        StringCovers(input, start, i + 1, true);
      } else if input[i] != QUOTE {
        StringCovers(input, start, i + 1, false);
      }
    }
  }

  /** Every scanner but the colour one covers what it consumes. */
  lemma DispatchCovers(input: seq<byte>, start: nat, state: State)
    requires state != Done && state != InColor && Entry(input, start, state) && start <= |input|
    ensures Covers(input, start, Dispatch(input, start, state))
  {
    match state
    case Base => BaseCovers(input, start);
    case InComment => CommentCovers(input, start);
    case InIdent => IdentCovers(input, start, start + 1);
    case InNumber => NumberCovers(input, start, start + 1, false);
    case InRawString => RawStringCovers(input, start, start + 3);
    case InString => StringCovers(input, start, start + 1, false);
    case Space => SpaceCovers(input, start);
  }

  // Runs keep the layout invariant.

  /** A covering scan appended after layout keeps only layout before each
      token, and leaves only layout between the last token and the reach. */
  lemma StepKeepsLayout(input: seq<byte>, start: nat, tokens: seq<Span>, s: Scan)
    requires GapsBefore(input, tokens)
    requires Gap(input, LastEnd(tokens, 0), start, false)
    requires s.step.Next? && Covers(input, start, s)
    ensures GapsBefore(input, tokens + s.emitted)
    ensures Gap(input, LastEnd(tokens + s.emitted, 0), Reach(input, s.step), s.step.state == Done)
  {
    var last := LastEnd(tokens, 0);
    var c := tokens + s.emitted;
    if s.emitted == [] {
      assert c == tokens;
      GapJoin(input, last, start, Reach(input, s.step), s.step.state == Done);
    } else {
      forall k | 0 <= k < |c| ensures Gap(input, if k == 0 then 0 else c[k - 1].end, c[k].start, false) {
        if k < |tokens| {
          assert c[k] == tokens[k];
          assert Gap(input, if k == 0 then 0 else tokens[k - 1].end, tokens[k].start, false);
          if k > 0 {
            assert c[k - 1] == tokens[k - 1];
          }
        } else if k == |tokens| {
          assert c[k] == s.emitted[0];
          if k > 0 {
            assert c[k - 1] == tokens[k - 1];
          }
          assert (if k == 0 then 0 else c[k - 1].end) == last;
        } else {
          var j := k - |tokens|;
          assert c[k - 1] == s.emitted[j - 1] && c[k] == s.emitted[j];
          assert s.emitted[j - 1].end == s.emitted[j].start;
          assert s.emitted[j - 1].end <= |input|;
          EmptyGap(input, s.emitted[j].start);
        }
      }
      assert GapsBefore(input, c);
      assert c[|c| - 1] == s.emitted[|s.emitted| - 1];
    }
  }
}
