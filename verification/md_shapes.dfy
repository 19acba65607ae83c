/** What the blocks of a markdown text look like, said of their lines kind by kind: how a block starts, which lines go on
    with it, and where it ends. The block builder's pass gives the one cutting of the lines that keeps to this. */
module MdShapes {
  import opened MdLines
  import opened MdBlocks

  // ---------- Lines ----------

  /** A title with its mark, a rule or a row of a table: what these lines are, they are everywhere. */
  predicate Marked(l: Line) {
    TitleLevel(l.line) > 0 || IsRule(l.line) || IsTable(l.line)
  }

  predicate Quoted(l: Line) {
    l.line != "" && l.line[0] == '>'
  }

  /** A line under a title that has no mark. */
  predicate Underlines(l: Line, level: nat) {
    l.indent == 0 && ((level == 1 && Underline(l.line, '-', 1)) || (level == 2 && Underline(l.line, '=', 1)))
  }

  /** Whether a code fence is open behind the lines: every fence line opens or closes one. */
  function FenceAfter(ls: seq<Line>, fence: bool): bool {
    if ls == [] then fence else FenceAfter(ls[..|ls| - 1], fence) != IsFence(ls[|ls| - 1].line)
  }

  /** An indented line is code at the start of a block, unless it stands directly behind one that is no title. */
  predicate Indented(l: Line, after: Kind) {
    l.indent != 0 && (after == NoKind || after == CodeBlock || after.Title?)
  }

  // ---------- Blocks ----------

  /** The line can be the first of a block of kind k; `after` is the kind of the block directly before, if one is. */
  predicate Starts(k: Kind, l: Line, fence: bool, after: Kind) {
    l.line != "" && match k
    case Title(n) => n > 0 && TitleLevel(l.line) == n
    case Rule => IsRule(l.line)
    case Table => IsTable(l.line)
    case CodeBlock => Indented(l, after)
    case CodeBlockTyped => !Marked(l) && !Indented(l, after) && (IsFence(l.line) || fence)
    case Blockquote => !fence && Quoted(l)
    case Ordered => !fence && IsItem(l.line, Ordered)
    case Unordered => !fence && IsItem(l.line, Unordered)
    case Paragraph =>
      && !fence && !Marked(l) && !Indented(l, after) && !IsFence(l.line) && !Quoted(l)
      && !IsItem(l.line, Ordered) && !IsItem(l.line, Unordered)
    case NoKind => false
  }

  /** The line goes on with a block of kind k whose last line is `last`. */
  predicate Follows(k: Kind, last: Line, l: Line, fence: bool) {
    if l.line == "" then k == CodeBlock || fence || (IsList(k) && last.line != "")
    else match k
      case Title(n) => n > 0 && TitleLevel(l.line) == n
      case Rule => IsRule(l.line)
      case Table => IsTable(l.line)
      case CodeBlock => l.indent != 0
      case CodeBlockTyped => !Marked(l) && (IsFence(l.line) || fence)
      case _ => !fence && !Marked(l) && !IsFence(l.line) && FollowsText(k, last, l)
  }

  /** A list goes on with its items, with what is indented, and with what stands directly under it. */
  predicate FollowsText(k: Kind, last: Line, l: Line) {
    match k
    case Blockquote => true
    case Ordered => !Quoted(l) && (IsItem(l.line, Ordered) || l.indent != 0 || last.line != "")
    case Unordered => !Quoted(l) && !IsItem(l.line, Ordered) && (IsItem(l.line, Unordered) || l.indent != 0 || last.line != "")
    case Paragraph => !Quoted(l) && !IsItem(l.line, Ordered) && !IsItem(l.line, Unordered)
    case _ => false
  }

  predicate Titled(ls: seq<Line>) {
    |ls| >= 2 && (Underlines(ls[1], 1) || Underlines(ls[1], 2))
  }

  /** One more line belongs to the block: it goes on with it, or underlines its only line. */
  predicate Joins(k: Kind, ls: seq<Line>, l: Line, fence: bool)
    requires ls != []
  {
    (|ls| == 1 && (Underlines(l, 1) || Underlines(l, 2))) || Follows(k, ls[|ls| - 1], l, FenceAfter(ls, fence))
  }

  /** What the lines of a block of kind k are. */
  predicate IsBlock(k: Kind, ls: seq<Line>, fence: bool, after: Kind) {
    && ls != [] && ls[0].line != ""
    && (if Titled(ls) then k.Title? && Underlines(ls[1], k.level) else Starts(k, ls[0], fence, after))
    && forall j :: 1 <= j < |ls| ==> JoinsAt(k, ls, j, fence)
  }

  /** Line j of the block belongs to what stands before it. */
  predicate JoinsAt(k: Kind, ls: seq<Line>, j: int, fence: bool) {
    1 <= j < |ls| && Joins(k, ls[..j], ls[j], fence)
  }

  /** The lines are cut into such blocks, each as long as it can be, with blank lines between them left out. */
  predicate IsCut(lines: seq<Line>, blocks: seq<Block>, fence: bool, after: Kind)
    decreases |lines|
  {
    if lines == [] then blocks == []
    else if lines[0].line == "" then IsCut(lines[1..], blocks, fence, NoKind)
    else
      blocks != []
      && var k, ls := blocks[0].kind, blocks[0].lines;
        && ls <= lines && IsBlock(k, ls, fence, after)
        && (|ls| < |lines| ==> !Joins(k, ls, lines[|ls|], fence))
        && IsCut(lines[|ls|..], blocks[1..], FenceAfter(ls, fence), k)
  }

  // ---------- The pass keeps to it ----------

  lemma {:induction false} TrimmedStart(s: string)
    ensures TrimRight(s) <= s
    decreases |s|
  {
    if s != "" && AllSpace(s[|s| - 1..]) { TrimmedStart(s[..|s| - 1]); }
  }

  lemma RunStarts(s: string, c: char, n: nat)
    requires Run(s, c) >= n
    ensures n > 0 ==> |s| > 0 && s[0] == c
    ensures n > 1 ==> |s| > 1 && s[1] == c
  {
  }

  /** The first characters tell the patterns apart. */
  lemma Patterns(s: string)
    ensures TitleLevel(s) > 0 ==> s != "" && s[0] == '#'
    ensures IsRule(s) ==> |s| > 1 && s[0] in {'-', '*'} && s[1] == s[0]
    ensures IsTable(s) ==> s != "" && s[0] == '|'
    ensures IsFence(s) ==> s[0] in {'`', '~'}
    ensures IsItem(s, Ordered) ==> s != "" && Digit(s[0])
    ensures IsItem(s, Unordered) ==> |s| > 1 && s[0] in {'*', '+', '-'} && s[1] == ' '
    ensures Underline(s, '-', 1) ==> s != "" && s[0] == '-'
    ensures Underline(s, '=', 1) ==> s != "" && s[0] == '='
  {
    TrimmedStart(s);
    RunStarts(s, '-', if IsRule(s) && Underline(s, '-', 3) then 3 else 0);
    RunStarts(s, '*', if IsRule(s) && Underline(s, '*', 3) then 3 else 0);
    if IsFence(s) { assert s[0] == s[..3][0]; }
  }

  /** An indented line has none of them. */
  lemma IndentedPlain(l: Line)
    requires Normal(l) && l.indent != 0
    ensures l.line != "" && l.line[0] == ' '
  {
  }

  /** What the builder knows inside a block: its kind, its lines, and the fence. */
  predicate Opened(s: State, fence: bool, after: Kind) {
    && IsBlock(s.cur, s.lines, fence, after) && s.cur != NoKind && s.fence == FenceAfter(s.lines, fence)
    && (s.spaces == 0 <==> s.lines[|s.lines| - 1].line != "")
  }

  lemma FenceMore(ls: seq<Line>, l: Line, fence: bool)
    ensures FenceAfter(ls + [l], fence) == (FenceAfter(ls, fence) != IsFence(l.line))
  {
    assert (ls + [l])[..|ls|] == ls;
  }

  /** A fence line is neither indented nor marked: the builder's flag turns over with it. */
  lemma FenceTurns(s: State, l: Line)
    requires Normal(l) && (l.line == "" ==> s.cur != NoKind)
    ensures Typed(s, l).fence == (s.fence != IsFence(l.line))
  {
    if l.indent != 0 { IndentedPlain(l); }
    Patterns(l.line);
  }

  /** Which lines keep the kind of the open block. */
  lemma KeepsKind(s: State, l: Line, last: Line)
    requires Normal(l) && s.cur != NoKind && (s.spaces == 0 <==> last.line != "")
    requires !(|s.lines| == 1 && (Underlines(l, 1) || Underlines(l, 2)))
    ensures Typed(s, l).cur == s.cur <==> Follows(s.cur, last, l, s.fence)
  {
    if l.indent != 0 { IndentedPlain(l); }
    Patterns(l.line);
  }

  lemma StartsKind(s: State, l: Line)
    requires Normal(l) && l.line != "" && (s.cur == NoKind ==> s.lines == [])
    requires !(|s.lines| == 1 && (Underlines(l, 1) || Underlines(l, 2))) && Typed(s, l).cur != s.cur
    ensures Starts(Typed(s, l).cur, l, s.fence, s.cur)
  {
    if l.indent != 0 { IndentedPlain(l); }
    Patterns(l.line);
  }

  lemma UnderlineJoins(s: State, l: Line)
    requires Normal(l) && |s.lines| == 1 && (Underlines(l, 1) || Underlines(l, 2))
    ensures Typed(s, l).cur.Title? && Typed(s, l).prev == Typed(s, l).cur && Underlines(l, Typed(s, l).cur.level)
    ensures l.line != "" && !IsFence(l.line)
  {
    Patterns(l.line);
  }

  /** One more line of the block. */
  lemma BlockGrows(k: Kind, t: Kind, ls: seq<Line>, l: Line, fence: bool, after: Kind)
    requires IsBlock(k, ls, fence, after) && Joins(k, ls, l, fence)
    requires t == k || (|ls| == 1 && t.Title?)
    requires if |ls| == 1 && (Underlines(l, 1) || Underlines(l, 2)) then t.Title? && Underlines(l, t.level) else t == k
    ensures IsBlock(t, ls + [l], fence, after)
  {
    var more := ls + [l];
    assert more[..|ls|] == ls && forall j :: 1 <= j < |ls| ==> more[..j] == ls[..j];
    assert |ls| >= 2 ==> more[1] == ls[1] && t == k;
    forall j | 1 <= j < |more| ensures JoinsAt(t, more, j, fence) {
      if j < |ls| { assert JoinsAt(k, ls, j, fence); }
    }
  }

  /** What all ways to give a line a kind leave as it is. */
  lemma TypedRest(s: State, l: Line)
    requires l.line == "" ==> s.cur != NoKind
    ensures var t := Typed(s, l);
      && t.lines == s.lines && (l.line != "" ==> t.spaces == 0 && t.cur != NoKind)
      && (l.line == "" && t.cur == s.cur ==> t.spaces > 0)
      && (l.line == "" && t.cur != s.cur ==> t.cur == NoKind)
      && (!(|s.lines| == 1 && (Underlines(l, 1) || Underlines(l, 2))) ==> t.prev == s.cur)
  {
  }

  lemma StaysOpen(s: State, l: Line)
    requires s.cur != NoKind && (Typed(s, l).cur == Typed(s, l).prev || Typed(s, l).prev == NoKind) && Typed(s, l).cur != NoKind
    ensures Finished(s, l) == [] && Fed(s, l) == Typed(s, l).(lines := Typed(s, l).lines + [l])
  {
  }

  lemma OpensNew(t: State, l: Line, fence: bool, after: Kind)
    requires t.lines == [l] && Starts(t.cur, l, fence, after) && t.fence == (fence != IsFence(l.line)) && t.spaces == 0
    ensures Opened(t, fence, after)
  {
    FenceMore([], l, fence);
    assert [] + [l] == [l];
  }

  /** The line starts a block. */
  lemma NewKind(s: State, l: Line)
    requires Normal(l) && l.line != "" && (s.cur == NoKind ==> s.lines == [])
    requires !(|s.lines| == 1 && (Underlines(l, 1) || Underlines(l, 2))) && Typed(s, l).cur != s.cur
    ensures Opened(Typed(s, l).(lines := [l], tag := ""), s.fence, s.cur)
    ensures Opened(Typed(s, l).(lines := [l]), s.fence, s.cur)
  {
    FenceTurns(s, l);
    TypedRest(s, l);
    StartsKind(s, l);
    OpensNew(Typed(s, l).(lines := [l], tag := ""), l, s.fence, s.cur);
    OpensNew(Typed(s, l).(lines := [l]), l, s.fence, s.cur);
  }

  lemma StepJoins(s: State, l: Line, fence: bool, after: Kind)
    requires Opened(s, fence, after) && Normal(l) && Joins(s.cur, s.lines, l, fence)
    ensures Finished(s, l) == [] && Fed(s, l).lines == s.lines + [l] && Opened(Fed(s, l), fence, after)
  {
    FenceTurns(s, l);
    FenceMore(s.lines, l, fence);
    TypedRest(s, l);
    if |s.lines| == 1 && (Underlines(l, 1) || Underlines(l, 2)) {
      UnderlineJoins(s, l);
    } else {
      KeepsKind(s, l, s.lines[|s.lines| - 1]);
    }
    StaysOpen(s, l);
    BlockGrows(s.cur, Typed(s, l).cur, s.lines, l, fence, after);
  }

  lemma StepEnds(s: State, l: Line, fence: bool, after: Kind) returns (tag: string)
    requires Opened(s, fence, after) && Normal(l) && !Joins(s.cur, s.lines, l, fence)
    ensures Finished(s, l) == [Block(s.cur, s.lines, [], tag)]
    ensures l.line == "" ==> Closed(Fed(s, l)) && Fed(s, l).fence == FenceAfter(s.lines, fence)
    ensures l.line != "" ==> Fed(s, l).lines == [l] && Opened(Fed(s, l), FenceAfter(s.lines, fence), s.cur)
  {
    FenceTurns(s, l);
    TypedRest(s, l);
    KeepsKind(s, l, s.lines[|s.lines| - 1]);
    tag := Typed(s, l).tag;
    Ended(s, l);
    if l.line != "" { NewKind(s, l); }
  }

  lemma Ended(s: State, l: Line)
    requires s.cur != NoKind && Typed(s, l).prev == s.cur != Typed(s, l).cur && Typed(s, l).lines == s.lines
    ensures Finished(s, l) == [Block(s.cur, s.lines, [], Typed(s, l).tag)]
    ensures Fed(s, l) == Typed(s, l).(lines := if Typed(s, l).cur == NoKind then [] else [l], tag := "")
  {
    assert [] + [l] == [l];
  }

  predicate Closed(s: State) {
    s.cur == NoKind && s.lines == []
  }

  lemma StepStarts(s: State, l: Line)
    requires Closed(s) && Normal(l) && l.line != ""
    ensures Finished(s, l) == [] && Fed(s, l).lines == [l] && Opened(Fed(s, l), s.fence, NoKind)
  {
    TypedRest(s, l);
    NewKind(s, l);
    assert s.lines + [l] == [l];
    assert Fed(s, l) == Typed(s, l).(lines := [l]);
  }

  /** The first block of a cutting. */
  lemma CutFirst(k: Kind, ls: seq<Line>, tag: string, rest: seq<Line>, behind: seq<Block>, fence: bool, after: Kind)
    requires IsBlock(k, ls, fence, after) && (rest != [] ==> !Joins(k, ls, rest[0], fence))
    requires IsCut(rest, behind, FenceAfter(ls, fence), k)
    ensures IsCut(ls + rest, [Block(k, ls, [], tag)] + behind, fence, after)
  {
    var all, blocks := ls + rest, [Block(k, ls, [], tag)] + behind;
    assert all[0] == ls[0] && all[|ls|..] == rest && ls <= all && blocks[1..] == behind;
    assert rest != [] ==> all[|ls|] == rest[0];
  }

  lemma {:induction false} OpenedCut(s: State, rest: seq<Line>, fence: bool, after: Kind)
    requires Opened(s, fence, after) && AllNormal(rest)
    ensures IsCut(s.lines + rest, Build(s, rest), fence, after)
    decreases |rest|, 1
  {
    if rest == [] {
      CutFirst(s.cur, s.lines, s.tag, [], [], fence, after);
      assert Build(s, []) == [Block(s.cur, s.lines, [], s.tag)] + [];
    } else if Joins(s.cur, s.lines, rest[0], fence) {
      StepJoins(s, rest[0], fence, after);
      OpenedCut(Fed(s, rest[0]), rest[1..], fence, after);
      JoinedCut(s, rest, Fed(s, rest[0]), fence, after);
    } else {
      BehindCut(s, rest, fence, after);
      EndedCut(s, rest, fence, after);
    }
  }

  lemma SameCut(a: seq<Line>, x: seq<Block>, b: seq<Line>, y: seq<Block>, fence: bool, after: Kind)
    requires a == b && x == y && IsCut(a, x, fence, after)
    ensures IsCut(b, y, fence, after)
  {
  }

  lemma Regrouped(ls: seq<Line>, more: seq<Line>, rest: seq<Line>)
    requires rest != [] && more == ls + [rest[0]]
    ensures more + rest[1..] == ls + rest
  {
    assert rest == [rest[0]] + rest[1..];
  }

  lemma BuildOn(s: State, rest: seq<Line>, out: seq<Block>, next: State)
    requires rest != [] && out == Finished(s, rest[0]) && next == Fed(s, rest[0])
    ensures Build(s, rest) == out + Build(next, rest[1..])
  {
  }

  /** From a line that joins the block on. */
  lemma {:induction false} JoinedCut(s: State, rest: seq<Line>, next: State, fence: bool, after: Kind)
    requires rest != [] && Finished(s, rest[0]) == [] && next == Fed(s, rest[0]) && next.lines == s.lines + [rest[0]]
    requires IsCut(next.lines + rest[1..], Build(next, rest[1..]), fence, after)
    ensures IsCut(s.lines + rest, Build(s, rest), fence, after)
  {
    Regrouped(s.lines, next.lines, rest);
    BuildOn(s, rest, [], next);
    SameCut(next.lines + rest[1..], Build(next, rest[1..]), s.lines + rest, Build(s, rest), fence, after);
  }

  lemma EndedCut(s: State, rest: seq<Line>, fence: bool, after: Kind)
    requires Opened(s, fence, after) && AllNormal(rest) && rest != [] && !Joins(s.cur, s.lines, rest[0], fence)
    requires IsCut(rest, Build(Fed(s, rest[0]), rest[1..]), FenceAfter(s.lines, fence), s.cur)
    ensures IsCut(s.lines + rest, Build(s, rest), fence, after)
  {
    var tag := StepEnds(s, rest[0], fence, after);
    CutFirst(s.cur, s.lines, tag, rest, Build(Fed(s, rest[0]), rest[1..]), fence, after);
  }

  lemma {:induction false} BehindCut(s: State, rest: seq<Line>, fence: bool, after: Kind)
    requires Opened(s, fence, after) && AllNormal(rest) && rest != [] && !Joins(s.cur, s.lines, rest[0], fence)
    ensures IsCut(rest, Build(Fed(s, rest[0]), rest[1..]), FenceAfter(s.lines, fence), s.cur)
    decreases |rest|, 0
  {
    var f := FenceAfter(s.lines, fence);
    var _ := StepEnds(s, rest[0], fence, after);
    if rest[0].line == "" {
      ClosedCut(Fed(s, rest[0]), rest[1..]);
      BlankCut(rest, Build(Fed(s, rest[0]), rest[1..]), f, s.cur);
    } else {
      OpenedCut(Fed(s, rest[0]), rest[1..], f, s.cur);
      assert [rest[0]] + rest[1..] == rest;
    }
  }

  lemma BlankCut(lines: seq<Line>, blocks: seq<Block>, fence: bool, after: Kind)
    requires lines != [] && lines[0].line == "" && IsCut(lines[1..], blocks, fence, NoKind)
    ensures IsCut(lines, blocks, fence, after)
  {
  }

  lemma {:induction false} ClosedCut(s: State, lines: seq<Line>)
    requires Closed(s) && AllNormal(lines)
    ensures IsCut(lines, Build(s, lines), s.fence, NoKind)
    decreases |lines|, 0
  {
    if lines != [] {
      if lines[0].line == "" {
        ClosedCut(s, lines[1..]);
        assert Build(s, lines) == Build(s, lines[1..]);
        BlankCut(lines, Build(s, lines), s.fence, NoKind);
      } else {
        StepStarts(s, lines[0]);
        OpenedCut(Fed(s, lines[0]), lines[1..], s.fence, NoKind);
        JoinedCut(s, lines, Fed(s, lines[0]), s.fence, NoKind);
        assert s.lines + lines == lines;
      }
    }
  }

  /** The blocks of the builder are such a cutting. */
  lemma BuildCuts(lines: seq<Line>)
    requires AllNormal(lines)
    ensures IsCut(lines, Build(START, lines), false, NoKind)
  {
    ClosedCut(START, lines);
  }

  // ---------- There is no other ----------

  /** How a block starts tells its kind. */
  lemma OneStart(k: Kind, m: Kind, l: Line, fence: bool, after: Kind)
    requires Normal(l) && Starts(k, l, fence, after) && Starts(m, l, fence, after)
    ensures k == m
  {
    if l.indent != 0 { IndentedPlain(l); }
    Patterns(l.line);
  }

  lemma OneTitle(k: Kind, m: Kind, l: Line)
    requires k.Title? && m.Title? && Underlines(l, k.level) && Underlines(l, m.level)
    ensures k == m
  {
    Patterns(l.line);
  }

  /** A block that the next line does not join is no shorter than another of its kind. */
  lemma Longest(lines: seq<Line>, m: Kind, ls: seq<Line>, ms: seq<Line>, fence: bool, after: Kind)
    requires IsBlock(m, ms, fence, after) && ls != [] && ls <= lines && ms <= lines
    requires |ls| < |lines| ==> !Joins(m, ls, lines[|ls|], fence)
    ensures |ms| <= |ls|
  {
    assert |ls| <= |ms| ==> ms[..|ls|] == ls;
    if |ls| < |ms| { JoinsWithin(m, ms, |ls|, fence, after); }
  }

  lemma JoinsWithin(k: Kind, ls: seq<Line>, n: int, fence: bool, after: Kind)
    requires IsBlock(k, ls, fence, after) && 1 <= n < |ls|
    ensures Joins(k, ls[..n], ls[n], fence)
  {
    assert JoinsAt(k, ls, n, fence);
  }

  /** Of two cuttings the first blocks are the same. */
  lemma OneBlock(lines: seq<Line>, k: Kind, ls: seq<Line>, m: Kind, ms: seq<Line>, fence: bool, after: Kind)
    requires AllNormal(lines) && lines != [] && ls <= lines && ms <= lines
    requires IsBlock(k, ls, fence, after) && IsBlock(m, ms, fence, after) && |ls| <= |ms|
    requires |ls| < |lines| ==> !Joins(k, ls, lines[|ls|], fence)
    ensures k == m && ls == ms
  {
    assert ls[0] == ms[0] == lines[0];
    if |ls| >= 2 { assert ls[1] == ms[1] == lines[1]; }
    if |ls| == 1 && |ms| >= 2 { assert ms[1] == lines[1] && ms[..1] == ls; }
    if Titled(ls) { OneTitle(k, m, ls[1]); } else { OneStart(k, m, lines[0], fence, after); }
    Longest(lines, m, ls, ms, fence, after);
  }

  predicate SameBlocks(a: seq<Block>, b: seq<Block>) {
    |a| == |b| && forall i :: 0 <= i < |a| ==> a[i].kind == b[i].kind && a[i].lines == b[i].lines
  }

  /** Two cuttings of the same lines have the same blocks, but for the tags of fences. */
  lemma {:induction false} OneCut(lines: seq<Line>, a: seq<Block>, b: seq<Block>, fence: bool, after: Kind)
    requires AllNormal(lines) && IsCut(lines, a, fence, after) && IsCut(lines, b, fence, after)
    ensures SameBlocks(a, b)
    decreases |lines|
  {
    if lines != [] {
      if lines[0].line == "" {
        OneCut(lines[1..], a, b, fence, NoKind);
      } else {
        var x, y := a[0], b[0];
        if |x.lines| <= |y.lines| {
          OneBlock(lines, x.kind, x.lines, y.kind, y.lines, fence, after);
        } else {
          OneBlock(lines, y.kind, y.lines, x.kind, x.lines, fence, after);
        }
        OneCut(lines[|x.lines|..], a[1..], b[1..], FenceAfter(x.lines, fence), x.kind);
        assert forall i :: 0 < i < |a| ==> a[i] == a[1..][i - 1] && b[i] == b[1..][i - 1];
      }
    }
  }

  // ---------- A fence that does not hold ----------

  function Plainly(s: string): Line {
    Line(s, s, 0, [], false)
  }

  lemma FenceOpens()
    ensures var a := Plainly("```");
      Fed(START, a) == State(NoKind, CodeBlockTyped, true, 0, 0, [a], "") && Finished(START, a) == []
  {
    var s := "```";
    Patterns(s);
    assert s[0] == '`' && s[..3] == s && s[3..] == "";
    assert IsFence(s) && FenceTag(s) == "";
    assert [] + [Plainly(s)] == [Plainly(s)];
  }

  lemma TitleInside(ls: seq<Line>)
    requires |ls| == 1
    ensures var b := Plainly("# a");
      && Fed(State(NoKind, CodeBlockTyped, true, 0, 0, ls, ""), b) == State(CodeBlockTyped, Title(1), true, 0, 0, [b], "")
      && Finished(State(NoKind, CodeBlockTyped, true, 0, 0, ls, ""), b) == [Block(CodeBlockTyped, ls, [], "")]
  {
    var s := "# a";
    assert s[0] == '#' && s[1..][0] == ' ' && Run(s[1..], '#') == 0;
    assert TitleLevel(s) == 1;
    assert [] + [Plainly(s)] == [Plainly(s)];
  }

  lemma FenceGoesOn(ls: seq<Line>)
    requires |ls| == 1
    ensures var c := Plainly("b");
      && Fed(State(CodeBlockTyped, Title(1), true, 0, 0, ls, ""), c) == State(Title(1), CodeBlockTyped, true, 0, 0, [c], "")
      && Finished(State(CodeBlockTyped, Title(1), true, 0, 0, ls, ""), c) == [Block(Title(1), ls, [], "")]
  {
    var s := "b";
    Patterns(s);
    assert s[0] == 'b';
    assert [] + [Plainly(s)] == [Plainly(s)];
  }

  lemma BuildThree(s: State, a: Line, b: Line, c: Line)
    ensures var t := Fed(s, a); var u := Fed(t, b); var v := Fed(u, c);
      Build(s, [a, b, c]) == Finished(s, a) + (Finished(t, b) + (Finished(u, c) + Last(v)))
  {
    var t := Fed(s, a);
    BuildOn(s, [a, b, c], Finished(s, a), t);
    assert [a, b, c][1..] == [b, c] && [b, c][1..] == [c] && [c][1..] == [];
    BuildOn(t, [b, c], Finished(t, b), Fed(t, b));
    BuildOn(Fed(t, b), [c], Finished(Fed(t, b), c), Fed(Fed(t, b), c));
  }

  /** A line with a title's mark is a title inside a fence too: it interrupts the code, which goes on behind it as a block
      that starts with no fence. */
  lemma FenceInterrupted()
    ensures var a, b, c := Plainly("```"), Plainly("# a"), Plainly("b");
      Build(START, [a, b, c]) == [Block(CodeBlockTyped, [a], [], ""), Block(Title(1), [b], [], ""), Block(CodeBlockTyped, [c], [], "")]
  {
    var a, b, c := Plainly("```"), Plainly("# a"), Plainly("b");
    BuildThree(START, a, b, c);
    FenceOpens();
    TitleInside([a]);
    FenceGoesOn([b]);
  }
}
