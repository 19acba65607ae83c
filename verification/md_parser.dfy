/** The recursive parser: blocks of lines, expanded where a list item or a quotation holds lines of its own. */
module MdParser {
  import opened MdLines
  import opened MdBlocks

  // ---------- The parse as a function ----------

  function CutTrailing(lines: seq<Line>): (r: seq<Line>)
    ensures r <= lines && (r != [] ==> r[|r| - 1].line != "")
    ensures lines != [] && lines[0].line != "" ==> r != []
  {
    if lines != [] && lines[|lines| - 1].line == "" then CutTrailing(lines[..|lines| - 1]) else lines
  }

  lemma CutShrinks(lines: seq<Line>)
    ensures |CutTrailing(lines)| <= |lines| && AllArrows(CutTrailing(lines)) <= AllArrows(lines)
    ensures AllNormal(lines) ==> AllNormal(CutTrailing(lines))
  {
    var r := CutTrailing(lines);
    assert lines == r + lines[|r|..];
    AllArrowsPlus(r, lines[|r|..]);
    NormalParts(r, lines[|r|..]);
  }

  /** A line outside all nesting, where the content of an item ends. */
  predicate Outer(l: Line) {
    l.indent == 0 && l.line != ""
  }

  /** Behind the nested lines that go on at j. */
  function NestedEnd(lines: seq<Line>, j: nat): (e: nat)
    requires j <= |lines|
    ensures j <= e <= |lines| && (forall k :: j <= k < e ==> !Outer(lines[k])) && (e < |lines| ==> Outer(lines[e]))
    decreases |lines| - j
  {
    if j == |lines| || Outer(lines[j]) then j else NestedEnd(lines, j + 1)
  }

  function Outdent(l: Line): Line {
    if l.line != "" then l.(indent := l.indent - 1, line := StripFour(l.line)) else l
  }

  function OutdentAll(lines: seq<Line>): (r: seq<Line>)
    ensures |r| == |lines|
  {
    if lines == [] then [] else OutdentAll(lines[..|lines| - 1]) + [Outdent(lines[|lines| - 1])]
  }

  predicate NoneOuter(lines: seq<Line>) {
    forall i :: 0 <= i < |lines| ==> !Outer(lines[i])
  }

  lemma OutdentOne(l: Line)
    requires Normal(l) && !Outer(l)
    ensures AllNormal([Outdent(l)])
  {
  }

  /** Lines below the top level (or blank), one level out, are normal again. */
  lemma {:induction false} OutdentNormal(lines: seq<Line>)
    requires AllNormal(lines) && NoneOuter(lines)
    ensures AllNormal(OutdentAll(lines))
    decreases |lines|
  {
    if lines != [] {
      var most, last := lines[..|lines| - 1], lines[|lines| - 1];
      OutdentNormal(most);
      OutdentOne(last);
      NormalParts(OutdentAll(most), [Outdent(last)]);
    }
  }

  function Merged(current: Line, next: Line): Line {
    current.(line := BreakDouble(current.line) + " " + next.line)
  }

  /** The items of a list: its first line, with what belongs to it, and the items of the rest. A line that is not
      an item is joined to the item before; nested lines become the item's content. */
  function Items(kind: Kind, lines: seq<Line>): (items: seq<Line>)
    requires lines != [] ==> AllNormal(lines[1..])
    decreases |lines|, 0, 0
  {
    if |lines| <= 1 then lines
    else
      assert Normal(lines[1..][0]);
      if lines[1].line != "" then
        if IsItem(lines[1].line, kind) then
          NormalParts([lines[1]], lines[2..]);
          assert lines[1..] == [lines[1]] + lines[2..];
          [lines[0]] + Items(kind, lines[1..])
        else if IsNestedItem(lines[1].line, kind) then
          NestedIsIndented(lines[1], kind);
          WithContent(kind, lines, 1)
        else
          assert lines[1..] == [lines[1]] + lines[2..];
          NormalParts([lines[1]], lines[2..]);
          assert ([Merged(lines[0], lines[1])] + lines[2..])[1..] == lines[2..];
          Items(kind, [Merged(lines[0], lines[1])] + lines[2..])
      else if |lines| == 2 then [lines[0]]
      else if lines[2].indent == 0 then
        assert lines[1..] == [lines[1]] + lines[2..] && lines[2..] == [lines[2]] + lines[3..];
        NormalParts([lines[1]], lines[2..]);
        NormalParts([lines[2]], lines[3..]);
        assert lines[2..][1..] == lines[3..];
        [lines[0]] + Items(kind, lines[2..])
      else
        assert lines[2] == lines[1..][1];
        WithContent(kind, lines, 2)
  }

  /** The first item owns the nested lines from j on. */
  function WithContent(kind: Kind, lines: seq<Line>, j: nat): (items: seq<Line>)
    requires 0 < j < |lines| && AllNormal(lines[1..]) && lines[j].indent != 0
    decreases |lines|, 0, 0, 0
  {
    var e := NestedEnd(lines, j + 1);
    NestedNormal(lines, j);
    var current := lines[0].(content := Parsed(OutdentAll(lines[j..e])), contentSet := true);
    assert ([current] + lines[e..])[1..] == lines[e..];
    Items(kind, [current] + lines[e..])
  }

  lemma NormalSlices(lines: seq<Line>, j: nat, e: nat)
    requires 0 < j <= e <= |lines| && AllNormal(lines[1..])
    ensures AllNormal(lines[j..e]) && AllNormal(lines[e..])
  {
  }

  lemma NestedInside(lines: seq<Line>, j: nat)
    requires j < |lines| && lines[j].indent != 0
    ensures NoneOuter(lines[j..NestedEnd(lines, j + 1)])
  {
  }

  lemma NestedNormal(lines: seq<Line>, j: nat)
    requires 0 < j < |lines| && AllNormal(lines[1..]) && lines[j].indent != 0
    ensures var e := NestedEnd(lines, j + 1); AllNormal(OutdentAll(lines[j..e])) && AllNormal(lines[e..])
  {
    var e := NestedEnd(lines, j + 1);
    NormalSlices(lines, j, e);
    NestedInside(lines, j);
    OutdentNormal(lines[j..e]);
  }

  function Unquoted(lines: seq<Line>): (r: seq<Line>)
    ensures |r| == |lines|
  {
    if lines == [] then []
    else Unquoted(lines[..|lines| - 1]) + [NormalizeLine(StripQuote(lines[|lines| - 1].line))]
  }

  lemma {:induction false} UnquotedNormal(lines: seq<Line>)
    ensures AllNormal(Unquoted(lines))
    decreases |lines|
  {
    if lines != [] {
      UnquotedNormal(lines[..|lines| - 1]);
      NormalParts(Unquoted(lines[..|lines| - 1]), [NormalizeLine(StripQuote(lines[|lines| - 1].line))]);
    }
  }

  lemma ArrowsSnoc(lines: seq<Line>, l: Line)
    ensures AllArrows(lines + [l]) == AllArrows(lines) + Arrows(l.line)
  {
    AllArrowsPlus(lines, [l]);
    assert AllArrows([l]) == Arrows(l.line) + AllArrows([]);
  }

  predicate Quotes(lines: seq<Line>) {
    lines != [] && lines[0].line != "" && lines[0].line[0] == '>'
  }

  lemma UnquotedSnoc(lines: seq<Line>, l: Line)
    ensures AllArrows(Unquoted(lines + [l])) == AllArrows(Unquoted(lines)) + Arrows(NormalizeLine(StripQuote(l.line)).line)
  {
    assert (lines + [l])[..|lines|] == lines;
    ArrowsSnoc(Unquoted(lines), NormalizeLine(StripQuote(l.line)));
  }

  lemma {:induction false} UnquotedShrinks(lines: seq<Line>)
    ensures AllArrows(Unquoted(lines)) <= AllArrows(lines) - if Quotes(lines) then 1 else 0
    decreases |lines|
  {
    if lines != [] {
      var most, last := lines[..|lines| - 1], lines[|lines| - 1];
      assert lines == most + [last];
      UnquotedShrinks(most);
      UnquotedSnoc(most, last);
      ArrowsSnoc(most, last);
      UnquotedArrows(last.line);
      assert Quotes(lines) ==> Quotes(most) || most == [];
    }
  }

  /** A block of a run of at most n lines with at most a arrows. */
  predicate Expandable(b: Block, n: nat, a: nat) {
    Solid(b) && AllNormal(b.lines) && |b.lines| <= n && AllArrows(b.lines) <= a
  }

  function Expanded(b: Block, n: nat, a: nat): Block
    requires Expandable(b, n, a)
    decreases n, a, 1
  {
    CutShrinks(b.lines);
    var lines := CutTrailing(b.lines);
    if IsList(b.kind) then
      assert lines != [] ==> lines == [lines[0]] + lines[1..];
      NormalParts([lines[0]], lines[1..]);
      b.(lines := Items(b.kind, lines))
    else if b.kind == Blockquote then
      UnquotedShrinks(lines);
      UnquotedNormal(lines);
      b.(lines := [], content := Parsed(Unquoted(lines)))
    else b.(lines := lines)
  }

  function ExpandedAll(blocks: seq<Block>, n: nat, a: nat): (r: seq<Block>)
    requires forall b :: b in blocks ==> Expandable(b, n, a)
    ensures |r| == |blocks|
    decreases n, a, 2, |blocks|
  {
    if blocks == [] then []
    else ExpandedAll(blocks[..|blocks| - 1], n, a) + [Expanded(blocks[|blocks| - 1], n, a)]
  }

  lemma BlocksFit(lines: seq<Line>)
    requires AllNormal(lines)
    ensures forall b :: b in Build(START, CutTrailing(lines)) ==> Expandable(b, |lines|, AllArrows(lines))
  {
    var cut := CutTrailing(lines);
    CutShrinks(lines);
    BuildSolid(START, cut);
    BuildPartition(START, cut);
    assert START.lines + cut == cut;
    var blocks := Build(START, cut);
    forall i | 0 <= i < |blocks| ensures Expandable(blocks[i], |lines|, AllArrows(lines)) {
      OneOfFlat(blocks, i);
    }
  }

  /** processMap. It ends because a list item's content has fewer lines than its list, and a quotation as many lines
      as its block at most but an arrow less. */
  function Parsed(lines: seq<Line>): seq<Block>
    requires AllNormal(lines)
    decreases |lines|, AllArrows(lines), 3
  {
    BlocksFit(lines);
    ExpandedAll(Build(START, CutTrailing(lines)), |lines|, AllArrows(lines))
  }

  // ---------- What a renderer can rely on ----------

  /** At every depth: a kind, and lines to take the first of, except in a quotation, which has content instead. */
  predicate Renderable(b: Block)
    decreases b, 0
  {
    && b.kind != NoKind && (b.kind != Blockquote ==> b.lines != [])
    && AllRenderable(b.content)
    && forall i :: 0 <= i < |b.lines| ==> AllRenderable(b.lines[i].content)
  }

  predicate AllRenderable(blocks: seq<Block>)
    decreases blocks, 1
  {
    forall i :: 0 <= i < |blocks| ==> Renderable(blocks[i])
  }

  predicate ContentRenderable(lines: seq<Line>) {
    forall i :: 0 <= i < |lines| ==> AllRenderable(lines[i].content)
  }

  lemma PlainContent(lines: seq<Line>)
    requires AllNormal(lines)
    ensures ContentRenderable(lines)
  {
  }

  lemma {:induction false} ItemsRenderable(kind: Kind, lines: seq<Line>)
    requires lines != [] && AllNormal(lines[1..]) && AllRenderable(lines[0].content)
    ensures Items(kind, lines) != [] && ContentRenderable(Items(kind, lines))
    decreases |lines|, 0, 0
  {
    if |lines| > 1 {
      PlainContent(lines[1..]);
      assert lines[1..][0] == lines[1] && lines[1..][1..] == lines[2..];
      NormalSlices(lines, 1, 2);
      if lines[1].line != "" {
        if IsItem(lines[1].line, kind) {
          ItemsRenderable(kind, lines[1..]);
        } else if IsNestedItem(lines[1].line, kind) {
          NestedIsIndented(lines[1], kind);
          ContentItemsRenderable(kind, lines, 1);
        } else {
          var joined := [Merged(lines[0], lines[1])] + lines[2..];
          assert joined[1..] == lines[2..];
          ItemsRenderable(kind, joined);
        }
      } else if |lines| > 2 {
        assert lines[1..][1] == lines[2];
        NormalSlices(lines, 1, 3);
        if lines[2].indent == 0 {
          ItemsRenderable(kind, lines[2..]);
        } else {
          ContentItemsRenderable(kind, lines, 2);
        }
      }
    }
  }

  lemma {:induction false} ContentItemsRenderable(kind: Kind, lines: seq<Line>, j: nat)
    requires 0 < j < |lines| && AllNormal(lines[1..]) && lines[j].indent != 0
    ensures WithContent(kind, lines, j) != [] && ContentRenderable(WithContent(kind, lines, j))
    decreases |lines|, 0, 0, 0
  {
    var e := NestedEnd(lines, j + 1);
    NestedNormal(lines, j);
    var content := Parsed(OutdentAll(lines[j..e]));
    ParsedRenderable(OutdentAll(lines[j..e]));
    var next := [lines[0].(content := content, contentSet := true)] + lines[e..];
    assert next[1..] == lines[e..];
    ItemsRenderable(kind, next);
  }

  lemma {:induction false} ExpandedRenderable(b: Block, n: nat, a: nat)
    requires Expandable(b, n, a)
    ensures Renderable(Expanded(b, n, a))
    decreases n, a, 1
  {
    CutShrinks(b.lines);
    var lines := CutTrailing(b.lines);
    PlainContent(lines);
    if IsList(b.kind) {
      assert lines == [lines[0]] + lines[1..];
      NormalParts([lines[0]], lines[1..]);
      ItemsRenderable(b.kind, lines);
    } else if b.kind == Blockquote {
      UnquotedShrinks(lines);
      UnquotedNormal(lines);
      ParsedRenderable(Unquoted(lines));
    }
  }

  lemma {:induction false} ExpandedAllRenderable(blocks: seq<Block>, n: nat, a: nat)
    requires forall b :: b in blocks ==> Expandable(b, n, a)
    ensures AllRenderable(ExpandedAll(blocks, n, a))
    decreases n, a, 2, |blocks|
  {
    if blocks != [] {
      ExpandedAllRenderable(blocks[..|blocks| - 1], n, a);
      ExpandedRenderable(blocks[|blocks| - 1], n, a);
    }
  }

  /** However deep the nesting goes, every block that is rendered by its first line has one. */
  lemma {:induction false} ParsedRenderable(lines: seq<Line>)
    requires AllNormal(lines)
    ensures AllRenderable(Parsed(lines))
    decreases |lines|, AllArrows(lines), 3
  {
    BlocksFit(lines);
    ExpandedAllRenderable(Build(START, CutTrailing(lines)), |lines|, AllArrows(lines));
  }

  // ---------- The parse as the source makes it ----------

  method CutTrailingEmpty(lines0: seq<Line>) returns (lines: seq<Line>)
    ensures lines == CutTrailing(lines0)
  {
    lines := lines0;
    while |lines| > 0 && lines[|lines| - 1].line == ""
      invariant CutTrailing(lines) == CutTrailing(lines0)
    {
      lines := lines[..|lines| - 1];
    }
  }

  method ProcessMap(lines0: seq<Line>) returns (blocks: seq<Block>)
    requires AllNormal(lines0)
    ensures blocks == Parsed(lines0)
    decreases |lines0|, AllArrows(lines0), 3
  {
    BlocksFit(lines0);
    ghost var n, a := |lines0|, AllArrows(lines0);
    var lines := CutTrailingEmpty(lines0);
    blocks := BuildBlocks(lines);
    ghost var built := blocks;
    for i := 0 to |blocks|
      invariant |blocks| == |built| && HalfExpanded(built, blocks, i, n, a)
    {
      ExpandedNext(built, blocks, i, n, a);
      var b := ProcessBlock(blocks[i], n, a);
      blocks := blocks[i := b];
    }
    assert built[..|built|] == built;
  }

  /** The first i blocks are expanded, and the others are as they were built. */
  predicate HalfExpanded(built: seq<Block>, blocks: seq<Block>, i: nat, n: nat, a: nat) {
    && i <= |built| && (forall b :: b in built ==> Expandable(b, n, a))
    && blocks == ExpandedAll(built[..i], n, a) + built[i..]
  }

  lemma ExpandedNext(built: seq<Block>, blocks: seq<Block>, i: nat, n: nat, a: nat)
    requires HalfExpanded(built, blocks, i, n, a) && i < |built|
    ensures blocks[i] == built[i] && Expandable(built[i], n, a)
    ensures HalfExpanded(built, blocks[i := Expanded(built[i], n, a)], i + 1, n, a)
  {
    assert built[..i + 1][..i] == built[..i] && built[i] in built;
    assert built[i..] == [built[i]] + built[i + 1..];
  }

  /** The round of the loop of processMap for one block. */
  method ProcessBlock(b0: Block, ghost n: nat, ghost a: nat) returns (b: Block)
    requires Expandable(b0, n, a)
    ensures b == Expanded(b0, n, a)
    decreases n, a, 2
  {
    CutShrinks(b0.lines);
    var cut := CutTrailingEmpty(b0.lines);
    b := b0.(lines := cut);
    if IsList(b.kind) {
      assert cut == [cut[0]] + cut[1..];
      NormalParts([cut[0]], cut[1..]);
      b := ProcessListBlock(b);
    } else if b.kind == Blockquote {
      b := ProcessBlockquoteBlock(b, n, a);
    }
  }

  method ProcessBlockquoteBlock(b0: Block, ghost n: nat, ghost a: nat) returns (b: Block)
    requires Quotes(b0.lines) && |b0.lines| <= n && AllArrows(b0.lines) <= a
    ensures AllNormal(Unquoted(b0.lines)) && b == b0.(lines := [], content := Parsed(Unquoted(b0.lines)))
    decreases n, a, 1
  {
    UnquotedNormal(b0.lines);
    UnquotedShrinks(b0.lines);
    var lines := [];
    for i := 0 to |b0.lines|
      invariant lines == Unquoted(b0.lines[..i])
    {
      assert b0.lines[..i + 1][..i] == b0.lines[..i];
      lines := lines + [NormalizeLine(StripQuote(b0.lines[i].line))];
    }
    assert b0.lines[..|b0.lines|] == b0.lines;
    var content := ProcessMap(lines);
    b := b0.(lines := [], content := content);
  }

  // ---------- The list loop ----------

  lemma ItemAlone(kind: Kind, lines: seq<Line>, i: nat)
    requires i < |lines| && AllNormal(lines[i + 1..])
    requires i + 1 < |lines| && lines[i + 1].line != "" ==> IsItem(lines[i + 1].line, kind)
    requires i + 1 < |lines| && lines[i + 1].line == "" && i + 2 < |lines| ==> lines[i + 2].indent == 0
    ensures var next := if i + 1 < |lines| && lines[i + 1].line == "" then i + 2 else i + 1;
      AllNormal(lines[next..]) && Items(kind, lines[i..]) == [lines[i]] + Items(kind, lines[next..])
  {
  }

  lemma ItemMerged(kind: Kind, lines: seq<Line>, i: nat)
    requires i + 1 < |lines| && AllNormal(lines[i + 1..])
    requires lines[i + 1].line != "" && !IsItem(lines[i + 1].line, kind) && !IsNestedItem(lines[i + 1].line, kind)
    ensures var shorter := lines[..i] + [Merged(lines[i], lines[i + 1])] + lines[i + 2..];
      AllNormal(shorter[i + 1..]) && ItemsFrom(kind, lines, i) == ItemsFrom(kind, shorter, i)
  {
    var t, shorter := lines[i..], lines[..i] + [Merged(lines[i], lines[i + 1])] + lines[i + 2..];
    assert t[1..] == lines[i + 1..] && t[1] == lines[i + 1] && t[2..] == lines[i + 2..];
    NormalSlices(t, 1, 2);
    assert shorter[i..] == [Merged(t[0], t[1])] + t[2..];
    assert shorter[i + 1..] == lines[i + 2..];
  }

  lemma ItemNests(kind: Kind, lines: seq<Line>, i: nat, j: nat)
    requires i < j <= i + 2 && j < |lines| && AllNormal(lines[i + 1..]) && lines[j].indent != 0
    requires if j == i + 1 then lines[j].line != "" && !IsItem(lines[j].line, kind) && IsNestedItem(lines[j].line, kind)
      else lines[i + 1].line == ""
    ensures var e := NestedEnd(lines, j + 1);
      && AllNormal(OutdentAll(lines[j..e])) && AllNormal(lines[e..])
      && ItemsFrom(kind, lines, i)
        == Items(kind, [lines[i].(content := Parsed(OutdentAll(lines[j..e])), contentSet := true)] + lines[e..])
  {
    var t, k := lines[i..], j - i;
    assert t[1..] == lines[i + 1..] && t[k] == lines[j] && t[1] == lines[i + 1];
    OwnsNested(kind, t, k);
    NestedSuffix(lines, i, j);
    NestedNormal(t, k);
  }

  lemma OwnsNested(kind: Kind, lines: seq<Line>, j: nat)
    requires 0 < j <= 2 && j < |lines| && AllNormal(lines[1..]) && lines[j].indent != 0
    requires if j == 1 then lines[1].line != "" && !IsItem(lines[1].line, kind) && IsNestedItem(lines[1].line, kind)
      else lines[1].line == ""
    ensures Items(kind, lines) == WithContent(kind, lines, j)
  {
  }

  lemma NestedSuffix(lines: seq<Line>, i: nat, j: nat)
    requires i < j < |lines|
    ensures var t, e := lines[i..], NestedEnd(lines, j + 1);
      var d := NestedEnd(t, j - i + 1); t[j - i..d] == lines[j..e] && t[d..] == lines[e..]
  {
  }

  /** The inner loop: the nested lines from j on, one level out, and which lines they were. */
  method TakeNested(lines: seq<Line>, j0: nat) returns (nested: seq<Line>, j: nat, toDelete: set<nat>)
    requires j0 < |lines|
    ensures j == NestedEnd(lines, j0 + 1) && j0 < j <= |lines|
    ensures nested == OutdentAll(lines[j0..j])
    ensures forall k: nat :: k in toDelete <==> j0 <= k < j
  {
    j, nested, toDelete := j0, [], {};
    var temp, done := lines[j0], false;
    while !done
      invariant j0 <= j <= |lines| && (!done ==> j < |lines| && temp == lines[j])
      invariant Taken(lines, j0, j, nested, toDelete)
      invariant done ==> j > j0 && (j == |lines| || Outer(lines[j]))
      invariant !done && j > j0 ==> !Outer(lines[j])
      invariant forall k :: j0 < k < j ==> !Outer(lines[k])
      decreases |lines| - j, !done
    {
      if temp.line != "" {
        temp := temp.(indent := temp.indent - 1, line := StripFour(temp.line));
      }
      TakenMore(lines, j0, j, nested, toDelete);
      nested := nested + [temp];
      toDelete := toDelete + {j};
      j := j + 1;
      if j == |lines| {
        done := true;
        break;
      }
      temp := lines[j];
      if temp.indent == 0 && temp.line != "" {
        done := true;
      }
    }
    NestedEndIs(lines, j0 + 1, j);
  }

  ghost predicate Taken(lines: seq<Line>, j0: nat, j: nat, nested: seq<Line>, toDelete: set<nat>) {
    j0 <= j <= |lines| && nested == OutdentAll(lines[j0..j]) && forall k: nat :: k in toDelete <==> j0 <= k < j
  }

  lemma TakenMore(lines: seq<Line>, j0: nat, j: nat, nested: seq<Line>, toDelete: set<nat>)
    requires j < |lines| && Taken(lines, j0, j, nested, toDelete)
    ensures Taken(lines, j0, j + 1, nested + [Outdent(lines[j])], toDelete + {j})
  {
    assert lines[j0..j + 1][..j - j0] == lines[j0..j];
  }

  lemma {:induction false} NestedEndIs(lines: seq<Line>, j: nat, e: nat)
    requires j <= e <= |lines| && (forall k :: j <= k < e ==> !Outer(lines[k])) && (e < |lines| ==> Outer(lines[e]))
    ensures NestedEnd(lines, j) == e
    decreases e - j
  {
  }

  /** The lines up to i, the new line, and of the others those that are not marked. */
  method Without(lines: seq<Line>, i: nat, current: Line, toDelete: set<nat>, ghost e: nat) returns (newLines: seq<Line>)
    requires i < e <= |lines| && forall k :: i < k < |lines| ==> (k in toDelete <==> k < e)
    ensures newLines == lines[..i] + [current] + lines[e..]
  {
    newLines := lines[..i] + [current];
    ghost var kept := newLines;
    for idx := i + 1 to |lines|
      invariant newLines == kept + if idx <= e then [] else lines[e..idx]
    {
      if idx !in toDelete {
        newLines := newLines + [lines[idx]];
      }
    }
    assert lines[e..|lines|] == lines[e..];
  }

  /** With the result so far and the lines from i on still to do, the items come out as they should. */
  ghost predicate Pending(kind: Kind, items: seq<Line>, result: seq<Line>, lines: seq<Line>, i: nat) {
    i <= |lines| && (i < |lines| ==> AllNormal(lines[i + 1..])) && PendingItems(kind, items, result, lines[i..])
  }

  ghost predicate PendingItems(kind: Kind, items: seq<Line>, result: seq<Line>, rest: seq<Line>) {
    (rest != [] ==> AllNormal(rest[1..])) && items == result + Items(kind, rest)
  }

  lemma PendingStart(kind: Kind, lines: seq<Line>)
    requires lines != [] && AllNormal(lines[1..])
    ensures Pending(kind, Items(kind, lines), [], lines, 0)
  {
  }

  lemma PendingEnd(kind: Kind, items: seq<Line>, result: seq<Line>, lines: seq<Line>)
    requires Pending(kind, items, result, lines, |lines|)
    ensures items == result
  {
  }

  lemma PendingAlone(kind: Kind, items: seq<Line>, result: seq<Line>, lines: seq<Line>, i: nat, next: nat)
    requires i < |lines| && Pending(kind, items, result, lines, i)
    requires i + 1 < |lines| && lines[i + 1].line != "" ==> IsItem(lines[i + 1].line, kind)
    requires i + 1 < |lines| && lines[i + 1].line == "" && i + 2 < |lines| ==> lines[i + 2].indent == 0
    requires next == if i + 1 < |lines| && lines[i + 1].line == "" then i + 2 else i + 1
    ensures Pending(kind, items, result + [lines[i]], lines, next)
  {
    ItemAlone(kind, lines, i);
    assert result + ([lines[i]] + Items(kind, lines[next..])) == result + [lines[i]] + Items(kind, lines[next..]);
    if next < |lines| { assert lines[next..][1..] == lines[next + 1..]; TailOfTail(lines, next); }
  }

  lemma TailOfTail(lines: seq<Line>, i: nat)
    requires i < |lines| && AllNormal(lines[i..])
    ensures AllNormal(lines[i + 1..])
  {
  }

  lemma PendingSame(kind: Kind, items: seq<Line>, result: seq<Line>, lines: seq<Line>, other: seq<Line>, i: nat)
    requires i < |lines| && Pending(kind, items, result, lines, i)
    requires i < |other| && AllNormal(other[i + 1..]) && ItemsFrom(kind, lines, i) == ItemsFrom(kind, other, i)
    ensures Pending(kind, items, result, other, i)
  {
  }

  function ItemsFrom(kind: Kind, lines: seq<Line>, i: nat): seq<Line>
    requires i < |lines| && AllNormal(lines[i + 1..])
  {
    assert lines[i..][1..] == lines[i + 1..];
    Items(kind, lines[i..])
  }

  method ProcessListBlock(b0: Block) returns (b: Block)
    requires IsList(b0.kind) && b0.lines != [] && AllNormal(b0.lines[1..])
    ensures b == b0.(lines := Items(b0.kind, b0.lines))
    decreases |b0.lines|, 0, 1
  {
    var lines, l, i := b0.lines, |b0.lines|, 0;
    var result := [];
    ghost var items := Items(b0.kind, b0.lines);
    PendingStart(b0.kind, lines);
    while i < l
      invariant i <= l == |lines| <= |b0.lines|
      invariant Pending(b0.kind, items, result, lines, i)
      decreases l - i
    {
      var current := lines[i];
      if i + 1 >= l || (lines[i + 1].line != "" && IsItem(lines[i + 1].line, b0.kind)) {
        PendingAlone(b0.kind, items, result, lines, i, i + 1);
        result := result + [current];
        i := i + 1;
        continue;
      }
      var next := lines[i + 1];
      if next.line == "" && (i + 2 >= l || lines[i + 2].indent == 0) {
        PendingAlone(b0.kind, items, result, lines, i, i + 2);
        result := result + [current];
        i := i + 2;
        continue;
      }
      ghost var before := lines;
      if next.line != "" && !IsNestedItem(next.line, b0.kind) {
        lines := Join(b0.kind, lines, i);
        l := l - 1;
      } else {
        lines := Nest(b0.kind, lines, i, if next.line != "" then i + 1 else i + 2);
        l := |lines|;
      }
      PendingSame(b0.kind, items, result, before, lines, i);
    }
    PendingEnd(b0.kind, items, result, lines);
    b := b0.(lines := result);
  }

  /** The line behind the item at i is joined to it. */
  method Join(kind: Kind, lines: seq<Line>, i: nat) returns (newLines: seq<Line>)
    requires i + 1 < |lines| && AllNormal(lines[i + 1..])
    requires lines[i + 1].line != "" && !IsItem(lines[i + 1].line, kind) && !IsNestedItem(lines[i + 1].line, kind)
    ensures |newLines| == |lines| - 1 && AllNormal(newLines[i + 1..])
    ensures ItemsFrom(kind, lines, i) == ItemsFrom(kind, newLines, i)
  {
    ItemMerged(kind, lines, i);
    var current := lines[i];
    current := current.(line := BreakDouble(current.line));
    current := current.(line := current.line + " " + lines[i + 1].line);
    newLines := lines[..i + 1] + lines[i + 2..];
    newLines := newLines[i := current];
    assert newLines == lines[..i] + [current] + lines[i + 2..];
  }

  /** The item at i takes the nested lines from j on as its content. */
  method Nest(kind: Kind, lines: seq<Line>, i: nat, j: nat) returns (newLines: seq<Line>)
    requires StartsNested(kind, lines, i, j) && AllNormal(lines[i + 1..])
    ensures i < |newLines| < |lines| && AllNormal(newLines[i + 1..])
    ensures ItemsFrom(kind, lines, i) == ItemsFrom(kind, newLines, i)
    decreases |lines|, 0, 0
  {
    var nested, e, toDelete := TakeNested(lines, j);
    if j == i + 2 { toDelete := toDelete + {i + 1}; }
    NestTakes(kind, lines, i, j);
    var content := ProcessMap(nested);
    var current := lines[i].(content := content, contentSet := true);
    newLines := Without(lines, i, current, toDelete, e);
    NestKeeps(kind, lines, i, j, newLines);
  }

  /** Nested lines begin at j: directly behind the item at i, or behind one blank line. */
  predicate StartsNested(kind: Kind, lines: seq<Line>, i: nat, j: nat) {
    && i < j <= i + 2 && j < |lines|
    && if j == i + 1 then lines[j].line != "" && !IsItem(lines[j].line, kind) && IsNestedItem(lines[j].line, kind)
       else lines[i + 1].line == "" && lines[j].indent != 0
  }

  lemma NestTakes(kind: Kind, lines: seq<Line>, i: nat, j: nat)
    requires StartsNested(kind, lines, i, j) && AllNormal(lines[i + 1..])
    ensures lines[j].indent != 0 && AllNormal(OutdentAll(lines[j..NestedEnd(lines, j + 1)]))
  {
    assert lines[j] == lines[i + 1..][j - i - 1];
    if j == i + 1 { NestedIsIndented(lines[j], kind); }
    ItemNests(kind, lines, i, j);
  }

  lemma NestKeeps(kind: Kind, lines: seq<Line>, i: nat, j: nat, newLines: seq<Line>)
    requires StartsNested(kind, lines, i, j) && AllNormal(lines[i + 1..])
    requires var e := NestedEnd(lines, j + 1); var nested := OutdentAll(lines[j..e]);
      AllNormal(nested) && newLines == lines[..i] + [lines[i].(content := Parsed(nested), contentSet := true)] + lines[e..]
    ensures AllNormal(newLines[i + 1..]) && ItemsFrom(kind, lines, i) == ItemsFrom(kind, newLines, i)
  {
    NestTakes(kind, lines, i, j);
    ItemNests(kind, lines, i, j);
    var e := NestedEnd(lines, j + 1);
    PutBack(lines, i, lines[i].(content := Parsed(OutdentAll(lines[j..e])), contentSet := true), e, newLines);
  }

  lemma PutBack(lines: seq<Line>, i: nat, current: Line, e: nat, newLines: seq<Line>)
    requires i < e <= |lines| && newLines == lines[..i] + [current] + lines[e..]
    ensures newLines[i..] == [current] + lines[e..] && newLines[i + 1..] == lines[e..]
  {
  }

  // ---------- From the text ----------

  /** The lines of a text: cut at every line feed, carriage return, or pair of them. */
  function SplitLines(text: string): (lines: seq<string>)
    ensures lines != []
    decreases |text|
  {
    if text == "" then [""]
    else if |text| > 1 && text[0] == '\r' && text[1] == '\n' then [""] + SplitLines(text[2..])
    else if text[0] == '\r' || text[0] == '\n' then [""] + SplitLines(text[1..])
    else var rest := SplitLines(text[1..]); [[text[0]] + rest[0]] + rest[1..]
  }

  function NormalLines(raw: seq<string>): (lines: seq<Line>)
    ensures |lines| == |raw| && AllNormal(lines)
  {
    if raw == [] then []
    else
      var most, last := NormalLines(raw[..|raw| - 1]), NormalizeLine(raw[|raw| - 1]);
      NormalParts(most, [last]);
      most + [last]
  }

  /** parse: any text at all is parsed to an end, into the blocks of its normalized lines, and those can be rendered. */
  method Parse(text: string) returns (blocks: seq<Block>)
    ensures blocks == Parsed(NormalLines(SplitLines(text))) && AllRenderable(blocks)
  {
    var raw := SplitLines(text);
    var lines := [];
    for i := 0 to |raw|
      invariant lines == NormalLines(raw[..i])
    {
      assert raw[..i + 1][..i] == raw[..i];
      lines := lines + [NormalizeLine(raw[i])];
    }
    assert raw[..|raw|] == raw;
    ParsedRenderable(lines);
    blocks := ProcessMap(lines);
  }
}
