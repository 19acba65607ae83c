/** The block builder: one pass that gives every line a kind and cuts the lines into blocks where the kind changes. */
module MdBlocks {
  import opened MdLines

  // ---------- The pass as a function ----------

  /** The builder between two lines: the kind before the last and the last kind, whether a fence is open, how many
      blank lines came last and before that, the lines of the block so far, and the tag of its fence. */
  datatype State = State(prev: Kind, cur: Kind, fence: bool, spaces: nat, before: nat, lines: seq<Line>, tag: string)

  const START := State(NoKind, NoKind, false, 0, 0, [], "")

  predicate IsList(k: Kind) {
    k == Ordered || k == Unordered
  }

  /** The kind a blank line gets when a block is open: the block goes on inside a fence or a code block, and over
      one blank line inside a list; otherwise it ends. */
  function BlankKind(s: State): Kind {
    if s.cur == CodeBlock || s.fence || (s.spaces == 0 && IsList(s.cur)) then s.cur else NoKind
  }

  /** Lines that go on with the list they follow. */
  predicate Continues(s: State, l: Line) {
    l.indent != 0 || s.spaces == 0
  }

  /** The next line gets the kind k. */
  function Defined(s: State, k: Kind): State {
    s.(prev := s.cur, cur := k, before := s.spaces, spaces := 0)
  }

  /** The state once a line has its kind, before a finished block is put out. A line of dashes or equals signs
      under the only line so far makes that line a title: it joins its block, whatever kind that had. */
  function Typed(s: State, l: Line): State
    requires l.line == "" ==> s.cur != NoKind
  {
    if l.line == "" then
      var k := BlankKind(s);
      if k == s.cur then s.(prev := s.cur, before := s.spaces, spaces := s.spaces + 1)
      else s.(prev := s.cur, cur := k, before := s.spaces + 1, spaces := 0)
    else if TitleLevel(l.line) > 0 then Defined(s, Title(TitleLevel(l.line)))
    else if l.indent == 0 && |s.lines| == 1 && Underline(l.line, '-', 1) then Defined(s, Title(1)).(prev := Title(1))
    else if l.indent == 0 && |s.lines| == 1 && Underline(l.line, '=', 1) then Defined(s, Title(2)).(prev := Title(2))
    else TypedPlain(s, l)
  }

  /** The same for a line that is no title. */
  function TypedPlain(s: State, l: Line): State {
    if IsRule(l.line) then Defined(s, Rule)
    else if IsTable(l.line) then Defined(s, Table)
    else if l.indent != 0 && (s.cur == NoKind || s.cur == CodeBlock || s.cur.Title?) then Defined(s, CodeBlock)
    else if IsFence(l.line) && s.fence then Defined(s, CodeBlockTyped).(fence := false)
    else if IsFence(l.line) then
      Defined(s, CodeBlockTyped).(fence := true, tag := if FenceTag(l.line) != "" then FenceTag(l.line) else s.tag)
    else if s.fence then Defined(s, CodeBlockTyped)
    else Defined(s, TextKind(s, l))
  }

  /** The kind of a line that is no title, rule, table or code. */
  function TextKind(s: State, l: Line): Kind {
    if (l.line != "" && l.line[0] == '>') || s.cur == Blockquote then Blockquote
    else if IsItem(l.line, Ordered) || (s.cur == Ordered && Continues(s, l)) then Ordered
    else if IsItem(l.line, Unordered) || (s.cur == Unordered && Continues(s, l)) then Unordered
    else Paragraph
  }

  predicate Changed(s: State) {
    s.cur != s.prev && s.prev != NoKind
  }

  function FinishedBy(t: State): seq<Block> {
    if Changed(t) then [Block(t.prev, t.lines, [], t.tag)] else []
  }

  function FedBy(t: State, l: Line): State {
    var u := if Changed(t) then t.(lines := [], tag := "") else t;
    if u.cur != NoKind then u.(lines := u.lines + [l]) else u
  }

  /** The block that a line finishes, if it does. */
  function Finished(s: State, l: Line): seq<Block> {
    if l.line == "" && s.cur == NoKind then [] else FinishedBy(Typed(s, l))
  }

  function Fed(s: State, l: Line): State {
    if l.line == "" && s.cur == NoKind then s else FedBy(Typed(s, l), l)
  }

  function Last(s: State): seq<Block> {
    if s.lines != [] then [Block(s.cur, s.lines, [], s.tag)] else []
  }

  function Build(s: State, lines: seq<Line>): seq<Block>
    decreases |lines|
  {
    if lines == [] then Last(s) else Finished(s, lines[0]) + Build(Fed(s, lines[0]), lines[1..])
  }

  // ---------- The pass as the source makes it ----------

  class ParseData {
    var line: string
    var indent: int
    var spaces: nat
    var spacesBefore: nat
    var blockLines: seq<Line>
    var codeType: string

    constructor ()
      ensures spaces == 0 && spacesBefore == 0 && blockLines == [] && codeType == ""
    {
      line, indent, spaces, spacesBefore, blockLines, codeType := "", 0, 0, 0, [], "";
    }

    method IncSpaces()
      modifies `spaces, `spacesBefore
      ensures spacesBefore == old(spaces) && spaces == old(spaces) + 1
    {
      spacesBefore := spaces;
      spaces := spaces + 1;
    }

    method DropSpaces()
      modifies `spaces, `spacesBefore
      ensures spacesBefore == old(spaces) && spaces == 0
    {
      spacesBefore := spaces;
      spaces := 0;
    }
  }

  class BlocksBuilder {
    var typeDefined: bool
    var prevType: Kind
    var currentType: Kind
    var inFence: bool

    constructor ()
      ensures prevType == NoKind && currentType == NoKind && !inFence
    {
      typeDefined, prevType, currentType, inFence := false, NoKind, NoKind, false;
    }

    ghost function Now(pd: ParseData): State
      reads this, pd
    {
      State(prevType, currentType, inFence, pd.spaces, pd.spacesBefore, pd.blockLines, pd.codeType)
    }

    method DefineType(t: Kind)
      modifies `prevType, `currentType, `typeDefined
      ensures prevType == old(currentType) && currentType == t && typeDefined
    {
      prevType := currentType;
      currentType := t;
      typeDefined := true;
    }

    predicate TypeIsChanged()
      reads this
    {
      currentType != prevType && prevType != NoKind
    }

    method CheckTitle(pd: ParseData)
      modifies `prevType, `currentType, `typeDefined
      ensures TitleLevel(pd.line) > 0 ==>
        typeDefined && prevType == old(currentType) && currentType == Title(TitleLevel(pd.line))
      ensures TitleLevel(pd.line) == 0 && pd.indent == 0 && |pd.blockLines| == 1 && Underline(pd.line, '-', 1) ==>
        typeDefined && prevType == currentType == Title(1)
      ensures TitleLevel(pd.line) == 0 && pd.indent == 0 && |pd.blockLines| == 1 && !Underline(pd.line, '-', 1) && Underline(pd.line, '=', 1) ==>
        typeDefined && prevType == currentType == Title(2)
      ensures TitleLevel(pd.line) == 0 && !(pd.indent == 0 && |pd.blockLines| == 1 && (Underline(pd.line, '-', 1) || Underline(pd.line, '=', 1))) ==>
        typeDefined == old(typeDefined) && prevType == old(prevType) && currentType == old(currentType)
    {
      var level := TitleLevel(pd.line);
      if level > 0 {
        DefineType(Title(level));
      } else if pd.indent == 0 && |pd.blockLines| == 1 && Underline(pd.line, '-', 1) {
        DefineType(Title(1));
        DefineType(Title(1));
      } else if pd.indent == 0 && |pd.blockLines| == 1 && Underline(pd.line, '=', 1) {
        DefineType(Title(2));
        DefineType(Title(2));
      }
    }

    /** checkLine, checkTable, checkBlockquote and the rest: one kind, or nothing. */
    method Check(applies: bool, t: Kind)
      modifies `prevType, `currentType, `typeDefined
      ensures !applies ==> typeDefined == old(typeDefined) && prevType == old(prevType) && currentType == old(currentType)
      ensures applies ==> typeDefined && prevType == old(currentType) && currentType == t
    {
      if applies { DefineType(t); }
    }

    method CheckCodeBlockTyped(pd: ParseData)
      modifies this, pd`codeType
      ensures IsFence(pd.line) || old(inFence) ==> typeDefined && prevType == old(currentType) && currentType == CodeBlockTyped
      ensures !IsFence(pd.line) && !old(inFence) ==>
        typeDefined == old(typeDefined) && prevType == old(prevType) && currentType == old(currentType)
      ensures inFence == if IsFence(pd.line) then !old(inFence) else old(inFence)
      ensures pd.codeType == if IsFence(pd.line) && !old(inFence) && FenceTag(pd.line) != "" then FenceTag(pd.line) else old(pd.codeType)
    {
      if !IsFence(pd.line) {
        if inFence {
          DefineType(CodeBlockTyped);
        }
        return;
      }
      if inFence {
        inFence := false;
        DefineType(CodeBlockTyped);
        return;
      }
      if FenceTag(pd.line) != "" {
        pd.codeType := FenceTag(pd.line);
      }
      inFence := true;
      DefineType(CodeBlockTyped);
    }

    predicate GoesOn(pd: ParseData)
      reads pd
    {
      pd.spaces == 1 || (pd.line != "" && pd.indent == 0 && pd.spacesBefore == 0) || (pd.line != "" && pd.indent != 0)
    }

    /** The checkers in their order, each only while none before it has defined a kind. */
    method RunCheckers(pd: ParseData, ghost s: State, ghost l: Line)
      requires !typeDefined && l.line != "" && pd.line == l.line && pd.indent == l.indent
      requires Now(pd) == s.(before := s.spaces, spaces := 0)
      modifies this, pd`codeType
      ensures Now(pd) == Typed(s, l)
    {
      CheckTitle(pd);
      if !typeDefined { RunPlainCheckers(pd, s, l); }
    }

    method RunPlainCheckers(pd: ParseData, ghost s: State, ghost l: Line)
      requires !typeDefined && l.line != "" && pd.line == l.line && pd.indent == l.indent
      requires Now(pd) == s.(before := s.spaces, spaces := 0)
      modifies this, pd`codeType
      ensures Now(pd) == TypedPlain(s, l)
    {
      Check(IsRule(pd.line), Rule);
      if !typeDefined { Check(IsTable(pd.line), Table); }
      if !typeDefined {
        Check(pd.indent != 0 && (currentType == NoKind || currentType == CodeBlock || currentType.Title?), CodeBlock);
      }
      if !typeDefined { CheckCodeBlockTyped(pd); }
      if !typeDefined { RunTextCheckers(pd, s, l); }
    }

    method RunTextCheckers(pd: ParseData, ghost s: State, ghost l: Line)
      requires !typeDefined && l.line != "" && pd.line == l.line && pd.indent == l.indent
      requires Now(pd) == s.(before := s.spaces, spaces := 0)
      modifies `prevType, `currentType, `typeDefined
      ensures Now(pd) == Defined(s, TextKind(s, l))
    {
      Check((|pd.line| > 0 && pd.line[0] == '>') || (pd.line != "" && currentType == Blockquote), Blockquote);
      if !typeDefined { Check(IsItem(pd.line, Ordered) || (currentType == Ordered && GoesOn(pd)), Ordered); }
      if !typeDefined { Check(IsItem(pd.line, Unordered) || (currentType == Unordered && GoesOn(pd)), Unordered); }
      if !typeDefined { DefineType(Paragraph); }
    }

    /** One round of the loop over the lines. */
    method Feed(pd: ParseData, ld: Line) returns (flushed: seq<Block>)
      modifies this, pd
      ensures Now(pd) == Fed(old(Now(pd)), ld)
      ensures flushed == Finished(old(Now(pd)), ld)
    {
      ghost var s := Now(pd);
      flushed := [];
      typeDefined := false;
      pd.line := ld.line;
      if pd.line == "" {
        if currentType == NoKind {
          return;
        }
        pd.IncSpaces();
        if currentType == CodeBlock || inFence || (pd.spaces == 1 && (currentType == Unordered || currentType == Ordered)) {
          DefineType(currentType);
        } else {
          pd.DropSpaces();
          DefineType(NoKind);
        }
      } else {
        pd.DropSpaces();
      }
      pd.indent := ld.indent;
      if !typeDefined {
        RunCheckers(pd, s, ld);
      }
      assert Now(pd) == Typed(s, ld);
      if TypeIsChanged() {
        flushed := [Block(prevType, pd.blockLines, [], pd.codeType)];
        pd.blockLines := [];
        pd.codeType := "";
      }
      if currentType != NoKind {
        pd.blockLines := pd.blockLines + [ld];
      }
    }
  }

  lemma BuildFrom(s: State, lines: seq<Line>, i: nat, done: seq<Block>)
    requires i < |lines|
    ensures done + Build(s, lines[i..]) == done + Finished(s, lines[i]) + Build(Fed(s, lines[i]), lines[i + 1..])
  {
  }

  method BuildBlocks(lines: seq<Line>) returns (result: seq<Block>)
    ensures result == Build(START, lines)
  {
    var b := new BlocksBuilder();
    var pd := new ParseData();
    result := [];
    assert lines[0..] == lines;
    for i := 0 to |lines|
      invariant Build(START, lines) == result + Build(b.Now(pd), lines[i..])
      invariant fresh(b) && fresh(pd)
    {
      BuildFrom(b.Now(pd), lines, i, result);
      var flushed := b.Feed(pd, lines[i]);
      result := result + flushed;
    }
    if |pd.blockLines| > 0 {
      result := result + [Block(b.currentType, pd.blockLines, [], pd.codeType)];
    }
  }

  // ---------- What the blocks are ----------

  function NonBlank(lines: seq<Line>): seq<Line> {
    if lines == [] then []
    else NonBlank(lines[..|lines| - 1]) + if lines[|lines| - 1].line != "" then [lines[|lines| - 1]] else []
  }

  function Flat(blocks: seq<Block>): seq<Line> {
    if blocks == [] then [] else blocks[0].lines + Flat(blocks[1..])
  }

  lemma {:induction false} NonBlankPlus(a: seq<Line>, b: seq<Line>)
    ensures NonBlank(a + b) == NonBlank(a) + NonBlank(b)
    decreases |b|
  {
    if b == [] {
      assert a + b == a;
    } else {
      NonBlankPlus(a, b[..|b| - 1]);
      assert (a + b)[..|a + b| - 1] == a + b[..|b| - 1];
    }
  }

  lemma {:induction false} FlatPlus(a: seq<Block>, b: seq<Block>)
    ensures Flat(a + b) == Flat(a) + Flat(b)
    decreases |a|
  {
    if a == [] {
      assert a + b == b;
    } else {
      FlatPlus(a[1..], b);
      assert (a + b)[1..] == a[1..] + b;
    }
  }

  /** A block is open exactly while there are lines in it; it starts with a line of its kind. */
  predicate Steady(s: State) {
    (s.cur == NoKind <==> s.lines == []) && (s.lines != [] ==> StartsBlock(s.cur, s.lines[0]))
  }

  predicate StartsBlock(k: Kind, l: Line) {
    l.line != "" && (k == Blockquote ==> l.line[0] == '>')
  }

  predicate Solid(b: Block) {
    b.kind != NoKind && b.lines != [] && StartsBlock(b.kind, b.lines[0]) && b.content == []
  }

  /** What all ways to give a line a kind have in common. */
  predicate TypedFrom(s: State, l: Line, t: State) {
    && t.lines == s.lines
    && (if l.line == "" then t.prev == s.cur && (t.cur == s.cur || t.cur == NoKind)
        else t.cur != NoKind && (t.prev == s.cur || (t.prev == t.cur && t.cur != Blockquote && s.lines != [])))
    && (t.cur == Blockquote && l.line != "" && l.line[0] != '>' ==> s.cur == Blockquote)
  }

  lemma TypedShape(s: State, l: Line)
    requires l.line == "" ==> s.cur != NoKind
    ensures TypedFrom(s, l, Typed(s, l))
  {
  }

  lemma FedFrom(s: State, l: Line, t: State)
    requires Steady(s) && (l.line == "" ==> s.cur != NoKind) && TypedFrom(s, l, t)
    ensures Steady(FedBy(t, l)) && forall b :: b in FinishedBy(t) ==> Solid(b)
  {
  }

  lemma LinesFrom(s: State, l: Line, t: State)
    requires Steady(s) && (l.line == "" ==> s.cur != NoKind) && TypedFrom(s, l, t)
    ensures Flat(FinishedBy(t)) + FedBy(t, l).lines == s.lines + [l]
      || (l.line == "" && Flat(FinishedBy(t)) + FedBy(t, l).lines == s.lines)
  {
  }

  /** The first line of a block: whatever was open before is finished. */
  lemma FedStarts(s: State, l: Line)
    requires Steady(s)
    ensures Steady(Fed(s, l)) && forall b :: b in Finished(s, l) ==> Solid(b)
  {
    if l.line != "" || s.cur != NoKind {
      TypedShape(s, l);
      FedFrom(s, l, Typed(s, l));
    }
  }

  /** A line is put behind the open block's lines, or starts a block of its own, or is blank and dropped. */
  lemma FedLines(s: State, l: Line)
    requires Steady(s)
    ensures Flat(Finished(s, l)) + Fed(s, l).lines == s.lines + [l]
      || (l.line == "" && Flat(Finished(s, l)) + Fed(s, l).lines == s.lines)
  {
    if l.line != "" || s.cur != NoKind {
      TypedShape(s, l);
      LinesFrom(s, l, Typed(s, l));
    }
  }

  lemma {:induction false} BuildSolid(s: State, lines: seq<Line>)
    requires Steady(s)
    ensures forall b :: b in Build(s, lines) ==> Solid(b)
    decreases |lines|
  {
    if lines != [] {
      FedStarts(s, lines[0]);
      BuildSolid(Fed(s, lines[0]), lines[1..]);
    }
  }

  /** The blocks hold the lines in their order, all but blank ones between blocks. */
  ghost predicate Within(few: seq<Line>, many: seq<Line>) {
    && NonBlank(few) == NonBlank(many)
    && |few| <= |many| && AllArrows(few) <= AllArrows(many) && (AllNormal(many) ==> AllNormal(few))
  }

  lemma NormalParts(a: seq<Line>, b: seq<Line>)
    ensures AllNormal(a + b) <==> AllNormal(a) && AllNormal(b)
  {
    if AllNormal(a + b) {
      assert forall i :: 0 <= i < |a| ==> a[i] == (a + b)[i];
      assert forall i :: 0 <= i < |b| ==> b[i] == (a + b)[|a| + i];
    }
  }

  lemma WithinBehind(a: seq<Line>, few: seq<Line>, many: seq<Line>)
    requires Within(few, many)
    ensures Within(a + few, a + many)
  {
    NonBlankPlus(a, few);
    NonBlankPlus(a, many);
    AllArrowsPlus(a, few);
    AllArrowsPlus(a, many);
    NormalParts(a, few);
    NormalParts(a, many);
  }

  lemma WithinDropped(a: seq<Line>, l: Line, rest: seq<Line>)
    requires l.line == ""
    ensures Within(a + rest, a + ([l] + rest))
  {
    NonBlankPlus([l], rest);
    assert NonBlank([l]) == [];
    AllArrowsPlus([l], rest);
    NormalParts([l], rest);
    assert Within(rest, [l] + rest);
    WithinBehind(a, rest, [l] + rest);
  }

  lemma WithinTwice(a: seq<Line>, b: seq<Line>, c: seq<Line>)
    requires Within(a, b) && Within(b, c)
    ensures Within(a, c)
  {
  }

  lemma PartitionStep(done: seq<Line>, open: seq<Line>, more: seq<Line>, lines: seq<Line>, l: Line, rest: seq<Line>)
    requires Within(more, open + rest)
    requires done + open == lines + [l] || (l.line == "" && done + open == lines)
    ensures Within(done + more, lines + ([l] + rest))
  {
    WithinBehind(done, more, open + rest);
    assert done + (open + rest) == done + open + rest;
    assert lines + ([l] + rest) == lines + [l] + rest;
    if done + open != lines + [l] {
      WithinDropped(lines, l, rest);
      WithinTwice(done + more, lines + rest, lines + ([l] + rest));
    }
  }

  lemma BuildNext(s: State, l: Line, rest: seq<Line>)
    ensures Flat(Build(s, [l] + rest)) == Flat(Finished(s, l)) + Flat(Build(Fed(s, l), rest))
  {
    assert ([l] + rest)[1..] == rest;
    FlatPlus(Finished(s, l), Build(Fed(s, l), rest));
  }

  ghost predicate Partitions(s: State, lines: seq<Line>) {
    Within(Flat(Build(s, lines)), s.lines + lines)
  }

  lemma PartitionNext(s: State, l: Line, rest: seq<Line>)
    requires Steady(s) && Partitions(Fed(s, l), rest)
    ensures Partitions(s, [l] + rest)
  {
    BuildNext(s, l, rest);
    FedLines(s, l);
    PartitionStep(Flat(Finished(s, l)), Fed(s, l).lines, Flat(Build(Fed(s, l), rest)), s.lines, l, rest);
  }

  /** Block building is a partition of the lines that are not blank, in their order. */
  lemma {:induction false} BuildPartition(s: State, lines: seq<Line>)
    requires Steady(s)
    ensures Partitions(s, lines)
    decreases |lines|
  {
    if lines == [] {
      LastFlat(s);
    } else {
      FedStarts(s, lines[0]);
      BuildPartition(Fed(s, lines[0]), lines[1..]);
      PartitionNext(s, lines[0], lines[1..]);
      assert lines == [lines[0]] + lines[1..];
    }
  }

  lemma LastFlat(s: State)
    ensures Within(Flat(Last(s)), s.lines + [])
  {
  }

  /** One block is no more than all. */
  lemma {:induction false} OneOfFlat(blocks: seq<Block>, i: nat)
    requires i < |blocks|
    ensures |blocks[i].lines| <= |Flat(blocks)| && AllArrows(blocks[i].lines) <= AllArrows(Flat(blocks))
    ensures AllNormal(Flat(blocks)) ==> AllNormal(blocks[i].lines)
    decreases |blocks|
  {
    var first, rest := blocks[0].lines, Flat(blocks[1..]);
    AllArrowsPlus(first, rest);
    NormalParts(first, rest);
    if i > 0 { OneOfFlat(blocks[1..], i - 1); }
  }

  /** A fence line that opens a fence, and is not taken for something else. */
  predicate OpensFence(s: State, l: Line) {
    l.line != "" && Typed(s, l).cur == CodeBlockTyped && Typed(s, l).fence && !s.fence
  }

  /** Where the tag of an opening fence goes: to the fence's own block if no block is open or the open one is itself
      a fence; otherwise to the block that the fence finishes, and the fence is left without. */
  lemma FenceTagGoes(s: State, l: Line)
    requires Steady(s) && OpensFence(s, l) && FenceTag(l.line) != ""
    ensures Fed(s, l).tag == FenceTag(l.line) <==> s.cur == NoKind || s.cur == CodeBlockTyped
    ensures s.cur != NoKind && s.cur != CodeBlockTyped ==>
      Fed(s, l).tag == "" && Finished(s, l) == [Block(s.cur, s.lines, [], FenceTag(l.line))]
  {
  }
}
