/** Reading indented lines one after the other, and printing a forest as such lines. */
module LxmlReader {
  import opened LxmlForest

  /** A line by its form: blank or a comment; none of the forms; HTML; or the head of a node, with the length of its
      indentation. `sound` says that the rest of the line parses as a node of its kind. */
  datatype Line = Skip | Wrong | Html(text: string) | Head(shift: nat, item: Item, sound: bool)

  datatype Error =
    | WrongFormat | LooseHtml | FirstShifted | NotMultiple | TooDeep | DeepAfterHtml | BadNode | NestedDefinition

  /** What has been read: the entries so far, the width of one level (0 while unknown), whether HTML came last, and
      the number of lines. */
  datatype Reader = Reader(es: seq<Entry>, unit: nat, inHtml: bool, line: nat)

  datatype Outcome = Ok(r: Reader) | Err(error: Error)

  const START := Reader([], 0, false, 0)

  datatype Level = Level(depth: nat, unit: nat) | NoLevel(error: Error)

  function Current(es: seq<Entry>): nat {
    if es == [] then 0 else es[|es| - 1].depth
  }

  /** getDepth: the first indented line tells how wide a level is. */
  function DepthOf(shift: nat, unit: nat, line: nat, current: nat): Level {
    if shift == 0 then Level(0, unit)
    else if unit == 0 && line == 0 then NoLevel(FirstShifted)
    else
      var u := if unit == 0 then shift else unit;
      if shift % u != 0 then NoLevel(NotMultiple)
      else if shift / u > current + 1 then NoLevel(TooDeep)
      else Level(shift / u, u)
  }

  function Step(r: Reader, l: Line): Outcome {
    match l
    case Skip => Ok(r.(line := r.line + 1))
    case Wrong => Err(WrongFormat)
    case Html(text) =>
      if r.es == [] then Err(LooseHtml)
      else Ok(Reader(AddHtml(r.es, text), r.unit, true, r.line + 1))
    case Head(shift, item, sound) =>
      match HeadLevel(r, shift, item, sound)
      case NoLevel(e) => Err(e)
      case Level(depth, unit) => Ok(Reader(r.es + [Entry(item, depth, [])], unit, false, r.line + 1))
  }

  /** The depth of a node by its head, if nothing is wrong with it. */
  function HeadLevel(r: Reader, shift: nat, item: Item, sound: bool): Level {
    match DepthOf(shift, r.unit, r.line, Current(r.es))
    case NoLevel(e) => NoLevel(e)
    case Level(depth, unit) =>
      if r.inHtml && depth > Current(r.es) then NoLevel(DeepAfterHtml)
      else if !sound then NoLevel(BadNode)
      else if IsDefinition(item) && depth != 0 then NoLevel(NestedDefinition)
      else Level(depth, unit)
  }

  function AddHtml(es: seq<Entry>, text: string): (r: seq<Entry>)
    requires es != []
    ensures |r| == |es|
  {
    es[|es| - 1 := es[|es| - 1].(html := es[|es| - 1].html + [text])]
  }

  function Read(r: Reader, lines: seq<Line>): Outcome
    decreases |lines|
  {
    if lines == [] then Ok(r)
    else match Step(r, lines[0])
      case Ok(next) => Read(next, lines[1..])
      case Err(e) => Err(e)
  }

  // ---------- What is accepted ----------

  /** An entry b directly behind a: at most one deeper, and not deeper at all behind HTML. */
  predicate Joins(a: Entry, b: Entry) {
    b.depth <= a.depth + 1 && (a.html != [] ==> b.depth <= a.depth)
  }

  predicate Linked(es: seq<Entry>) {
    forall i, j :: 0 <= i < |es| - 1 && j == i + 1 ==> Joins(es[i], es[j])
  }

  predicate DefinitionsOnTop(es: seq<Entry>) {
    forall i :: 0 <= i < |es| ==> IsDefinition(es[i].item) ==> es[i].depth == 0
  }

  predicate Accepted(r: Reader) {
    && Linked(r.es) && DefinitionsOnTop(r.es) && (r.es != [] ==> r.es[0].depth <= 1)
    && (r.inHtml <==> r.es != [] && r.es[|r.es| - 1].html != [])
  }

  lemma {:induction false} LinkedPlus(a: seq<Entry>, b: seq<Entry>)
    requires Linked(a) && Linked(b) && (a != [] && b != [] ==> Joins(a[|a| - 1], b[0]))
    ensures Linked(a + b)
  {
  }

  lemma StepAccepts(r: Reader, l: Line)
    requires Accepted(r) && Step(r, l).Ok?
    ensures Accepted(Step(r, l).r)
  {
  }

  /** In an accepted text no node is more than one deeper than the node before, none is deeper than a node with HTML,
      and blocks are defined on top only. */
  lemma {:induction false} ReadAccepts(r: Reader, lines: seq<Line>)
    requires Accepted(r) && Read(r, lines).Ok?
    ensures Accepted(Read(r, lines).r)
    decreases |lines|
  {
    if lines != [] {
      StepAccepts(r, lines[0]);
      ReadAccepts(Step(r, lines[0]).r, lines[1..]);
    }
  }

  lemma {:induction false} LinkedIsStepwise(es: seq<Entry>)
    requires Linked(es)
    ensures Stepwise(es)
    decreases |es|
  {
    if |es| >= 2 {
      var most := es[..|es| - 1];
      assert forall i, j :: 0 <= i < |most| - 1 && j == i + 1 ==> most[i] == es[i] && most[j] == es[j];
      LinkedIsStepwise(most);
      assert Joins(es[|es| - 2], es[|es| - 1]);
    }
  }

  /** The forest of an accepted text: its preorder is the sequence of nodes, and every child is one deeper than its
      parent. */
  lemma AcceptedForest(lines: seq<Line>)
    requires Read(START, lines).Ok?
    ensures var es := Read(START, lines).r.es; var ts := Forest(es, 0, |es|);
      PreorderAll(ts) == es && AllWell(ts) && Falling(ts)
  {
    ReadAccepts(START, lines);
    var es := Read(START, lines).r.es;
    LinkedIsStepwise(es);
    PreorderOfForest(es, 0, |es|);
    ForestWell(es, 0, |es|);
    ForestFalls(es, 0, |es|);
    assert es[0..|es|] == es;
  }

  // ---------- Printing ----------

  function HtmlLines(html: seq<string>): seq<Line> {
    if html == [] then [] else [Html(html[0])] + HtmlLines(html[1..])
  }

  function PrintEntry(e: Entry, unit: nat): seq<Line> {
    [Head(e.depth * unit, e.item, true)] + HtmlLines(e.html)
  }

  function Print(es: seq<Entry>, unit: nat): seq<Line> {
    if es == [] then [] else PrintEntry(es[0], unit) + Print(es[1..], unit)
  }

  lemma {:induction false} ReadPlus(r: Reader, a: seq<Line>, b: seq<Line>)
    requires Read(r, a).Ok?
    ensures Read(r, a + b) == Read(Read(r, a).r, b)
    decreases |a|
  {
    if a == [] {
      assert a + b == b;
    } else {
      assert (a + b)[1..] == a[1..] + b;
      ReadPlus(Step(r, a[0]).r, a[1..], b);
    }
  }

  lemma {:induction false} ReadHtml(r: Reader, es: seq<Entry>, e: Entry, html: seq<string>)
    requires r.es == es + [e]
    ensures Read(r, HtmlLines(html))
      == Ok(Reader(es + [e.(html := e.html + html)], r.unit, r.inHtml || html != [], r.line + |html|))
    decreases |html|
  {
    if html == [] {
      assert e.html + html == e.html;
    } else {
      var next := Step(r, Html(html[0])).r;
      var f := e.(html := e.html + [html[0]]);
      assert next.es == es + [f];
      ReadHtml(next, es, f, html[1..]);
      assert f.html + html[1..] == e.html + html;
      assert HtmlLines(html)[1..] == HtmlLines(html[1..]);
    }
  }

  lemma LevelOfMultiple(depth: nat, unit: nat, known: nat, line: nat, current: nat)
    requires unit > 0 && depth <= current + 1 && (known == unit || (known == 0 && depth <= 1 && (depth == 1 ==> line > 0)))
    ensures DepthOf(depth * unit, known, line, current) == Level(depth, if depth == 0 then known else unit)
  {
    if depth > 0 {
      assert depth * unit > 0;
      assert known == 0 ==> depth * unit == unit;
      Multiple(depth, unit);
    }
  }

  lemma Multiple(depth: nat, unit: nat)
    requires unit > 0
    ensures depth * unit % unit == 0 && depth * unit / unit == depth
  {
    var x := depth * unit;
    var q, m := x / unit, x % unit;
    assert x == unit * q + m;
    Apart(depth, q, unit, m);
  }

  lemma Apart(a: int, b: int, unit: nat, m: int)
    requires unit > 0 && a * unit == unit * b + m && 0 <= m < unit
    ensures a == b && m == 0
  {
    assert unit * b == b * unit && a * unit == (a - b) * unit + b * unit;
    Small(a - b, unit, m);
  }

  lemma Small(d: int, unit: nat, m: int)
    requires d * unit == m && 0 <= m < unit
    ensures d == 0 && m == 0
  {
    if d >= 1 {
      Grows(d, 1, unit);
    } else if d <= -1 {
      Grows(-1, d, unit);
    }
  }

  lemma Grows(a: int, b: int, unit: nat)
    requires a >= b
    ensures a * unit >= b * unit
  {
    assert (a - b) * unit >= 0;
    assert a * unit == (a - b) * unit + b * unit;
  }

  /** A reader that has read the first k entries: it knows the width of a level as soon as one was indented. */
  predicate At(r: Reader, es: seq<Entry>, k: nat, unit: nat) {
    && k <= |es| && r.es == es[..k]
    && (r.unit == unit || (r.unit == 0 && Current(r.es) == 0))
    && (r.inHtml <==> k > 0 && es[k - 1].html != []) && (k > 0 ==> r.line > 0)
  }

  /** Entries that some text can have: the first on top, every other joined to the one before. */
  predicate Printable(es: seq<Entry>) {
    Linked(es) && DefinitionsOnTop(es) && (es != [] ==> es[0].depth == 0)
  }

  lemma ReadEntry(r: Reader, es: seq<Entry>, k: nat, unit: nat)
    requires unit > 0 && Printable(es) && k < |es| && At(r, es, k, unit)
    ensures Read(r, PrintEntry(es[k], unit)).Ok? && At(Read(r, PrintEntry(es[k], unit)).r, es, k + 1, unit)
  {
    var e := es[k];
    if k > 0 { assert Joins(es[k - 1], es[k]); }
    LevelOfMultiple(e.depth, unit, r.unit, r.line, Current(r.es));
    var next := Step(r, Head(e.depth * unit, e.item, true)).r;
    var f := Entry(e.item, e.depth, []);
    ReadHtml(next, es[..k], f, e.html);
    assert f.html + e.html == e.html && es[..k + 1] == es[..k] + [e];
    assert PrintEntry(e, unit)[1..] == HtmlLines(e.html);
  }

  lemma {:induction false} ReadPrinted(r: Reader, es: seq<Entry>, k: nat, unit: nat)
    requires unit > 0 && Printable(es) && At(r, es, k, unit)
    ensures Read(r, Print(es[k..], unit)).Ok? && Read(r, Print(es[k..], unit)).r.es == es
    decreases |es| - k
  {
    if k == |es| {
      assert es[k..] == [] && es[..k] == es;
    } else {
      ReadEntry(r, es, k, unit);
      assert es[k..][0] == es[k] && es[k..][1..] == es[k + 1..];
      ReadPlus(r, PrintEntry(es[k], unit), Print(es[k + 1..], unit));
      ReadPrinted(Read(r, PrintEntry(es[k], unit)).r, es, k + 1, unit);
    }
  }

  // ---------- Round trips ----------

  /** A forest that a text can have: HTML under leaves only, blocks defined on top only. */
  predicate Fine(ts: seq<Tree>, top: bool)
    decreases ts, 0
  {
    forall i :: 0 <= i < |ts| ==> FineTree(ts[i], top)
  }

  predicate FineTree(t: Tree, top: bool)
    decreases t, 1
  {
    (IsDefinition(t.entry.item) ==> top) && (t.entry.html != [] ==> t.kids == []) && Fine(t.kids, false)
  }

  lemma {:induction false} FinePreorder(ts: seq<Tree>, d: nat)
    requires AllWell(ts) && Starts(ts, d) && Fine(ts, d == 0)
    ensures Linked(PreorderAll(ts)) && DefinitionsOnTop(PreorderAll(ts)) && NoneAbove(PreorderAll(ts), 0, |PreorderAll(ts)|, d)
    ensures ts != [] ==> PreorderAll(ts) != [] && PreorderAll(ts)[0].depth == d
    decreases ts
  {
    if ts != [] {
      var t, kids, rest := ts[0], PreorderAll(ts[0].kids), PreorderAll(ts[1..]);
      FinePreorder(t.kids, d + 1);
      FinePreorder(ts[1..], d);
      LinkedPlus([t.entry], kids);
      LinkedPlus([t.entry] + kids, rest);
      assert PreorderAll(ts) == [t.entry] + kids + rest;
    }
  }

  /** Parsing the indented print of a forest gives it back, whatever the width of a level. */
  lemma PrintThenRead(ts: seq<Tree>, unit: nat)
    requires unit > 0 && AllWell(ts) && Starts(ts, 0) && Fine(ts, true)
    ensures var o := Read(START, Print(PreorderAll(ts), unit)); o.Ok? && Forest(o.r.es, 0, |o.r.es|) == ts
  {
    var es := PreorderAll(ts);
    FinePreorder(ts, 0);
    ReadPrinted(START, es, 0, unit);
    assert es[0..] == es && es[0..|es|] == es;
    ForestOfPreorder(es, 0, |es|, ts);
  }

  /** Printing what was read and reading it again changes no node, if the first node is not indented. It can only be
      indented behind blank lines or comments. */
  lemma ReadThenPrint(lines: seq<Line>, unit: nat)
    requires unit > 0 && Read(START, lines).Ok?
    ensures var es := Read(START, lines).r.es; var again := Read(START, Print(es, unit));
      if es == [] || es[0].depth == 0 then again.Ok? && again.r.es == es else again.Err?
  {
    ReadAccepts(START, lines);
    var es := Read(START, lines).r.es;
    if es == [] || es[0].depth == 0 {
      ReadPrinted(START, es, 0, unit);
      assert es[0..] == es;
    } else {
      assert es[0].depth * unit > 0;
      assert Print(es, unit)[0] == Head(es[0].depth * unit, es[0].item, true);
    }
  }
}
