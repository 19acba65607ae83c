/** Which texts the node reader accepts, and what they say: read off the lines alone. */
module LxmlSpelling {
  import opened LxmlForest
  import opened LxmlReader

  /** The lines write the entries down: blank lines and comments apart, each node has its line, indented by as many widths
      of a level as its depth says, and its HTML line by line under it. */
  predicate Spelled(lines: seq<Line>, es: seq<Entry>, unit: nat)
    decreases |lines|
  {
    if lines == [] then es == []
    else
      var most := lines[..|lines| - 1];
      match lines[|lines| - 1]
      case Skip => Spelled(most, es, unit)
      case Wrong => false
      case Html(text) =>
        && es != [] && var e := es[|es| - 1];
          e.html != [] && e.html[|e.html| - 1] == text && Spelled(most, es[..|es| - 1] + [Without(e)], unit)
      case Head(shift, item, sound) =>
        && es != [] && var e := es[|es| - 1];
          sound && e.item == item && e.html == [] && shift == e.depth * unit && Spelled(most, es[..|es| - 1], unit)
  }

  /** The entry without its last line of HTML. */
  function Without(e: Entry): Entry
    requires e.html != []
  {
    e.(html := e.html[..|e.html| - 1])
  }

  /** No node is more than one deeper than the one before, none is deeper than one with HTML, and blocks are defined on top. */
  predicate Legal(es: seq<Entry>) {
    Linked(es) && DefinitionsOnTop(es) && (es != [] ==> es[0].depth <= 1)
  }

  predicate Flush(lines: seq<Line>) {
    lines != [] && lines[0].Head? ==> lines[0].shift == 0
  }

  predicate Flat(es: seq<Entry>) {
    forall i :: 0 <= i < |es| ==> es[i].depth == 0
  }

  // ---------- What is written down is read ----------

  /** The reader has read the entries, and knows the width of a level as soon as a node was indented. */
  predicate HasRead(r: Reader, lines: seq<Line>, es: seq<Entry>, unit: nat) {
    && r.es == es && r.line == |lines| && (r.unit == unit || (r.unit == 0 && Flat(es)))
    && (r.inHtml <==> es != [] && es[|es| - 1].html != [])
  }

  lemma LegalLess(es: seq<Entry>)
    requires Legal(es) && es != []
    ensures Legal(es[..|es| - 1])
    ensures es[|es| - 1].html != [] ==> Legal(es[..|es| - 1] + [Without(es[|es| - 1])])
  {
    var most, last := es[..|es| - 1], es[|es| - 1];
    assert forall i, j :: 0 <= i < |most| - 1 && j == i + 1 ==> most[i] == es[i] && most[j] == es[j];
    assert most != [] ==> Joins(most[|most| - 1], last);
    if last.html != [] {
      var more := most + [Without(last)];
      forall i, j | 0 <= i < |more| - 1 && j == i + 1 ensures Joins(more[i], more[j]) { assert Joins(es[i], es[j]); }
    }
  }

  lemma FlushLess(lines: seq<Line>)
    requires Flush(lines) && lines != []
    ensures Flush(lines[..|lines| - 1])
  {
  }

  lemma ReadHead(r: Reader, most: seq<Line>, es: seq<Entry>, e: Entry, unit: nat)
    requires unit > 0 && HasRead(r, most, es, unit) && Legal(es + [e]) && e.html == []
    requires Flush(most + [Head(e.depth * unit, e.item, true)])
    ensures var o := Step(r, Head(e.depth * unit, e.item, true));
      o.Ok? && HasRead(o.r, most + [Head(e.depth * unit, e.item, true)], es + [e], unit)
  {
    if es != [] {
      assert (es + [e])[|es| - 1] == es[|es| - 1] && Joins((es + [e])[|es| - 1], (es + [e])[|es|]);
    } else {
      assert (es + [e])[0] == e;
    }
    var h := Head(e.depth * unit, e.item, true);
    assert most == [] ==> (most + [h])[0] == h;
    LevelOfMultiple(e.depth, unit, r.unit, r.line, Current(r.es));
    assert (es + [e])[|es|] == e;
  }

  /** A legal sequence of entries that the lines write down is what is read. */
  lemma {:induction false} SpelledRead(lines: seq<Line>, es: seq<Entry>, unit: nat)
    requires unit > 0 && Spelled(lines, es, unit) && Legal(es) && Flush(lines)
    ensures Read(START, lines).Ok? && HasRead(Read(START, lines).r, lines, es, unit)
    decreases |lines|
  {
    if lines != [] {
      var most, last := lines[..|lines| - 1], lines[|lines| - 1];
      assert lines == most + [last];
      FlushLess(lines);
      match last {
        case Skip => SpelledRead(most, es, unit);
        case Html(text) =>
          LegalLess(es);
          SpelledRead(most, es[..|es| - 1] + [Without(es[|es| - 1])], unit);
          ReadHtmlLine(Read(START, most).r, most, es, text, unit);
        case Head(shift, item, sound) =>
          LegalLess(es);
          SpelledRead(most, es[..|es| - 1], unit);
          assert es == es[..|es| - 1] + [es[|es| - 1]];
          ReadHead(Read(START, most).r, most, es[..|es| - 1], es[|es| - 1], unit);
      }
      ReadPlus(START, most, [last]);
      assert Read(START, lines) == Read(Read(START, most).r, [last]) && [last][1..] == [];
    }
  }

  lemma ReadHtmlLine(r: Reader, most: seq<Line>, es: seq<Entry>, text: string, unit: nat)
    requires es != [] && es[|es| - 1].html != [] && es[|es| - 1].html[|es[|es| - 1].html| - 1] == text
    requires HasRead(r, most, es[..|es| - 1] + [Without(es[|es| - 1])], unit)
    ensures Step(r, Html(text)).Ok? && HasRead(Step(r, Html(text)).r, most + [Html(text)], es, unit)
  {
    var e := es[|es| - 1];
    assert e.html == Without(e).html + [text];
    assert AddHtml(r.es, text) == es;
    if r.unit != unit { assert forall i :: 0 <= i < |es| ==> es[i].depth == r.es[i].depth; }
  }

  // ---------- What is read is written down ----------

  /** Whatever the width of a level turns out to be. */
  ghost predicate SpelledFor(r: Reader, lines: seq<Line>) {
    && (forall u: nat :: u > 0 && (r.unit == u || r.unit == 0) ==> Spelled(lines, r.es, u))
    && (r.unit == 0 ==> Flat(r.es)) && r.line == |lines| && Flush(lines)
  }

  lemma {:induction false} ReadLess(r: Reader, a: seq<Line>, b: seq<Line>)
    requires Read(r, a + b).Ok?
    ensures Read(r, a).Ok?
    decreases |a|
  {
    if a != [] {
      assert (a + b)[1..] == a[1..] + b;
      ReadLess(Step(r, a[0]).r, a[1..], b);
    }
  }

  lemma StepSpells(r: Reader, most: seq<Line>, l: Line)
    requires SpelledFor(r, most) && Step(r, l).Ok? && (r.es == [] ==> r.unit == 0)
    ensures SpelledFor(Step(r, l).r, most + [l]) && (Step(r, l).r.es == [] ==> Step(r, l).r.unit == 0)
  {
    var t, lines := Step(r, l).r, most + [l];
    assert lines[..|most|] == most && lines[|most|] == l;
    assert most != [] ==> lines[0] == most[0];
    assert Spelled(most, r.es, if r.unit == 0 then 1 else r.unit);
    forall u: nat | u > 0 && (t.unit == u || t.unit == 0) ensures Spelled(lines, t.es, u) {
      assert Spelled(most, r.es, u);
      StepSpelled(r, most, l, u);
    }
    StepFlat(r, l);
    StepFlush(r, most, l);
  }

  lemma StepFlat(r: Reader, l: Line)
    requires Step(r, l).Ok? && (r.unit == 0 ==> Flat(r.es)) && (r.es == [] ==> r.unit == 0)
    ensures var t := Step(r, l).r; (t.unit == 0 ==> Flat(t.es)) && (t.es == [] ==> t.unit == 0) && t.line == r.line + 1
  {
  }

  lemma StepFlush(r: Reader, most: seq<Line>, l: Line)
    requires Step(r, l).Ok? && Flush(most) && r.line == |most| && (most == [] ==> r.unit == 0)
    ensures Flush(most + [l])
  {
    assert (most + [l])[|most|] == l && (most != [] ==> (most + [l])[0] == most[0]);
  }

  lemma SkipSpelled(most: seq<Line>, es: seq<Entry>, u: nat)
    requires Spelled(most, es, u)
    ensures Spelled(most + [Skip], es, u)
  {
    assert (most + [Skip])[..|most|] == most;
  }

  lemma HtmlSpelled(most: seq<Line>, es: seq<Entry>, e: Entry, text: string, u: nat)
    requires Spelled(most, es + [e], u)
    ensures Spelled(most + [Html(text)], es + [e.(html := e.html + [text])], u)
  {
    var lines, f := most + [Html(text)], e.(html := e.html + [text]);
    assert lines[..|most|] == most && (es + [f])[..|es|] == es && Without(f) == e by { assert f.html[..|e.html|] == e.html; }
  }

  lemma HeadSpelled(most: seq<Line>, es: seq<Entry>, e: Entry, u: nat)
    requires Spelled(most, es, u) && e.html == []
    ensures Spelled(most + [Head(e.depth * u, e.item, true)], es + [e], u)
  {
    var l := Head(e.depth * u, e.item, true);
    assert (most + [l])[..|most|] == most && (es + [e])[..|es|] == es;
  }

  lemma StepSpelled(r: Reader, most: seq<Line>, l: Line, u: nat)
    requires Step(r, l).Ok? && u > 0 && (Step(r, l).r.unit == u || Step(r, l).r.unit == 0) && Spelled(most, r.es, u)
    ensures Spelled(most + [l], Step(r, l).r.es, u)
  {
    var es := Step(r, l).r.es;
    match l
    case Skip => SkipSpelled(most, es, u);
    case Html(text) =>
      var front, e := r.es[..|r.es| - 1], r.es[|r.es| - 1];
      assert r.es == front + [e];
      HtmlSpelled(most, front, e, text, u);
      assert es == front + [e.(html := e.html + [text])];
    case Head(shift, item, sound) =>
      ShiftIsDepth(r, shift, item, sound, u);
      HeadSpelled(most, r.es, es[|r.es|], u);
  }

  lemma ShiftIsDepth(r: Reader, shift: nat, item: Item, sound: bool, u: nat)
    requires Step(r, Head(shift, item, sound)).Ok? && u > 0
    requires Step(r, Head(shift, item, sound)).r.unit == u || Step(r, Head(shift, item, sound)).r.unit == 0
    ensures var es := Step(r, Head(shift, item, sound)).r.es;
      sound && |es| == |r.es| + 1 && es == r.es + [es[|r.es|]] && es[|r.es|].item == item && es[|r.es|].html == []
      && shift == es[|r.es|].depth * u
  {
  }

  lemma {:induction false} ReadSpelled(lines: seq<Line>)
    requires Read(START, lines).Ok?
    ensures SpelledFor(Read(START, lines).r, lines) && (Read(START, lines).r.es == [] ==> Read(START, lines).r.unit == 0)
    decreases |lines|
  {
    if lines != [] {
      var most, last := lines[..|lines| - 1], lines[|lines| - 1];
      assert lines == most + [last];
      ReadLess(START, most, [last]);
      ReadSpelled(most);
      ReadPlus(START, most, [last]);
      assert Read(START, lines) == Read(Read(START, most).r, [last]) && [last][1..] == [];
      StepSpells(Read(START, most).r, most, last);
    }
  }

  ghost predicate Says(lines: seq<Line>, es: seq<Entry>) {
    Legal(es) && Flush(lines) && exists unit: nat :: unit > 0 && Spelled(lines, es, unit)
  }

  /** A text is accepted, as these entries, exactly when for some width of a level it writes them down, they are legal, and
      the text does not begin with an indented node. */
  lemma ReadExactly(lines: seq<Line>, es: seq<Entry>)
    ensures Read(START, lines).Ok? && Read(START, lines).r.es == es <==> Says(lines, es)
  {
    if Says(lines, es) {
      var unit: nat :| unit > 0 && Spelled(lines, es, unit);
      SpelledRead(lines, es, unit);
    }
    if Read(START, lines).Ok? && Read(START, lines).r.es == es {
      ReadSpelled(lines);
      ReadAccepts(START, lines);
      var u := if Read(START, lines).r.unit == 0 then 1 else Read(START, lines).r.unit;
      assert Spelled(lines, es, u);
    }
  }
}
