/** Lines of markdown text: what the regular expressions of the parser say about them, and their normal form. */
module MdLines {
  datatype Kind =
    | NoKind | Rule | Title(level: nat) | Paragraph | CodeBlock | CodeBlockTyped | Blockquote | Ordered | Unordered | Table

  /** `content` are the blocks nested under a list item, if any were. */
  datatype Line = Line(line: string, origin: string, indent: int, content: seq<Block>, contentSet: bool)

  datatype Block = Block(kind: Kind, lines: seq<Line>, content: seq<Block>, codeType: string)

  // ---------- Runs of characters ----------

  function Run(s: string, c: char): (n: nat)
    ensures n <= |s|
  {
    if s != "" && s[0] == c then 1 + Run(s[1..], c) else 0
  }

  predicate IsWhite(c: char) {
    c == ' ' || c == '\t'
  }

  function WhiteRun(s: string): (n: nat)
    ensures n <= |s|
  {
    if s != "" && IsWhite(s[0]) then 1 + WhiteRun(s[1..]) else 0
  }

  lemma {:induction false} WhiteRunStops(s: string)
    ensures WhiteRun(s) < |s| ==> !IsWhite(s[WhiteRun(s)])
    decreases |s|
  {
    if s != "" && IsWhite(s[0]) { WhiteRunStops(s[1..]); }
  }

  predicate AllSpace(s: string) {
    forall i :: 0 <= i < |s| ==> s[i] in {' ', '\t', '\n', '\r', '\U{0C}'}
  }

  function TrimRight(s: string): string {
    if s != "" && AllSpace(s[|s| - 1..]) then TrimRight(s[..|s| - 1]) else s
  }

  predicate Digit(c: char) {
    '0' <= c <= '9'
  }

  function DigitRun(s: string): (n: nat)
    ensures n <= |s|
  {
    if s != "" && Digit(s[0]) then 1 + DigitRun(s[1..]) else 0
  }

  function WordRun(s: string): (n: nat)
    ensures n <= |s|
  {
    if s != "" && (Digit(s[0]) || 'a' <= s[0] <= 'z' || 'A' <= s[0] <= 'Z' || s[0] == '_') then 1 + WordRun(s[1..]) else 0
  }

  // ---------- The patterns ----------

  predicate Underline(s: string, c: char, least: nat) {
    Run(s, c) >= least && AllSpace(s[Run(s, c)..])
  }

  predicate IsRule(s: string) {
    Underline(s, '-', 3) || Underline(s, '*', 3)
  }

  function TitleLevel(s: string): nat {
    var n := Run(s, '#'); if n > 6 then 6 else n
  }

  predicate IsTable(s: string) {
    var t := TrimRight(s); |t| >= 3 && t[0] == '|' && t[|t| - 1] == '|'
  }

  predicate IsFence(s: string) {
    |s| >= 3 && (s[..3] == "```" || s[..3] == "~~~")
  }

  function FenceTag(s: string): string
    requires IsFence(s)
  {
    s[3..][..WordRun(s[3..])]
  }

  predicate IsItem(s: string, kind: Kind) {
    if kind == Ordered then var n := DigitRun(s); n > 0 && n + 2 <= |s| && s[n..n + 2] == ". "
    else |s| >= 2 && s[0] in {'*', '+', '-'} && s[1] == ' '
  }

  predicate IsNestedItem(s: string, kind: Kind) {
    |s| >= 4 && s[..4] == "    " && IsItem(s[4..], kind)
  }

  function StripQuote(s: string): string {
    if s == "" || s[0] != '>' then s else if |s| > 1 && s[1] == ' ' then s[2..] else s[1..]
  }

  function StripFour(s: string): string {
    if |s| >= 4 && s[..4] == "    " then s[4..] else s
  }

  function BreakDouble(s: string): string {
    if |s| >= 2 && s[|s| - 2..] == "  " then s[..|s| - 2] + "<br>" else s
  }

  // ---------- Normal form ----------

  function Spaces(n: nat): (s: string)
    ensures |s| == n && forall i :: 0 <= i < n ==> s[i] == ' '
  {
    if n == 0 then "" else " " + Spaces(n - 1)
  }

  function NormalizeLine(raw: string): (l: Line)
    ensures Normal(l)
  {
    var line := if WhiteRun(raw) == |raw| then "" else raw;
    var indent := if Run(line, ' ') > 0 then Run(line, ' ') / 4 else Run(line, '\t');
    WhiteRunStops(line);
    Line(Spaces(4 * indent) + line[WhiteRun(line)..], line, indent, [], false)
  }

  predicate Blank(s: string, n: nat) {
    n <= |s| && forall i :: 0 <= i < n ==> s[i] == ' '
  }

  /** Four spaces for every level, and then a character that is neither space nor tab; or nothing at all. No
      content yet. */
  predicate Normal(l: Line) {
    l.content == [] && !l.contentSet
    && if l.line == "" then l.indent == 0
    else l.indent >= 0 && |l.line| > 4 * l.indent && Blank(l.line, 4 * l.indent) && !IsWhite(l.line[4 * l.indent])
  }

  lemma {:induction false} SameSpaces(s: string)
    requires forall i :: 0 <= i < |s| ==> s[i] == ' '
    ensures s == Spaces(|s|)
  {
  }

  lemma {:induction false} RunOf(s: string, c: char, n: nat)
    requires n <= |s| && (forall i :: 0 <= i < n ==> s[i] == c) && (n < |s| ==> s[n] != c)
    ensures Run(s, c) == n
    decreases n
  {
    if n > 0 { RunOf(s[1..], c, n - 1); }
  }

  lemma {:induction false} WhiteRunOf(s: string, n: nat)
    requires n <= |s| && (forall i :: 0 <= i < n ==> IsWhite(s[i])) && (n < |s| ==> !IsWhite(s[n]))
    ensures WhiteRun(s) == n
    decreases n
  {
    if n > 0 { WhiteRunOf(s[1..], n - 1); }
  }

  lemma Indentation(l: Line)
    requires Normal(l) && l.line != ""
    ensures WhiteRun(l.line) == Run(l.line, ' ') == 4 * l.indent < |l.line|
    ensures l.indent == 0 ==> Run(l.line, '\t') == 0
    ensures l.line == Spaces(4 * l.indent) + l.line[4 * l.indent..]
  {
    var n := 4 * l.indent;
    RunOf(l.line, ' ', n);
    WhiteRunOf(l.line, n);
    SameSpaces(l.line[..n]);
  }

  /** Normalizing changes no line that is normal. */
  lemma NormalizeAgain(l: Line)
    requires Normal(l)
    ensures NormalizeLine(l.line).line == l.line && NormalizeLine(l.line).indent == l.indent
  {
    if l.line != "" {
      Indentation(l);
      NormalOf(l.line, l.indent);
    }
  }

  lemma NormalOf(s: string, indent: nat)
    requires WhiteRun(s) == Run(s, ' ') == 4 * indent < |s| && (indent == 0 ==> Run(s, '\t') == 0)
    ensures NormalizeLine(s).indent == indent && NormalizeLine(s).line == Spaces(4 * indent) + s[4 * indent..]
  {
  }

  /** A nested line, one level out. */
  lemma Outdented(l: Line)
    requires Normal(l) && l.line != "" && l.indent > 0
    ensures Normal(l.(indent := l.indent - 1, line := StripFour(l.line))) && StripFour(l.line) == l.line[4..]
  {
  }

  lemma NestedIsIndented(l: Line, kind: Kind)
    requires Normal(l) && IsNestedItem(l.line, kind)
    ensures l.indent > 0
  {
  }

  // ---------- Measures ----------

  predicate AllNormal(lines: seq<Line>) {
    forall i :: 0 <= i < |lines| ==> Normal(lines[i])
  }

  /** How many '>' are in a text. */
  function Arrows(s: string): nat {
    if s == "" then 0 else (if s[0] == '>' then 1 else 0) + Arrows(s[1..])
  }

  function AllArrows(lines: seq<Line>): nat {
    if lines == [] then 0 else Arrows(lines[0].line) + AllArrows(lines[1..])
  }

  lemma {:induction false} ArrowsPlus(a: string, b: string)
    ensures Arrows(a + b) == Arrows(a) + Arrows(b)
    decreases |a|
  {
    if a == "" {
      assert a + b == b;
    } else {
      ArrowsPlus(a[1..], b);
      assert (a + b)[1..] == a[1..] + b;
    }
  }

  lemma {:induction false} AllArrowsPlus(a: seq<Line>, b: seq<Line>)
    ensures AllArrows(a + b) == AllArrows(a) + AllArrows(b)
    decreases |a|
  {
    if a == [] {
      assert a + b == b;
    } else {
      AllArrowsPlus(a[1..], b);
      assert (a + b)[1..] == a[1..] + b;
    }
  }

  lemma {:induction false} NoArrowsInSpaces(n: nat)
    ensures Arrows(Spaces(n)) == 0
    decreases n
  {
    if n > 0 {
      NoArrowsInSpaces(n - 1);
      assert Spaces(n)[1..] == Spaces(n - 1);
    }
  }

  lemma StrippedArrows(s: string)
    ensures Arrows(StripQuote(s)) <= Arrows(s) - if s != "" && s[0] == '>' then 1 else 0
  {
  }

  lemma NormalizedArrows(raw: string)
    ensures Arrows(NormalizeLine(raw).line) <= Arrows(raw)
  {
    var line := if WhiteRun(raw) == |raw| then "" else raw;
    var n, l := WhiteRun(line), NormalizeLine(raw);
    NoArrowsInSpaces(4 * l.indent);
    ArrowsPlus(Spaces(4 * l.indent), line[n..]);
    assert l.line == Spaces(4 * l.indent) + line[n..];
    assert line == line[..n] + line[n..];
    ArrowsPlus(line[..n], line[n..]);
  }

  /** Stripping a quote mark takes an arrow away, and normalizing puts none in. */
  lemma UnquotedArrows(s: string)
    ensures Arrows(NormalizeLine(StripQuote(s)).line) <= Arrows(s) - if s != "" && s[0] == '>' then 1 else 0
  {
    StrippedArrows(s);
    NormalizedArrows(StripQuote(s));
  }
}
