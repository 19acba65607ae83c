/** What the compiled text means: it is cut into words, parsed with the precedence SQL gives AND and OR,
    its placeholders are numbered from left to right, and it is evaluated with the arguments. */
module QueryMeaning {
  import opened Common
  import opened QueryCompile
  import opened QueryAliases

  // ---------- Words ----------

  datatype Word = LPar | RPar | Mark | W(text: string)

  predicate Special(ch: char) {
    ch == ' ' || ch == '(' || ch == ')' || ch == '?'
  }

  function Flush(cur: string): seq<Word> {
    if cur == "" then [] else [W(cur)]
  }

  function Lex(s: string, cur: string): seq<Word> {
    if s == "" then Flush(cur)
    else if s[0] == ' ' then Flush(cur) + Lex(s[1..], "")
    else if s[0] == '(' then Flush(cur) + [LPar] + Lex(s[1..], "")
    else if s[0] == ')' then Flush(cur) + [RPar] + Lex(s[1..], "")
    else if s[0] == '?' then Flush(cur) + [Mark] + Lex(s[1..], "")
    else Lex(s[1..], cur + [s[0]])
  }

  predicate Clean(w: string) {
    w != "" && forall i :: 0 <= i < |w| ==> !Special(w[i])
  }

  // ---------- The grammar ----------

  datatype Expr =
    | Leaf(col: Option<string>, op: Op, slot: Option<nat>)
    | AndE(l: Expr, r: Expr)
    | OrE(l: Expr, r: Expr)

  datatype Parsed = Fail | Ok(e: Expr, rest: seq<Word>, next: nat)

  function OpOf(w: string): Option<Op> {
    if w == "=" then Some(Eq) else if w == ">" then Some(Gt) else if w == "<" then Some(Lt)
    else if w == ">=" then Some(Gte) else if w == "<=" then Some(Lte) else if w == "LIKE" then Some(Like)
    else if w == "IN" then Some(In) else None
  }

  predicate Hole(ws: seq<Word>) {
    |ws| >= 1 && ws[0] == Mark
  }

  predicate ParHole(ws: seq<Word>) {
    |ws| >= 3 && ws[0] == LPar && ws[1] == Mark && ws[2] == RPar
  }

  /** What follows a column. */
  function ParseTest(col: string, ws: seq<Word>, k: nat): (p: Parsed)
    ensures p.Ok? ==> |p.rest| < |ws|
  {
    if |ws| >= 2 && ws[0] == W("IS") && ws[1] == W("NULL") then Ok(Leaf(Some(col), IsNull, None), ws[2..], k)
    else if |ws| >= 3 && ws[0] == W("IS") && ws[1] == W("NOT") && ws[2] == W("NULL") then Ok(Leaf(Some(col), NotNull, None), ws[3..], k)
    else if ws != [] && ws[0].W? && OpOf(ws[0].text).Some? then
      var op := OpOf(ws[0].text).value;
      if Hole(ws[1..]) then Ok(Leaf(Some(col), op, Some(k)), ws[2..], k + 1)
      else if op == In && ParHole(ws[1..]) then Ok(Leaf(Some(col), op, Some(k)), ws[4..], k + 1)
      else Fail
    else Fail
  }

  function ParsePrimary(ws: seq<Word>, k: nat): (p: Parsed)
    ensures p.Ok? ==> |p.rest| < |ws|
    decreases |ws|, 1
  {
    if ws == [] then Fail
    else match ws[0]
      case RPar => Fail
      case Mark => Fail
      case LPar =>
        (match ParseOr(ws[1..], k)
         case Ok(e, rest, m) => if rest != [] && rest[0] == RPar then Ok(e, rest[1..], m) else Fail
         case Fail => Fail)
      case W(text) =>
        if text == "EXISTS" then
          if ParHole(ws[1..]) then Ok(Leaf(None, Exists, Some(k)), ws[4..], k + 1) else Fail
        else ParseTest(text, ws[1..], k)
  }

  function ParseAnd(ws: seq<Word>, k: nat): (p: Parsed)
    ensures p.Ok? ==> |p.rest| < |ws|
    decreases |ws|, 2
  {
    match ParsePrimary(ws, k)
    case Ok(e, rest, m) => AndTail(e, rest, m)
    case Fail => Fail
  }

  function AndTail(e: Expr, ws: seq<Word>, k: nat): (p: Parsed)
    ensures p.Ok? ==> |p.rest| <= |ws|
    decreases |ws|, 2
  {
    if ws != [] && ws[0] == W("AND") then
      match ParsePrimary(ws[1..], k)
      case Ok(r, rest, m) => AndTail(AndE(e, r), rest, m)
      case Fail => Fail
    else Ok(e, ws, k)
  }

  function ParseOr(ws: seq<Word>, k: nat): (p: Parsed)
    ensures p.Ok? ==> |p.rest| < |ws|
    decreases |ws|, 3
  {
    match ParseAnd(ws, k)
    case Ok(e, rest, m) => OrTail(e, rest, m)
    case Fail => Fail
  }

  function OrTail(e: Expr, ws: seq<Word>, k: nat): (p: Parsed)
    ensures p.Ok? ==> |p.rest| <= |ws|
    decreases |ws|, 3
  {
    if ws != [] && ws[0] == W("OR") then
      match ParseAnd(ws[1..], k)
      case Ok(r, rest, m) => OrTail(OrE(e, r), rest, m)
      case Fail => Fail
    else Ok(e, ws, k)
  }

  // ---------- Evaluation ----------

  datatype ColRef = NoColumn | Raw(text: string) | Own(column: string) | Related(relation: string, column: string) | Unknown

  /** The column a qualified name denotes once the joins of d are in place. */
  ghost function Resolve(d: Comp, word: string): ColRef {
    if HasArrow(word) then Raw(word)
    else
      var k := IndexOf(word, '.', 0);
      if k == |word| then Unknown
      else
        var alias, column := word[..k], word[k + 1..];
        if exists r :: r in d.joins && d.joins[r] == alias then
          var r :| r in d.joins && d.joins[r] == alias;
          if alias == d.tableAlias then Unknown else Related(r, column)
        else if alias == d.tableAlias then Own(column)
        else Unknown
  }

  ghost function Eval(e: Expr, args: seq<Arg>, d: Comp, sem: (ColRef, Op, Arg) -> bool): bool {
    match e
    case Leaf(col, op, slot) =>
      sem(if col.Some? then Resolve(d, col.value) else NoColumn, op,
          if slot.Some? && slot.value < |args| then args[slot.value] else Nil)
    case AndE(l, r) => Eval(l, args, d, sem) && Eval(r, args, d, sem)
    case OrE(l, r) => Eval(l, args, d, sem) || Eval(r, args, d, sem)
  }

  /** The truth of a compiled condition: none if its text does not parse or does not use every argument. */
  ghost function Meaning(sql: string, args: seq<Arg>, d: Comp, sem: (ColRef, Op, Arg) -> bool): Option<bool> {
    match ParseOr(Lex(sql, ""), 0)
    case Ok(e, rest, next) => if rest == [] && next == |args| then Some(Eval(e, args, d, sem)) else None
    case Fail => None
  }

  // ---------- The meaning of a tree ----------

  function RefOf(nm: Naming, field: string): ColRef {
    if HasArrow(field) then Raw(field)
    else
      var parts := Split(field);
      if |parts| == 1 then Own(nm.column(parts[0])) else Related(parts[0], nm.column(parts[1]))
  }

  function ArgsOf(n: Node): seq<Arg>
    decreases n, 1
  {
    match n
    case Condition(_, op, value) => if op == IsNull || op == NotNull then [] else [value]
    case Group(_, nodes) => ArgsOfAll(nodes)
  }

  function ArgsOfAll(nodes: seq<Node>): seq<Arg>
    decreases nodes, 0
  {
    if nodes == [] then [] else ArgsOf(nodes[0]) + ArgsOfAll(nodes[1..])
  }

  function Holds(nm: Naming, n: Node, sem: (ColRef, Op, Arg) -> bool): bool {
    match n
    case Condition(field, op, value) =>
      sem(if op == Exists then NoColumn else RefOf(nm, field), op, if op == IsNull || op == NotNull then Nil else value)
    case Group(conn, nodes) =>
      if conn == And then forall i :: 0 <= i < |nodes| ==> Holds(nm, nodes[i], sem)
      else exists i :: 0 <= i < |nodes| && Holds(nm, nodes[i], sem)
  }

  predicate NonEmpty(n: Node) {
    n.Group? ==> n.nodes != [] && forall i :: 0 <= i < |n.nodes| ==> NonEmpty(n.nodes[i])
  }

  predicate Plain(s: string) {
    s != "" && forall i :: 0 <= i < |s| ==> 'a' <= s[i] <= 'z' || 'A' <= s[i] <= 'Z' || '0' <= s[i] <= '9' || s[i] == '_'
  }

  /** The column text is one word: a path expression free of blanks, parentheses and question marks - each of which
      would be a placeholder -, or a plain column name. */
  predicate CleanField(nm: Naming, field: string) {
    if HasArrow(field) then Clean(field)
    else var parts := Split(field); Plain(nm.column(if |parts| == 1 then parts[0] else parts[1]))
  }

  predicate CleanNode(nm: Naming, n: Node) {
    match n
    case Condition(field, op, _) => op == Exists || CleanField(nm, field)
    case Group(_, nodes) => forall i :: 0 <= i < |nodes| ==> CleanNode(nm, nodes[i])
  }

  // ---------- What a field refers to ----------

  lemma ShortField(field: string)
    requires |Split(field)| <= 2
    ensures field == Join(Split(field), ".")
  {
    var k := IndexOf(field, '.', 0);
    if k < |field| {
      var rest := field[k + 1..];
      assert IndexOf(rest, '.', 0) == |rest| && Split(field) == [field[..k], rest];
      assert field == field[..k] + "." + rest;
    }
  }

  /** Fields of one or two segments refer to different columns, if different names do. */
  lemma ShortFieldsApart(nm: Naming, f: string, g: string)
    requires forall a, b :: nm.column(a) == nm.column(b) ==> a == b
    requires |Split(f)| <= 2 && |Split(g)| <= 2
    ensures RefOf(nm, f) == RefOf(nm, g) <==> f == g
  {
    ShortField(f);
    ShortField(g);
  }

  /** Of a longer field only the first two segments matter. */
  lemma LongField(nm: Naming, f: string, g: string)
    requires !HasArrow(f) && !HasArrow(g) && |Split(f)| > 2 && Split(g) == Split(f)[..2]
    ensures RefOf(nm, f) == RefOf(nm, g) && f != g
  {
  }
}
