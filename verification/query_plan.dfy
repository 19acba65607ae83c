/** A compiled condition as a tree in which every column already has its text. Its SQL text, cut into
    words and parsed, gives the tree back. */
module QueryPlan {
  import opened Common
  import opened QueryCompile
  import opened QueryMeaning

  datatype Plan =
    | PCond(col: string, op: Op, value: Arg)
    | PGroup(conn: BoolOp, plans: seq<Plan>)

  function CondSql(col: string, op: Op, value: Arg): string {
    match op
    case Exists => "EXISTS (?)"
    case IsNull => col + " IS NULL"
    case NotNull => col + " IS NOT NULL"
    case In => col + (if value.SubQuery? then " IN (?)" else " IN ?")
    case _ => col + " " + OpText(op) + " ?"
  }

  function Sql(p: Plan): string
    decreases p, 1
  {
    match p
    case PCond(col, op, value) => CondSql(col, op, value)
    case PGroup(conn, plans) => "(" + Join(SqlAll(plans), " " + ConnText(conn) + " ") + ")"
  }

  function SqlAll(plans: seq<Plan>): (r: seq<string>)
    ensures |r| == |plans|
    decreases plans, 0
  {
    if plans == [] then [] else [Sql(plans[0])] + SqlAll(plans[1..])
  }

  function CondWords(col: string, op: Op, value: Arg): seq<Word> {
    match op
    case Exists => [W("EXISTS"), LPar, Mark, RPar]
    case IsNull => [W(col), W("IS"), W("NULL")]
    case NotNull => [W(col), W("IS"), W("NOT"), W("NULL")]
    case In => if value.SubQuery? then [W(col), W("IN"), LPar, Mark, RPar] else [W(col), W("IN"), Mark]
    case _ => [W(col), W(OpText(op)), Mark]
  }

  function Words(p: Plan): seq<Word>
    decreases p, 1
  {
    match p
    case PCond(col, op, value) => CondWords(col, op, value)
    case PGroup(conn, plans) =>
      if plans == [] then [LPar, RPar] else [LPar] + Words(plans[0]) + TailWords(conn, plans[1..]) + [RPar]
  }

  function TailWords(conn: BoolOp, plans: seq<Plan>): seq<Word>
    decreases plans, 0
  {
    if plans == [] then [] else [W(ConnText(conn))] + Words(plans[0]) + TailWords(conn, plans[1..])
  }

  function Slots(p: Plan): nat
    decreases p, 1
  {
    match p
    case PCond(_, op, _) => if op == IsNull || op == NotNull then 0 else 1
    case PGroup(_, plans) => SlotsAll(plans)
  }

  function SlotsAll(plans: seq<Plan>): nat
    decreases plans, 0
  {
    if plans == [] then 0 else Slots(plans[0]) + SlotsAll(plans[1..])
  }

  function Link(conn: BoolOp, l: Expr, r: Expr): Expr {
    if conn == And then AndE(l, r) else OrE(l, r)
  }

  function ExprOf(p: Plan, k: nat): Expr
    decreases p, 1
  {
    match p
    case PCond(col, op, _) =>
      Leaf(if op == Exists then None else Some(col), op, if op == IsNull || op == NotNull then None else Some(k))
    case PGroup(conn, plans) =>
      if plans == [] then Leaf(None, Exists, None)
      else ExprTail(conn, plans[1..], ExprOf(plans[0], k), k + Slots(plans[0]))
  }

  function ExprTail(conn: BoolOp, plans: seq<Plan>, e: Expr, k: nat): Expr
    decreases plans, 0
  {
    if plans == [] then e else ExprTail(conn, plans[1..], Link(conn, e, ExprOf(plans[0], k)), k + Slots(plans[0]))
  }

  /** Every column is a single word. */
  predicate Worded(p: Plan)
    decreases p, 1
  {
    match p
    case PCond(col, op, _) => op == Exists || (Clean(col) && col != "EXISTS")
    case PGroup(_, plans) => WordedAll(plans)
  }

  predicate WordedAll(plans: seq<Plan>)
    decreases plans, 0
  {
    plans == [] || (Worded(plans[0]) && WordedAll(plans[1..]))
  }

  /** No group is empty. */
  predicate Filled(p: Plan)
    decreases p, 1
  {
    p.PGroup? ==> p.plans != [] && FilledAll(p.plans)
  }

  predicate FilledAll(plans: seq<Plan>)
    decreases plans, 0
  {
    plans == [] || (Filled(plans[0]) && FilledAll(plans[1..]))
  }

  // ---------- Cutting the text into words ----------

  predicate Delim(rest: string) {
    rest == "" || Special(rest[0])
  }

  lemma {:induction false} LexRun(w: string, rest: string, cur: string)
    requires forall i :: 0 <= i < |w| ==> !Special(w[i])
    ensures Lex(w + rest, cur) == Lex(rest, cur + w)
  {
    if w == "" {
      assert w + rest == rest && cur + w == cur;
    } else {
      assert (w + rest)[1..] == w[1..] + rest;
      LexRun(w[1..], rest, cur + [w[0]]);
      assert cur + [w[0]] + w[1..] == cur + w;
    }
  }

  lemma LexWord(w: string, rest: string)
    requires Clean(w) && Delim(rest)
    ensures Lex(w + rest, "") == [W(w)] + Lex(rest, "")
  {
    LexRun(w, rest, "");
    assert "" + w == w;
  }

  lemma LexSpace(rest: string)
    ensures Lex(" " + rest, "") == Lex(rest, "")
  {
  }

  lemma LexOpen(rest: string)
    ensures Lex("(" + rest, "") == [LPar] + Lex(rest, "")
  {
  }

  lemma LexMark(rest: string)
    ensures Lex("?" + rest, "") == [Mark] + Lex(rest, "")
  {
  }

  lemma LexClose(rest: string)
    ensures Lex(")" + rest, "") == [RPar] + Lex(rest, "")
  {
  }

  /** One word and the blank after it. */
  lemma LexNext(w: string, rest: string)
    requires Clean(w)
    ensures Lex(w + (" " + rest), "") == [W(w)] + Lex(rest, "")
  {
    LexWord(w, " " + rest);
    LexSpace(rest);
  }

  lemma LexParHole(rest: string)
    ensures Lex("(?)" + rest, "") == [LPar, Mark, RPar] + Lex(rest, "")
  {
    assert "(?)" + rest == "(" + ("?" + (")" + rest));
    LexOpen("?" + (")" + rest));
    LexMark(")" + rest);
    LexClose(rest);
  }

  /** A column and a test that starts with a blank. */
  lemma LexColumn(col: string, test: string, rest: string)
    requires Clean(col) && test != "" && test[0] == ' '
    ensures Lex(col + test + rest, "") == [W(col)] + Lex(test + rest, "")
  {
    Assoc(col, test, rest);
    LexWord(col, test + rest);
  }

  /** A blank, a word and what follows. */
  lemma LexStep(w: string, more: string, rest: string)
    requires Clean(w) && Delim(more + rest)
    ensures Lex(" " + w + more + rest, "") == [W(w)] + Lex(more + rest, "")
  {
    assert " " + w + more + rest == " " + (w + (more + rest));
    LexSpace(w + (more + rest));
    LexWord(w, more + rest);
  }

  lemma LexIsNull(rest: string)
    requires Delim(rest)
    ensures Lex(" IS NULL" + rest, "") == [W("IS"), W("NULL")] + Lex(rest, "")
  {
    assert " IS NULL" == " " + "IS" + " NULL" && " NULL" == " " + "NULL" + "";
    LexStep("IS", " NULL", rest);
    assert "" + rest == rest;
    LexStep("NULL", "", rest);
  }

  lemma LexNotNull(rest: string)
    requires Delim(rest)
    ensures Lex(" IS NOT NULL" + rest, "") == [W("IS"), W("NOT"), W("NULL")] + Lex(rest, "")
  {
    assert " IS NOT NULL" == " " + "IS" + " NOT NULL" && " NOT NULL" == " " + "NOT" + " NULL" && " NULL" == " " + "NULL" + "";
    LexStep("IS", " NOT NULL", rest);
    LexStep("NOT", " NULL", rest);
    assert "" + rest == rest;
    LexStep("NULL", "", rest);
  }

  lemma LexHole(op: string, rest: string)
    requires Clean(op) && Delim(rest)
    ensures Lex(" " + op + " ?" + rest, "") == [W(op), Mark] + Lex(rest, "")
  {
    assert " ?" + rest == " " + ("?" + rest);
    LexStep(op, " ?", rest);
    LexSpace("?" + rest);
    LexMark(rest);
  }

  lemma LexInQuery(rest: string)
    ensures Lex(" IN (?)" + rest, "") == [W("IN"), LPar, Mark, RPar] + Lex(rest, "")
  {
    assert " IN (?)" == " " + "IN" + " (?)" && " (?)" + rest == " " + ("(?)" + rest);
    LexStep("IN", " (?)", rest);
    LexSpace("(?)" + rest);
    LexParHole(rest);
  }

  lemma LexTest(col: string, op: Op, rest: string)
    requires Clean(col) && Delim(rest) && op != Exists && op != IsNull && op != NotNull
    ensures Lex(col + " " + OpText(op) + " ?" + rest, "") == [W(col), W(OpText(op)), Mark] + Lex(rest, "")
  {
    var test := " " + OpText(op) + " ?";
    assert col + " " + OpText(op) + " ?" == col + test;
    LexColumn(col, test, rest);
    LexHole(OpText(op), rest);
  }

  lemma LexNullTest(col: string, negated: bool, rest: string)
    requires Clean(col) && Delim(rest)
    ensures Lex(col + (if negated then " IS NOT NULL" else " IS NULL") + rest, "")
         == (if negated then [W(col), W("IS"), W("NOT"), W("NULL")] else [W(col), W("IS"), W("NULL")]) + Lex(rest, "")
  {
    if negated {
      LexColumn(col, " IS NOT NULL", rest);
      LexNotNull(rest);
    } else {
      LexColumn(col, " IS NULL", rest);
      LexIsNull(rest);
    }
  }

  lemma LexInTest(col: string, query: bool, rest: string)
    requires Clean(col) && Delim(rest)
    ensures Lex(col + (if query then " IN (?)" else " IN ?") + rest, "")
         == (if query then [W(col), W("IN"), LPar, Mark, RPar] else [W(col), W("IN"), Mark]) + Lex(rest, "")
  {
    if query {
      LexColumn(col, " IN (?)", rest);
      LexInQuery(rest);
    } else {
      LexColumn(col, " IN ?", rest);
      assert " IN ?" == " " + "IN" + " ?";
      LexHole("IN", rest);
    }
  }

  lemma LexExists(rest: string)
    ensures Lex("EXISTS (?)" + rest, "") == [W("EXISTS"), LPar, Mark, RPar] + Lex(rest, "")
  {
    assert "EXISTS (?)" + rest == "EXISTS" + (" " + ("(?)" + rest));
    LexNext("EXISTS", "(?)" + rest);
    LexParHole(rest);
  }

  /** Text of the children after the first, each behind its connective. */
  function TailText(parts: seq<string>, sep: string): string {
    if parts == [] then "" else sep + parts[0] + TailText(parts[1..], sep)
  }

  lemma {:induction false} JoinIsTail(parts: seq<string>, sep: string)
    requires parts != []
    ensures Join(parts, sep) == parts[0] + TailText(parts[1..], sep)
  {
    if |parts| > 1 { JoinIsTail(parts[1..], sep); }
  }

  lemma LexCond(col: string, op: Op, value: Arg, rest: string)
    requires (op == Exists || Clean(col)) && Delim(rest)
    ensures Lex(CondSql(col, op, value) + rest, "") == CondWords(col, op, value) + Lex(rest, "")
  {
    match op
    case Exists => LexExists(rest);
    case IsNull => LexNullTest(col, false, rest);
    case NotNull => LexNullTest(col, true, rest);
    case In => LexInTest(col, value.SubQuery?, rest);
    case _ => LexTest(col, op, rest);
  }

  lemma GroupShape(first: string, tail: string, rest: string)
    ensures "(" + (first + tail) + ")" + rest == "(" + (first + (tail + (")" + rest)))
  {
  }

  lemma TailShape(sep: string, conn: string, first: string, tail: string, rest: string)
    requires sep == " " + conn + " "
    ensures sep + first + tail + rest == " " + (conn + (" " + (first + (tail + rest))))
  {
  }

  lemma LexLink(conn: string, first: string, tail: string, rest: string)
    requires Clean(conn)
    ensures Lex((" " + conn + " ") + first + tail + rest, "") == [W(conn)] + Lex(first + (tail + rest), "")
  {
    TailShape(" " + conn + " ", conn, first, tail, rest);
    LexSpace(conn + (" " + (first + (tail + rest))));
    LexNext(conn, first + (tail + rest));
  }

  lemma AssocWords(a: seq<Word>, b: seq<Word>, c: seq<Word>, d: seq<Word>)
    ensures a + (b + (c + d)) == a + b + c + d
  {
  }

  lemma TailDelim(parts: seq<string>, conn: string, rest: string)
    requires Delim(rest)
    ensures Delim(TailText(parts, " " + conn + " ") + rest)
  {
  }

  lemma {:induction false} LexPlan(p: Plan, rest: string)
    requires Worded(p) && Delim(rest)
    ensures Lex(Sql(p) + rest, "") == Words(p) + Lex(rest, "")
    decreases p, 1
  {
    match p
    case PCond(col, op, value) => LexCond(col, op, value, rest);
    case PGroup(conn, plans) => LexGroup(conn, plans, rest);
  }

  lemma GroupLexes(first: string, tail: string, rest: string, fw: seq<Word>, tw: seq<Word>)
    requires Lex(first + (tail + (")" + rest)), "") == fw + Lex(tail + (")" + rest), "")
    requires Lex(tail + (")" + rest), "") == tw + Lex(")" + rest, "")
    ensures Lex("(" + (first + tail) + ")" + rest, "") == [LPar] + fw + tw + [RPar] + Lex(rest, "")
  {
    GroupShape(first, tail, rest);
    LexOpen(first + (tail + (")" + rest)));
    LexClose(rest);
    AssocWords([LPar], fw, tw, [RPar] + Lex(rest, ""));
    AssocWords([LPar], fw + tw, [RPar], Lex(rest, ""));
  }

  lemma {:induction false} LexGroup(conn: BoolOp, plans: seq<Plan>, rest: string)
    requires WordedAll(plans) && Delim(rest)
    ensures Lex(Sql(PGroup(conn, plans)) + rest, "") == Words(PGroup(conn, plans)) + Lex(rest, "")
    decreases plans, 1
  {
    if plans == [] {
      assert "(" + "" + ")" + rest == "(" + (")" + rest);
      LexOpen(")" + rest);
      LexClose(rest);
      return;
    }
    var sep := " " + ConnText(conn) + " ";
    JoinIsTail(SqlAll(plans), sep);
    var first, tail := Sql(plans[0]), TailText(SqlAll(plans[1..]), sep);
    TailDelim(SqlAll(plans[1..]), ConnText(conn), ")" + rest);
    LexPlan(plans[0], tail + (")" + rest));
    LexTail(conn, plans[1..], ")" + rest);
    GroupLexes(first, tail, rest, Words(plans[0]), TailWords(conn, plans[1..]));
  }

  lemma {:induction false} LexTail(conn: BoolOp, plans: seq<Plan>, rest: string)
    requires WordedAll(plans) && Delim(rest)
    ensures Lex(TailText(SqlAll(plans), " " + ConnText(conn) + " ") + rest, "") == TailWords(conn, plans) + Lex(rest, "")
    decreases plans, 0
  {
    if plans == [] {
      assert "" + rest == rest;
    } else {
      var sep := " " + ConnText(conn) + " ";
      var tail := TailText(SqlAll(plans[1..]), sep);
      LexLink(ConnText(conn), Sql(plans[0]), tail, rest);
      TailDelim(SqlAll(plans[1..]), ConnText(conn), rest);
      LexPlan(plans[0], tail + rest);
      LexTail(conn, plans[1..], rest);
      AssocWords([W(ConnText(conn))], Words(plans[0]), TailWords(conn, plans[1..]), Lex(rest, ""));
    }
  }

  // ---------- Parsing the words ----------

  lemma OpTextParses(op: Op)
    requires op != Exists && op != IsNull && op != NotNull
    ensures OpOf(OpText(op)) == Some(op) && OpText(op) != "IS"
  {
  }

  lemma ParseCond(col: string, op: Op, value: Arg, rest: seq<Word>, k: nat)
    requires op == Exists || col != "EXISTS"
    ensures var p := PCond(col, op, value);
      ParsePrimary(CondWords(col, op, value) + rest, k) == Ok(ExprOf(p, k), rest, k + Slots(p))
  {
    var ws := CondWords(col, op, value) + rest;
    match op
    case Exists => assert ws[4..] == rest;
    case IsNull => assert ws[1..][2..] == rest;
    case NotNull => assert ws[1..][3..] == rest;
    case In => assert ws[1..][if value.SubQuery? then 4 else 2..] == rest;
    case _ =>
      OpTextParses(op);
      assert ws[1..][2..] == rest;
  }

  lemma ParseParen(inner: seq<Word>, e: Expr, rest: seq<Word>, k: nat, m: nat)
    requires ParseOr(inner, k) == Ok(e, [RPar] + rest, m)
    ensures ParsePrimary([LPar] + inner, k) == Ok(e, rest, m)
  {
  }

  lemma AndStops(e: Expr, ws: seq<Word>, k: nat)
    requires ws != [] && ws[0] != W("AND")
    ensures AndTail(e, ws, k) == Ok(e, ws, k)
  {
  }

  /** How the parser goes on after the first operand of a group. */
  function Tail(conn: BoolOp, e: Expr, ws: seq<Word>, k: nat): Parsed {
    if conn == Or then OrTail(e, ws, k)
    else match AndTail(e, ws, k)
      case Ok(r, rest, m) => OrTail(r, rest, m)
      case Fail => Fail
  }

  lemma ParseOrIsTail(conn: BoolOp, ws: seq<Word>, more: seq<Word>, r: Expr, k: nat, m: nat)
    requires ParsePrimary(ws, k) == Ok(r, more, m)
    requires conn == Or ==> AndTail(r, more, m) == Ok(r, more, m)
    ensures ParseOr(ws, k) == Tail(conn, r, more, m)
  {
  }

  /** One more operand behind its connective. */
  lemma TailLink(conn: BoolOp, first: seq<Word>, more: seq<Word>, e: Expr, r: Expr, k: nat, m: nat)
    requires ParsePrimary(first + more, k) == Ok(r, more, m)
    requires conn == Or ==> AndTail(r, more, m) == Ok(r, more, m)
    ensures Tail(conn, e, [W(ConnText(conn))] + first + more, k) == Tail(conn, Link(conn, e, r), more, m)
  {
    var ws := [W(ConnText(conn))] + first + more;
    assert ws[0] == W(ConnText(conn)) && ws[1..] == first + more;
    if conn == Or {
      assert ParseAnd(ws[1..], k) == Ok(r, more, m);
      assert OrTail(e, ws, k) == OrTail(OrE(e, r), more, m);
    } else {
      assert AndTail(e, ws, k) == AndTail(AndE(e, r), more, m);
    }
  }

  lemma TailStops(conn: BoolOp, e: Expr, more: seq<Word>, k: nat)
    requires more != [] && more[0] == RPar
    ensures Tail(conn, e, more, k) == Ok(e, more, k)
  {
  }

  lemma LinkParses(conn: BoolOp, first: seq<Word>, tail: seq<Word>, more: seq<Word>, e: Expr, r: Expr, k: nat, m: nat)
    requires ParsePrimary(first + (tail + more), k) == Ok(r, tail + more, m)
    requires more != [] && more[0] == RPar && (tail == [] || tail[0] == W(ConnText(conn)))
    ensures Tail(conn, e, [W(ConnText(conn))] + first + tail + more, k) == Tail(conn, Link(conn, e, r), tail + more, m)
  {
    assert (tail + more)[0] == if tail == [] then RPar else tail[0];
    if conn == Or { AndStops(r, tail + more, m); }
    TailLink(conn, first, tail + more, e, r, k, m);
    assert [W(ConnText(conn))] + first + tail + more == [W(ConnText(conn))] + first + (tail + more);
  }

  /** Inside the parentheses, the first operand hands over to the rest of the group. */
  lemma GroupInside(conn: BoolOp, inner: seq<Word>, tail: seq<Word>, more: seq<Word>, r: Expr, k: nat, m: nat)
    requires ParsePrimary(inner, k) == Ok(r, tail + more, m)
    requires more != [] && more[0] == RPar && (tail == [] || tail[0] == W(ConnText(conn)))
    ensures ParseOr(inner, k) == Tail(conn, r, tail + more, m)
  {
    assert (tail + more)[0] == if tail == [] then RPar else tail[0];
    if conn == Or { AndStops(r, tail + more, m); }
    ParseOrIsTail(conn, inner, tail + more, r, k, m);
  }

  lemma Bracketed(first: seq<Word>, tail: seq<Word>, rest: seq<Word>)
    ensures [LPar] + first + tail + [RPar] + rest == [LPar] + (first + (tail + ([RPar] + rest)))
  {
  }

  /** A group's words parse when its first operand does and the rest goes on to the closing parenthesis. */
  lemma GroupParses(conn: BoolOp, first: seq<Word>, tail: seq<Word>, rest: seq<Word>, r: Expr, e: Expr, k: nat, m: nat, next: nat)
    requires ParsePrimary(first + (tail + ([RPar] + rest)), k) == Ok(r, tail + ([RPar] + rest), m)
    requires Tail(conn, r, tail + ([RPar] + rest), m) == Ok(e, [RPar] + rest, next)
    requires tail == [] || tail[0] == W(ConnText(conn))
    ensures ParsePrimary([LPar] + first + tail + [RPar] + rest, k) == Ok(e, rest, next)
  {
    var inner := first + (tail + ([RPar] + rest));
    GroupInside(conn, inner, tail, [RPar] + rest, r, k, m);
    ParseParen(inner, e, rest, k, next);
    Bracketed(first, tail, rest);
  }

  lemma {:induction false} ParsePlan(p: Plan, rest: seq<Word>, k: nat)
    requires Worded(p) && Filled(p)
    ensures ParsePrimary(Words(p) + rest, k) == Ok(ExprOf(p, k), rest, k + Slots(p))
    decreases p, 1
  {
    match p
    case PCond(col, op, value) => ParseCond(col, op, value, rest, k);
    case PGroup(conn, plans) =>
      var first, tail, more := Words(plans[0]), TailWords(conn, plans[1..]), [RPar] + rest;
      var r, m := ExprOf(plans[0], k), k + Slots(plans[0]);
      ParsePlan(plans[0], tail + more, k);
      ParseTail(conn, plans[1..], r, more, m);
      GroupParses(conn, first, tail, rest, r, ExprTail(conn, plans[1..], r, m), k, m, m + SlotsAll(plans[1..]));
  }

  lemma {:induction false} ParseTail(conn: BoolOp, plans: seq<Plan>, e: Expr, more: seq<Word>, k: nat)
    requires WordedAll(plans) && FilledAll(plans) && more != [] && more[0] == RPar
    ensures Tail(conn, e, TailWords(conn, plans) + more, k) == Ok(ExprTail(conn, plans, e, k), more, k + SlotsAll(plans))
    decreases plans, 0
  {
    if plans == [] {
      assert [] + more == more;
      TailStops(conn, e, more, k);
    } else {
      var tail, r, m := TailWords(conn, plans[1..]), ExprOf(plans[0], k), k + Slots(plans[0]);
      ParsePlan(plans[0], tail + more, k);
      LinkParses(conn, Words(plans[0]), tail, more, e, r, k, m);
      ParseTail(conn, plans[1..], Link(conn, e, r), more, m);
    }
  }

  // ---------- An empty group spoils the whole text ----------

  lemma OperandFails(conn: BoolOp, first: seq<Word>, tail: seq<Word>, rest: seq<Word>, k: nat)
    requires ParsePrimary(first + (tail + ([RPar] + rest)), k) == Fail
    ensures ParsePrimary([LPar] + first + tail + [RPar] + rest, k) == Fail
  {
    var inner := first + (tail + ([RPar] + rest));
    assert ParseAnd(inner, k) == Fail;
    assert ParseOr(inner, k) == Fail;
    assert [LPar] + first + tail + [RPar] + rest == [LPar] + inner;
    assert ([LPar] + inner)[1..] == inner;
  }

  lemma TailFails(conn: BoolOp, first: seq<Word>, tail: seq<Word>, rest: seq<Word>, r: Expr, k: nat, m: nat)
    requires tail == [] || tail[0] == W(ConnText(conn))
    requires ParsePrimary(first + (tail + ([RPar] + rest)), k) == Ok(r, tail + ([RPar] + rest), m)
    requires Tail(conn, r, tail + ([RPar] + rest), m) == Fail
    ensures ParsePrimary([LPar] + first + tail + [RPar] + rest, k) == Fail
  {
    var inner := first + (tail + ([RPar] + rest));
    GroupInside(conn, inner, tail, [RPar] + rest, r, k, m);
    Bracketed(first, tail, rest);
    assert ([LPar] + inner)[1..] == inner;
  }

  lemma LinkFails(conn: BoolOp, first: seq<Word>, tail: seq<Word>, more: seq<Word>, e: Expr, k: nat)
    requires ParsePrimary(first + (tail + more), k) == Fail
    ensures Tail(conn, e, [W(ConnText(conn))] + first + tail + more, k) == Fail
  {
    var ws := [W(ConnText(conn))] + (first + (tail + more));
    assert [W(ConnText(conn))] + first + tail + more == ws;
    assert ws[0] == W(ConnText(conn)) && ws[1..] == first + (tail + more);
    if conn == Or {
      assert ParseAnd(ws[1..], k) == Fail;
      assert OrTail(e, ws, k) == Fail;
    } else {
      assert AndTail(e, ws, k) == Fail;
    }
  }

  lemma {:induction false} FailPlan(p: Plan, rest: seq<Word>, k: nat)
    requires Worded(p) && !Filled(p)
    ensures ParsePrimary(Words(p) + rest, k) == Fail
    decreases p, 1
  {
    var conn, plans := p.conn, p.plans;
    if plans == [] {
      OperandFails(conn, [], [], rest, k);
      assert [LPar] + [] + [] + [RPar] + rest == Words(p) + rest;
    } else {
      var first, tail, more := Words(plans[0]), TailWords(conn, plans[1..]), [RPar] + rest;
      if Filled(plans[0]) {
        ParsePlan(plans[0], tail + more, k);
        FailTail(conn, plans[1..], ExprOf(plans[0], k), more, k + Slots(plans[0]));
        TailFails(conn, first, tail, rest, ExprOf(plans[0], k), k, k + Slots(plans[0]));
      } else {
        FailPlan(plans[0], tail + more, k);
        OperandFails(conn, first, tail, rest, k);
      }
    }
  }

  lemma {:induction false} FailTail(conn: BoolOp, plans: seq<Plan>, e: Expr, more: seq<Word>, k: nat)
    requires WordedAll(plans) && !FilledAll(plans) && more != [] && more[0] == RPar
    ensures Tail(conn, e, TailWords(conn, plans) + more, k) == Fail
    decreases plans, 0
  {
    var tail := TailWords(conn, plans[1..]);
    if Filled(plans[0]) {
      var r, m := ExprOf(plans[0], k), k + Slots(plans[0]);
      ParsePlan(plans[0], tail + more, k);
      LinkParses(conn, Words(plans[0]), tail, more, e, r, k, m);
      FailTail(conn, plans[1..], Link(conn, e, r), more, m);
    } else {
      FailPlan(plans[0], tail + more, k);
      LinkFails(conn, Words(plans[0]), tail, more, e, k);
    }
  }

  /** The whole text is one condition with Slots(p) placeholders, numbered from the left - or no condition
      at all, if some group is empty. */
  lemma TextParses(p: Plan)
    requires Worded(p)
    ensures ParseOr(Lex(Sql(p), ""), 0) == if Filled(p) then Ok(ExprOf(p, 0), [], Slots(p)) else Fail
  {
    assert Sql(p) + "" == Sql(p);
    LexPlan(p, "");
    assert Lex("", "") == [];
    var ws := Words(p);
    assert ws + [] == ws;
    if Filled(p) { ParsePlan(p, [], 0); } else { FailPlan(p, [], 0); }
    WholeParse(ws);
  }

  /** With nothing after it, a primary is the whole condition. */
  lemma WholeParse(ws: seq<Word>)
    ensures match ParsePrimary(ws, 0)
      case Ok(e, rest, m) => rest == [] ==> ParseOr(ws, 0) == Ok(e, [], m)
      case Fail => ParseOr(ws, 0) == Fail
  {
    match ParsePrimary(ws, 0)
    case Ok(e, rest, m) => if rest == [] { assert ParseAnd(ws, 0) == Ok(e, [], m); }
    case Fail => assert ParseAnd(ws, 0) == Fail;
  }
}
