/** Compiling a condition tree preserves its meaning. */
module QueryProof {
  import opened Common
  import opened QueryCompile
  import opened QueryAliases
  import opened QueryMeaning
  import opened QueryPlan

  // ---------- The plan of a tree ----------

  function PlanOf(nm: Naming, c: Comp, n: Node): Plan
    decreases n, 1
  {
    match n
    case Condition(field, op, value) => PCond(if op == Exists then "" else Column(nm, c, field).0, op, value)
    case Group(conn, nodes) => PGroup(conn, PlanAll(nm, c, nodes))
  }

  function PlanAll(nm: Naming, c: Comp, nodes: seq<Node>): (r: seq<Plan>)
    ensures |r| == |nodes|
    decreases nodes, 0
  {
    if nodes == [] then [] else [PlanOf(nm, c, nodes[0])] + PlanAll(nm, Compile(nm, c, nodes[0]).comp, nodes[1..])
  }

  lemma {:induction false} CompileIsPlan(nm: Naming, c: Comp, n: Node)
    ensures Compile(nm, c, n).sql == Sql(PlanOf(nm, c, n)) && Compile(nm, c, n).args == ArgsOf(n)
    ensures Slots(PlanOf(nm, c, n)) == |ArgsOf(n)|
    decreases n, 1
  {
    if n.Group? { CompileAllIsPlan(nm, c, n.nodes); }
  }

  lemma {:induction false} CompileAllIsPlan(nm: Naming, c: Comp, nodes: seq<Node>)
    ensures CompileAll(nm, c, nodes).0 == SqlAll(PlanAll(nm, c, nodes)) && CompileAll(nm, c, nodes).1 == ArgsOfAll(nodes)
    ensures SlotsAll(PlanAll(nm, c, nodes)) == |ArgsOfAll(nodes)|
    decreases nodes, 0
  {
    if nodes != [] {
      CompileIsPlan(nm, c, nodes[0]);
      CompileAllIsPlan(nm, Compile(nm, c, nodes[0]).comp, nodes[1..]);
    }
  }

  lemma {:induction false} DecimalPlain(n: nat)
    ensures Plain(Decimal(n))
  {
    if n >= 10 { DecimalPlain(n / 10); }
  }

  /** A qualified column is one word, and its alias is what stands before the first dot. */
  lemma Qualified(alias: string, col: string)
    requires Plain(alias) && Plain(col)
    ensures var w := alias + "." + col;
      Clean(w) && w != "EXISTS" && !HasArrow(w) && IndexOf(w, '.', 0) == |alias| && w[..|alias|] == alias && w[|alias| + 1..] == col
  {
    var w := alias + "." + col;
    assert w[|alias|] == '.';
    assert forall i :: 0 <= i < |alias| ==> w[i] == alias[i];
    assert forall i :: |alias| < i < |w| ==> w[i] == col[i - |alias| - 1];
  }

  lemma PlainAlias(c: Comp, relation: string)
    requires Sane(c)
    ensures Plain(RelationAlias(c, relation).0)
  {
    var (alias, d) := RelationAlias(c, relation);
    SaneAlias(c, relation);
    var k :| 1 <= k <= d.counter && alias == Alias(k);
    DecimalPlain(k);
  }

  lemma ColumnWord(nm: Naming, c: Comp, field: string)
    requires Sane(c) && Plain(c.tableAlias) && CleanField(nm, field)
    ensures Clean(Column(nm, c, field).0) && Column(nm, c, field).0 != "EXISTS"
  {
    if HasArrow(field) {
      assert !HasArrow("EXISTS");
    } else {
      var parts := Split(field);
      if |parts| == 1 {
        Qualified(c.tableAlias, nm.column(parts[0]));
      } else {
        PlainAlias(c, parts[0]);
        Qualified(RelationAlias(c, parts[0]).0, nm.column(parts[1]));
      }
    }
  }

  /** What compiling asks of the names: plain table alias and columns, path expressions that are one word. */
  ghost predicate Ready(nm: Naming, c: Comp, n: Node) {
    Sane(c) && Plain(c.tableAlias) && CleanNode(nm, n)
  }

  lemma {:induction false} PlanFine(nm: Naming, c: Comp, n: Node)
    requires Ready(nm, c, n)
    ensures Worded(PlanOf(nm, c, n)) && (Filled(PlanOf(nm, c, n)) <==> NonEmpty(n))
    decreases n, 1
  {
    match n
    case Condition(field, op, value) => if op != Exists { ColumnWord(nm, c, field); }
    case Group(conn, nodes) => PlanAllFine(nm, c, nodes);
  }

  lemma {:induction false} PlanAllFine(nm: Naming, c: Comp, nodes: seq<Node>)
    requires Sane(c) && Plain(c.tableAlias) && forall i :: 0 <= i < |nodes| ==> CleanNode(nm, nodes[i])
    ensures WordedAll(PlanAll(nm, c, nodes))
    ensures FilledAll(PlanAll(nm, c, nodes)) <==> forall i :: 0 <= i < |nodes| ==> NonEmpty(nodes[i])
    decreases nodes, 0
  {
    if nodes != [] {
      CompileJoins(nm, c, nodes[0]);
      PlanFine(nm, c, nodes[0]);
      PlanAllFine(nm, Compile(nm, c, nodes[0]).comp, nodes[1..]);
      assert forall i :: 0 < i < |nodes| ==> nodes[i] == nodes[1..][i - 1];
      assert forall i :: 0 <= i < |nodes| - 1 ==> nodes[1..][i] == nodes[i + 1];
    }
  }

  // ---------- Evaluation ----------

  /** The table's own alias is not one of the join aliases. */
  ghost predicate Apart(d: Comp) {
    Sane(d) && Plain(d.tableAlias) && forall r :: r in d.joins ==> d.joins[r] != d.tableAlias
  }

  lemma ColumnResolves(nm: Naming, c: Comp, d: Comp, field: string)
    requires Sane(c) && CleanField(nm, field) && Apart(d) && Later(Column(nm, c, field).1, d)
    ensures Resolve(d, Column(nm, c, field).0) == RefOf(nm, field)
  {
    if !HasArrow(field) {
      var parts := Split(field);
      ColumnJoins(nm, c, field);
      if |parts| == 1 {
        Qualified(c.tableAlias, nm.column(parts[0]));
      } else {
        PlainAlias(c, parts[0]);
        Qualified(RelationAlias(c, parts[0]).0, nm.column(parts[1]));
      }
    }
  }

  predicate ArgsAt(args: seq<Arg>, k: nat, part: seq<Arg>) {
    k + |part| <= |args| && args[k..k + |part|] == part
  }

  lemma ArgsAtSplit(args: seq<Arg>, k: nat, a: seq<Arg>, b: seq<Arg>)
    requires ArgsAt(args, k, a + b)
    ensures ArgsAt(args, k, a) && ArgsAt(args, k + |a|, b)
  {
    assert args[k..k + |a|] == (a + b)[..|a|];
    assert args[k + |a|..k + |a + b|] == (a + b)[|a|..];
  }

  /** The truth of a plan: its columns resolved through the joins of d, its own arguments in place. */
  ghost function HoldsPlan(p: Plan, d: Comp, sem: (ColRef, Op, Arg) -> bool): bool
    decreases p, 1
  {
    match p
    case PCond(col, op, value) =>
      sem(if op == Exists then NoColumn else Resolve(d, col), op, if op == IsNull || op == NotNull then Nil else value)
    case PGroup(conn, plans) => HoldsTail(conn, plans, d, sem, conn == And)
  }

  ghost function HoldsTail(conn: BoolOp, plans: seq<Plan>, d: Comp, sem: (ColRef, Op, Arg) -> bool, acc: bool): bool
    decreases plans, 0
  {
    if plans == [] then acc
    else var h := HoldsPlan(plans[0], d, sem); HoldsTail(conn, plans[1..], d, sem, if conn == And then acc && h else acc || h)
  }

  function PlanArgs(p: Plan): seq<Arg>
    decreases p, 1
  {
    match p
    case PCond(_, op, value) => if op == IsNull || op == NotNull then [] else [value]
    case PGroup(_, plans) => PlanArgsAll(plans)
  }

  function PlanArgsAll(plans: seq<Plan>): seq<Arg>
    decreases plans, 0
  {
    if plans == [] then [] else PlanArgs(plans[0]) + PlanArgsAll(plans[1..])
  }

  lemma {:induction false} PlanArgsSlots(p: Plan)
    ensures |PlanArgs(p)| == Slots(p)
    decreases p, 1
  {
    if p.PGroup? { PlanArgsAllSlots(p.plans); }
  }

  lemma {:induction false} PlanArgsAllSlots(plans: seq<Plan>)
    ensures |PlanArgsAll(plans)| == SlotsAll(plans)
    decreases plans, 0
  {
    if plans != [] {
      PlanArgsSlots(plans[0]);
      PlanArgsAllSlots(plans[1..]);
    }
  }

  lemma {:induction false} EvalPlan(p: Plan, k: nat, args: seq<Arg>, d: Comp, sem: (ColRef, Op, Arg) -> bool)
    requires Filled(p) && ArgsAt(args, k, PlanArgs(p))
    ensures Eval(ExprOf(p, k), args, d, sem) == HoldsPlan(p, d, sem)
    decreases p, 1
  {
    match p
    case PCond(_, op, value) =>
      if op != IsNull && op != NotNull { assert args[k] == args[k..k + 1][0]; }
    case PGroup(conn, plans) =>
      assert PlanArgs(p) == PlanArgs(plans[0]) + PlanArgsAll(plans[1..]);
      ArgsAtSplit(args, k, PlanArgs(plans[0]), PlanArgsAll(plans[1..]));
      PlanArgsSlots(plans[0]);
      EvalPlan(plans[0], k, args, d, sem);
      EvalTail(conn, plans[1..], ExprOf(plans[0], k), k + Slots(plans[0]), args, d, sem);
  }

  lemma {:induction false} EvalTail(conn: BoolOp, plans: seq<Plan>, e: Expr, k: nat, args: seq<Arg>, d: Comp, sem: (ColRef, Op, Arg) -> bool)
    requires FilledAll(plans) && ArgsAt(args, k, PlanArgsAll(plans))
    ensures Eval(ExprTail(conn, plans, e, k), args, d, sem) == HoldsTail(conn, plans, d, sem, Eval(e, args, d, sem))
    decreases plans, 0
  {
    if plans != [] {
      ArgsAtSplit(args, k, PlanArgs(plans[0]), PlanArgsAll(plans[1..]));
      PlanArgsSlots(plans[0]);
      EvalPlan(plans[0], k, args, d, sem);
      EvalTail(conn, plans[1..], Link(conn, e, ExprOf(plans[0], k)), k + Slots(plans[0]), args, d, sem);
    }
  }

  lemma {:induction false} PlanHolds(nm: Naming, c: Comp, n: Node, d: Comp, sem: (ColRef, Op, Arg) -> bool)
    requires Ready(nm, c, n) && Apart(d) && Later(Compile(nm, c, n).comp, d)
    ensures HoldsPlan(PlanOf(nm, c, n), d, sem) == Holds(nm, n, sem) && PlanArgs(PlanOf(nm, c, n)) == ArgsOf(n)
    decreases n, 1
  {
    match n
    case Condition(field, op, value) => if op != Exists { ColumnResolves(nm, c, d, field); }
    case Group(conn, nodes) => PlanAllHolds(nm, c, conn, nodes, d, sem, conn == And);
  }

  lemma {:induction false} PlanAllHolds(nm: Naming, c: Comp, conn: BoolOp, nodes: seq<Node>, d: Comp, sem: (ColRef, Op, Arg) -> bool, acc: bool)
    requires Sane(c) && Plain(c.tableAlias) && Apart(d) && Later(CompileAll(nm, c, nodes).2, d)
    requires forall i :: 0 <= i < |nodes| ==> CleanNode(nm, nodes[i])
    ensures PlanArgsAll(PlanAll(nm, c, nodes)) == ArgsOfAll(nodes)
    ensures HoldsTail(conn, PlanAll(nm, c, nodes), d, sem, acc) ==
      if conn == And then acc && forall i :: 0 <= i < |nodes| ==> Holds(nm, nodes[i], sem)
      else acc || exists i :: 0 <= i < |nodes| && Holds(nm, nodes[i], sem)
    decreases nodes, 0
  {
    if nodes != [] {
      var e := Compile(nm, c, nodes[0]).comp;
      CompileJoins(nm, c, nodes[0]);
      CompileAllJoins(nm, e, nodes[1..]);
      assert CompileAll(nm, c, nodes).2 == CompileAll(nm, e, nodes[1..]).2;
      PlanHolds(nm, c, nodes[0], d, sem);
      var h := Holds(nm, nodes[0], sem);
      PlanAllHolds(nm, e, conn, nodes[1..], d, sem, if conn == And then acc && h else acc || h);
      assert forall i :: 0 < i < |nodes| ==> nodes[i] == nodes[1..][i - 1];
      assert forall i :: 0 <= i < |nodes| - 1 ==> nodes[1..][i] == nodes[i + 1];
    }
  }

  // ---------- The theorem ----------

  /** For every tree: unless it holds an empty group, the text parses with all its words, its placeholders
      are the arguments in number and order, and it is true exactly when the tree holds - in the joins in
      place right after compiling it or at any later time. With an empty group it is no condition at all. */
  lemma CompilePreservesMeaning(nm: Naming, c: Comp, n: Node, d: Comp, sem: (ColRef, Op, Arg) -> bool)
    requires Ready(nm, c, n) && Apart(d) && Later(Compile(nm, c, n).comp, d)
    ensures Meaning(Compile(nm, c, n).sql, Compile(nm, c, n).args, d, sem) == if NonEmpty(n) then Some(Holds(nm, n, sem)) else None
  {
    var p, args := PlanOf(nm, c, n), Compile(nm, c, n).args;
    CompileIsPlan(nm, c, n);
    PlanFine(nm, c, n);
    TextParses(p);
    PlanHolds(nm, c, n, d, sem);
    if NonEmpty(n) {
      assert args[0..0 + |args|] == args;
      EvalPlan(p, 0, args, d, sem);
    }
  }
}
