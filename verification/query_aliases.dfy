/** The join-alias table: what compiling keeps and what it adds. */
module QueryAliases {
  import opened QueryCompile

  // ---------- Aliases are distinct ----------

  lemma {:induction false} DecimalInjective(a: nat, b: nat)
    requires Decimal(a) == Decimal(b)
    ensures a == b
  {
    var x, y := Decimal(a), Decimal(b);
    if a < 10 || b < 10 {
      DecimalNonEmpty(a / 10);
      DecimalNonEmpty(b / 10);
      assert x[|x| - 1] == y[|y| - 1];
    } else {
      assert x[|x| - 1] == Digit(a % 10) && y[|y| - 1] == Digit(b % 10);
      assert x[..|x| - 1] == Decimal(a / 10) && y[..|y| - 1] == Decimal(b / 10);
      DecimalInjective(a / 10, b / 10);
    }
  }

  lemma DecimalNonEmpty(n: nat)
    ensures Decimal(n) != ""
  {
  }

  lemma AliasInjective(a: nat, b: nat)
    requires Alias(a) == Alias(b)
    ensures a == b
  {
    assert Alias(a)[1..] == Decimal(a) && Alias(b)[1..] == Decimal(b);
    DecimalInjective(a, b);
  }

  ghost predicate Numbered(alias: string, n: nat) {
    exists k :: 1 <= k <= n && alias == Alias(k)
  }

  /** Every alias is j1 .. j<counter>, and distinct relations have distinct aliases. */
  ghost predicate Sane(c: Comp) {
    && (forall r :: r in c.joins ==> Numbered(c.joins[r], c.counter))
    && (forall r, t :: r in c.joins && t in c.joins && c.joins[r] == c.joins[t] ==> r == t)
  }

  /** d is a later state of the compiler: nothing assigned in c has changed. */
  predicate Later(c: Comp, d: Comp) {
    c.tableAlias == d.tableAlias && c.counter <= d.counter && forall r :: r in c.joins ==> r in d.joins && d.joins[r] == c.joins[r]
  }

  lemma SaneAlias(c: Comp, relation: string)
    requires Sane(c)
    ensures Sane(RelationAlias(c, relation).1) && Later(c, RelationAlias(c, relation).1)
  {
    if relation !in c.joins {
      var (alias, d) := RelationAlias(c, relation);
      forall r | r in c.joins ensures c.joins[r] != alias && Numbered(c.joins[r], d.counter) {
        var k :| 1 <= k <= c.counter && c.joins[r] == Alias(k);
        if Alias(k) == alias { AliasInjective(k, c.counter + 1); }
      }
      assert alias == Alias(d.counter);
    }
  }

  // ---------- Relations a tree mentions ----------

  function RelationsOf(field: string): set<string> {
    if HasArrow(field) || |Split(field)| == 1 then {} else {Split(field)[0]}
  }

  function Relations(n: Node): set<string>
    decreases n, 1
  {
    match n
    case Condition(field, op, _) => if op == Exists then {} else RelationsOf(field)
    case Group(_, nodes) => RelationsAll(nodes)
  }

  function RelationsAll(nodes: seq<Node>): set<string>
    decreases nodes, 0
  {
    if nodes == [] then {} else Relations(nodes[0]) + RelationsAll(nodes[1..])
  }

  lemma ColumnJoins(nm: Naming, c: Comp, field: string)
    requires Sane(c)
    ensures var d := Column(nm, c, field).1;
      Sane(d) && Later(c, d) && d.joins.Keys == c.joins.Keys + RelationsOf(field)
  {
    if !HasArrow(field) && |Split(field)| > 1 { SaneAlias(c, Split(field)[0]); }
  }

  /** Compiling adds an alias for exactly the relations the tree mentions, and moves none. */
  lemma {:induction false} CompileJoins(nm: Naming, c: Comp, n: Node)
    requires Sane(c)
    ensures var d := Compile(nm, c, n).comp;
      Sane(d) && Later(c, d) && d.joins.Keys == c.joins.Keys + Relations(n)
    decreases n, 1
  {
    match n
    case Condition(field, op, value) => ColumnJoins(nm, c, field);
    case Group(conn, nodes) => CompileAllJoins(nm, c, nodes);
  }

  lemma {:induction false} CompileAllJoins(nm: Naming, c: Comp, nodes: seq<Node>)
    requires Sane(c)
    ensures var d := CompileAll(nm, c, nodes).2;
      Sane(d) && Later(c, d) && d.joins.Keys == c.joins.Keys + RelationsAll(nodes)
    decreases nodes, 0
  {
    if nodes != [] {
      CompileJoins(nm, c, nodes[0]);
      CompileAllJoins(nm, Compile(nm, c, nodes[0]).comp, nodes[1..]);
    }
  }
}
