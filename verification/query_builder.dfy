/** The WHERE and JOIN parts of the query builder. */
module QueryBuilding {
  import opened Common
  import opened QueryCompile
  import opened QueryAliases
  import opened QueryMeaning
  import opened QueryPlan
  import opened QueryProof

  datatype LeftJoin = LeftJoin(table: string, alias: string, own: string, fk: string)

  function JoinFor(nm: Naming, tableAlias: string, relation: string, alias: string): LeftJoin {
    LeftJoin(nm.table(relation), alias, tableAlias, nm.column(relation + "ID"))
  }

  datatype Built = Built(sql: string, args: seq<Arg>, joins: seq<LeftJoin>)

  predicate JoinsRelation(nm: Naming, c: Comp, r: string, clause: LeftJoin) {
    r in c.joins && clause == JoinFor(nm, c.tableAlias, r, c.joins[r])
  }

  ghost predicate IsJoin(nm: Naming, c: Comp, clause: LeftJoin) {
    exists r :: JoinsRelation(nm, c, r, clause)
  }

  /** One clause for each relation of the alias table, and no other. */
  ghost predicate JoinsAre(nm: Naming, c: Comp, joins: seq<LeftJoin>) {
    && (forall r :: r in c.joins ==> JoinFor(nm, c.tableAlias, r, c.joins[r]) in joins)
    && (forall i :: 0 <= i < |joins| ==> IsJoin(nm, c, joins[i]))
    && (forall i, j :: 0 <= i < j < |joins| ==> joins[i].alias != joins[j].alias)
  }

  class QueryBuilder {
    const nm: Naming
    const alias: string
    var root: Option<Node>

    constructor (nm: Naming, alias: string)
      ensures this.nm == nm && this.alias == alias && root == None
    {
      this.nm, this.alias, root := nm, alias, None;
    }

    method Where(n: Node)
      modifies this
      ensures root == Some(n)
    {
      root := Some(n);
    }

    method AndWhere(n: Node)
      modifies this
      ensures root == Some(Combined(And, old(root), n))
    {
      if root == None {
        root := Some(n);
        return;
      }
      root := Some(Group(And, [root.value, n]));
    }

    method OrWhere(n: Node)
      modifies this
      ensures root == Some(Combined(Or, old(root), n))
    {
      if root == None {
        root := Some(n);
        return;
      }
      root := Some(Group(Or, [root.value, n]));
    }

    method Build() returns (b: Built)
      requires root.Some? ==> Typed(root.value)
      ensures var c := Comp(alias, map[], 0);
        if root == None then b == Built("", [], [])
        else
          var r := Compile(nm, c, root.value);
          b.sql == r.sql && b.args == r.args && JoinsAre(nm, r.comp, b.joins)
    {
      if root == None {
        return Built("", [], []);
      }
      var comp := new Compiler(nm, alias);
      CompileJoins(nm, comp.State(), root.value);
      var sql, args := comp.CompileNode(root.value);
      var joins := EmitJoins(comp);
      b := Built(sql, args, joins);
    }

    /** The alias table is a map: its clauses come in whatever order it yields them. */
    method EmitJoins(comp: Compiler) returns (joins: seq<LeftJoin>)
      requires Sane(comp.State()) && comp.tableAlias == alias
      ensures JoinsAre(nm, comp.State(), joins)
    {
      var rest := comp.joins.Keys;
      joins := [];
      ghost var c, rels: seq<string> := comp.State(), [];
      while rest != {}
        invariant rest <= c.joins.Keys && |rels| == |joins|
        invariant forall r :: r in c.joins ==> r in rest || r in rels
        invariant forall i :: 0 <= i < |rels| ==> rels[i] !in rest && JoinsRelation(nm, c, rels[i], joins[i])
        invariant forall i, j :: 0 <= i < j < |rels| ==> rels[i] != rels[j]
      {
        var rel :| rel in rest;
        joins, rest := joins + [JoinFor(nm, alias, rel, comp.joins[rel])], rest - {rel};
        rels := rels + [rel];
      }
      JoinsComplete(nm, c, joins, rels);
    }
  }

  lemma JoinsComplete(nm: Naming, c: Comp, joins: seq<LeftJoin>, rels: seq<string>)
    requires Sane(c) && |rels| == |joins| && (forall r :: r in c.joins ==> r in rels)
    requires forall i :: 0 <= i < |rels| ==> JoinsRelation(nm, c, rels[i], joins[i])
    requires forall i, j :: 0 <= i < j < |rels| ==> rels[i] != rels[j]
    ensures JoinsAre(nm, c, joins)
  {
  }

  function Combined(conn: BoolOp, root: Option<Node>, n: Node): Node {
    if root == None then n else Group(conn, [root.value, n])
  }

  /** AndWhere means "and", Or means "or", with whatever the root was before. */
  lemma CombinedHolds(nm: Naming, root: Node, n: Node, sem: (ColRef, Op, Arg) -> bool)
    ensures Holds(nm, Combined(And, Some(root), n), sem) <==> Holds(nm, root, sem) && Holds(nm, n, sem)
    ensures Holds(nm, Combined(Or, Some(root), n), sem) <==> Holds(nm, root, sem) || Holds(nm, n, sem)
    ensures NonEmpty(root) && NonEmpty(n) ==> NonEmpty(Combined(And, Some(root), n)) && NonEmpty(Combined(Or, Some(root), n))
  {
    var two := [root, n];
    assert two[0] == root && two[1] == n;
  }

  // ---------- Every alias in the text is joined ----------

  /** The alias in front of a column, if its field is not a path expression. */
  function Qualifier(col: string): set<string> {
    if HasArrow(col) then {} else {col[..IndexOf(col, '.', 0)]}
  }

  /** The aliases that qualify the columns of a compiled condition. */
  function AliasesOf(p: Plan): set<string>
    decreases p, 1
  {
    match p
    case PCond(col, op, _) => if op == Exists then {} else Qualifier(col)
    case PGroup(_, plans) => AliasesOfAll(plans)
  }

  function AliasesOfAll(plans: seq<Plan>): set<string>
    decreases plans, 0
  {
    if plans == [] then {} else AliasesOf(plans[0]) + AliasesOfAll(plans[1..])
  }

  ghost function AliasesIn(d: Comp, relations: set<string>): set<string>
    requires relations <= d.joins.Keys
  {
    set r | r in relations :: d.joins[r]
  }

  lemma ColumnQualifier(nm: Naming, c: Comp, field: string)
    requires Sane(c) && Plain(c.tableAlias) && CleanField(nm, field)
    ensures Qualifier(Column(nm, c, field).0) ==
      if HasArrow(field) then {} else if |Split(field)| == 1 then {c.tableAlias} else {RelationAlias(c, Split(field)[0]).0}
  {
    if !HasArrow(field) {
      var parts := Split(field);
      if |parts| == 1 {
        Qualified(c.tableAlias, nm.column(parts[0]));
      } else {
        PlainAlias(c, parts[0]);
        Qualified(RelationAlias(c, parts[0]).0, nm.column(parts[1]));
      }
    }
  }

  lemma ColumnAlias(nm: Naming, c: Comp, d: Comp, field: string)
    requires Sane(c) && Plain(c.tableAlias) && CleanField(nm, field) && Apart(d) && Later(Column(nm, c, field).1, d)
    ensures RelationsOf(field) <= d.joins.Keys
    ensures Qualifier(Column(nm, c, field).0) - {c.tableAlias} == AliasesIn(d, RelationsOf(field))
  {
    ColumnJoins(nm, c, field);
    ColumnQualifier(nm, c, field);
    if RelationsOf(field) == {} {
      AliasesInNone(d);
    } else {
      AliasesInOne(d, Split(field)[0]);
    }
  }

  lemma AliasesInNone(d: Comp)
    ensures AliasesIn(d, {}) == {}
  {
  }

  lemma AliasesInOne(d: Comp, r: string)
    requires r in d.joins
    ensures AliasesIn(d, {r}) == {d.joins[r]}
  {
  }

  lemma AliasesInUnion(d: Comp, a: set<string>, b: set<string>)
    requires a + b <= d.joins.Keys
    ensures AliasesIn(d, a + b) == AliasesIn(d, a) + AliasesIn(d, b)
  {
  }

  lemma {:induction false} PlanAliases(nm: Naming, c: Comp, n: Node, d: Comp)
    requires Ready(nm, c, n) && Apart(d) && Later(Compile(nm, c, n).comp, d)
    ensures Relations(n) <= d.joins.Keys
    ensures AliasesOf(PlanOf(nm, c, n)) - {c.tableAlias} == AliasesIn(d, Relations(n))
    decreases n, 1
  {
    CompileJoins(nm, c, n);
    match n
    case Condition(field, op, value) =>
      if op == Exists { AliasesInNone(d); } else { ColumnAlias(nm, c, d, field); }
    case Group(conn, nodes) => PlanAllAliases(nm, c, nodes, d);
  }

  lemma {:induction false} PlanAllAliases(nm: Naming, c: Comp, nodes: seq<Node>, d: Comp)
    requires Sane(c) && Plain(c.tableAlias) && Apart(d) && Later(CompileAll(nm, c, nodes).2, d)
    requires forall i :: 0 <= i < |nodes| ==> CleanNode(nm, nodes[i])
    ensures RelationsAll(nodes) <= d.joins.Keys
    ensures AliasesOfAll(PlanAll(nm, c, nodes)) - {c.tableAlias} == AliasesIn(d, RelationsAll(nodes))
    decreases nodes, 0
  {
    if nodes == [] {
      AliasesInNone(d);
    } else {
      var e := Compile(nm, c, nodes[0]).comp;
      CompileJoins(nm, c, nodes[0]);
      CompileAllJoins(nm, e, nodes[1..]);
      assert CompileAll(nm, c, nodes).2 == CompileAll(nm, e, nodes[1..]).2;
      PlanAliases(nm, c, nodes[0], d);
      PlanAllAliases(nm, e, nodes[1..], d);
      AliasesInUnion(d, Relations(nodes[0]), RelationsAll(nodes[1..]));
    }
  }

  predicate JoinedOnce(joins: seq<LeftJoin>, alias: string) {
    exists i :: 0 <= i < |joins| && joins[i].alias == alias && forall j :: 0 <= j < |joins| && joins[j].alias == alias ==> j == i
  }

  /** The WHERE text and the emitted joins agree: an alias qualifies a column of the text exactly when
      there is a LEFT JOIN under it, and then there is one only. */
  lemma WhereIsJoined(nm: Naming, tableAlias: string, n: Node, joins: seq<LeftJoin>)
    requires var c := Comp(tableAlias, map[], 0);
      Ready(nm, c, n) && Apart(Compile(nm, c, n).comp) && JoinsAre(nm, Compile(nm, c, n).comp, joins)
    ensures var used := AliasesOf(PlanOf(nm, Comp(tableAlias, map[], 0), n)) - {tableAlias};
      && (forall a :: a in used ==> JoinedOnce(joins, a))
      && (forall i :: 0 <= i < |joins| ==> joins[i].alias in used)
  {
    var c := Comp(tableAlias, map[], 0);
    var d := Compile(nm, c, n).comp;
    CompileJoins(nm, c, n);
    PlanAliases(nm, c, n, d);
    assert d.joins.Keys == Relations(n);
    forall a | a in AliasesIn(d, Relations(n)) ensures JoinedOnce(joins, a) {
      var r :| r in d.joins && d.joins[r] == a;
      var i :| 0 <= i < |joins| && joins[i] == JoinFor(nm, tableAlias, r, d.joins[r]);
      assert joins[i].alias == a;
    }
  }

  /** The compiler once the WHERE condition is compiled, if there is one. */
  function AfterWhere(nm: Naming, tableAlias: string, root: Option<Node>): Comp {
    var c := Comp(tableAlias, map[], 0);
    if root == None then c else Compile(nm, c, root.value).comp
  }

  /** Any column compiled after the joins were emitted - for GROUP BY, HAVING or ORDER BY, whatever was compiled in
      between - is joined exactly when the WHERE condition mentions its relation. */
  lemma LateColumnJoined(nm: Naming, tableAlias: string, root: Option<Node>, d: Comp, joins: seq<LeftJoin>, field: string)
    requires JoinsAre(nm, AfterWhere(nm, tableAlias, root), joins)
    requires Sane(d) && Later(AfterWhere(nm, tableAlias, root), d)
    requires !HasArrow(field) && |Split(field)| > 1
    ensures JoinedOnce(joins, RelationAlias(d, Split(field)[0]).0) <==> root.Some? && Split(field)[0] in Relations(root.value)
  {
    var c := AfterWhere(nm, tableAlias, root);
    if root.Some? { CompileJoins(nm, Comp(tableAlias, map[], 0), root.value); }
    AliasJoined(nm, c, d, joins, Split(field)[0]);
  }

  lemma AliasJoined(nm: Naming, c: Comp, d: Comp, joins: seq<LeftJoin>, relation: string)
    requires Sane(c) && Sane(d) && Later(c, d) && JoinsAre(nm, c, joins)
    ensures JoinedOnce(joins, RelationAlias(d, relation).0) <==> relation in c.joins
  {
    var alias := RelationAlias(d, relation).0;
    if relation in c.joins {
      var i :| 0 <= i < |joins| && joins[i] == JoinFor(nm, c.tableAlias, relation, alias);
      assert joins[i].alias == alias;
    } else {
      if relation !in d.joins { NewAlias(d, relation); }
      forall i | 0 <= i < |joins| ensures joins[i].alias != alias {
        assert IsJoin(nm, c, joins[i]);
        var r :| JoinsRelation(nm, c, r, joins[i]);
        assert d.joins[r] == joins[i].alias;
      }
    }
  }

  lemma NewAlias(d: Comp, relation: string)
    requires Sane(d) && relation !in d.joins
    ensures forall r :: r in d.joins ==> d.joins[r] != RelationAlias(d, relation).0
  {
    var d' := RelationAlias(d, relation).1;
    SaneAlias(d, relation);
    forall r | r in d.joins ensures d.joins[r] != d'.joins[relation] { assert d'.joins[r] == d.joins[r]; }
  }
}
