/** The condition compiler of the query package: a tree of conditions becomes SQL text with positional
    arguments, while a table of join aliases grows. */
module QueryCompile {
  datatype BoolOp = And | Or

  datatype Op = Eq | Gt | Lt | Gte | Lte | Like | IsNull | NotNull | In | Exists

  /** An argument: nothing, a value, or a subquery. */
  datatype Arg = Nil | Value(v: int) | SubQuery(q: int)

  datatype Node =
    | Condition(field: string, op: Op, value: Arg)
    | Group(conn: BoolOp, nodes: seq<Node>)

  /** The ORM's naming strategy, which is not part of this model. */
  datatype Naming = Naming(column: string -> string, table: string -> string)

  datatype Comp = Comp(tableAlias: string, joins: map<string, string>, counter: nat)

  // ---------- Strings ----------

  function Digit(d: nat): char
    requires d < 10
  {
    '0' + d as char
  }

  function Decimal(n: nat): string {
    if n < 10 then [Digit(n)] else Decimal(n / 10) + [Digit(n % 10)]
  }

  function Alias(k: nat): string {
    "j" + Decimal(k)
  }

  /** The position of the first c at or after i, or the length. */
  function IndexOf(s: string, c: char, i: nat): (k: nat)
    requires i <= |s|
    ensures i <= k <= |s|
    ensures k < |s| ==> s[k] == c
    ensures forall j :: i <= j < k ==> s[j] != c
    decreases |s| - i
  {
    if i == |s| || s[i] == c then i else IndexOf(s, c, i + 1)
  }

  function Split(s: string): (parts: seq<string>)
    ensures parts != []
  {
    var k := IndexOf(s, '.', 0);
    if k == |s| then [s] else [s[..k]] + Split(s[k + 1..])
  }

  predicate HasArrow(s: string) {
    exists i :: 0 <= i < |s| - 1 && s[i] == '-' && s[i + 1] == '>'
  }

  function Join(parts: seq<string>, sep: string): string {
    if parts == [] then "" else if |parts| == 1 then parts[0] else parts[0] + sep + Join(parts[1..], sep)
  }

  // ---------- Aliases and columns ----------

  function RelationAlias(c: Comp, relation: string): (string, Comp) {
    if relation in c.joins then (c.joins[relation], c)
    else
      var alias := Alias(c.counter + 1);
      (alias, c.(joins := c.joins[relation := alias], counter := c.counter + 1))
  }

  function Column(nm: Naming, c: Comp, field: string): (string, Comp) {
    if HasArrow(field) then (field, c)
    else
      var parts := Split(field);
      if |parts| == 1 then (c.tableAlias + "." + nm.column(parts[0]), c)
      else
        var (alias, d) := RelationAlias(c, parts[0]);
        (alias + "." + nm.column(parts[1]), d)
  }

  // ---------- Nodes ----------

  function OpText(op: Op): string {
    match op
    case Eq => "=" case Gt => ">" case Lt => "<" case Gte => ">=" case Lte => "<=" case Like => "LIKE"
    case IsNull => "IS NULL" case NotNull => "IS NOT NULL" case In => "IN" case Exists => "EXISTS"
  }

  function ConnText(conn: BoolOp): string {
    if conn == And then "AND" else "OR"
  }

  datatype Compiled = Compiled(sql: string, args: seq<Arg>, comp: Comp)

  function CompileCondition(nm: Naming, c: Comp, field: string, op: Op, value: Arg): Compiled {
    if op == Exists then Compiled("EXISTS (?)", [value], c)
    else
      var (col, d) := Column(nm, c, field);
      match op
      case IsNull => Compiled(col + " IS NULL", [], d)
      case NotNull => Compiled(col + " IS NOT NULL", [], d)
      case In => Compiled(col + (if value.SubQuery? then " IN (?)" else " IN ?"), [value], d)
      case _ => Compiled(col + " " + OpText(op) + " ?", [value], d)
  }

  function Compile(nm: Naming, c: Comp, n: Node): Compiled
    decreases n, 1
  {
    match n
    case Condition(field, op, value) => CompileCondition(nm, c, field, op, value)
    case Group(conn, nodes) =>
      var (parts, args, d) := CompileAll(nm, c, nodes);
      Compiled("(" + Join(parts, " " + ConnText(conn) + " ") + ")", args, d)
  }

  function CompileAll(nm: Naming, c: Comp, nodes: seq<Node>): (r: (seq<string>, seq<Arg>, Comp))
    ensures |r.0| == |nodes|
    decreases nodes, 0
  {
    if nodes == [] then ([], [], c)
    else
      var first := Compile(nm, c, nodes[0]);
      var (parts, args, d) := CompileAll(nm, first.comp, nodes[1..]);
      ([first.sql] + parts, first.args + args, d)
  }

  lemma {:induction false} CompileAllAppend(nm: Naming, c: Comp, a: seq<Node>, n: Node)
    ensures var (parts, args, d) := CompileAll(nm, c, a);
      var last := Compile(nm, d, n);
      CompileAll(nm, c, a + [n]) == (parts + [last.sql], args + last.args, last.comp)
    decreases |a|
  {
    if a == [] {
      assert a + [n] == [n] && [n][1..] == [];
      var last := Compile(nm, c, n);
      assert CompileAll(nm, last.comp, []) == ([], [], last.comp);
      assert [last.sql] + [] == [] + [last.sql] && last.args + [] == [] + last.args;
    } else {
      assert (a + [n])[0] == a[0] && (a + [n])[1..] == a[1..] + [n];
      var first := Compile(nm, c, a[0]);
      CompileAllAppend(nm, first.comp, a[1..], n);
      var (parts, args, d) := CompileAll(nm, first.comp, a[1..]);
      var last := Compile(nm, d, n);
      assert [first.sql] + (parts + [last.sql]) == [first.sql] + parts + [last.sql];
      assert first.args + (args + last.args) == first.args + args + last.args;
    }
  }

  /** EXISTS takes a subquery: the source asserts the type and panics otherwise. */
  predicate Typed(n: Node) {
    match n
    case Condition(_, op, value) => op == Exists ==> value.SubQuery?
    case Group(_, nodes) => forall i :: 0 <= i < |nodes| ==> Typed(nodes[i])
  }

  // ---------- The compiler as the source has it ----------

  class Compiler {
    const tableAlias: string
    const nm: Naming
    var joins: map<string, string>
    var counter: nat

    constructor (nm: Naming, alias: string)
      ensures State() == Comp(alias, map[], 0) && this.nm == nm && tableAlias == alias
    {
      this.nm, tableAlias, joins, counter := nm, alias, map[], 0;
    }

    function State(): Comp reads this {
      Comp(tableAlias, joins, counter)
    }

    method AliasOf(relation: string) returns (alias: string)
      modifies this
      ensures (alias, State()) == RelationAlias(old(State()), relation)
    {
      if relation in joins {
        return joins[relation];
      }
      counter := counter + 1;
      alias := Alias(counter);
      joins := joins[relation := alias];
    }

    method ColumnOf(field: string) returns (col: string)
      modifies this
      ensures (col, State()) == Column(nm, old(State()), field)
    {
      if HasArrow(field) {
        return field;
      }
      var parts := Split(field);
      if |parts| == 1 {
        return tableAlias + "." + nm.column(parts[0]);
      }
      var alias := AliasOf(parts[0]);
      assert joins == joins[parts[0] := alias];
      joins := joins[parts[0] := alias];
      col := alias + "." + nm.column(parts[1]);
    }

    method CompileNode(n: Node) returns (sql: string, args: seq<Arg>)
      requires Typed(n)
      modifies this
      ensures Compiled(sql, args, State()) == Compile(nm, old(State()), n)
      decreases n
    {
      match n
      case Condition(field, op, value) =>
        if op == Exists {
          return "EXISTS (?)", [value];
        }
        var col := ColumnOf(field);
        match op {
          case IsNull => return col + " IS NULL", [];
          case NotNull => return col + " IS NOT NULL", [];
          case In => return col + (if value.SubQuery? then " IN (?)" else " IN ?"), [value];
          case _ => return col + " " + OpText(op) + " ?", [value];
        }
      case Group(conn, nodes) =>
        var parts := [];
        args := [];
        for i := 0 to |nodes|
          invariant (parts, args, State()) == CompileAll(nm, old(State()), nodes[..i])
        {
          var s, a := CompileNode(nodes[i]);
          CompileAllAppend(nm, old(State()), nodes[..i], nodes[i]);
          assert nodes[..i + 1] == nodes[..i] + [nodes[i]];
          parts, args := parts + [s], args + a;
        }
        assert nodes[..|nodes|] == nodes;
        sql := "(" + Join(parts, " " + ConnText(conn) + " ") + ")";
    }
  }
}
