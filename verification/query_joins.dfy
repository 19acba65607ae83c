/** What the joins of a built query bring in: which row of a database an alias stands for. */
module QueryJoins {
  import opened Common
  import opened QueryCompile
  import opened QueryAliases
  import opened QueryMeaning
  import opened QueryProof
  import opened QueryBuilding

  /** The rows of each table, by their columns. Null is no value. */
  type Row = map<string, int>
  type Database = map<string, seq<Row>>

  function Get(row: Row, column: string): Option<int> {
    if column in row then Some(row[column]) else None
  }

  /** The row whose column has the value. */
  function Find(rows: seq<Row>, column: string, value: Option<int>): Option<Row> {
    if rows == [] || value == None then None
    else if Get(rows[0], column) == value then Some(rows[0])
    else Find(rows[1..], column, value)
  }

  function Table(db: Database, name: string): seq<Row> {
    if name in db then db[name] else []
  }

  // ---------- Relations ----------

  /** A relation leads from a row to the row of the relation's table that its foreign key names: the column called after
      the relation, with ID behind it. */
  function RelatedRow(db: Database, nm: Naming, base: Row, relation: string): Option<Row> {
    Find(Table(db, nm.table(relation)), "id", Get(base, nm.column(relation + "ID")))
  }

  function ReadRef(db: Database, nm: Naming, base: Row, ref: ColRef): Option<int> {
    match ref
    case Own(column) => Get(base, column)
    case Related(relation, column) =>
      var row := RelatedRow(db, nm, base, relation);
      if row == None then None else Get(row.value, column)
    case _ => None
  }

  // ---------- Joins ----------

  /** LEFT JOIN table alias ON own.fk = alias.id, for one row of the table that is called `own`. */
  function JoinedRow(db: Database, own: string, base: Row, j: LeftJoin): Option<Row> {
    Find(Table(db, j.table), "id", if j.own == own then Get(base, j.fk) else None)
  }

  /** A qualified column, read through the joins. */
  function ReadWord(db: Database, own: string, base: Row, joins: seq<LeftJoin>, word: string): Option<int> {
    var k := IndexOf(word, '.', 0);
    if k == |word| then None
    else if word[..k] == own then Get(base, word[k + 1..])
    else ReadJoined(db, own, base, joins, word[..k], word[k + 1..])
  }

  function ReadJoined(db: Database, own: string, base: Row, joins: seq<LeftJoin>, alias: string, column: string): Option<int> {
    if joins == [] then None
    else if joins[0].alias == alias then
      var row := JoinedRow(db, own, base, joins[0]);
      if row == None then None else Get(row.value, column)
    else ReadJoined(db, own, base, joins[1..], alias, column)
  }

  lemma {:induction false} ReadAt(db: Database, own: string, base: Row, joins: seq<LeftJoin>, i: nat, column: string)
    requires i < |joins| && forall j :: 0 <= j < i ==> joins[j].alias != joins[i].alias
    ensures ReadJoined(db, own, base, joins, joins[i].alias, column) ==
      var row := JoinedRow(db, own, base, joins[i]); if row == None then None else Get(row.value, column)
  {
    if i > 0 { ReadAt(db, own, base, joins[1..], i - 1, column); }
  }

  /** In a built query every column of the text has the value that its field has: of the row itself, or of the row that its
      relation leads to, or none where that is missing. */
  lemma JoinsRead(db: Database, nm: Naming, d: Comp, joins: seq<LeftJoin>, base: Row, word: string)
    requires Apart(d) && JoinsAre(nm, d, joins)
    requires Resolve(d, word).Own? || Resolve(d, word).Related?
    ensures ReadWord(db, d.tableAlias, base, joins, word) == ReadRef(db, nm, base, Resolve(d, word))
  {
    var k := IndexOf(word, '.', 0);
    var alias, column := word[..k], word[k + 1..];
    if Resolve(d, word).Related? {
      var r := Resolve(d, word).relation;
      assert r in d.joins && d.joins[r] == alias;
      var clause := JoinFor(nm, d.tableAlias, r, alias);
      var i :| 0 <= i < |joins| && joins[i] == clause;
      ReadAt(db, d.tableAlias, base, joins, i, column);
    }
  }
}
