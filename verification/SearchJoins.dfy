/** addJoins: the JOINs of a search, issued while a Go map is iterated in an unspecified order. */
module SearchJoins {
  import opened Wrappers
  import opened Text
  import opened TslTree
  import opened Search
  import FieldNames

  /** The order in which a map is iterated: every key once. */
  predicate Enumerates(order: seq<string>, keys: set<string>) {
    && (forall i, j :: 0 <= i < j < |order| ==> order[i] != order[j])
    && (forall i :: 0 <= i < |order| ==> order[i] in keys)
    && (forall key :: key in keys ==> key in order)
  }

  predicate AllIn(order: seq<string>, joins: Joins) {
    forall i :: 0 <= i < |order| ==> order[i] in joins
  }

  /** The relations that are joined when the map is iterated in this order. */
  function Emitted(order: seq<string>, joins: Joins, included: set<string>): seq<TableRelation>
    requires AllIn(order, joins)
  {
    if order == [] then []
    else
      var r := joins[order[0]];
      if r.foreignTableName in included then Emitted(order[1..], joins, included)
      else [r] + Emitted(order[1..], joins, included + {r.foreignTableName})
  }

  function ForeignTables(joins: Joins): set<string> {
    set name | name in joins :: joins[name].foreignTableName
  }

  function TablesOf(rs: seq<TableRelation>): (tables: seq<string>)
    ensures |tables| == |rs| && forall i :: 0 <= i < |rs| ==> tables[i] == rs[i].foreignTableName
  {
    if rs == [] then [] else [rs[0].foreignTableName] + TablesOf(rs[1..])
  }

  function TableSet(rs: seq<TableRelation>): set<string> {
    set table | table in TablesOf(rs)
  }

  /** One JOIN at most for a table, none for a table that is included already, and no invented relation. */
  predicate JoinsOnce(rs: seq<TableRelation>, joins: Joins, included: set<string>) {
    && (forall i, j :: 0 <= i < j < |rs| ==> rs[i].foreignTableName != rs[j].foreignTableName)
    && (forall i :: 0 <= i < |rs| ==> rs[i].foreignTableName !in included)
    && (forall i :: 0 <= i < |rs| ==> exists name :: name in joins && joins[name] == rs[i])
  }

  lemma OneMoreOnce(name: string, rest: seq<TableRelation>, joins: Joins, included: set<string>)
    requires name in joins && joins[name].foreignTableName !in included
    requires JoinsOnce(rest, joins, included + {joins[name].foreignTableName})
    ensures JoinsOnce([joins[name]] + rest, joins, included)
  {
    var rs := [joins[name]] + rest;
    assert forall i :: 0 < i < |rs| ==> rs[i] == rest[i - 1];
  }

  lemma {:induction false} EmittedOnce(order: seq<string>, joins: Joins, included: set<string>)
    requires AllIn(order, joins)
    ensures JoinsOnce(Emitted(order, joins, included), joins, included)
  {
    if order != [] {
      var r := joins[order[0]];
      if r.foreignTableName in included {
        EmittedOnce(order[1..], joins, included);
      } else {
        EmittedOnce(order[1..], joins, included + {r.foreignTableName});
        OneMoreOnce(order[0], Emitted(order[1..], joins, included + {r.foreignTableName}), joins, included);
      }
    }
  }

  /** Every table of the order is joined or was included. */
  lemma {:induction false} EmittedCovers(order: seq<string>, joins: Joins, included: set<string>, name: string)
    requires AllIn(order, joins) && name in order
    ensures joins[name].foreignTableName in included
            || joins[name].foreignTableName in TablesOf(Emitted(order, joins, included))
  {
    var r := joins[order[0]];
    var included' := if r.foreignTableName in included then included else included + {r.foreignTableName};
    var tables := TablesOf(Emitted(order[1..], joins, included'));
    if name != order[0] { EmittedCovers(order[1..], joins, included', name); }
    if r.foreignTableName !in included { assert TablesOf(Emitted(order, joins, included)) == [r.foreignTableName] + tables; }
  }

  /**
   * Whatever the order: one JOIN for each distinct foreign table that is not included yet, and none
   * for the others.
   */
  lemma AnyOrderJoinsTheSameTables(order: seq<string>, joins: Joins, included: set<string>)
    requires Enumerates(order, joins.Keys)
    ensures var rs := Emitted(order, joins, included);
            && JoinsOnce(rs, joins, included)
            && TableSet(rs) == ForeignTables(joins) - included
  {
    var rs := Emitted(order, joins, included);
    EmittedOnce(order, joins, included);
    forall table | table in ForeignTables(joins) - included ensures table in TablesOf(rs) {
      var name :| name in joins && joins[name].foreignTableName == table;
      EmittedCovers(order, joins, included, name);
    }
    forall table | table in TablesOf(rs) ensures table in ForeignTables(joins) - included {
      var i :| 0 <= i < |rs| && rs[i].foreignTableName == table;
      var name :| name in joins && joins[name] == rs[i];
      assert joins[name].foreignTableName == table;
    }
  }

  // ---------- the list context ----------

  /** LEFT JOIN f ON f.fc = t.c AND f.deleted_at IS NULL. */
  function JoinSql(r: TableRelation): string {
    Join(ClauseWords(r), ' ')
  }

  function ClauseWords(r: TableRelation): seq<string> {
    ["LEFT", "JOIN", r.foreignTableName, "ON", r.foreignTableName + "." + r.foreignColumnName, "=",
     r.tableName + "." + r.columnName, "AND", r.foreignTableName + ".deleted_at", "IS", "NULL"]
  }

  /** Names that are SQL identifiers. */
  predicate PlainName(name: string) {
    ' ' !in name && '.' !in name
  }

  predicate PlainRelation(r: TableRelation) {
    PlainName(r.tableName) && PlainName(r.columnName) && PlainName(r.foreignTableName) && PlainName(r.foreignColumnName)
  }

  lemma SplitColumn(table: string, column: string)
    requires PlainName(table) && PlainName(column)
    ensures Split(table + "." + column, '.') == [table, column]
  {
    QualifiedParts(table, column);
    SplitWhole(column, '.');
  }

  lemma ClauseWordsHaveNoBlanks(r: TableRelation)
    requires PlainRelation(r)
    ensures Split(JoinSql(r), ' ') == ClauseWords(r)
  {
    SplitUndoesJoin(ClauseWords(r), ' ');
  }

  /** Two words of a text. */
  lemma TwoWords(words: seq<string>, i: nat, a: string, b: string, gap: string)
    requires i + 2 < |words| && words[i] == a && words[i + 1] == b && gap == a + " " + b + " "
    ensures Join(words[i..], ' ') == gap + Join(words[i + 2..], ' ')
  {
    var rest := Join(words[i + 2..], ' ');
    assert words[i..][1..] == words[i + 1..] && words[i + 1..][1..] == words[i + 2..];
    assert Join(words[i + 1..], ' ') == b + [' '] + rest;
    assert Join(words[i..], ' ') == a + [' '] + (b + [' '] + rest);
    assert gap == a + [' '] + b + [' '];
  }

  lemma OneWord(words: seq<string>, deleted: string)
    requires |words| == 11 && words[8] == deleted && words[9] == "IS" && words[10] == "NULL"
    ensures Join(words[8..], ' ') == deleted + " IS " + "NULL"
  {
    assert words[10..] == ["NULL"] && Join(words[10..], ' ') == "NULL";
    TwoWords(words, 8, deleted, "IS", deleted + " IS ");
  }

  /** The text of the clause: the foreign table's column is compared with the relation's own. */
  lemma JoinSqlText(r: TableRelation)
    ensures var f := r.foreignTableName;
            var on, of := f + "." + r.foreignColumnName, r.tableName + "." + r.columnName;
            JoinSql(r) ==
            "LEFT JOIN " + (f + " ON " + (on + " = " + (of + " AND " + (f + ".deleted_at" + " IS " + "NULL"))))
  {
    var words := ClauseWords(r);
    var f := r.foreignTableName;
    var on, of := f + "." + r.foreignColumnName, r.tableName + "." + r.columnName;
    OneWord(words, f + ".deleted_at");
    TwoWords(words, 6, of, "AND", of + " AND ");
    TwoWords(words, 4, on, "=", on + " = ");
    TwoWords(words, 2, f, "ON", f + " ON ");
    TwoWords(words, 0, "LEFT", "JOIN", "LEFT JOIN ");
    assert words[0..] == words;
  }

  /** A JOIN clause says which relation it joins, to the column. */
  lemma JoinSqlDetermines(r: TableRelation, r': TableRelation)
    requires PlainRelation(r) && PlainRelation(r') && JoinSql(r) == JoinSql(r')
    ensures r == r'
  {
    ClauseWordsHaveNoBlanks(r);
    ClauseWordsHaveNoBlanks(r');
    SplitColumn(r.foreignTableName, r.foreignColumnName);
    SplitColumn(r'.foreignTableName, r'.foreignColumnName);
    SplitColumn(r.tableName, r.columnName);
    SplitColumn(r'.tableName, r'.columnName);
    assert ClauseWords(r)[4] == ClauseWords(r')[4] && ClauseWords(r)[6] == ClauseWords(r')[6];
    assert [r.foreignTableName, r.foreignColumnName][1] == [r'.foreignTableName, r'.foreignColumnName][1];
    assert [r.tableName, r.columnName] == [r'.tableName, r'.columnName];
    assert [r.tableName, r.columnName][0] == r.tableName && [r.tableName, r.columnName][1] == r.columnName;
  }

  function JoinSqls(rs: seq<TableRelation>): seq<string> {
    if rs == [] then [] else [JoinSql(rs[0])] + JoinSqls(rs[1..])
  }

  function GroupKeys(rs: seq<TableRelation>): seq<string> {
    if rs == [] then [] else [rs[0].foreignTableName + ".id"] + GroupKeys(rs[1..])
  }

  /** One clause and one group key, the foreign table's ID, for each relation in turn. */
  lemma {:induction false} ClausesInTurn(rs: seq<TableRelation>, i: nat)
    requires i < |rs|
    ensures |JoinSqls(rs)| == |GroupKeys(rs)| == |rs|
    ensures JoinSqls(rs)[i] == JoinSql(rs[i]) && GroupKeys(rs)[i] == rs[i].foreignTableName + ".id"
  {
    if |rs| > 1 { ClausesInTurn(rs[1..], if i == 0 then 0 else i - 1); } else { assert rs[1..] == []; }
  }

  lemma {:induction false} OneMore(rs: seq<TableRelation>, r: TableRelation)
    ensures JoinSqls(rs + [r]) == JoinSqls(rs) + [JoinSql(r)]
    ensures GroupKeys(rs + [r]) == GroupKeys(rs) + [r.foreignTableName + ".id"]
  {
    if rs == [] {
      assert rs + [r] == [r] && [r][1..] == [];
    } else {
      OneMore(rs[1..], r);
      assert (rs + [r])[0] == rs[0] && (rs + [r])[1..] == rs[1..] + [r];
    }
  }

  lemma OneMoreTable(rs: seq<TableRelation>, r: TableRelation)
    ensures TableSet(rs + [r]) == TableSet(rs) + {r.foreignTableName}
  {
    assert TablesOf(rs + [r]) == TablesOf(rs) + [r.foreignTableName];
  }

  /** Iterating one more key. */
  lemma {:induction false} EmittedNext(order: seq<string>, name: string, joins: Joins, included: set<string>)
    requires AllIn(order, joins) && name in joins
    ensures AllIn(order + [name], joins)
    ensures var rs := Emitted(order, joins, included);
            var r := joins[name];
            Emitted(order + [name], joins, included) ==
            if r.foreignTableName in included + TableSet(rs) then rs else rs + [r]
  {
    if order == [] {
      assert order + [name] == [name];
      assert [name][1..] == [];
    } else {
      var r0 := joins[order[0]];
      assert (order + [name])[1..] == order[1..] + [name];
      if r0.foreignTableName in included {
        EmittedNext(order[1..], name, joins, included);
      } else {
        EmittedNext(order[1..], name, joins, included + {r0.foreignTableName});
        var rest := Emitted(order[1..], joins, included + {r0.foreignTableName});
        assert TableSet([r0] + rest) == {r0.foreignTableName} + TableSet(rest) by {
          assert TablesOf([r0] + rest) == [r0.foreignTableName] + TablesOf(rest);
        }
        assert [r0] + (rest + [joins[name]]) == ([r0] + rest) + [joins[name]];
      }
    }
  }

  /** The clauses, the group keys and the included tables, from before to after the relations were joined. */
  datatype Clauses = Clauses(joins: seq<string>, groupBy: seq<string>, included: set<string>)

  predicate Issued(before: Clauses, rs: seq<TableRelation>, after: Clauses) {
    && after.joins == before.joins + JoinSqls(rs)
    && after.groupBy == before.groupBy + GroupKeys(rs)
    && after.included == before.included + TableSet(rs)
  }

  function NewOnly(r: TableRelation, included: set<string>): seq<TableRelation> {
    if r.foreignTableName in included then [] else [r]
  }

  lemma IssuedNext(start: Clauses, order: seq<string>, name: string, joins: Joins, before: Clauses, after: Clauses)
    requires AllIn(order, joins) && name in joins
    requires Issued(start, Emitted(order, joins, start.included), before)
    requires Issued(before, NewOnly(joins[name], before.included), after)
    ensures AllIn(order + [name], joins)
    ensures Issued(start, Emitted(order + [name], joins, start.included), after)
  {
    EmittedNext(order, name, joins, start.included);
    var r, rs := joins[name], Emitted(order, joins, start.included);
    OnlyNew(before, r, after);
    if r.foreignTableName !in before.included {
      IssuedOneMore(start, rs, r, before, after);
    }
  }

  lemma IssuedOneMore(start: Clauses, rs: seq<TableRelation>, r: TableRelation, before: Clauses, after: Clauses)
    requires Issued(start, rs, before)
    requires after == Clauses(before.joins + [JoinSql(r)], before.groupBy + [r.foreignTableName + ".id"],
                              before.included + {r.foreignTableName})
    ensures Issued(start, rs + [r], after)
  {
    OneMore(rs, r);
    OneMoreTable(rs, r);
    AppendMore(start.joins, JoinSqls(rs), JoinSql(r));
    AppendMore(start.groupBy, GroupKeys(rs), r.foreignTableName + ".id");
  }

  lemma AppendMore<T>(a: seq<T>, b: seq<T>, x: T)
    ensures (a + b) + [x] == a + (b + [x])
  {
  }

  lemma OnlyNew(before: Clauses, r: TableRelation, after: Clauses)
    ensures Issued(before, NewOnly(r, before.included), after) <==>
            after == if r.foreignTableName in before.included then before
                     else Clauses(before.joins + [JoinSql(r)], before.groupBy + [r.foreignTableName + ".id"],
                                  before.included + {r.foreignTableName})
  {
    assert TablesOf([]) == [] && TablesOf([r]) == [r.foreignTableName];
    assert TableSet([]) == {} && TableSet([r]) == {r.foreignTableName};
    assert JoinSqls([r]) == [JoinSql(r)] && GroupKeys([r]) == [r.foreignTableName + ".id"];
  }

  predicate Visited(order: seq<string>, joins: Joins, remaining: set<string>) {
    && Enumerates(order, joins.Keys - remaining) && remaining <= joins.Keys && AllIn(order, joins)
  }

  lemma VisitedNext(order: seq<string>, joins: Joins, remaining: set<string>, name: string)
    requires Visited(order, joins, remaining) && name in remaining
    ensures Visited(order + [name], joins, remaining - {name})
  {
  }

  /** The part of the generic DAO that receives the clauses of a query. */
  class GenericDao {
    const schema: Schema
    var joins: seq<string>
    var groups: seq<string>

    constructor (schema: Schema)
      ensures this.schema == schema && joins == [] && groups == []
    {
      this.schema := schema;
      joins, groups := [], [];
    }
  }

  /** listContext: the fields that the search builders update. */
  class ListContext {
    var joins: Joins
    var groupBy: seq<string>
    /** The field named set in Go. */
    var included: set<string>

    /** The context as buildPreload leaves it. */
    constructor (preloads: seq<string>)
      ensures joins == map[] && groupBy == []
      ensures forall table :: table in included <==> table in preloads
    {
      joins, groupBy := map[], [];
      included := set table | table in preloads;
    }

    /** The loop's body for one relation. */
    method AddJoin(d: GenericDao, r: TableRelation)
      modifies this`groupBy, this`included, d`joins
      ensures Issued(old(Clauses(d.joins, groupBy, included)), NewOnly(r, old(included)), Clauses(d.joins, groupBy, included))
    {
      ghost var before := Clauses(d.joins, groupBy, included);
      if r.foreignTableName in included {
        OnlyNew(before, r, before);
        return;
      }
      d.joins := d.joins + [JoinSql(r)];
      groupBy := groupBy + [r.foreignTableName + ".id"];
      included := included + {r.foreignTableName};
      OnlyNew(before, r, Clauses(d.joins, groupBy, included));
    }

    /** The loop: iterates the map in no particular order. */
    method JoinAll(d: GenericDao) returns (ghost order: seq<string>)
      modifies this`groupBy, this`included, d`joins
      ensures Enumerates(order, joins.Keys)
      ensures Issued(old(Clauses(d.joins, groupBy, included)), Emitted(order, joins, old(included)),
                     Clauses(d.joins, groupBy, included))
    {
      order := [];
      ghost var start := Clauses(d.joins, groupBy, included);
      assert TablesOf([]) == [] && JoinSqls([]) == [] && GroupKeys([]) == [];
      var remaining := joins.Keys;
      while remaining != {}
        invariant Visited(order, joins, remaining)
        invariant Issued(start, Emitted(order, joins, start.included), Clauses(d.joins, groupBy, included))
        decreases |remaining|
      {
        var name :| name in remaining;
        VisitedNext(order, joins, remaining, name);
        ghost var before := Clauses(d.joins, groupBy, included);
        AddJoin(d, joins[name]);
        IssuedNext(start, order, name, joins, before, Clauses(d.joins, groupBy, included));
        order := order + [name];
        remaining := remaining - {name};
      }
      assert joins.Keys - {} == joins.Keys;
    }

    method AddJoins(d: GenericDao) returns (ghost order: seq<string>)
      modifies this, d
      ensures Enumerates(order, old(joins).Keys)
      ensures var rs := Emitted(order, old(joins), old(included));
              && d.joins == old(d.joins) + JoinSqls(rs)
              && included == old(included) + ForeignTables(old(joins))
              && groupBy == old(groupBy) + GroupKeys(rs)
                            + (if old(joins) == map[] then [] else [d.schema.table + ".id"])
              && d.groups == old(d.groups) + (if old(joins) == map[] then [] else [Join(groupBy, ',')])
      ensures joins == map[]
    {
      order := JoinAll(d);
      AnyOrderJoinsTheSameTables(order, joins, old(included));
      assert included == old(included) + ForeignTables(joins);
      if |joins| > 0 {
        groupBy := groupBy + [d.schema.table + ".id"];
        d.groups := d.groups + [Join(groupBy, ',')];
      }
      joins := map[];
    }

    /**
     * buildSearchValues up to the rendering of the tree as SQL; no tree stands for an empty search, and
     * walkOk for whether the SQL walker takes the checked tree. A context is used for one list call, so
     * it starts without joins.
     */
    method BuildSearchValues(d: GenericDao, search: Option<Node>, walkOk: bool)
      returns (walked: Option<Walked>, ghost order: seq<string>)
      requires joins == map[]
      modifies this, d
      ensures search.None? ==> walked.None? && d.joins == old(d.joins) && d.groups == old(d.groups)
      ensures search.Some? ==>
                var w := Translate(d.schema, map[], search.value).1;
                walked == Some(if w.Tree? && !walkOk then Rejected else w)
      ensures walked.Some? && !walked.value.Tree? ==> d.joins == old(d.joins) && d.groups == old(d.groups)
      ensures walked.Some? && walked.value.Tree? ==>
                var found := Translate(d.schema, map[], search.value).0;
                && Enumerates(order, found.Keys)
                && d.joins == old(d.joins) + JoinSqls(Emitted(order, found, old(included)))
    {
      order := [];
      if search.None? {
        order := AddJoins(d);
        return None, order;
      }
      var (found, w1) := TreeWalkForRelatedTables(d.schema, joins, search.value);
      joins := found;
      if !w1.Tree? {
        return Some(w1), order;
      }
      var w2 := TreeWalkForAddingTableName(d.schema, w1.node);
      if !w2.Tree? {
        return Some(w2), order;
      }
      var w3 := TreeWalkForSqlizer(d, w2.node, walkOk);
      if !w3.Tree? {
        return Some(w3), order;
      }
      order := AddJoins(d);
      return Some(w3), order;
    }

    /** Checks the field names, and then lets the SQL walker turn the tree into a filter. */
    method TreeWalkForSqlizer(d: GenericDao, tree: Node, walkOk: bool) returns (walked: Walked)
      ensures var w := FieldNames.FieldNameWalk(tree, d.schema.disallowed);
              walked == if w.Tree? && !walkOk then Rejected else w
    {
      walked := FieldNames.WalkFieldNames(tree, d.schema.disallowed);
      if walked.Tree? && !walkOk {
        return Rejected;
      }
    }
  }
}
