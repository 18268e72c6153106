/** What a translated search means: its tables and columns, and its value on a joined row. */
module SearchMeaning {
  import opened Wrappers
  import opened Text
  import opened TslTree
  import opened FieldNames
  import opened Search
  import opened SearchJoins

  // ---------- the relations a search goes through ----------

  function RelationNames(schema: Schema, fields: seq<string>): set<string> {
    if fields == [] then {}
    else
      var name := RelationOf(schema, fields[0]);
      (if name.Some? then {name.value} else {}) + RelationNames(schema, fields[1..])
  }

  lemma {:induction false} JoinsOfFields(schema: Schema, joins: Joins, fields: seq<string>)
    requires JoinsFit(schema, joins) && AllOk(fields, Resolving(schema))
    ensures var found := States(RelatedCallback(schema), joins, fields);
            JoinsFit(schema, found) && found.Keys == joins.Keys + RelationNames(schema, fields)
    decreases fields
  {
    if fields != [] {
      assert Resolving(schema)(fields[0]);
      var next := RelatedCall(schema, joins, fields[0]).0;
      var name := RelationOf(schema, fields[0]);
      assert next.Keys == joins.Keys + (if name.Some? then {name.value} else {});
      forall i | 0 <= i < |fields[1..]| ensures Resolving(schema)(fields[1..][i]) {
        assert Resolving(schema)(fields[i + 1]);
      }
      JoinsOfFields(schema, next, fields[1..]);
    }
  }

  lemma {:induction false} HasRelationName(schema: Schema, fields: seq<string>, i: nat)
    requires i < |fields| && RelationOf(schema, fields[i]).Some?
    ensures RelationOf(schema, fields[i]).value in RelationNames(schema, fields)
  {
    if i > 0 { HasRelationName(schema, fields[1..], i - 1); }
  }

  /** An accepted search collects exactly the relations that its identifiers name, and each is the schema's. */
  lemma {:induction false} TranslateFindsRelations(schema: Schema, tree: Node)
    requires Parsed(tree) && Translate(schema, map[], tree).1.Tree?
    ensures var joins := Translate(schema, map[], tree).0;
            JoinsFit(schema, joins) && joins.Keys == RelationNames(schema, Idents(tree))
  {
    TranslateAccepts(schema, tree);
    JoinsOfFields(schema, map[], Idents(tree));
  }

  /** A search on properties.x is refused unless the resource has a relation named properties. */
  lemma {:induction false} PropertySearchIsRefused(schema: Schema, tree: Node, i: nat)
    requires Parsed(tree) && i < |Idents(tree)| && PROPERTIES <= Idents(tree)[i]
    requires schema.table != "properties" && schema.relation("properties").None?
    ensures !Translate(schema, map[], tree).1.Tree?
  {
    TranslateAccepts(schema, tree);
    var field := Idents(tree)[i];
    PropertiesPart(field);
    JoinUndoesSplit(field, '.');
    assert field[10] == PROPERTIES[10] == '.';
    assert |Split(field, '.')| > 1;
    assert !Resolving(schema)(field);
  }

  // ---------- the columns of an accepted search ----------

  predicate ArrowForm(field: string) {
    '.' !in field && Contains(field, "->")
  }

  /** table.column, of the resource or of one of the tables, with a column that may be searched. */
  predicate Qualified(schema: Schema, tables: set<string>, field: string) {
    var parts := Split(field, '.');
    && |parts| == 2
    && (parts[0] == schema.table || parts[0] in tables)
    && parts[1] !in schema.disallowed
  }

  lemma ExpressionIsNotQualified(table: string, column: string)
    requires PlainTable(table)
    ensures !(PROPERTY_EXPRESSION <= table + "." + column)
  {
    var s := table + "." + column;
    assert PROPERTY_EXPRESSION[10] == ' ' && '.' !in PROPERTY_EXPRESSION;
    assert s[|table|] == '.';
    assert |table| > 10 ==> s[10] == table[10];
  }

  /** Trimming a qualified name. */
  lemma TrimQualified(table: string, column: string)
    requires PlainTable(table)
    ensures Trim(table + "." + column) == table + "." + TrimRight(column, ' ')
  {
    var head := table + ".";
    assert head[0] == table[0];
    assert head + column == table + "." + column;
    TrimTail(head, column);
    assert head + TrimRight(column, ' ') == table + "." + TrimRight(column, ' ');
  }

  lemma QualifiedField(table: string, column: string, disallowed: set<string>)
    requires PlainTable(table) && FieldOk(table + "." + column, disallowed)
    ensures var parts := Split(Trim(table + "." + column), '.');
            |parts| == 2 && parts[0] == table && parts[1] !in disallowed
  {
    TrimQualified(table, column);
    ExpressionIsNotQualified(table, TrimRight(column, ' '));
    QualifiedParts(table, TrimRight(column, ' '));
  }

  /** The tables of an accepted search are the resource's and those of the collected relations. */
  lemma {:induction false} AcceptedUsesRelations(schema: Schema, tree: Node, i: nat)
    requires Parsed(tree) && PlainSchema(schema) && Translate(schema, map[], tree).1.Tree?
    requires i < |Idents(tree)|
    ensures var (joins, w) := Translate(schema, map[], tree);
            && |Idents(w.node)| == |Idents(tree)|
            && (ArrowForm(Idents(w.node)[i]) || Qualified(schema, ForeignTables(joins), Idents(w.node)[i]))
  {
    var (joins, w) := Translate(schema, map[], tree);
    TranslateRenames(schema, tree);
    TranslateFindsRelations(schema, tree);
    var renamed := Map(Renaming(schema), tree);
    IdentsOfMap(Renaming(schema), tree);
    IdentsOfMap(Trimming(), renamed);
    var field := Idents(tree)[i];
    assert Resolving(schema)(field);
    assert FieldOk(Idents(renamed)[i], schema.disallowed);
    RenameQualifies(schema, field);
    var table := TableOf(schema, field);
    if table.Some? {
      QualifiedField(table.value, ColumnOf(field), schema.disallowed);
      if RelationOf(schema, field).Some? {
        HasRelationName(schema, Idents(tree), i);
        assert RelationOf(schema, field).value in joins;
      }
    } else {
      TrimHasNoNew(field, '.');
      TrimKeepsArrow(field);
    }
  }

  /**
   * In an accepted search every identifier is an arrow expression or exactly table.column, with an
   * allowed column of the resource's table or of a table that a JOIN was emitted for, in whatever
   * order, if no preloaded table is named like a foreign table.
   */
  lemma {:induction false} AcceptedIsQualified(
      schema: Schema, tree: Node, joins: Joins, w: Walked, included: set<string>, order: seq<string>, i: nat)
    requires Parsed(tree) && PlainSchema(schema) && Translate(schema, map[], tree) == (joins, w) && w.Tree?
    requires Enumerates(order, joins.Keys) && ForeignTables(joins) !! included
    requires i < |Idents(tree)|
    ensures |Idents(w.node)| == |Idents(tree)|
    ensures ArrowForm(Idents(w.node)[i]) || Qualified(schema, TableSet(Emitted(order, joins, included)), Idents(w.node)[i])
  {
    AcceptedUsesRelations(schema, tree, i);
    AnyOrderJoinsTheSameTables(order, joins, included);
    assert ForeignTables(joins) - included == ForeignTables(joins);
  }

  // ---------- the value of a search ----------

  /** Where the values of a row come from; a relation's row is found by its ON condition. */
  datatype Reading<V> = Reading(
    base: string -> V, expression: string -> V, related: (TableRelation, string) -> V, missing: V)

  /** An identifier as the user means it. */
  function Meant<V>(schema: Schema, reading: Reading<V>, field: string): V {
    var name := RelationOf(schema, field);
    if name.Some? then
      var relation := schema.relation(name.value);
      if relation.Some? then reading.related(relation.value, ColumnOf(field)) else reading.missing
    else if |Split(field, '.')| == 1 && Contains(field, "->") then reading.expression(field)
    else reading.base(ColumnOf(field))
  }

  function JoinOf(rs: seq<TableRelation>, table: string): Option<TableRelation> {
    if rs == [] then None
    else if rs[0].foreignTableName == table then Some(rs[0])
    else JoinOf(rs[1..], table)
  }

  /** An identifier as SQL reads it, on a row of the resource joined by these relations. */
  function Selected<V>(table: string, rs: seq<TableRelation>, reading: Reading<V>, field: string): V {
    var parts := Split(field, '.');
    if |parts| == 1 then reading.expression(field)
    else if parts[0] == table then reading.base(ColumnOf(field))
    else
      var join := JoinOf(rs, parts[0]);
      if join.Some? then reading.related(join.value, ColumnOf(field)) else reading.missing
  }

  /** What a node contributes beside its identifiers: a literal, or an operator and its operands. */
  datatype Head = Literal(node: Node) | Applied(func: Func, left: bool, right: Operands)
  datatype Operands = Nothing | Single | Several

  /** The value of a filter under any meaning of its operators and literals. */
  function Value<V>(op: (Head, seq<V>) -> V, read: string -> V, n: Node): V
    decreases n
  {
    match n.func
    case IdentOp => if n.left.Name? then read(n.left.text) else op(Literal(n), [])
    case Operator(_) =>
      var l := if n.left.Child? then [Value(op, read, n.left.node)] else [];
      (match n.right
       case One(r) => op(Applied(n.func, n.left.Child?, Single), l + [Value(op, read, r)])
       case Many(rs) => op(Applied(n.func, n.left.Child?, Several), l + Values(op, read, rs))
       case _ => op(Applied(n.func, n.left.Child?, Nothing), l))
    case _ => op(Literal(n), [])
  }

  function Values<V>(op: (Head, seq<V>) -> V, read: string -> V, ns: seq<Node>): seq<V>
    decreases ns
  {
    if ns == [] then [] else [Value(op, read, ns[0])] + Values(op, read, ns[1..])
  }

  /** One reader gives the renamed names the values that the other gives the names. */
  predicate Agree<V(==)>(read: string -> V, read': string -> V, f: string -> string, names: seq<string>) {
    forall i :: 0 <= i < |names| ==> read(f(names[i])) == read'(names[i])
  }

  lemma AgreeBoth<V>(read: string -> V, read': string -> V, f: string -> string, a: seq<string>, b: seq<string>)
    requires Agree(read, read', f, a + b)
    ensures Agree(read, read', f, a) && Agree(read, read', f, b)
  {
    forall i | 0 <= i < |a| ensures read(f(a[i])) == read'(a[i]) { assert a[i] == (a + b)[i]; }
    forall i | 0 <= i < |b| ensures read(f(b[i])) == read'(b[i]) { assert b[i] == (a + b)[|a| + i]; }
  }

  /** A filter is worth what its identifiers are worth. */
  lemma {:induction false} ValueOfMap<V>(
      op: (Head, seq<V>) -> V, read: string -> V, read': string -> V, f: string -> string, n: Node)
    requires Agree(read, read', f, Idents(n))
    ensures Value(op, read, Map(f, n)) == Value(op, read', n)
    decreases n
  {
    if n.func == IdentOp {
      if n.left.Name? { assert Idents(n)[0] == n.left.text; }
    } else if n.func.Operator? {
      var l := if n.left.Child? then Idents(n.left.node) else [];
      match n.right {
        case One(r) =>
          AgreeBoth(read, read', f, l, Idents(r));
          ValueOfMap(op, read, read', f, r);
        case Many(rs) =>
          AgreeBoth(read, read', f, l, AllIdents(rs));
          ValuesOfMap(op, read, read', f, rs);
        case _ =>
          AgreeBoth(read, read', f, l, []);
      }
      if n.left.Child? { ValueOfMap(op, read, read', f, n.left.node); }
    }
  }

  lemma {:induction false} ValuesOfMap<V>(
      op: (Head, seq<V>) -> V, read: string -> V, read': string -> V, f: string -> string, ns: seq<Node>)
    requires Agree(read, read', f, AllIdents(ns))
    ensures Values(op, read, MapAll(f, ns)) == Values(op, read', ns)
    decreases ns
  {
    if ns != [] {
      AgreeBoth(read, read', f, Idents(ns[0]), AllIdents(ns[1..]));
      ValueOfMap(op, read, read', f, ns[0]);
      ValuesOfMap(op, read, read', f, ns[1..]);
    }
  }

  /**
   * What the names of a search must satisfy: relations through one table are the same relation, and
   * no relation leads to the resource's own table or to a table that is preloaded.
   */
  predicate Separate(schema: Schema, joins: Joins, included: set<string>) {
    forall name :: name in joins ==>
      && joins[name].foreignTableName != schema.table
      && joins[name].foreignTableName !in included
      && forall other :: other in joins && joins[other].foreignTableName == joins[name].foreignTableName ==>
           joins[other] == joins[name]
  }

  lemma {:induction false} JoinOfMember(rs: seq<TableRelation>, table: string)
    ensures table in TablesOf(rs) ==> JoinOf(rs, table).Some?
    ensures JoinOf(rs, table).Some? ==>
              exists i :: 0 <= i < |rs| && rs[i] == JoinOf(rs, table).value && rs[i].foreignTableName == table
  {
    if rs != [] {
      assert TablesOf(rs)[1..] == TablesOf(rs[1..]);
      JoinOfMember(rs[1..], table);
      if rs[0].foreignTableName != table && JoinOf(rs, table).Some? {
        var i :| 0 <= i < |rs[1..]| && rs[1..][i] == JoinOf(rs, table).value && rs[1..][i].foreignTableName == table;
        assert rs[i + 1] == JoinOf(rs, table).value;
      } else if rs[0].foreignTableName == table {
        assert rs[0] == JoinOf(rs, table).value;
      }
    }
  }

  /** Under Separate the table of a name is joined by the relation of that name, in every order. */
  lemma JoinedByName(schema: Schema, order: seq<string>, joins: Joins, included: set<string>, name: string)
    requires Enumerates(order, joins.Keys) && Separate(schema, joins, included) && name in joins
    ensures JoinOf(Emitted(order, joins, included), joins[name].foreignTableName) == Some(joins[name])
  {
    var rs, table := Emitted(order, joins, included), joins[name].foreignTableName;
    EmittedCovers(order, joins, included, name);
    EmittedOnce(order, joins, included);
    JoinOfMember(rs, table);
    var i :| 0 <= i < |rs| && rs[i] == JoinOf(rs, table).value && rs[i].foreignTableName == table;
    var other :| other in joins && joins[other] == rs[i];
  }

  /** The columns of a renamed identifier. */
  lemma RenamedColumn(table: string, column: string)
    requires PlainTable(table)
    ensures var s := table + "." + column;
            |Split(s, '.')| > 1 && Split(s, '.')[0] == table && ColumnOf(s) == column
  {
    QualifiedParts(table, column);
    JoinUndoesSplit(column, '.');
    var parts := Split(table + "." + column, '.');
    assert parts[1..] == Split(column, '.');
  }

  /** Renaming an identifier keeps its value if its table is joined by its relation. */
  lemma RenameKeepsValue<V>(schema: Schema, rs: seq<TableRelation>, reading: Reading<V>, field: string)
    requires PlainSchema(schema) && Resolves(schema, field)
    requires var name := RelationOf(schema, field);
             name.Some? ==>
               var r := schema.relation(name.value).value;
               r.foreignTableName != schema.table && JoinOf(rs, r.foreignTableName) == Some(r)
    ensures Selected(schema.table, rs, reading, Rename(schema, field)) == Meant(schema, reading, field)
  {
    RenameQualifies(schema, field);
    var table := TableOf(schema, field);
    if table.Some? {
      RenamedColumn(table.value, ColumnOf(field));
    } else {
      SplitWhole(field, '.');
    }
  }

  /** An identifier as the parser reads it has no outer blanks, and renaming gives it none. */
  lemma RenameHasNoOuterBlanks(schema: Schema, field: string)
    requires PlainSchema(schema) && Resolves(schema, field) && NoOuterBlanks(field)
    ensures Translated(schema, field) == Rename(schema, field)
  {
    RenameQualifies(schema, field);
    var table := TableOf(schema, field);
    if table.Some? {
      var column := ColumnOf(field);
      ColumnEnds(field);
      TrimQualified(table.value, column);
    } else {
      TrimKeeps(field);
    }
  }

  lemma ColumnEnds(field: string)
    ensures ColumnOf(field) != "" ==> field != "" && ColumnOf(field)[|ColumnOf(field)| - 1] == field[|field| - 1]
  {
    var parts := Split(field, '.');
    JoinUndoesSplit(field, '.');
    if |parts| > 1 {
      assert parts == [parts[0]] + parts[1..];
      JoinFirst(parts[0], parts[1..]);
    }
  }

  function Selecting<V>(table: string, rs: seq<TableRelation>, reading: Reading<V>): string -> V {
    field => Selected(table, rs, reading, field)
  }

  function Meaning<V>(schema: Schema, reading: Reading<V>): string -> V {
    field => Meant(schema, reading, field)
  }

  function WithoutOuterBlanks(): string -> bool {
    field => NoOuterBlanks(field)
  }

  /** Every identifier of a search keeps its value. */
  lemma IdentsKeepValues<V>(
      schema: Schema, names: seq<string>, joins: Joins, included: set<string>, order: seq<string>, reading: Reading<V>)
    requires PlainSchema(schema) && AllOk(names, Resolving(schema)) && AllOk(names, WithoutOuterBlanks())
    requires JoinsFit(schema, joins) && joins.Keys == RelationNames(schema, names)
    requires Enumerates(order, joins.Keys) && Separate(schema, joins, included)
    ensures Agree(Selecting(schema.table, Emitted(order, joins, included), reading), Meaning(schema, reading),
                  Translating(schema), names)
  {
    var rs := Emitted(order, joins, included);
    forall i | 0 <= i < |names|
      ensures Selecting(schema.table, rs, reading)(Translating(schema)(names[i])) == Meaning(schema, reading)(names[i])
    {
      assert Resolving(schema)(names[i]) && WithoutOuterBlanks()(names[i]);
      RenameHasNoOuterBlanks(schema, names[i]);
      if RelationOf(schema, names[i]).Some? {
        HasRelationName(schema, names, i);
        JoinedByName(schema, order, joins, included, RelationOf(schema, names[i]).value);
      }
      RenameKeepsValue(schema, rs, reading, names[i]);
    }
  }

  /** The translated tree is the tree with every identifier translated. */
  lemma {:induction false} TranslateIsMap(schema: Schema, tree: Node, joins: Joins, w: Walked)
    requires Parsed(tree) && PlainSchema(schema) && Translate(schema, map[], tree) == (joins, w) && w.Tree?
    ensures w.node == Map(Translating(schema), tree) && AllOk(Idents(tree), Resolving(schema))
    ensures JoinsFit(schema, joins) && joins.Keys == RelationNames(schema, Idents(tree))
  {
    TranslateRenames(schema, tree);
    RenamesThenTrims(schema, tree);
    TranslateFindsRelations(schema, tree);
  }

  /** The value of the translated search on a joined row is the value of the search. */
  predicate SameValue<V(==)>(
    schema: Schema, rs: seq<TableRelation>, op: (Head, seq<V>) -> V, reading: Reading<V>, translated: Node, tree: Node)
  {
    Value(op, Selecting(schema.table, rs, reading), translated) == Value(op, Meaning(schema, reading), tree)
  }

  /**
   * A search means the same before and after its translation, on every row, under every meaning of
   * its operators, and for every order in which the joins are issued.
   */
  lemma {:induction false} MeaningIsPreserved<V>(
      schema: Schema, tree: Node, joins: Joins, w: Walked, included: set<string>, order: seq<string>,
      op: (Head, seq<V>) -> V, reading: Reading<V>)
    requires Parsed(tree) && PlainSchema(schema) && AllOk(Idents(tree), WithoutOuterBlanks())
    requires Translate(schema, map[], tree) == (joins, w) && w.Tree?
    requires Enumerates(order, joins.Keys) && Separate(schema, joins, included)
    ensures SameValue(schema, Emitted(order, joins, included), op, reading, w.node, tree)
  {
    TranslateIsMap(schema, tree, joins, w);
    IdentsKeepValues(schema, Idents(tree), joins, included, order, reading);
    ValueOfMap(op, Selecting(schema.table, Emitted(order, joins, included), reading), Meaning(schema, reading),
               Translating(schema), tree);
  }
}
