/**
 * The translation of a parsed search filter: relation names become table names, bare columns get the
 * resource's table, and every field name is checked.
 */
module Search {
  import opened Wrappers
  import opened Text
  import opened TslTree
  import opened FieldNames

  /** dao.TableRelation: ON tableName.columnName = foreignTableName.foreignColumnName. */
  datatype TableRelation = TableRelation(
    tableName: string, columnName: string, foreignTableName: string, foreignColumnName: string)

  type Joins = map<string, TableRelation>

  /** The resource that is listed: its table, GetTableRelation, and the fields that may not be searched. */
  datatype Schema = Schema(
    table: string, relation: string -> Option<TableRelation>, disallowed: set<string>)

  // ---------- walks whose answers do not depend on the state ----------

  /** From any good state the callback accepts exactly the ok names, renames them by f, and keeps the state good. */
  ghost predicate Uniform<S(!new)>(call: (S, string) -> (S, Answer), good: S -> bool, ok: string -> bool, f: string -> string) {
    forall s: S, name: string :: good(s) ==>
      && good(call(s, name).0)
      && (call(s, name).1.Renamed? <==> ok(name))
      && (ok(name) ==> call(s, name).1 == Renamed(f(name)))
  }

  /** The state after the callback has seen the names. */
  function States<S>(call: (S, string) -> (S, Answer), s: S, names: seq<string>): S {
    if names == [] then s else States(call, call(s, names[0]).0, names[1..])
  }

  lemma {:induction false} StatesAppend<S>(call: (S, string) -> (S, Answer), s: S, a: seq<string>, b: seq<string>)
    ensures States(call, s, a + b) == States(call, States(call, s, a), b)
  {
    if a == [] {
      assert a + b == b;
    } else {
      StatesAppend(call, call(s, a[0]).0, a[1..], b);
      assert (a + b)[1..] == a[1..] + b;
    }
  }

  /** The walk of a tree accepts iff every name is ok, and then renames the tree. */
  ghost predicate WalkFits<S>(
    call: (S, string) -> (S, Answer), good: S -> bool, ok: string -> bool, f: string -> string, s: S, n: Node)
  {
    var (t, w) := IdentWalk(call, s, n);
    && good(t)
    && (w.Tree? <==> Plain(n) && AllOk(Idents(n), ok))
    && (w.Tree? ==> w == Tree(Map(f, n)) && t == States(call, s, Idents(n)))
  }

  ghost predicate WalkAllFits<S>(
    call: (S, string) -> (S, Answer), good: S -> bool, ok: string -> bool, f: string -> string, s: S, ns: seq<Node>)
  {
    var (t, w) := IdentWalkAll(call, s, ns);
    && good(t)
    && (w.Trees? <==> AllPlain(ns) && AllOk(AllIdents(ns), ok))
    && (w.NotAll? ==> !w.why.Tree?)
    && (w.Trees? ==> w == Trees(MapAll(f, ns)) && t == States(call, s, AllIdents(ns)))
  }

  lemma WithOne<S>(call: (S, string) -> (S, Answer), good: S -> bool, ok: string -> bool, f: string -> string, s: S, n: Node)
    requires n.func.Operator? && n.left.Child? && n.right.One?
    requires WalkFits(call, good, ok, f, s, n.left.node)
    requires WalkFits(call, good, ok, f, IdentWalk(call, s, n.left.node).0, n.right.node)
    ensures WalkFits(call, good, ok, f, s, n)
  {
    AllOkBoth(Idents(n.left.node), Idents(n.right.node), ok);
    StatesAppend(call, s, Idents(n.left.node), Idents(n.right.node));
  }

  lemma WithMany<S>(call: (S, string) -> (S, Answer), good: S -> bool, ok: string -> bool, f: string -> string, s: S, n: Node)
    requires n.func.Operator? && n.left.Child? && n.right.Many?
    requires WalkFits(call, good, ok, f, s, n.left.node)
    requires WalkAllFits(call, good, ok, f, IdentWalk(call, s, n.left.node).0, n.right.nodes)
    ensures WalkFits(call, good, ok, f, s, n)
  {
    AllOkBoth(Idents(n.left.node), AllIdents(n.right.nodes), ok);
    StatesAppend(call, s, Idents(n.left.node), AllIdents(n.right.nodes));
  }

  lemma WithNone<S>(call: (S, string) -> (S, Answer), good: S -> bool, ok: string -> bool, f: string -> string, s: S, n: Node)
    requires n.func.Operator? && n.left.Child? && (n.right.NoRight? || n.right.Alien?)
    requires WalkFits(call, good, ok, f, s, n.left.node)
    ensures WalkFits(call, good, ok, f, s, n)
  {
    assert Idents(n) == Idents(n.left.node);
  }

  lemma {:induction false} UniformWalk<S(!new)>(
      call: (S, string) -> (S, Answer), good: S -> bool, ok: string -> bool, f: string -> string, s: S, n: Node)
    requires Uniform(call, good, ok, f) && good(s) && Parsed(n)
    ensures WalkFits(call, good, ok, f, s, n)
    decreases n
  {
    if n.func == IdentOp {
      assert Idents(n) == [n.left.text];
      assert AllOk(Idents(n), ok) <==> ok(Idents(n)[0]);
      assert States(call, call(s, n.left.text).0, []) == call(s, n.left.text).0;
    } else if n.func.Operator? {
      UniformWalk(call, good, ok, f, s, n.left.node);
      var s1 := IdentWalk(call, s, n.left.node).0;
      match n.right {
        case One(r) =>
          UniformWalk(call, good, ok, f, s1, r);
          WithOne(call, good, ok, f, s, n);
        case Many(rs) =>
          UniformWalkAll(call, good, ok, f, s1, rs);
          WithMany(call, good, ok, f, s, n);
        case _ =>
          WithNone(call, good, ok, f, s, n);
      }
    }
  }

  lemma {:induction false} UniformWalkAll<S(!new)>(
      call: (S, string) -> (S, Answer), good: S -> bool, ok: string -> bool, f: string -> string, s: S, ns: seq<Node>)
    requires Uniform(call, good, ok, f) && good(s) && AllParsed(ns)
    ensures WalkAllFits(call, good, ok, f, s, ns)
    decreases ns
  {
    if ns != [] {
      UniformWalk(call, good, ok, f, s, ns[0]);
      var s1 := IdentWalk(call, s, ns[0]).0;
      UniformWalkAll(call, good, ok, f, s1, ns[1..]);
      AllOkBoth(Idents(ns[0]), AllIdents(ns[1..]), ok);
      StatesAppend(call, s, Idents(ns[0]), AllIdents(ns[1..]));
    }
  }

  // ---------- treeWalkForRelatedTables ----------

  /** The relation that an identifier goes through, if it is of the form relation.column. */
  function RelationOf(schema: Schema, field: string): Option<string> {
    var parts := Split(field, '.');
    if |parts| > 1 && parts[0] != schema.table then Some(parts[0]) else None
  }

  /** The callback: looks the relation up once and replaces it by its table. */
  function RelatedCall(schema: Schema, joins: Joins, field: string): (Joins, Answer) {
    var name := RelationOf(schema, field);
    if name.None? then (joins, Renamed(field))
    else if name.value in joins then (joins, Renamed(ThroughTable(field, joins[name.value])))
    else if name.value == "" then (joins, Crashed)  // fieldName[:1]
    else
      var relation := schema.relation(name.value);
      if relation.None? then (joins, Refused)
      else (joins[name.value := relation.value], Renamed(ThroughTable(field, relation.value)))
  }

  function RelatedCallback(schema: Schema): (Joins, string) -> (Joins, Answer) {
    (joins, field) => RelatedCall(schema, joins, field)
  }

  function ThroughTable(field: string, relation: TableRelation): string {
    Join([relation.foreignTableName] + Split(field, '.')[1..], '.')
  }

  function TreeWalkForRelatedTables(schema: Schema, joins: Joins, tree: Node): (Joins, Walked) {
    IdentWalk(RelatedCallback(schema), joins, tree)
  }

  // ---------- treeWalkForAddingTableName ----------

  function AddTableName(table: string, field: string): string {
    if |Split(field, '.')| == 1 && !Contains(field, "->") then table + "." + field else field
  }

  function AddingCall(table: string, unit: (), field: string): ((), Answer) {
    (unit, Renamed(AddTableName(table, field)))
  }

  function AddingCallback(table: string): ((), string) -> ((), Answer) {
    (unit, field) => AddingCall(table, unit, field)
  }

  function TreeWalkForAddingTableName(schema: Schema, tree: Node): Walked {
    IdentWalk(AddingCallback(schema.table), (), tree).1
  }

  /** The three walks of buildSearchValues. */
  function Translate(schema: Schema, joins: Joins, tree: Node): (Joins, Walked) {
    var (found, w1) := TreeWalkForRelatedTables(schema, joins, tree);
    if !w1.Tree? then (found, w1)
    else
      var w2 := TreeWalkForAddingTableName(schema, w1.node);
      if !w2.Tree? then (found, w2) else (found, FieldNameWalk(w2.node, schema.disallowed))
  }

  // ---------- what the translation does ----------

  /** The relation exists, or none is needed. */
  predicate Resolves(schema: Schema, field: string) {
    var name := RelationOf(schema, field);
    name.Some? ==> name.value != "" && schema.relation(name.value).Some?
  }

  function Related(schema: Schema, field: string): string {
    var name := RelationOf(schema, field);
    if name.Some? && schema.relation(name.value).Some?
    then ThroughTable(field, schema.relation(name.value).value) else field
  }

  /** The first two walks on one identifier. */
  function Rename(schema: Schema, field: string): string {
    AddTableName(schema.table, Related(schema, field))
  }

  /** What is in the map is what GetTableRelation answers. */
  predicate JoinsFit(schema: Schema, joins: Joins) {
    forall name :: name in joins ==> name != "" && schema.relation(name) == Some(joins[name])
  }

  function FitJoins(schema: Schema): Joins -> bool {
    joins => JoinsFit(schema, joins)
  }

  function Resolving(schema: Schema): string -> bool {
    field => Resolves(schema, field)
  }

  function Relating(schema: Schema): string -> string {
    field => Related(schema, field)
  }

  function AddingTable(table: string): string -> string {
    field => AddTableName(table, field)
  }

  function Renaming(schema: Schema): string -> string {
    field => Rename(schema, field)
  }

  function Always<T>(): T -> bool {
    x => true
  }

  lemma RelatedIsUniform(schema: Schema)
    ensures Uniform(RelatedCallback(schema), FitJoins(schema), Resolving(schema), Relating(schema))
  {
  }

  lemma AddingIsUniform(table: string)
    ensures Uniform(AddingCallback(table), Always(), Always(), AddingTable(table))
  {
  }

  ghost predicate Composes(f: string -> string, g: string -> string, h: string -> string) {
    forall name :: h(name) == g(f(name))
  }

  /** Renaming twice is renaming by both. */
  lemma {:induction false} MapTwice(f: string -> string, g: string -> string, h: string -> string, n: Node)
    requires Composes(f, g, h)
    ensures Map(g, Map(f, n)) == Map(h, n)
    decreases n
  {
    if n.func.Operator? {
      if n.left.Child? { MapTwice(f, g, h, n.left.node); }
      if n.right.One? { MapTwice(f, g, h, n.right.node); }
      if n.right.Many? { MapAllTwice(f, g, h, n.right.nodes); }
    }
  }

  lemma {:induction false} MapAllTwice(f: string -> string, g: string -> string, h: string -> string, ns: seq<Node>)
    requires Composes(f, g, h)
    ensures MapAll(g, MapAll(f, ns)) == MapAll(h, ns)
    decreases ns
  {
    if ns != [] {
      MapTwice(f, g, h, ns[0]);
      MapAllTwice(f, g, h, ns[1..]);
    }
  }

  lemma {:induction false} MapKeepsShape(f: string -> string, n: Node)
    ensures (Parsed(Map(f, n)) <==> Parsed(n)) && (Plain(Map(f, n)) <==> Plain(n))
    decreases n
  {
    if n.func.Operator? {
      if n.left.Child? { MapKeepsShape(f, n.left.node); }
      if n.right.One? { MapKeepsShape(f, n.right.node); }
      if n.right.Many? { MapAllKeepsShape(f, n.right.nodes); }
    }
  }

  lemma {:induction false} MapAllKeepsShape(f: string -> string, ns: seq<Node>)
    ensures (AllParsed(MapAll(f, ns)) <==> AllParsed(ns)) && (AllPlain(MapAll(f, ns)) <==> AllPlain(ns))
    decreases ns
  {
    if ns != [] {
      MapKeepsShape(f, ns[0]);
      MapAllKeepsShape(f, ns[1..]);
    }
  }

  /**
   * A parsed filter is translated exactly when its right-hand sides are known, every relation it
   * names exists, and every renamed and converted identifier is an allowed field; the translation
   * renames its identifiers, converts its properties and trims, and changes nothing else.
   */
  lemma {:induction false} TranslateAccepts(schema: Schema, tree: Node)
    requires Parsed(tree)
    ensures var (joins, w) := Translate(schema, map[], tree);
            var renamed := Converted(Map(Renaming(schema), tree));
            && JoinsFit(schema, joins)
            && (w.Tree? <==> Plain(tree) && AllOk(Idents(tree), Resolving(schema))
                             && AllOk(Idents(renamed), Allowed(schema.disallowed)))
            && (w.Tree? ==> w == Tree(Trimmed(renamed))
                            && joins == States(RelatedCallback(schema), map[], Idents(tree)))
  {
    RelatedIsUniform(schema);
    UniformWalk(RelatedCallback(schema), FitJoins(schema), Resolving(schema), Relating(schema), map[], tree);
    var (joins, w1) := TreeWalkForRelatedTables(schema, map[], tree);
    if w1.Tree? {
      MapKeepsShape(Relating(schema), tree);
      AddingIsUniform(schema.table);
      UniformWalk(AddingCallback(schema.table), Always(), Always(), AddingTable(schema.table), (), w1.node);
      MapTwice(Relating(schema), AddingTable(schema.table), Renaming(schema), tree);
      MapKeepsShape(Renaming(schema), tree);
      WalkAccepts(Map(Renaming(schema), tree), schema.disallowed);
    }
  }

  // ---------- what an accepted filter looks like ----------

  /** A table name of the database: an identifier, and not the JSON column's name. */
  predicate PlainTable(table: string) {
    table != "" && '.' !in table && ' ' !in table && table != "properties"
  }

  ghost predicate PlainSchema(schema: Schema) {
    && PlainTable(schema.table)
    && forall name :: schema.relation(name).Some? ==> PlainTable(schema.relation(name).value.foreignTableName)
  }

  /** The table that an identifier is qualified with in the end, if it is. */
  function TableOf(schema: Schema, field: string): Option<string> {
    var name := RelationOf(schema, field);
    if name.Some? then
      var relation := schema.relation(name.value);
      if relation.Some? then Some(relation.value.foreignTableName) else None
    else if |Split(field, '.')| == 1 && Contains(field, "->") then None
    else Some(schema.table)
  }

  /** The column part of an identifier. */
  function ColumnOf(field: string): string {
    var parts := Split(field, '.');
    if |parts| == 1 then field else Join(parts[1..], '.')
  }

  lemma JoinFirst(head: string, rest: seq<string>)
    requires rest != []
    ensures Join([head] + rest, '.') == head + "." + Join(rest, '.')
  {
    assert ([head] + rest)[1..] == rest;
  }

  /** A renamed identifier is table.column, or an arrow expression left as it was. */
  lemma {:induction false} RenameQualifies(schema: Schema, field: string)
    requires PlainSchema(schema) && Resolves(schema, field)
    ensures var table := TableOf(schema, field);
            if table.Some? then PlainTable(table.value) && Rename(schema, field) == table.value + "." + ColumnOf(field)
            else Rename(schema, field) == field && '.' !in field && Contains(field, "->")
  {
    var parts := Split(field, '.');
    JoinUndoesSplit(field, '.');
    if |parts| == 1 {
      assert Join(parts, '.') == parts[0];
    } else {
      assert parts == [parts[0]] + parts[1..];
      JoinFirst(parts[0], parts[1..]);
      if parts[0] != schema.table {
        var table := TableOf(schema, field).value;
        JoinFirst(table, parts[1..]);
        SplitFirst(table, Join(parts[1..], '.'), '.');
      }
    }
  }

  lemma PropertiesPart(s: string)
    requires PROPERTIES <= s
    ensures Split(s, '.')[0] == "properties"
  {
    assert PROPERTIES == "properties" + ['.'];
    assert s == "properties" + ['.'] + s[11..];
    SplitFirst("properties", s[11..], '.');
  }

  lemma QualifiedParts(table: string, column: string)
    requires '.' !in table
    ensures Split(table + "." + column, '.') == [table] + Split(column, '.')
  {
    assert table + "." + column == table + ['.'] + column;
    SplitFirst(table, column, '.');
  }

  lemma QualifiedIsNoProperty(table: string, column: string)
    requires PlainTable(table)
    ensures !(PROPERTIES <= table + "." + column)
  {
    QualifiedParts(table, column);
    if PROPERTIES <= table + "." + column { PropertiesPart(table + "." + column); }
  }

  lemma RenamedIsNoProperty(schema: Schema, field: string)
    requires PlainSchema(schema) && Resolves(schema, field)
    ensures !(PROPERTIES <= Rename(schema, field))
  {
    RenameQualifies(schema, field);
    var table := TableOf(schema, field);
    if table.Some? {
      QualifiedIsNoProperty(table.value, ColumnOf(field));
    } else {
      assert PROPERTIES[10] == '.';
    }
  }

  function NotAProperty(): string -> bool {
    name => !(PROPERTIES <= name)
  }

  /** A tree without property identifiers is not converted. */
  lemma {:induction false} NothingToConvert(n: Node)
    requires Parsed(n) && AllOk(Idents(n), NotAProperty())
    ensures Converted(n) == n
    decreases n
  {
    if n.func.Operator? {
      var l := n.left.node;
      match n.right {
        case One(r) =>
          AllOkBoth(Idents(l), Idents(r), NotAProperty());
          NothingToConvert(r);
        case Many(rs) =>
          AllOkBoth(Idents(l), AllIdents(rs), NotAProperty());
          NothingToConvertAll(rs);
        case _ =>
          assert Idents(n) == Idents(l);
      }
      NothingToConvert(l);
      if l.func == IdentOp { assert Idents(l)[0] == l.left.text; }
    }
  }

  lemma {:induction false} NothingToConvertAll(ns: seq<Node>)
    requires AllParsed(ns) && AllOk(AllIdents(ns), NotAProperty())
    ensures ConvertedAll(ns) == ns
    decreases ns
  {
    if ns != [] {
      AllOkBoth(Idents(ns[0]), AllIdents(ns[1..]), NotAProperty());
      NothingToConvert(ns[0]);
      NothingToConvertAll(ns[1..]);
    }
  }

  function MapNames(f: string -> string, names: seq<string>): (mapped: seq<string>)
    ensures |mapped| == |names| && forall i :: 0 <= i < |names| ==> mapped[i] == f(names[i])
  {
    if names == [] then [] else [f(names[0])] + MapNames(f, names[1..])
  }

  lemma {:induction false} IdentsOfMap(f: string -> string, n: Node)
    ensures Idents(Map(f, n)) == MapNames(f, Idents(n))
    decreases n
  {
    if n.func.Operator? {
      if n.left.Child? { IdentsOfMap(f, n.left.node); }
      if n.right.One? { IdentsOfMap(f, n.right.node); }
      if n.right.Many? { AllIdentsOfMap(f, n.right.nodes); }
    }
  }

  lemma {:induction false} AllIdentsOfMap(f: string -> string, ns: seq<Node>)
    ensures AllIdents(MapAll(f, ns)) == MapNames(f, AllIdents(ns))
    decreases ns
  {
    if ns != [] {
      IdentsOfMap(f, ns[0]);
      AllIdentsOfMap(f, ns[1..]);
    }
  }

  /** All that the translation does to an identifier of a plain schema. */
  function Translated(schema: Schema, field: string): string {
    Trim(Rename(schema, field))
  }

  function Translating(schema: Schema): string -> string {
    field => Translated(schema, field)
  }

  lemma {:induction false} RenamesThenTrims(schema: Schema, tree: Node)
    ensures Map(Trimming(), Map(Renaming(schema), tree)) == Map(Translating(schema), tree)
  {
    var f, g, h := Renaming(schema), Trimming(), Translating(schema);
    TranslatingIsBoth(schema, f, g, h);
    MapTwice(f, g, h, tree);
  }

  lemma TranslatingIsBoth(schema: Schema, f: string -> string, g: string -> string, h: string -> string)
    requires f == Renaming(schema) && g == Trimming() && h == Translating(schema)
    ensures Composes(f, g, h)
  {
  }

  /** On a plain schema the translation is a renaming. */
  lemma {:induction false} TranslateRenames(schema: Schema, tree: Node)
    requires Parsed(tree) && PlainSchema(schema) && Translate(schema, map[], tree).1.Tree?
    ensures AllOk(Idents(tree), Resolving(schema))
    ensures var renamed := Map(Renaming(schema), tree);
            AllOk(Idents(renamed), Allowed(schema.disallowed))
            && Translate(schema, map[], tree).1 == Tree(Trimmed(renamed))
  {
    TranslateAccepts(schema, tree);
    var renamed := Map(Renaming(schema), tree);
    IdentsOfMap(Renaming(schema), tree);
    forall i | 0 <= i < |Idents(tree)| ensures NotAProperty()(Idents(renamed)[i]) {
      assert Resolving(schema)(Idents(tree)[i]);
      RenamedIsNoProperty(schema, Idents(tree)[i]);
    }
    MapKeepsShape(Renaming(schema), tree);
    NothingToConvert(renamed);
  }
}
