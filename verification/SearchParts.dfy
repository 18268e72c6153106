/**
 * The translation of a search, said in terms of the parts between the dots of its identifiers: which
 * searches are accepted, what their identifiers become, which relations they join, and what they mean.
 */
module SearchParts {
  import opened Wrappers
  import opened Text
  import opened TslTree
  import opened FieldNames
  import opened Search
  import opened SearchMeaning

  /** The identifier goes through the relation: head.tail with a head that is not the resource's own table. */
  predicate GoesThrough(schema: Schema, field: string, name: string) {
    var parts := Split(field, '.');
    |parts| > 1 && parts[0] == name && name != schema.table
  }

  /**
   * The identifier may be searched: an arrow expression or a column by itself, or a column behind the
   * resource's own table or behind the name of a relation; not a column that is disallowed.
   */
  predicate Searchable(schema: Schema, field: string) {
    var parts := Split(field, '.');
    if |parts| == 1 then
      if Contains(field, "->") then PROPERTY_EXPRESSION <= Trim(field) || Trim(field) !in schema.disallowed
      else TrimRight(field, ' ') !in schema.disallowed
    else
      && |parts| == 2
      && (parts[0] == schema.table || (parts[0] != "" && schema.relation(parts[0]).Some?))
      && TrimRight(parts[1], ' ') !in schema.disallowed
  }

  /** What a searchable identifier becomes. */
  function Becomes(schema: Schema, field: string): string {
    var parts := Split(field, '.');
    if |parts| == 1 then
      if Contains(field, "->") then Trim(field) else schema.table + "." + TrimRight(field, ' ')
    else
      var relation := schema.relation(parts[0]);
      (if parts[0] != schema.table && relation.Some? then relation.value.foreignTableName else schema.table)
      + "." + TrimRight(parts[1], ' ')
  }

  function Becoming(schema: Schema): string -> string {
    field => Becomes(schema, field)
  }

  function SearchableIn(schema: Schema): string -> bool {
    field => Searchable(schema, field)
  }

  // ---------- one identifier ----------

  lemma OnePart(field: string)
    ensures |Split(field, '.')| == 1 <==> '.' !in field
    ensures |Split(field, '.')| == 1 ==> Split(field, '.')[0] == field
  {
    JoinUndoesSplit(field, '.');
    if '.' !in field { SplitWhole(field, '.'); }
  }

  /** A name behind a table name is a field exactly if it has no further dot and is allowed. */
  lemma QualifiedOk(table: string, column: string, disallowed: set<string>)
    requires PlainTable(table)
    ensures FieldOk(table + "." + column, disallowed) <==> '.' !in column && TrimRight(column, ' ') !in disallowed
    ensures Trim(table + "." + column) == table + "." + TrimRight(column, ' ')
  {
    TrimQualified(table, column);
    ExpressionIsNotQualified(table, TrimRight(column, ' '));
    QualifiedParts(table, TrimRight(column, ' '));
    OnePart(TrimRight(column, ' '));
    TrimRightEnds(column);
    if '.' in column { TrimRightKeeps(column, '.'); }
  }

  lemma ArrowOk(schema: Schema, field: string)
    requires PlainSchema(schema) && |Split(field, '.')| == 1 && Contains(field, "->")
    ensures Resolves(schema, field) && Rename(schema, field) == field && Becomes(schema, field) == Trim(field)
    ensures FieldOk(field, schema.disallowed) <==> Searchable(schema, field)
  {
    OnePart(field);
    TrimHasNoNew(field, '.');
    OnePart(Trim(field));
  }

  lemma ColumnOk(schema: Schema, field: string)
    requires PlainSchema(schema) && |Split(field, '.')| == 1 && !Contains(field, "->")
    ensures Resolves(schema, field) && Rename(schema, field) == schema.table + "." + field
    ensures FieldOk(Rename(schema, field), schema.disallowed) <==> Searchable(schema, field)
    ensures Translated(schema, field) == Becomes(schema, field)
  {
    OnePart(field);
    QualifiedOk(schema.table, field, schema.disallowed);
  }

  /** A join of two parts or more has a dot exactly if there are more than two. */
  lemma TailHasDot(parts: seq<string>)
    requires |parts| > 1 && forall i :: 0 <= i < |parts| ==> '.' !in parts[i]
    ensures '.' in Join(parts[1..], '.') <==> |parts| > 2
    ensures |parts| == 2 ==> Join(parts[1..], '.') == parts[1]
  {
    if |parts| > 2 { JoinFirst(parts[1], parts[2..]); assert parts[1..] == [parts[1]] + parts[2..]; }
  }

  /** The table that a dotted identifier is qualified with. */
  lemma DottedRenames(schema: Schema, field: string)
    requires PlainSchema(schema) && |Split(field, '.')| > 1
    ensures var parts := Split(field, '.');
            && (Resolves(schema, field) <==>
                  parts[0] == schema.table || (parts[0] != "" && schema.relation(parts[0]).Some?))
            && (Resolves(schema, field) ==>
                  var table := if parts[0] == schema.table then schema.table
                               else schema.relation(parts[0]).value.foreignTableName;
                  PlainTable(table) && Rename(schema, field) == table + "." + Join(parts[1..], '.'))
  {
    if Resolves(schema, field) { RenameQualifies(schema, field); }
  }

  lemma DottedOk(schema: Schema, field: string)
    requires PlainSchema(schema) && |Split(field, '.')| > 1
    ensures Resolves(schema, field) && FieldOk(Rename(schema, field), schema.disallowed) <==> Searchable(schema, field)
    ensures Searchable(schema, field) ==> Translated(schema, field) == Becomes(schema, field)
  {
    var parts := Split(field, '.');
    DottedRenames(schema, field);
    if Resolves(schema, field) {
      var table := if parts[0] == schema.table then schema.table else schema.relation(parts[0]).value.foreignTableName;
      TailHasDot(parts);
      QualifiedOk(table, Join(parts[1..], '.'), schema.disallowed);
    }
  }

  lemma FieldByParts(schema: Schema, field: string)
    requires PlainSchema(schema)
    ensures Resolves(schema, field) && FieldOk(Rename(schema, field), schema.disallowed) <==> Searchable(schema, field)
    ensures Searchable(schema, field) ==> Translated(schema, field) == Becomes(schema, field)
  {
    if |Split(field, '.')| > 1 { DottedOk(schema, field); }
    else if Contains(field, "->") { ArrowOk(schema, field); }
    else { ColumnOk(schema, field); }
  }

  // ---------- a search ----------

  lemma {:induction false} RenamedOk(schema: Schema, tree: Node)
    requires Parsed(tree) && PlainSchema(schema) && AllOk(Idents(tree), Resolving(schema))
    ensures var renamed := Map(Renaming(schema), tree);
            Converted(renamed) == renamed && Idents(renamed) == MapNames(Renaming(schema), Idents(tree))
  {
    var renamed := Map(Renaming(schema), tree);
    IdentsOfMap(Renaming(schema), tree);
    forall i | 0 <= i < |Idents(tree)| ensures NotAProperty()(Idents(renamed)[i]) {
      assert Resolving(schema)(Idents(tree)[i]);
      RenamedIsNoProperty(schema, Idents(tree)[i]);
    }
    MapKeepsShape(Renaming(schema), tree);
    NothingToConvert(renamed);
  }

  lemma AllSearchable(schema: Schema, names: seq<string>)
    requires PlainSchema(schema)
    ensures AllOk(names, Resolving(schema)) && AllOk(MapNames(Renaming(schema), names), Allowed(schema.disallowed))
            <==> AllOk(names, SearchableIn(schema))
  {
    forall i | 0 <= i < |names|
      ensures Resolving(schema)(names[i]) && Allowed(schema.disallowed)(MapNames(Renaming(schema), names)[i])
              <==> SearchableIn(schema)(names[i])
    {
      FieldByParts(schema, names[i]);
    }
    var renamed := MapNames(Renaming(schema), names);
    if AllOk(names, SearchableIn(schema)) {
      forall i | 0 <= i < |names| ensures Resolving(schema)(names[i]) && Allowed(schema.disallowed)(renamed[i]) {
        assert SearchableIn(schema)(names[i]);
      }
    }
    if AllOk(names, Resolving(schema)) && AllOk(renamed, Allowed(schema.disallowed)) {
      forall i | 0 <= i < |names| ensures SearchableIn(schema)(names[i]) {
        assert Resolving(schema)(names[i]) && Allowed(schema.disallowed)(renamed[i]);
      }
    }
  }

  /** Maps that agree on the identifiers of a tree give the same tree. */
  lemma {:induction false} SameMap(f: string -> string, g: string -> string, n: Node)
    requires MapNames(f, Idents(n)) == MapNames(g, Idents(n))
    ensures Map(f, n) == Map(g, n)
    decreases n
  {
    if n.func == IdentOp {
      if n.left.Name? {
        assert f(Idents(n)[0]) == MapNames(f, Idents(n))[0] == MapNames(g, Idents(n))[0] == g(Idents(n)[0]);
      }
    } else if n.func.Operator? {
      var l := if n.left.Child? then Idents(n.left.node) else [];
      match n.right {
        case One(r) =>
          SamePrefix(f, g, l, Idents(r));
          SameMap(f, g, r);
        case Many(rs) =>
          SamePrefix(f, g, l, AllIdents(rs));
          SameMaps(f, g, rs);
        case _ =>
          SamePrefix(f, g, l, []);
      }
      if n.left.Child? { SameMap(f, g, n.left.node); }
    }
  }

  lemma {:induction false} SameMaps(f: string -> string, g: string -> string, ns: seq<Node>)
    requires MapNames(f, AllIdents(ns)) == MapNames(g, AllIdents(ns))
    ensures MapAll(f, ns) == MapAll(g, ns)
    decreases ns
  {
    if ns != [] {
      SamePrefix(f, g, Idents(ns[0]), AllIdents(ns[1..]));
      SameMap(f, g, ns[0]);
      SameMaps(f, g, ns[1..]);
    }
  }

  lemma SamePrefix(f: string -> string, g: string -> string, a: seq<string>, b: seq<string>)
    requires MapNames(f, a + b) == MapNames(g, a + b)
    ensures MapNames(f, a) == MapNames(g, a) && MapNames(f, b) == MapNames(g, b)
  {
    forall i | 0 <= i < |a| ensures f(a[i]) == g(a[i]) {
      assert MapNames(f, a + b)[i] == MapNames(g, a + b)[i] && (a + b)[i] == a[i];
    }
    forall i | 0 <= i < |b| ensures f(b[i]) == g(b[i]) {
      assert MapNames(f, a + b)[|a| + i] == MapNames(g, a + b)[|a| + i] && (a + b)[|a| + i] == b[i];
    }
  }

  lemma {:induction false} RelationNamesByParts(schema: Schema, fields: seq<string>, name: string)
    ensures name in RelationNames(schema, fields) <==> exists i :: 0 <= i < |fields| && GoesThrough(schema, fields[i], name)
  {
    if fields != [] {
      var rest := fields[1..];
      RelationNamesByParts(schema, rest, name);
      assert forall i :: 0 <= i < |rest| ==> rest[i] == fields[i + 1];
      assert RelationOf(schema, fields[0]) == Some(name) <==> GoesThrough(schema, fields[0], name);
      if i :| 0 <= i < |fields| && GoesThrough(schema, fields[i], name) {
        assert i > 0 ==> GoesThrough(schema, rest[i - 1], name);
      }
    }
  }

  /**
   * A search is accepted if and only if every right-hand side is known and every identifier may be
   * searched; its identifiers then become what their parts say, and it joins exactly the relations that
   * some identifier goes through.
   */
  lemma {:induction false} AcceptedByParts(schema: Schema, tree: Node)
    requires Parsed(tree) && PlainSchema(schema)
    ensures var (joins, w) := Translate(schema, map[], tree);
            && (w.Tree? <==> Plain(tree) && AllOk(Idents(tree), SearchableIn(schema)))
            && (w.Tree? ==> w.node == Map(Becoming(schema), tree))
            && (w.Tree? ==> forall name ::
                  (name in joins <==> exists i :: 0 <= i < |Idents(tree)| && GoesThrough(schema, Idents(tree)[i], name))
                  && (name in joins ==> schema.relation(name) == Some(joins[name])))
  {
    TranslateAccepts(schema, tree);
    AllSearchable(schema, Idents(tree));
    if AllOk(Idents(tree), Resolving(schema)) { RenamedOk(schema, tree); }
    var (joins, w) := Translate(schema, map[], tree);
    if w.Tree? {
      TranslateIsMap(schema, tree, joins, w);
      forall i | 0 <= i < |Idents(tree)|
        ensures MapNames(Translating(schema), Idents(tree))[i] == MapNames(Becoming(schema), Idents(tree))[i]
      {
        assert SearchableIn(schema)(Idents(tree)[i]);
        FieldByParts(schema, Idents(tree)[i]);
      }
      SameMap(Translating(schema), Becoming(schema), tree);
      forall name
        ensures name in joins <==> exists i :: 0 <= i < |Idents(tree)| && GoesThrough(schema, Idents(tree)[i], name)
      {
        RelationNamesByParts(schema, Idents(tree), name);
      }
    }
  }

  // ---------- what identifiers mean ----------

  /** The value of an identifier: of the resource's own column, of a relation's, or of an arrow expression. */
  lemma {:induction false} MeantByParts<V>(schema: Schema, reading: Reading<V>, field: string)
    ensures var parts := Split(field, '.');
            && (|parts| == 1 ==>
                  Meant(schema, reading, field) ==
                  if Contains(field, "->") then reading.expression(field) else reading.base(field))
            && (|parts| == 2 && parts[0] == schema.table ==> Meant(schema, reading, field) == reading.base(parts[1]))
            && (|parts| == 2 && parts[0] != schema.table && schema.relation(parts[0]).Some? ==>
                  Meant(schema, reading, field) == reading.related(schema.relation(parts[0]).value, parts[1]))
  {
    var parts := Split(field, '.');
    if |parts| == 2 { assert parts[1..] == [parts[1]]; }
  }

  /**
   * A condition on a column behind the resource's own table: it is kept as it is, joins nothing, is refused
   * only if the column is disallowed or has a further dot, and means the resource's column.
   */
  lemma {:induction false} OwnTableSearch<V>(schema: Schema, column: string, text: string, reading: Reading<V>)
    requires PlainSchema(schema) && NoOuterBlanks(column)
    ensures var field := schema.table + "." + column;
            var (joins, w) := Translate(schema, map[], Is(field, text));
            && (w.Tree? <==> '.' !in column && column !in schema.disallowed)
            && (w.Tree? ==> w == Tree(Is(field, text)) && joins == map[])
            && ('.' !in column ==> Meant(schema, reading, field) == reading.base(column))
  {
    var field := schema.table + "." + column;
    QualifiedParts(schema.table, column);
    OnePart(column);
    TrimRightKeepsAll(column);
    IsMapped(Becoming(schema), field, text);
    assert Idents(Is(field, text)) == [field] && [field][0] == field;
    assert AllOk([field], SearchableIn(schema)) <==> Searchable(schema, field);
    AcceptedByParts(schema, Is(field, text));
    MeantByParts(schema, reading, field);
    var joins := Translate(schema, map[], Is(field, text)).0;
    assert forall name :: !GoesThrough(schema, field, name);
    if Translate(schema, map[], Is(field, text)).1.Tree? { assert joins == map[]; }
  }

  lemma TrimRightKeepsAll(column: string)
    requires NoOuterBlanks(column)
    ensures TrimRight(column, ' ') == column
  {
  }
}
