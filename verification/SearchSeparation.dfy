/** The names of a search have to be separate: for any other accepted search its translation can change its value. */
module SearchSeparation {
  import opened Wrappers
  import opened Text
  import opened TslTree
  import opened FieldNames
  import opened Search
  import opened SearchJoins
  import opened SearchMeaning

  // ---------- a meaning of operators that keeps everything ----------

  /** A meaning of operators and literals under which a filter's value lists the values of its identifiers. */
  function Listing(): (Head, seq<seq<nat>>) -> seq<nat> {
    (head, values) => Flat(values)
  }

  function Flat(values: seq<seq<nat>>): seq<nat> {
    if values == [] then [] else values[0] + Flat(values[1..])
  }

  function Listed(read: string -> seq<nat>, names: seq<string>): seq<nat> {
    if names == [] then [] else read(names[0]) + Listed(read, names[1..])
  }

  lemma {:induction false} ListedBoth(read: string -> seq<nat>, a: seq<string>, b: seq<string>)
    ensures Listed(read, a + b) == Listed(read, a) + Listed(read, b)
  {
    var ab := a + b;
    if a == [] {
      assert ab == b;
    } else {
      var first, rest := read(a[0]), Listed(read, a[1..]);
      ListedBoth(read, a[1..], b);
      assert ab[0] == a[0] && ab[1..] == a[1..] + b;
      assert Listed(read, ab) == first + (rest + Listed(read, b)) == (first + rest) + Listed(read, b);
    }
  }

  lemma {:induction false} ValueIsListed(read: string -> seq<nat>, n: Node)
    requires Parsed(n)
    ensures Value(Listing(), read, n) == Listed(read, Idents(n))
    decreases n
  {
    if n.func == IdentOp {
      assert Idents(n) == [n.left.text] && [n.left.text][1..] == [];
    } else if n.func.Operator? {
      ValueIsListed(read, n.left.node);
      var v := Value(Listing(), read, n.left.node);
      match n.right {
        case One(r) =>
          ValueIsListed(read, r);
          FlatMore(v, [Value(Listing(), read, r)]);
          FlatMore(Value(Listing(), read, r), []);
          ListedBoth(read, Idents(n.left.node), Idents(r));
        case Many(rs) =>
          ValuesAreListed(read, rs);
          FlatMore(v, Values(Listing(), read, rs));
          ListedBoth(read, Idents(n.left.node), AllIdents(rs));
        case _ =>
          FlatMore(v, []);
          assert Idents(n) == Idents(n.left.node);
      }
    }
  }

  lemma FlatMore(first: seq<nat>, rest: seq<seq<nat>>)
    ensures Flat([first] + rest) == first + Flat(rest)
    ensures rest == [] ==> Flat([first]) == first
  {
    assert ([first] + rest)[1..] == rest;
    assert [first] + [] == [first] && first + [] == first;
  }

  lemma {:induction false} ValuesAreListed(read: string -> seq<nat>, ns: seq<Node>)
    requires AllParsed(ns)
    ensures Flat(Values(Listing(), read, ns)) == Listed(read, AllIdents(ns))
    decreases ns
  {
    if ns != [] {
      ValueIsListed(read, ns[0]);
      ValuesAreListed(read, ns[1..]);
      ListedBoth(read, Idents(ns[0]), AllIdents(ns[1..]));
      assert Values(Listing(), read, ns)[1..] == Values(Listing(), read, ns[1..]);
    }
  }

  predicate OneEach(read: string -> seq<nat>, names: seq<string>) {
    forall i :: 0 <= i < |names| ==> |read(names[i])| == 1
  }

  lemma {:induction false} ListedAt(read: string -> seq<nat>, names: seq<string>, i: nat)
    requires OneEach(read, names) && i < |names|
    ensures |Listed(read, names)| == |names| && Listed(read, names)[i] == read(names[i])[0]
    decreases |names|
  {
    forall j | 0 <= j < |names[1..]| ensures |read(names[1..][j])| == 1 { assert names[1..][j] == names[j + 1]; }
    if |names| == 1 {
      assert names[1..] == [];
    } else {
      ListedAt(read, names[1..], if i == 0 then 0 else i - 1);
    }
  }

  // ---------- orders ----------

  lemma {:induction false} SomeOrder(keys: set<string>) returns (order: seq<string>)
    ensures Enumerates(order, keys)
    decreases keys
  {
    order := [];
    if keys != {} {
      var key :| key in keys;
      order := OrderFrom(keys, key);
    }
  }

  lemma {:induction false} OrderFrom(keys: set<string>, first: string) returns (order: seq<string>)
    requires first in keys
    ensures Enumerates(order, keys) && order[0] == first
    decreases keys, 0
  {
    var rest := SomeOrder(keys - {first});
    order := [first] + rest;
  }

  // ---------- what goes wrong ----------

  lemma {:induction false} FieldOfRelation(schema: Schema, fields: seq<string>, name: string) returns (i: nat)
    requires name in RelationNames(schema, fields)
    ensures i < |fields| && RelationOf(schema, fields[i]) == Some(name)
  {
    if RelationOf(schema, fields[0]) == Some(name) {
      i := 0;
    } else {
      i := FieldOfRelation(schema, fields[1..], name);
      i := i + 1;
    }
  }

  /** How SQL reads an identifier that went through a relation. */
  lemma SelectedThroughRelation<V>(schema: Schema, rs: seq<TableRelation>, reading: Reading<V>, field: string, r: TableRelation)
    requires PlainSchema(schema) && Resolves(schema, field) && NoOuterBlanks(field)
    requires RelationOf(schema, field).Some? && schema.relation(RelationOf(schema, field).value) == Some(r)
    ensures Selected(schema.table, rs, reading, Translated(schema, field)) ==
            if r.foreignTableName == schema.table then reading.base(ColumnOf(field))
            else if JoinOf(rs, r.foreignTableName).Some? then reading.related(JoinOf(rs, r.foreignTableName).value, ColumnOf(field))
            else reading.missing
    ensures Meant(schema, reading, field) == reading.related(r, ColumnOf(field))
  {
    RenameHasNoOuterBlanks(schema, field);
    RenameQualifies(schema, field);
    RenamedColumn(r.foreignTableName, ColumnOf(field));
  }

  /** A reading that tells one relation from everything else. */
  function Telling(r: TableRelation): Reading<seq<nat>> {
    Reading(column => [0], text => [0], (r': TableRelation, column: string) => if r' == r then [1] else [0], [0])
  }

  /** The order and the relation that show that the names are not separate. */
  lemma WrongJoin(schema: Schema, joins: Joins, included: set<string>) returns (order: seq<string>, name: string)
    requires !Separate(schema, joins, included)
    ensures Enumerates(order, joins.Keys) && name in joins
    ensures joins[name].foreignTableName != schema.table ==>
              JoinOf(Emitted(order, joins, included), joins[name].foreignTableName) != Some(joins[name])
  {
    var first :| first in joins &&
      !(joins[first].foreignTableName != schema.table && joins[first].foreignTableName !in included &&
        forall other :: other in joins && joins[other].foreignTableName == joins[first].foreignTableName ==>
          joins[other] == joins[first]);
    var table := joins[first].foreignTableName;
    order := OrderFrom(joins.Keys, first);
    name := first;
    var rs := Emitted(order, joins, included);
    if table in included {
      EmittedOnce(order, joins, included);
      JoinOfMember(rs, table);
    } else if table != schema.table {
      name :| name in joins && joins[name].foreignTableName == table && joins[name] != joins[first];
      assert rs[0] == joins[first];
    }
  }

  lemma TellingReadsOnce(schema: Schema, rs: seq<TableRelation>, r: TableRelation, name: string)
    ensures |Selecting(schema.table, rs, Telling(r))(name)| == 1
    ensures |Meaning(schema, Telling(r))(name)| == 1
  {
  }

  lemma {:induction false} ListedDiffer(
      read: string -> seq<nat>, read': string -> seq<nat>, f: string -> string, names: seq<string>, i: nat)
    requires OneEach(read, MapNames(f, names)) && OneEach(read', names)
    requires i < |names| && read(f(names[i])) != read'(names[i])
    ensures Listed(read, MapNames(f, names)) != Listed(read', names)
  {
    ListedAt(read, MapNames(f, names), i);
    ListedAt(read', names, i);
    assert |read(MapNames(f, names)[i])| == 1;
  }

  lemma {:induction false} ValuesDiffer(
      schema: Schema, rs: seq<TableRelation>, r: TableRelation, tree: Node, i: nat, f: string -> string)
    requires Parsed(tree) && i < |Idents(tree)|
    requires Selected(schema.table, rs, Telling(r), f(Idents(tree)[i])) != Meant(schema, Telling(r), Idents(tree)[i])
    ensures !SameValue(schema, rs, Listing(), Telling(r), Map(f, tree), tree)
  {
    var names := Idents(tree);
    var read, read' := Selecting(schema.table, rs, Telling(r)), Meaning(schema, Telling(r));
    forall j | 0 <= j < |names| ensures |read(MapNames(f, names)[j])| == 1 && |read'(names[j])| == 1 {
      TellingReadsOnce(schema, rs, r, f(names[j]));
      TellingReadsOnce(schema, rs, r, names[j]);
    }
    MapKeepsShape(f, tree);
    IdentsOfMap(f, tree);
    ValueIsListed(read, Map(f, tree));
    ValueIsListed(read', tree);
    ListedDiffer(read, read', f, names, i);
  }

  lemma NameDiffers(schema: Schema, rs: seq<TableRelation>, r: TableRelation, field: string)
    requires PlainSchema(schema) && Resolves(schema, field) && NoOuterBlanks(field)
    requires RelationOf(schema, field).Some? && schema.relation(RelationOf(schema, field).value) == Some(r)
    requires r.foreignTableName != schema.table ==> JoinOf(rs, r.foreignTableName) != Some(r)
    ensures Selected(schema.table, rs, Telling(r), Translated(schema, field)) != Meant(schema, Telling(r), field)
  {
    SelectedThroughRelation(schema, rs, Telling(r), field, r);
  }

  /** A relation and an identifier that show that the names are not separate. */
  lemma {:induction false} Witness(schema: Schema, names: seq<string>, joins: Joins, included: set<string>)
      returns (order: seq<string>, r: TableRelation, i: nat)
    requires PlainSchema(schema) && AllOk(names, Resolving(schema)) && AllOk(names, WithoutOuterBlanks())
    requires JoinsFit(schema, joins) && joins.Keys == RelationNames(schema, names)
    requires !Separate(schema, joins, included)
    ensures Enumerates(order, joins.Keys) && i < |names|
    ensures Selected(schema.table, Emitted(order, joins, included), Telling(r), Translated(schema, names[i]))
            != Meant(schema, Telling(r), names[i])
  {
    var name;
    order, name := WrongJoin(schema, joins, included);
    r := joins[name];
    i := FieldOfRelation(schema, names, name);
    assert Resolving(schema)(names[i]) && WithoutOuterBlanks()(names[i]);
    NameDiffers(schema, Emitted(order, joins, included), r, names[i]);
  }

  /**
   * The translation of an accepted search keeps its value, on every row and for every order of the
   * joins, if and only if its names are separate.
   */
  lemma {:induction false} PreservedIffSeparate(schema: Schema, tree: Node, joins: Joins, w: Walked, included: set<string>)
    requires Parsed(tree) && PlainSchema(schema) && AllOk(Idents(tree), WithoutOuterBlanks())
    requires Translate(schema, map[], tree) == (joins, w) && w.Tree?
    ensures Separate(schema, joins, included) <==>
            forall order, reading: Reading<seq<nat>> :: Enumerates(order, joins.Keys) ==>
              SameValue(schema, Emitted(order, joins, included), Listing(), reading, w.node, tree)
  {
    if Separate(schema, joins, included) {
      forall order, reading: Reading<seq<nat>> | Enumerates(order, joins.Keys)
        ensures SameValue(schema, Emitted(order, joins, included), Listing(), reading, w.node, tree)
      {
        MeaningIsPreserved(schema, tree, joins, w, included, order, Listing(), reading);
      }
    } else {
      TranslateIsMap(schema, tree, joins, w);
      var order, r, i := Witness(schema, Idents(tree), joins, included);
      ValuesDiffer(schema, Emitted(order, joins, included), r, tree, i, Translating(schema));
    }
  }

  // ---------- an instance ----------

  const VIA_A := TableRelation("d", "a_id", "t", "id")
  const VIA_B := TableRelation("d", "b_id", "t", "id")

  function ViaAOrB(name: string): Option<TableRelation> {
    if name == "a" then Some(VIA_A) else if name == "b" then Some(VIA_B) else None
  }

  /** Table d refers to table t twice. */
  function TwoWays(): Schema {
    Schema("d", name => ViaAOrB(name), {})
  }

  function And(left: Node, right: Node): Node {
    Node(Operator("and"), Child(left), One(right))
  }

  lemma SplitPair(table: string, column: string)
    requires '.' !in table && '.' !in column
    ensures Split(table + "." + column, '.') == [table, column]
  {
    QualifiedParts(table, column);
    SplitWhole(column, '.');
  }

  lemma ThroughRelation(name: string, field: string, renamed: string)
    requires (name == "a" || name == "b") && field == name + "." + "x" && renamed == "t" + "." + "x"
    ensures RelationOf(TwoWays(), field) == Some(name) && Resolves(TwoWays(), field)
    ensures Translated(TwoWays(), field) == renamed && FieldOk(Rename(TwoWays(), field), {})
    ensures NoOuterBlanks(field)
  {
    SplitPair(name, "x");
    SplitPair("t", "x");
    TrimKeeps(renamed);
    JoinFirst("t", ["x"]);
    assert [name, "x"][1..] == ["x"];
  }

  lemma AndMapped(f: string -> string, a: string, b: string, v: string, w: string)
    ensures Map(f, And(Is(a, v), Is(b, w))) == And(Is(f(a), v), Is(f(b), w))
    ensures Idents(And(Is(a, v), Is(b, w))) == [a, b]
    ensures Parsed(And(Is(a, v), Is(b, w))) && Plain(And(Is(a, v), Is(b, w)))
  {
    IsMapped(f, a, v);
    IsMapped(f, b, w);
  }

  /** Conditions on two fields are translated by translating the fields. */
  lemma {:induction false} TranslatesBoth(schema: Schema, a: string, b: string, v: string, w: string)
    requires PlainSchema(schema) && Resolves(schema, a) && Resolves(schema, b)
    requires FieldOk(Rename(schema, a), schema.disallowed) && FieldOk(Rename(schema, b), schema.disallowed)
    ensures Translate(schema, map[], And(Is(a, v), Is(b, w))).1 ==
            Tree(And(Is(Translated(schema, a), v), Is(Translated(schema, b), w)))
  {
    var tree := And(Is(a, v), Is(b, w));
    var renamed := And(Is(Rename(schema, a), v), Is(Rename(schema, b), w));
    AndMapped(Renaming(schema), a, b, v, w);
    AndMapped(Trimming(), Rename(schema, a), Rename(schema, b), v, w);
    RenamedIsNoProperty(schema, a);
    RenamedIsNoProperty(schema, b);
    NothingToConvert(renamed);
    TranslateAccepts(schema, tree);
  }

  /** a.x = '1' and b.x = '2': both identifiers become t.x, of which SQL knows one value only. */
  lemma {:induction false} TwoRelationsToOneTable(included: set<string>)
    ensures var tree := And(Is("a.x", "1"), Is("b.x", "2"));
            var (joins, w) := Translate(TwoWays(), map[], tree);
            && Parsed(tree) && PlainSchema(TwoWays()) && AllOk(Idents(tree), WithoutOuterBlanks())
            && joins == map["a" := VIA_A, "b" := VIA_B] && w == Tree(And(Is("t.x", "1"), Is("t.x", "2")))
            && !Separate(TwoWays(), joins, included)
            && exists order, reading: Reading<seq<nat>> :: Enumerates(order, joins.Keys) &&
                 !SameValue(TwoWays(), Emitted(order, joins, included), Listing(), reading, w.node, tree)
  {
    InstanceIsTranslated("a.x", "b.x", "t.x");
    var tree := And(Is("a.x", "1"), Is("b.x", "2"));
    var (joins, w) := Translate(TwoWays(), map[], tree);
    assert joins["a"] != joins["b"];
    PreservedIffSeparate(TwoWays(), tree, joins, w, included);
  }

  lemma {:induction false} InstanceIsTranslated(a: string, b: string, t: string)
    requires a == "a" + "." + "x" && b == "b" + "." + "x" && t == "t" + "." + "x"
    ensures var tree := And(Is(a, "1"), Is(b, "2"));
            && Parsed(tree) && AllOk(Idents(tree), WithoutOuterBlanks())
            && Translate(TwoWays(), map[], tree) ==
               (map["a" := VIA_A, "b" := VIA_B], Tree(And(Is(t, "1"), Is(t, "2"))))
  {
    var tree := And(Is(a, "1"), Is(b, "2"));
    ThroughRelation("a", a, t);
    ThroughRelation("b", b, t);
    AndMapped(Trimming(), a, b, "1", "2");
    TranslatesBoth(TwoWays(), a, b, "1", "2");
    TranslateFindsRelations(TwoWays(), tree);
    BothRelations(Translate(TwoWays(), map[], tree).0, a, b);
  }

  lemma BothRelations(joins: Joins, a: string, b: string)
    requires JoinsFit(TwoWays(), joins) && joins.Keys == RelationNames(TwoWays(), [a, b])
    requires RelationOf(TwoWays(), a) == Some("a") && RelationOf(TwoWays(), b) == Some("b")
    ensures joins == map["a" := VIA_A, "b" := VIA_B]
  {
    assert [a, b][1..] == [b] && [b][1..] == [];
    assert RelationNames(TwoWays(), [b]) == {"b"};
    assert joins.Keys == {"a", "b"};
  }
}
