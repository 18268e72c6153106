/** What a projection keeps of a nested item, and when a request is accepted. */
module Projections {
  import opened Text
  import opened SliceFilter

  // ---------- sub-records ----------

  /** A field without a JSON name is neither validated nor shown. */
  lemma UnnamedIsSkipped(f: Field, keys: set<string>, prefix: string)
    requires f.tag == "" || f.tag == "-"
    ensures LeftOf(f, keys, prefix) == keys && Entry(f, keys, prefix) == map[]
  {
  }

  /** Every key is a field's JSON name and shows that field's value: nothing is invented. */
  ghost predicate PartOf(m: Projection, fields: seq<Field>)
    decreases fields
  {
    forall key :: key in m ==>
      exists i :: 0 <= i < |fields| && Tagged(fields[i]) && NameOf(fields[i]) == key && Shows(m[key], fields[i].value)
  }

  ghost predicate Shows(o: Out, v: Value)
    decreases v
  {
    match v
    case Plain(text) => o == Kept(text)
    case Time(text) => o == Formatted(text)
    case Record(fields) => o.Sub? && o.fields != map[] && PartOf(o.fields, fields)
    case List(items) => o.Subs? && o.items != [] && ItemsShow(o.items, items)
  }

  /** The items of a list that are kept are its first ones. */
  ghost predicate ItemsShow(outs: seq<Out>, items: seq<Struct>)
    decreases items
  {
    |outs| <= |items| && forall i :: 0 <= i < |outs| ==>
      outs[i].Sub? && outs[i].fields != map[] && PartOf(outs[i].fields, items[i].fields)
  }

  ghost predicate EntryOf(e: Projection, f: Field) {
    forall key :: key in e ==> Tagged(f) && key == NameOf(f) && Shows(e[key], f.value)
  }

  lemma {:induction false} PartOfBoth(fields: seq<Field>, e: Projection, rest: Projection)
    requires fields != [] && EntryOf(e, fields[0]) && PartOf(rest, fields[1..])
    ensures PartOf(e + rest, fields)
  {
    var m := e + rest;
    forall key | key in m
      ensures exists i :: 0 <= i < |fields| && Tagged(fields[i]) && NameOf(fields[i]) == key && Shows(m[key], fields[i].value)
    {
      if key in rest {
        var i :| 0 <= i < |fields[1..]| && Tagged(fields[1..][i]) && NameOf(fields[1..][i]) == key
                 && Shows(rest[key], fields[1..][i].value);
        assert fields[i + 1] == fields[1..][i];
      } else {
        assert m[key] == e[key] && NameOf(fields[0]) == key;
      }
    }
  }

  /** A projection is a sub-record of the item, at every depth. */
  lemma {:induction false} ProjectIsPart(fields: seq<Field>, keys: set<string>, prefix: string)
    ensures PartOf(Project(fields, keys, prefix), fields)
    decreases fields, 0
  {
    if fields != [] {
      ProjectIsPart(fields[1..], keys, prefix);
      EntryShows(fields[0], keys, prefix);
      PartOfBoth(fields, Entry(fields[0], keys, prefix), Project(fields[1..], keys, prefix));
    }
  }

  lemma {:induction false} EntryShows(f: Field, keys: set<string>, prefix: string)
    ensures EntryOf(Entry(f, keys, prefix), f)
    decreases f, 1
  {
    match f.value
    case Record(fields) => ProjectIsPart(fields, keys, Prefixed(prefix, NameOf(f)));
    case List(items) => ItemsArePart(items, keys, NameOf(f));
    case _ =>
  }

  lemma {:induction false} ItemsArePart(items: seq<Struct>, keys: set<string>, name: string)
    ensures ItemsShow(ProjectItems(items, keys, name), items)
    decreases items, 1
  {
    if items != [] && Project(items[0].fields, keys, name) != map[] {
      ProjectIsPart(items[0].fields, keys, name);
      ItemsArePart(items[1..], keys, name);
      MoreItemsShow(Project(items[0].fields, keys, name), ProjectItems(items[1..], keys, name), items);
    }
  }

  lemma {:induction false} MoreItemsShow(m: Projection, outs: seq<Out>, items: seq<Struct>)
    requires items != [] && m != map[] && PartOf(m, items[0].fields) && ItemsShow(outs, items[1..])
    ensures ItemsShow([Sub(m)] + outs, items)
  {
    var all := [Sub(m)] + outs;
    forall i | 0 <= i < |all| ensures all[i].Sub? && all[i].fields != map[] && PartOf(all[i].fields, items[i].fields) {
      if i > 0 { assert all[i] == outs[i - 1] && items[1..][i - 1] == items[i]; }
    }
  }

  /** The items that are kept are all items before the first one of which nothing is kept. */
  lemma {:induction false} ItemsStopAtFirstEmpty(items: seq<Struct>, keys: set<string>, name: string)
    ensures var outs := ProjectItems(items, keys, name);
            && |outs| <= |items|
            && (forall i :: 0 <= i < |outs| ==>
                  outs[i] == Sub(Project(items[i].fields, keys, name)) && Project(items[i].fields, keys, name) != map[])
            && (|outs| < |items| ==> Project(items[|outs|].fields, keys, name) == map[])
  {
    if items != [] && Project(items[0].fields, keys, name) != map[] {
      ItemsStopAtFirstEmpty(items[1..], keys, name);
      assert forall i :: 0 <= i < |items[1..]| ==> items[1..][i] == items[i + 1];
    }
  }

  // ---------- larger requests ----------

  /** The second value has everything that the first one has. */
  predicate Within(o: Out, p: Out)
    decreases o
  {
    match o
    case Sub(fields) => p.Sub? && forall key :: key in fields ==> key in p.fields && Within(fields[key], p.fields[key])
    case Subs(items) => p.Subs? && |items| <= |p.items| && forall i :: 0 <= i < |items| ==> Within(items[i], p.items[i])
    case _ => o == p
  }

  predicate MapWithin(m: Projection, m': Projection) {
    forall key :: key in m ==> key in m' && Within(m[key], m'[key])
  }

  /** No two fields of a struct, at any depth, have the same JSON name. */
  predicate DistinctNames(fields: seq<Field>)
    decreases fields
  {
    && (forall i, j :: 0 <= i < j < |fields| && Tagged(fields[i]) && Tagged(fields[j]) ==> NameOf(fields[i]) != NameOf(fields[j]))
    && (forall i :: 0 <= i < |fields| ==> DistinctBelow(fields[i]))
  }

  predicate DistinctBelow(f: Field)
    decreases f
  {
    match f.value
    case Record(fields) => DistinctNames(fields)
    case List(items) => forall i :: 0 <= i < |items| ==> DistinctNames(items[i].fields)
    case _ => true
  }

  /** Whatever the names, a larger request keeps every name; it may show another field under it. */
  lemma {:induction false} ProjectKeysGrow(fields: seq<Field>, keys: set<string>, keys': set<string>, prefix: string)
    requires keys <= keys'
    ensures Project(fields, keys, prefix).Keys <= Project(fields, keys', prefix).Keys
    ensures Project(fields, keys, prefix) != map[] ==> Project(fields, keys', prefix) != map[]
    decreases fields, 0
  {
    if fields != [] {
      EntryKeysGrow(fields[0], keys, keys', prefix);
      ProjectKeysGrow(fields[1..], keys, keys', prefix);
    }
    NonEmptyGrows(Project(fields, keys, prefix), Project(fields, keys', prefix));
  }

  lemma {:induction false} EntryKeysGrow(f: Field, keys: set<string>, keys': set<string>, prefix: string)
    requires keys <= keys'
    ensures Entry(f, keys, prefix).Keys <= Entry(f, keys', prefix).Keys
    decreases f, 1
  {
    match f.value
    case Record(sub) => ProjectKeysGrow(sub, keys, keys', Prefixed(prefix, NameOf(f)));
    case List(items) =>
      if items != [] { ProjectKeysGrow(items[0].fields, keys, keys', NameOf(f)); }
    case _ =>
  }

  lemma NonEmptyGrows(m: Projection, m': Projection)
    requires m.Keys <= m'.Keys
    ensures m != map[] ==> m' != map[]
  {
    if m != map[] {
      var key :| key in m.Keys;
      assert key in m'.Keys;
    }
  }

  lemma ProjectMore(f: Field, rest: seq<Field>, keys: set<string>, prefix: string)
    ensures Project([f] + rest, keys, prefix) == Entry(f, keys, prefix) + Project(rest, keys, prefix)
  {
    assert ([f] + rest)[1..] == rest;
  }

  const NESTED := Field("a", Plain("2"))
  const SCALAR := Field("x", Plain("1"))
  const STRUCT := Field("x", Record([NESTED] + []))

  lemma ProjectDuplicates(keys: set<string>)
    requires ".*" !in keys && "x.*" !in keys
    ensures Project([SCALAR] + [STRUCT], keys, "") ==
            if "x.a" in keys then map["x" := Sub(map["a" := Kept("2")])]
            else if "x" in keys then map["x" := Kept("1")] else map[]
  {
    SplitWhole("x", ',');
    SplitWhole("a", ',');
    assert Prefixed("x", "a") == "x.a" && Prefixed("", "x") == "x" && "x" + ".*" == "x.*" && "" + ".*" == ".*";
    ProjectMore(NESTED, [], keys, "x");
    assert Entry(NESTED, keys, "x") == if "x.a" in keys then map["a" := Kept("2")] else map[];
    var sub := Project([NESTED] + [], keys, "x");
    assert sub == Entry(NESTED, keys, "x");
    assert "x.a" in keys ==> "a" in sub;
    assert Entry(STRUCT, keys, "") == if "x.a" in keys then map["x" := Sub(map["a" := Kept("2")])] else map[];
    ProjectMore(STRUCT, [], keys, "");
    ProjectMore(SCALAR, [STRUCT], keys, "");
    assert [STRUCT] + [] == [STRUCT];
  }

  /** With two fields of one name a larger request can replace what a smaller one showed. */
  lemma DuplicateNamesReplace()
    ensures var fields := [SCALAR] + [STRUCT];
            !MapWithin(Project(fields, {"x"}, ""), Project(fields, {"x", "x.a"}, ""))
  {
    assert "x" != "x.a" && ".*" != "x" && "x.*" != "x" && ".*" != "x.a";
    assert "x.*"[2] != "x.a"[2];
    ProjectDuplicates({"x"});
    ProjectDuplicates({"x", "x.a"});
    assert Project([SCALAR] + [STRUCT], {"x"}, "")["x"] == Kept("1");
  }
}
