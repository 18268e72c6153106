/**
 * Requests without stars, for structs of any depth: the keys that the validation takes, against those
 * that the projection shows; and a scalar or a time below any number of structs.
 */
module NestedFields {
  import opened Text
  import opened SliceFilter
  import opened RequestedFields
  import GrowingRequests

  // ---------- requests without stars ----------

  /** The key ends with .* */
  predicate Starred(key: string) {
    |key| >= 2 && key[|key| - 2] == '.' && key[|key| - 1] == '*'
  }

  predicate StarFree(keys: set<string>) {
    forall key :: key in keys ==> !Starred(key)
  }

  lemma NoStar(keys: set<string>, prefix: string)
    requires StarFree(keys)
    ensures prefix + ".*" !in keys
  {
    assert Starred(prefix + ".*");
  }

  /** The validation takes the key for the field; prefix is the name of the field's own struct. */
  predicate Takes(f: Field, prefix: string, key: string)
    decreases f
  {
    Tagged(f) &&
    match f.value
    case Time(_) => key == NameOf(f)
    case Record(fields) => SomeTakes(fields, NameOf(f), key)
    case List(_) => NameOf(f) + "." <= key
    case Plain(_) => key == Prefixed(prefix, NameOf(f))
  }

  predicate SomeTakes(fields: seq<Field>, prefix: string, key: string)
    decreases fields
  {
    fields != [] && (Takes(fields[0], prefix, key) || SomeTakes(fields[1..], prefix, key))
  }

  /** No lists at any depth. */
  predicate NoLists(fields: seq<Field>)
    decreases fields
  {
    fields == [] || (NoListIn(fields[0]) && NoLists(fields[1..]))
  }

  predicate NoListIn(f: Field)
    decreases f
  {
    !f.value.List? && (f.value.Record? ==> NoLists(f.value.fields))
  }

  /** The keys that no field takes. */
  function Untaken(fields: seq<Field>, keys: set<string>, prefix: string): set<string> {
    set key | key in keys && !SomeTakes(fields, prefix, key)
  }

  /**
   * For any struct, at any depth, with repeated names and lists: the validation of a request without
   * stars takes exactly the keys that some field takes. Line breaks matter only to lists.
   */
  lemma {:induction false} LeftIsUntaken(fields: seq<Field>, keys: set<string>, prefix: string)
    requires StarFree(keys) && (NoLineBreaks(keys) || NoLists(fields))
    ensures Left(fields, keys, prefix) == Untaken(fields, keys, prefix)
    decreases fields
  {
    if fields != [] {
      LeftOfIsUntaken(fields[0], keys, prefix);
      LeftIsUntaken(fields[1..], LeftOf(fields[0], keys, prefix), prefix);
    }
  }

  lemma {:induction false} LeftOfIsUntaken(f: Field, keys: set<string>, prefix: string)
    requires StarFree(keys) && (NoLineBreaks(keys) || NoListIn(f))
    ensures LeftOf(f, keys, prefix) == set key | key in keys && !Takes(f, prefix, key)
    decreases f
  {
    if Tagged(f) {
      match f.value
      case Record(fields) =>
        NoStar(keys, NameOf(f));
        LeftIsUntaken(fields, keys, NameOf(f));
      case List(_) => UnstarredKeys(keys, NameOf(f));
      case _ =>
    }
  }

  /**
   * A single requested name, for any item: it is accepted if and only if some field takes it, and it
   * shows something if and only if it is one of the keys that each show a field.
   */
  lemma OneName(fields: seq<Field>, key: string)
    requires !Starred(key) && ('\n' !in key || NoLists(fields))
    ensures Left(fields, {key}, "") == {} <==> SomeTakes(fields, "", key)
    ensures Project(fields, {key}, "") != map[] <==> key in GrowingRequests.TriggersOf(fields, "")
  {
    var request := {key};
    LeftIsUntaken(fields, request, "");
    assert Untaken(fields, request, "") == if SomeTakes(fields, "", key) then {} else request;
    GrowingRequests.ShownIffOf(fields, request, "");
    var shows := GrowingRequests.TriggersOf(fields, "");
    assert shows * request == if key in shows then request else {};
    assert key in request && request != {};
  }

  /**
   * A request without stars is accepted if and only if some field of the first item takes each of its
   * names; else the error lists the others.
   */
  lemma AcceptedIffTaken(m: ListModel, keys: set<string>)
    requires m.items != [] && StarFree(keys) && (NoLineBreaks(keys) || NoLists(m.items[0].fields))
    ensures Filtered(keys, m).Ok? <==> forall key :: key in keys ==> SomeTakes(m.items[0].fields, "", key)
    ensures !Filtered(keys, m).Ok? ==> Filtered(keys, m) == Unknown(Untaken(m.items[0].fields, keys, ""))
  {
    LeftIsUntaken(m.items[0].fields, keys, "");
    if key :| key in keys && !SomeTakes(m.items[0].fields, "", key) {
      assert key in Untaken(m.items[0].fields, keys, "");
    }
  }

  // ---------- a field below structs ----------

  /** The leaf inside structs of these names, the outermost first. */
  function Nest(names: seq<string>, leaf: Field): Field {
    if names == [] then leaf else Field(names[0], Record([Nest(names[1..], leaf)]))
  }

  /** What a projection that shows the leaf looks like. */
  function Path(names: seq<string>, leaf: Field): Projection
    requires Leaf(leaf)
  {
    if names == [] then map[NameOf(leaf) := Shown(leaf.value)]
    else map[names[0] := Sub(Path(names[1..], leaf))]
  }

  /** The prefix that the validation has reached at the leaf: the innermost struct's name. */
  function Parent(prefix: string, names: seq<string>): string
    decreases |names|
  {
    if names == [] then prefix else Parent(names[0], names[1..])
  }

  /** The prefix that the projection has reached at the leaf: all names, joined by dots. */
  function FullPrefix(prefix: string, names: seq<string>): string
    decreases |names|
  {
    if names == [] then prefix else FullPrefix(Prefixed(prefix, names[0]), names[1..])
  }

  /** JSON tags that are a name and nothing else. */
  predicate PlainTags(names: seq<string>) {
    forall i :: 0 <= i < |names| ==> names[i] != "" && names[i] != "-" && ',' !in names[i]
  }

  lemma OneField(f: Field, keys: set<string>, prefix: string)
    ensures Left([f], keys, prefix) == LeftOf(f, keys, prefix)
    ensures Project([f], keys, prefix) == Entry(f, keys, prefix)
  {
    assert [f][1..] == [];
    assert Entry(f, keys, prefix) + map[] == Entry(f, keys, prefix);
  }

  lemma OuterName(names: seq<string>, leaf: Field)
    requires names != [] && PlainTags(names)
    ensures Tagged(Nest(names, leaf)) && NameOf(Nest(names, leaf)) == names[0]
    ensures PlainTags(names[1..])
  {
    SplitWhole(names[0], ',');
  }

  /** Only the leaf takes a key, under the name of its innermost struct. */
  lemma {:induction false} NestTakes(names: seq<string>, leaf: Field, prefix: string, key: string)
    requires Leaf(leaf) && Tagged(leaf) && PlainTags(names)
    ensures SomeTakes([Nest(names, leaf)], prefix, key) <==> key == KeyOf(leaf, Parent(prefix, names))
    ensures NoLists([Nest(names, leaf)])
    decreases |names|
  {
    var nest := [Nest(names, leaf)];
    assert nest[1..] == [] && (NoLists(nest) <==> NoListIn(nest[0]));
    if names != [] {
      OuterName(names, leaf);
      NestTakes(names[1..], leaf, names[0], key);
    }
  }

  /** A request without stars loses, in the validation, exactly the leaf's name below its innermost struct. */
  lemma NestLeft(names: seq<string>, leaf: Field, keys: set<string>, prefix: string)
    requires Leaf(leaf) && Tagged(leaf) && PlainTags(names) && StarFree(keys)
    ensures Left([Nest(names, leaf)], keys, prefix) == keys - {KeyOf(leaf, Parent(prefix, names))}
  {
    forall key ensures SomeTakes([Nest(names, leaf)], prefix, key) <==> key == KeyOf(leaf, Parent(prefix, names)) {
      NestTakes(names, leaf, prefix, key);
    }
    NestTakes(names, leaf, prefix, "");
    LeftIsUntaken([Nest(names, leaf)], keys, prefix);
  }

  lemma NonEmptyPath(names: seq<string>, leaf: Field)
    requires Leaf(leaf)
    ensures Path(names, leaf) != map[]
  {
    assert (if names == [] then NameOf(leaf) else names[0]) in Path(names, leaf);
  }

  /** The projection shows the leaf exactly if it is requested by its name below all its structs. */
  lemma {:induction false} NestProject(names: seq<string>, leaf: Field, keys: set<string>, prefix: string)
    requires Leaf(leaf) && Tagged(leaf) && PlainTags(names) && StarFree(keys)
    ensures Project([Nest(names, leaf)], keys, prefix) ==
            if KeyOf(leaf, FullPrefix(prefix, names)) in keys then Path(names, leaf) else map[]
    decreases |names|
  {
    OneField(Nest(names, leaf), keys, prefix);
    if names == [] {
      NoStar(keys, prefix);
    } else {
      OuterName(names, leaf);
      NestProject(names[1..], leaf, keys, Prefixed(prefix, names[0]));
      NonEmptyPath(names[1..], leaf);
    }
  }

  lemma {:induction false} ParentIsLast(prefix: string, other: string, names: seq<string>)
    requires names != []
    ensures Parent(prefix, names) == Parent(other, names)
  {
  }

  /** Below two structs or more the full prefix is longer than the innermost name. */
  lemma {:induction false} FullIsLonger(prefix: string, names: seq<string>)
    requires prefix != "" && names != []
    ensures |FullPrefix(prefix, names)| > |Parent(prefix, names)|
    decreases |names|
  {
    if |names| > 1 {
      FullIsLonger(Prefixed(prefix, names[0]), names[1..]);
      ParentIsLast(Prefixed(prefix, names[0]), names[0], names[1..]);
    } else {
      assert names[1..] == [];
    }
  }

  /** The two walks name the leaf alike exactly if it is a time or has at most one struct around it. */
  lemma SameNameIffShallow(names: seq<string>, leaf: Field)
    requires Leaf(leaf) && PlainTags(names)
    ensures KeyOf(leaf, Parent("", names)) == KeyOf(leaf, FullPrefix("", names)) <==> leaf.value.Time? || |names| <= 1
  {
    if |names| > 1 {
      assert FullPrefix("", names) == FullPrefix(names[0], names[1..]);
      FullIsLonger(names[0], names[1..]);
    } else if |names| == 1 {
      assert names[1..] == [];
    }
  }

  /**
   * At every depth: a request without stars that is accepted and not empty is the leaf's name below
   * its innermost struct, and it shows the leaf if and only if the leaf is a time or lies at most one
   * struct deep. Deeper down the name that would show the leaf is refused.
   */
  lemma {:induction false} AcceptedNameShowsIffShallow(names: seq<string>, leaf: Field, keys: set<string>)
    requires Leaf(leaf) && Tagged(leaf) && PlainTags(names) && StarFree(keys) && keys != {}
    ensures Left([Nest(names, leaf)], keys, "") == {} <==> keys == {KeyOf(leaf, Parent("", names))}
    ensures Left([Nest(names, leaf)], keys, "") == {} ==>
              (Project([Nest(names, leaf)], keys, "") == Path(names, leaf) <==> leaf.value.Time? || |names| <= 1)
    ensures Project([Nest(names, leaf)], keys, "") == Path(names, leaf) <==> KeyOf(leaf, FullPrefix("", names)) in keys
    ensures KeyOf(leaf, FullPrefix("", names)) in keys && Left([Nest(names, leaf)], keys, "") == {} ==>
              leaf.value.Time? || |names| <= 1
  {
    NestLeft(names, leaf, keys, "");
    NestProject(names, leaf, keys, "");
    NonEmptyPath(names, leaf);
    SameNameIffShallow(names, leaf);
    var key :| key in keys;
    assert keys == (keys - {KeyOf(leaf, Parent("", names))}) + (keys * {KeyOf(leaf, Parent("", names))});
  }

  // ---------- an instance ----------

  const LEAF := Field("c", Plain("1"))
  const DEEP := Field("a", Record([Field("b", Record([LEAF]))]))

  lemma DeepIsNested()
    ensures Nest(["a", "b"], LEAF) == DEEP && PlainTags(["a", "b"])
    ensures Parent("", ["a", "b"]) == "b" && FullPrefix("", ["a", "b"]) == "a.b"
  {
    assert ["a", "b"][1..] == ["b"] && ["b"][1..] == [];
    assert Nest(["b"], LEAF) == Field("b", Record([LEAF]));
    assert Parent("", ["a", "b"]) == Parent("a", ["b"]) == Parent("b", []);
    assert FullPrefix("", ["a", "b"]) == FullPrefix("a", ["b"]) == FullPrefix("a.b", []);
  }

  lemma DeepWalks(names: seq<string>, leaf: Field, deep: Field, keys: set<string>)
    requires Nest(names, leaf) == deep && PlainTags(names) && StarFree(keys)
    requires Leaf(leaf) && Tagged(leaf) && leaf.value.Plain? && NameOf(leaf) == "c"
    requires Parent("", names) == "b" && FullPrefix("", names) == "a.b"
    ensures Left([deep], keys, "") == keys - {"b.c"}
    ensures Project([deep], keys, "") != map[] <==> "a.b.c" in keys
  {
    assert Prefixed("b", "c") == "b.c" && Prefixed("a.b", "c") == "a.b.c";
    NestLeft(names, leaf, keys, "");
    NestProject(names, leaf, keys, "");
    NonEmptyPath(names, leaf);
  }

  /** Of a scalar a.b.c the accepted name is b.c and shows nothing; a.b.c would show it and is refused. */
  lemma DeepNamesDisagree()
    ensures Left([DEEP], {"b.c"}, "") == {} && Project([DEEP], {"b.c"}, "") == map[]
    ensures Left([DEEP], {"a.b.c"}, "") != {} && Project([DEEP], {"a.b.c"}, "") != map[]
  {
    assert !Starred("b.c") && !Starred("a.b.c") && |"b.c"| != |"a.b.c"|;
    DeepIsNested();
    SplitWhole("c", ',');
    DeepWalks(["a", "b"], LEAF, DEEP, {"b.c"});
    DeepWalks(["a", "b"], LEAF, DEEP, {"a.b.c"});
    assert "a.b.c" in Left([DEEP], {"a.b.c"}, "");
  }
}
