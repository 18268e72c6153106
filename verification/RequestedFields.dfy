/** Validation against projection: which requests are accepted, and that what is accepted is shown. */
module RequestedFields {
  import opened Text
  import opened SliceFilter
  import opened Projections

  // ---------- structs of scalars and times ----------

  predicate Leaf(f: Field) {
    f.value.Plain? || f.value.Time?
  }

  predicate Flat(fields: seq<Field>) {
    forall i :: 0 <= i < |fields| && Tagged(fields[i]) ==> Leaf(fields[i])
  }

  /** The key that requests a leaf: a time is named without its prefix. */
  function KeyOf(f: Field, prefix: string): string {
    if f.value.Time? then NameOf(f) else Prefixed(prefix, NameOf(f))
  }

  function KeysOfLeaves(fields: seq<Field>, prefix: string): set<string> {
    set i | 0 <= i < |fields| && Tagged(fields[i]) :: KeyOf(fields[i], prefix)
  }

  function Shown(v: Value): Out
    requires v.Plain? || v.Time?
  {
    if v.Plain? then Kept(v.text) else Formatted(v.formatted)
  }

  lemma LeavesOfRest(fields: seq<Field>, prefix: string)
    requires fields != []
    ensures KeysOfLeaves(fields, prefix) ==
            (if Tagged(fields[0]) then {KeyOf(fields[0], prefix)} else {}) + KeysOfLeaves(fields[1..], prefix)
    ensures Flat(fields) ==> Flat(fields[1..])
  {
    var rest := fields[1..];
    assert forall i :: 0 <= i < |rest| ==> rest[i] == fields[i + 1];
    forall key | key in KeysOfLeaves(fields, prefix)
      ensures (Tagged(fields[0]) && key == KeyOf(fields[0], prefix)) || key in KeysOfLeaves(rest, prefix)
    {
      var i :| 0 <= i < |fields| && Tagged(fields[i]) && key == KeyOf(fields[i], prefix);
      if i > 0 { assert rest[i - 1] == fields[i]; }
    }
  }

  /** The validation of a flat struct consumes exactly the keys of its fields. */
  lemma {:induction false} FlatLeft(fields: seq<Field>, keys: set<string>, prefix: string)
    requires Flat(fields)
    ensures Left(fields, keys, prefix) == keys - KeysOfLeaves(fields, prefix)
    decreases |fields|
  {
    if fields != [] {
      LeavesOfRest(fields, prefix);
      FlatLeft(fields[1..], LeftOf(fields[0], keys, prefix), prefix);
    }
  }

  /** The projection of a flat struct has exactly the requested names. */
  lemma {:induction false} FlatProject(fields: seq<Field>, keys: set<string>)
    requires Flat(fields) && ".*" !in keys
    ensures Project(fields, keys, "").Keys == keys * KeysOfLeaves(fields, "")
    decreases |fields|
  {
    if fields != [] {
      LeavesOfRest(fields, "");
      FlatProject(fields[1..], keys);
      assert "" + ".*" == ".*";
    }
  }

  /** The field that decides about its name: a later one of the same name would replace it. */
  predicate LastNamed(fields: seq<Field>, i: nat) {
    && i < |fields| && Tagged(fields[i])
    && forall j :: i < j < |fields| && Tagged(fields[j]) ==> NameOf(fields[j]) != NameOf(fields[i])
  }

  /** A requested name shows the value of the last field of that name. */
  lemma {:induction false} FlatProjectShows(fields: seq<Field>, keys: set<string>, i: nat)
    requires Flat(fields) && ".*" !in keys && LastNamed(fields, i) && NameOf(fields[i]) in keys
    ensures var p := Project(fields, keys, "");
            NameOf(fields[i]) in p && p[NameOf(fields[i])] == Shown(fields[i].value)
    decreases |fields|
  {
    LeavesOfRest(fields, "");
    var rest := fields[1..];
    assert forall j :: 0 <= j < |rest| ==> rest[j] == fields[j + 1];
    if i > 0 {
      FlatProjectShows(rest, keys, i - 1);
    } else {
      FlatProject(rest, keys);
      assert NameOf(fields[0]) !in KeysOfLeaves(rest, "");
    }
  }

  /**
   * A list of flat items is filtered exactly when every requested name is a field of its first item;
   * then every item of the same names shows exactly the requested ones, with its own values.
   */
  lemma FlatRequests(m: ListModel, keys: set<string>, i: nat)
    requires i < |m.items| && Flat(m.items[0].fields) && Flat(m.items[i].fields)
    requires KeysOfLeaves(m.items[i].fields, "") == KeysOfLeaves(m.items[0].fields, "")
    requires ".*" !in KeysOfLeaves(m.items[0].fields, "")
    ensures Filtered(keys, m).Ok? <==> keys <= KeysOfLeaves(m.items[0].fields, "")
    ensures Filtered(keys, m).Ok? ==> |Filtered(keys, m).list.items| == |m.items|
    ensures Filtered(keys, m).Ok? ==> Filtered(keys, m).list.items[i].Keys == keys
    ensures Filtered(keys, m).Ok? ==>
              forall j: nat :: LastNamed(m.items[i].fields, j) && NameOf(m.items[i].fields[j]) in keys ==>
                Filtered(keys, m).list.items[i][NameOf(m.items[i].fields[j])] == Shown(m.items[i].fields[j].value)
  {
    FlatLeft(m.items[0].fields, keys, "");
    if keys <= KeysOfLeaves(m.items[0].fields, "") {
      var fields := m.items[i].fields;
      FlatProject(fields, keys);
      forall j: nat | LastNamed(fields, j) && NameOf(fields[j]) in keys
        ensures Project(fields, keys, "")[NameOf(fields[j])] == Shown(fields[j].value)
      {
        FlatProjectShows(fields, keys, j);
      }
    }
  }

  // ---------- structs with one level of nesting ----------

  /** Leaves, and structs of leaves. */
  predicate Shallow(fields: seq<Field>) {
    forall i :: 0 <= i < |fields| && Tagged(fields[i]) ==> ShallowField(fields[i])
  }

  predicate ShallowField(f: Field) {
    Leaf(f) || (f.value.Record? && Flat(f.value.fields))
  }

  predicate DotFree(fields: seq<Field>) {
    forall i :: 0 <= i < |fields| && Tagged(fields[i]) ==> '.' !in NameOf(fields[i])
  }

  /** JSON names as Go structs have them: no dots, and no name twice in one struct. */
  predicate CleanNames(fields: seq<Field>) {
    && DotFree(fields)
    && (forall i :: 0 <= i < |fields| && Tagged(fields[i]) && fields[i].value.Record? ==> DotFree(fields[i].value.fields))
    && (forall i, j :: 0 <= i < j < |fields| && Tagged(fields[i]) && Tagged(fields[j]) ==> NameOf(fields[i]) != NameOf(fields[j]))
  }

  predicate NoLineBreaks(keys: set<string>) {
    forall key :: key in keys ==> '\n' !in key
  }

  /** A field accepts its own name; a struct that is requested with a star every key below it, else those of its leaves. */
  predicate Accepts(f: Field, request: set<string>, key: string) {
    if Leaf(f) then key == NameOf(f)
    else if !f.value.Record? then false
    else if NameOf(f) + ".*" in request then NameOf(f) + "." <= key
    else key in KeysOfLeaves(f.value.fields, NameOf(f))
  }

  ghost predicate Accepted(fields: seq<Field>, request: set<string>, key: string) {
    exists i :: 0 <= i < |fields| && Tagged(fields[i]) && Accepts(fields[i], request, key)
  }

  /** The stars of the fields are still where they were. */
  predicate StarsKept(fields: seq<Field>, keys: set<string>, request: set<string>) {
    forall i :: 0 <= i < |fields| && Tagged(fields[i]) && fields[i].value.Record? ==>
      (NameOf(fields[i]) + ".*" in keys <==> NameOf(fields[i]) + ".*" in request)
  }

  lemma ShallowRest(fields: seq<Field>)
    requires fields != [] && Shallow(fields) && CleanNames(fields)
    ensures Shallow(fields[1..]) && CleanNames(fields[1..])
  {
    var rest := fields[1..];
    assert forall i :: 0 <= i < |rest| ==> rest[i] == fields[i + 1];
  }

  lemma AcceptedRest(fields: seq<Field>, request: set<string>, key: string)
    requires fields != []
    ensures Accepted(fields, request, key) <==>
            (Tagged(fields[0]) && Accepts(fields[0], request, key)) || Accepted(fields[1..], request, key)
  {
    var rest := fields[1..];
    assert forall i :: 0 <= i < |rest| ==> rest[i] == fields[i + 1];
    if i :| 0 < i < |fields| && Tagged(fields[i]) && Accepts(fields[i], request, key) {
      assert rest[i - 1] == fields[i];
    }
  }

  lemma HeadOf(name: string, key: string)
    requires '.' !in name && name + "." <= key
    ensures Split(key, '.')[0] == name
  {
    assert key == name + ['.'] + key[|name| + 1..];
    SplitFirst(name, key[|name| + 1..], '.');
  }

  /** A key below one name is not below another one. */
  lemma OneHead(name: string, other: string, key: string)
    requires '.' !in name && '.' !in other && name + "." <= key && other + "." <= key
    ensures name == other
  {
    HeadOf(name, key);
    HeadOf(other, key);
  }

  /** Consuming the keys of one field removes what it accepts, and no star of another field. */
  lemma LeftOfField(f: Field, keys: set<string>, request: set<string>)
    requires Tagged(f) && ShallowField(f) && NoLineBreaks(keys)
    requires f.value.Record? ==> (NameOf(f) + ".*" in keys <==> NameOf(f) + ".*" in request)
    ensures LeftOf(f, keys, "") == set key | key in keys && !Accepts(f, request, key)
  {
    if f.value.Record? {
      UnstarredKeys(keys, NameOf(f));
      FlatLeft(f.value.fields, keys, NameOf(f));
    }
  }

  lemma OtherStarsStay(f: Field, g: Field, request: set<string>)
    requires Tagged(f) && Tagged(g) && ShallowField(f) && g.value.Record?
    requires NameOf(f) != NameOf(g) && '.' !in NameOf(f) && '.' !in NameOf(g)
    requires f.value.Record? ==> DotFree(f.value.fields)
    ensures !Accepts(f, request, NameOf(g) + ".*")
  {
    var star := NameOf(g) + ".*";
    assert star[|NameOf(g)|] == '.' && NameOf(g) + "." <= star;
    if f.value.Record? {
      if NameOf(f) + "." <= star { OneHead(NameOf(f), NameOf(g), star); }
      var sub := f.value.fields;
      forall i | 0 <= i < |sub| && Tagged(sub[i]) ensures KeyOf(sub[i], NameOf(f)) != star {
        LeafIsNoOtherStar(sub[i], NameOf(f), NameOf(g));
      }
    }
  }

  lemma LeafIsNoOtherStar(leaf: Field, prefix: string, name: string)
    requires '.' !in NameOf(leaf) && '.' !in prefix && '.' !in name && prefix != name
    ensures KeyOf(leaf, prefix) != name + ".*"
  {
    var star := name + ".*";
    assert star[|name|] == '.' && name + "." <= star;
    if !leaf.value.Time? && prefix != "" && KeyOf(leaf, prefix) == star {
      assert prefix + "." <= star;
      OneHead(prefix, name, star);
    }
  }

  /** The validation leaves exactly the keys that no field accepts. */
  lemma {:induction false} ShallowLeft(fields: seq<Field>, keys: set<string>, request: set<string>)
    requires Shallow(fields) && CleanNames(fields) && NoLineBreaks(keys)
    requires StarsKept(fields, keys, request)
    ensures forall key :: key in Left(fields, keys, "") <==> key in keys && !Accepted(fields, request, key)
    decreases |fields|
  {
    if fields != [] {
      var f, rest := fields[0], fields[1..];
      var keys' := LeftOf(f, keys, "");
      ShallowRest(fields);
      if Tagged(f) {
        LeftOfField(f, keys, request);
        forall i | 0 <= i < |rest| && Tagged(rest[i]) && rest[i].value.Record?
          ensures NameOf(rest[i]) + ".*" in keys' <==> NameOf(rest[i]) + ".*" in request
        {
          assert rest[i] == fields[i + 1];
          OtherStarsStay(f, rest[i], request);
        }
      } else {
        assert forall i :: 0 <= i < |rest| ==> rest[i] == fields[i + 1];
      }
      ShallowLeft(rest, keys', request);
      forall key | key in keys ensures key in Left(fields, keys, "") <==> !Accepted(fields, request, key) {
        AcceptedRest(fields, request, key);
      }
    }
  }

  /** A request on a list of shallow structs is accepted exactly when a field of the first item accepts every key. */
  lemma ShallowRequests(m: ListModel, keys: set<string>)
    requires m.items != [] && Shallow(m.items[0].fields) && CleanNames(m.items[0].fields) && NoLineBreaks(keys)
    ensures Filtered(keys, m).Ok? <==> forall key :: key in keys ==> Accepted(m.items[0].fields, keys, key)
  {
    ShallowLeft(m.items[0].fields, keys, keys);
  }

  // ---------- what is accepted is shown ----------

  /** The key is shown: as a name of the item, or as a name of one of its structs. */
  ghost predicate Visible(fields: seq<Field>, p: Projection, key: string) {
    exists i :: 0 <= i < |fields| && Tagged(fields[i]) && NameOf(fields[i]) in p && VisibleIn(fields[i], p[NameOf(fields[i])], key)
  }

  ghost predicate VisibleIn(f: Field, o: Out, key: string) {
    match f.value
    case Record(sub) =>
      o.Sub? && exists j :: 0 <= j < |sub| && Tagged(sub[j]) && KeyOf(sub[j], NameOf(f)) == key && NameOf(sub[j]) in o.fields
    case _ => key == NameOf(f) && Leaf(f) && o == Shown(f.value)
  }

  /** A requested leaf of a struct is kept. */
  lemma {:induction false} LeafIsKept(fields: seq<Field>, keys: set<string>, prefix: string, i: nat)
    requires Flat(fields) && i < |fields| && Tagged(fields[i]) && KeyOf(fields[i], prefix) in keys
    ensures NameOf(fields[i]) in Project(fields, keys, prefix)
    decreases |fields|
  {
    if i > 0 {
      LeavesOfRest(fields, prefix);
      LeafIsKept(fields[1..], keys, prefix, i - 1);
    }
  }

  /** The field that is last of its name decides what the name shows. */
  lemma {:induction false} LastDecides(fields: seq<Field>, keys: set<string>, prefix: string, i: nat)
    requires LastNamed(fields, i) && Entry(fields[i], keys, prefix) != map[]
    ensures var e, p := Entry(fields[i], keys, prefix), Project(fields, keys, prefix);
            NameOf(fields[i]) in e && NameOf(fields[i]) in p && p[NameOf(fields[i])] == e[NameOf(fields[i])]
    decreases |fields|
  {
    var rest := fields[1..];
    assert forall j :: 0 <= j < |rest| ==> rest[j] == fields[j + 1];
    EntryShows(fields[i], keys, prefix);
    if i > 0 {
      LastDecides(rest, keys, prefix, i - 1);
    } else {
      ProjectIsPart(rest, keys, prefix);
    }
  }

  lemma NonEmpty(key: string, o: Out)
    ensures map[key := o] != map[]
  {
    assert key in map[key := o];
  }

  lemma FieldIsVisible(fields: seq<Field>, keys: set<string>, i: nat, key: string)
    requires LastNamed(fields, i) && ShallowField(fields[i]) && key in keys
    requires NameOf(fields[i]) + ".*" !in keys && Accepts(fields[i], keys, key)
    ensures var p := Project(fields, keys, "");
            NameOf(fields[i]) in p && VisibleIn(fields[i], p[NameOf(fields[i])], key)
  {
    var f := fields[i];
    if f.value.Record? {
      var sub := f.value.fields;
      var j :| 0 <= j < |sub| && Tagged(sub[j]) && KeyOf(sub[j], NameOf(f)) == key;
      LeafIsKept(sub, keys, NameOf(f), j);
      assert Prefixed("", NameOf(f)) == NameOf(f);
      assert Entry(f, keys, "") == map[NameOf(f) := Sub(Project(sub, keys, NameOf(f)))];
      NonEmpty(NameOf(f), Sub(Project(sub, keys, NameOf(f))));
    } else {
      assert Prefixed("", NameOf(f)) == NameOf(f);
      assert Entry(f, keys, "") == map[NameOf(f) := Shown(f.value)];
      NonEmpty(NameOf(f), Shown(f.value));
    }
    LastDecides(fields, keys, "", i);
  }

  /**
   * The item that was validated shows every key that is accepted without a star of the accepting
   * field: validation and projection agree, as long as structs are nested once.
   */
  lemma {:induction false} AcceptedIsVisible(fields: seq<Field>, keys: set<string>, key: string)
    requires Shallow(fields) && CleanNames(fields) && NoLineBreaks(keys)
    requires forall i :: 0 <= i < |fields| && Tagged(fields[i]) && Accepts(fields[i], keys, key) ==>
               NameOf(fields[i]) + ".*" !in keys
    requires Left(fields, keys, "") == {} && key in keys
    ensures Visible(fields, Project(fields, keys, ""), key)
  {
    ShallowLeft(fields, keys, keys);
    assert key !in Left(fields, keys, "");
    var i :| 0 <= i < |fields| && Tagged(fields[i]) && Accepts(fields[i], keys, key);
    FieldIsVisible(fields, keys, i, key);
  }
}
