/** Exactly which structs show at least as much when more is requested. */
module GrowingRequests {
  import opened SliceFilter
  import opened Projections

  // ---------- which keys show a field ----------

  /** The keys of which each alone makes the projection show something of the field. */
  function Triggers(f: Field, prefix: string): set<string>
    decreases f
  {
    if !Tagged(f) then {}
    else
      match f.value
      case Time(_) => {NameOf(f)}
      case Record(fields) => TriggersOf(fields, Prefixed(prefix, NameOf(f)))
      case List(items) => if items == [] then {} else TriggersOf(items[0].fields, NameOf(f))
      case Plain(_) => {Prefixed(prefix, NameOf(f)), prefix + ".*"}
  }

  function TriggersOf(fields: seq<Field>, prefix: string): set<string>
    decreases fields
  {
    if fields == [] then {} else Triggers(fields[0], prefix) + TriggersOf(fields[1..], prefix)
  }

  predicate Meet(a: set<string>, b: set<string>) {
    a * b != {}
  }

  lemma MeetBoth(a: set<string>, b: set<string>, keys: set<string>)
    ensures Meet(a + b, keys) <==> Meet(a, keys) || Meet(b, keys)
  {
    assert (a + b) * keys == a * keys + b * keys;
  }

  lemma {:induction false} ShownIff(f: Field, keys: set<string>, prefix: string)
    ensures Entry(f, keys, prefix) != map[] <==> Meet(Triggers(f, prefix), keys)
    ensures Entry(f, keys, prefix) != map[] ==> Entry(f, keys, prefix).Keys == {NameOf(f)}
    decreases f, 1
  {
    if Tagged(f) {
      match f.value
      case Time(_) =>
        assert {NameOf(f)} * keys == if NameOf(f) in keys then {NameOf(f)} else {};
      case Record(fields) =>
        ShownIffOf(fields, keys, Prefixed(prefix, NameOf(f)));
      case List(items) =>
        if items != [] { ShownIffOf(items[0].fields, keys, NameOf(f)); }
      case Plain(_) =>
        var name, star := Prefixed(prefix, NameOf(f)), prefix + ".*";
        assert {name, star} * keys == (if name in keys then {name} else {}) + (if star in keys then {star} else {});
    }
    EntryHasName(f, keys, prefix);
  }

  lemma EntryHasName(f: Field, keys: set<string>, prefix: string)
    ensures Entry(f, keys, prefix) != map[] <==> NameOf(f) in Entry(f, keys, prefix)
    ensures Entry(f, keys, prefix).Keys <= {NameOf(f)}
  {
    var e := Entry(f, keys, prefix);
    if e != map[] {
      var key :| key in e.Keys;
    }
  }

  lemma {:induction false} ShownIffOf(fields: seq<Field>, keys: set<string>, prefix: string)
    ensures Project(fields, keys, prefix) != map[] <==> Meet(TriggersOf(fields, prefix), keys)
    decreases fields, 0
  {
    if fields != [] {
      ShownIff(fields[0], keys, prefix);
      ShownIffOf(fields[1..], keys, prefix);
      MeetBoth(Triggers(fields[0], prefix), TriggersOf(fields[1..], prefix), keys);
      SumIsEmpty(Entry(fields[0], keys, prefix), Project(fields[1..], keys, prefix));
    }
  }

  lemma SumIsEmpty(a: Projection, b: Projection)
    ensures a + b == map[] <==> a == map[] && b == map[]
  {
    assert (a + b).Keys == a.Keys + b.Keys;
    assert a.Keys == {} <==> a == map[];
    assert b.Keys == {} <==> b == map[];
  }

  /** The keys that show a field of this name. */
  function Named(fields: seq<Field>, name: string, prefix: string): set<string> {
    if fields == [] then {}
    else
      (if Tagged(fields[0]) && NameOf(fields[0]) == name then Triggers(fields[0], prefix) else {})
      + Named(fields[1..], name, prefix)
  }

  lemma {:induction false} NamedIsShown(fields: seq<Field>, keys: set<string>, prefix: string, name: string)
    ensures name in Project(fields, keys, prefix) <==> Meet(Named(fields, name, prefix), keys)
  {
    if fields != [] {
      var f := fields[0];
      ShownIff(f, keys, prefix);
      NamedIsShown(fields[1..], keys, prefix, name);
      MeetBoth(if Tagged(f) && NameOf(f) == name then Triggers(f, prefix) else {}, Named(fields[1..], name, prefix), keys);
    }
  }

  // ---------- the condition ----------

  /** Some request that meets the context shows the field and none of the later ones of its name. */
  predicate CanWin(triggers: set<string>, later: set<string>, context: seq<set<string>>) {
    triggers - later != {} && forall i :: 0 <= i < |context| ==> context[i] - later != {}
  }

  /**
   * Of the fields of one name only the last that can be shown at all ever is, and the same holds below
   * it. The context says what a request shows anyway: the items of a list before the one that is
   * looked at.
   */
  predicate Orderly(fields: seq<Field>, prefix: string, context: seq<set<string>>)
    decreases fields, 0
  {
    fields == [] ||
    (HeadOrderly(fields[0], Named(fields[1..], NameOf(fields[0]), prefix), prefix, context)
     && Orderly(fields[1..], prefix, context))
  }

  predicate HeadOrderly(f: Field, later: set<string>, prefix: string, context: seq<set<string>>)
    decreases f, 2
  {
    Tagged(f) && CanWin(Triggers(f, prefix), later, context) ==> later == {} && OrderlyBelow(f, prefix, context)
  }

  predicate OrderlyBelow(f: Field, prefix: string, context: seq<set<string>>)
    decreases f, 1
  {
    match f.value
    case Record(fields) => Orderly(fields, Prefixed(prefix, NameOf(f)), context)
    case List(items) => OrderlyItems(items, NameOf(f), context)
    case _ => true
  }

  predicate OrderlyItems(items: seq<Struct>, name: string, context: seq<set<string>>)
    decreases items, 1
  {
    items == [] ||
    (Orderly(items[0].fields, name, context)
     && OrderlyItems(items[1..], name, context + [TriggersOf(items[0].fields, name)]))
  }

  predicate InContext(keys: set<string>, context: seq<set<string>>) {
    forall i :: 0 <= i < |context| ==> Meet(context[i], keys)
  }

  // ---------- it is enough ----------

  lemma WinnerCanWin(triggers: set<string>, later: set<string>, context: seq<set<string>>, keys: set<string>)
    requires Meet(triggers, keys) && !Meet(later, keys) && InContext(keys, context)
    ensures CanWin(triggers, later, context)
  {
    Apart(triggers, later, keys);
    forall i | 0 <= i < |context| ensures context[i] - later != {} {
      Apart(context[i], later, keys);
    }
  }

  lemma Apart(a: set<string>, later: set<string>, keys: set<string>)
    requires Meet(a, keys) && !Meet(later, keys)
    ensures a - later != {}
  {
    var key :| key in a * keys;
    assert key !in later * keys;
    assert key in a - later;
  }

  lemma {:induction false} OrderlyGrows(
      fields: seq<Field>, keys: set<string>, keys': set<string>, prefix: string, context: seq<set<string>>)
    requires Orderly(fields, prefix, context) && InContext(keys, context) && keys <= keys'
    ensures MapWithin(Project(fields, keys, prefix), Project(fields, keys', prefix))
    decreases fields, 0
  {
    if fields != [] {
      var f, rest := fields[0], fields[1..];
      var later := Named(rest, NameOf(f), prefix);
      OrderlyGrows(rest, keys, keys', prefix, context);
      ShownIff(f, keys, prefix);
      NamedIsShown(rest, keys, prefix, NameOf(f));
      NamedIsShown(rest, keys', prefix, NameOf(f));
      if Meet(Triggers(f, prefix), keys) && !Meet(later, keys) {
        WinnerCanWin(Triggers(f, prefix), later, context, keys);
        FieldGrows(f, keys, keys', prefix, context);
        assert !Meet(later, keys');
      }
    }
  }

  lemma {:induction false} FieldGrows(
      f: Field, keys: set<string>, keys': set<string>, prefix: string, context: seq<set<string>>)
    requires OrderlyBelow(f, prefix, context) && InContext(keys, context) && keys <= keys'
    ensures MapWithin(Entry(f, keys, prefix), Entry(f, keys', prefix))
    decreases f, 1
  {
    match f.value
    case Record(fields) => OrderlyGrows(fields, keys, keys', Prefixed(prefix, NameOf(f)), context);
    case List(items) => ItemsGrow(items, keys, keys', NameOf(f), context);
    case _ =>
  }

  lemma {:induction false} ItemsGrow(
      items: seq<Struct>, keys: set<string>, keys': set<string>, name: string, context: seq<set<string>>)
    requires OrderlyItems(items, name, context) && InContext(keys, context) && keys <= keys'
    ensures Within(Subs(ProjectItems(items, keys, name)), Subs(ProjectItems(items, keys', name)))
    decreases items, 1
  {
    if items != [] && Project(items[0].fields, keys, name) != map[] {
      OrderlyGrows(items[0].fields, keys, keys', name, context);
      ProjectKeysGrow(items[0].fields, keys, keys', name);
      ShownIffOf(items[0].fields, keys, name);
      ItemsGrow(items[1..], keys, keys', name, context + [TriggersOf(items[0].fields, name)]);
      assert Within(Sub(Project(items[0].fields, keys, name)), Sub(Project(items[0].fields, keys', name)));
    }
  }

  /** Distinct names are orderly. */
  lemma {:induction false} DistinctIsOrderly(fields: seq<Field>, prefix: string, context: seq<set<string>>)
    requires DistinctNames(fields)
    ensures Orderly(fields, prefix, context)
    decreases fields, 0
  {
    if fields != [] {
      var rest := fields[1..];
      assert forall i :: 0 <= i < |rest| ==> rest[i] == fields[i + 1];
      DistinctIsOrderly(rest, prefix, context);
      if Tagged(fields[0]) { OtherNames(rest, NameOf(fields[0]), prefix); }
      assert DistinctBelow(fields[0]);
      match fields[0].value
      case Record(sub) => DistinctIsOrderly(sub, Prefixed(prefix, NameOf(fields[0])), context);
      case List(items) => DistinctItemsAreOrderly(items, NameOf(fields[0]), context);
      case _ =>
    }
  }

  lemma {:induction false} DistinctItemsAreOrderly(items: seq<Struct>, name: string, context: seq<set<string>>)
    requires forall i :: 0 <= i < |items| ==> DistinctNames(items[i].fields)
    ensures OrderlyItems(items, name, context)
    decreases items, 1
  {
    if items != [] {
      DistinctIsOrderly(items[0].fields, name, context);
      DistinctItemsAreOrderly(items[1..], name, context + [TriggersOf(items[0].fields, name)]);
    }
  }

  lemma {:induction false} OtherNames(fields: seq<Field>, name: string, prefix: string)
    requires forall i :: 0 <= i < |fields| && Tagged(fields[i]) ==> NameOf(fields[i]) != name
    ensures Named(fields, name, prefix) == {}
  {
    if fields != [] { OtherNames(fields[1..], name, prefix); }
  }

  /** Scalars are orderly however often a name is repeated: the same keys show all fields of one name. */
  lemma {:induction false} ScalarsAreOrderly(fields: seq<Field>, prefix: string, context: seq<set<string>>)
    requires forall i :: 0 <= i < |fields| ==> fields[i].value.Plain?
    ensures Orderly(fields, prefix, context)
    decreases |fields|
  {
    if fields != [] {
      var rest := fields[1..];
      assert forall i :: 0 <= i < |rest| ==> rest[i] == fields[i + 1];
      ScalarsAreOrderly(rest, prefix, context);
      if Tagged(fields[0]) { NamedScalars(rest, fields[0], prefix); }
    }
  }

  lemma {:induction false} NamedScalars(fields: seq<Field>, f: Field, prefix: string)
    requires forall i :: 0 <= i < |fields| ==> fields[i].value.Plain?
    requires Tagged(f) && f.value.Plain?
    ensures var named := Named(fields, NameOf(f), prefix); named == {} || named == Triggers(f, prefix)
  {
    if fields != [] { NamedScalars(fields[1..], f, prefix); }
  }

  /** With distinct names a larger request keeps at least as much. */
  lemma ProjectGrows(fields: seq<Field>, keys: set<string>, keys': set<string>, prefix: string)
    requires keys <= keys' && DistinctNames(fields)
    ensures MapWithin(Project(fields, keys, prefix), Project(fields, keys', prefix))
  {
    DistinctIsOrderly(fields, prefix, []);
    OrderlyGrows(fields, keys, keys', prefix, []);
  }

  // ---------- it is needed ----------

  /**
   * Fields of one name under one prefix: if what the second shows includes what the first shows, then
   * the request of the first shows the second, too.
   */
  lemma {:induction false} WithinMeansShown(f: Field, g: Field, keys: set<string>, keys': set<string>, prefix: string)
    requires NameOf(f) == NameOf(g) && NameOf(f) in Entry(f, keys, prefix) && NameOf(g) in Entry(g, keys', prefix)
    requires Within(Entry(f, keys, prefix)[NameOf(f)], Entry(g, keys', prefix)[NameOf(g)])
    ensures NameOf(g) in Entry(g, keys, prefix)
    decreases f, 0
  {
    match f.value
    case Record(fields) =>
      assert g.value.Record?;
      PartIsShown(fields, g.value.fields, keys, keys', Prefixed(prefix, NameOf(f)));
    case List(items) =>
      assert g.value.List?;
      ItemsStopAtFirstEmpty(items, keys, NameOf(f));
      ItemsStopAtFirstEmpty(g.value.items, keys', NameOf(f));
      PartIsShown(items[0].fields, g.value.items[0].fields, keys, keys', NameOf(f));
    case _ =>
  }

  lemma {:induction false} PartIsShown(
      fields: seq<Field>, others: seq<Field>, keys: set<string>, keys': set<string>, prefix: string)
    requires Project(fields, keys, prefix) != map[]
    requires MapWithin(Project(fields, keys, prefix), Project(others, keys', prefix))
    ensures Project(others, keys, prefix) != map[]
    decreases fields, 1
  {
    var key :| key in Project(fields, keys, prefix);
    KeyIsShown(fields, others, keys, keys', prefix, key);
    assert key in Project(others, keys, prefix);
  }

  lemma {:induction false} KeyIsShown(
      fields: seq<Field>, others: seq<Field>, keys: set<string>, keys': set<string>, prefix: string, key: string)
    requires key in Project(fields, keys, prefix) && key in Project(others, keys', prefix)
    requires Within(Project(fields, keys, prefix)[key], Project(others, keys', prefix)[key])
    ensures key in Project(others, keys, prefix)
    decreases fields, 0
  {
    if key in Project(fields[1..], keys, prefix) {
      KeyIsShown(fields[1..], others, keys, keys', prefix, key);
    } else {
      EntryHasName(fields[0], keys, prefix);
      FieldIsShownIn(fields[0], others, keys, keys', prefix);
    }
  }

  lemma {:induction false} FieldIsShownIn(
      f: Field, others: seq<Field>, keys: set<string>, keys': set<string>, prefix: string)
    requires NameOf(f) in Entry(f, keys, prefix) && NameOf(f) in Project(others, keys', prefix)
    requires Within(Entry(f, keys, prefix)[NameOf(f)], Project(others, keys', prefix)[NameOf(f)])
    ensures NameOf(f) in Project(others, keys, prefix)
    decreases f, 1 + |others|
  {
    if NameOf(f) in Project(others[1..], keys', prefix) {
      FieldIsShownIn(f, others[1..], keys, keys', prefix);
    } else {
      EntryHasName(others[0], keys', prefix);
      WithinMeansShown(f, others[0], keys, keys', prefix);
    }
  }

  /** The union of the context. */
  function All(context: seq<set<string>>): set<string> {
    if context == [] then {} else context[0] + All(context[1..])
  }

  lemma {:induction false} AllHas(context: seq<set<string>>, i: nat)
    requires i < |context|
    ensures context[i] <= All(context)
  {
    if i > 0 { AllHas(context[1..], i - 1); }
  }

  /** A request that shows the field before a later one of its name, and a larger one that shows the later one. */
  lemma Replaced(f: Field, rest: seq<Field>, prefix: string, context: seq<set<string>>)
      returns (keys: set<string>, keys': set<string>)
    requires Tagged(f) && Named(rest, NameOf(f), prefix) != {}
    requires CanWin(Triggers(f, prefix), Named(rest, NameOf(f), prefix), context)
    ensures keys <= keys' && InContext(keys, context)
    ensures !MapWithin(Project([f] + rest, keys, prefix), Project([f] + rest, keys', prefix))
  {
    var later := Named(rest, NameOf(f), prefix);
    keys := (Triggers(f, prefix) + All(context)) - later;
    keys' := keys + later;
    WinnerShows(f, rest, prefix, context, keys);
    NamedIsShown(rest, keys, prefix, NameOf(f));
    NamedIsShown(rest, keys', prefix, NameOf(f));
    assert later * keys' == later && later * keys == {};
    ProjectMore(f, rest, keys, prefix);
    ProjectMore(f, rest, keys', prefix);
    if MapWithin(Project([f] + rest, keys, prefix), Project([f] + rest, keys', prefix)) {
      FieldIsShownIn(f, rest, keys, keys', prefix);
    }
  }

  lemma WinnerShows(f: Field, rest: seq<Field>, prefix: string, context: seq<set<string>>, keys: set<string>)
    requires Tagged(f) && CanWin(Triggers(f, prefix), Named(rest, NameOf(f), prefix), context)
    requires keys == (Triggers(f, prefix) + All(context)) - Named(rest, NameOf(f), prefix)
    ensures NameOf(f) in Entry(f, keys, prefix) && InContext(keys, context)
  {
    var later := Named(rest, NameOf(f), prefix);
    var key :| key in Triggers(f, prefix) - later;
    assert key in Triggers(f, prefix) * keys;
    ShownIff(f, keys, prefix);
    EntryHasName(f, keys, prefix);
    forall i | 0 <= i < |context| ensures Meet(context[i], keys) {
      AllHas(context, i);
      var other :| other in context[i] - later;
      assert other in context[i] * keys;
    }
  }

  /** If a struct is not orderly there are a request and a larger one that shows less. */
  lemma {:induction false} DisorderShrinks(fields: seq<Field>, prefix: string, context: seq<set<string>>)
      returns (keys: set<string>, keys': set<string>)
    requires !Orderly(fields, prefix, context)
    ensures keys <= keys' && InContext(keys, context)
    ensures !MapWithin(Project(fields, keys, prefix), Project(fields, keys', prefix))
    decreases fields, 0
  {
    var f, rest := fields[0], fields[1..];
    assert fields == [f] + rest;
    if !Orderly(rest, prefix, context) {
      keys, keys' := DisorderShrinks(rest, prefix, context);
      RestShrinks(f, rest, keys, keys', prefix);
    } else if Named(rest, NameOf(f), prefix) != {} {
      keys, keys' := Replaced(f, rest, prefix, context);
    } else {
      keys, keys' := FieldShrinks(f, prefix, context);
      HeadShrinks(f, rest, keys, keys', prefix);
    }
  }

  lemma RestShrinks(f: Field, rest: seq<Field>, keys: set<string>, keys': set<string>, prefix: string)
    requires keys <= keys' && !MapWithin(Project(rest, keys, prefix), Project(rest, keys', prefix))
    ensures !MapWithin(Project([f] + rest, keys, prefix), Project([f] + rest, keys', prefix))
  {
    ProjectMore(f, rest, keys, prefix);
    ProjectMore(f, rest, keys', prefix);
    ProjectKeysGrow(rest, keys, keys', prefix);
    var m, m' := Project(rest, keys, prefix), Project(rest, keys', prefix);
    var key :| key in m && !(key in m' && Within(m[key], m'[key]));
    assert key in Project([f] + rest, keys, prefix);
  }

  lemma HeadShrinks(f: Field, rest: seq<Field>, keys: set<string>, keys': set<string>, prefix: string)
    requires Named(rest, NameOf(f), prefix) == {}
    requires !MapWithin(Entry(f, keys, prefix), Entry(f, keys', prefix))
    ensures !MapWithin(Project([f] + rest, keys, prefix), Project([f] + rest, keys', prefix))
  {
    ProjectMore(f, rest, keys, prefix);
    ProjectMore(f, rest, keys', prefix);
    NamedIsShown(rest, keys, prefix, NameOf(f));
    NamedIsShown(rest, keys', prefix, NameOf(f));
    EntryHasName(f, keys, prefix);
    assert NameOf(f) in Project([f] + rest, keys, prefix);
  }

  lemma {:induction false} FieldShrinks(f: Field, prefix: string, context: seq<set<string>>)
      returns (keys: set<string>, keys': set<string>)
    requires Tagged(f) && !OrderlyBelow(f, prefix, context)
    ensures keys <= keys' && InContext(keys, context)
    ensures !MapWithin(Entry(f, keys, prefix), Entry(f, keys', prefix))
    decreases f, 1
  {
    match f.value
    case Record(fields) =>
      keys, keys' := DisorderShrinks(fields, Prefixed(prefix, NameOf(f)), context);
      var m := Project(fields, keys, Prefixed(prefix, NameOf(f)));
      assert m != map[] && Entry(f, keys, prefix)[NameOf(f)] == Sub(m);
    case List(items) =>
      keys, keys' := ItemsShrink(items, NameOf(f), context);
      assert Entry(f, keys, prefix)[NameOf(f)] == Subs(ProjectItems(items, keys, NameOf(f)));
  }

  lemma {:induction false} ItemsShrink(items: seq<Struct>, name: string, context: seq<set<string>>)
      returns (keys: set<string>, keys': set<string>)
    requires !OrderlyItems(items, name, context)
    ensures keys <= keys' && InContext(keys, context) && ProjectItems(items, keys, name) != []
    ensures !Within(Subs(ProjectItems(items, keys, name)), Subs(ProjectItems(items, keys', name)))
    decreases items, 1
  {
    if !Orderly(items[0].fields, name, context) {
      keys, keys' := DisorderShrinks(items[0].fields, name, context);
      var outs, outs' := ProjectItems(items, keys, name), ProjectItems(items, keys', name);
      assert outs[0] == Sub(Project(items[0].fields, keys, name));
      assert |outs'| > 0 ==> outs'[0] == Sub(Project(items[0].fields, keys', name));
    } else {
      var triggers := TriggersOf(items[0].fields, name);
      keys, keys' := ItemsShrink(items[1..], name, context + [triggers]);
      assert forall i :: 0 <= i < |context| ==> (context + [triggers])[i] == context[i];
      assert (context + [triggers])[|context|] == triggers;
      ShownIffOf(items[0].fields, keys, name);
      ProjectKeysGrow(items[0].fields, keys, keys', name);
      MoreItemsShrink(Sub(Project(items[0].fields, keys, name)), ProjectItems(items[1..], keys, name),
                      Sub(Project(items[0].fields, keys', name)), ProjectItems(items[1..], keys', name));
    }
  }

  lemma MoreItemsShrink(o: Out, outs: seq<Out>, o': Out, outs': seq<Out>)
    requires !Within(Subs(outs), Subs(outs'))
    ensures !Within(Subs([o] + outs), Subs([o'] + outs'))
  {
    if |outs| <= |outs'| {
      var i :| 0 <= i < |outs| && !Within(outs[i], outs'[i]);
      assert ([o] + outs)[i + 1] == outs[i] && ([o'] + outs')[i + 1] == outs'[i];
    }
  }

  /**
   * Every larger request shows at least as much of a struct, at every depth, if and only if the
   * struct is orderly.
   */
  lemma GrowsIffOrderly(fields: seq<Field>)
    ensures Orderly(fields, "", []) <==>
            forall keys, keys' :: keys <= keys' ==> MapWithin(Project(fields, keys, ""), Project(fields, keys', ""))
  {
    if Orderly(fields, "", []) {
      forall keys, keys' | keys <= keys' ensures MapWithin(Project(fields, keys, ""), Project(fields, keys', "")) {
        OrderlyGrows(fields, keys, keys', "", []);
      }
    } else {
      var keys, keys' := DisorderShrinks(fields, "", []);
    }
  }
}
