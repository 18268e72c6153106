/** The field projection of list results: which requested names are accepted, and what each item keeps. */
module SliceFilter {
  import opened Wrappers
  import opened Text

  /**
   * A reflected value. Plain is every kind that is not a struct, a slice or a set *time.Time; a nil
   * pointer is plain, too. Time carries its RFC 3339 form.
   */
  datatype Value = Plain(text: string) | Time(formatted: string) | Record(fields: seq<Field>) | List(items: seq<Struct>)
  datatype Field = Field(tag: string, value: Value)
  datatype Struct = Struct(fields: seq<Field>)

  /** What a projection holds: map[string]interface{} is a Sub. */
  datatype Out = Kept(text: string) | Formatted(text: string) | Sub(fields: map<string, Out>) | Subs(items: seq<Out>)
  type Projection = map<string, Out>

  /** Fields without a JSON name are skipped. */
  predicate Tagged(f: Field) {
    f.tag != "" && f.tag != "-"
  }

  function NameOf(f: Field): string {
    Split(f.tag, ',')[0]
  }

  /** The JSON name is what stands before the first comma of the tag. */
  lemma NameBeforeComma(f: Field, name: string, options: string)
    requires ',' !in name && (f.tag == name || f.tag == name + "," + options)
    ensures NameOf(f) == name
  {
    if f.tag == name {
      SplitWhole(name, ',');
    } else {
      assert f.tag == name + [','] + options;
      SplitFirst(name, options, ',');
    }
  }

  function Prefixed(prefix: string, name: string): string {
    if prefix != "" then prefix + "." + name else name
  }

  /** map[string]bool: shared and consumed by reference. */
  class KeySet {
    var keys: set<string>

    constructor (keys: set<string>)
      ensures this.keys == keys
    {
      this.keys := keys;
    }

    method Delete(key: string)
      modifies this
      ensures keys == old(keys) - {key}
    {
      keys := keys - {key};
    }
  }

  // ---------- removeStar ----------

  /** The longest beginning without a line break. */
  function Line(s: string): string {
    if s == "" || s[0] == '\n' then "" else [s[0]] + Line(s[1..])
  }

  lemma {:induction false} LineIsPrefix(s: string)
    ensures Line(s) <= s && '\n' !in Line(s)
    ensures '\n' !in s ==> Line(s) == s
  {
    if s != "" && s[0] != '\n' { LineIsPrefix(s[1..]); }
  }

  /** The matches of (name\..*) from left to right, for a name that is matched literally. */
  function Matches(s: string, name: string): seq<string>
    decreases |s|
  {
    if s == "" then []
    else if name + "." <= s then
      var m := name + "." + Line(s[|name| + 1..]);
      LineIsPrefix(s[|name| + 1..]);
      [m] + Matches(s[|m|..], name)
    else Matches(s[1..], name)
  }

  /** A match is its own only match. */
  lemma {:induction false} MatchOfMatch(s: string, name: string, m: string)
    requires m in Matches(s, name)
    ensures name + "." <= m && Matches(m, name) == [m]
    decreases |s|
  {
    if name + "." <= s {
      var line := Line(s[|name| + 1..]);
      LineIsPrefix(s[|name| + 1..]);
      LineIsPrefix(line);
      var first := name + "." + line;
      if m == first {
        assert m[|name| + 1..] == line;
        assert m[|m|..] == "";
      } else {
        MatchOfMatch(s[|first|..], name, m);
      }
    } else {
      MatchOfMatch(s[1..], name, m);
    }
  }

  /** On a key without line breaks only the key itself can be a match. */
  lemma {:induction false} MatchesOfKey(keys: set<string>, key: string, name: string)
    requires key in keys && '\n' !in key
    ensures key in Matches(key, name) <==> name + "." <= key
  {
    LineIsPrefix(key);
    if name + "." <= key {
      LineIsPrefix(key[|name| + 1..]);
      assert name + "." + key[|name| + 1..] == key;
    } else if key in Matches(key, name) {
      MatchOfMatch(key, name, key);
    }
  }

  function Unstarred(keys: set<string>, name: string): set<string> {
    set key | key in keys && !(exists other :: other in keys && key in Matches(other, name))
  }

  /** removeStar removes the keys below the name, if no key has a line break. */
  lemma UnstarredKeys(keys: set<string>, name: string)
    requires forall key :: key in keys ==> '\n' !in key
    ensures Unstarred(keys, name) == set key | key in keys && !(name + "." <= key)
  {
    forall key | key in keys ensures key in Unstarred(keys, name) <==> !(name + "." <= key) {
      MatchesOfKey(keys, key, name);
      if other :| other in keys && key in Matches(other, name) { MatchOfMatch(other, name, key); }
    }
  }

  method DeleteAll(keys: KeySet, matched: seq<string>)
    modifies keys
    ensures keys.keys == old(keys.keys) - (set m | m in matched)
  {
    for i := 0 to |matched|
      invariant keys.keys == old(keys.keys) - (set m | m in matched[..i])
    {
      keys.Delete(matched[i]);
      assert matched[..i + 1] == matched[..i] + [matched[i]];
    }
    assert matched[..|matched|] == matched;
  }

  /** A key that was deleted before the iteration reached it is not visited. */
  method RemoveStar(keys: KeySet, name: string)
    modifies keys
    ensures keys.keys == Unstarred(old(keys.keys), name)
  {
    var remaining := keys.keys;
    ghost var seen: set<string> := {};
    while remaining != {}
      invariant remaining <= old(keys.keys) && seen == old(keys.keys) - remaining
      invariant Consumed(old(keys.keys), keys.keys, seen, name)
      decreases |remaining|
    {
      var k :| k in remaining;
      remaining := remaining - {k};
      ghost var before := keys.keys;
      if k in keys.keys {
        var matched := Matches(k, name);
        DeleteAll(keys, matched);
      }
      ConsumedNext(old(keys.keys), before, keys.keys, seen, name, k);
      seen := seen + {k};
    }
  }

  /** What is left once the matches of the seen keys are deleted. */
  ghost predicate Consumed(all: set<string>, left: set<string>, seen: set<string>, name: string) {
    left == set key | key in all && !(exists other :: other in seen && key in Matches(other, name))
  }

  lemma ConsumedNext(all: set<string>, before: set<string>, after: set<string>, seen: set<string>, name: string, k: string)
    requires Consumed(all, before, seen, name) && k in all
    requires after == if k in before then before - (set m | m in Matches(k, name)) else before
    ensures Consumed(all, after, seen + {k}, name)
  {
    if k !in before {
      var other :| other in seen && k in Matches(other, name);
      MatchOfMatch(other, name, k);
    }
  }

  // ---------- validate ----------

  /** The requested names that are left once the fields have consumed theirs. */
  function Left(fields: seq<Field>, keys: set<string>, prefix: string): set<string>
    decreases fields
  {
    if fields == [] then keys else Left(fields[1..], LeftOf(fields[0], keys, prefix), prefix)
  }

  function LeftOf(f: Field, keys: set<string>, prefix: string): set<string>
    decreases f
  {
    if !Tagged(f) then keys
    else
      match f.value
      case Time(_) => keys - {NameOf(f)}
      case Record(fields) =>
        if NameOf(f) + ".*" in keys then Unstarred(keys, NameOf(f)) else Left(fields, keys, NameOf(f))
      case List(_) => Unstarred(keys, NameOf(f))
      case Plain(_) => keys - {Prefixed(prefix, NameOf(f))}
  }

  /** Consumes the keys of the fields; the errors of nested structs are ignored. */
  method Validate(fields: seq<Field>, keys: KeySet, prefix: string) returns (ok: bool)
    modifies keys
    ensures keys.keys == Left(fields, old(keys.keys), prefix)
    ensures ok <==> keys.keys == {}
    decreases fields
  {
    for i := 0 to |fields|
      invariant Left(fields, old(keys.keys), prefix) == Left(fields[i..], keys.keys, prefix)
    {
      var f := fields[i];
      assert fields[i..][0] == f && fields[i..][1..] == fields[i + 1..];
      if !Tagged(f) {
        continue;
      }
      var name := NameOf(f);
      match f.value {
        case Time(_) =>
          keys.Delete(name);
        case Record(sub) =>
          if name + ".*" in keys.keys {
            RemoveStar(keys, name);
          } else {
            var _ := Validate(sub, keys, name);
          }
        case List(_) =>
          RemoveStar(keys, name);
        case Plain(_) =>
          keys.Delete(Prefixed(prefix, name));
      }
    }
    return keys.keys == {};
  }

  // ---------- structToMap ----------

  function Project(fields: seq<Field>, keys: set<string>, prefix: string): Projection
    decreases fields
  {
    if fields == [] then map[] else Entry(fields[0], keys, prefix) + Project(fields[1..], keys, prefix)
  }

  /** What one field adds: nothing, or its name; a later field of the same name wins. */
  function Entry(f: Field, keys: set<string>, prefix: string): Projection
    decreases f
  {
    if !Tagged(f) then map[]
    else
      var name := NameOf(f);
      match f.value
      case Time(text) => if name in keys then map[name := Formatted(text)] else map[]
      case Record(fields) =>
        var sub := Project(fields, keys, Prefixed(prefix, name));
        if sub == map[] then map[] else map[name := Sub(sub)]
      case List(items) =>
        var outs := ProjectItems(items, keys, name);
        if outs == [] then map[] else map[name := Subs(outs)]
      case Plain(text) =>
        if Prefixed(prefix, name) in keys || prefix + ".*" in keys then map[name := Kept(text)] else map[]
  }

  /** The items before the first one of which nothing is kept. */
  function ProjectItems(items: seq<Struct>, keys: set<string>, name: string): seq<Out>
    decreases items
  {
    if items == [] || Project(items[0].fields, keys, name) == map[] then []
    else [Sub(Project(items[0].fields, keys, name))] + ProjectItems(items[1..], keys, name)
  }

  method StructToMap(fields: seq<Field>, keys: set<string>, prefix: string) returns (res: Projection)
    ensures res == Project(fields, keys, prefix)
    decreases fields, 0
  {
    res := map[];
    for i := 0 to |fields|
      invariant Project(fields, keys, prefix) == res + Project(fields[i..], keys, prefix)
    {
      ghost var before := res;
      assert fields[i..][0] == fields[i] && fields[i..][1..] == fields[i + 1..];
      if Tagged(fields[i]) {
        res := AddField(fields[i], keys, prefix, res);
      }
      MergeThree(before, Entry(fields[i], keys, prefix), Project(fields[i + 1..], keys, prefix));
    }
  }

  lemma MergeThree(a: Projection, b: Projection, c: Projection)
    ensures a + (b + c) == (a + b) + c
    ensures a + map[] == a
  {
  }

  function Put(res: Projection, name: string, value: Out): (put: Projection)
    ensures put == res + map[name := value]
  {
    res[name := value]
  }

  /** The loop's body for a field that has a JSON name. */
  method AddField(f: Field, keys: set<string>, prefix: string, res0: Projection) returns (res: Projection)
    requires Tagged(f)
    ensures res == res0 + Entry(f, keys, prefix)
    decreases f, 1
  {
    res := res0;
    var name := NameOf(f);
    MergeThree(res, map[], map[]);
    match f.value {
      case Time(text) =>
        if name in keys {
          res := Put(res, name, Formatted(text));
        }
      case Record(sub) =>
        var subStruct := StructToMap(sub, keys, Prefixed(prefix, name));
        if |subStruct| > 0 {
          res := Put(res, name, Sub(subStruct));
        }
      case List(items) =>
        var result := SlicesToMaps(items, keys, name);
        if |result| > 0 {
          res := Put(res, name, Subs(result));
        }
      case Plain(text) =>
        if Prefixed(prefix, name) in keys {
          res := Put(res, name, Kept(text));
        } else if prefix + ".*" in keys {
          res := Put(res, name, Kept(text));
        }
    }
  }

  /** The inner loop of structToMap over a slice. */
  method SlicesToMaps(items: seq<Struct>, keys: set<string>, name: string) returns (result: seq<Out>)
    ensures result == ProjectItems(items, keys, name)
    decreases items
  {
    result := [];
    for i := 0 to |items|
      invariant ProjectItems(items, keys, name) == result + ProjectItems(items[i..], keys, name)
    {
      assert items[i..][0] == items[i] && items[i..][1..] == items[i + 1..];
      var slice := StructToMap(items[i].fields, keys, name);
      if |slice| == 0 {
        break;
      }
      result := result + [Sub(slice)];
    }
  }

  // ---------- SliceFilter ----------

  const TWO_TO_THE_31 := 0x8000_0000
  const TWO_TO_THE_32 := 0x1_0000_0000

  /** m is what an int32 keeps of n. */
  predicate IsInt32Of(m: int, n: int) {
    -TWO_TO_THE_31 <= m < TWO_TO_THE_31 && (m - n) % TWO_TO_THE_32 == 0
  }

  /** A conversion to int32. */
  function Int32(n: int): (m: int)
    ensures IsInt32Of(m, n)
    ensures -TWO_TO_THE_31 <= n < TWO_TO_THE_31 ==> m == n
  {
    (n + TWO_TO_THE_31) % TWO_TO_THE_32 - TWO_TO_THE_31
  }

  /** The list struct that a handler passes. */
  datatype ListModel = ListModel(kind: string, page: int, size: int, total: int, items: seq<Struct>)

  datatype ProjectionList = ProjectionList(kind: string, page: int, size: int, total: int, items: seq<Projection>)

  datatype Result = Ok(list: ProjectionList) | EmptyModel | Unknown(fields: set<string>)

  function ProjectAll(items: seq<Struct>, keys: set<string>): (ps: seq<Projection>)
    ensures |ps| == |items| && forall i :: 0 <= i < |items| ==> ps[i] == Project(items[i].fields, keys, "")
  {
    if items == [] then [] else [Project(items[0].fields, keys, "")] + ProjectAll(items[1..], keys)
  }

  /** The list's own fields are the model's, the numbers as int32 values. */
  predicate Describes(list: ProjectionList, m: ListModel) {
    && list.kind == m.kind
    && IsInt32Of(list.page, m.page) && (-TWO_TO_THE_31 <= m.page < TWO_TO_THE_31 ==> list.page == m.page)
    && IsInt32Of(list.size, m.size) && (-TWO_TO_THE_31 <= m.size < TWO_TO_THE_31 ==> list.size == m.size)
    && IsInt32Of(list.total, m.total) && (-TWO_TO_THE_31 <= m.total < TWO_TO_THE_31 ==> list.total == m.total)
  }

  method KeysOf(fields: seq<string>) returns (keys: KeySet)
    ensures fresh(keys) && keys.keys == set f | f in fields
  {
    keys := new KeySet({});
    for i := 0 to |fields|
      invariant keys.keys == set f | f in fields[..i]
    {
      keys.keys := keys.keys + {fields[i]};
      assert fields[..i + 1] == fields[..i] + [fields[i]];
    }
    assert fields[..|fields|] == fields;
  }

  method StructsToMaps(items: seq<Struct>, keys: KeySet) returns (result: seq<Projection>)
    ensures result == ProjectAll(items, keys.keys)
  {
    result := [];
    for i := 0 to |items|
      invariant result == ProjectAll(items, keys.keys)[..i]
    {
      var item := StructToMap(items[i].fields, keys.keys, "");
      result := result + [item];
    }
  }

  /** What SliceFilter returns: the first item is validated, and every item is projected with all requested keys. */
  function Filtered(keys: set<string>, m: ListModel): Result {
    var left := if m.items == [] then {} else Left(m.items[0].fields, keys, "");
    if left != {} then Unknown(left)
    else Ok(ProjectionList(m.kind, Int32(m.page), Int32(m.size), Int32(m.total), ProjectAll(m.items, keys)))
  }

  method Filter(fields2Store: seq<string>, model: Option<ListModel>) returns (result: Result)
    ensures result == if model.None? then EmptyModel else Filtered((set f | f in fields2Store), model.value)
    ensures result.EmptyModel? <==> model.None?
    ensures result.Ok? ==>
              && Describes(result.list, model.value)
              && |result.list.items| == |model.value.items|
              && forall i :: 0 <= i < |model.value.items| ==>
                   result.list.items[i] == Project(model.value.items[i].fields, (set f | f in fields2Store), "")
    ensures model.Some? && model.value.items == [] ==> result.Ok?
  {
    if model.None? {
      return EmptyModel;
    }
    var keys := KeysOf(fields2Store);
    var m := model.value;
    var list := ProjectionList(m.kind, Int32(m.page), Int32(m.size), Int32(m.total), []);
    if |m.items| == 0 {
      return Ok(list);
    }
    var validateIn := new KeySet(keys.keys);
    var ok := Validate(m.items[0].fields, validateIn, "");
    if !ok {
      return Unknown(validateIn.keys);
    }
    var items := StructsToMaps(m.items, keys);
    return Ok(list.(items := items));
  }
}
