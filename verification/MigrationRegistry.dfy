/** The registry of migrations, and their order independently of how they were registered. */
module MigrationRegistry {
  import opened Migrations

  /** A migration is known by its ID; what it does is not part of the model. */
  datatype Migration = Migration(id: string, script: nat)

  predicate Sorted(s: seq<Migration>) {
    forall i, j :: 0 <= i < j < |s| ==> !Less(s[j].id, s[i].id)
  }

  /** Everything but the element at k is in order, and that one is not before what comes after it. */
  predicate SortedExcept(s: seq<Migration>, k: nat) {
    && (forall i, j :: 0 <= i < j < |s| && i != k && j != k ==> !Less(s[j].id, s[i].id))
    && (forall j :: k < j < |s| && k < |s| ==> !Less(s[j].id, s[k].id))
  }

  lemma SwapKeeps(s: seq<Migration>, k: nat)
    requires 0 < k < |s| && SortedExcept(s, k) && Less(s[k].id, s[k - 1].id)
    ensures SortedExcept(s[k - 1 := s[k]][k := s[k - 1]], k - 1)
  {
    LessIsTotal(s[k].id, s[k - 1].id);
  }

  lemma InOrder(s: seq<Migration>, k: nat)
    requires k < |s| && SortedExcept(s, k) && (k == 0 || !Less(s[k].id, s[k - 1].id))
    ensures Sorted(s)
  {
    forall i | 0 <= i < k ensures !Less(s[k].id, s[i].id) {
      if i < k - 1 { LessIsTransitive(s[i].id, s[k - 1].id, s[k].id); }
    }
  }

  /** Moves the last element of the first n to its place. */
  method Insert(a: array<Migration>, n: nat)
    requires 0 < n <= a.Length && Sorted(a[..n - 1])
    modifies a
    ensures Sorted(a[..n]) && a[n..] == old(a[n..])
    ensures multiset(a[..]) == multiset(old(a[..]))
  {
    var k := n - 1;
    assert SortedExcept(a[..n], k) by { assert a[..n][..n - 1] == a[..n - 1]; }
    while k > 0 && Less(a[k].id, a[k - 1].id)
      invariant 0 <= k < n && SortedExcept(a[..n], k)
      invariant a[n..] == old(a[n..]) && multiset(a[..]) == multiset(old(a[..]))
    {
      SwapKeeps(a[..n], k);
      ghost var s := a[..n];
      a[k - 1], a[k] := a[k], a[k - 1];
      assert a[..n] == s[k - 1 := s[k]][k := s[k - 1]];
      k := k - 1;
    }
    InOrder(a[..n], k);
  }

  /** Stands for sort.Slice with the IDs' order: some permutation that is sorted. */
  method SortSlice(a: array<Migration>)
    modifies a
    ensures Sorted(a[..]) && multiset(a[..]) == multiset(old(a[..]))
  {
    for n := 0 to a.Length
      invariant Sorted(a[..n]) && multiset(a[..]) == multiset(old(a[..]))
    {
      Insert(a, n + 1);
    }
    assert a[..a.Length] == a[..];
  }

  class Registry {
    var migrations: seq<Migration>

    constructor ()
      ensures migrations == []
    {
      migrations := [];
    }

    method RegisterMigration(m: Migration)
      modifies this
      ensures migrations == old(migrations) + [m]
    {
      migrations := migrations + [m];
    }

    /** The copy is sorted; the registry itself is not touched. */
    method LoadDiscoveredMigrations() returns (sorted: array<Migration>)
      ensures fresh(sorted) && Sorted(sorted[..]) && multiset(sorted[..]) == multiset(migrations)
    {
      var registered := migrations;
      sorted := new Migration[|registered|](i requires 0 <= i < |registered| => registered[i]);
      assert sorted[..] == registered;
      SortSlice(sorted);
    }
  }

  /** No two different migrations have the same ID. */
  predicate IdsIdentify(s: seq<Migration>) {
    forall i, j :: 0 <= i < j < |s| && s[i].id == s[j].id ==> s[i] == s[j]
  }

  lemma FirstAndRest(s: seq<Migration>)
    requires s != []
    ensures multiset(s) == multiset{s[0]} + multiset(s[1..])
    ensures Sorted(s) ==> Sorted(s[1..])
    ensures IdsIdentify(s) ==> IdsIdentify(s[1..])
  {
    assert s == [s[0]] + s[1..];
    assert forall i :: 0 <= i < |s[1..]| ==> s[1..][i] == s[i + 1];
  }

  lemma Rests(all: multiset<Migration>, a: multiset<Migration>, b: multiset<Migration>, m: Migration)
    requires all == multiset{m} + a == multiset{m} + b
    ensures a == b
  {
    assert a == all - multiset{m} == b;
  }

  lemma {:induction false} OneOrder(s: seq<Migration>, t: seq<Migration>)
    requires multiset(s) == multiset(t) && Sorted(s) && Sorted(t) && IdsIdentify(s)
    ensures s == t
    decreases |s|
  {
    if s == [] {
      assert |multiset(t)| == |t|;
    } else {
      SameFirst(s, t);
      FirstAndRest(s);
      FirstAndRest(t);
      Rests(multiset(s), multiset(s[1..]), multiset(t[1..]), s[0]);
      OneOrder(s[1..], t[1..]);
      assert s == [s[0]] + s[1..] && t == [t[0]] + t[1..];
    }
  }

  lemma SameFirst(s: seq<Migration>, t: seq<Migration>)
    requires s != [] && multiset(s) == multiset(t) && Sorted(s) && Sorted(t) && IdsIdentify(s)
    ensures t != [] && t[0] == s[0]
  {
    assert |s| == |multiset(s)| == |multiset(t)| == |t|;
    assert s[0] in multiset(t) && t[0] in multiset(s);
    var j :| 0 <= j < |t| && t[j] == s[0];
    var i :| 0 <= i < |s| && s[i] == t[0];
    if s[0].id != t[0].id { LessIsTotal(s[0].id, t[0].id); }
  }

  /** Two migrations of one ID can change places. */
  lemma SwapEqualIds(s: seq<Migration>, i: nat, j: nat) returns (t: seq<Migration>)
    requires Sorted(s) && i < j < |s| && s[i].id == s[j].id && s[i] != s[j]
    ensures Sorted(t) && multiset(t) == multiset(s) && t != s
  {
    t := s[i := s[j]][j := s[i]];
    assert forall k :: 0 <= k < |s| ==> t[k].id == s[k].id;
    assert t[i] != s[i];
  }

  /**
   * A sorted list is the only one of its migrations if and only if no two of them share an ID: then,
   * and only then, what is loaded does not depend on the order of registration.
   */
  lemma OneOrderIffIdsIdentify(s: seq<Migration>)
    requires Sorted(s)
    ensures IdsIdentify(s) <==> forall t :: Sorted(t) && multiset(t) == multiset(s) ==> t == s
  {
    if IdsIdentify(s) {
      forall t | Sorted(t) && multiset(t) == multiset(s) ensures t == s {
        OneOrder(s, t);
      }
    } else {
      var i, j :| 0 <= i < j < |s| && s[i].id == s[j].id && s[i] != s[j];
      var t := SwapEqualIds(s, i, j);
    }
  }
}
