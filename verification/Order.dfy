/**
 When a keyed diff reproduces its target exactly: the target already lists
 surviving elements first, in the source's order, at every keyed array.
 */
module Order {

  import opened Wrappers
  import opened Json
  import opened Paths
  import opened Diff
  import opened RoundTrip

  /** Position in the source of the element with b's j-th identity, or -1. */
  function SourceOf(a: Json, b: Json, f: string, j: nat): int
    requires a.Arr? && b.Arr? && Keyable(b.items, f) && j < |b.items|
  {
    IndexOfKey(a.items, f, KeyOf(b.items[j], f).value)
  }

  ghost predicate SourceOrder(a: Json, b: Json, f: string)
    requires a.Arr? && b.Arr? && Keyable(b.items, f)
  {
    forall i, j | 0 <= i < j < |b.items| && SourceOf(a, b, f, j) >= 0 ::
      0 <= SourceOf(a, b, f, i) < SourceOf(a, b, f, j)
  }

  ghost predicate InOrder(path: string, keys: ArrayKeys, a: Json, b: Json)
    decreases a
  {
    if a == b then true
    else if a.Obj? && b.Obj? then
      forall k | k in a.fields && k in b.fields :: InOrder(ChildPath(path, k), keys, a.fields[k], b.fields[k])
    else if KeyedAt(path, keys, a, b) then
      && SourceOrder(a, b, keys[path])
      && forall j | 0 <= j < |b.items| && SourceOf(a, b, keys[path], j) >= 0 ::
           InOrder(KeyedPath(path, keys[path], KeyOf(b.items[j], keys[path]).value), keys,
                   a.items[SourceOf(a, b, keys[path], j)], b.items[j])
    else if a.Arr? && b.Arr? then
      forall i | 0 <= i < Min(|a.items|, |b.items|) :: InOrder(IndexPath(path, i), keys, a.items[i], b.items[i])
    else true
  }

  /** Without keyed arrays nothing is reordered. */
  lemma {:induction false} IndexModeMerges(path: string, a: Json, b: Json)
    ensures Merged(path, map[], a, b) == b
    decreases a
  {
    if a == b {
    } else if a.Obj? && b.Obj? {
      forall k | k in a.fields && k in b.fields
        ensures Merged(ChildPath(path, k), map[], a.fields[k], b.fields[k]) == b.fields[k]
      {
        IndexModeMerges(ChildPath(path, k), a.fields[k], b.fields[k]);
      }
      MergedObj(path, map[], a, b, b.fields);
    } else if a.Arr? && b.Arr? {
      forall i | 0 <= i < Min(|a.items|, |b.items|)
        ensures Merged(IndexPath(path, i), map[], a.items[i], b.items[i]) == b.items[i]
      {
        IndexModeMerges(IndexPath(path, i), a.items[i], b.items[i]);
      }
      assert Merged(path, map[], a, b).items == b.items;
    }
  }

  // ----------------------------------------------------------- keyed arrangement

  lemma KeyUnique(items: seq<Json>, f: string, i: nat)
    requires i < |items| && Keyable(items, f)
    ensures IndexOfKey(items, f, KeyOf(items[i], f).value) == i
  {
    var j := IndexOfKey(items, f, KeyOf(items[i], f).value);
    assert j >= 0;
    assert KeyOf(items[j], f) == KeyOf(items[i], f);
  }

  /** Matching is mutual. */
  lemma MatchMutual(a: Json, b: Json, f: string, i: nat, j: nat)
    requires a.Arr? && b.Arr? && Keyable(a.items, f) && Keyable(b.items, f)
    requires i < |a.items| && j < |b.items|
    ensures IndexOfKey(b.items, f, KeyOf(a.items[i], f).value) == j <==> SourceOf(a, b, f, j) == i
    ensures SourceOf(a, b, f, j) == i <==> KeyOf(a.items[i], f) == KeyOf(b.items[j], f)
  {
    KeyUnique(a.items, f, i);
    KeyUnique(b.items, f, j);
  }

  /** Newcomers of a list whose first c elements survive and the rest do not. */
  lemma {:induction false} NewcomersAre(a: Json, b: Json, f: string, c: nat, j: nat)
    requires a.Arr? && b.Arr? && Keyable(b.items, f) && j <= |b.items| && c <= |b.items|
    requires forall x | 0 <= x < |b.items| :: SourceOf(a, b, f, x) >= 0 <==> x < c
    ensures Newcomers(a, b, f, j) == if j < c then b.items[c..] else b.items[j..]
    decreases |b.items| - j
  {
    if j < |b.items| {
      NewcomersAre(a, b, f, c, j + 1);
      assert SourceOf(a, b, f, j) >= 0 <==> j < c;
      if j >= c {
        assert b.items[j..] == [b.items[j]] + b.items[j + 1..];
      }
    }
  }

  /** Exactly b's first c elements survive, in the source's order. */
  ghost predicate Arranged(a: Json, b: Json, f: string, c: nat)
    requires a.Arr? && b.Arr? && Keyable(b.items, f)
  {
    && c <= |b.items|
    && (forall x | 0 <= x < |b.items| :: SourceOf(a, b, f, x) >= 0 <==> x < c)
    && SourceOrder(a, b, f)
  }

  /** b's first j elements are the ones matched before source position i. */
  ghost predicate Frontier(a: Json, b: Json, f: string, c: nat, i: nat, j: nat)
    requires a.Arr? && b.Arr? && Keyable(b.items, f)
  {
    j <= c <= |b.items| && forall x | 0 <= x < c :: SourceOf(a, b, f, x) < i <==> x < j
  }

  lemma FrontierStep(a: Json, b: Json, f: string, c: nat, i: nat, j: nat)
    requires a.Arr? && b.Arr? && Keyable(a.items, f) && Keyable(b.items, f)
    requires i < |a.items| && Arranged(a, b, f, c) && Frontier(a, b, f, c, i, j)
    ensures var x := IndexOfKey(b.items, f, KeyOf(a.items[i], f).value);
      if x >= 0 then x == j && j < c && SourceOf(a, b, f, j) == i && Frontier(a, b, f, c, i + 1, j + 1)
      else Frontier(a, b, f, c, i + 1, j)
  {
    var x := IndexOfKey(b.items, f, KeyOf(a.items[i], f).value);
    forall y | 0 <= y < |b.items| ensures x == y <==> SourceOf(a, b, f, y) == i {
      MatchMutual(a, b, f, i, y);
    }
    if x >= 0 {
      assert SourceOf(a, b, f, x) == i;
      assert j <= x < c;
      assert forall y | 0 <= y < x :: SourceOf(a, b, f, y) < SourceOf(a, b, f, x);
      forall y | 0 <= y < c ensures SourceOf(a, b, f, y) < i + 1 <==> y < j + 1 {
        assert y > j ==> SourceOf(a, b, f, j) < SourceOf(a, b, f, y);
      }
    }
  }

  /** The j-th target element is what its own merge produces. */
  ghost predicate MergesTo(path: string, keys: ArrayKeys, a: Json, b: Json, f: string, j: nat)
    requires a.Arr? && b.Arr? && Keyable(b.items, f) && j < |b.items| && SourceOf(a, b, f, j) >= 0
  {
    Merged(KeyedPath(path, f, KeyOf(b.items[j], f).value), keys, a.items[SourceOf(a, b, f, j)], b.items[j]) == b.items[j]
  }

  lemma SurvivorIs(path: string, keys: ArrayKeys, a: Json, b: Json, f: string, i: nat, j: nat)
    requires a.Arr? && b.Arr? && Keyable(a.items, f) && Keyable(b.items, f)
    requires i < |a.items| && j < |b.items| && SourceOf(a, b, f, j) == i && MergesTo(path, keys, a, b, f, j)
    ensures Survivor(path, keys, a, b, f, i) == [b.items[j]]
  {
    MatchMutual(a, b, f, i, j);
  }

  lemma Uncons<T>(s: seq<T>, j: nat, c: nat)
    requires j < c <= |s|
    ensures [s[j]] + s[j + 1..c] == s[j..c]
  {
  }

  lemma {:induction false} SurvivorsAre(path: string, keys: ArrayKeys, a: Json, b: Json, f: string, c: nat, i: nat, j: nat)
    requires a.Arr? && b.Arr? && Keyable(a.items, f) && Keyable(b.items, f)
    requires i <= |a.items| && Arranged(a, b, f, c) && Frontier(a, b, f, c, i, j)
    requires forall x | 0 <= x < c :: MergesTo(path, keys, a, b, f, x)
    ensures Survivors(path, keys, a, b, f, i) == b.items[j..c]
    decreases |a.items| - i
  {
    if i < |a.items| {
      KeyedUnfold(path, keys, a, b, f, i);
      FrontierStep(a, b, f, c, i, j);
      var x := IndexOfKey(b.items, f, KeyOf(a.items[i], f).value);
      if x >= 0 {
        SurvivorIs(path, keys, a, b, f, i, j);
        SurvivorsAre(path, keys, a, b, f, c, i + 1, j + 1);
        Uncons(b.items, j, c);
      } else {
        SurvivorsAre(path, keys, a, b, f, c, i + 1, j);
      }
    } else {
      assert c == 0 || SourceOf(a, b, f, c - 1) < i;
    }
  }

  /** How many leading target elements survive, given the order. */
  lemma {:induction false} SurvivorCount(a: Json, b: Json, f: string, n: nat) returns (c: nat)
    requires a.Arr? && b.Arr? && Keyable(b.items, f) && SourceOrder(a, b, f) && n <= |b.items|
    ensures c <= n && forall x | 0 <= x < n :: SourceOf(a, b, f, x) >= 0 <==> x < c
  {
    if n == 0 {
      c := 0;
    } else {
      c := SurvivorCount(a, b, f, n - 1);
      if SourceOf(a, b, f, n - 1) >= 0 {
        assert n == 1 || 0 <= SourceOf(a, b, f, n - 2);
        c := n;
      }
    }
  }

  lemma {:induction false} OrderedMerges(path: string, keys: ArrayKeys, a: Json, b: Json)
    requires InOrder(path, keys, a, b)
    ensures Merged(path, keys, a, b) == b
    decreases a
  {
    if a == b {
    } else if a.Obj? && b.Obj? {
      forall k | k in a.fields && k in b.fields
        ensures Merged(ChildPath(path, k), keys, a.fields[k], b.fields[k]) == b.fields[k]
      {
        OrderedMerges(ChildPath(path, k), keys, a.fields[k], b.fields[k]);
      }
      MergedObj(path, keys, a, b, b.fields);
    } else if KeyedAt(path, keys, a, b) {
      var f := keys[path];
      forall j | 0 <= j < |b.items| && SourceOf(a, b, f, j) >= 0 ensures MergesTo(path, keys, a, b, f, j) {
        OrderedMerges(KeyedPath(path, f, KeyOf(b.items[j], f).value), keys, a.items[SourceOf(a, b, f, j)], b.items[j]);
      }
      KeyedOrderedMerges(path, keys, a, b);
    } else if a.Arr? && b.Arr? {
      forall i | 0 <= i < Min(|a.items|, |b.items|)
        ensures Merged(IndexPath(path, i), keys, a.items[i], b.items[i]) == b.items[i]
      {
        OrderedMerges(IndexPath(path, i), keys, a.items[i], b.items[i]);
      }
      assert Merged(path, keys, a, b).items == b.items;
    }
  }

  lemma KeyedOrderedMerges(path: string, keys: ArrayKeys, a: Json, b: Json)
    requires a != b && KeyedAt(path, keys, a, b) && SourceOrder(a, b, keys[path])
    requires forall j | 0 <= j < |b.items| && SourceOf(a, b, keys[path], j) >= 0 :: MergesTo(path, keys, a, b, keys[path], j)
    ensures Merged(path, keys, a, b) == b
  {
    var f := keys[path];
    var c := SurvivorCount(a, b, f, |b.items|);
    assert forall x | 0 <= x < c :: MergesTo(path, keys, a, b, f, x);
    SurvivorsAre(path, keys, a, b, f, c, 0, 0);
    NewcomersAre(a, b, f, c, 0);
    assert b.items[..c] + b.items[c..] == b.items;
  }

  // ------------------------------------------------------------------- converse

  /** Source positions, from i on, whose element survives. */
  ghost function Sources(a: Json, b: Json, f: string, i: nat): (src: seq<nat>)
    requires a.Arr? && b.Arr? && Keyable(a.items, f) && i <= |a.items|
    ensures forall x | 0 <= x < |src| :: i <= src[x] < |a.items|
    ensures forall x, y | 0 <= x < y < |src| :: src[x] < src[y]
    decreases |a.items| - i
  {
    if i == |a.items| then [] else
      var rest := Sources(a, b, f, i + 1);
      if IndexOfKey(b.items, f, KeyOf(a.items[i], f).value) < 0 then rest else [i] + rest
  }

  lemma {:induction false} SurvivorCountIs(path: string, keys: ArrayKeys, a: Json, b: Json, f: string, i: nat)
    requires a.Arr? && b.Arr? && Keyable(a.items, f) && i <= |a.items|
    ensures |Survivors(path, keys, a, b, f, i)| == |Sources(a, b, f, i)|
    decreases |a.items| - i
  {
    if i < |a.items| { SurvivorCountIs(path, keys, a, b, f, i + 1); }
  }

  /** The x-th survivor is what becomes of the x-th surviving source element. */
  lemma {:induction false} SurvivorAt(path: string, keys: ArrayKeys, a: Json, b: Json, f: string, i: nat, x: nat)
    requires a.Arr? && b.Arr? && Keyable(a.items, f) && i <= |a.items| && x < |Sources(a, b, f, i)|
    ensures x < |Survivors(path, keys, a, b, f, i)|
    ensures Survivor(path, keys, a, b, f, Sources(a, b, f, i)[x]) == [Survivors(path, keys, a, b, f, i)[x]]
    decreases |a.items| - i
  {
    KeyedUnfold(path, keys, a, b, f, i);
    SurvivorCountIs(path, keys, a, b, f, i);
    hide Merged, KeyOf, IndexOfKey;
    if IndexOfKey(b.items, f, KeyOf(a.items[i], f).value) < 0 {
      SurvivorAt(path, keys, a, b, f, i + 1, x);
    } else if x > 0 {
      SurvivorAt(path, keys, a, b, f, i + 1, x - 1);
    }
  }

  lemma {:induction false} NewcomersAreNew(a: Json, b: Json, f: string, j: nat)
    requires a.Arr? && b.Arr? && Keyable(b.items, f) && j <= |b.items|
    ensures forall x <- Newcomers(a, b, f, j) :: KeyOf(x, f).Some? && IndexOfKey(a.items, f, KeyOf(x, f).value) < 0
    decreases |b.items| - j
  {
    if j < |b.items| {
      NewcomersAreNew(a, b, f, j + 1);
    }
  }

  lemma MergedKey(path: string, keys: ArrayKeys, a: Json, b: Json, f: string, v: string)
    requires KeyOf(a, f) == Some(v) == KeyOf(b, f)
    ensures KeyOf(Merged(path, keys, a, b), f) == Some(v)
  {
  }

  /** A survivor that equals the j-th target element came from its match. */
  lemma SurvivorMatches(path: string, keys: ArrayKeys, a: Json, b: Json, f: string, i: nat, j: nat)
    requires a.Arr? && b.Arr? && Keyable(a.items, f) && Keyable(b.items, f)
    requires i < |a.items| && j < |b.items| && Survivor(path, keys, a, b, f, i) == [b.items[j]]
    ensures SourceOf(a, b, f, j) == i && MergesTo(path, keys, a, b, f, j)
  {
    var v := KeyOf(a.items[i], f).value;
    var m := IndexOfKey(b.items, f, v);
    MergedKey(KeyedPath(path, f, v), keys, a.items[i], b.items[m], f, v);
    MatchMutual(a, b, f, i, j);
    KeyUnique(b.items, f, j);
  }

  lemma KeyedMergesOrdered(path: string, keys: ArrayKeys, a: Json, b: Json)
    requires a != b && KeyedAt(path, keys, a, b) && Merged(path, keys, a, b) == b
    ensures SourceOrder(a, b, keys[path])
    ensures forall j | 0 <= j < |b.items| && SourceOf(a, b, keys[path], j) >= 0 :: MergesTo(path, keys, a, b, keys[path], j)
  {
    var f := keys[path];
    var s, n := Survivors(path, keys, a, b, f, 0), Newcomers(a, b, f, 0);
    assert b.items == s + n;
    var src := Sources(a, b, f, 0);
    SurvivorCountIs(path, keys, a, b, f, 0);
    NewcomersAreNew(a, b, f, 0);
    forall j | 0 <= j < |b.items|
      ensures j < |s| ==> SourceOf(a, b, f, j) == src[j] && MergesTo(path, keys, a, b, f, j)
      ensures j >= |s| ==> SourceOf(a, b, f, j) < 0
    {
      if j < |s| {
        SurvivorAt(path, keys, a, b, f, 0, j);
        SurvivorMatches(path, keys, a, b, f, src[j], j);
      } else {
        assert b.items[j] == n[j - |s|];
      }
    }
  }

  lemma {:induction false} MergesOrdered(path: string, keys: ArrayKeys, a: Json, b: Json)
    requires Merged(path, keys, a, b) == b
    ensures InOrder(path, keys, a, b)
    decreases a
  {
    if a == b {
    } else if a.Obj? && b.Obj? {
      forall k | k in a.fields && k in b.fields ensures InOrder(ChildPath(path, k), keys, a.fields[k], b.fields[k]) {
        assert Merged(path, keys, a, b).fields[k] == b.fields[k];
        MergesOrdered(ChildPath(path, k), keys, a.fields[k], b.fields[k]);
      }
    } else if KeyedAt(path, keys, a, b) {
      var f := keys[path];
      KeyedMergesOrdered(path, keys, a, b);
      forall j | 0 <= j < |b.items| && SourceOf(a, b, f, j) >= 0
        ensures InOrder(KeyedPath(path, f, KeyOf(b.items[j], f).value), keys, a.items[SourceOf(a, b, f, j)], b.items[j])
      {
        assert MergesTo(path, keys, a, b, f, j);
        MergesOrdered(KeyedPath(path, f, KeyOf(b.items[j], f).value), keys, a.items[SourceOf(a, b, f, j)], b.items[j]);
      }
    } else if a.Arr? && b.Arr? {
      forall i | 0 <= i < Min(|a.items|, |b.items|) ensures InOrder(IndexPath(path, i), keys, a.items[i], b.items[i]) {
        assert Merged(path, keys, a, b).items[i] == b.items[i];
        MergesOrdered(IndexPath(path, i), keys, a.items[i], b.items[i]);
      }
    }
  }
}
