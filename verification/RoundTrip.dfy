/**
 Applying a diff to its source value. In index mode the target comes back; in
 keyed mode it comes back up to the order of keyed arrays, which `Merged`
 spells out.
 */
module RoundTrip {

  import opened Wrappers
  import opened Text
  import opened Json
  import opened Paths
  import opened Diff
  import opened Apply

  /** The target, with every keyed array listing the source's surviving elements
      in the source's order and then the new elements in the target's order. */
  function Merged(path: string, keys: ArrayKeys, a: Json, b: Json): Json
    decreases a, 1
  {
    if a == b then b
    else if a.Obj? && b.Obj? then
      Obj(map k <- b.fields :: if k in a.fields then Merged(ChildPath(path, k), keys, a.fields[k], b.fields[k])
                               else b.fields[k])
    else if KeyedAt(path, keys, a, b) then
      Arr(Survivors(path, keys, a, b, keys[path], 0) + Newcomers(a, b, keys[path], 0))
    else if a.Arr? && b.Arr? then
      Arr(seq(|b.items|, i requires 0 <= i < |b.items| =>
                if i < |a.items| then Merged(IndexPath(path, i), keys, a.items[i], b.items[i]) else b.items[i]))
    else b
  }

  function MergedField(path: string, keys: ArrayKeys, a: Json, b: Json, k: string): Json
    requires a.Obj? && b.Obj? && k in b.fields
  {
    if k in a.fields then Merged(ChildPath(path, k), keys, a.fields[k], b.fields[k]) else b.fields[k]
  }

  function Survivors(path: string, keys: ArrayKeys, a: Json, b: Json, f: string, i: nat): seq<Json>
    requires a.Arr? && b.Arr? && Keyable(a.items, f) && i <= |a.items|
    decreases a, 0, |a.items| - i
  {
    if i == |a.items| then [] else
      var v := KeyOf(a.items[i], f).value;
      var j := IndexOfKey(b.items, f, v);
      (if j < 0 then [] else [Merged(KeyedPath(path, f, v), keys, a.items[i], b.items[j])])
      + Survivors(path, keys, a, b, f, i + 1)
  }

  function Newcomers(a: Json, b: Json, f: string, j: nat): seq<Json>
    requires a.Arr? && b.Arr? && Keyable(b.items, f) && j <= |b.items|
    decreases |b.items| - j
  {
    if j == |b.items| then []
    else
      (if IndexOfKey(a.items, f, KeyOf(b.items[j], f).value) >= 0 then [] else [b.items[j]])
      + Newcomers(a, b, f, j + 1)
  }

  // ----------------------------------------------------------- identity is kept

  lemma ScalarEdits(path: string, keys: ArrayKeys, a: Json, b: Json)
    requires KeyText(a).Some? && KeyText(b).Some?
    ensures Edits(path, keys, a, b) == if a == b then [] else [Edit([], OpChange, a, b)]
  {
  }

  lemma {:induction false} FieldEditsKeepKey(path: string, keys: ArrayKeys, a: Json, b: Json, ks: seq<string>, f: string, v: string)
    requires KeyOf(a, f) == Some(v) == KeyOf(b, f)
    requires forall k <- ks :: k in a.fields || k in b.fields
    ensures forall e <- FieldEdits(path, keys, a, b, ks) :: KeepsKey(e, f, v)
    decreases |ks|
  {
    if ks != [] {
      FieldEditsKeepKey(path, keys, a, b, ks[1..], f, v);
      if ks[0] == f {
        ScalarEdits(ChildPath(path, f), keys, a.fields[f], b.fields[f]);
      }
    }
  }

  lemma ElementEditsKeepKey(path: string, keys: ArrayKeys, a: Json, b: Json, f: string, v: string)
    requires KeyOf(a, f) == Some(v) == KeyOf(b, f)
    ensures forall e <- Edits(path, keys, a, b) :: KeepsKey(e, f, v)
  {
    if a != b {
      FieldEditsKeepKey(path, keys, a, b, Sorted(a.fields.Keys + b.fields.Keys), f, v);
    }
  }

  // ---------------------------------------------------------------- the theorem

  /** Replaying the edits from `a` to `b` onto `a` gives `Merged(a, b)`, even
      when changed members must already exist. */
  lemma {:induction false} EditsReach(strict: bool, path: string, keys: ArrayKeys, a: Json, b: Json)
    ensures ApplyEdits(strict, a, Edits(path, keys, a, b)) == Ok(Merged(path, keys, a, b))
    decreases a, 2
  {
    if a == b {
    } else if a.Obj? && b.Obj? {
      var m := FieldsReach(strict, path, keys, a, b, Sorted(a.fields.Keys + b.fields.Keys), a.fields);
      MergedObj(path, keys, a, b, m);
    } else if KeyedAt(path, keys, a, b) {
      KeyedArrayReach(strict, path, keys, a, b);
    } else if a.Arr? && b.Arr? {
      IndexReach(strict, path, keys, a, b);
    }
  }

  lemma MergedObj(path: string, keys: ArrayKeys, a: Json, b: Json, m: map<string, Json>)
    requires a.Obj? && b.Obj? && a != b
    requires m.Keys == b.fields.Keys
    requires forall x <- m :: m[x] == MergedField(path, keys, a, b, x)
    ensures Merged(path, keys, a, b) == Obj(m)
  {
    assert m == Merged(path, keys, a, b).fields;
  }

  lemma {:induction false} FieldsReach(strict: bool, path: string, keys: ArrayKeys, a: Json, b: Json, ks: seq<string>, m: map<string, Json>)
    returns (r: map<string, Json>)
    requires a.Obj? && b.Obj?
    requires forall k <- ks :: k in a.fields || k in b.fields
    requires Ascending(ks)
    requires forall k <- ks :: (k in m <==> k in a.fields) && (k in m ==> m[k] == a.fields[k])
    ensures ApplyEdits(strict, Obj(m), FieldEdits(path, keys, a, b, ks)) == Ok(Obj(r))
    ensures forall x :: x in r <==> if x in ks then x in b.fields else x in m
    ensures forall x <- r :: r[x] == if x !in ks then m[x] else MergedField(path, keys, a, b, x)
    decreases a, 1, |ks|
  {
    if ks == [] {
      r := m;
    } else {
      var k := ks[0];
      AscendingTail(ks);
      var m' := FieldReach(strict, path, keys, a, b, k, m);
      r := FieldsReach(strict, path, keys, a, b, ks[1..], m');
      ApplyEditsConcat(strict, Obj(m), FieldEdit(path, keys, a, b, k), FieldEdits(path, keys, a, b, ks[1..]));
    }
  }

  lemma {:induction false} FieldReach(strict: bool, path: string, keys: ArrayKeys, a: Json, b: Json, k: string, m: map<string, Json>)
    returns (r: map<string, Json>)
    requires a.Obj? && b.Obj?
    requires k in a.fields || k in b.fields
    requires (k in m <==> k in a.fields) && (k in m ==> m[k] == a.fields[k])
    ensures ApplyEdits(strict, Obj(m), FieldEdit(path, keys, a, b, k)) == Ok(Obj(r))
    ensures forall x :: x in r <==> if x == k then x in b.fields else x in m
    ensures forall x <- r :: r[x] == if x != k then m[x] else MergedField(path, keys, a, b, x)
    decreases a, 0
  {
    var es := FieldEdit(path, keys, a, b, k);
    if k in a.fields && k in b.fields {
      EditsReach(strict, ChildPath(path, k), keys, a.fields[k], b.fields[k]);
      LiftKey(strict, m, k, Edits(ChildPath(path, k), keys, a.fields[k], b.fields[k]));
      r := m[k := Merged(ChildPath(path, k), keys, a.fields[k], b.fields[k])];
    } else {
      r := if k in b.fields then m[k := b.fields[k]] else m - {k};
      assert ApplyEdits(strict, Obj(r), es[1..]) == Ok(Obj(r));
    }
  }

  // -------------------------------------------------------------- index arrays

  lemma {:induction false} IndexReach(strict: bool, path: string, keys: ArrayKeys, a: Json, b: Json)
    requires a.Arr? && b.Arr? && a != b && !KeyedAt(path, keys, a, b)
    ensures ApplyEdits(strict, a, Edits(path, keys, a, b)) == Ok(Merged(path, keys, a, b))
    decreases a, 1
  {
    var n := Min(|a.items|, |b.items|);
    var common, tail := CommonEdits(path, keys, a, b, 0), AddEdits(b.items, n) + RemoveEdits(a.items, n, |a.items|);
    var s := CommonReach(strict, path, keys, a, b, 0, a.items);
    EditsOfIndexed(path, keys, a, b);
    ApplyEditsConcat(strict, a, common, tail);
    TailReach(strict, s, a.items, b.items);
    MergedIndex(path, keys, a, b, s);
  }

  lemma EditsOfIndexed(path: string, keys: ArrayKeys, a: Json, b: Json)
    requires a.Arr? && b.Arr? && a != b && !KeyedAt(path, keys, a, b)
    ensures var n := Min(|a.items|, |b.items|);
      Edits(path, keys, a, b) ==
      CommonEdits(path, keys, a, b, 0) + (AddEdits(b.items, n) + RemoveEdits(a.items, n, |a.items|))
  {
  }

  lemma TailReach(strict: bool, s: seq<Json>, xs: seq<Json>, ys: seq<Json>)
    requires |s| == |xs|
    ensures var n := Min(|xs|, |ys|);
      ApplyEdits(strict, Arr(s), AddEdits(ys, n) + RemoveEdits(xs, n, |xs|)) == Ok(Arr(s[..n] + ys[n..]))
  {
    var n := Min(|xs|, |ys|);
    if |xs| <= |ys| {
      AddReach(strict, s, ys, n);
      assert AddEdits(ys, n) + RemoveEdits(xs, n, |xs|) == AddEdits(ys, n);
      assert s[..n] == s;
    } else {
      RemoveReach(strict, s, xs, n, |xs|);
      assert AddEdits(ys, n) + RemoveEdits(xs, n, |xs|) == RemoveEdits(xs, n, |xs|);
      assert s[..n] + ys[n..] == s[..n];
    }
  }

  lemma MergedIndex(path: string, keys: ArrayKeys, a: Json, b: Json, s: seq<Json>)
    requires a.Arr? && b.Arr? && a != b && !KeyedAt(path, keys, a, b)
    requires |s| == |a.items|
    requires forall j | 0 <= j < Min(|a.items|, |b.items|) ::
      s[j] == Merged(IndexPath(path, j), keys, a.items[j], b.items[j])
    ensures var n := Min(|a.items|, |b.items|); Merged(path, keys, a, b) == Arr(s[..n] + b.items[n..])
  {
    var n := Min(|a.items|, |b.items|);
    assert s[..n] + b.items[n..] == Merged(path, keys, a, b).items;
  }

  lemma {:induction false} CommonReach(strict: bool, path: string, keys: ArrayKeys, a: Json, b: Json, i: nat, s: seq<Json>)
    returns (r: seq<Json>)
    requires a.Arr? && b.Arr? && i <= Min(|a.items|, |b.items|)
    requires |s| == |a.items| && forall j | i <= j < |s| :: s[j] == a.items[j]
    ensures ApplyEdits(strict, Arr(s), CommonEdits(path, keys, a, b, i)) == Ok(Arr(r))
    ensures |r| == |s| && forall j | 0 <= j < i :: r[j] == s[j]
    ensures forall j | i <= j < Min(|a.items|, |b.items|) ::
      r[j] == Merged(IndexPath(path, j), keys, a.items[j], b.items[j])
    decreases a, 0, |a.items| - i
  {
    if i == Min(|a.items|, |b.items|) {
      r := s;
    } else {
      var p := IndexPath(path, i);
      var es := Edits(p, keys, a.items[i], b.items[i]);
      EditsReach(strict, p, keys, a.items[i], b.items[i]);
      LiftIndex(strict, s, i, es);
      var s' := s[i := Merged(p, keys, a.items[i], b.items[i])];
      r := CommonReach(strict, path, keys, a, b, i + 1, s');
      Chain(strict, Arr(s), Prefix(Index(i), es), Arr(s'), CommonEdits(path, keys, a, b, i + 1), Arr(r));
    }
  }

  /** Ascending additions land exactly at the end each time. */
  lemma {:induction false} AddReach(strict: bool, s: seq<Json>, items: seq<Json>, i: nat)
    requires i <= |items| && |s| == i
    ensures ApplyEdits(strict, Arr(s), AddEdits(items, i)) == Ok(Arr(s + items[i..]))
    decreases |items| - i
  {
    if i < |items| {
      assert InsertAt(s, i, items[i]) == s + [items[i]];
      AddReach(strict, s + [items[i]], items, i + 1);
      assert s + items[i..] == s + [items[i]] + items[i + 1..];
      assert AddEdits(items, i)[1..] == AddEdits(items, i + 1);
    } else {
      assert s + items[i..] == s;
    }
  }

  /** Descending removals always take the last element. */
  lemma {:induction false} RemoveReach(strict: bool, s: seq<Json>, items: seq<Json>, n: nat, i: nat)
    requires n <= i <= |items| && |s| == i
    ensures ApplyEdits(strict, Arr(s), RemoveEdits(items, n, i)) == Ok(Arr(s[..n]))
    decreases i
  {
    if i > n {
      assert RemoveAt(s, i - 1) == s[..i - 1];
      RemoveReach(strict, s[..i - 1], items, n, i - 1);
      assert s[..i - 1][..n] == s[..n];
      assert RemoveEdits(items, n, i)[1..] == RemoveEdits(items, n, i - 1);
    } else {
      assert s[..n] == s;
    }
  }

  // -------------------------------------------------------------- keyed arrays

  lemma {:induction false} KeyedArrayReach(strict: bool, path: string, keys: ArrayKeys, a: Json, b: Json)
    requires a != b && KeyedAt(path, keys, a, b)
    ensures ApplyEdits(strict, a, Edits(path, keys, a, b)) == Ok(Merged(path, keys, a, b))
    decreases a, 1, |a.items| + 1
  {
    var f := keys[path];
    var s := Survivors(path, keys, a, b, f, 0);
    KeyedReach(strict, path, keys, a, b, f, [], 0);
    assert [] + a.items[0..] == a.items && [] + s == s;
    NewKeyedReach(strict, a, b, f, s, 0);
    ApplyEditsConcat(strict, a, KeyedEdits(path, keys, a, b, f, 0), NewKeyedEdits(a, b, f, 0));
  }

  /** No element of `done` shares its identity with a source element from `i` on. */
  ghost predicate Apart(done: seq<Json>, items: seq<Json>, f: string, i: nat) {
    forall x, j | 0 <= x < |done| && i <= j < |items| :: KeyOf(done[x], f) != KeyOf(items[j], f)
  }

  /** What becomes of source element `i`: nothing, or its merged form. */
  function Survivor(path: string, keys: ArrayKeys, a: Json, b: Json, f: string, i: nat): seq<Json>
    requires a.Arr? && b.Arr? && Keyable(a.items, f) && i < |a.items|
  {
    var v := KeyOf(a.items[i], f).value;
    var j := IndexOfKey(b.items, f, v);
    if j < 0 then [] else [Merged(KeyedPath(path, f, v), keys, a.items[i], b.items[j])]
  }

  lemma KeyedUnfold(path: string, keys: ArrayKeys, a: Json, b: Json, f: string, i: nat)
    requires a.Arr? && b.Arr? && Keyable(a.items, f) && i < |a.items|
    ensures KeyedEdits(path, keys, a, b, f, i) ==
            KeyedEdit(path, keys, a, b, f, i) + KeyedEdits(path, keys, a, b, f, i + 1)
    ensures Survivors(path, keys, a, b, f, i) ==
            Survivor(path, keys, a, b, f, i) + Survivors(path, keys, a, b, f, i + 1)
  {
  }

  /** With `done` already merged, the rest of the source is walked in order. */
  lemma {:induction false} KeyedReach(strict: bool, path: string, keys: ArrayKeys, a: Json, b: Json, f: string, done: seq<Json>, i: nat)
    requires a.Arr? && b.Arr? && Keyable(a.items, f) && i <= |a.items|
    requires Apart(done, a.items, f, i)
    ensures ApplyEdits(strict, Arr(done + a.items[i..]), KeyedEdits(path, keys, a, b, f, i)) ==
            Ok(Arr(done + Survivors(path, keys, a, b, f, i)))
    decreases a, 1, |a.items| - i
  {
    if i < |a.items| {
      var one, rest := KeyedEdit(path, keys, a, b, f, i), KeyedEdits(path, keys, a, b, f, i + 1);
      var x, xs := Survivor(path, keys, a, b, f, i), Survivors(path, keys, a, b, f, i + 1);
      KeyedUnfold(path, keys, a, b, f, i);
      KeyedElementReach(strict, path, keys, a, b, f, done, i);
      KeyedReach(strict, path, keys, a, b, f, done + x, i + 1);
      Assoc(done, x, xs);
      Chain(strict, Arr(done + a.items[i..]), one, Arr(done + x + a.items[i + 1..]), rest, Arr(done + (x + xs)));
    } else {
      assert done + a.items[i..] == done + Survivors(path, keys, a, b, f, i);
    }
  }

  lemma SelectedPosition(done: seq<Json>, items: seq<Json>, f: string, i: nat)
    requires i < |items| && Apart(done, items, f, i) && KeyOf(items[i], f).Some?
    ensures var s := done + items[i..];
      && s[|done|] == items[i]
      && (forall x | 0 <= x < |done| :: KeyOf(s[x], f) != KeyOf(items[i], f))
      && IndexOfKey(s, f, KeyOf(items[i], f).value) == |done|
  {
    var s := done + items[i..];
    assert s[|done|] == items[i];
    KeyedPosition(s, |done|, f, KeyOf(items[i], f).value);
  }

  lemma {:induction false} KeyedElementReach(strict: bool, path: string, keys: ArrayKeys, a: Json, b: Json, f: string,
                                             done: seq<Json>, i: nat)
    requires a.Arr? && b.Arr? && Keyable(a.items, f) && i < |a.items|
    requires Apart(done, a.items, f, i)
    ensures ApplyEdits(strict, Arr(done + a.items[i..]), KeyedEdit(path, keys, a, b, f, i)) ==
            Ok(Arr(done + Survivor(path, keys, a, b, f, i) + a.items[i + 1..]))
    ensures Apart(done + Survivor(path, keys, a, b, f, i), a.items, f, i + 1)
    decreases a, 0
  {
    var v := KeyOf(a.items[i], f).value;
    var j := IndexOfKey(b.items, f, v);
    if j < 0 {
      RemovedReach(strict, a.items, f, done, i);
      assert done + [] == done;
    } else {
      var p := KeyedPath(path, f, v);
      EditsReach(strict, p, keys, a.items[i], b.items[j]);
      ElementEditsKeepKey(p, keys, a.items[i], b.items[j], f, v);
      KeptReach(strict, a.items, f, done, i, Edits(p, keys, a.items[i], b.items[j]), Merged(p, keys, a.items[i], b.items[j]));
    }
  }

  lemma RemovedReach(strict: bool, items: seq<Json>, f: string, done: seq<Json>, i: nat)
    requires i < |items| && Apart(done, items, f, i) && KeyOf(items[i], f).Some?
    ensures ApplyEdits(strict, Arr(done + items[i..]), [Edit([Keyed(f, KeyOf(items[i], f).value)], OpRemove, items[i], Null)]) ==
            Ok(Arr(done + items[i + 1..]))
    ensures Apart(done, items, f, i + 1)
  {
    var s := done + items[i..];
    SelectedPosition(done, items, f, i);
    RemovedElement(strict, s, |done|, Edit([Keyed(f, KeyOf(items[i], f).value)], OpRemove, items[i], Null));
    assert RemoveAt(s, |done|) == done + items[i + 1..];
  }

  lemma KeptReach(strict: bool, items: seq<Json>, f: string, done: seq<Json>, i: nat, es: seq<Edit>, w: Json)
    requires i < |items| && Apart(done, items, f, i) && Keyable(items, f)
    requires forall e <- es :: KeepsKey(e, f, KeyOf(items[i], f).value)
    requires ApplyEdits(strict, items[i], es) == Ok(w)
    ensures ApplyEdits(strict, Arr(done + items[i..]), Prefix(Keyed(f, KeyOf(items[i], f).value), es)) ==
            Ok(Arr(done + [w] + items[i + 1..]))
    ensures Apart(done + [w], items, f, i + 1)
  {
    var s := done + items[i..];
    SelectedPosition(done, items, f, i);
    LiftKeyed(strict, s, |done|, f, KeyOf(items[i], f).value, es);
    assert s[|done| := w] == done + [w] + items[i + 1..];
  }

  lemma RemovedElement(strict: bool, s: seq<Json>, i: nat, e: Edit)
    requires i < |s| && |e.segs| == 1 && e.segs[0].Keyed? && e.op == OpRemove
    requires IndexOfKey(s, e.segs[0].field, e.segs[0].val) == i
    ensures ApplyEdits(strict, Arr(s), [e]) == Ok(Arr(RemoveAt(s, i)))
  {
    assert [e][1..] == [];
    assert ApplyEdits(strict, Arr(RemoveAt(s, i)), []) == Ok(Arr(RemoveAt(s, i)));
  }

  lemma {:induction false} NewKeyedReach(strict: bool, a: Json, b: Json, f: string, s: seq<Json>, j: nat)
    requires a.Arr? && b.Arr? && Keyable(b.items, f) && j <= |b.items|
    ensures ApplyEdits(strict, Arr(s), NewKeyedEdits(a, b, f, j)) == Ok(Arr(s + Newcomers(a, b, f, j)))
    decreases |b.items| - j
  {
    if j < |b.items| {
      var v := KeyOf(b.items[j], f).value;
      if IndexOfKey(a.items, f, v) >= 0 {
        NewKeyedReach(strict, a, b, f, s, j + 1);
        assert NewKeyedEdits(a, b, f, j) == NewKeyedEdits(a, b, f, j + 1);
        assert Newcomers(a, b, f, j) == Newcomers(a, b, f, j + 1);
      } else {
        NewKeyedReach(strict, a, b, f, s + [b.items[j]], j + 1);
        assert NewKeyedEdits(a, b, f, j)[1..] == NewKeyedEdits(a, b, f, j + 1);
        assert s + Newcomers(a, b, f, j) == s + [b.items[j]] + Newcomers(a, b, f, j + 1);
      }
    } else {
      assert s + Newcomers(a, b, f, j) == s;
    }
  }
}
