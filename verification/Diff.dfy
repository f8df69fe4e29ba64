/**
 What the diff computes (internal/diff/diff.go): a list of edits, each at a
 location relative to the compared values. `Printed` turns the edits into the
 textual changes that are stored.
 */
module Diff {

  import opened Wrappers
  import opened Text
  import opened Json
  import opened Paths

  datatype Op = OpAdd | OpChange | OpRemove | OpOther(name: string)

  datatype Change = Change(path: string, op: Op, before: Json, after: Json)

  datatype Edit = Edit(segs: seq<Seg>, op: Op, before: Json, after: Json)

  /** Array path to the element field that identifies an element. */
  type ArrayKeys = map<string, string>

  // ---------------------------------------------------------------- keyed arrays

  /** First element whose identity is `val`, or -1. */
  function IndexOfKey(items: seq<Json>, field: string, val: string): (j: int)
    ensures -1 <= j < |items|
    ensures j >= 0 ==> KeyOf(items[j], field) == Some(val)
    ensures forall i | 0 <= i < (if j < 0 then |items| else j) :: KeyOf(items[i], field) != Some(val)
  {
    if items == [] then -1
    else if KeyOf(items[0], field) == Some(val) then 0
    else
      var j := IndexOfKey(items[1..], field, val);
      if j < 0 then -1 else j + 1
  }

  /** Every element has an identity and no two share it. */
  predicate Keyable(items: seq<Json>, field: string) {
    && (forall i | 0 <= i < |items| :: KeyOf(items[i], field).Some?)
    && (forall i, j | 0 <= i < j < |items| :: KeyOf(items[i], field) != KeyOf(items[j], field))
  }

  /** Is an array pair at `path` matched by identity? */
  predicate KeyedAt(path: string, keys: ArrayKeys, a: Json, b: Json) {
    a.Arr? && b.Arr? && path in keys && Keyable(a.items, keys[path]) && Keyable(b.items, keys[path])
  }

  // ----------------------------------------------------------------------- edits

  function Prefix(s: Seg, es: seq<Edit>): (r: seq<Edit>)
    ensures |r| == |es|
    ensures forall i | 0 <= i < |es| :: r[i] == es[i].(segs := [s] + es[i].segs)
  {
    seq(|es|, i requires 0 <= i < |es| => es[i].(segs := [s] + es[i].segs))
  }

  lemma PrefixTail(s: Seg, es: seq<Edit>)
    requires es != []
    ensures Prefix(s, es)[1..] == Prefix(s, es[1..])
  {
    forall i | 0 <= i < |es| - 1 ensures Prefix(s, es)[1..][i] == Prefix(s, es[1..])[i] {
      assert es[1..][i] == es[i + 1];
    }
  }

  function Min(x: nat, y: nat): nat { if x < y then x else y }

  function Edits(path: string, keys: ArrayKeys, a: Json, b: Json): seq<Edit>
    decreases a, 2
  {
    if a == b then []
    else if a.Obj? && b.Obj? then
      FieldEdits(path, keys, a, b, Sorted(a.fields.Keys + b.fields.Keys))
    else if KeyedAt(path, keys, a, b) then
      KeyedEdits(path, keys, a, b, keys[path], 0) + NewKeyedEdits(a, b, keys[path], 0)
    else if a.Arr? && b.Arr? then
      var n := Min(|a.items|, |b.items|);
      CommonEdits(path, keys, a, b, 0) + AddEdits(b.items, n) + RemoveEdits(a.items, n, |a.items|)
    else [Edit([], OpChange, a, b)]
  }

  function FieldEdits(path: string, keys: ArrayKeys, a: Json, b: Json, ks: seq<string>): seq<Edit>
    requires a.Obj? && b.Obj?
    requires forall k <- ks :: k in a.fields || k in b.fields
    decreases a, 1, |ks|
  {
    if ks == [] then []
    else FieldEdit(path, keys, a, b, ks[0]) + FieldEdits(path, keys, a, b, ks[1..])
  }

  function FieldEdit(path: string, keys: ArrayKeys, a: Json, b: Json, k: string): seq<Edit>
    requires a.Obj? && b.Obj?
    requires k in a.fields || k in b.fields
    decreases a, 0
  {
    if k in a.fields && k in b.fields then
      Prefix(Key(k), Edits(ChildPath(path, k), keys, a.fields[k], b.fields[k]))
    else if k in b.fields then [Edit([Key(k)], OpAdd, Null, b.fields[k])]
    else [Edit([Key(k)], OpRemove, a.fields[k], Null)]
  }

  function CommonEdits(path: string, keys: ArrayKeys, a: Json, b: Json, i: nat): seq<Edit>
    requires a.Arr? && b.Arr? && i <= Min(|a.items|, |b.items|)
    decreases a, 1, |a.items| - i
  {
    if i == Min(|a.items|, |b.items|) then [] else
      Prefix(Index(i), Edits(IndexPath(path, i), keys, a.items[i], b.items[i]))
      + CommonEdits(path, keys, a, b, i + 1)
  }

  /** Tail additions, ascending. */
  function AddEdits(items: seq<Json>, i: nat): seq<Edit>
    requires i <= |items|
    decreases |items| - i
  {
    if i == |items| then [] else [Edit([Index(i)], OpAdd, Null, items[i])] + AddEdits(items, i + 1)
  }

  /** Tail removals of positions n .. i-1, descending. */
  function RemoveEdits(items: seq<Json>, n: nat, i: nat): seq<Edit>
    requires n <= i <= |items|
  {
    if i == n then [] else [Edit([Index(i - 1)], OpRemove, items[i - 1], Null)] + RemoveEdits(items, n, i - 1)
  }

  function KeyedEdits(path: string, keys: ArrayKeys, a: Json, b: Json, f: string, i: nat): seq<Edit>
    requires a.Arr? && b.Arr? && Keyable(a.items, f) && i <= |a.items|
    decreases a, 1, |a.items| - i
  {
    if i == |a.items| then []
    else KeyedEdit(path, keys, a, b, f, i) + KeyedEdits(path, keys, a, b, f, i + 1)
  }

  function KeyedEdit(path: string, keys: ArrayKeys, a: Json, b: Json, f: string, i: nat): seq<Edit>
    requires a.Arr? && b.Arr? && Keyable(a.items, f) && i < |a.items|
    decreases a, 0
  {
    var v := KeyOf(a.items[i], f).value;
    var j := IndexOfKey(b.items, f, v);
    if j >= 0 then Prefix(Keyed(f, v), Edits(KeyedPath(path, f, v), keys, a.items[i], b.items[j]))
    else [Edit([Keyed(f, v)], OpRemove, a.items[i], Null)]
  }

  function NewKeyedEdits(a: Json, b: Json, f: string, j: nat): seq<Edit>
    requires a.Arr? && b.Arr? && Keyable(b.items, f) && j <= |b.items|
    decreases |b.items| - j
  {
    if j == |b.items| then []
    else
      var v := KeyOf(b.items[j], f).value;
      (if IndexOfKey(a.items, f, v) >= 0 then [] else [Edit([Keyed(f, v)], OpAdd, Null, b.items[j])])
      + NewKeyedEdits(a, b, f, j + 1)
  }

  // -------------------------------------------------------------------- printing

  /** The text of a location below `path`. */
  function TextOf(path: string, segs: seq<Seg>): string
    decreases |segs|
  {
    if segs == [] then path else TextOf(Extend(path, segs[0]), segs[1..])
  }

  function Print(path: string, e: Edit): Change {
    Change(TextOf(path, e.segs), e.op, e.before, e.after)
  }

  function Printed(path: string, es: seq<Edit>): (r: seq<Change>)
    ensures |r| == |es|
    ensures forall i | 0 <= i < |es| :: r[i] == Print(path, es[i])
  {
    seq(|es|, i requires 0 <= i < |es| => Print(path, es[i]))
  }

  /** The stored diff of two values. */
  function DiffOf(keys: ArrayKeys, a: Json, b: Json): seq<Change> {
    Printed("", Edits("", keys, a, b))
  }

  lemma PrintedConcat(path: string, xs: seq<Edit>, ys: seq<Edit>)
    ensures Printed(path, xs + ys) == Printed(path, xs) + Printed(path, ys)
  {
  }

  lemma PrintedPrefix(path: string, s: Seg, es: seq<Edit>)
    ensures Printed(path, Prefix(s, es)) == Printed(Extend(path, s), es)
  {
    forall i | 0 <= i < |es| ensures Printed(path, Prefix(s, es))[i] == Printed(Extend(path, s), es)[i] {
      assert ([s] + es[i].segs)[1..] == es[i].segs;
    }
  }

  lemma {:induction false} TextOfRender(init: seq<Seg>, segs: seq<Seg>)
    ensures TextOf(Render(init), segs) == Render(init + segs)
    decreases |segs|
  {
    if segs == [] {
      assert init + segs == init;
    } else {
      var s, rest := segs[0], segs[1..];
      assert init + segs == init + [s] + rest;
      assert TextOf(Render(init), segs) == TextOf(Extend(Render(init), s), rest);
      hide *;
      RenderSnoc(init, s);
      TextOfRender(init + [s], rest);
    }
  }
}
