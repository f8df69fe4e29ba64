/**
 The promise of the diff engine on the textual changes it stores: parsing each
 path and applying the change rebuilds the target. It holds exactly for diffs
 whose locations can be told apart in text.
 */
module Textual {

  import opened Wrappers
  import opened Text
  import opened Json
  import opened Paths
  import opened Diff
  import opened Apply
  import opened RoundTrip
  import opened Order

  /** Every location of the diff is printable. */
  ghost predicate AllPrintable(es: seq<Edit>) {
    forall e <- es :: Printable(e.segs)
  }

  lemma PrintedParses(e: Edit)
    requires Printable(e.segs)
    ensures ParsePath(Print("", e).path) == Ok(e.segs)
  {
    TextOfRender([], e.segs);
    assert [] + e.segs == e.segs;
    ParseRender(e.segs);
  }

  /** On printable locations, text and structure agree step by step. */
  lemma {:induction false} ApplyPrinted(v: Json, es: seq<Edit>)
    requires AllPrintable(es)
    ensures ApplyAll(v, Printed("", es)) == ApplyEdits(false, v, es)
    decreases |es|
  {
    if es != [] {
      PrintedParses(es[0]);
      assert Printed("", es)[1..] == Printed("", es[1..]);
      var r := ApplyAt(false, v, es[0].segs, es[0].op, es[0].after);
      if r.Ok? {
        ApplyPrinted(r.value, es[1..]);
      }
    }
  }

  /** Applying a stored diff to its source rebuilds the target, up to the order
      of keyed arrays. */
  lemma ApplyDiff(keys: ArrayKeys, a: Json, b: Json)
    requires AllPrintable(Edits("", keys, a, b))
    ensures ApplyAll(a, DiffOf(keys, a, b)) == Ok(Merged("", keys, a, b))
  {
    ApplyPrinted(a, Edits("", keys, a, b));
    EditsReach(false, "", keys, a, b);
  }

  /** ... and exactly when the target already has that order, all of it. */
  lemma ApplyDiffExact(keys: ArrayKeys, a: Json, b: Json)
    requires AllPrintable(Edits("", keys, a, b))
    ensures ApplyAll(a, DiffOf(keys, a, b)) == Ok(b) <==> InOrder("", keys, a, b)
  {
    ApplyDiff(keys, a, b);
    if InOrder("", keys, a, b) { OrderedMerges("", keys, a, b); }
    if Merged("", keys, a, b) == b { MergesOrdered("", keys, a, b); }
  }

  /** In index mode a diff is empty exactly for equal values. */
  lemma EmptyDiff(a: Json, b: Json)
    ensures DiffOf(map[], a, b) == [] <==> a == b
  {
    var es := Edits("", map[], a, b);
    if DiffOf(map[], a, b) == [] {
      assert |es| == 0;
      EditsReach(false, "", map[], a, b);
      IndexModeMerges("", a, b);
    }
  }

  // ----------------------------------------------------- values with safe names

  /** Object members have plain names, and identities used by `keys` have no dot. */
  ghost predicate SafeValue(keys: ArrayKeys, v: Json)
    decreases v
  {
    match v
    case Arr(items) => |items| < TWO63 && forall x <- items :: SafeValue(keys, x)
    case Obj(fields) =>
      forall k <- fields ::
        && SafeName(k) && k != ""
        && (k in keys.Values ==> KeyText(fields[k]) == None || '.' !in KeyText(fields[k]).value)
        && SafeValue(keys, fields[k])
    case _ => true
  }

  ghost predicate SafeKeys(keys: ArrayKeys) {
    forall p <- keys :: '.' !in keys[p] && '=' !in keys[p]
  }

  /** A location the diff can stand at when it compares a with b. */
  ghost predicate Standing(at: seq<Seg>, a: Json, b: Json) {
    && Printable(at)
    && (at != [] ==> at[|at| - 1] != Key(""))
    && (at != [] && at[|at| - 1].Keyed? ==> a.Obj? && b.Obj?)
  }

  ghost predicate PrintableBelow(at: seq<Seg>, es: seq<Edit>) {
    forall e <- es :: Printable(at + e.segs)
  }

  lemma PrintableStep(at: seq<Seg>, s: Seg)
    requires Printable(at) && SafeSeg(s) && Follows(at, s)
    ensures Printable(at + [s])
  {
    assert (at + [s])[..|at|] == at;
  }

  lemma BelowConcat(at: seq<Seg>, xs: seq<Edit>, ys: seq<Edit>)
    requires PrintableBelow(at, xs) && PrintableBelow(at, ys)
    ensures PrintableBelow(at, xs + ys)
  {
    hide Printable;
  }

  lemma BelowOne(at: seq<Seg>, e: Edit)
    requires Printable(at + e.segs)
    ensures PrintableBelow(at, [e]) && PrintableBelow(at, [])
  {
    hide Printable;
  }

  lemma PrintablePrefix(at: seq<Seg>, s: Seg, es: seq<Edit>)
    requires PrintableBelow(at + [s], es)
    ensures PrintableBelow(at, Prefix(s, es))
  {
    forall e <- Prefix(s, es) ensures Printable(at + e.segs) {
      var i :| 0 <= i < |es| && e == Prefix(s, es)[i];
      Assoc(at, [s], es[i].segs);
    }
  }

  lemma {:induction false} SafePrintable(at: seq<Seg>, keys: ArrayKeys, a: Json, b: Json)
    requires SafeKeys(keys) && SafeValue(keys, a) && SafeValue(keys, b) && Standing(at, a, b)
    ensures PrintableBelow(at, Edits(Render(at), keys, a, b))
    decreases a, 2
  {
    if a == b {
    } else if a.Obj? && b.Obj? {
      SafeFields(at, keys, a, b, Sorted(a.fields.Keys + b.fields.Keys));
    } else if KeyedAt(Render(at), keys, a, b) {
      SafeKeyed(at, keys, a, b, keys[Render(at)], 0);
      SafeNewKeyed(at, keys, a, b, keys[Render(at)], 0);
    } else if a.Arr? && b.Arr? {
      var n := Min(|a.items|, |b.items|);
      SafeCommon(at, keys, a, b, 0);
      SafeAdds(at, b.items, n);
      SafeRemoves(at, a.items, n, |a.items|);
      EditsOfIndexed(Render(at), keys, a, b);
    } else {
      assert at + [] == at;
    }
  }

  lemma {:induction false} SafeFields(at: seq<Seg>, keys: ArrayKeys, a: Json, b: Json, ks: seq<string>)
    requires SafeKeys(keys) && SafeValue(keys, a) && SafeValue(keys, b) && Standing(at, a, b)
    requires a.Obj? && b.Obj? && forall k <- ks :: k in a.fields || k in b.fields
    ensures PrintableBelow(at, FieldEdits(Render(at), keys, a, b, ks))
    decreases a, 1, |ks|
  {
    if ks != [] {
      SafeFields(at, keys, a, b, ks[1..]);
      var k := ks[0];
      RenderSnoc(at, Key(k));
      PrintableStep(at, Key(k));
      if k in a.fields && k in b.fields {
        SafePrintable(at + [Key(k)], keys, a.fields[k], b.fields[k]);
        PrintablePrefix(at, Key(k), Edits(ChildPath(Render(at), k), keys, a.fields[k], b.fields[k]));
      }
    }
  }

  lemma {:induction false} SafeCommon(at: seq<Seg>, keys: ArrayKeys, a: Json, b: Json, i: nat)
    requires SafeKeys(keys) && SafeValue(keys, a) && SafeValue(keys, b) && Standing(at, a, b)
    requires a.Arr? && b.Arr? && i <= Min(|a.items|, |b.items|)
    ensures PrintableBelow(at, CommonEdits(Render(at), keys, a, b, i))
    decreases a, 1, |a.items| - i
  {
    if i < Min(|a.items|, |b.items|) {
      SafeCommon(at, keys, a, b, i + 1);
      RenderSnoc(at, Index(i));
      PrintableStep(at, Index(i));
      SafePrintable(at + [Index(i)], keys, a.items[i], b.items[i]);
      hide PrintableBelow, Edits, Printable, Render;
      var es := Edits(IndexPath(Render(at), i), keys, a.items[i], b.items[i]);
      PrintablePrefix(at, Index(i), es);
      BelowConcat(at, Prefix(Index(i), es), CommonEdits(Render(at), keys, a, b, i + 1));
    }
  }

  lemma {:induction false} SafeAdds(at: seq<Seg>, items: seq<Json>, i: nat)
    requires Printable(at) && i <= |items| < TWO63
    ensures PrintableBelow(at, AddEdits(items, i))
    decreases |items| - i
  {
    if i < |items| {
      SafeAdds(at, items, i + 1);
      PrintableStep(at, Index(i));
    }
  }

  lemma {:induction false} SafeRemoves(at: seq<Seg>, items: seq<Json>, n: nat, i: nat)
    requires Printable(at) && n <= i <= |items| < TWO63
    ensures PrintableBelow(at, RemoveEdits(items, n, i))
  {
    if i > n {
      SafeRemoves(at, items, n, i - 1);
      PrintableStep(at, Index(i - 1));
    }
  }

  lemma {:induction false} SafeKeyed(at: seq<Seg>, keys: ArrayKeys, a: Json, b: Json, f: string, i: nat)
    requires SafeKeys(keys) && SafeValue(keys, a) && SafeValue(keys, b) && Standing(at, a, b)
    requires a.Arr? && b.Arr? && Keyable(a.items, f) && f in keys.Values && i <= |a.items|
    ensures PrintableBelow(at, KeyedEdits(Render(at), keys, a, b, f, i))
    decreases a, 1, |a.items| - i
  {
    if i < |a.items| {
      SafeElement(at, keys, a, b, f, i);
      SafeKeyed(at, keys, a, b, f, i + 1);
    }
  }

  lemma SafeIdentity(keys: ArrayKeys, items: seq<Json>, f: string, i: nat)
    requires SafeKeys(keys) && SafeValue(keys, Arr(items)) && f in keys.Values
    requires i < |items| && KeyOf(items[i], f).Some?
    ensures SafeValue(keys, items[i]) && SafeSelector(f, KeyOf(items[i], f).value)
  {
    assert items[i] in items;
  }

  lemma {:induction false} SafeElement(at: seq<Seg>, keys: ArrayKeys, a: Json, b: Json, f: string, i: nat)
    requires SafeKeys(keys) && SafeValue(keys, a) && SafeValue(keys, b) && Standing(at, a, b)
    requires a.Arr? && b.Arr? && Keyable(a.items, f) && f in keys.Values && i < |a.items|
    ensures PrintableBelow(at, KeyedEdit(Render(at), keys, a, b, f, i))
    decreases a, 0
  {
    var v := KeyOf(a.items[i], f).value;
    SafeIdentity(keys, a.items, f, i);
    RenderSnoc(at, Keyed(f, v));
    PrintableStep(at, Keyed(f, v));
    var j := IndexOfKey(b.items, f, v);
    if j >= 0 {
      SafeIdentity(keys, b.items, f, j);
      SafePrintable(at + [Keyed(f, v)], keys, a.items[i], b.items[j]);
      PrintablePrefix(at, Keyed(f, v), Edits(KeyedPath(Render(at), f, v), keys, a.items[i], b.items[j]));
    }
  }

  lemma SafeNew(at: seq<Seg>, keys: ArrayKeys, a: Json, b: Json, f: string, j: nat)
    requires SafeKeys(keys) && SafeValue(keys, b) && Standing(at, a, b)
    requires a.Arr? && b.Arr? && f in keys.Values && j < |b.items| && KeyOf(b.items[j], f).Some?
    ensures PrintableBelow(at, []) && PrintableBelow(at, [Edit([Keyed(f, KeyOf(b.items[j], f).value)], OpAdd, Null, b.items[j])])
  {
    SafeIdentity(keys, b.items, f, j);
    var s := Keyed(f, KeyOf(b.items[j], f).value);
    PrintableStep(at, s);
    hide PrintableBelow, Printable;
    BelowOne(at, Edit([s], OpAdd, Null, b.items[j]));
  }

  lemma {:induction false} SafeNewKeyed(at: seq<Seg>, keys: ArrayKeys, a: Json, b: Json, f: string, j: nat)
    requires SafeKeys(keys) && SafeValue(keys, b) && Standing(at, a, b)
    requires a.Arr? && b.Arr? && Keyable(b.items, f) && f in keys.Values && j <= |b.items|
    ensures PrintableBelow(at, NewKeyedEdits(a, b, f, j))
    decreases |b.items| - j
  {
    if j < |b.items| {
      var v := KeyOf(b.items[j], f).value;
      var head := if IndexOfKey(a.items, f, v) >= 0 then [] else [Edit([Keyed(f, v)], OpAdd, Null, b.items[j])];
      assert NewKeyedEdits(a, b, f, j) == head + NewKeyedEdits(a, b, f, j + 1);
      hide *;
      SafeNew(at, keys, a, b, f, j);
      SafeNewKeyed(at, keys, a, b, f, j + 1);
      BelowConcat(at, head, NewKeyedEdits(a, b, f, j + 1));
    }
  }

  /** The round trip for every pair of values with safe names. */
  lemma RoundTripSafe(a: Json, b: Json)
    requires SafeValue(map[], a) && SafeValue(map[], b)
    ensures ApplyAll(a, DiffOf(map[], a, b)) == Ok(b)
  {
    SafePrintable([], map[], a, b);
    assert forall e: Edit :: [] + e.segs == e.segs;
    ApplyDiff(map[], a, b);
    IndexModeMerges("", a, b);
  }

  /** The keyed round trip for every pair of values with safe names. */
  lemma RoundTripKeyed(keys: ArrayKeys, a: Json, b: Json)
    requires SafeKeys(keys) && SafeValue(keys, a) && SafeValue(keys, b)
    ensures ApplyAll(a, DiffOf(keys, a, b)) == Ok(Merged("", keys, a, b))
    ensures ApplyAll(a, DiffOf(keys, a, b)) == Ok(b) <==> InOrder("", keys, a, b)
  {
    SafePrintable([], keys, a, b);
    assert forall e: Edit :: [] + e.segs == e.segs;
    ApplyDiff(keys, a, b);
    ApplyDiffExact(keys, a, b);
  }
}
