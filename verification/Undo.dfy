/**
 What a diff records besides where to go (internal/diff/diff.go): the old value of
 every change. Each edit holds what is found at its location in the two values, and
 the recorded old values are enough to take the diff back.
 */
module Undo {

  import opened Wrappers
  import opened Text
  import opened Json
  import opened Paths
  import opened Diff
  import opened Apply
  import opened RoundTrip
  import opened Order
  import opened Textual
  import opened Exactness
  import opened Locations

  // ------------------------------------------------------------ what an edit records

  /** The edit tells what is at its location in the source and in the target, and
      that these differ. */
  predicate Recorded(a: Json, b: Json, e: Edit) {
    var was, now := Lookup(a, e.segs), Lookup(b, e.segs);
    match e.op
    case OpAdd => was == None && now == Some(e.after) && e.before == Null
    case OpChange => was == Some(e.before) && now == Some(e.after) && e.before != e.after
    case OpRemove => was == Some(e.before) && now == None && e.after == Null
    case OpOther(_) => false
  }

  ghost predicate AllRecorded(a: Json, b: Json, es: seq<Edit>) {
    forall e <- es :: Recorded(a, b, e)
  }

  lemma RecordedBelow(a: Json, b: Json, s: Seg, x: Json, y: Json, es: seq<Edit>)
    requires Child(a, s) == Some(x) && Child(b, s) == Some(y) && AllRecorded(x, y, es)
    ensures AllRecorded(a, b, Prefix(s, es))
  {
    forall e <- Prefix(s, es) ensures Recorded(a, b, e) {
      var i :| 0 <= i < |es| && Prefix(s, es)[i] == e;
      assert es[i] in es && Recorded(x, y, es[i]);
      LookupCons(a, s, es[i].segs);
      LookupCons(b, s, es[i].segs);
      hide Child, Lookup;
    }
  }

  lemma RecordedConcat(a: Json, b: Json, xs: seq<Edit>, ys: seq<Edit>)
    requires AllRecorded(a, b, xs) && AllRecorded(a, b, ys)
    ensures AllRecorded(a, b, xs + ys)
  {
  }

  lemma RecordedOne(a: Json, b: Json, e: Edit)
    requires |e.segs| == 1
    requires var was, now := Child(a, e.segs[0]), Child(b, e.segs[0]);
      || (e.op == OpAdd && was == None && now == Some(e.after) && e.before == Null)
      || (e.op == OpRemove && was == Some(e.before) && now == None && e.after == Null)
    ensures AllRecorded(a, b, [e])
  {
    LookupOne(a, e.segs);
    LookupOne(b, e.segs);
    hide Child, Lookup;
  }

  /** Every edit of a diff records the value at its location in the source and in the
      target: members, tail positions and keyed elements alike. */
  lemma {:induction false} EditsRecord(path: string, keys: ArrayKeys, a: Json, b: Json)
    ensures AllRecorded(a, b, Edits(path, keys, a, b))
    decreases a, 2
  {
    if a == b {
    } else if a.Obj? && b.Obj? {
      FieldEditsRecord(path, keys, a, b, Sorted(a.fields.Keys + b.fields.Keys));
    } else if KeyedAt(path, keys, a, b) {
      KeyedEditsRecord(path, keys, a, b, keys[path], 0);
      NewKeyedEditsRecord(a, b, keys[path], 0);
      hide AllRecorded;
      RecordedConcat(a, b, KeyedEdits(path, keys, a, b, keys[path], 0), NewKeyedEdits(a, b, keys[path], 0));
    } else if a.Arr? && b.Arr? {
      var n := Min(|a.items|, |b.items|);
      CommonEditsRecord(path, keys, a, b, 0);
      AddEditsRecord(a, b, n);
      RemoveEditsRecord(a, b, n, |a.items|);
      EditsOfIndexed(path, keys, a, b);
      hide AllRecorded;
      RecordedConcat(a, b, AddEdits(b.items, n), RemoveEdits(a.items, n, |a.items|));
      RecordedConcat(a, b, CommonEdits(path, keys, a, b, 0), AddEdits(b.items, n) + RemoveEdits(a.items, n, |a.items|));
    }
  }

  lemma {:induction false} FieldEditsRecord(path: string, keys: ArrayKeys, a: Json, b: Json, ks: seq<string>)
    requires a.Obj? && b.Obj? && forall k <- ks :: k in a.fields || k in b.fields
    ensures AllRecorded(a, b, FieldEdits(path, keys, a, b, ks))
    decreases a, 1, |ks|
  {
    if ks != [] {
      FieldEditRecords(path, keys, a, b, ks[0]);
      FieldEditsRecord(path, keys, a, b, ks[1..]);
      hide AllRecorded;
      RecordedConcat(a, b, FieldEdit(path, keys, a, b, ks[0]), FieldEdits(path, keys, a, b, ks[1..]));
    }
  }

  lemma {:induction false} FieldEditRecords(path: string, keys: ArrayKeys, a: Json, b: Json, k: string)
    requires a.Obj? && b.Obj? && (k in a.fields || k in b.fields)
    ensures AllRecorded(a, b, FieldEdit(path, keys, a, b, k))
    decreases a, 0
  {
    if k in a.fields && k in b.fields {
      var p := ChildPath(path, k);
      EditsRecord(p, keys, a.fields[k], b.fields[k]);
      RecordedBelow(a, b, Key(k), a.fields[k], b.fields[k], Edits(p, keys, a.fields[k], b.fields[k]));
    } else {
      RecordedOne(a, b, FieldEdit(path, keys, a, b, k)[0]);
    }
  }

  lemma {:induction false} CommonEditsRecord(path: string, keys: ArrayKeys, a: Json, b: Json, i: nat)
    requires a.Arr? && b.Arr? && i <= Min(|a.items|, |b.items|)
    ensures AllRecorded(a, b, CommonEdits(path, keys, a, b, i))
    decreases a, 1, |a.items| - i
  {
    if i < Min(|a.items|, |b.items|) {
      var p := IndexPath(path, i);
      var es := Edits(p, keys, a.items[i], b.items[i]);
      EditsRecord(p, keys, a.items[i], b.items[i]);
      RecordedBelow(a, b, Index(i), a.items[i], b.items[i], es);
      CommonEditsRecord(path, keys, a, b, i + 1);
      hide AllRecorded;
      RecordedConcat(a, b, Prefix(Index(i), es), CommonEdits(path, keys, a, b, i + 1));
    }
  }

  lemma {:induction false} AddEditsRecord(a: Json, b: Json, i: nat)
    requires a.Arr? && b.Arr? && i <= |b.items| && (|a.items| <= i || i == |b.items|)
    ensures AllRecorded(a, b, AddEdits(b.items, i))
    decreases |b.items| - i
  {
    if i < |b.items| {
      AddEditsRecord(a, b, i + 1);
      RecordedOne(a, b, Edit([Index(i)], OpAdd, Null, b.items[i]));
    }
  }

  lemma {:induction false} RemoveEditsRecord(a: Json, b: Json, n: nat, i: nat)
    requires a.Arr? && b.Arr? && n <= i <= |a.items| && (|b.items| <= n || n == |a.items|)
    ensures AllRecorded(a, b, RemoveEdits(a.items, n, i))
  {
    if i > n {
      RemoveEditsRecord(a, b, n, i - 1);
      RecordedOne(a, b, Edit([Index(i - 1)], OpRemove, a.items[i - 1], Null));
    }
  }

  lemma {:induction false} KeyedEditsRecord(path: string, keys: ArrayKeys, a: Json, b: Json, f: string, i: nat)
    requires a.Arr? && b.Arr? && Keyable(a.items, f) && i <= |a.items|
    ensures AllRecorded(a, b, KeyedEdits(path, keys, a, b, f, i))
    decreases a, 1, |a.items| - i
  {
    if i < |a.items| {
      KeyedEditRecords(path, keys, a, b, f, i);
      KeyedEditsRecord(path, keys, a, b, f, i + 1);
      KeyedUnfold(path, keys, a, b, f, i);
      hide AllRecorded;
      RecordedConcat(a, b, KeyedEdit(path, keys, a, b, f, i), KeyedEdits(path, keys, a, b, f, i + 1));
    }
  }

  lemma {:induction false} KeyedEditRecords(path: string, keys: ArrayKeys, a: Json, b: Json, f: string, i: nat)
    requires a.Arr? && b.Arr? && Keyable(a.items, f) && i < |a.items|
    ensures AllRecorded(a, b, KeyedEdit(path, keys, a, b, f, i))
    decreases a, 0
  {
    var v := KeyOf(a.items[i], f).value;
    var j := IndexOfKey(b.items, f, v);
    KeyedPosition(a.items, i, f, v);
    assert Child(a, Keyed(f, v)) == Some(a.items[i]);
    if j >= 0 {
      var p := KeyedPath(path, f, v);
      EditsRecord(p, keys, a.items[i], b.items[j]);
      RecordedBelow(a, b, Keyed(f, v), a.items[i], b.items[j], Edits(p, keys, a.items[i], b.items[j]));
    } else {
      RecordedOne(a, b, Edit([Keyed(f, v)], OpRemove, a.items[i], Null));
    }
  }

  lemma {:induction false} NewKeyedEditsRecord(a: Json, b: Json, f: string, j: nat)
    requires a.Arr? && b.Arr? && Keyable(b.items, f) && j <= |b.items|
    ensures AllRecorded(a, b, NewKeyedEdits(a, b, f, j))
    decreases |b.items| - j
  {
    if j < |b.items| {
      var v := KeyOf(b.items[j], f).value;
      KeyedPosition(b.items, j, f, v);
      NewKeyedEditsRecord(a, b, f, j + 1);
      if IndexOfKey(a.items, f, v) < 0 {
        RecordedOne(a, b, Edit([Keyed(f, v)], OpAdd, Null, b.items[j]));
      }
    }
  }

  /** The same of the stored diff: where a path can be read back, its old value is what
      is there in the source, and its new value what is there in the target. */
  lemma StoredRecords(keys: ArrayKeys, a: Json, b: Json, i: nat)
    requires AllPrintable(Edits("", keys, a, b)) && i < |DiffOf(keys, a, b)|
    ensures var c := DiffOf(keys, a, b)[i];
      ParsePath(c.path).Ok? && Recorded(a, b, Edit(ParsePath(c.path).value, c.op, c.before, c.after))
  {
    var e := Edits("", keys, a, b)[i];
    assert e in Edits("", keys, a, b);
    EditsRecord("", keys, a, b);
    PrintedParses(e);
  }

  // ---------------------------------------------------------------- taking it back

  function UndoneOp(op: Op): Op {
    match op
    case OpAdd => OpRemove
    case OpRemove => OpAdd
    case _ => op
  }

  /** The edits in reverse, each the other way round. */
  function Undone(es: seq<Edit>): seq<Edit> {
    if es == [] then [] else Undone(es[1..]) + [Edit(es[0].segs, UndoneOp(es[0].op), es[0].after, es[0].before)]
  }

  function UndoneChanges(cs: seq<Change>): seq<Change> {
    if cs == [] then [] else UndoneChanges(cs[1..]) + [Change(cs[0].path, UndoneOp(cs[0].op), cs[0].after, cs[0].before)]
  }

  /** The edit records the value it meets; a member it adds is not there yet. */
  predicate Meets(v: Json, e: Edit) {
    && Concrete(e.segs)
    && match e.op
       case OpAdd => e.segs != [] && (e.segs[|e.segs| - 1].Key? ==> Lookup(v, e.segs) == None)
       case OpOther(_) => false
       case _ => Lookup(v, e.segs) == Some(e.before)
  }

  /** Carried out one after the other, every edit meets what it records. */
  ghost predicate MeetsAll(v: Json, es: seq<Edit>)
    decreases |es|
  {
    es == [] ||
    var w := ApplyAt(false, v, es[0].segs, es[0].op, es[0].after);
    Meets(v, es[0]) && w.Ok? && MeetsAll(w.value, es[1..])
  }

  lemma LeafUndo(v: Json, e: Edit)
    requires |e.segs| == 1 && Meets(v, e) && Step(false, v, e.segs, e.op, e.after).Ok?
    ensures Step(false, Step(false, v, e.segs, e.op, e.after).value, e.segs, UndoneOp(e.op), e.before) == Ok(v)
  {
    assert e.segs[0] in e.segs;
    LookupOne(v, e.segs);
    if e.segs[0].Key? {
      MemberUndo(v.fields, e.segs[0].name, e);
      hide KeyLeaf, Lookup;
    } else {
      PositionUndo(v.items, e.segs[0].index, e);
      hide IndexLeaf, Lookup;
    }
  }

  lemma MemberUndo(m: map<string, Json>, k: string, e: Edit)
    requires KeyLeaf(false, m, k, e.op, e.after).Ok?
    requires if e.op == OpAdd then k !in m else k in m && m[k] == e.before
    ensures var w := KeyLeaf(false, m, k, e.op, e.after).value;
      w.Obj? && KeyLeaf(false, w.fields, k, UndoneOp(e.op), e.before) == Ok(Obj(m))
  {
    assert e.op == OpAdd ==> m[k := e.after] - {k} == m;
    assert e.op == OpRemove ==> (m - {k})[k := e.before] == m;
    assert e.op == OpChange ==> m[k := e.after][k := e.before] == m;
  }

  lemma PositionUndo(xs: seq<Json>, i: int, e: Edit)
    requires IndexLeaf(xs, i, e.op, e.after).Ok?
    requires e.op == OpAdd || (0 <= i < |xs| && xs[i] == e.before)
    ensures var w := IndexLeaf(xs, i, e.op, e.after).value;
      w.Arr? && IndexLeaf(w.items, i, UndoneOp(e.op), e.before) == Ok(Arr(xs))
  {
    if e.op == OpAdd {
      assert RemoveAt(InsertAt(xs, i, e.after), i) == xs;
    } else if e.op == OpRemove {
      assert InsertAt(RemoveAt(xs, i), i, e.before) == xs;
    } else {
      assert xs[i := e.after][i := e.before] == xs;
    }
  }

  lemma {:induction false} StepUndo(v: Json, e: Edit)
    requires e.segs != [] && Meets(v, e) && Step(false, v, e.segs, e.op, e.after).Ok?
    ensures Step(false, Step(false, v, e.segs, e.op, e.after).value, e.segs, UndoneOp(e.op), e.before) == Ok(v)
    decreases |e.segs|
  {
    if |e.segs| == 1 {
      LeafUndo(v, e);
    } else {
      var s := e.segs[0];
      assert s in e.segs;
      var c := Child(v, s).value;
      assert Meets(c, e.(segs := e.segs[1..])) by {
        assert e.segs[1..][|e.segs| - 2] == e.segs[|e.segs| - 1];
      }
      StepUndo(c, e.(segs := e.segs[1..]));
      var x := Step(false, c, e.segs[1..], e.op, e.after).value;
      if s.Key? {
        assert v.fields[s.name := x][s.name := c] == v.fields;
      } else {
        assert v.items[s.index := x][s.index := c] == v.items;
      }
    }
  }

  lemma {:induction false} UndoRun(v: Json, es: seq<Edit>)
    requires MeetsAll(v, es)
    ensures ApplyEdits(false, v, es).Ok?
    ensures ApplyEdits(false, ApplyEdits(false, v, es).value, Undone(es)) == Ok(v)
    decreases |es|
  {
    if es != [] {
      var e := es[0];
      var w := ApplyAt(false, v, e.segs, e.op, e.after).value;
      UndoRun(w, es[1..]);
      if e.segs != [] { StepUndo(v, e); }
      var back := Edit(e.segs, UndoneOp(e.op), e.after, e.before);
      assert [back][1..] == [] && ApplyEdits(false, v, []) == Ok(v);
      assert ApplyEdits(false, w, [back]) == Ok(v);
      Chain(false, ApplyEdits(false, v, es).value, Undone(es[1..]), w, [back], v);
    }
  }

  // --------------------------------------------------- a diff meets what it records

  lemma {:induction false} MeetsConcat(v: Json, xs: seq<Edit>, ys: seq<Edit>)
    requires MeetsAll(v, xs) && ApplyEdits(false, v, xs).Ok? && MeetsAll(ApplyEdits(false, v, xs).value, ys)
    ensures MeetsAll(v, xs + ys)
    decreases |xs|
  {
    if xs == [] {
      assert xs + ys == ys;
    } else {
      assert (xs + ys)[1..] == xs[1..] + ys;
      MeetsConcat(ApplyAt(false, v, xs[0].segs, xs[0].op, xs[0].after).value, xs[1..], ys);
    }
  }

  /** What holds of a child holds of the whole, one segment further down. */
  lemma MeetsBelow(v: Json, s: Seg, c: Json, e: Edit)
    requires !s.Keyed? && Child(v, s) == Some(c) && Meets(c, e)
    ensures Meets(v, e.(segs := [s] + e.segs))
  {
    LookupCons(v, s, e.segs);
  }

  lemma {:induction false} MeetsLift(v: Json, s: Seg, c: Json, es: seq<Edit>)
    requires !s.Keyed? && Child(v, s) == Some(c) && MeetsAll(c, es)
    ensures MeetsAll(v, Prefix(s, es))
    decreases |es|
  {
    if es != [] {
      var e := es[0];
      MeetsBelow(v, s, c, e);
      PrefixTail(s, es);
      assert ([s] + e.segs)[1..] == e.segs;
      var x := ApplyAt(false, c, e.segs, e.op, e.after).value;
      var w := ApplyAt(false, v, [s] + e.segs, e.op, e.after).value;
      assert Child(w, s) == Some(x);
      MeetsLift(w, s, x, es[1..]);
    }
  }

  lemma {:induction false} EditsMeet(path: string, a: Json, b: Json)
    ensures MeetsAll(a, Edits(path, map[], a, b))
    decreases a, 2
  {
    if a == b {
    } else if a.Obj? && b.Obj? {
      FieldsMeet(path, a, b, Sorted(a.fields.Keys + b.fields.Keys), a.fields);
    } else if a.Arr? && b.Arr? {
      ItemsMeet(path, a, b);
    } else {
      assert Edits(path, map[], a, b)[1..] == [];
    }
  }

  lemma {:induction false} FieldsMeet(path: string, a: Json, b: Json, ks: seq<string>, m: map<string, Json>)
    requires a.Obj? && b.Obj? && (forall k <- ks :: k in a.fields || k in b.fields) && Ascending(ks)
    requires forall k <- ks :: (k in m <==> k in a.fields) && (k in m ==> m[k] == a.fields[k])
    ensures MeetsAll(Obj(m), FieldEdits(path, map[], a, b, ks))
    decreases a, 1, |ks|
  {
    if ks != [] {
      var k := ks[0];
      AscendingTail(ks);
      FieldMeets(path, a, b, k, m);
      var r := FieldReach(false, path, map[], a, b, k, m);
      FieldsMeet(path, a, b, ks[1..], r);
      hide MeetsAll, ApplyEdits, FieldEdit;
      MeetsConcat(Obj(m), FieldEdit(path, map[], a, b, k), FieldEdits(path, map[], a, b, ks[1..]));
    }
  }

  lemma {:induction false} FieldMeets(path: string, a: Json, b: Json, k: string, m: map<string, Json>)
    requires a.Obj? && b.Obj? && (k in a.fields || k in b.fields)
    requires (k in m <==> k in a.fields) && (k in m ==> m[k] == a.fields[k])
    ensures MeetsAll(Obj(m), FieldEdit(path, map[], a, b, k))
    decreases a, 0
  {
    if k in a.fields && k in b.fields {
      var p := ChildPath(path, k);
      EditsMeet(p, a.fields[k], b.fields[k]);
      MeetsLift(Obj(m), Key(k), a.fields[k], Edits(p, map[], a.fields[k], b.fields[k]));
    } else {
      MeetsOne(Obj(m), FieldEdit(path, map[], a, b, k)[0]);
    }
  }

  lemma MeetsOne(v: Json, e: Edit)
    requires |e.segs| == 1 && !e.segs[0].Keyed? && Step(false, v, e.segs, e.op, e.after).Ok?
    requires (e.op == OpAdd && (e.segs[0].Key? ==> Child(v, e.segs[0]) == None)) || (e.op == OpRemove && Child(v, e.segs[0]) == Some(e.before))
    ensures MeetsAll(v, [e])
  {
    LookupOne(v, e.segs);
    assert [e][1..] == [];
    hide Lookup;
  }

  lemma {:induction false} ItemsMeet(path: string, a: Json, b: Json)
    requires a.Arr? && b.Arr? && a != b
    ensures MeetsAll(a, Edits(path, map[], a, b))
    decreases a, 1
  {
    var n := Min(|a.items|, |b.items|);
    var common, adds, removes := CommonEdits(path, map[], a, b, 0), AddEdits(b.items, n), RemoveEdits(a.items, n, |a.items|);
    CommonMeets(path, a, b, 0, a.items);
    var s := CommonReach(false, path, map[], a, b, 0, a.items);
    CommonKeepsTail(path, a, b, 0, a.items);
    EditsOfIndexed(path, map[], a, b);
    hide MeetsAll, ApplyEdits, CommonEdits, Edits, AddEdits, RemoveEdits;
    TailMeets(s, a.items, b.items);
    MeetsConcat(a, common, adds + removes);
  }

  lemma {:induction false} CommonMeets(path: string, a: Json, b: Json, i: nat, s: seq<Json>)
    requires a.Arr? && b.Arr? && i <= Min(|a.items|, |b.items|)
    requires |s| == |a.items| && forall j | i <= j < |s| :: s[j] == a.items[j]
    ensures MeetsAll(Arr(s), CommonEdits(path, map[], a, b, i))
    decreases a, 0, |a.items| - i
  {
    if i < Min(|a.items|, |b.items|) {
      var p := IndexPath(path, i);
      var es := Edits(p, map[], a.items[i], b.items[i]);
      EditsMeet(p, a.items[i], b.items[i]);
      MeetsLift(Arr(s), Index(i), a.items[i], es);
      EditsReach(false, p, map[], a.items[i], b.items[i]);
      LiftIndex(false, s, i, es);
      var w := Merged(p, map[], a.items[i], b.items[i]);
      CommonMeets(path, a, b, i + 1, s[i := w]);
      hide MeetsAll, ApplyEdits, Edits, Merged;
      MeetsConcat(Arr(s), Prefix(Index(i), es), CommonEdits(path, map[], a, b, i + 1));
    }
  }

  /** The positions both arrays have are edited in place; the others stay. */
  lemma {:induction false} CommonKeepsTail(path: string, a: Json, b: Json, i: nat, s: seq<Json>)
    requires a.Arr? && b.Arr? && i <= Min(|a.items|, |b.items|)
    requires |s| == |a.items| && forall j | i <= j < |s| :: s[j] == a.items[j]
    ensures var r := ApplyEdits(false, Arr(s), CommonEdits(path, map[], a, b, i));
      && r.Ok? && r.value.Arr? && |r.value.items| == |a.items|
      && forall j | Min(|a.items|, |b.items|) <= j < |a.items| :: r.value.items[j] == a.items[j]
    decreases |a.items| - i
  {
    if i < Min(|a.items|, |b.items|) {
      var p := IndexPath(path, i);
      var es := Edits(p, map[], a.items[i], b.items[i]);
      EditsReach(false, p, map[], a.items[i], b.items[i]);
      LiftIndex(false, s, i, es);
      var w := Merged(p, map[], a.items[i], b.items[i]);
      CommonKeepsTail(path, a, b, i + 1, s[i := w]);
      hide Edits, Merged;
      ApplyEditsConcat(false, Arr(s), Prefix(Index(i), es), CommonEdits(path, map[], a, b, i + 1));
    }
  }

  lemma TailMeets(s: seq<Json>, xs: seq<Json>, ys: seq<Json>)
    requires |s| == |xs| && forall j | Min(|xs|, |ys|) <= j < |xs| :: s[j] == xs[j]
    ensures var n := Min(|xs|, |ys|); MeetsAll(Arr(s), AddEdits(ys, n) + RemoveEdits(xs, n, |xs|))
  {
    var n := Min(|xs|, |ys|);
    if |xs| <= |ys| {
      AddsMeet(s, ys, n);
      assert AddEdits(ys, n) + RemoveEdits(xs, n, |xs|) == AddEdits(ys, n);
    } else {
      RemovesMeet(s, xs, n, |xs|);
      assert AddEdits(ys, n) + RemoveEdits(xs, n, |xs|) == RemoveEdits(xs, n, |xs|);
    }
  }

  lemma {:induction false} AddsMeet(s: seq<Json>, items: seq<Json>, i: nat)
    requires i <= |items| && |s| == i
    ensures MeetsAll(Arr(s), AddEdits(items, i))
    decreases |items| - i
  {
    if i < |items| {
      assert InsertAt(s, i, items[i]) == s + [items[i]];
      AddsMeet(s + [items[i]], items, i + 1);
      assert AddEdits(items, i)[1..] == AddEdits(items, i + 1);
    }
  }

  lemma {:induction false} RemovesMeet(s: seq<Json>, items: seq<Json>, n: nat, i: nat)
    requires n <= i <= |items| && |s| == i && forall j | n <= j < i :: s[j] == items[j]
    ensures MeetsAll(Arr(s), RemoveEdits(items, n, i))
    decreases i
  {
    if i > n {
      assert RemoveAt(s, i - 1) == s[..i - 1];
      RemovesMeet(s[..i - 1], items, n, i - 1);
      var e := RemoveEdits(items, n, i)[0];
      assert e.segs[1..] == [] && Lookup(Arr(s), e.segs) == Some(items[i - 1]);
      assert RemoveEdits(items, n, i)[1..] == RemoveEdits(items, n, i - 1);
    }
  }

  // ------------------------------------------------------------------- the undo law

  /** In index mode a diff holds enough to go back: its edits reversed, with old and
      new values and additions and removals exchanged, turn the target into the source. */
  lemma UndoEdits(path: string, a: Json, b: Json)
    ensures ApplyEdits(false, b, Undone(Edits(path, map[], a, b))) == Ok(a)
  {
    EditsMeet(path, a, b);
    UndoRun(a, Edits(path, map[], a, b));
    EditsReach(false, path, map[], a, b);
    IndexModeMerges(path, a, b);
  }

  lemma {:induction false} UndonePrints(es: seq<Edit>)
    ensures Printed("", Undone(es)) == UndoneChanges(Printed("", es))
    ensures AllPrintable(es) ==> AllPrintable(Undone(es))
  {
    if es != [] {
      UndonePrints(es[1..]);
      assert Printed("", es)[1..] == Printed("", es[1..]);
      PrintedConcat("", Undone(es[1..]), [Edit(es[0].segs, UndoneOp(es[0].op), es[0].after, es[0].before)]);
    }
  }

  /** The same of the stored diff, wherever its paths can be read back. */
  lemma UndoStored(a: Json, b: Json)
    requires Sized(a) && Sized(b) && DiffersSafely(InPaths, a, b) && RootNamed(a, b)
    ensures ApplyAll(b, UndoneChanges(DiffOf(map[], a, b))) == Ok(a)
  {
    var es := Edits("", map[], a, b);
    forall e <- es ensures Printable(e.segs) {
      SafeEdits(InPaths, "", a, b, e);
      SafeIsPrintable(a, b, e);
    }
    UndonePrints(es);
    UndoEdits("", a, b);
    ApplyPrinted(b, Undone(es));
  }
}
