/**
 The other half of the round trip: when some location of an index-mode diff
 cannot be told apart in text, applying the stored diff never yields the
 target. The member that had to change keeps its old value, because no parsed
 path can name it.
 */
module Exactness {

  import opened Wrappers
  import opened Text
  import opened Json
  import opened Paths
  import opened Diff
  import opened Apply
  import opened RoundTrip
  import opened Order
  import opened Textual

  /** Where a member name has to be told apart: in a stored path or in an exported one. */
  datatype Rule = InPaths | InPointers

  predicate NameOk(rule: Rule, k: string) {
    match rule
    case InPaths => SafeName(k)
    case InPointers => '.' !in k && '[' !in k
  }

  // ------------------------------------------------------------ parsed locations

  ghost predicate NamesSafe(rule: Rule, segs: seq<Seg>) {
    forall s <- segs :: s.Key? ==> NameOk(rule, s.name)
  }

  lemma ParsedPiece(raw: string)
    requires '.' !in raw && ParsePiece(raw).Ok?
    ensures NamesSafe(InPaths, ParsePiece(raw).value) && |ParsePiece(raw).value| >= 1
  {
    var i := Find(raw, '[');
    assert forall j | 0 <= j < i :: raw[..i][j] in raw;
  }

  lemma {:induction false} ParsedPieces(ps: seq<string>)
    requires (forall p <- ps :: '.' !in p) && ParsePieces(ps).Ok?
    ensures NamesSafe(InPaths, ParsePieces(ps).value) && |ParsePieces(ps).value| >= |ps|
  {
    if ps != [] {
      ParsedPieces(ps[..|ps| - 1]);
      ParsedPiece(ps[|ps| - 1]);
    }
  }

  ghost predicate Plain(segs: seq<Seg>) {
    (forall s <- segs :: !s.Keyed?) && (segs != [] ==> segs[0] != Key(""))
  }

  /** A plain location of n segments has at least n dot-separated pieces. */
  lemma {:induction false} PieceCount(segs: seq<Seg>)
    requires Plain(segs) && segs != []
    ensures Render(segs) != "" && |Split(Render(segs), '.')| >= |segs|
  {
    var init, s := segs[..|segs| - 1], segs[|segs| - 1];
    if init != [] {
      PieceCount(init);
      SplitConcat(Render(init), '.', PlainText(s));
    }
  }

  /** Whatever a plain location is parsed to, it is no shorter and all its
      member names are safe. */
  lemma ParsedLocation(segs: seq<Seg>)
    requires Plain(segs) && segs != [] && ParsePath(Render(segs)).Ok?
    ensures NamesSafe(InPaths, ParsePath(Render(segs)).value)
    ensures |ParsePath(Render(segs)).value| >= |segs|
  {
    PieceCount(segs);
    ParsedPieces(Split(Render(segs), '.'));
  }

  // ---------------------------------------------------------- untouched entries

  /** Entry `u` of the object at location `at`; None when there is no such object. */
  ghost function EntryAt(v: Json, at: seq<Seg>, u: string): Option<Option<Json>>
    decreases |at|
  {
    if at == [] then
      if v.Obj? then Some(if u in v.fields then Some(v.fields[u]) else None) else None
    else match at[0]
      case Key(k) => if v.Obj? && k in v.fields then EntryAt(v.fields[k], at[1..], u) else None
      case Index(i) => if v.Arr? && 0 <= i < |v.items| then EntryAt(v.items[i], at[1..], u) else None
      case Keyed(_, _) => None
  }

  /** A change at `q` that cannot reach entry `u` at `at`, nor shift the way to it. */
  ghost predicate Harmless(q: seq<Seg>, op: Op, at: seq<Seg>, u: string)
    decreases |at|
  {
    q != [] &&
    if |q| > |at| && q[|at|] != Key(u) then true
    else at != [] &&
         if q[0] == at[0] then Harmless(q[1..], op, at[1..], u)
         else (q[0].Key? && at[0].Key?) ||
              (q[0].Index? && at[0].Index? && (|q| == 1 ==> op == OpChange || q[0].index > at[0].index))
  }

  /** What a change does to an object: one member moves, the others stay. */
  lemma StepInObject(w: Json, q: seq<Seg>, op: Op, after: Json)
    requires w.Obj? && q != [] && Step(false, w, q, op, after).Ok?
    ensures var r := Step(false, w, q, op, after).value;
      && r.Obj? && q[0].Key?
      && (forall l | l != q[0].name :: l in r.fields <==> l in w.fields)
      && (forall l | l != q[0].name && l in r.fields :: r.fields[l] == w.fields[l])
      && (|q| == 1 && q[0].name in r.fields ==> op != OpRemove && r.fields[q[0].name] == after)
      && (|q| > 1 ==>
            && q[0].name in w.fields && q[0].name in r.fields
            && Step(false, w.fields[q[0].name], q[1..], op, after) == Ok(r.fields[q[0].name]))
  {
  }

  /** A change below an element moves that element alone. */
  lemma StepBelowItem(w: Json, q: seq<Seg>, op: Op, after: Json) returns (j: nat)
    requires w.Arr? && |q| > 1 && Step(false, w, q, op, after).Ok?
    ensures !q[0].Key? && j < |w.items| && (q[0].Index? ==> j == q[0].index)
    ensures var r := Step(false, w, q, op, after).value;
      && r.Arr? && |r.items| == |w.items|
      && Step(false, w.items[j], q[1..], op, after) == Ok(r.items[j])
      && forall i | 0 <= i < |w.items| && i != j :: r.items[i] == w.items[i]
  {
    j := if q[0].Index? then q[0].index else IndexOfKey(w.items, q[0].field, q[0].val);
  }

  /** A replacement elsewhere, or an insert or removal further on, leaves an element where it is. */
  lemma StepAtItem(w: Json, q: seq<Seg>, op: Op, after: Json, i: nat)
    requires w.Arr? && |q| == 1 && q[0].Index? && Step(false, w, q, op, after).Ok?
    requires i < |w.items| && q[0].index != i && (op == OpChange || q[0].index > i)
    ensures var r := Step(false, w, q, op, after).value; r.Arr? && i < |r.items| && r.items[i] == w.items[i]
  {
  }

  lemma {:induction false} HarmlessKeeps(v: Json, q: seq<Seg>, op: Op, after: Json, at: seq<Seg>, u: string)
    requires EntryAt(v, at, u).Some? && Harmless(q, op, at, u)
    requires Step(false, v, q, op, after).Ok?
    ensures EntryAt(Step(false, v, q, op, after).value, at, u) == EntryAt(v, at, u)
    decreases |at|
  {
    hide Step;
    if v.Obj? {
      StepInObject(v, q, op, after);
      if at != [] && q[0] == at[0] {
        HarmlessKeeps(v.fields[at[0].name], q[1..], op, after, at[1..], u);
      }
    } else if |q| > 1 {
      var j := StepBelowItem(v, q, op, after);
      if j == at[0].index {
        HarmlessKeeps(v.items[j], q[1..], op, after, at[1..], u);
      }
    } else {
      StepAtItem(v, q, op, after, at[0].index);
    }
  }

  // ------------------------------------------------------------- shape of a diff

  lemma PrefixMember(s: Seg, es: seq<Edit>, e: Edit)
    requires e in Prefix(s, es)
    ensures e.segs != [] && e.segs[0] == s && e.(segs := e.segs[1..]) in es
  {
    var i :| 0 <= i < |es| && e == Prefix(s, es)[i];
    assert e.segs[1..] == es[i].segs;
    assert e.(segs := e.segs[1..]) == es[i];
  }

  lemma {:induction false} FieldMember(path: string, a: Json, b: Json, ks: seq<string>, e: Edit) returns (k: string)
    requires a.Obj? && b.Obj? && forall k <- ks :: k in a.fields || k in b.fields
    requires e in FieldEdits(path, map[], a, b, ks)
    ensures k in ks && (k in a.fields || k in b.fields) && e in FieldEdit(path, map[], a, b, k)
    ensures e.segs != [] && e.segs[0] == Key(k)
    decreases |ks|
  {
    k := ks[0];
    if e in FieldEdit(path, map[], a, b, k) {
      if k in a.fields && k in b.fields {
        PrefixMember(Key(k), Edits(ChildPath(path, k), map[], a.fields[k], b.fields[k]), e);
      }
    } else {
      k := FieldMember(path, a, b, ks[1..], e);
    }
  }

  lemma {:induction false} CommonMember(path: string, a: Json, b: Json, i: nat, e: Edit) returns (j: nat)
    requires a.Arr? && b.Arr? && i <= Min(|a.items|, |b.items|)
    requires e in CommonEdits(path, map[], a, b, i)
    ensures j < Min(|a.items|, |b.items|)
    ensures e in Prefix(Index(j), Edits(IndexPath(path, j), map[], a.items[j], b.items[j]))
    decreases |a.items| - i
  {
    if e in Prefix(Index(i), Edits(IndexPath(path, i), map[], a.items[i], b.items[i])) {
      j := i;
    } else {
      j := CommonMember(path, a, b, i + 1, e);
    }
  }

  lemma {:induction false} AddMember(items: seq<Json>, i: nat, e: Edit)
    requires i <= |items| && e in AddEdits(items, i)
    ensures |e.segs| == 1 && e.segs[0].Index? && i <= e.segs[0].index < |items| && e.op == OpAdd
    decreases |items| - i
  {
    if e in AddEdits(items, i)[1..] {
      AddMember(items, i + 1, e);
    }
  }

  lemma {:induction false} RemoveMember(items: seq<Json>, n: nat, i: nat, e: Edit)
    requires n <= i <= |items| && e in RemoveEdits(items, n, i)
    ensures |e.segs| == 1 && e.segs[0].Index? && n <= e.segs[0].index < |items| && e.op == OpRemove
  {
    if e in RemoveEdits(items, n, i)[1..] {
      RemoveMember(items, n, i - 1, e);
    }
  }

  /** An edit of an index array: below a common position, or at the tail. */
  lemma ArrayMember(path: string, a: Json, b: Json, e: Edit) returns (j: nat)
    requires a.Arr? && b.Arr? && a != b && e in Edits(path, map[], a, b)
    ensures e.segs != [] && e.segs[0] == Index(j) && (j < |a.items| || j < |b.items|)
    ensures j < Min(|a.items|, |b.items|) ==>
              e in Prefix(Index(j), Edits(IndexPath(path, j), map[], a.items[j], b.items[j]))
    ensures j >= Min(|a.items|, |b.items|) ==> |e.segs| == 1 && (e.op == OpAdd || e.op == OpRemove)
  {
    var n := Min(|a.items|, |b.items|);
    EditsOfIndexed(path, map[], a, b);
    if e in CommonEdits(path, map[], a, b, 0) {
      j := CommonMember(path, a, b, 0, e);
      PrefixMember(Index(j), Edits(IndexPath(path, j), map[], a.items[j], b.items[j]), e);
    } else if e in AddEdits(b.items, n) {
      AddMember(b.items, n, e);
      j := e.segs[0].index;
    } else {
      RemoveMember(a.items, n, |a.items|, e);
      j := e.segs[0].index;
    }
  }

  /** The root edit of a pair is a replacement. */
  lemma RootEdit(path: string, a: Json, b: Json, e: Edit)
    requires e in Edits(path, map[], a, b) && e.segs == []
    ensures Edits(path, map[], a, b) == [e] && e.op == OpChange
  {
    if a.Obj? && b.Obj? {
      var k := FieldMember(path, a, b, Sorted(a.fields.Keys + b.fields.Keys), e);
    } else if a.Arr? && b.Arr? {
      var j := ArrayMember(path, a, b, e);
    }
  }

  // --------------------------------------------------------- one unsafe location

  /** First segment whose member name cannot be printed, or |segs|. */
  ghost function FirstUnsafe(rule: Rule, segs: seq<Seg>): (p: nat)
    ensures p <= |segs|
    ensures p < |segs| ==> segs[p].Key? && !NameOk(rule, segs[p].name)
    ensures NamesSafe(rule, segs[..p])
  {
    if segs == [] then 0
    else if segs[0].Key? && !NameOk(rule, segs[0].name) then 0
    else
      var p := FirstUnsafe(rule, segs[1..]);
      assert segs[..p + 1] == [segs[0]] + segs[1..][..p];
      p + 1
  }

  /** Edit `e` is about entry `u` of the object at `at`, and `u` is its first
      unprintable name. */
  ghost predicate UnsafeAt(rule: Rule, e: Edit, at: seq<Seg>, u: string) {
    && FirstUnsafe(rule, e.segs) < |e.segs|
    && at == e.segs[..FirstUnsafe(rule, e.segs)]
    && u == e.segs[|at|].name
  }

  ghost function Below(e: Edit): Edit
    requires e.segs != []
  {
    e.(segs := e.segs[1..])
  }

  lemma UnsafeBelow(rule: Rule, e: Edit, at: seq<Seg>, u: string)
    requires UnsafeAt(rule, e, at, u) && at != []
    ensures |e.segs| >= 2 && at[0] == e.segs[0] && UnsafeAt(rule, Below(e), at[1..], u)
  {
    assert FirstUnsafe(rule, e.segs[1..]) == FirstUnsafe(rule, e.segs) - 1;
  }

  /** An edit strictly below member k is an edit of that member's pair. */
  lemma FieldBelow(path: string, a: Json, b: Json, k: string, e: Edit)
    requires a.Obj? && b.Obj? && (k in a.fields || k in b.fields)
    requires e in FieldEdit(path, map[], a, b, k)
    ensures |e.segs| >= 2 ==> k in a.fields && k in b.fields
    ensures k in a.fields && k in b.fields ==>
      && a.fields[k] != b.fields[k] && e.segs != []
      && Below(e) in Edits(ChildPath(path, k), map[], a.fields[k], b.fields[k])
  {
    if k in a.fields && k in b.fields {
      PrefixMember(Key(k), Edits(ChildPath(path, k), map[], a.fields[k], b.fields[k]), e);
    }
  }

  lemma ItemBelow(path: string, a: Json, b: Json, j: nat, e: Edit)
    requires a.Arr? && b.Arr? && j < Min(|a.items|, |b.items|)
    requires e in Prefix(Index(j), Edits(IndexPath(path, j), map[], a.items[j], b.items[j]))
    ensures e.segs != [] && Below(e) in Edits(IndexPath(path, j), map[], a.items[j], b.items[j])
    ensures |e.segs| == 1 ==> e.op == OpChange
  {
    PrefixMember(Index(j), Edits(IndexPath(path, j), map[], a.items[j], b.items[j]), e);
    if |e.segs| == 1 {
      RootEdit(IndexPath(path, j), a.items[j], b.items[j], Below(e));
    }
  }

  /** The entry an unsafe edit is about differs between the two values. */
  lemma {:induction false} UnsafeEntryDiffers(rule: Rule, path: string, a: Json, b: Json, e: Edit, at: seq<Seg>, u: string)
    requires e in Edits(path, map[], a, b) && UnsafeAt(rule, e, at, u)
    ensures EntryAt(a, at, u).Some? && EntryAt(b, at, u).Some? && EntryAt(a, at, u) != EntryAt(b, at, u)
    decreases a
  {
    if a.Obj? && b.Obj? {
      var k := FieldMember(path, a, b, Sorted(a.fields.Keys + b.fields.Keys), e);
      FieldBelow(path, a, b, k, e);
      if at != [] {
        UnsafeBelow(rule, e, at, u);
        UnsafeEntryDiffers(rule, ChildPath(path, k), a.fields[k], b.fields[k], Below(e), at[1..], u);
      }
    } else if a.Arr? && b.Arr? {
      var i := ArrayMember(path, a, b, e);
      UnsafeBelow(rule, e, at, u);
      ItemBelow(path, a, b, i, e);
      UnsafeEntryDiffers(rule, IndexPath(path, i), a.items[i], b.items[i], Below(e), at[1..], u);
    }
  }

  lemma NamesSafeBelow(rule: Rule, d: Edit)
    requires d.segs != [] && NamesSafe(rule, d.segs)
    ensures NamesSafe(rule, Below(d).segs)
  {
  }

  /** A safe edit of the same diff never reaches an unsafe edit's entry. */
  lemma {:induction false} SafeEditHarmless(rule: Rule, path: string, a: Json, b: Json, e: Edit, d: Edit, at: seq<Seg>, u: string)
    requires e in Edits(path, map[], a, b) && UnsafeAt(rule, e, at, u)
    requires d in Edits(path, map[], a, b) && NamesSafe(rule, d.segs)
    ensures Harmless(d.segs, d.op, at, u)
    decreases a
  {
    if a.Obj? && b.Obj? {
      var ks := Sorted(a.fields.Keys + b.fields.Keys);
      var k := FieldMember(path, a, b, ks, e);
      var l := FieldMember(path, a, b, ks, d);
      SafeFieldHarmless(rule, path, a, b, e, k, d, l, at, u);
    } else if a.Arr? && b.Arr? {
      var i := ArrayMember(path, a, b, e);
      var j := ArrayMember(path, a, b, d);
      SafeItemHarmless(rule, path, a, b, e, i, d, j, at, u);
    }
  }

  lemma {:induction false} SafeFieldHarmless(rule: Rule, path: string, a: Json, b: Json, e: Edit, k: string, d: Edit, l: string,
                                             at: seq<Seg>, u: string)
    requires a.Obj? && b.Obj? && (k in a.fields || k in b.fields) && (l in a.fields || l in b.fields)
    requires e in FieldEdit(path, map[], a, b, k) && e.segs != [] && e.segs[0] == Key(k) && UnsafeAt(rule, e, at, u)
    requires d in FieldEdit(path, map[], a, b, l) && d.segs != [] && d.segs[0] == Key(l) && NamesSafe(rule, d.segs)
    ensures Harmless(d.segs, d.op, at, u)
    decreases a, 0
  {
    assert e.segs[0] == Key(k) && d.segs[0] == Key(l) && d.segs[0] in d.segs;
    if at != [] {
      UnsafeBelow(rule, e, at, u);
      if k == l {
        FieldBelow(path, a, b, k, e);
        FieldBelow(path, a, b, k, d);
        NamesSafeBelow(rule, d);
        SafeEditHarmless(rule, ChildPath(path, k), a.fields[k], b.fields[k], Below(e), Below(d), at[1..], u);
      }
    }
  }

  lemma {:induction false} SafeItemHarmless(rule: Rule, path: string, a: Json, b: Json, e: Edit, i: nat, d: Edit, j: nat, at: seq<Seg>, u: string)
    requires a.Arr? && b.Arr? && a != b
    requires e in Edits(path, map[], a, b) && e.segs != [] && e.segs[0] == Index(i) && UnsafeAt(rule, e, at, u)
    requires i < Min(|a.items|, |b.items|) ==>
               e in Prefix(Index(i), Edits(IndexPath(path, i), map[], a.items[i], b.items[i]))
    requires i >= Min(|a.items|, |b.items|) ==> |e.segs| == 1
    requires d.segs != [] && d.segs[0] == Index(j) && NamesSafe(rule, d.segs)
    requires j < Min(|a.items|, |b.items|) ==>
               d in Prefix(Index(j), Edits(IndexPath(path, j), map[], a.items[j], b.items[j]))
    ensures Harmless(d.segs, d.op, at, u)
    decreases a, 0
  {
    assert e.segs[0] == Index(i) && d.segs[0] == Index(j);
    UnsafeBelow(rule, e, at, u);
    ItemBelow(path, a, b, i, e);
    if j < Min(|a.items|, |b.items|) {
      ItemBelow(path, a, b, j, d);
    }
    if i == j {
      NamesSafeBelow(rule, d);
      SafeEditHarmless(rule, IndexPath(path, i), a.items[i], b.items[i], Below(e), Below(d), at[1..], u);
    }
  }

  // --------------------------------------------------------------- the converse

  /** As text, an edit either fails to parse or leaves the entry alone. */
  ghost predicate HarmlessText(d: Edit, at: seq<Seg>, u: string) {
    ParsePath(Print("", d).path).Ok? ==> Harmless(ParsePath(Print("", d).path).value, d.op, at, u)
  }

  lemma {:induction false} RunKeeps(v: Json, es: seq<Edit>, at: seq<Seg>, u: string)
    requires EntryAt(v, at, u).Some? && forall d <- es :: HarmlessText(d, at, u)
    requires ApplyAll(v, Printed("", es)).Ok?
    ensures EntryAt(ApplyAll(v, Printed("", es)).value, at, u) == EntryAt(v, at, u)
    decreases |es|
  {
    if es != [] {
      assert Printed("", es)[1..] == Printed("", es[1..]);
      assert HarmlessText(es[0], at, u);
      var q := ParsePath(Print("", es[0]).path).value;
      HarmlessKeeps(v, q, es[0].op, es[0].after, at, u);
      RunKeeps(Step(false, v, q, es[0].op, es[0].after).value, es[1..], at, u);
    }
  }

  /** The unsafe edit whose unsafe name sits closest to the root. */
  lemma {:induction false} Shallowest(rule: Rule, es: seq<Edit>) returns (e: Edit)
    requires exists d <- es :: FirstUnsafe(rule, d.segs) < |d.segs|
    ensures e in es && FirstUnsafe(rule, e.segs) < |e.segs|
    ensures forall d <- es | FirstUnsafe(rule, d.segs) < |d.segs| :: FirstUnsafe(rule, e.segs) <= FirstUnsafe(rule, d.segs)
    decreases |es|
  {
    if exists d <- es[1..] :: FirstUnsafe(rule, d.segs) < |d.segs| {
      e := Shallowest(rule, es[1..]);
      if FirstUnsafe(rule, es[0].segs) < |es[0].segs| && FirstUnsafe(rule, es[0].segs) < FirstUnsafe(rule, e.segs) {
        e := es[0];
      }
    } else {
      e := es[0];
    }
  }

  /** The two root objects agree on the member with the empty name, if any. */
  ghost predicate RootNamed(a: Json, b: Json) {
    a.Obj? && b.Obj? ==> EntryAt(a, [], "") == EntryAt(b, [], "")
  }

  ghost predicate PlainSized(segs: seq<Seg>) {
    forall s <- segs :: !s.Keyed? && (s.Index? ==> 0 <= s.index < TWO63)
  }

  lemma {:induction false} EditShape(path: string, a: Json, b: Json, e: Edit)
    requires Sized(a) && Sized(b) && e in Edits(path, map[], a, b)
    ensures PlainSized(e.segs)
    decreases a
  {
    if a.Obj? && b.Obj? {
      var k := FieldMember(path, a, b, Sorted(a.fields.Keys + b.fields.Keys), e);
      FieldBelow(path, a, b, k, e);
      if k in a.fields && k in b.fields {
        EditShape(ChildPath(path, k), a.fields[k], b.fields[k], Below(e));
      }
    } else if a.Arr? && b.Arr? {
      var j := ArrayMember(path, a, b, e);
      if j < Min(|a.items|, |b.items|) {
        ItemBelow(path, a, b, j, e);
        EditShape(IndexPath(path, j), a.items[j], b.items[j], Below(e));
      }
    }
  }

  lemma {:induction false} PlainPrintable(segs: seq<Seg>)
    requires PlainSized(segs) && NamesSafe(InPaths, segs) && (segs != [] ==> segs[0] != Key(""))
    ensures Printable(segs)
  {
    if segs != [] {
      assert segs[|segs| - 1] in segs;
      PlainPrintable(segs[..|segs| - 1]);
    }
  }

  /** At the root, a diff never starts at the empty member name. */
  lemma RootEditNamed(a: Json, b: Json, e: Edit)
    requires RootNamed(a, b) && e in Edits("", map[], a, b)
    ensures e.segs != [] ==> e.segs[0] != Key("")
  {
    if a.Obj? && b.Obj? {
      var k := FieldMember("", a, b, Sorted(a.fields.Keys + b.fields.Keys), e);
      FieldBelow("", a, b, k, e);
    } else if a.Arr? && b.Arr? {
      var j := ArrayMember("", a, b, e);
    }
  }

  lemma SafeIsPrintable(a: Json, b: Json, e: Edit)
    requires Sized(a) && Sized(b) && RootNamed(a, b) && e in Edits("", map[], a, b)
    ensures NamesSafe(InPaths, e.segs) <==> Printable(e.segs)
    ensures Plain(e.segs)
  {
    EditShape("", a, b, e);
    RootEditNamed(a, b, e);
    if NamesSafe(InPaths, e.segs) { PlainPrintable(e.segs); }
    if Printable(e.segs) { PrintableNames(e.segs); }
  }

  lemma {:induction false} PrintableNames(segs: seq<Seg>)
    requires Printable(segs)
    ensures NamesSafe(InPaths, segs)
  {
    if segs != [] { PrintableNames(segs[..|segs| - 1]); }
  }

  lemma {:induction false} UnsafeHasFirst(rule: Rule, segs: seq<Seg>)
    ensures NamesSafe(rule, segs) <==> FirstUnsafe(rule, segs) == |segs|
  {
    if FirstUnsafe(rule, segs) == |segs| {
      assert segs[..|segs|] == segs;
    } else {
      assert segs[FirstUnsafe(rule, segs)] in segs;
    }
  }

  /** Every edit of the diff, read as text, leaves the shallowest unsafe entry alone. */
  lemma EditHarmlessText(a: Json, b: Json, e: Edit, d: Edit, at: seq<Seg>, u: string)
    requires Sized(a) && Sized(b) && RootNamed(a, b)
    requires e in Edits("", map[], a, b) && UnsafeAt(InPaths, e, at, u)
    requires d in Edits("", map[], a, b)
    requires FirstUnsafe(InPaths, d.segs) < |d.segs| ==> FirstUnsafe(InPaths, e.segs) <= FirstUnsafe(InPaths, d.segs)
    requires d.segs != []
    ensures HarmlessText(d, at, u)
  {
    SafeIsPrintable(a, b, d);
    UnsafeHasFirst(InPaths, d.segs);
    if NamesSafe(InPaths, d.segs) {
      PrintedParses(d);
      SafeEditHarmless(InPaths, "", a, b, e, d, at, u);
    } else if ParsePath(Print("", d).path).Ok? {
      TextOfRender([], d.segs);
      assert [] + d.segs == d.segs;
      ParsedLocation(d.segs);
      var q := ParsePath(Print("", d).path).value;
      assert q[|at|] in q;
    }
  }

  lemma NamedUnprintableFails(a: Json, b: Json)
    requires Sized(a) && Sized(b) && RootNamed(a, b)
    requires exists d <- Edits("", map[], a, b) :: !NamesSafe(InPaths, d.segs)
    ensures ApplyAll(a, DiffOf(map[], a, b)) != Ok(b)
    ensures ApplyAll(a, DiffOf(map[], a, b)).Ok? && a.Obj? ==> ApplyAll(a, DiffOf(map[], a, b)).value.Obj?
  {
    var es := Edits("", map[], a, b);
    forall d <- es ensures NamesSafe(InPaths, d.segs) <==> FirstUnsafe(InPaths, d.segs) == |d.segs| { UnsafeHasFirst(InPaths, d.segs); }
    var e := Shallowest(InPaths, es);
    var at, u := e.segs[..FirstUnsafe(InPaths, e.segs)], e.segs[FirstUnsafe(InPaths, e.segs)].name;
    forall d <- es ensures HarmlessText(d, at, u) {
      if d.segs == [] { RootEdit("", a, b, d); }
      EditHarmlessText(a, b, e, d, at, u);
    }
    UnsafeEntryDiffers(InPaths, "", a, b, e, at, u);
    if ApplyAll(a, DiffOf(map[], a, b)).Ok? {
      RunKeeps(a, es, at, u);
    }
  }

  // ------------------------------------------------------- a condition on inputs

  /** Every member on the way to a difference has a printable name. */
  ghost predicate DiffersSafely(rule: Rule, a: Json, b: Json)
    decreases a
  {
    if a == b then true
    else if a.Obj? && b.Obj? then
      forall k | k in a.fields || k in b.fields ::
        if k in a.fields && k in b.fields then
          a.fields[k] == b.fields[k] || (NameOk(rule, k) && DiffersSafely(rule, a.fields[k], b.fields[k]))
        else NameOk(rule, k)
    else if a.Arr? && b.Arr? then
      forall i | 0 <= i < Min(|a.items|, |b.items|) :: DiffersSafely(rule, a.items[i], b.items[i])
    else true
  }

  lemma {:induction false} SafeEdits(rule: Rule, path: string, a: Json, b: Json, e: Edit)
    requires DiffersSafely(rule, a, b) && e in Edits(path, map[], a, b)
    ensures NamesSafe(rule, e.segs)
    decreases a
  {
    if a.Obj? && b.Obj? {
      var k := FieldMember(path, a, b, Sorted(a.fields.Keys + b.fields.Keys), e);
      FieldBelow(path, a, b, k, e);
      if k in a.fields && k in b.fields {
        SafeEdits(rule, ChildPath(path, k), a.fields[k], b.fields[k], Below(e));
      }
    } else if a.Arr? && b.Arr? {
      var j := ArrayMember(path, a, b, e);
      if j < Min(|a.items|, |b.items|) {
        ItemBelow(path, a, b, j, e);
        SafeEdits(rule, IndexPath(path, j), a.items[j], b.items[j], Below(e));
      }
    }
  }

  lemma DifferenceHasEdit(path: string, a: Json, b: Json)
    requires a != b
    ensures Edits(path, map[], a, b) != []
  {
    EditsReach(false, path, map[], a, b);
    IndexModeMerges(path, a, b);
  }

  lemma {:induction false} FieldIncluded(path: string, a: Json, b: Json, ks: seq<string>, k: string, e: Edit)
    requires a.Obj? && b.Obj? && (forall k <- ks :: k in a.fields || k in b.fields) && k in ks
    requires e in FieldEdit(path, map[], a, b, k)
    ensures e in FieldEdits(path, map[], a, b, ks)
    decreases |ks|
  {
    if k != ks[0] { FieldIncluded(path, a, b, ks[1..], k, e); }
  }

  lemma {:induction false} CommonIncluded(path: string, a: Json, b: Json, i: nat, j: nat, e: Edit)
    requires a.Arr? && b.Arr? && i <= j < Min(|a.items|, |b.items|)
    requires e in Prefix(Index(j), Edits(IndexPath(path, j), map[], a.items[j], b.items[j]))
    ensures e in CommonEdits(path, map[], a, b, i)
    decreases j - i
  {
    if i < j { CommonIncluded(path, a, b, i + 1, j, e); }
  }

  lemma PrefixIncluded(s: Seg, es: seq<Edit>, e: Edit)
    requires e in es
    ensures e.(segs := [s] + e.segs) in Prefix(s, es)
  {
    var i :| 0 <= i < |es| && es[i] == e;
    assert Prefix(s, es)[i] == e.(segs := [s] + e.segs);
  }

  /** An unsafe difference shows up as an unsafe edit. */
  lemma {:induction false} UnsafeEdit(rule: Rule, path: string, a: Json, b: Json) returns (e: Edit)
    requires !DiffersSafely(rule, a, b)
    ensures e in Edits(path, map[], a, b) && !NamesSafe(rule, e.segs)
    decreases a
  {
    if a.Obj? && b.Obj? {
      e := UnsafeField(rule, path, a, b);
    } else {
      var i :| 0 <= i < Min(|a.items|, |b.items|) && !DiffersSafely(rule, a.items[i], b.items[i]);
      var d := UnsafeEdit(rule, IndexPath(path, i), a.items[i], b.items[i]);
      e := d.(segs := [Index(i)] + d.segs);
      PrefixIncluded(Index(i), Edits(IndexPath(path, i), map[], a.items[i], b.items[i]), d);
      CommonIncluded(path, a, b, 0, i, e);
      EditsOfIndexed(path, map[], a, b);
      UnsafeAbove(rule, Index(i), d.segs);
    }
  }

  lemma UnsafeAbove(rule: Rule, s: Seg, segs: seq<Seg>)
    requires !NamesSafe(rule, segs)
    ensures !NamesSafe(rule, [s] + segs)
  {
    var t :| t in segs && t.Key? && !NameOk(rule, t.name);
    assert t in [s] + segs;
  }

  lemma {:induction false} UnsafeField(rule: Rule, path: string, a: Json, b: Json) returns (e: Edit)
    requires a.Obj? && b.Obj? && !DiffersSafely(rule, a, b)
    ensures e in Edits(path, map[], a, b) && !NamesSafe(rule, e.segs)
    decreases a, 0
  {
    var k :| (k in a.fields || k in b.fields) &&
      !(if k in a.fields && k in b.fields then
          a.fields[k] == b.fields[k] || (NameOk(rule, k) && DiffersSafely(rule, a.fields[k], b.fields[k]))
        else NameOk(rule, k));
    if k in a.fields && k in b.fields {
      var p, d := ChildPath(path, k), Edit([], OpChange, Null, Null);
      if NameOk(rule, k) {
        d := UnsafeEdit(rule, p, a.fields[k], b.fields[k]);
        UnsafeAbove(rule, Key(k), d.segs);
      } else {
        DifferenceHasEdit(p, a.fields[k], b.fields[k]);
        d := Edits(p, map[], a.fields[k], b.fields[k])[0];
      }
      e := d.(segs := [Key(k)] + d.segs);
      PrefixIncluded(Key(k), Edits(p, map[], a.fields[k], b.fields[k]), d);
    } else {
      e := FieldEdit(path, map[], a, b, k)[0];
    }
    assert e.segs[0] == Key(k) && e.segs[0] in e.segs;
    FieldIncluded(path, a, b, Sorted(a.fields.Keys + b.fields.Keys), k, e);
  }

  /** Between roots that agree on the empty name, the round trip holds exactly when
      differences sit under printable names. */
  lemma NamedRoundTrip(a: Json, b: Json)
    requires Sized(a) && Sized(b) && RootNamed(a, b)
    ensures ApplyAll(a, DiffOf(map[], a, b)) == Ok(b) <==> DiffersSafely(InPaths, a, b)
    ensures ApplyAll(a, DiffOf(map[], a, b)).Ok? && a.Obj? && b.Obj? ==> ApplyAll(a, DiffOf(map[], a, b)).value.Obj?
  {
    var es := Edits("", map[], a, b);
    if DiffersSafely(InPaths, a, b) {
      forall e <- es ensures Printable(e.segs) {
        SafeEdits(InPaths, "", a, b, e);
        SafeIsPrintable(a, b, e);
      }
      ApplyDiff(map[], a, b);
      IndexModeMerges("", a, b);
    } else {
      var e := UnsafeEdit(InPaths, "", a, b);
      NamedUnprintableFails(a, b);
    }
  }

  /** The documented law fails: a member named "a.b" cannot be added. */
  lemma DottedNameFails()
    ensures ApplyAll(EMPTY, DiffOf(map[], EMPTY, Obj(map["a.b" := Null]))) != Ok(Obj(map["a.b" := Null]))
  {
    var a, b := EMPTY, Obj(map["a.b" := Null]);
    assert "a.b"[1] == '.' && "a.b" in b.fields;
    NamedRoundTrip(a, b);
  }

  lemma LessEmpty(k: string)
    ensures !Less(k, "")
  {
  }
}
