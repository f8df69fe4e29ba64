/**
 Replaying changes onto a value (internal/diff/apply.go). `Step` is one walk
 down a location; the strict form additionally wants a changed object member
 to exist, which is what RFC 6902 asks of "replace".
 */
module Apply {

  import opened Wrappers
  import opened Json
  import opened Paths
  import opened Diff

  type Outcome = Result<Json, Error>

  function RemoveAt(items: seq<Json>, i: nat): seq<Json>
    requires i < |items|
  {
    items[..i] + items[i + 1..]
  }

  function InsertAt(items: seq<Json>, i: nat, v: Json): seq<Json>
    requires i <= |items|
  {
    items[..i] + [v] + items[i..]
  }

  function Step(strict: bool, node: Json, segs: seq<Seg>, op: Op, after: Json): Outcome
    requires segs != []
    decreases |segs|
  {
    match segs[0]
    case Key(k) =>
      if !node.Obj? then Err(TypeMismatch)
      else if |segs| == 1 then KeyLeaf(strict, node.fields, k, op, after)
      else if k !in node.fields then Err(PathNotFound)
      else (match Step(strict, node.fields[k], segs[1..], op, after)
            case Err(e) => Err(e)
            case Ok(v) => Ok(Obj(node.fields[k := v])))
    case Index(i) =>
      if !node.Arr? then Err(TypeMismatch)
      else if |segs| == 1 then IndexLeaf(node.items, i, op, after)
      else if !(0 <= i < |node.items|) then Err(PathNotFound)
      else PutBack(node.items, i, Step(strict, node.items[i], segs[1..], op, after))
    case Keyed(f, v) =>
      if !node.Arr? then Err(TypeMismatch)
      else
        var i := IndexOfKey(node.items, f, v);
        if |segs| == 1 then KeyedLeaf(node.items, i, op, after)
        else if i < 0 then Err(PathNotFound)
        else PutBack(node.items, i, Step(strict, node.items[i], segs[1..], op, after))
  }

  /** An element's own outcome, put back into its array. */
  function PutBack(items: seq<Json>, i: nat, r: Outcome): Outcome
    requires i < |items|
  {
    match r
    case Err(e) => Err(e)
    case Ok(v) => Ok(Arr(items[i := v]))
  }

  function KeyLeaf(strict: bool, fields: map<string, Json>, k: string, op: Op, after: Json): Outcome {
    match op
    case OpAdd => Ok(Obj(fields[k := after]))
    case OpChange => if strict && k !in fields then Err(PathNotFound) else Ok(Obj(fields[k := after]))
    case OpRemove => if k in fields then Ok(Obj(fields - {k})) else Err(PathNotFound)
    case OpOther(_) => Err(UnknownOp)
  }

  function IndexLeaf(items: seq<Json>, i: int, op: Op, after: Json): Outcome {
    match op
    case OpAdd => if 0 <= i <= |items| then Ok(Arr(InsertAt(items, i, after))) else Err(PathNotFound)
    case OpChange => if 0 <= i < |items| then Ok(Arr(items[i := after])) else Err(PathNotFound)
    case OpRemove => if 0 <= i < |items| then Ok(Arr(RemoveAt(items, i))) else Err(PathNotFound)
    case OpOther(_) => Err(UnknownOp)
  }

  /** `i` is the position of the selected element, or -1. */
  function KeyedLeaf(items: seq<Json>, i: int, op: Op, after: Json): Outcome {
    match op
    case OpAdd => Ok(Arr(items + [after]))
    case OpChange => if 0 <= i < |items| then Ok(Arr(items[i := after])) else Err(PathNotFound)
    case OpRemove => if 0 <= i < |items| then Ok(Arr(RemoveAt(items, i))) else Err(PathNotFound)
    case OpOther(_) => Err(UnknownOp)
  }

  /** One change at a location; the root supports replacement only. */
  function ApplyAt(strict: bool, v: Json, segs: seq<Seg>, op: Op, after: Json): Outcome {
    if segs == [] then (if op == OpChange then Ok(after) else Err(UnknownOp))
    else Step(strict, v, segs, op, after)
  }

  function ApplyEdits(strict: bool, v: Json, es: seq<Edit>): Outcome
    decreases |es|
  {
    if es == [] then Ok(v)
    else match ApplyAt(strict, v, es[0].segs, es[0].op, es[0].after)
      case Err(e) => Err(e)
      case Ok(w) => ApplyEdits(strict, w, es[1..])
  }

  /** Textual changes: each path is parsed, then applied. */
  function ApplyChange(v: Json, c: Change): Outcome {
    match ParsePath(c.path)
    case Err(e) => Err(e)
    case Ok(segs) => ApplyAt(false, v, segs, c.op, c.after)
  }

  function ApplyAll(v: Json, cs: seq<Change>): Outcome
    decreases |cs|
  {
    if cs == [] then Ok(v)
    else match ApplyChange(v, cs[0])
      case Err(e) => Err(e)
      case Ok(w) => ApplyAll(w, cs[1..])
  }

  // ------------------------------------------------------------------ composition

  lemma {:induction false} ApplyEditsConcat(strict: bool, v: Json, xs: seq<Edit>, ys: seq<Edit>)
    requires ApplyEdits(strict, v, xs).Ok?
    ensures ApplyEdits(strict, v, xs + ys) == ApplyEdits(strict, ApplyEdits(strict, v, xs).value, ys)
    decreases |xs|
  {
    if xs == [] {
      assert xs + ys == ys;
    } else {
      assert (xs + ys)[1..] == xs[1..] + ys;
      ApplyEditsConcat(strict, ApplyAt(strict, v, xs[0].segs, xs[0].op, xs[0].after).value, xs[1..], ys);
    }
  }

  lemma Chain(strict: bool, v: Json, xs: seq<Edit>, w: Json, ys: seq<Edit>, r: Json)
    requires ApplyEdits(strict, v, xs) == Ok(w) && ApplyEdits(strict, w, ys) == Ok(r)
    ensures ApplyEdits(strict, v, xs + ys) == Ok(r)
  {
    ApplyEditsConcat(strict, v, xs, ys);
  }

  /** Edits below object member `k` edit that member alone. */
  lemma {:induction false} LiftKey(strict: bool, m: map<string, Json>, k: string, es: seq<Edit>)
    requires k in m && ApplyEdits(strict, m[k], es).Ok?
    ensures ApplyEdits(strict, Obj(m), Prefix(Key(k), es)) ==
            Ok(Obj(m[k := ApplyEdits(strict, m[k], es).value]))
    decreases |es|
  {
    if es == [] {
      assert m[k := m[k]] == m;
    } else {
      var e := es[0];
      var w := ApplyAt(strict, m[k], e.segs, e.op, e.after).value;
      assert ([Key(k)] + e.segs)[1..] == e.segs;
      assert ApplyAt(strict, Obj(m), [Key(k)] + e.segs, e.op, e.after) == Ok(Obj(m[k := w]));
      PrefixTail(Key(k), es);
      LiftKey(strict, m[k := w], k, es[1..]);
      assert m[k := w][k := ApplyEdits(strict, w, es[1..]).value] == m[k := ApplyEdits(strict, w, es[1..]).value];
    }
  }

  /** Edits below position `i` edit that element alone. */
  lemma {:induction false} LiftIndex(strict: bool, items: seq<Json>, i: nat, es: seq<Edit>)
    requires i < |items| && ApplyEdits(strict, items[i], es).Ok?
    ensures ApplyEdits(strict, Arr(items), Prefix(Index(i), es)) ==
            Ok(Arr(items[i := ApplyEdits(strict, items[i], es).value]))
    decreases |es|
  {
    if es == [] {
      assert items[i := items[i]] == items;
    } else {
      var e := es[0];
      var w := ApplyAt(strict, items[i], e.segs, e.op, e.after).value;
      assert ([Index(i)] + e.segs)[1..] == e.segs;
      assert ApplyAt(strict, Arr(items), [Index(i)] + e.segs, e.op, e.after) == Ok(Arr(items[i := w]));
      PrefixTail(Index(i), es);
      LiftIndex(strict, items[i := w], i, es[1..]);
      assert items[i := w][i := ApplyEdits(strict, w, es[1..]).value] == items[i := ApplyEdits(strict, w, es[1..]).value];
    }
  }

  // ------------------------------------------------------------- keyed elements

  /** An edit of an object that leaves its identity text under `f` at `v`. */
  predicate KeepsKey(e: Edit, f: string, v: string) {
    && e.segs != [] && e.segs[0].Key?
    && (e.segs[0].name == f ==> |e.segs| == 1 && e.op == OpChange && KeyText(e.after) == Some(v))
  }

  lemma KeepsKeyStep(strict: bool, el: Json, e: Edit, f: string, v: string)
    requires KeyOf(el, f) == Some(v) && KeepsKey(e, f, v)
    requires ApplyAt(strict, el, e.segs, e.op, e.after).Ok?
    ensures KeyOf(ApplyAt(strict, el, e.segs, e.op, e.after).value, f) == Some(v)
  {
  }

  lemma KeyedPosition(items: seq<Json>, i: nat, f: string, v: string)
    requires i < |items| && KeyOf(items[i], f) == Some(v)
    requires forall j | 0 <= j < i :: KeyOf(items[j], f) != Some(v)
    ensures IndexOfKey(items, f, v) == i
  {
  }

  /** Edits below a selector edit the selected element alone, provided they
      keep the identity it is selected by. */
  lemma {:induction false} LiftKeyed(strict: bool, items: seq<Json>, i: nat, f: string, v: string, es: seq<Edit>)
    requires i < |items| && KeyOf(items[i], f) == Some(v)
    requires forall j | 0 <= j < i :: KeyOf(items[j], f) != Some(v)
    requires forall e <- es :: KeepsKey(e, f, v)
    requires ApplyEdits(strict, items[i], es).Ok?
    ensures ApplyEdits(strict, Arr(items), Prefix(Keyed(f, v), es)) ==
            Ok(Arr(items[i := ApplyEdits(strict, items[i], es).value]))
    ensures KeyOf(ApplyEdits(strict, items[i], es).value, f) == Some(v)
    decreases |es|
  {
    if es == [] {
      assert items[i := items[i]] == items;
    } else {
      var e := es[0];
      var w := ApplyAt(strict, items[i], e.segs, e.op, e.after).value;
      assert ([Keyed(f, v)] + e.segs)[1..] == e.segs;
      KeyedPosition(items, i, f, v);
      assert ApplyAt(strict, Arr(items), [Keyed(f, v)] + e.segs, e.op, e.after) == Ok(Arr(items[i := w]));
      PrefixTail(Keyed(f, v), es);
      KeepsKeyStep(strict, items[i], e, f, v);
      LiftKeyed(strict, items[i := w], i, f, v, es[1..]);
      assert items[i := w][i := ApplyEdits(strict, w, es[1..]).value] == items[i := ApplyEdits(strict, w, es[1..]).value];
    }
  }
}
