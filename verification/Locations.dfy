/**
 What one change does to a value, told by reading locations before and after it
 (applyStep of internal/diff/apply.go). It holds of every value and every change,
 those a client sends included. A reading location names members and positions; a
 selector stands for the position of the first element with the identity.
 */
module Locations {

  import opened Wrappers
  import opened Json
  import opened Paths
  import opened Diff
  import opened Apply

  /** What a value holds under one segment. */
  function Child(v: Json, s: Seg): Option<Json> {
    match s
    case Key(k) => if v.Obj? && k in v.fields then Some(v.fields[k]) else None
    case Index(i) => if v.Arr? && 0 <= i < |v.items| then Some(v.items[i]) else None
    case Keyed(f, x) =>
      if v.Arr? && IndexOfKey(v.items, f, x) >= 0 then Some(v.items[IndexOfKey(v.items, f, x)]) else None
  }

  /** The value at a location. */
  function Lookup(v: Json, q: seq<Seg>): Option<Json>
    decreases |q|
  {
    if q == [] then Some(v)
    else match Child(v, q[0])
      case None => None
      case Some(c) => Lookup(c, q[1..])
  }

  predicate Concrete(q: seq<Seg>) {
    forall s <- q :: !s.Keyed?
  }

  // ---------------------------------------------------------- when a change applies

  predicate HasElement(items: seq<Json>, f: string, x: string) {
    exists j | 0 <= j < |items| :: KeyOf(items[j], f) == Some(x)
  }

  /** The operation makes sense at this segment of this container. */
  predicate LeafApplies(parent: Json, s: Seg, op: Op) {
    match s
    case Key(k) => parent.Obj? && (op == OpAdd || op == OpChange || (op == OpRemove && k in parent.fields))
    case Index(i) =>
      parent.Arr? && 0 <= i && ((op == OpAdd && i <= |parent.items|) || ((op == OpChange || op == OpRemove) && i < |parent.items|))
    case Keyed(f, x) =>
      parent.Arr? && (op == OpAdd || ((op == OpChange || op == OpRemove) && HasElement(parent.items, f, x)))
  }

  /** A change below the root succeeds exactly if its container exists and the
      operation makes sense there. */
  lemma {:induction false} AppliesExactly(v: Json, q: seq<Seg>, op: Op, after: Json)
    requires q != []
    ensures var n := |q| - 1;
      Step(false, v, q, op, after).Ok? <==>
      Lookup(v, q[..n]).Some? && LeafApplies(Lookup(v, q[..n]).value, q[n], op)
    decreases |q|
  {
    var n := |q| - 1;
    if n == 0 {
      LeafAppliesExactly(v, q, op, after);
      assert q[..0] == [];
    } else {
      assert q[..n][1..] == q[1..][..n - 1] && q[..n][0] == q[0];
      DescendsExactly(v, q, op, after);
      hide LeafApplies, Step, Child;
      if Child(v, q[0]).Some? { AppliesExactly(Child(v, q[0]).value, q[1..], op, after); }
    }
  }

  lemma LeafAppliesExactly(v: Json, q: seq<Seg>, op: Op, after: Json)
    requires |q| == 1
    ensures Step(false, v, q, op, after).Ok? <==> LeafApplies(v, q[0], op)
  {
    match q[0]
    case Key(_) =>
    case Index(_) => hide InsertAt, RemoveAt;
    case Keyed(f, x) =>
      if v.Arr? { SelectorFinds(v.items, f, x); }
      hide HasElement, IndexOfKey, InsertAt, RemoveAt;
  }

  lemma DescendsExactly(v: Json, q: seq<Seg>, op: Op, after: Json)
    requires |q| > 1
    ensures Step(false, v, q, op, after).Ok? <==>
      Child(v, q[0]).Some? && Step(false, Child(v, q[0]).value, q[1..], op, after).Ok?
  {
    hide KeyLeaf, IndexLeaf, KeyedLeaf, IndexOfKey;
  }

  lemma SelectorFinds(items: seq<Json>, f: string, x: string)
    ensures IndexOfKey(items, f, x) >= 0 <==> HasElement(items, f, x)
  {
  }

  // --------------------------------------------------------------- where it applies

  /** The member or position a change lands at; an addition under a selector goes
      to the end. */
  function Spot(v: Json, q: seq<Seg>, op: Op): (p: seq<Seg>)
    requires q != []
    ensures |p| == |q|
    decreases |q|
  {
    var s := if !q[0].Keyed? then q[0]
             else if !v.Arr? then Index(-1)
             else if |q| == 1 && op == OpAdd then Index(|v.items|)
             else Index(IndexOfKey(v.items, q[0].field, q[0].val));
    if |q| == 1 then [s]
    else if Child(v, q[0]).None? then [s] + q[1..]
    else [s] + Spot(Child(v, q[0]).value, q[1..], op)
  }

  /** Where what is read after a change was before it. */
  datatype Origin = Was(at: seq<Seg>) | New(below: seq<Seg>) | Gone

  /** The change at `p` as seen from `r`: elsewhere nothing moves, positions behind an
      inserted or removed one shift by one, the place itself holds the new value. */
  function Trace(p: seq<Seg>, op: Op, r: seq<Seg>): Origin
    requires p != [] && !(r <= p[..|p| - 1])
  {
    var n := |p| - 1;
    if |r| <= n || r[..n] != p[..n] then Was(r)
    else if p[n].Index? && r[n].Index? && op == OpAdd && p[n].index < r[n].index then Was(r[n := Index(r[n].index - 1)])
    else if p[n].Index? && r[n].Index? && op == OpRemove && p[n].index <= r[n].index then Was(r[n := Index(r[n].index + 1)])
    else if r[n] != p[n] then Was(r)
    else if op == OpRemove then Gone
    else New(r[n + 1..])
  }

  function Read(v: Json, after: Json, o: Origin): Option<Json> {
    match o
    case Was(r) => Lookup(v, r)
    case New(below) => Lookup(after, below)
    case Gone => None
  }

  lemma LookupCons(v: Json, s: Seg, q: seq<Seg>)
    ensures Lookup(v, [s] + q) == if Child(v, s).None? then None else Lookup(Child(v, s).value, q)
  {
    assert ([s] + q)[1..] == q;
  }

  lemma LookupOne(v: Json, q: seq<Seg>)
    requires |q| == 1
    ensures Lookup(v, q) == Child(v, q[0])
  {
    assert q[1..] == [];
    assert forall c: Json :: Lookup(c, []) == Some(c);
  }

  lemma PrefixCons(s: Seg, r: seq<Seg>, p: seq<Seg>)
    ensures [s] + r <= [s] + p <==> r <= p
  {
    var sr, sp := [s] + r, [s] + p;
    assert forall i | 0 <= i < |r| :: sr[i + 1] == r[i];
    assert forall i | 0 <= i < |p| :: sp[i + 1] == p[i];
  }

  lemma TraceBelow(s: Seg, p: seq<Seg>, op: Op, r: seq<Seg>)
    requires p != [] && !(r <= p[..|p| - 1])
    ensures !([s] + r <= ([s] + p)[..|p|])
    ensures Trace([s] + p, op, [s] + r) ==
      match Trace(p, op, r) case Was(x) => Was([s] + x) case New(b) => New(b) case Gone => Gone
  {
    var n := |p| - 1;
    var sp, sr := [s] + p, [s] + r;
    assert sp[..n + 1] == [s] + p[..n];
    PrefixCons(s, r, p[..n]);
    if |r| > n {
      assert sr[..n + 1] == [s] + r[..n];
      assert r[..n] == p[..n] <==> sr[..n + 1] == sp[..n + 1] by {
        assert sr[..n + 1][1..] == r[..n] && sp[..n + 1][1..] == p[..n];
      }
      assert sr[n + 2..] == r[n + 1..];
      if r[n].Index? {
        assert sr[n + 1 := Index(r[n].index - 1)] == [s] + r[n := Index(r[n].index - 1)];
        assert sr[n + 1 := Index(r[n].index + 1)] == [s] + r[n := Index(r[n].index + 1)];
      }
    }
  }

  lemma ReadBelow(v: Json, c: Json, s: Seg, after: Json, o: Origin)
    requires Child(v, s) == Some(c)
    ensures Read(v, after, match o case Was(x) => Was([s] + x) case New(b) => New(b) case Gone => Gone) == Read(c, after, o)
  {
    if o.Was? { LookupCons(v, s, o.at); }
  }

  /** Somewhere else in the same container nothing has moved. */
  lemma DivergedReads(v: Json, w: Json, p: seq<Seg>, op: Op, r: seq<Seg>)
    requires |p| > 1 && r != [] && r[0] != p[0] && Child(w, r[0]) == Child(v, r[0])
    ensures !(r <= p[..|p| - 1]) && Trace(p, op, r) == Was(r) && Lookup(w, r) == Lookup(v, r)
  {
    var n := |p| - 1;
    assert p[..n][0] == p[0];
    if |r| > n { assert r[..n][0] == r[0]; }
  }

  lemma MemberReads(v: Json, w: Json, s: Seg, op: Op, after: Json, t: Seg)
    requires s.Key? && ContainerChanged(v, w, s, op, 0, after) && !t.Keyed?
    ensures Child(w, t) == if t != s then Child(v, t) else if op == OpRemove then None else Some(after)
  {
  }

  lemma PositionReads(v: Json, w: Json, s: Seg, op: Op, i: int, after: Json, j: int)
    requires !s.Key? && ContainerChanged(v, w, s, op, i, after)
    ensures Child(w, Index(j)) ==
      match op
      case OpAdd => if j < i then Child(v, Index(j)) else if j == i then Some(after) else Child(v, Index(j - 1))
      case OpRemove => if j < i then Child(v, Index(j)) else Child(v, Index(j + 1))
      case _ => if j == i then Some(after) else Child(v, Index(j))
  {
    if 0 <= j < |w.items| { assert ElementAfter(v.items, w.items, i, op, after, j); }
    hide Selects;
  }

  lemma LeafReads(v: Json, w: Json, q: seq<Seg>, op: Op, after: Json, r: seq<Seg>)
    requires |q| == 1 && Step(false, v, q, op, after) == Ok(w) && r != [] && !r[0].Keyed?
    ensures !(r <= Spot(v, q, op)[..0])
    ensures Lookup(w, r) == Read(v, after, Trace(Spot(v, q, op), op, r))
  {
    var p, t := Spot(v, q, op), r[0];
    LeafChanges(v, q, op, after);
    SpotIs(v, q, op);
    assert r == [t] + r[1..] && r[..0] == p[..0];
    hide Spot, Step, ContainerChanged;
    if q[0].Key? {
      MemberReads(v, w, q[0], op, after, t);
      OtherReads(v, w, p, op, after, r);
    } else if t.Index? {
      PositionReads(v, w, q[0], op, p[0].index, after, t.index);
      KnownOp(v, w, q[0], op, p[0].index, after);
      ShiftedReads(v, w, p, op, after, r);
    } else {
      BothArrays(v, w, q[0], op, p[0].index, after);
      OtherReads(v, w, p, op, after, r);
    }
  }

  lemma OtherReads(v: Json, w: Json, p: seq<Seg>, op: Op, after: Json, r: seq<Seg>)
    requires |p| == 1 && r != [] && !(p[0].Index? && r[0].Index?)
    requires Child(w, r[0]) == if r[0] != p[0] then Child(v, r[0]) else if op == OpRemove then None else Some(after)
    ensures !(r <= p[..0]) && Lookup(w, r) == Read(v, after, Trace(p, op, r))
  {
    assert r[..0] == p[..0];
    hide Child;
  }

  lemma ShiftedReads(v: Json, w: Json, p: seq<Seg>, op: Op, after: Json, r: seq<Seg>)
    requires |p| == 1 && r != [] && p[0].Index? && r[0].Index? && !op.OpOther?
    requires var i, j := p[0].index, r[0].index;
      Child(w, Index(j)) ==
      match op
      case OpAdd => if j < i then Child(v, Index(j)) else if j == i then Some(after) else Child(v, Index(j - 1))
      case OpRemove => if j < i then Child(v, Index(j)) else Child(v, Index(j + 1))
      case _ => if j == i then Some(after) else Child(v, Index(j))
    ensures !(r <= p[..0]) && Lookup(w, r) == Read(v, after, Trace(p, op, r))
  {
    var j := r[0].index;
    assert r[..0] == p[..0];
    assert r[0 := Index(j - 1)][1..] == r[1..] && r[0 := Index(j + 1)][1..] == r[1..];
    hide Child;
  }

  lemma SpotIs(v: Json, q: seq<Seg>, op: Op)
    requires |q| == 1
    ensures Spot(v, q, op) == [Spot(v, q, op)[0]] && (Spot(v, q, op)[0].Index? || Spot(v, q, op)[0] == q[0])
    ensures q[0].Key? ==> Spot(v, q, op) == q
    ensures !q[0].Key? ==> Spot(v, q, op)[0].Index?
  {
  }

  lemma BothArrays(v: Json, w: Json, s: Seg, op: Op, i: int, after: Json)
    requires !s.Key? && ContainerChanged(v, w, s, op, i, after)
    ensures v.Arr? && w.Arr?
  {
  }

  lemma KnownOp(v: Json, w: Json, s: Seg, op: Op, i: int, after: Json)
    requires !s.Key? && ContainerChanged(v, w, s, op, i, after)
    ensures !op.OpOther?
  {
  }

  /** After a change, every location below or beside its container reads what
      `Trace` says: the place holds the new value, and all else is as before. */
  lemma {:induction false} ChangeReads(v: Json, q: seq<Seg>, op: Op, after: Json, r: seq<Seg>)
    requires q != [] && Step(false, v, q, op, after).Ok? && Concrete(r) && !(r <= Spot(v, q, op)[..|q| - 1])
    ensures Lookup(Step(false, v, q, op, after).value, r) == Read(v, after, Trace(Spot(v, q, op), op, r))
    decreases |q|
  {
    var w, p := Step(false, v, q, op, after).value, Spot(v, q, op);
    assert r != [] && r[0] in r;
    if |q| == 1 {
      LeafReads(v, w, q, op, after, r);
    } else {
      var c := StepDescends(v, q, op, after);
      if r[0] != p[0] {
        DivergedReads(v, w, p, op, r);
      } else {
        var p', r' := p[1..], r[1..];
        assert p == [p[0]] + p' && r == [p[0]] + r' && p' == Spot(c, q[1..], op);
        NotAbove(p[0], p', r');
        assert Concrete(r');
        ChangeReads(c, q[1..], op, after, r');
        TraceBelow(p[0], p', op, r');
        ReadBelow(v, c, p[0], after, Trace(p', op, r'));
        LookupCons(w, p[0], r');
      }
    }
  }

  lemma NotAbove(s: Seg, p: seq<Seg>, r: seq<Seg>)
    requires p != [] && !([s] + r <= ([s] + p)[..|p|])
    ensures !(r <= p[..|p| - 1])
  {
    PrefixCons(s, r, p[..|p| - 1]);
    assert ([s] + p)[..|p|] == [s] + p[..|p| - 1];
  }

  /** A change further down goes on in one child and leaves the others. */
  lemma StepDescends(v: Json, q: seq<Seg>, op: Op, after: Json) returns (c: Json)
    requires |q| > 1 && Step(false, v, q, op, after).Ok?
    ensures var w, s := Step(false, v, q, op, after).value, Spot(v, q, op)[0];
      && !s.Keyed? && Child(v, s) == Some(c) == Child(v, q[0]) && Step(false, c, q[1..], op, after).Ok?
      && Child(w, s) == Some(Step(false, c, q[1..], op, after).value)
      && (forall t: Seg | t != s && !t.Keyed? :: Child(w, t) == Child(v, t))
      && Spot(v, q, op) == [s] + Spot(c, q[1..], op)
  {
    c := Child(v, q[0]).value;
  }

  // ------------------------------------------------------------ the container itself

  /** What position j of the changed array holds. */
  predicate ElementAfter(xs: seq<Json>, ys: seq<Json>, i: int, op: Op, after: Json, j: nat)
    requires j < |ys| && 0 <= i <= |xs|
    requires |ys| == if op == OpAdd then |xs| + 1 else if op == OpRemove then |xs| - 1 else |xs|
  {
    ys[j] == if op == OpRemove then (if j < i then xs[j] else xs[j + 1])
             else if j == i then after
             else if op == OpAdd && j > i then xs[j - 1] else xs[j]
  }

  /** The array `ys` is `xs` after a change at position i. */
  predicate ArrayChanged(xs: seq<Json>, ys: seq<Json>, i: int, op: Op, after: Json) {
    && !op.OpOther? && 0 <= i && (if op == OpAdd then i <= |xs| else i < |xs|)
    && |ys| == (if op == OpAdd then |xs| + 1 else if op == OpRemove then |xs| - 1 else |xs|)
    && forall j | 0 <= j < |ys| :: ElementAfter(xs, ys, i, op, after, j)
  }

  /** The position a leaf segment stands for in an array. */
  predicate Selects(xs: seq<Json>, s: Seg, op: Op, i: int) {
    match s
    case Key(_) => false
    case Index(k) => i == k
    case Keyed(f, x) =>
      if op == OpAdd then i == |xs|
      else 0 <= i < |xs| && KeyOf(xs[i], f) == Some(x) && forall j | 0 <= j < i :: KeyOf(xs[j], f) != Some(x)
  }

  /** The container of the change before and after: an object with one member put or
      removed, or an array with one element replaced, inserted or cut out. */
  ghost predicate ContainerChanged(x: Json, y: Json, s: Seg, op: Op, i: int, after: Json) {
    if s.Key? then
      && x.Obj? && y.Obj? && (op == OpRemove ==> s.name in x.fields)
      && (forall k :: k in y.fields <==> if k == s.name then op != OpRemove else k in x.fields)
      && (forall k <- y.fields :: y.fields[k] == if k == s.name then after else x.fields[k])
    else x.Arr? && y.Arr? && Selects(x.items, s, op, i) && ArrayChanged(x.items, y.items, i, op, after)
  }

  lemma LeafChanges(v: Json, q: seq<Seg>, op: Op, after: Json)
    requires |q| == 1 && Step(false, v, q, op, after).Ok?
    ensures ContainerChanged(v, Step(false, v, q, op, after).value, q[0], op,
                             if q[0].Key? then 0 else Spot(v, q, op)[0].index, after)
  {
    match q[0]
    case Key(k) => MemberChanges(v, k, op, after);
    case Index(i) => PositionChanges(v, i, op, after);
    case Keyed(f, x) => SelectedChanges(v, f, x, op, after);
  }

  lemma MemberChanges(v: Json, k: string, op: Op, after: Json)
    requires v.Obj? && KeyLeaf(false, v.fields, k, op, after).Ok?
    ensures ContainerChanged(v, KeyLeaf(false, v.fields, k, op, after).value, Key(k), op, 0, after)
  {
  }

  lemma PositionChanges(v: Json, i: int, op: Op, after: Json)
    requires v.Arr? && IndexLeaf(v.items, i, op, after).Ok?
    ensures ContainerChanged(v, IndexLeaf(v.items, i, op, after).value, Index(i), op, i, after)
  {
  }

  lemma SelectedChanges(v: Json, f: string, x: string, op: Op, after: Json)
    requires v.Arr? && KeyedLeaf(v.items, IndexOfKey(v.items, f, x), op, after).Ok?
    ensures ContainerChanged(v, KeyedLeaf(v.items, IndexOfKey(v.items, f, x), op, after).value, Keyed(f, x), op,
                             if op == OpAdd then |v.items| else IndexOfKey(v.items, f, x), after)
  {
    var i := if op == OpAdd then |v.items| else IndexOfKey(v.items, f, x);
    assert Selects(v.items, Keyed(f, x), op, i);
    SelectedArray(v.items, IndexOfKey(v.items, f, x), op, after);
    hide Selects, IndexOfKey, KeyOf, ArrayChanged;
  }

  lemma SelectedArray(xs: seq<Json>, i: int, op: Op, after: Json)
    requires KeyedLeaf(xs, i, op, after).Ok?
    ensures KeyedLeaf(xs, i, op, after).value.Arr?
    ensures ArrayChanged(xs, KeyedLeaf(xs, i, op, after).value.items, if op == OpAdd then |xs| else i, op, after)
  {
  }

  /** The container of a change, before and after it. */
  lemma {:induction false} ContainerAfter(v: Json, q: seq<Seg>, op: Op, after: Json)
    requires q != [] && Step(false, v, q, op, after).Ok?
    ensures var w, p, n := Step(false, v, q, op, after).value, Spot(v, q, op), |q| - 1;
      && (p[n].Index? || q[n].Key?)
      && Lookup(v, p[..n]).Some? && Lookup(w, p[..n]).Some?
      && ContainerChanged(Lookup(v, p[..n]).value, Lookup(w, p[..n]).value, q[n], op, if q[n].Key? then 0 else p[n].index, after)
    decreases |q|
  {
    var w, p, n := Step(false, v, q, op, after).value, Spot(v, q, op), |q| - 1;
    if n == 0 {
      LeafChanges(v, q, op, after);
      assert p[..0] == [];
    } else {
      var c := StepDescends(v, q, op, after);
      ContainerAfter(c, q[1..], op, after);
      hide ContainerChanged, Step, Lookup, Spot, Child;
      var p' := Spot(c, q[1..], op);
      assert p[..n] == [p[0]] + p'[..n - 1];
      LookupCons(v, p[0], p'[..n - 1]);
      LookupCons(w, p[0], p'[..n - 1]);
    }
  }
}
