/**
 The member with the empty name. At the root its path is the root's own, so what
 has to change below it is printed one level too high. A diff that has to change
 it therefore never applies to the target: it fails, or replaces the root by a
 part of the target, or leaves the member as it was.
 */
module EmptyNames {

  import opened Wrappers
  import opened Text
  import opened Json
  import opened Paths
  import opened Diff
  import opened Apply
  import opened RoundTrip
  import opened Exactness

  // --------------------------------------------------------------------- heights

  ghost function MaxOf(s: set<nat>): (m: nat)
    ensures forall x <- s :: x <= m
  {
    if s == {} then 0
    else
      var x :| x in s;
      var m := MaxOf(s - {x});
      assert forall y <- s :: y == x || y in s - {x};
      if x < m then m else x
  }

  /** How deeply a value is nested. */
  ghost function Height(v: Json): nat
    decreases v, 1
  {
    if v.Arr? || v.Obj? then 1 + MaxOf(PartHeights(v)) else 0
  }

  ghost function PartHeights(v: Json): set<nat>
    requires v.Arr? || v.Obj?
    decreases v, 0
  {
    if v.Arr? then set i | 0 <= i < |v.items| :: Height(v.items[i])
    else set k | k in v.fields :: Height(v.fields[k])
  }

  lemma FieldHeight(v: Json, k: string)
    requires v.Obj? && k in v.fields
    ensures Height(v.fields[k]) < Height(v)
  {
    assert Height(v.fields[k]) in PartHeights(v);
  }

  lemma ItemHeight(v: Json, i: nat)
    requires v.Arr? && i < |v.items|
    ensures Height(v.items[i]) < Height(v)
  {
    assert Height(v.items[i]) in PartHeights(v);
  }

  // ------------------------------------------------------------------- the spine

  /** Following the empty name j times. */
  ghost function NodeAt(v: Json, j: nat): Option<Json>
    decreases j
  {
    if j == 0 then Some(v)
    else if v.Obj? && "" in v.fields then NodeAt(v.fields[""], j - 1)
    else None
  }

  /** Member k of the object there; None when there is no object. */
  ghost function MemberAt(v: Json, j: nat, k: string): Option<Option<Json>> {
    var o := NodeAt(v, j);
    if o.Some? && o.value.Obj? then Some(if k in o.value.fields then Some(o.value.fields[k]) else None) else None
  }

  lemma {:induction false} NodeHeight(v: Json, j: nat)
    requires NodeAt(v, j).Some?
    ensures Height(NodeAt(v, j).value) + j <= Height(v)
  {
    if j > 0 {
      FieldHeight(v, "");
      NodeHeight(v.fields[""], j - 1);
    }
  }

  lemma MemberHeight(v: Json, j: nat, k: string)
    requires MemberAt(v, j, k).Some? && MemberAt(v, j, k).value.Some?
    ensures Height(MemberAt(v, j, k).value.value) + j < Height(v)
  {
    NodeHeight(v, j);
    FieldHeight(NodeAt(v, j).value, k);
  }

  lemma {:induction false} NodeBelow(v: Json, n: nat, j: nat)
    requires NodeAt(v, n).Some?
    ensures NodeAt(NodeAt(v, n).value, j) == NodeAt(v, n + j)
  {
    if n > 0 { NodeBelow(v.fields[""], n - 1, j); }
  }

  // --------------------------------------------------------- one change, backwards

  /** A location that is nothing but empty names. */
  predicate AllEmpty(q: seq<Seg>) {
    forall i | 0 <= i < |q| :: q[i] == Key("")
  }

  ghost predicate Undotted(q: seq<Seg>) {
    forall s <- q :: s.Key? ==> '.' !in s.name
  }

  /** Only a change to an object leaves an object. */
  lemma StepFromObject(w: Json, q: seq<Seg>, op: Op, after: Json)
    requires q != [] && Step(false, w, q, op, after).Ok? && Step(false, w, q, op, after).value.Obj?
    ensures w.Obj?
  {
  }

  /** A dotted member was there before, or came with a value put on the spine. */
  lemma {:induction false} StepMember(w: Json, q: seq<Seg>, op: Op, after: Json, j: nat, k: string)
    requires q != [] && Undotted(q) && '.' in k
    requires Step(false, w, q, op, after).Ok? && MemberAt(Step(false, w, q, op, after).value, j, k).Some?
    ensures var m := MemberAt(Step(false, w, q, op, after).value, j, k);
      MemberAt(w, j, k) == m ||
      (AllEmpty(q) && |q| <= j && op != OpRemove && MemberAt(after, j - |q|, k) == m)
    decreases j
  {
    if j == 0 {
      StepMemberHere(w, q, op, after, k);
      hide *;
    } else {
      var r := Step(false, w, q, op, after).value;
      MemberBelow(r, j, k);
      MemberBelow(w, j, k);
      StepFromObject(w, q, op, after);
      StepInObject(w, q, op, after);
      UndottedTail(q);
      hide Step, Undotted, MemberAt, NodeAt;
      if q[0] == Key("") && |q| > 1 {
        StepMember(w.fields[""], q[1..], op, after, j - 1, k);
        assert q == [q[0]] + q[1..];
      }
    }
  }

  lemma StepMemberHere(w: Json, q: seq<Seg>, op: Op, after: Json, k: string)
    requires q != [] && Undotted(q) && '.' in k
    requires Step(false, w, q, op, after).Ok? && MemberAt(Step(false, w, q, op, after).value, 0, k).Some?
    ensures MemberAt(w, 0, k) == MemberAt(Step(false, w, q, op, after).value, 0, k)
  {
    assert q[0] in q && q[0] != Key(k);
    MemberHere(Step(false, w, q, op, after).value, k);
    MemberHere(w, k);
    StepFromObject(w, q, op, after);
    StepInObject(w, q, op, after);
    hide Step, Undotted, MemberAt, NodeAt;
  }

  lemma MemberHere(v: Json, k: string)
    ensures MemberAt(v, 0, k) ==
      if v.Obj? then Some(if k in v.fields then Some(v.fields[k]) else None) else None
  {
  }

  lemma UndottedTail(q: seq<Seg>)
    requires q != [] && Undotted(q)
    ensures Undotted(q[1..])
  {
  }

  lemma MemberBelow(v: Json, j: nat, k: string)
    requires j > 0
    ensures MemberAt(v, j, k) == if v.Obj? && "" in v.fields then MemberAt(v.fields[""], j - 1, k) else None
  {
  }

  /** So was a spine node. */
  lemma {:induction false} StepNode(w: Json, q: seq<Seg>, op: Op, after: Json, j: nat)
    requires q != [] && Step(false, w, q, op, after).Ok? && NodeAt(Step(false, w, q, op, after).value, j).Some?
    ensures NodeAt(w, j).Some? || (AllEmpty(q) && op != OpRemove)
    decreases j
  {
    if j > 0 {
      StepFromObject(w, q, op, after);
      StepInObject(w, q, op, after);
      hide Step;
      if q[0] == Key("") && |q| > 1 {
        StepNode(w.fields[""], q[1..], op, after, j - 1);
        assert q == [q[0]] + q[1..];
      }
    }
  }

  // ----------------------------------------------------------- a list of changes

  /** A change at the location it is read as. */
  datatype Move = Move(q: seq<Seg>, op: Op, after: Json)

  ghost predicate Placed(ms: seq<Move>) {
    forall m <- ms :: m.q != [] && Undotted(m.q)
  }

  ghost function RunMoves(w: Json, ms: seq<Move>): Outcome
    requires Placed(ms)
    decreases |ms|
  {
    if ms == [] then Ok(w)
    else
      assert ms[0] in ms;
      match Step(false, w, ms[0].q, ms[0].op, ms[0].after)
      case Err(e) => Err(e)
      case Ok(v) => RunMoves(v, ms[1..])
  }

  /** The move puts a value on the spine. */
  predicate Installs(m: Move) {
    AllEmpty(m.q) && m.op != OpRemove
  }

  /** Some move of the list installs a value higher than x. */
  ghost predicate InstallsAbove(ms: seq<Move>, x: Option<Json>) {
    exists m <- ms :: Installs(m) && (x.Some? ==> Height(x.value) < Height(m.after))
  }

  lemma {:induction false} RunMember(w: Json, ms: seq<Move>, j: nat, k: string)
    requires Placed(ms) && '.' in k && RunMoves(w, ms).Ok? && MemberAt(RunMoves(w, ms).value, j, k).Some?
    ensures var m := MemberAt(RunMoves(w, ms).value, j, k);
      MemberAt(w, j, k) == m || InstallsAbove(ms, m.value)
    decreases |ms|
  {
    if ms != [] {
      var h := ms[0];
      assert h in ms;
      var v := Step(false, w, h.q, h.op, h.after).value;
      RunMember(v, ms[1..], j, k);
      assert RunMoves(w, ms) == RunMoves(v, ms[1..]);
      hide *;
      var m := MemberAt(RunMoves(w, ms).value, j, k);
      if MemberAt(v, j, k) == m {
        HeadMember(w, h, j, k);
        InstallsAtHead(ms, m.value);
      } else {
        InstallsInTail(ms, m.value);
      }
    }
  }

  lemma HeadMember(w: Json, h: Move, j: nat, k: string)
    requires '.' in k && h.q != [] && Undotted(h.q)
    requires Step(false, w, h.q, h.op, h.after).Ok? && MemberAt(Step(false, w, h.q, h.op, h.after).value, j, k).Some?
    ensures var m := MemberAt(Step(false, w, h.q, h.op, h.after).value, j, k);
      MemberAt(w, j, k) == m || (Installs(h) && (m.value.Some? ==> Height(m.value.value) < Height(h.after)))
  {
    hide Step, MemberAt, Undotted, Height;
    var m := MemberAt(Step(false, w, h.q, h.op, h.after).value, j, k);
    StepMember(w, h.q, h.op, h.after, j, k);
    if MemberAt(w, j, k) != m && m.value.Some? { MemberHeight(h.after, j - |h.q|, k); }
  }

  lemma InstallsAtHead(ms: seq<Move>, x: Option<Json>)
    requires ms != []
    ensures Installs(ms[0]) && (x.Some? ==> Height(x.value) < Height(ms[0].after)) ==> InstallsAbove(ms, x)
  {
    assert ms[0] in ms;
  }

  lemma InstallsInTail(ms: seq<Move>, x: Option<Json>)
    requires ms != [] && InstallsAbove(ms[1..], x)
    ensures InstallsAbove(ms, x)
  {
    var d :| d in ms[1..] && Installs(d) && (x.Some? ==> Height(x.value) < Height(d.after));
    assert d in ms;
  }

  lemma {:induction false} RunNode(w: Json, ms: seq<Move>, j: nat)
    requires Placed(ms) && RunMoves(w, ms).Ok? && NodeAt(RunMoves(w, ms).value, j).Some?
    ensures NodeAt(w, j).Some? || InstallsAbove(ms, None)
    decreases |ms|
  {
    if ms != [] {
      var h := ms[0];
      assert h in ms;
      var v := Step(false, w, h.q, h.op, h.after).value;
      RunNode(v, ms[1..], j);
      if NodeAt(v, j).Some? {
        StepNode(w, h.q, h.op, h.after, j);
        InstallsAtHead(ms, None);
      } else {
        InstallsInTail(ms, None);
      }
    }
  }

  // ------------------------------------------------------------ printed locations

  lemma {:induction false} TextExtends(path: string, segs: seq<Seg>)
    requires path != "" && forall s <- segs :: !s.Keyed?
    ensures var t := TextOf(path, segs);
      |path| <= |t| && t[..|path|] == path && (|t| > |path| ==> t[|path|] == '.')
    decreases |segs|
  {
    if segs != [] {
      var next := Extend(path, segs[0]);
      assert next[..|path|] == path && next[|path|] == '.';
      TextExtends(next, segs[1..]);
      var t := TextOf(path, segs);
      assert t[..|path|] == t[..|next|][..|path|] && t[|path|] == t[..|next|][|path|];
    }
  }

  /** A location without its leading empty names prints the same at the root. */
  lemma TextBelowEmpty(segs: seq<Seg>)
    requires segs != [] && segs[0] == Key("")
    ensures TextOf("", segs) == TextOf("", segs[1..])
  {
  }

  lemma TextStarts(segs: seq<Seg>)
    requires segs != [] && segs[0] != Key("") && forall s <- segs :: !s.Keyed?
    ensures var t, p := TextOf("", segs), PlainText(segs[0]);
      p != "" && |p| <= |t| && t[..|p|] == p && t != "" && t[0] == p[0] && (|t| > |p| ==> t[|p|] == '.')
  {
    assert segs[0] in segs;
    TextExtends(PlainText(segs[0]), segs[1..]);
    var t, p := TextOf("", segs), PlainText(segs[0]);
    assert t[..|p|][0] == t[0];
  }

  lemma {:induction false} FirstPiece(ps: seq<string>)
    requires ps != [] && (forall p <- ps :: '.' !in p) && ParsePieces(ps).Ok?
    ensures ParsePiece(ps[0]).Ok? && ParsePiece(ps[0]).value != [] && ParsePieces(ps).value != []
    ensures ParsePieces(ps).value[0] == ParsePiece(ps[0]).value[0]
  {
    var init := ps[..|ps| - 1];
    ParsedPiece(ps[|ps| - 1]);
    if init == [] {
      assert ParsePieces(init) == Ok([]);
      assert [] + ParsePiece(ps[0]).value == ParsePiece(ps[0]).value;
    } else {
      FirstPiece(init);
    }
  }

  lemma PieceStarts(p: string)
    requires '.' !in p && ParsePiece(p).Ok?
    ensures ParsePiece(p).value != [] && (ParsePiece(p).value[0] == Key("") <==> p == "")
  {
    ParsedPiece(p);
  }

  /** The first segment is the empty name exactly if the text starts with a dot. */
  lemma FirstSegment(path: string)
    requires path != "" && ParsePath(path).Ok?
    ensures ParsePath(path).value != [] && (ParsePath(path).value[0] == Key("") <==> path[0] == '.')
  {
    var ps := Split(path, '.');
    FirstOfSplit(path);
    hide Split, ParsePiece, ParsePieces;
    FirstPiece(ps);
    PieceStarts(ps[0]);
  }

  lemma FirstOfSplit(path: string)
    requires path != ""
    ensures Split(path, '.')[0] == "" <==> path[0] == '.'
  {
    assert Split(path, '.')[0] == path[..Find(path, '.')];
  }

  // ------------------------------------------------------------- edits of a diff

  lemma {:induction false} NeverKeyed(path: string, a: Json, b: Json, e: Edit)
    requires e in Edits(path, map[], a, b)
    ensures forall s <- e.segs :: !s.Keyed?
    decreases a
  {
    if a.Obj? && b.Obj? {
      var k := FieldMember(path, a, b, Sorted(a.fields.Keys + b.fields.Keys), e);
      FieldBelow(path, a, b, k, e);
      if k in a.fields && k in b.fields {
        NeverKeyed(ChildPath(path, k), a.fields[k], b.fields[k], Below(e));
      }
    } else if a.Arr? && b.Arr? {
      var j := ArrayMember(path, a, b, e);
      if j < Min(|a.items|, |b.items|) {
        ItemBelow(path, a, b, j, e);
        NeverKeyed(IndexPath(path, j), a.items[j], b.items[j], Below(e));
      }
    }
  }

  lemma {:induction false} AddHeight(items: seq<Json>, i: nat, e: Edit)
    requires i <= |items| && e in AddEdits(items, i)
    ensures Height(e.after) <= Height(Arr(items))
    decreases |items| - i
  {
    ItemHeight(Arr(items), i);
    if e in AddEdits(items, i)[1..] { AddHeight(items, i + 1, e); }
  }

  /** What an edit installs is part of the target. */
  lemma {:induction false} AfterInside(path: string, a: Json, b: Json, e: Edit)
    requires e in Edits(path, map[], a, b) && e.op != OpRemove
    ensures Height(e.after) <= Height(b)
    decreases a
  {
    if a.Obj? && b.Obj? {
      var k := FieldMember(path, a, b, Sorted(a.fields.Keys + b.fields.Keys), e);
      FieldAfter(path, a, b, k, e);
      FieldHeight(b, k);
    } else if a.Arr? && b.Arr? {
      EditsOfIndexed(path, map[], a, b);
      var n := Min(|a.items|, |b.items|);
      if e in CommonEdits(path, map[], a, b, 0) {
        var j := CommonMember(path, a, b, 0, e);
        ItemBelow(path, a, b, j, e);
        AfterInside(IndexPath(path, j), a.items[j], b.items[j], Below(e));
        ItemHeight(b, j);
      } else if e in AddEdits(b.items, n) {
        AddHeight(b.items, n, e);
      } else {
        RemoveMember(a.items, n, |a.items|, e);
      }
    }
  }

  lemma {:induction false} FieldAfter(path: string, a: Json, b: Json, k: string, e: Edit)
    requires a.Obj? && b.Obj? && (k in a.fields || k in b.fields)
    requires e in FieldEdit(path, map[], a, b, k) && e.op != OpRemove
    ensures k in b.fields && Height(e.after) <= Height(b.fields[k])
    decreases a, 0
  {
    FieldBelow(path, a, b, k, e);
    if k in a.fields && k in b.fields {
      AfterInside(ChildPath(path, k), a.fields[k], b.fields[k], Below(e));
    }
  }

  /** An edit printed with a leading dot is about a dotted member on the spine. */
  lemma {:induction false} DottedEdit(a: Json, b: Json, e: Edit) returns (j: nat, k: string)
    requires e in Edits("", map[], a, b)
    requires TextOf("", e.segs) != "" && TextOf("", e.segs)[0] == '.'
    ensures '.' in k && MemberAt(b, j, k).Some? && MemberAt(a, j, k) != MemberAt(b, j, k)
    ensures e.op != OpRemove ==>
      MemberAt(b, j, k).value.Some? && Height(e.after) <= Height(MemberAt(b, j, k).value.value)
    decreases a
  {
    NeverKeyed("", a, b, e);
    if a.Obj? && b.Obj? {
      k := FieldMember("", a, b, Sorted(a.fields.Keys + b.fields.Keys), e);
      FieldBelow("", a, b, k, e);
      if k == "" {
        TextBelowEmpty(e.segs);
        var i;
        i, k := DottedEdit(a.fields[""], b.fields[""], Below(e));
        j := i + 1;
        MemberBelow(a, j, k);
        MemberBelow(b, j, k);
        hide MemberAt, Edits;
      } else {
        j := 0;
        TextStarts(e.segs);
        DottedHere(a, b, k, e);
      }
    } else {
      var i := ArrayMember("", a, b, e);
      TextStarts(e.segs);
      ItoaStarts(i);
    }
  }

  lemma ItoaStarts(i: nat)
    ensures Itoa(i)[0] != '.'
  {
    assert IsDigit(Itoa(i)[0]);
  }

  lemma DottedHere(a: Json, b: Json, k: string, e: Edit)
    requires a.Obj? && b.Obj? && (k in a.fields || k in b.fields) && e in FieldEdit("", map[], a, b, k)
    ensures MemberAt(b, 0, k).Some? && MemberAt(a, 0, k) != MemberAt(b, 0, k)
    ensures e.op != OpRemove ==>
      MemberAt(b, 0, k).value.Some? && Height(e.after) <= Height(MemberAt(b, 0, k).value.value)
  {
    FieldBelow("", a, b, k, e);
    if e.op != OpRemove { FieldAfter("", a, b, k, e); }
  }

  // ------------------------------------------------------- how the list begins

  datatype Head = Removes | Replaces(n: nat) | Stays

  ghost predicate BelowRoot(cs: seq<Change>) {
    forall c <- cs :: c.path != ""
  }

  /** The first change is to remove the root, or it is the only one to put something
      in its place, a node of the target's spine, or none touches the root. */
  ghost predicate Begins(b: Json, cs: seq<Change>, h: Head) {
    match h
    case Removes => cs != [] && cs[0].path == "" && cs[0].op == OpRemove
    case Replaces(n) =>
      && cs != [] && cs[0].path == "" && (cs[0].op == OpAdd || cs[0].op == OpChange)
      && NodeAt(b, n) == Some(cs[0].after) && BelowRoot(cs[1..])
    case Stays => BelowRoot(cs)
  }

  /** Adding or removing the empty name at the root is the first change, and its path is the root's. */
  lemma OneSidedBegins(a: Json, b: Json) returns (h: Head)
    requires a.Obj? && b.Obj? && ("" in a.fields <==> "" !in b.fields)
    ensures Begins(b, DiffOf(map[], a, b), h) && h == if "" in a.fields then Removes else Replaces(1)
  {
    FirstIsEmpty(a, b);
    var ks := Sorted(a.fields.Keys + b.fields.Keys);
    var first, others := FieldEdit("", map[], a, b, ""), FieldEdits("", map[], a, b, ks[1..]);
    OthersBelowRoot(a, b);
    assert first == if "" in a.fields then [Edit([Key("")], OpRemove, a.fields[""], Null)]
                    else [Edit([Key("")], OpAdd, Null, b.fields[""])];
    hide Edits, FieldEdit, FieldEdits, Sorted, BelowRoot;
    PrintedConcat("", first, others);
    assert Printed("", first) == [Print("", first[0])];
    assert TextOf("", [Key("")]) == TextOf("", []) == "";
    h := if "" in a.fields then Removes else Replaces(1);
    if "" in b.fields { assert NodeAt(b.fields[""], 0) == Some(b.fields[""]); }
    assert DiffOf(map[], a, b) == [Print("", first[0])] + Printed("", others);
    assert DiffOf(map[], a, b)[1..] == Printed("", others);
  }

  /** The changes of the other members are printed below the root. */
  lemma OthersBelowRoot(a: Json, b: Json)
    requires a.Obj? && b.Obj? && a != b && ("" in a.fields || "" in b.fields)
    ensures BelowRoot(Printed("", FieldEdits("", map[], a, b, Sorted(a.fields.Keys + b.fields.Keys)[1..])))
  {
    FirstIsEmpty(a, b);
    var ks := Sorted(a.fields.Keys + b.fields.Keys);
    var others := FieldEdits("", map[], a, b, ks[1..]);
    forall e <- others ensures e.segs != [] && e.segs[0] != Key("") && forall s <- e.segs :: !s.Keyed? {
      var k := FieldMember("", a, b, ks[1..], e);
      assert e in Edits("", map[], a, b);
      NeverKeyed("", a, b, e);
    }
    hide Edits, FieldEdits, FieldEdit;
    NamedBelowRoot(others);
  }

  /** The empty name sorts first. */
  lemma FirstIsEmpty(a: Json, b: Json)
    requires a.Obj? && b.Obj? && a != b && ("" in a.fields || "" in b.fields)
    ensures var ks := Sorted(a.fields.Keys + b.fields.Keys);
      && ks != [] && ks[0] == "" && "" !in ks[1..]
      && Edits("", map[], a, b) == FieldEdit("", map[], a, b, "") + FieldEdits("", map[], a, b, ks[1..])
  {
    var ks := Sorted(a.fields.Keys + b.fields.Keys);
    assert "" in ks;
    var i :| 0 <= i < |ks| && ks[i] == "";
    assert i > 0 ==> Less(ks[0], ks[i]);
    LessEmpty(ks[0]);
    AscendingTail(ks);
  }

  lemma ArraysBegin(a: Json, b: Json)
    requires a.Arr? && b.Arr? && a != b
    ensures BelowRoot(DiffOf(map[], a, b))
  {
    var es := Edits("", map[], a, b);
    forall e <- es ensures e.segs != [] && e.segs[0] != Key("") && forall s <- e.segs :: !s.Keyed? {
      var j := ArrayMember("", a, b, e);
      NeverKeyed("", a, b, e);
    }
    hide Edits;
    NamedBelowRoot(es);
  }

  /** Changes of named members are printed below the root. */
  lemma NamedBelowRoot(es: seq<Edit>)
    requires forall e <- es :: e.segs != [] && e.segs[0] != Key("") && forall s <- e.segs :: !s.Keyed?
    ensures BelowRoot(Printed("", es))
  {
    forall c <- Printed("", es) ensures c.path != "" {
      var i :| 0 <= i < |es| && Printed("", es)[i] == c;
      assert es[i] in es;
      TextStarts(es[i].segs);
    }
  }

  lemma BelowRootConcat(xs: seq<Change>, ys: seq<Change>)
    requires BelowRoot(xs) && BelowRoot(ys)
    ensures BelowRoot(xs + ys)
  {
  }

  /** Below a shared empty name the changes of its pair come first, printed as they
      are, and the others are below the root. */
  lemma SharedEmptyName(a: Json, b: Json) returns (rest: seq<Change>)
    requires a.Obj? && b.Obj? && "" in a.fields && "" in b.fields && a != b
    ensures DiffOf(map[], a, b) == DiffOf(map[], a.fields[""], b.fields[""]) + rest && BelowRoot(rest)
  {
    FirstIsEmpty(a, b);
    var ks := Sorted(a.fields.Keys + b.fields.Keys);
    var inner, others := Edits("", map[], a.fields[""], b.fields[""]), FieldEdits("", map[], a, b, ks[1..]);
    rest := Printed("", others);
    PrintedConcat("", FieldEdit("", map[], a, b, ""), others);
    PrintedPrefix("", Key(""), inner);
    OthersBelowRoot(a, b);
  }

  lemma NoEmptyName(a: Json, b: Json)
    requires a.Obj? && b.Obj? && a != b && "" !in a.fields && "" !in b.fields
    ensures BelowRoot(DiffOf(map[], a, b))
  {
    var es := Edits("", map[], a, b);
    forall e <- es ensures e.segs != [] && e.segs[0] != Key("") && forall s <- e.segs :: !s.Keyed? {
      var k := FieldMember("", a, b, Sorted(a.fields.Keys + b.fields.Keys), e);
      NeverKeyed("", a, b, e);
    }
    hide Edits;
    NamedBelowRoot(es);
  }

  lemma {:induction false} HeadOf(a: Json, b: Json) returns (h: Head)
    requires a != b
    ensures Begins(b, DiffOf(map[], a, b), h)
    ensures a.Obj? && b.Obj? ==> h != Replaces(0) && ("" in a.fields && "" !in b.fields ==> h == Removes)
    decreases a
  {
    if a.Obj? && b.Obj? {
      if "" in a.fields && "" in b.fields {
        var rest := SharedEmptyName(a, b);
        var x, y := a.fields[""], b.fields[""];
        if x == y {
          h := Stays;
          assert DiffOf(map[], x, y) == [] && [] + rest == rest;
        } else {
          var inner := HeadOf(x, y);
          h := if inner.Replaces? then Replaces(inner.n + 1) else inner;
          hide DiffOf;
          BeginsConcat(y, DiffOf(map[], x, y), inner, rest, b);
        }
      } else if "" in a.fields || "" in b.fields {
        h := OneSidedBegins(a, b);
      } else {
        h := Stays;
        NoEmptyName(a, b);
      }
    } else if a.Arr? && b.Arr? {
      h := Stays;
      ArraysBegin(a, b);
    } else {
      h := Replaces(0);
    }
  }

  lemma BeginsConcat(y: Json, cs: seq<Change>, h: Head, rest: seq<Change>, b: Json)
    requires Begins(y, cs, h) && BelowRoot(rest) && b.Obj? && "" in b.fields && b.fields[""] == y
    ensures Begins(b, cs + rest, if h.Replaces? then Replaces(h.n + 1) else h)
  {
    match h
    case Removes => assert (cs + rest)[0] == cs[0];
    case Replaces(n) =>
      assert (cs + rest)[0] == cs[0] && (cs + rest)[1..] == cs[1..] + rest;
      BelowRootConcat(cs[1..], rest);
    case Stays => BelowRootConcat(cs, rest);
  }

  // ---------------------------------------------------------- it never comes out

  /** The move is what the edit is read as: its names have no dots, and it starts at
      the empty name only if the edit's text starts with a dot. */
  ghost predicate ReadAs(e: Edit, m: Move) {
    && m.q != [] && Undotted(m.q) && m.op == e.op && m.after == e.after
    && (m.q[0] == Key("") ==> TextOf("", e.segs) != "" && TextOf("", e.segs)[0] == '.')
  }

  ghost predicate FromDiff(a: Json, b: Json, ms: seq<Move>) {
    forall m <- ms :: exists e <- Edits("", map[], a, b) :: ReadAs(e, m)
  }

  lemma FromDiffPlaced(a: Json, b: Json, ms: seq<Move>)
    requires FromDiff(a, b, ms)
    ensures Placed(ms)
  {
    hide Edits;
  }

  /** A move at the empty name is about a dotted member of the target that differs. */
  lemma DottedMove(a: Json, b: Json, ms: seq<Move>, m: Move) returns (j: nat, k: string)
    requires FromDiff(a, b, ms) && m in ms && m.q != [] && m.q[0] == Key("")
    ensures '.' in k && MemberAt(b, j, k).Some? && MemberAt(a, j, k) != MemberAt(b, j, k)
    ensures m.op != OpRemove ==>
      MemberAt(b, j, k).value.Some? && Height(m.after) <= Height(MemberAt(b, j, k).value.value)
  {
    hide Edits, MemberAt, Height;
    var e :| e in Edits("", map[], a, b) && ReadAs(e, m);
    j, k := DottedEdit(a, b, e);
  }

  lemma InstallStarts(m: Move)
    requires Installs(m) && m.q != []
    ensures m.q[0] == Key("") && m.op != OpRemove
  {
  }

  /** A dotted member of the target that w does not have was installed, with a
      value higher than it; that value's own path asks for a higher one still. */
  lemma {:induction false} NoInstallStays(a: Json, b: Json, ms: seq<Move>, m: Move)
    requires FromDiff(a, b, ms) && Placed(ms) && RunMoves(a, ms) == Ok(b) && m in ms
    ensures !Installs(m)
    decreases Height(b) - Height(m.after)
  {
    if Installs(m) {
      hide MemberAt, Installs, RunMoves, Height, FromDiff;
      InstallStarts(m);
      var j, k := DottedMove(a, b, ms, m);
      MemberHeight(b, j, k);
      RunMember(a, ms, j, k);
      var d := Higher(ms, MemberAt(b, j, k).value);
      NoInstallStays(a, b, ms, d);
    }
  }

  lemma Higher(ms: seq<Move>, x: Option<Json>) returns (d: Move)
    requires InstallsAbove(ms, x)
    ensures d in ms && Installs(d) && (x.Some? ==> Height(x.value) < Height(d.after))
  {
    d :| d in ms && Installs(d) && (x.Some? ==> Height(x.value) < Height(d.after));
  }

  /** Started from a strict part of itself, the target repeats its dotted members
      further down the spine for ever, unless a higher value is installed. */
  lemma {:induction false} PartAsksMore(b: Json, n: nat, ms: seq<Move>, j: nat, k: string)
    requires n >= 1 && NodeAt(b, n).Some? && Placed(ms) && RunMoves(NodeAt(b, n).value, ms) == Ok(b)
    requires '.' in k && MemberAt(b, j, k).Some? && MemberAt(b, j, k).value.Some?
    ensures InstallsAbove(ms, MemberAt(b, j, k).value)
    decreases Height(b) - j
  {
    var w := NodeAt(b, n).value;
    RunMember(w, ms, j, k);
    if MemberAt(w, j, k) == MemberAt(b, j, k) {
      NodeBelow(b, n, j);
      assert MemberAt(b, n + j, k) == MemberAt(b, j, k);
      hide MemberAt, RunMoves, Height, InstallsAbove;
      MemberHeight(b, j, k);
      PartAsksMore(b, n, ms, n + j, k);
    }
  }

  lemma {:induction false} NoInstallOnPart(a: Json, b: Json, n: nat, ms: seq<Move>, m: Move)
    requires n >= 1 && NodeAt(b, n).Some? && Placed(ms) && RunMoves(NodeAt(b, n).value, ms) == Ok(b)
    requires FromDiff(a, b, ms) && m in ms
    ensures !Installs(m)
    decreases Height(b) - Height(m.after)
  {
    if Installs(m) {
      hide MemberAt, Installs, RunMoves, Height, FromDiff, NodeAt;
      InstallStarts(m);
      var j, k := DottedMove(a, b, ms, m);
      MemberHeight(b, j, k);
      PartAsksMore(b, n, ms, j, k);
      var d := Higher(ms, MemberAt(b, j, k).value);
      NoInstallOnPart(a, b, n, ms, d);
    }
  }

  /** Without installs the spine never grows, yet the target's is longer than its part's. */
  lemma {:induction false} SpineTooShort(b: Json, n: nat, ms: seq<Move>, i: nat)
    requires n >= 1 && NodeAt(b, n).Some? && Placed(ms) && RunMoves(NodeAt(b, n).value, ms) == Ok(b)
    requires forall m <- ms :: !Installs(m)
    ensures NodeAt(b, i).None?
    decreases Height(b) - i
  {
    if NodeAt(b, i).Some? {
      NodeHeight(b, i);
      RunNode(NodeAt(b, n).value, ms, i);
      NodeBelow(b, n, i);
      hide RunMoves, Height, Installs;
      NodeHeight(b, n + i);
      SpineTooShort(b, n, ms, n + i);
    }
  }

  lemma {:induction false} NamedKeeps(w: Json, ms: seq<Move>)
    requires Placed(ms) && (forall m <- ms :: m.q[0] != Key("")) && RunMoves(w, ms).Ok?
    requires MemberAt(RunMoves(w, ms).value, 0, "").Some?
    ensures MemberAt(w, 0, "") == MemberAt(RunMoves(w, ms).value, 0, "")
    decreases |ms|
  {
    if ms != [] {
      var h := ms[0];
      assert h in ms;
      NamedKeeps(Step(false, w, h.q, h.op, h.after).value, ms[1..]);
      StepFromObject(w, h.q, h.op, h.after);
      StepInObject(w, h.q, h.op, h.after);
    }
  }

  /** Moves of a diff that leave the root in place never give a target that differs
      under the empty name. */
  lemma StaysFails(a: Json, b: Json, ms: seq<Move>)
    requires FromDiff(a, b, ms) && Placed(ms) && MemberAt(a, 0, "") != MemberAt(b, 0, "") && b.Obj?
    ensures RunMoves(a, ms) != Ok(b)
  {
    if RunMoves(a, ms) == Ok(b) {
      forall m <- ms ensures m.q[0] != Key("") {
        hide RunMoves, FromDiff, MemberAt, Installs;
        if m.q[0] == Key("") {
          var j, k := DottedMove(a, b, ms, m);
          RunMember(a, ms, j, k);
          var d := Higher(ms, MemberAt(b, j, k).value);
          NoInstallStays(a, b, ms, d);
        }
      }
      NamedKeeps(a, ms);
    }
  }

  /** Nor do they from a strict part of the target's spine. */
  lemma ReplacesFails(a: Json, b: Json, n: nat, ms: seq<Move>)
    requires n >= 1 && NodeAt(b, n).Some? && FromDiff(a, b, ms) && Placed(ms)
    ensures RunMoves(NodeAt(b, n).value, ms) != Ok(b)
  {
    if RunMoves(NodeAt(b, n).value, ms) == Ok(b) {
      hide RunMoves, FromDiff, Installs;
      forall m <- ms ensures !Installs(m) { NoInstallOnPart(a, b, n, ms, m); }
      SpineTooShort(b, n, ms, 0);
    }
  }

  // ---------------------------------------------------------------- stored changes

  ghost predicate PrintedFrom(a: Json, b: Json, cs: seq<Change>) {
    forall c <- cs :: exists e <- Edits("", map[], a, b) :: c == Print("", e)
  }

  lemma DiffIsPrinted(a: Json, b: Json)
    ensures PrintedFrom(a, b, DiffOf(map[], a, b))
  {
    var es, cs := Edits("", map[], a, b), DiffOf(map[], a, b);
    forall c <- cs ensures exists e <- es :: c == Print("", e) {
      var i :| 0 <= i < |cs| && cs[i] == c;
      assert es[i] in es && c == Print("", es[i]);
    }
  }

  lemma PrintedTail(a: Json, b: Json, cs: seq<Change>)
    requires cs != [] && PrintedFrom(a, b, cs)
    ensures PrintedFrom(a, b, cs[1..])
  {
    hide Edits;
    forall c <- cs[1..] ensures exists e <- Edits("", map[], a, b) :: c == Print("", e) { assert c in cs; }
  }

  lemma FromDiffCons(a: Json, b: Json, m: Move, ms: seq<Move>, e: Edit)
    requires e in Edits("", map[], a, b) && ReadAs(e, m) && FromDiff(a, b, ms)
    ensures FromDiff(a, b, [m] + ms)
  {
    hide Edits, ReadAs;
    forall d <- [m] + ms ensures exists x <- Edits("", map[], a, b) :: ReadAs(x, d) {
      if d != m { assert d in ms; }
    }
  }

  /** Stored changes below the root, read from their text. */
  lemma {:induction false} ReadChanges(a: Json, b: Json, w: Json, cs: seq<Change>) returns (ms: seq<Move>)
    requires PrintedFrom(a, b, cs) && BelowRoot(cs) && ApplyAll(w, cs).Ok?
    ensures FromDiff(a, b, ms) && Placed(ms) && RunMoves(w, ms) == ApplyAll(w, cs)
    decreases |cs|
  {
    if cs == [] {
      ms := [];
    } else {
      var c := cs[0];
      assert c in cs;
      var e :| e in Edits("", map[], a, b) && c == Print("", e);
      ParsedSafe(c.path);
      FirstSegment(c.path);
      var m := Move(ParsePath(c.path).value, c.op, c.after);
      PrintedTail(a, b, cs);
      assert ReadAs(e, m);
      var rest := ReadChanges(a, b, Step(false, w, m.q, m.op, m.after).value, cs[1..]);
      ms := [m] + rest;
      FromDiffCons(a, b, m, rest, e);
      FromDiffPlaced(a, b, ms);
      assert ms[1..] == rest;
    }
  }

  lemma ParsedSafe(path: string)
    requires path != "" && ParsePath(path).Ok?
    ensures Undotted(ParsePath(path).value) && ParsePath(path).value != []
  {
    ParsedPieces(Split(path, '.'));
  }

  /** A diff that has to change the root's member with the empty name never applies
      to the target. */
  lemma EmptyNameFails(a: Json, b: Json)
    requires !RootNamed(a, b)
    ensures ApplyAll(a, DiffOf(map[], a, b)) != Ok(b)
    ensures ApplyAll(a, DiffOf(map[], a, b)).Ok? ==> "" in b.fields
  {
    var cs := DiffOf(map[], a, b);
    var h := HeadOf(a, b);
    DiffIsPrinted(a, b);
    assert MemberAt(a, 0, "") != MemberAt(b, 0, "") && ("" in a.fields || "" in b.fields);
    if ApplyAll(a, cs).Ok? {
      hide DiffOf, PrintedFrom, FromDiff, RunMoves;
      if h.Replaces? {
        var w := NodeAt(b, h.n).value;
        assert ApplyAll(a, cs) == ApplyAll(w, cs[1..]);
        PrintedTail(a, b, cs);
        var ms := ReadChanges(a, b, w, cs[1..]);
        ReplacesFails(a, b, h.n, ms);
      } else {
        var ms := ReadChanges(a, b, a, cs);
        StaysFails(a, b, ms);
      }
    }
  }

  // ------------------------------------------------------------------ the theorem

  /** A change below an unprintable name is never carried out, whatever else the diff does. */
  lemma UnprintableFails(a: Json, b: Json)
    requires Sized(a) && Sized(b) && exists d <- Edits("", map[], a, b) :: !NamesSafe(InPaths, d.segs)
    ensures ApplyAll(a, DiffOf(map[], a, b)) != Ok(b)
  {
    if RootNamed(a, b) {
      NamedUnprintableFails(a, b);
    } else {
      EmptyNameFails(a, b);
    }
  }

  /** Applied to an object, a diff between objects leaves a non-object only where the
      target has a member with the empty name. */
  lemma NonObjectResult(a: Json, b: Json)
    requires Sized(a) && Sized(b) && a.Obj? && b.Obj? && ApplyAll(a, DiffOf(map[], a, b)).Ok?
    ensures ApplyAll(a, DiffOf(map[], a, b)).value.Obj? || "" in b.fields
  {
    hide ApplyAll, DiffOf;
    if RootNamed(a, b) {
      NamedRoundTrip(a, b);
    } else {
      EmptyNameFails(a, b);
    }
  }

  /** For all values the round trip holds exactly when every member on the way to a
      difference has a printable name and the roots agree on the empty one. */
  lemma RoundTripExact(a: Json, b: Json)
    requires Sized(a) && Sized(b)
    ensures ApplyAll(a, DiffOf(map[], a, b)) == Ok(b) <==> DiffersSafely(InPaths, a, b) && RootNamed(a, b)
  {
    hide ApplyAll, DiffOf, DiffersSafely;
    if RootNamed(a, b) {
      NamedRoundTrip(a, b);
    } else {
      EmptyNameFails(a, b);
    }
  }
}
