/**
 The diff engine as it runs: loops, accumulators and lookup maps
 (internal/diff/diff.go, internal/diff/apply.go), verified against the
 functions of Diff, Paths and Apply.
 */
module DiffEngine {

  import opened Wrappers
  import opened Text
  import opened Json
  import opened Paths
  import opened Diff
  import opened Apply
  import opened RoundTrip

  // -------------------------------------------------------------------- helpers

  /** The keys of two objects, each once, in ascending order. */
  method SortedUnion(a: map<string, Json>, b: map<string, Json>) returns (keys: seq<string>)
    ensures keys == Sorted(a.Keys + b.Keys)
  {
    keys := [];
    var rest := a.Keys + b.Keys;
    while rest != {}
      invariant Ascending(keys)
      invariant rest <= a.Keys + b.Keys
      invariant forall k :: k in keys <==> k in a.Keys + b.Keys && k !in rest
      decreases rest
    {
      var k :| k in rest;
      keys := Insert(keys, k);
      rest := rest - {k};
    }
    AscendingUnique(keys, Sorted(a.Keys + b.Keys));
  }

  function Insert(ks: seq<string>, k: string): (r: seq<string>)
    requires Ascending(ks) && k !in ks
    ensures Ascending(r)
    ensures forall x :: x in r <==> x in ks || x == k
  {
    if ks == [] then [k]
    else
      AscendingTail(ks);
      LessTotal(k, ks[0]);
      if Less(k, ks[0]) then
        assert forall i | 0 <= i < |ks| :: Less(k, ks[i]) by {
          forall i | 0 < i < |ks| ensures Less(k, ks[i]) { LessTransitive(k, ks[0], ks[i]); }
        }
        [k] + ks
      else
        var r := Insert(ks[1..], k);
        assert forall i | 0 <= i < |r| :: r[i] in r;
        assert forall x | x in ks[1..] :: Less(ks[0], x);
        [ks[0]] + r
  }

  /** The first n elements have distinct identities, and `seen` holds them. */
  ghost predicate Collected(items: seq<Json>, field: string, n: nat, seen: set<string>)
    requires n <= |items|
  {
    && Keyable(items[..n], field)
    && forall v :: v in seen <==> exists j | 0 <= j < n :: KeyOf(items[j], field) == Some(v)
  }

  lemma CollectedSnoc(items: seq<Json>, field: string, n: nat, seen: set<string>)
    requires n < |items| && Collected(items, field, n, seen)
    ensures var key := KeyOf(items[n], field);
      if key == None || key.value in seen then !Keyable(items, field)
      else Collected(items, field, n + 1, seen + {key.value})
  {
    var key := KeyOf(items[n], field);
    hide KeyOf;
    if key.Some? && key.value in seen {
      var j :| 0 <= j < n && KeyOf(items[j], field) == Some(key.value);
    } else if key.Some? {
      var next := items[..n + 1];
      assert forall i | 0 <= i < n :: next[i] == items[..n][i];
      forall i, j | 0 <= i < j < |next| ensures KeyOf(next[i], field) != KeyOf(next[j], field) {
        if j == n { assert KeyOf(items[i], field).value in seen; }
      }
      forall v ensures v in seen + {key.value} <==> exists j | 0 <= j < n + 1 :: KeyOf(items[j], field) == Some(v) {
        if v in seen {
          var j :| 0 <= j < n && KeyOf(items[j], field) == Some(v);
        } else if v == key.value {
          assert KeyOf(items[n], field) == Some(v);
        }
      }
    }
  }

  /** Is every element an object with a scalar, unique value under `field`? */
  method CheckKeyable(items: seq<Json>, field: string) returns (ok: bool)
    ensures ok <==> Keyable(items, field)
  {
    var seen: set<string> := {};
    assert Collected(items, field, 0, seen);
    for i := 0 to |items|
      invariant Collected(items, field, i, seen)
    {
      CollectedSnoc(items, field, i, seen);
      hide Collected, Keyable, KeyOf;
      var key := KeyOf(items[i], field);
      if key == None || key.value in seen {
        return false;
      }
      seen := seen + {key.value};
    }
    assert items[..|items|] == items;
    return true;
  }

  method FindKey(items: seq<Json>, field: string, val: string) returns (j: int)
    ensures j == IndexOfKey(items, field, val)
  {
    for i := 0 to |items|
      invariant forall x | 0 <= x < i :: KeyOf(items[x], field) != Some(val)
    {
      if KeyOf(items[i], field) == Some(val) {
        return i;
      }
    }
    return -1;
  }

  // ----------------------------------------------------------------------- diff

  /** The shared list every comparison appends to. */
  class Recorder {
    var out: seq<Change>

    constructor ()
      ensures out == []
    {
      out := [];
    }

    method DiffValue(path: string, a: Json, b: Json, keys: ArrayKeys)
      modifies this
      ensures out == old(out) + Printed(path, Edits(path, keys, a, b))
      decreases a, 1
    {
      if a == b {
        return;
      }
      if a.Obj? && b.Obj? {
        DiffMap(path, a, b, keys);
        return;
      }
      if a.Arr? && b.Arr? {
        if path in keys {
          var ka := CheckKeyable(a.items, keys[path]);
          var kb := CheckKeyable(b.items, keys[path]);
          if ka && kb {
            DiffKeyedArray(path, keys[path], a, b, keys);
            return;
          }
        }
        DiffIndexArray(path, a, b, keys);
        return;
      }
      out := out + [Change(path, OpChange, a, b)];
    }

    method DiffMap(path: string, a: Json, b: Json, keys: ArrayKeys)
      requires a.Obj? && b.Obj?
      modifies this
      ensures out == old(out) + Printed(path, FieldEdits(path, keys, a, b, Sorted(a.fields.Keys + b.fields.Keys)))
      decreases a, 0, 1
    {
      var ks := SortedUnion(a.fields, b.fields);
      ghost var all := old(out) + Printed(path, FieldEdits(path, keys, a, b, ks));
      for i := 0 to |ks|
        invariant all == out + Printed(path, FieldEdits(path, keys, a, b, ks[i..]))
      {
        NextField(path, keys, a, b, ks, i, out);
        DiffField(path, a, b, keys, ks[i]);
      }
    }

    static lemma NextField(path: string, keys: ArrayKeys, a: Json, b: Json, ks: seq<string>, i: nat, out: seq<Change>)
      requires a.Obj? && b.Obj? && i < |ks| && forall k <- ks :: k in a.fields || k in b.fields
      ensures out + Printed(path, FieldEdits(path, keys, a, b, ks[i..])) ==
              out + Printed(path, FieldEdit(path, keys, a, b, ks[i])) + Printed(path, FieldEdits(path, keys, a, b, ks[i + 1..]))
    {
      var one, rest := FieldEdit(path, keys, a, b, ks[i]), FieldEdits(path, keys, a, b, ks[i + 1..]);
      assert ks[i..][0] == ks[i] && ks[i..][1..] == ks[i + 1..];
      PrintedConcat(path, one, rest);
      Assoc(out, Printed(path, one), Printed(path, rest));
    }

    method DiffField(path: string, a: Json, b: Json, keys: ArrayKeys, k: string)
      requires a.Obj? && b.Obj? && (k in a.fields || k in b.fields)
      modifies this
      ensures out == old(out) + Printed(path, FieldEdit(path, keys, a, b, k))
      decreases a, 0, 0
    {
      var cp := ChildPath(path, k);
      assert TextOf(path, [Key(k)]) == cp;
      if k in a.fields && k in b.fields {
        PrintedPrefix(path, Key(k), Edits(cp, keys, a.fields[k], b.fields[k]));
        DiffValue(cp, a.fields[k], b.fields[k], keys);
      } else if k in b.fields {
        out := out + [Change(cp, OpAdd, Null, b.fields[k])];
      } else {
        out := out + [Change(cp, OpRemove, a.fields[k], Null)];
      }
    }

    method DiffIndexArray(path: string, a: Json, b: Json, keys: ArrayKeys)
      requires a.Arr? && b.Arr? && a != b && !KeyedAt(path, keys, a, b)
      modifies this
      ensures out == old(out) + Printed(path, Edits(path, keys, a, b))
      decreases a, 0, 2
    {
      var n := Min(|a.items|, |b.items|);
      IndexedParts(path, keys, a, b, out);
      DiffCommon(path, a, b, keys);
      AddTail(path, b.items, n);
      RemoveTail(path, a.items, n);
    }

    static lemma IndexedParts(path: string, keys: ArrayKeys, a: Json, b: Json, out: seq<Change>)
      requires a.Arr? && b.Arr? && a != b && !KeyedAt(path, keys, a, b)
      ensures var n := Min(|a.items|, |b.items|);
        out + Printed(path, Edits(path, keys, a, b)) ==
        out + Printed(path, CommonEdits(path, keys, a, b, 0)) + Printed(path, AddEdits(b.items, n))
            + Printed(path, RemoveEdits(a.items, n, |a.items|))
    {
      var n := Min(|a.items|, |b.items|);
      var common, adds, removes := CommonEdits(path, keys, a, b, 0), AddEdits(b.items, n), RemoveEdits(a.items, n, |a.items|);
      EditsOfIndexed(path, keys, a, b);
      PrintedConcat(path, common, adds + removes);
      PrintedConcat(path, adds, removes);
      Assoc(out, Printed(path, common), Printed(path, adds) + Printed(path, removes));
      Assoc(out + Printed(path, common), Printed(path, adds), Printed(path, removes));
    }

    method DiffCommon(path: string, a: Json, b: Json, keys: ArrayKeys)
      requires a.Arr? && b.Arr?
      modifies this
      ensures out == old(out) + Printed(path, CommonEdits(path, keys, a, b, 0))
      decreases a, 0, 0
    {
      ghost var all := old(out) + Printed(path, CommonEdits(path, keys, a, b, 0));
      for i := 0 to Min(|a.items|, |b.items|)
        invariant all == out + Printed(path, CommonEdits(path, keys, a, b, i))
      {
        ghost var es := Edits(IndexPath(path, i), keys, a.items[i], b.items[i]);
        ghost var rest := CommonEdits(path, keys, a, b, i + 1);
        PrintedConcat(path, Prefix(Index(i), es), rest);
        Assoc(out, Printed(path, Prefix(Index(i), es)), Printed(path, rest));
        PrintedPrefix(path, Index(i), es);
        DiffValue(IndexPath(path, i), a.items[i], b.items[i], keys);
      }
    }

    /** Printing a non-empty list of edits prints its head first. */
    static lemma NextEdit(path: string, e: Edit, rest: seq<Edit>, out: seq<Change>)
      ensures out + Printed(path, [e] + rest) == out + [Print(path, e)] + Printed(path, rest)
    {
      PrintedConcat(path, [e], rest);
      assert Printed(path, [e]) == [Print(path, e)];
      Assoc(out, [Print(path, e)], Printed(path, rest));
    }

    method AddTail(path: string, items: seq<Json>, n: nat)
      requires n <= |items|
      modifies this
      ensures out == old(out) + Printed(path, AddEdits(items, n))
    {
      ghost var all := old(out) + Printed(path, AddEdits(items, n));
      for i := n to |items|
        invariant all == out + Printed(path, AddEdits(items, i))
      {
        NextEdit(path, Edit([Index(i)], OpAdd, Null, items[i]), AddEdits(items, i + 1), out);
        assert TextOf(path, [Index(i)]) == IndexPath(path, i);
        out := out + [Change(IndexPath(path, i), OpAdd, Null, items[i])];
      }
    }

    method RemoveTail(path: string, items: seq<Json>, n: nat)
      requires n <= |items|
      modifies this
      ensures out == old(out) + Printed(path, RemoveEdits(items, n, |items|))
    {
      ghost var all := old(out) + Printed(path, RemoveEdits(items, n, |items|));
      for i := |items| downto n
        invariant all == out + Printed(path, RemoveEdits(items, n, i))
      {
        NextEdit(path, Edit([Index(i)], OpRemove, items[i], Null), RemoveEdits(items, n, i), out);
        assert TextOf(path, [Index(i)]) == IndexPath(path, i);
        out := out + [Change(IndexPath(path, i), OpRemove, items[i], Null)];
      }
    }

    method DiffKeyedArray(path: string, f: string, a: Json, b: Json, keys: ArrayKeys)
      requires KeyedAt(path, keys, a, b) && f == keys[path]
      modifies this
      ensures out == old(out) + Printed(path, KeyedEdits(path, keys, a, b, f, 0) + NewKeyedEdits(a, b, f, 0))
      decreases a, 0, 2
    {
      var byKey := IndexItems(b.items, f);
      ghost var before := out;
      var known := DiffMatched(path, f, a, b, keys, byKey);
      AddUnmatched(path, f, a, b, known);
      ghost var xs, ys := KeyedEdits(path, keys, a, b, f, 0), NewKeyedEdits(a, b, f, 0);
      PrintedConcat(path, xs, ys);
      Assoc(before, Printed(path, xs), Printed(path, ys));
    }

    static method IndexItems(items: seq<Json>, f: string) returns (byKey: map<string, Json>)
      requires Keyable(items, f)
      ensures IndexedBy(byKey, items, f)
    {
      byKey := map[];
      for j := 0 to |items|
        invariant forall x | 0 <= x < j :: KeyOf(items[x], f).value in byKey && byKey[KeyOf(items[x], f).value] == items[x]
        invariant forall v <- byKey :: exists x | 0 <= x < j :: KeyOf(items[x], f) == Some(v)
      {
        byKey := byKey[KeyOf(items[j], f).value := items[j]];
      }
    }

    /** `byKey` is the lookup table of `items` under `f`. */
    ghost static predicate IndexedBy(byKey: map<string, Json>, items: seq<Json>, f: string) {
      forall v :: (v in byKey <==> IndexOfKey(items, f, v) >= 0)
               && (v in byKey ==> byKey[v] == items[IndexOfKey(items, f, v)])
    }

    method DiffMatched(path: string, f: string, a: Json, b: Json, keys: ArrayKeys, byKey: map<string, Json>)
      returns (known: set<string>)
      requires a.Arr? && b.Arr? && Keyable(a.items, f) && IndexedBy(byKey, b.items, f)
      modifies this
      ensures out == old(out) + Printed(path, KeyedEdits(path, keys, a, b, f, 0))
      ensures forall v :: v in known <==> IndexOfKey(a.items, f, v) >= 0
      decreases a, 0, 1
    {
      known := {};
      ghost var all := old(out) + Printed(path, KeyedEdits(path, keys, a, b, f, 0));
      for i := 0 to |a.items|
        invariant all == out + Printed(path, KeyedEdits(path, keys, a, b, f, i))
        invariant forall v :: v in known <==> exists x | 0 <= x < i :: KeyOf(a.items[x], f) == Some(v)
      {
        known := known + {KeyOf(a.items[i], f).value};
        NextElement(path, keys, a, b, f, i, out);
        DiffElement(path, f, a, b, keys, byKey, i);
      }
    }

    static lemma NextElement(path: string, keys: ArrayKeys, a: Json, b: Json, f: string, i: nat, out: seq<Change>)
      requires a.Arr? && b.Arr? && Keyable(a.items, f) && i < |a.items|
      ensures out + Printed(path, KeyedEdits(path, keys, a, b, f, i)) ==
              out + Printed(path, KeyedEdit(path, keys, a, b, f, i)) + Printed(path, KeyedEdits(path, keys, a, b, f, i + 1))
    {
      var one, rest := KeyedEdit(path, keys, a, b, f, i), KeyedEdits(path, keys, a, b, f, i + 1);
      PrintedConcat(path, one, rest);
      Assoc(out, Printed(path, one), Printed(path, rest));
    }

    method DiffElement(path: string, f: string, a: Json, b: Json, keys: ArrayKeys, byKey: map<string, Json>, i: nat)
      requires a.Arr? && b.Arr? && Keyable(a.items, f) && IndexedBy(byKey, b.items, f) && i < |a.items|
      modifies this
      ensures out == old(out) + Printed(path, KeyedEdit(path, keys, a, b, f, i))
      decreases a, 0, 0
    {
      var v := KeyOf(a.items[i], f).value;
      var kp := KeyedPath(path, f, v);
      assert TextOf(path, [Keyed(f, v)]) == kp;
      if v in byKey {
        PrintedPrefix(path, Keyed(f, v), Edits(kp, keys, a.items[i], byKey[v]));
        DiffValue(kp, a.items[i], byKey[v], keys);
      } else {
        out := out + [Change(kp, OpRemove, a.items[i], Null)];
      }
    }

    static lemma NewKeyedIs(a: Json, b: Json, f: string, j: nat)
      requires a.Arr? && b.Arr? && Keyable(b.items, f) && j < |b.items|
      ensures KeyOf(b.items[j], f).Some?
      ensures var v, rest := KeyOf(b.items[j], f).value, NewKeyedEdits(a, b, f, j + 1);
        NewKeyedEdits(a, b, f, j) ==
        if IndexOfKey(a.items, f, v) >= 0 then rest else [Edit([Keyed(f, v)], OpAdd, Null, b.items[j])] + rest
    {
    }

    method AddUnmatched(path: string, f: string, a: Json, b: Json, known: set<string>)
      requires a.Arr? && b.Arr? && Keyable(b.items, f)
      requires forall v :: v in known <==> IndexOfKey(a.items, f, v) >= 0
      modifies this
      ensures out == old(out) + Printed(path, NewKeyedEdits(a, b, f, 0))
    {
      ghost var all := old(out) + Printed(path, NewKeyedEdits(a, b, f, 0));
      assert Printed(path, NewKeyedEdits(a, b, f, |b.items|)) == [];
      hide Keyable, KeyOf, IndexOfKey, NewKeyedEdits, Printed;
      for j := 0 to |b.items|
        invariant all == out + Printed(path, NewKeyedEdits(a, b, f, j))
      {
        NewKeyedIs(a, b, f, j);
        var v := KeyOf(b.items[j], f).value;
        ghost var rest := NewKeyedEdits(a, b, f, j + 1);
        if v !in known {
          NextEdit(path, Edit([Keyed(f, v)], OpAdd, Null, b.items[j]), rest, out);
          assert TextOf(path, [Keyed(f, v)]) == KeyedPath(path, f, v);
          out := out + [Change(KeyedPath(path, f, v), OpAdd, Null, b.items[j])];
        } else {
          assert NewKeyedEdits(a, b, f, j) == rest;
        }
      }
    }
  }

  method ComputeDiff(a: Json, b: Json, keys: ArrayKeys) returns (out: seq<Change>)
    ensures out == DiffOf(keys, a, b)
  {
    var r := new Recorder();
    r.DiffValue("", a, b, keys);
    out := r.out;
  }

  // ---------------------------------------------------------------------- apply

  method AtoiIndex(s: string) returns (r: Option<int>)
    ensures r == if AllDigits(s) then Some(ReadDigits(s)) else None
  {
    if s == "" {
      return None;
    }
    var n := 0;
    for i := 0 to |s|
      invariant forall j | 0 <= j < i :: IsDigit(s[j])
      invariant n == ReadDigits(s[..i])
    {
      if !IsDigit(s[i]) {
        return None;
      }
      assert s[..i + 1][..i] == s[..i];
      n := Wrap64(n * 10 + DigitVal(s[i]));
    }
    assert s[..|s|] == s;
    return Some(n);
  }

  method Classify(s: string) returns (seg: Seg)
    ensures seg == KeyOrIndex(s)
  {
    var i := AtoiIndex(s);
    return if i.Some? then Index(i.value) else Key(s);
  }

  method ParseRaw(raw: string) returns (r: Result<seq<Seg>, Error>)
    ensures r == ParsePiece(raw)
  {
    hide KeyOrIndex, Find, TrimBracket;
    var cut := Find(raw, '[');
    if cut < |raw| {
      var sel := TrimBracket(raw[cut + 1..]);
      var eq := Find(sel, '=');
      if eq == |sel| {
        return Err(PathNotFound);
      }
      var segs := [];
      if cut > 0 {
        var owner := Classify(raw[..cut]);
        segs := [owner];
      }
      return Ok(segs + [Keyed(sel[..eq], sel[eq + 1..])]);
    }
    var plain := Classify(raw);
    return Ok([plain]);
  }

  method Parse(path: string) returns (r: Result<seq<Seg>, Error>)
    ensures r == ParsePath(path)
  {
    if path == "" {
      return Ok([]);
    }
    var segs: seq<Seg> := [];
    var pieces := Split(path, '.');
    for i := 0 to |pieces|
      invariant ParsePieces(pieces[..i]) == Ok(segs)
    {
      assert pieces[..i + 1][..i] == pieces[..i];
      var piece := ParseRaw(pieces[i]);
      if piece.Err? {
        FirstPieceError(pieces, i + 1);
        return Err(piece.error);
      }
      segs := segs + piece.value;
    }
    assert pieces[..|pieces|] == pieces;
    return Ok(segs);
  }

  /** A malformed prefix makes the whole path malformed, with the same error. */
  lemma {:induction false} FirstPieceError(ps: seq<string>, i: nat)
    requires i <= |ps| && ParsePieces(ps[..i]).Err?
    ensures ParsePieces(ps) == ParsePieces(ps[..i])
    decreases |ps| - i
  {
    if i == |ps| {
      assert ps[..i] == ps;
    } else {
      assert ps[..i + 1][..i] == ps[..i];
      FirstPieceError(ps, i + 1);
    }
  }

  method ApplyChanges(state: Json, changes: seq<Change>) returns (r: Outcome)
    ensures r == ApplyAll(state, changes)
  {
    var result := state;
    for i := 0 to |changes|
      invariant ApplyAll(state, changes) == ApplyAll(result, changes[i..])
    {
      var ch := changes[i];
      assert changes[i..][0] == ch && changes[i..][1..] == changes[i + 1..];
      var segs := Parse(ch.path);
      if segs.Err? {
        return Err(segs.error);
      }
      if segs.value == [] {
        if ch.op != OpChange {
          return Err(UnknownOp);
        }
        result := ch.after;
      } else {
        var next := Step(false, result, segs.value, ch.op, ch.after);
        if next.Err? {
          return next;
        }
        result := next.value;
      }
    }
    return Ok(result);
  }
}
