/**
 Dot-notation paths: how the diff prints them and how the applier reads them
 back (internal/diff/diff.go, internal/diff/apply.go).
 */
module Paths {

  import opened Wrappers
  import opened Text

  datatype Seg =
    | Key(name: string)
    | Index(index: int)
    | Keyed(field: string, val: string)

  datatype Error = PathNotFound | TypeMismatch | UnknownOp | KeyedPathNotExportable

  // --------------------------------------------------------------- printing

  function ChildPath(path: string, key: string): string {
    if path == "" then key else path + "." + key
  }

  function IndexPath(path: string, i: int): string {
    ChildPath(path, Itoa(i))
  }

  function Selector(field: string, val: string): string {
    "[" + (field + "=" + val + "]")
  }

  function KeyedPath(path: string, field: string, val: string): string {
    path + Selector(field, val)
  }

  function Extend(path: string, s: Seg): string {
    match s
    case Key(name) => ChildPath(path, name)
    case Index(i) => IndexPath(path, i)
    case Keyed(f, v) => KeyedPath(path, f, v)
  }

  /** The path text the diff builds for a location. */
  function Render(segs: seq<Seg>): string {
    if segs == [] then "" else Extend(Render(segs[..|segs| - 1]), segs[|segs| - 1])
  }

  // ---------------------------------------------------------------- parsing

  function KeyOrIndex(s: string): Seg {
    if AllDigits(s) then Index(ReadDigits(s)) else Key(s)
  }

  function TrimBracket(s: string): string {
    if s != "" && s[|s| - 1] == ']' then s[..|s| - 1] else s
  }

  /** One dot-free piece: a plain segment, or a name followed by a selector. */
  function ParsePiece(raw: string): Result<seq<Seg>, Error> {
    var i := Find(raw, '[');
    if i == |raw| then Ok([KeyOrIndex(raw)])
    else
      var sel := TrimBracket(raw[i + 1..]);
      var j := Find(sel, '=');
      if j == |sel| then Err(PathNotFound)
      else
        var keyed := Keyed(sel[..j], sel[j + 1..]);
        Ok((if i == 0 then [] else [KeyOrIndex(raw[..i])]) + [keyed])
  }

  function ParsePieces(ps: seq<string>): Result<seq<Seg>, Error> {
    if ps == [] then Ok([])
    else match ParsePieces(ps[..|ps| - 1])
      case Err(e) => Err(e)
      case Ok(init) =>
        match ParsePiece(ps[|ps| - 1])
        case Err(e) => Err(e)
        case Ok(tail) => Ok(init + tail)
  }

  function ParsePath(path: string): Result<seq<Seg>, Error> {
    if path == "" then Ok([]) else ParsePieces(Split(path, '.'))
  }

  /** A selector without '=' between its brackets. */
  predicate Malformed(raw: string) {
    '[' in raw && '=' !in TrimBracket(raw[Find(raw, '[') + 1..])
  }

  lemma PieceExactly(raw: string)
    ensures ParsePiece(raw).Err? <==> Malformed(raw)
    ensures ParsePiece(raw).Err? ==> ParsePiece(raw) == Err(PathNotFound)
  {
    hide Find, TrimBracket, KeyOrIndex;
  }

  lemma {:induction false} PiecesExactly(ps: seq<string>)
    ensures ParsePieces(ps).Err? <==> exists p <- ps :: Malformed(p)
    ensures ParsePieces(ps).Err? ==> ParsePieces(ps) == Err(PathNotFound)
  {
    if ps != [] {
      var n := |ps| - 1;
      PiecesExactly(ps[..n]);
      PieceExactly(ps[n]);
      hide Malformed, ParsePiece;
      if p :| p in ps && Malformed(p) {
        var i :| 0 <= i < |ps| && ps[i] == p;
        if i < n { assert ps[..n][i] in ps[..n]; }
      }
      if p :| p in ps[..n] && Malformed(p) { assert p in ps; }
      assert ps[n] in ps;
    }
  }

  /** A path is refused exactly if one of its pieces holds a malformed selector. */
  lemma ParsesExactly(path: string)
    ensures ParsePath(path).Err? <==> path != "" && exists p <- Split(path, '.') :: Malformed(p)
    ensures ParsePath(path).Err? ==> ParsePath(path) == Err(PathNotFound)
  {
    PiecesExactly(Split(path, '.'));
    hide Malformed, Split, ParsePieces;
  }

  // ------------------------------------------------- printer meets parser

  predicate SafeName(s: string) {
    '.' !in s && '[' !in s && !AllDigits(s)
  }

  predicate SafeSelector(field: string, val: string) {
    '.' !in field && '=' !in field && '.' !in val
  }

  predicate SafeSeg(s: Seg) {
    match s
    case Key(name) => SafeName(name)
    case Index(i) => 0 <= i < TWO63
    case Keyed(f, v) => SafeSelector(f, v)
  }

  /** May `s` follow the location `segs`? A selector needs a visible owner, and
      only a key below the root may be empty. */
  predicate Follows(segs: seq<Seg>, s: Seg) {
    match s
    case Key(name) => name != "" || segs != []
    case Index(_) => true
    case Keyed(_, _) => segs == [] || !(segs[|segs| - 1].Keyed? || segs[|segs| - 1] == Key(""))
  }

  predicate Printable(segs: seq<Seg>) {
    segs == [] ||
    var init, s := segs[..|segs| - 1], segs[|segs| - 1];
    Printable(init) && SafeSeg(s) && Follows(init, s)
  }

  lemma {:induction false} RenderEmpty(segs: seq<Seg>)
    requires Printable(segs)
    ensures Render(segs) == "" <==> segs == []
  {
    if segs != [] {
      RenderEmpty(segs[..|segs| - 1]);
    }
  }

  lemma ParsePlain(name: string)
    requires '[' !in name
    ensures ParsePiece(name) == Ok([KeyOrIndex(name)])
  {
  }

  lemma ParseCut(name: string, tail: string)
    requires '[' !in name
    ensures ParsePiece(name + "[" + tail) ==
      var sel := TrimBracket(tail);
      if Find(sel, '=') == |sel| then Err(PathNotFound)
      else Ok((if name == "" then [] else [KeyOrIndex(name)]) + [Keyed(sel[..Find(sel, '=')], sel[Find(sel, '=') + 1..])])
  {
    hide KeyOrIndex, Find, TrimBracket;
    CutAt(name, '[', tail);
  }

  lemma TrimSelector(sel: string)
    ensures TrimBracket(sel + "]") == sel
  {
    assert (sel + "]")[..|sel|] == sel;
  }

  lemma ParseSelector(name: string, f: string, v: string)
    requires '[' !in name && '=' !in f
    ensures ParsePiece(name + Selector(f, v)) ==
            Ok((if name == "" then [] else [KeyOrIndex(name)]) + [Keyed(f, v)])
  {
    var sel := f + "=" + v;
    assert name + Selector(f, v) == name + "[" + (sel + "]");
    hide ParsePiece, KeyOrIndex, Find, TrimBracket, Selector;
    ParseCut(name, sel + "]");
    TrimSelector(sel);
    CutAt(f, '=', v);
  }

  lemma ParseSnoc(path: string, raw: string)
    requires '.' !in raw && path != ""
    ensures ParsePath(path + "." + raw) ==
            match ParsePath(path)
            case Err(e) => Err(e)
            case Ok(init) =>
              match ParsePiece(raw)
              case Err(e) => Err(e)
              case Ok(tail) => Ok(init + tail)
  {
    SplitAppend(path, '.', raw);
    var ps := Split(path, '.') + [raw];
    assert ps[..|ps| - 1] == Split(path, '.');
  }

  lemma ParseOne(raw: string)
    requires '.' !in raw && raw != ""
    ensures ParsePath(raw) == ParsePiece(raw)
  {
    SplitOne(raw, '.');
    var ps := [raw];
    assert ps[..0] == [];
    assert ParsePieces([]) == Ok([]);
    if ParsePiece(raw).Ok? {
      assert [] + ParsePiece(raw).value == ParsePiece(raw).value;
    }
  }

  /** Text of the last plain segment of a path. */
  function PlainText(s: Seg): string
    requires !s.Keyed?
  {
    if s.Key? then s.name else Itoa(s.index)
  }

  lemma PlainSafe(s: Seg)
    requires !s.Keyed? && SafeSeg(s)
    ensures '.' !in PlainText(s) && '[' !in PlainText(s)
    ensures KeyOrIndex(PlainText(s)) == s
  {
    if s.Index? {
      assert AllDigits(Itoa(s.index));
      ReadItoa(s.index);
    }
  }

  /** Every location the diff can address is read back from its text exactly. */
  lemma {:induction false} ParseRender(segs: seq<Seg>)
    requires Printable(segs)
    ensures ParsePath(Render(segs)) == Ok(segs)
  {
    if segs != [] {
      var init, s := segs[..|segs| - 1], segs[|segs| - 1];
      assert segs == init + [s];
      if !s.Keyed? {
        ParseRender(init);
        ParseRenderPlain(init, s);
      } else if init == [] {
        ParseRenderRootSelector(s);
        assert segs == [s];
      } else {
        var before, owner := init[..|init| - 1], init[|init| - 1];
        assert init == before + [owner];
        assert segs == before + [owner, s];
        ParseRender(before);
        ParseRenderOwned(before, owner, s);
      }
    }
  }

  lemma RenderSnoc(init: seq<Seg>, s: Seg)
    ensures Render(init + [s]) == Extend(Render(init), s)
  {
    assert (init + [s])[..|init|] == init;
  }

  lemma ParseRenderPlain(init: seq<Seg>, s: Seg)
    requires Printable(init) && SafeSeg(s) && Follows(init, s) && !s.Keyed?
    requires ParsePath(Render(init)) == Ok(init)
    ensures ParsePath(Render(init + [s])) == Ok(init + [s])
  {
    RenderSnoc(init, s);
    RenderEmpty(init);
    PlainSafe(s);
    ParsePlain(PlainText(s));
    if init == [] {
      ParseOne(PlainText(s));
    } else {
      ParseSnoc(Render(init), PlainText(s));
    }
  }

  lemma SelectorPieceSafe(name: string, f: string, v: string)
    requires '.' !in name && SafeSelector(f, v)
    ensures '.' !in name + Selector(f, v) && name + Selector(f, v) != ""
  {
    var s := name + Selector(f, v);
    assert s == name + ("[" + (f + "=" + v + "]"));
    forall i | 0 <= i < |s| ensures s[i] != '.' {
      var j := i - |name| - 1;
      assert i < |name| ==> s[i] == name[i];
      assert 0 <= j < |f| ==> s[i] == f[j];
      assert |f| < j <= |f| + |v| ==> s[i] == v[j - |f| - 1];
    }
  }

  lemma RootSelectorText(s: Seg)
    requires s.Keyed?
    ensures Render([s]) == Selector(s.field, s.val)
  {
    assert [s][..0] == [];
  }

  lemma ParseRenderRootSelector(s: Seg)
    requires SafeSeg(s) && s.Keyed?
    ensures ParsePath(Render([s])) == Ok([s])
  {
    hide ParsePath, ParsePiece, Printable, Selector;
    ParseSelector("", s.field, s.val);
    assert "" + Selector(s.field, s.val) == Selector(s.field, s.val);
    assert [] + [s] == [s];
    SelectorPieceSafe("", s.field, s.val);
    hide SafeSelector, Render;
    ParseOne(Selector(s.field, s.val));
    RootSelectorText(s);
  }

  lemma RenderOwned(before: seq<Seg>, owner: Seg, s: Seg)
    requires Printable(before) && !owner.Keyed? && s.Keyed?
    ensures Render(before + [owner, s]) == ChildPath(Render(before), PlainText(owner) + Selector(s.field, s.val))
  {
    RenderSnoc(before, owner);
    RenderSnoc(before + [owner], s);
    assert before + [owner, s] == before + [owner] + [s];
    Assoc(Render(before) + ".", PlainText(owner), Selector(s.field, s.val));
  }

  lemma ParseRenderOwned(before: seq<Seg>, owner: Seg, s: Seg)
    requires Printable(before) && SafeSeg(owner) && Follows(before, owner)
    requires !owner.Keyed? && owner != Key("") && SafeSeg(s) && s.Keyed?
    requires ParsePath(Render(before)) == Ok(before)
    ensures ParsePath(Render(before + [owner, s])) == Ok(before + [owner, s])
  {
    hide ParsePath, ParsePiece, Render, KeyOrIndex, Selector;
    var name := PlainText(owner);
    var raw := name + Selector(s.field, s.val);
    RenderOwned(before, owner, s);
    PlainSafe(owner);
    assert ParsePiece(raw) == Ok([owner, s]) by {
      ParseSelector(name, s.field, s.val);
      assert [owner] + [s] == [owner, s];
    }
    SelectorPieceSafe(name, s.field, s.val);
    RenderEmpty(before);
    if before == [] {
      ParseOne(raw);
      assert before + [owner, s] == [owner, s];
    } else {
      ParseSnoc(Render(before), raw);
    }
  }
}
