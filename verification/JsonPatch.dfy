/**
 Export of a diff as a JSON Patch (internal/diff/jsonpatch.go), and the meaning
 of the exported operations: pointers per sections 3 and 4 of RFC 6901,
 operations per sections 4.1 to 4.3 of RFC 6902.
 */
module JsonPatch {

  import opened Wrappers
  import opened Text
  import opened Json
  import opened Paths
  import opened Diff
  import opened Apply
  import opened RoundTrip
  import opened Order
  import opened Exactness
  import opened EmptyNames

  datatype PatchOp = PatchOp(op: string, path: string, value: Json)

  // --------------------------------------------------------------------- export

  function ReplaceChar(s: string, c: char, sub: string): string {
    if s == "" then "" else (if s[0] == c then sub else [s[0]]) + ReplaceChar(s[1..], c, sub)
  }

  function Escape(s: string): string {
    ReplaceChar(ReplaceChar(s, '~', "~0"), '/', "~1")
  }

  function PointerPieces(ps: seq<string>): Result<string, Error> {
    if ps == [] then Ok("")
    else match PointerPieces(ps[..|ps| - 1])
      case Err(e) => Err(e)
      case Ok(init) =>
        if '[' in ps[|ps| - 1] then Err(KeyedPathNotExportable)
        else Ok(init + "/" + Escape(ps[|ps| - 1]))
  }

  function PointerFromPath(path: string): Result<string, Error> {
    if path == "" then Ok("") else PointerPieces(Split(path, '.'))
  }

  function OpName(op: Op): Result<string, Error> {
    match op
    case OpAdd => Ok("add")
    case OpChange => Ok("replace")
    case OpRemove => Ok("remove")
    case OpOther(_) => Err(UnknownOp)
  }

  function Export(c: Change): Result<PatchOp, Error> {
    match PointerFromPath(c.path)
    case Err(e) => Err(e)
    case Ok(ptr) =>
      match OpName(c.op)
      case Err(e) => Err(e)
      case Ok(name) => Ok(PatchOp(name, ptr, if c.op == OpRemove then Null else c.after))
  }

  function ToPatch(cs: seq<Change>): Result<seq<PatchOp>, Error> {
    if cs == [] then Ok([])
    else match ToPatch(cs[..|cs| - 1])
      case Err(e) => Err(e)
      case Ok(init) =>
        match Export(cs[|cs| - 1])
        case Err(e) => Err(e)
        case Ok(op) => Ok(init + [op])
  }

  // ------------------------------------------------------------ RFC 6901 meaning

  /** Every "~x" replaced by `c`, left to right. */
  function ReplacePair(s: string, x: char, c: char): string {
    if s == "" then ""
    else if |s| >= 2 && s[0] == '~' && s[1] == x then [c] + ReplacePair(s[2..], x, c)
    else [s[0]] + ReplacePair(s[1..], x, c)
  }

  function Unescape(t: string): string {
    ReplacePair(ReplacePair(t, '1', '/'), '0', '~')
  }

  function UnescapeAll(ts: seq<string>): (r: seq<string>)
    ensures |r| == |ts| && forall i | 0 <= i < |ts| :: r[i] == Unescape(ts[i])
  {
    seq(|ts|, i requires 0 <= i < |ts| => Unescape(ts[i]))
  }

  /** Reference tokens of a pointer; None when it is not one. */
  function Tokens(ptr: string): Option<seq<string>> {
    if ptr == "" then Some([])
    else if ptr[0] != '/' then None
    else Some(UnescapeAll(Split(ptr[1..], '/')))
  }

  function Decimal(s: string): nat
    requires forall i | 0 <= i < |s| :: IsDigit(s[i])
  {
    if s == "" then 0 else Decimal(s[..|s| - 1]) * 10 + DigitVal(s[|s| - 1])
  }

  /** Array index token: digits without leading zeros. */
  function ArrayIndex(t: string): Option<nat> {
    if AllDigits(t) && (|t| == 1 || t[0] != '0') then Some(Decimal(t)) else None
  }

  // ------------------------------------------------------------ RFC 6902 meaning

  datatype Failed = Failed

  function PatchAt(doc: Json, toks: seq<string>, op: string, value: Json): Result<Json, Failed>
    decreases |toks|
  {
    if toks == [] then (if op == "add" || op == "replace" then Ok(value) else Err(Failed))
    else if doc.Obj? then
      if |toks| == 1 then PatchMember(doc.fields, toks[0], op, value)
      else if toks[0] !in doc.fields then Err(Failed)
      else (match PatchAt(doc.fields[toks[0]], toks[1..], op, value)
            case Err(e) => Err(e)
            case Ok(v) => Ok(Obj(doc.fields[toks[0] := v])))
    else if doc.Arr? then
      if |toks| == 1 then PatchItem(doc.items, toks[0], op, value)
      else match ArrayIndex(toks[0])
        case None => Err(Failed)
        case Some(i) =>
          if i >= |doc.items| then Err(Failed)
          else match PatchAt(doc.items[i], toks[1..], op, value)
            case Err(e) => Err(e)
            case Ok(v) => Ok(Arr(doc.items[i := v]))
    else Err(Failed)
  }

  function PatchMember(fields: map<string, Json>, t: string, op: string, value: Json): Result<Json, Failed> {
    if op == "add" then Ok(Obj(fields[t := value]))
    else if t !in fields then Err(Failed)
    else if op == "replace" then Ok(Obj(fields[t := value]))
    else if op == "remove" then Ok(Obj(fields - {t}))
    else Err(Failed)
  }

  function PatchItem(items: seq<Json>, t: string, op: string, value: Json): Result<Json, Failed> {
    if t == "-" && op == "add" then Ok(Arr(items + [value]))
    else match ArrayIndex(t)
      case None => Err(Failed)
      case Some(i) =>
        if op == "add" then (if i <= |items| then Ok(Arr(InsertAt(items, i, value))) else Err(Failed))
        else if i >= |items| then Err(Failed)
        else if op == "replace" then Ok(Arr(items[i := value]))
        else if op == "remove" then Ok(Arr(RemoveAt(items, i)))
        else Err(Failed)
  }

  function RunPatch(doc: Json, ops: seq<PatchOp>): Result<Json, Failed>
    decreases |ops|
  {
    if ops == [] then Ok(doc)
    else match Tokens(ops[0].path)
      case None => Err(Failed)
      case Some(toks) =>
        match PatchAt(doc, toks, ops[0].op, ops[0].value)
        case Err(e) => Err(e)
        case Ok(v) => RunPatch(v, ops[1..])
  }

  // ------------------------------------------------------------------- escaping

  lemma ReplaceCons(x: char, t: string, c: char, sub: string)
    ensures ReplaceChar([x] + t, c, sub) == (if x == c then sub else [x]) + ReplaceChar(t, c, sub)
  {
    assert ([x] + t)[1..] == t;
  }

  lemma EscapeHead(s: string)
    requires s != ""
    ensures Escape(s) == (if s[0] == '~' then "~0" else if s[0] == '/' then "~1" else [s[0]]) + Escape(s[1..])
  {
    var t := ReplaceChar(s[1..], '~', "~0");
    if s[0] == '~' {
      ReplaceCons('0', t, '/', "~1");
      ReplaceCons('~', ['0'] + t, '/', "~1");
      assert "~0" == ['~'] + ['0'];
      Assoc(['~'], ['0'], t);
      Assoc(['~'], ['0'], Escape(s[1..]));
    } else {
      ReplaceCons(s[0], t, '/', "~1");
    }
  }

  lemma {:induction false} UnescapeSlash(s: string)
    ensures ReplacePair(Escape(s), '1', '/') == ReplaceChar(s, '~', "~0")
  {
    if s != "" {
      EscapeHead(s);
      UnescapeSlash(s[1..]);
      var e := Escape(s[1..]);
      if s[0] == '~' {
        assert Escape(s)[1..] == ['0'] + e && (['0'] + e)[1..] == e;
      } else if s[0] == '/' {
        assert Escape(s)[2..] == e;
      } else {
        assert Escape(s)[1..] == e;
      }
    }
  }

  lemma {:induction false} UnescapeTilde(s: string)
    ensures ReplacePair(ReplaceChar(s, '~', "~0"), '0', '~') == s
  {
    if s != "" {
      UnescapeTilde(s[1..]);
      var r, t := ReplaceChar(s, '~', "~0"), ReplaceChar(s[1..], '~', "~0");
      if s[0] == '~' {
        assert r[2..] == t;
      } else {
        assert r[1..] == t;
      }
    }
  }

  /** Escaping is undone by unescaping, on every token. */
  lemma UnescapeEscape(s: string)
    ensures Unescape(Escape(s)) == s
  {
    UnescapeSlash(s);
    UnescapeTilde(s);
  }

  lemma {:induction false} EscapeNoSlash(s: string)
    ensures '/' !in Escape(s)
  {
    if s != "" {
      EscapeHead(s);
      EscapeNoSlash(s[1..]);
    }
  }

  // -------------------------------------------------------------- pointer round trip

  function EscapeAll(ts: seq<string>): (r: seq<string>)
    ensures |r| == |ts| && forall i | 0 <= i < |ts| :: r[i] == Escape(ts[i])
  {
    seq(|ts|, i requires 0 <= i < |ts| => Escape(ts[i]))
  }

  /** No piece holds a selector. */
  ghost predicate Unkeyed(ps: seq<string>) {
    forall i | 0 <= i < |ps| :: Lacks(ps[i], '[')
  }

  lemma EscapeAllSnoc(ts: seq<string>, t: string)
    ensures EscapeAll(ts + [t]) == EscapeAll(ts) + [Escape(t)]
  {
  }

  lemma PointerPiecesSnoc(ps: seq<string>, p: string)
    requires PointerPieces(ps).Ok? && Lacks(p, '[')
    ensures PointerPieces(ps + [p]) == Ok(PointerPieces(ps).value + "/" + Escape(p))
  {
    assert (ps + [p])[..|ps|] == ps;
  }

  lemma {:induction false} PointerText(ps: seq<string>)
    requires ps != [] && Unkeyed(ps)
    ensures PointerPieces(ps).Ok? && PointerPieces(ps).value != "" && PointerPieces(ps).value[0] == '/'
    ensures Split(PointerPieces(ps).value[1..], '/') == EscapeAll(ps)
  {
    var init, p := ps[..|ps| - 1], ps[|ps| - 1];
    assert ps == init + [p];
    EscapeAllSnoc(init, p);
    if init == [] {
      PointerSnoc("", p);
    } else {
      PointerText(init);
      PointerSnoc(PointerPieces(init).value, p);
    }
    PointerPiecesSnoc(init, p);
  }

  /** Appending one escaped token to a pointer appends one piece. */
  lemma PointerSnoc(x: string, p: string)
    requires x != "" ==> x[0] == '/'
    ensures (x + "/" + Escape(p))[0] == '/'
    ensures Split((x + "/" + Escape(p))[1..], '/') == (if x == "" then [] else Split(x[1..], '/')) + [Escape(p)]
  {
    EscapeNoSlash(p);
    var e := Escape(p);
    if x == "" {
      assert (x + "/" + e)[1..] == e;
      SplitOne(e, '/');
    } else {
      assert (x + "/" + e)[1..] == x[1..] + "/" + e;
      SplitAppend(x[1..], '/', e);
    }
  }

  /** The pointer built from dot-free pieces resolves to those pieces. */
  lemma PointerTokens(ps: seq<string>)
    requires ps != [] && Unkeyed(ps)
    ensures PointerPieces(ps).Ok? && Tokens(PointerPieces(ps).value) == Some(ps)
  {
    PointerText(ps);
    forall i | 0 <= i < |ps| ensures Unescape(Escape(ps[i])) == ps[i] { UnescapeEscape(ps[i]); }
    assert UnescapeAll(EscapeAll(ps)) == ps;
  }

  // ---------------------------------------------------------------- simulation

  function TokensOf(segs: seq<Seg>): (ts: seq<string>)
    requires forall s <- segs :: !s.Keyed?
    ensures |ts| == |segs| && forall i | 0 <= i < |segs| :: ts[i] == PlainText(segs[i])
  {
    seq(|segs|, i requires 0 <= i < |segs| => PlainText(segs[i]))
  }

  lemma {:induction false} DecimalItoa(n: int)
    requires n >= 0
    ensures Decimal(Itoa(n)) == n
    decreases n
  {
    if n < 10 {
      assert Itoa(n)[..0] == "";
    } else {
      DecimalItoa(n / 10);
      assert Itoa(n)[..|Itoa(n)| - 1] == Itoa(n / 10);
    }
  }

  lemma IndexToken(n: int)
    requires n >= 0
    ensures ArrayIndex(Itoa(n)) == Some(n) && Itoa(n) != "-"
  {
    DecimalItoa(n);
    ItoaNoLeadingZero(n);
  }

  /** Where the strict step succeeds, RFC 6902 gives the same document. */
  lemma {:induction false} StepSimulates(v: Json, segs: seq<Seg>, op: Op, after: Json)
    requires segs != [] && PlainSized(segs) && OpName(op).Ok?
    requires Step(true, v, segs, op, after).Ok?
    ensures PatchAt(v, TokensOf(segs), OpName(op).value, if op == OpRemove then Null else after) ==
            Ok(Step(true, v, segs, op, after).value)
    decreases |segs|
  {
    var ts := TokensOf(segs);
    assert segs[0] in segs;
    if segs[0].Index? { IndexToken(segs[0].index); }
    if |segs| > 1 {
      assert ts[1..] == TokensOf(segs[1..]);
      if v.Obj? {
        StepSimulates(v.fields[segs[0].name], segs[1..], op, after);
      } else {
        StepSimulates(v.items[segs[0].index], segs[1..], op, after);
      }
    }
  }

  // --------------------------------------------------------------- the theorem

  /** A location whose pointer is unambiguous; all-digit names are fine here. */
  ghost predicate Exportable(segs: seq<Seg>) {
    && PlainSized(segs)
    && (segs != [] ==> segs[0] != Key(""))
    && (forall s <- segs :: s.Key? ==> '.' !in s.name && '[' !in s.name)
  }

  lemma TokensOfSnoc(segs: seq<Seg>, t: Seg)
    requires (forall s <- segs :: !s.Keyed?) && !t.Keyed?
    ensures (forall s <- segs + [t] :: !s.Keyed?) && TokensOf(segs + [t]) == TokensOf(segs) + [PlainText(t)]
  {
  }

  lemma ExportableSnoc(segs: seq<Seg>, t: Seg)
    requires Exportable(segs + [t])
    ensures Exportable(segs) && !t.Keyed?
    ensures '.' !in PlainText(t) && Lacks(PlainText(t), '[')
    ensures segs == [] ==> PlainText(t) != ""
  {
    assert (segs + [t])[|segs|] == t;
    assert forall s <- segs :: s in segs + [t];
    PlainTextClean(t);
  }

  lemma {:induction false} RenderPieces(segs: seq<Seg>)
    requires Exportable(segs) && segs != []
    ensures Render(segs) != "" && Split(Render(segs), '.') == TokensOf(segs)
    ensures Unkeyed(TokensOf(segs))
  {
    var init, s := segs[..|segs| - 1], segs[|segs| - 1];
    assert segs == init + [s];
    ExportableSnoc(init, s);
    TokensOfSnoc(init, s);
    RenderSnoc(init, s);
    if init == [] {
      SplitOne(PlainText(s), '.');
    } else {
      RenderPieces(init);
      SplitAppend(Render(init), '.', PlainText(s));
    }
  }

  lemma PlainTextClean(s: Seg)
    requires !s.Keyed? && (s.Index? ==> s.index >= 0) && (s.Key? ==> '.' !in s.name && '[' !in s.name)
    ensures '.' !in PlainText(s) && Lacks(PlainText(s), '[')
  {
    if s.Index? { assert AllDigits(Itoa(s.index)); }
  }

  lemma ExportedEdit(e: Edit)
    requires Exportable(e.segs) && OpName(e.op).Ok?
    ensures Export(Print("", e)).Ok?
    ensures var p := Export(Print("", e)).value;
      && Tokens(p.path) == Some(TokensOf(e.segs))
      && p.op == OpName(e.op).value && p.value == if e.op == OpRemove then Null else e.after
  {
    TextOfRender([], e.segs);
    assert [] + e.segs == e.segs;
    if e.segs != [] {
      RenderPieces(e.segs);
      PointerTokens(TokensOf(e.segs));
    }
  }

  ghost predicate AllExportable(es: seq<Edit>) {
    forall e <- es :: Exportable(e.segs) && OpName(e.op).Ok?
  }

  /** A list is exported exactly if each change is, one operation for one change. */
  lemma {:induction false} ToPatchHead(c: Change, cs: seq<Change>)
    ensures ToPatch([c] + cs).Ok? <==> Export(c).Ok? && ToPatch(cs).Ok?
    ensures ToPatch([c] + cs).Ok? ==> ToPatch([c] + cs) == Ok([Export(c).value] + ToPatch(cs).value)
    decreases |cs|
  {
    var all := [c] + cs;
    if cs == [] {
      assert all == [c] && all[..0] == [] && ToPatch([]) == Ok([]);
      if Export(c).Ok? {
        var op := Export(c).value;
        assert ToPatch(all) == Ok([] + [op]);
        assert [] + [op] == [op] == [op] + [];
      }
    } else {
      var init, last := cs[..|cs| - 1], cs[|cs| - 1];
      assert all[..|all| - 1] == [c] + init && all[|all| - 1] == last;
      ToPatchHead(c, init);
      if ToPatch(all).Ok? {
        Assoc([Export(c).value], ToPatch(init).value, [Export(last).value]);
      }
    }
  }

  /** Running an exported list is running its first operation, then the rest. */
  lemma PatchUnrolls(v: Json, cs: seq<Change>)
    requires cs != []
    ensures ToPatch(cs).Ok? <==> Export(cs[0]).Ok? && ToPatch(cs[1..]).Ok?
    ensures ToPatch(cs).Ok? ==>
      var first := RunPatch(v, [Export(cs[0]).value]);
      RunPatch(v, ToPatch(cs).value) == if first.Ok? then RunPatch(first.value, ToPatch(cs[1..]).value) else first
  {
    assert cs == [cs[0]] + cs[1..];
    ToPatchHead(cs[0], cs[1..]);
    hide ToPatch, Export;
    if ToPatch(cs).Ok? { RunPatchHead(v, Export(cs[0]).value, ToPatch(cs[1..]).value); }
  }

  lemma RunPatchHead(v: Json, op: PatchOp, ops: seq<PatchOp>)
    ensures RunPatch(v, [op] + ops) ==
      if RunPatch(v, [op]).Ok? then RunPatch(RunPatch(v, [op]).value, ops) else RunPatch(v, [op])
  {
    assert ([op] + ops)[1..] == ops && [op][1..] == [];
    hide PatchAt, Tokens;
  }

  lemma RunPatchOne(v: Json, op: PatchOp, toks: seq<string>)
    requires Tokens(op.path) == Some(toks)
    ensures RunPatch(v, [op]) == PatchAt(v, toks, op.op, op.value)
  {
    assert [op][1..] == [];
    hide PatchAt, Tokens;
  }

  lemma {:induction false} PiecesExport(ps: seq<string>)
    ensures PointerPieces(ps).Ok? <==> Unkeyed(ps)
    ensures PointerPieces(ps).Err? ==> PointerPieces(ps) == Err(KeyedPathNotExportable)
  {
    if ps != [] {
      var n := |ps| - 1;
      PiecesExport(ps[..n]);
      assert forall i | 0 <= i < n :: ps[..n][i] == ps[i];
      hide Escape;
    }
  }

  /** A change can be exported exactly if its path has no selector and its operation is
      one of the three; a selector is reported first. */
  lemma ExportExactly(c: Change)
    ensures Export(c).Ok? <==> '[' !in c.path && !c.op.OpOther?
    ensures Export(c).Err? ==> Export(c) == Err(if '[' in c.path then KeyedPathNotExportable else UnknownOp)
  {
    if c.path != "" {
      PiecesExport(Split(c.path, '.'));
      SplitUnkeyed(c.path);
    }
    hide PointerPieces, Split;
  }

  lemma UnkeyedCons(p: string, ps: seq<string>)
    ensures Unkeyed([p] + ps) <==> '[' !in p && Unkeyed(ps)
  {
    var all := [p] + ps;
    assert all[0] == p && forall j | 0 <= j < |ps| :: all[j + 1] == ps[j];
    if Unkeyed(all) {
      assert Lacks(all[0], '[');
      forall j | 0 <= j < |ps| ensures Lacks(ps[j], '[') { assert Lacks(all[j + 1], '['); }
    }
  }

  lemma {:induction false} SplitUnkeyed(s: string)
    ensures '[' !in s <==> Unkeyed(Split(s, '.'))
    decreases |s|
  {
    var i := Find(s, '.');
    if i < |s| {
      var rest := Split(s[i + 1..], '.');
      assert Split(s, '.') == [s[..i]] + rest;
      hide Split, Find, Unkeyed;
      SplitUnkeyed(s[i + 1..]);
      UnkeyedCons(s[..i], rest);
      assert s == s[..i] + "." + s[i + 1..];
      assert '[' in s <==> '[' in s[..i] || '[' in s[i + 1..];
    } else {
      assert Split(s, '.') == [s] + [];
      UnkeyedCons(s, []);
    }
  }

  /** A list is exported exactly if every change in it can be. */
  lemma {:induction false} ExportsExactly(cs: seq<Change>)
    ensures ToPatch(cs).Ok? <==> forall c <- cs :: '[' !in c.path && !c.op.OpOther?
    decreases |cs|
  {
    if cs != [] {
      var n := |cs| - 1;
      ExportsExactly(cs[..n]);
      ExportExactly(cs[n]);
      hide Export;
      assert cs == cs[..n] + [cs[n]];
    }
  }

  lemma PrintedHead(es: seq<Edit>)
    requires es != []
    ensures var cs := Printed("", es); cs != [] && cs[0] == Print("", es[0]) && cs[1..] == Printed("", es[1..])
  {
  }

  lemma EditSimulates(v: Json, e: Edit)
    requires Exportable(e.segs) && OpName(e.op).Ok? && ApplyAt(true, v, e.segs, e.op, e.after).Ok?
    ensures Export(Print("", e)).Ok?
    ensures RunPatch(v, [Export(Print("", e)).value]) == Ok(ApplyAt(true, v, e.segs, e.op, e.after).value)
  {
    ExportedEdit(e);
    RunPatchOne(v, Export(Print("", e)).value, TokensOf(e.segs));
    hide Export, Print, RunPatch;
    if e.segs != [] { StepSimulates(v, e.segs, e.op, e.after); }
  }

  lemma {:induction false} PatchSimulates(v: Json, es: seq<Edit>)
    requires AllExportable(es) && ApplyEdits(true, v, es).Ok?
    ensures ToPatch(Printed("", es)).Ok?
    ensures RunPatch(v, ToPatch(Printed("", es)).value) == Ok(ApplyEdits(true, v, es).value)
    decreases |es|
  {
    if es != [] {
      var e := es[0];
      PrintedHead(es);
      assert Exportable(e.segs) && OpName(e.op).Ok? && AllExportable(es[1..]);
      assert ApplyAt(true, v, e.segs, e.op, e.after).Ok?;
      var w := ApplyAt(true, v, e.segs, e.op, e.after).value;
      assert ApplyEdits(true, v, es) == ApplyEdits(true, w, es[1..]);
      hide *;
      EditSimulates(v, e);
      PatchSimulates(w, es[1..]);
      PatchUnrolls(v, Printed("", es));
    }
  }

  lemma {:induction false} EditOps(path: string, a: Json, b: Json, e: Edit)
    requires e in Edits(path, map[], a, b)
    ensures OpName(e.op).Ok?
    decreases a
  {
    if a.Obj? && b.Obj? {
      var k := FieldMember(path, a, b, Sorted(a.fields.Keys + b.fields.Keys), e);
      FieldBelow(path, a, b, k, e);
      hide Edits, FieldEdits;
      if k in a.fields && k in b.fields {
        EditOps(ChildPath(path, k), a.fields[k], b.fields[k], Below(e));
      }
    } else if a.Arr? && b.Arr? {
      var j := ArrayMember(path, a, b, e);
      if j < Min(|a.items|, |b.items|) {
        ItemBelow(path, a, b, j, e);
        hide Edits;
        EditOps(IndexPath(path, j), a.items[j], b.items[j], Below(e));
      }
    }
  }

  lemma EditExportable(a: Json, b: Json, e: Edit)
    requires Sized(a) && Sized(b) && RootNamed(a, b) && e in Edits("", map[], a, b)
    ensures Plain(e.segs) && OpName(e.op).Ok?
    ensures NamesSafe(InPointers, e.segs) <==> Exportable(e.segs)
  {
    EditShape("", a, b, e);
    RootEditNamed(a, b, e);
    EditOps("", a, b, e);
  }

  /** Exporting an index-mode diff and running it as a JSON Patch turns a into b. */
  lemma PatchPreservesMeaning(a: Json, b: Json)
    requires Sized(a) && Sized(b) && RootNamed(a, b) && DiffersSafely(InPointers, a, b)
    ensures ToPatch(DiffOf(map[], a, b)).Ok?
    ensures RunPatch(a, ToPatch(DiffOf(map[], a, b)).value) == Ok(b)
  {
    var es := Edits("", map[], a, b);
    forall e <- es ensures Exportable(e.segs) && OpName(e.op).Ok? {
      SafeEdits(InPointers, "", a, b, e);
      EditExportable(a, b, e);
    }
    EditsReach(true, "", map[], a, b);
    IndexModeMerges("", a, b);
    PatchSimulates(a, es);
  }

  // ----------------------------------------------------------------- the converse

  /** The location a list of tokens names in a document. */
  ghost function Located(v: Json, ts: seq<string>): (q: seq<Seg>)
    ensures |q| == |ts|
    ensures forall i | 0 <= i < |q| && q[i].Key? :: q[i].name == ts[i]
    decreases |ts|
  {
    if ts == [] then []
    else if v.Arr? then
      match ArrayIndex(ts[0])
      case Some(i) => [Index(i)] + Located(if i < |v.items| then v.items[i] else Null, ts[1..])
      case None => [Index(|v.items|)] + Located(Null, ts[1..])
    else [Key(ts[0])] + Located(if v.Obj? && ts[0] in v.fields then v.fields[ts[0]] else Null, ts[1..])
  }

  /** Where RFC 6902 succeeds, the lenient step at that location does the same. */
  lemma {:induction false} LocatedStep(v: Json, ts: seq<string>, op: Op, after: Json)
    requires ts != [] && OpName(op).Ok?
    requires PatchAt(v, ts, OpName(op).value, if op == OpRemove then Null else after).Ok?
    ensures Step(false, v, Located(v, ts), op, after) ==
            Ok(PatchAt(v, ts, OpName(op).value, if op == OpRemove then Null else after).value)
    decreases |ts|
  {
    var q := Located(v, ts);
    if |ts| > 1 {
      if v.Obj? {
        assert q[1..] == Located(v.fields[ts[0]], ts[1..]);
        LocatedStep(v.fields[ts[0]], ts[1..], op, after);
      } else {
        var i := ArrayIndex(ts[0]).value;
        assert q[1..] == Located(v.items[i], ts[1..]);
        LocatedStep(v.items[i], ts[1..], op, after);
      }
    } else if v.Arr? {
      AppendIsInsert(v.items, after);
    }
  }

  lemma AppendIsInsert(items: seq<Json>, x: Json)
    ensures InsertAt(items, |items|, x) == items + [x]
  {
  }

  /** Tokens of an exported location lead past the entry as the location does. */
  lemma {:induction false} LocatedHarmless(v: Json, segs: seq<Seg>, op: Op, at: seq<Seg>, u: string)
    requires PlainSized(segs) && NamesSafe(InPointers, segs) && !NameOk(InPointers, u)
    requires EntryAt(v, at, u).Some? && Harmless(segs, op, at, u)
    ensures Harmless(Located(v, TokensOf(segs)), op, at, u)
    decreases |at|
  {
    var ts := TokensOf(segs);
    var q := Located(v, ts);
    assert segs[0] in segs;
    if |segs| > |at| {
      assert segs[|at|] in segs;
      PlainTextClean(segs[|at|]);
      assert q[|at|] != Key(u);
    } else {
      if segs[0].Index? { IndexToken(segs[0].index); }
      if segs[0] == at[0] {
        assert ts[1..] == TokensOf(segs[1..]);
        if v.Obj? {
          assert q[1..] == Located(v.fields[at[0].name], ts[1..]);
          LocatedHarmless(v.fields[at[0].name], segs[1..], op, at[1..], u);
        } else {
          assert q[1..] == Located(v.items[at[0].index], ts[1..]);
          LocatedHarmless(v.items[at[0].index], segs[1..], op, at[1..], u);
        }
      }
    }
  }

  lemma {:induction false} PiecesUnkeyed(ps: seq<string>)
    requires PointerPieces(ps).Ok?
    ensures Unkeyed(ps)
  {
    if ps != [] { PiecesUnkeyed(ps[..|ps| - 1]); }
  }

  /** The edit cannot reach entry `u` at `at`, as a location or as tokens. */
  ghost predicate Aside(d: Edit, at: seq<Seg>, u: string) {
    && d.segs != [] && Plain(d.segs) && OpName(d.op).Ok? && !NameOk(InPointers, u)
    && if NamesSafe(InPointers, d.segs) then Exportable(d.segs) && Harmless(d.segs, d.op, at, u) else |d.segs| > |at|
  }

  /** The tokens of any exported edit are free of dots and selectors, and no fewer
      than its segments. */
  lemma ExportedTokens(d: Edit) returns (ts: seq<string>)
    requires d.segs != [] && Plain(d.segs) && Export(Print("", d)).Ok?
    ensures Tokens(Export(Print("", d)).value.path) == Some(ts) && |ts| >= |d.segs|
    ensures forall t <- ts :: NameOk(InPointers, t)
  {
    TextOfRender([], d.segs);
    assert [] + d.segs == d.segs;
    PieceCount(d.segs);
    ts := Split(Render(d.segs), '.');
    PiecesUnkeyed(ts);
    PointerTokens(ts);
    forall t <- ts ensures NameOk(InPointers, t) {
      var i :| 0 <= i < |ts| && ts[i] == t;
      assert Lacks(ts[i], '[');
    }
  }

  lemma LongTokensHarmless(v: Json, ts: seq<string>, op: Op, at: seq<Seg>, u: string)
    requires |ts| > |at| && (forall t <- ts :: NameOk(InPointers, t)) && !NameOk(InPointers, u)
    ensures Harmless(Located(v, ts), op, at, u)
  {
    assert ts[|at|] in ts;
  }

  lemma OpKeeps(v: Json, d: Edit, at: seq<Seg>, u: string)
    requires Aside(d, at, u) && EntryAt(v, at, u).Some? && Export(Print("", d)).Ok?
    requires RunPatch(v, [Export(Print("", d)).value]).Ok?
    ensures EntryAt(RunPatch(v, [Export(Print("", d)).value]).value, at, u) == EntryAt(v, at, u)
  {
    var ts := ExportedTokens(d);
    if NamesSafe(InPointers, d.segs) {
      ExportedEdit(d);
      LocatedHarmless(v, d.segs, d.op, at, u);
    } else {
      LongTokensHarmless(v, ts, d.op, at, u);
    }
    LocatedStep(v, ts, d.op, d.after);
    HarmlessKeeps(v, Located(v, ts), d.op, d.after, at, u);
  }

  lemma {:induction false} PatchKeeps(v: Json, es: seq<Edit>, at: seq<Seg>, u: string)
    requires EntryAt(v, at, u).Some? && forall d <- es :: Aside(d, at, u)
    requires ToPatch(Printed("", es)).Ok? && RunPatch(v, ToPatch(Printed("", es)).value).Ok?
    ensures EntryAt(RunPatch(v, ToPatch(Printed("", es)).value).value, at, u) == EntryAt(v, at, u)
    decreases |es|
  {
    if es == [] {
      assert Printed("", es) == [];
    } else {
      PrintedHead(es);
      assert es[0] in es && forall x <- es[1..] :: x in es;
      hide *;
      PatchUnrolls(v, Printed("", es));
      OpKeeps(v, es[0], at, u);
      PatchKeeps(RunPatch(v, [Export(Print("", es[0])).value]).value, es[1..], at, u);
    }
  }

  /** A change below a name with a dot or a bracket is refused or never carried out. */
  lemma DottedPatchFails(a: Json, b: Json)
    requires Sized(a) && Sized(b) && RootNamed(a, b) && !DiffersSafely(InPointers, a, b)
    ensures var p := ToPatch(DiffOf(map[], a, b)); p.Err? || RunPatch(a, p.value) != Ok(b)
  {
    var es := Edits("", map[], a, b);
    var unsafe := UnsafeEdit(InPointers, "", a, b);
    forall d <- es ensures NamesSafe(InPointers, d.segs) <==> FirstUnsafe(InPointers, d.segs) == |d.segs| {
      UnsafeHasFirst(InPointers, d.segs);
    }
    var e := Shallowest(InPointers, es);
    var at, u := e.segs[..FirstUnsafe(InPointers, e.segs)], e.segs[FirstUnsafe(InPointers, e.segs)].name;
    forall d <- es ensures Aside(d, at, u) {
      if d.segs == [] { RootEdit("", a, b, d); }
      EditExportable(a, b, d);
      if NamesSafe(InPointers, d.segs) { SafeEditHarmless(InPointers, "", a, b, e, d, at, u); }
    }
    UnsafeEntryDiffers(InPointers, "", a, b, e, at, u);
    var p := ToPatch(DiffOf(map[], a, b));
    if p.Ok? && RunPatch(a, p.value).Ok? {
      PatchKeeps(a, es, at, u);
    }
  }

  // --------------------------------------------------------------- the empty name

  /** An exported change below the root runs as a change at a location whose names
      have no dots, and which starts at the empty name only after a leading dot. */
  lemma ReadOp(v: Json, e: Edit) returns (m: Move)
    requires var c := Print("", e); c.path != "" && Export(c).Ok? && RunPatch(v, [Export(c).value]).Ok?
    ensures ReadAs(e, m) && Step(false, v, m.q, m.op, m.after) == Ok(RunPatch(v, [Export(Print("", e)).value]).value)
  {
    var c := Print("", e);
    var ts := Split(c.path, '.');
    FirstOfSplit(c.path);
    PiecesUnkeyed(ts);
    PointerTokens(ts);
    RunPatchOne(v, Export(c).value, ts);
    hide RunPatch, Tokens, PointerPieces, Split, Step, PatchAt;
    LocatedStep(v, ts, c.op, c.after);
    m := Move(Located(v, ts), c.op, c.after);
    forall s <- m.q | s.Key? ensures '.' !in s.name {
      var i :| 0 <= i < |m.q| && m.q[i] == s;
      assert ts[i] in ts;
    }
  }

  /** The operations of a patch below the root, read where they run. */
  lemma {:induction false} ReadPatch(a: Json, b: Json, w: Json, cs: seq<Change>) returns (ms: seq<Move>)
    requires PrintedFrom(a, b, cs) && BelowRoot(cs) && ToPatch(cs).Ok? && RunPatch(w, ToPatch(cs).value).Ok?
    ensures FromDiff(a, b, ms) && Placed(ms) && RunMoves(w, ms) == Ok(RunPatch(w, ToPatch(cs).value).value)
    decreases |cs|
  {
    if cs == [] {
      ms := [];
    } else {
      var c := cs[0];
      assert c in cs && c.path != "" && BelowRoot(cs[1..]);
      var e :| e in Edits("", map[], a, b) && c == Print("", e);
      PatchUnrolls(w, cs);
      PrintedTail(a, b, cs);
      hide RunPatch, ToPatch, Export, Print, Edits, ReadAs, PrintedFrom, FromDiff, BelowRoot;
      var m := ReadOp(w, e);
      var rest := ReadPatch(a, b, Step(false, w, m.q, m.op, m.after).value, cs[1..]);
      ms := [m] + rest;
      FromDiffCons(a, b, m, rest, e);
      FromDiffPlaced(a, b, ms);
      assert ms[1..] == rest;
    }
  }

  /** The first operation of a patch that touches the root. */
  lemma RootOp(v: Json, c: Change)
    requires c.path == "" && OpName(c.op).Ok?
    ensures Export(c).Ok?
    ensures RunPatch(v, [Export(c).value]) == if c.op == OpRemove then Err(Failed) else Ok(c.after)
  {
    RunPatchOne(v, Export(c).value, []);
  }

  /** A patch that has to change the root's member with the empty name never gives the target. */
  lemma EmptyNamePatchFails(a: Json, b: Json)
    requires !RootNamed(a, b)
    ensures var p := ToPatch(DiffOf(map[], a, b)); p.Err? || RunPatch(a, p.value) != Ok(b)
  {
    var cs := DiffOf(map[], a, b);
    var h := HeadOf(a, b);
    DiffIsPrinted(a, b);
    assert MemberAt(a, 0, "") != MemberAt(b, 0, "");
    hide DiffOf, PrintedFrom, FromDiff, RunMoves, ToPatch, RunPatch, Export;
    if ToPatch(cs).Ok? && RunPatch(a, ToPatch(cs).value).Ok? {
      match h
      case Removes =>
        PatchUnrolls(a, cs);
        RootOp(a, cs[0]);
      case Replaces(n) =>
        PatchUnrolls(a, cs);
        RootOp(a, cs[0]);
        PrintedTail(a, b, cs);
        var ms := ReadPatch(a, b, cs[0].after, cs[1..]);
        ReplacesFails(a, b, n, ms);
      case Stays =>
        var ms := ReadPatch(a, b, a, cs);
        StaysFails(a, b, ms);
    }
  }

  /** For all values the exported patch turns a into b exactly if every member on the
      way to a difference has a name without dots and brackets and the roots agree on
      the empty one. */
  lemma PatchExactly(a: Json, b: Json)
    requires Sized(a) && Sized(b)
    ensures var p := ToPatch(DiffOf(map[], a, b));
      p.Ok? && RunPatch(a, p.value) == Ok(b) <==> DiffersSafely(InPointers, a, b) && RootNamed(a, b)
  {
    hide ToPatch, RunPatch, DiffOf, DiffersSafely;
    if !RootNamed(a, b) {
      EmptyNamePatchFails(a, b);
    } else if DiffersSafely(InPointers, a, b) {
      PatchPreservesMeaning(a, b);
    } else {
      DottedPatchFails(a, b);
    }
  }

  // ------------------------------------------------------------------ as it runs

  method BuildPointer(path: string) returns (r: Result<string, Error>)
    ensures r == PointerFromPath(path)
  {
    if path == "" {
      return Ok("");
    }
    var ps := Split(path, '.');
    var b := "";
    for i := 0 to |ps|
      invariant PointerPieces(ps[..i]) == Ok(b)
    {
      assert ps[..i + 1][..i] == ps[..i];
      if '[' in ps[i] {
        PointerError(ps, i + 1);
        return Err(KeyedPathNotExportable);
      }
      b := b + "/" + Escape(ps[i]);
    }
    assert ps[..|ps|] == ps;
    return Ok(b);
  }

  lemma {:induction false} PointerError(ps: seq<string>, i: nat)
    requires i <= |ps| && PointerPieces(ps[..i]).Err?
    ensures PointerPieces(ps) == PointerPieces(ps[..i])
    decreases |ps| - i
  {
    if i == |ps| {
      assert ps[..i] == ps;
    } else {
      assert ps[..i + 1][..i] == ps[..i];
      PointerError(ps, i + 1);
    }
  }

  method ToJsonPatch(changes: seq<Change>) returns (r: Result<seq<PatchOp>, Error>)
    ensures r == ToPatch(changes)
  {
    var out: seq<PatchOp> := [];
    for i := 0 to |changes|
      invariant ToPatch(changes[..i]) == Ok(out)
    {
      var ch := changes[i];
      assert changes[..i + 1][..i] == changes[..i];
      var ptr := BuildPointer(ch.path);
      if ptr.Err? {
        PatchError(changes, i + 1);
        return Err(ptr.error);
      }
      match ch.op
      case OpAdd => out := out + [PatchOp("add", ptr.value, ch.after)];
      case OpChange => out := out + [PatchOp("replace", ptr.value, ch.after)];
      case OpRemove => out := out + [PatchOp("remove", ptr.value, Null)];
      case OpOther(_) =>
        PatchError(changes, i + 1);
        return Err(UnknownOp);
    }
    assert changes[..|changes|] == changes;
    return Ok(out);
  }

  lemma {:induction false} PatchError(cs: seq<Change>, i: nat)
    requires i <= |cs| && ToPatch(cs[..i]).Err?
    ensures ToPatch(cs) == ToPatch(cs[..i])
    decreases |cs| - i
  {
    if i == |cs| {
      assert cs[..i] == cs;
    } else {
      assert cs[..i + 1][..i] == cs[..i];
      PatchError(cs, i + 1);
    }
  }
}
