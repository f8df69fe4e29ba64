/**
 The per-entity hash chain (internal/plugin/hashchain/hashchain.go). SHA-256 in
 hex, the JSON byte encoding and the time format are parameters; what is
 assumed of them is stated where it is used.
 */
module HashChain {

  import opened Wrappers
  import opened Text
  import opened Json
  import opened Diff
  import opened Events

  datatype Crypto = Crypto(digest: string -> string, encode: Json -> Option<string>, formatTime: int -> string)

  const GENESIS_PREFIX := "letopis:genesis:v1:"
  const HASH_SCHEME := "sha256:"
  const DIGEST_LENGTH := 64

  /** The signed fields of an event: everything but what the server adds. */
  datatype Projection = Projection(op: EntityOp, entityId: string, origin: Origin, changes: seq<Change>)

  function ProjectionOf(ev: Event): Projection {
    Projection(ev.op, ev.entityId, ev.origin, ev.changes)
  }

  // --------------------------------------------------------- canonical projection

  /** An object given member by member; absent members contribute nothing. */
  type Members = seq<(string, Option<Json>)>

  function Present(ms: Members): map<string, Json> {
    if ms == [] then map[]
    else match ms[0].1
      case None => Present(ms[1..])
      case Some(v) => Present(ms[1..])[ms[0].0 := v]
  }

  function NonEmpty(s: string): Option<Json> {
    if s == "" then None else Some(Str(s))
  }

  function EntityOpText(op: EntityOp): string {
    match op
    case Create => "create"
    case Update => "update"
    case Delete => "delete"
  }

  function OpText(op: Op): string {
    match op
    case OpAdd => "add"
    case OpChange => "change"
    case OpRemove => "remove"
    case OpOther(name) => name
  }

  function ChangeMembers(c: Change): Members {
    [("path", Some(Str(c.path))), ("op", Some(Str(OpText(c.op)))),
     ("old", if c.op == OpAdd then None else Some(c.before)),
     ("new", if c.op == OpRemove then None else Some(c.after))]
  }

  function CanonicalChanges(cs: seq<Change>): seq<Json> {
    seq(|cs|, i requires 0 <= i < |cs| => Obj(Present(ChangeMembers(cs[i]))))
  }

  function RefMembers(r: FlowRef): Members {
    [("activity_id", NonEmpty(r.activityId)), ("collection", NonEmpty(r.collection)), ("entity_id", NonEmpty(r.entityId)),
     ("version", if r.version == 0 then None else Some(Num(Itoa(r.version)))), ("event_id", NonEmpty(r.eventId))]
  }

  function CanonicalRefs(rs: seq<FlowRef>): seq<Json> {
    seq(|rs|, i requires 0 <= i < |rs| => Obj(Present(RefMembers(rs[i]))))
  }

  function FlowMembers(f: Flow): Members {
    [("id", NonEmpty(f.id)), ("step", NonEmpty(f.step)),
     ("caused_by", if f.causedBy == [] then None else Some(Arr(CanonicalRefs(f.causedBy))))]
  }

  function FlowMember(f: Option<Flow>): Option<Json> {
    if f.None? then None else Some(Obj(Present(FlowMembers(f.value))))
  }

  function TimeMember(c: Crypto, t: Option<int>): Option<Json> {
    if t.None? then None else Some(Str(c.formatTime(t.value)))
  }

  function ProjectionMembers(c: Crypto, p: Projection): Members {
    var o := p.origin;
    [("op", Some(Str(EntityOpText(p.op)))), ("entity_id", Some(Str(p.entityId))),
     ("changes", if p.changes == [] then None else Some(Arr(CanonicalChanges(p.changes)))),
     ("author", NonEmpty(o.author)), ("source", NonEmpty(o.source)),
     ("ts_source", TimeMember(c, o.tsSource)), ("flow", FlowMember(o.flow))]
  }

  /** The JSON value whose bytes are hashed; only present fields contribute. */
  function CanonicalValue(c: Crypto, p: Projection): Json {
    Obj(Present(ProjectionMembers(c, p)))
  }

  // ----------------------------------------------------------------------- links

  function GenesisInput(collection: string): string {
    GENESIS_PREFIX + collection
  }

  function Genesis(c: Crypto, collection: string): string {
    HASH_SCHEME + c.digest(GenesisInput(collection))
  }

  /** The link hash, or None when the projection cannot be encoded. */
  function Hash(c: Crypto, prevHash: string, p: Projection): Option<string> {
    match c.encode(CanonicalValue(c, p))
    case None => None
    case Some(canon) => Some(HASH_SCHEME + c.digest(prevHash + canon))
  }

  /** The hash a new link builds on: the previous event's, or the genesis when
      there is no previous event or it carries none. */
  function PrevHash(c: Crypto, collection: string, last: Option<Event>): string {
    if last.Some? && last.value.integrity.Some? && last.value.integrity.value.hash != ""
    then last.value.integrity.value.hash
    else Genesis(c, collection)
  }

  function PreStore(c: Crypto, collection: string, ev: Event, last: Option<Event>): Option<Integrity> {
    var prev := PrevHash(c, collection, last);
    match Hash(c, prev, ProjectionOf(ev))
    case None => None
    case Some(h) => Some(Integrity(h, prev))
  }

  // ---------------------------------------------------------------- verification

  datatype Link = Link(projection: Projection, integrity: Integrity)

  /** Link i recomputes, and continues its predecessor or the genesis. */
  ghost predicate LinkVerifies(c: Crypto, collection: string, chain: seq<Link>, i: nat)
    requires i < |chain|
  {
    && Hash(c, chain[i].integrity.prevHash, chain[i].projection) == Some(chain[i].integrity.hash)
    && chain[i].integrity.prevHash == if i == 0 then Genesis(c, collection) else chain[i - 1].integrity.hash
  }

  ghost predicate Verifies(c: Crypto, collection: string, chain: seq<Link>) {
    forall i | 0 <= i < |chain| :: LinkVerifies(c, collection, chain, i)
  }

  function LinkInput(c: Crypto, l: Link): string {
    var canon := c.encode(CanonicalValue(c, l.projection));
    l.integrity.prevHash + if canon.Some? then canon.value else ""
  }

  /** The texts a verifier hashes for a chain. */
  ghost function Inputs(c: Crypto, collection: string, chain: seq<Link>): set<string> {
    {GenesisInput(collection)} + set i | 0 <= i < |chain| :: LinkInput(c, chain[i])
  }

  ghost predicate FixedLength(c: Crypto) {
    forall x: string :: |c.digest(x)| == DIGEST_LENGTH
  }

  /** The digest has no collision among `xs`. */
  ghost predicate CollisionFree(c: Crypto, xs: set<string>) {
    forall x, y {:trigger c.digest(x), c.digest(y)} | x in xs && y in xs && c.digest(x) == c.digest(y) :: x == y
  }

  /** Equal bytes mean equal JSON values. */
  ghost predicate EncodesInjectively(c: Crypto) {
    && (forall v, w | c.encode(v).Some? && c.encode(v) == c.encode(w) :: v == w)
    && (forall t: int, u: int {:trigger c.formatTime(t), c.formatTime(u)} :: c.formatTime(t) == c.formatTime(u) ==> t == u)
  }

  // --------------------------------------------- the canonical value is faithful

  /** An operation name that is not one of the three known ones. */
  predicate ProperOp(op: Op) {
    op.OpOther? ==> op.name != "add" && op.name != "change" && op.name != "remove"
  }

  predicate ProperChanges(cs: seq<Change>) {
    forall c <- cs :: ProperOp(c.op)
  }

  /** A change without the value its operation does not sign. */
  function SignedChange(c: Change): Change {
    c.(before := if c.op == OpAdd then Null else c.before, after := if c.op == OpRemove then Null else c.after)
  }

  ghost predicate SameSigned(p: Projection, q: Projection) {
    && p.op == q.op && p.entityId == q.entityId && p.origin == q.origin
    && |p.changes| == |q.changes|
    && forall i | 0 <= i < |p.changes| :: SignedChange(p.changes[i]) == SignedChange(q.changes[i])
  }

  ghost predicate DistinctNames(ms: Members) {
    forall i, j | 0 <= i < j < |ms| :: ms[i].0 != ms[j].0
  }

  lemma {:induction false} PresentLookup(ms: Members, i: nat)
    requires DistinctNames(ms) && i < |ms|
    ensures ms[i].0 in Present(ms) <==> ms[i].1.Some?
    ensures ms[i].1.Some? ==> Present(ms)[ms[i].0] == ms[i].1.value
  {
    if i > 0 {
      PresentLookup(ms[1..], i - 1);
    } else {
      PresentNames(ms[1..], ms[0].0);
    }
  }

  lemma {:induction false} PresentNames(ms: Members, k: string)
    requires forall j | 0 <= j < |ms| :: ms[j].0 != k
    ensures k !in Present(ms)
  {
    if ms != [] { PresentNames(ms[1..], k); }
  }

  /** With distinct names, an object determines its members. */
  lemma MemberDetermined(ms: Members, ns: Members, i: nat)
    requires DistinctNames(ms) && DistinctNames(ns) && |ms| == |ns| && i < |ms| && ms[i].0 == ns[i].0
    requires Present(ms) == Present(ns)
    ensures ms[i].1 == ns[i].1
  {
    PresentLookup(ms, i);
    PresentLookup(ns, i);
  }

  lemma MembersDetermined(ms: Members, ns: Members)
    requires DistinctNames(ms) && DistinctNames(ns) && |ms| == |ns|
    requires forall i | 0 <= i < |ms| :: ms[i].0 == ns[i].0
    requires Present(ms) == Present(ns)
    ensures ms == ns
  {
    forall i | 0 <= i < |ms| ensures ms[i] == ns[i] { MemberDetermined(ms, ns, i); }
  }

  lemma ChangeFaithful(c: Change, d: Change)
    requires ProperOp(c.op) && ProperOp(d.op) && Present(ChangeMembers(c)) == Present(ChangeMembers(d))
    ensures SignedChange(c) == SignedChange(d)
  {
    var m, n := ChangeMembers(c), ChangeMembers(d);
    MemberDetermined(m, n, 0);
    MemberDetermined(m, n, 1);
    MemberDetermined(m, n, 2);
    MemberDetermined(m, n, 3);
  }

  lemma RefFaithful(r: FlowRef, s: FlowRef)
    requires Present(RefMembers(r)) == Present(RefMembers(s))
    ensures r == s
  {
    var m, n := RefMembers(r), RefMembers(s);
    MemberDetermined(m, n, 0);
    MemberDetermined(m, n, 1);
    MemberDetermined(m, n, 2);
    MemberDetermined(m, n, 3);
    MemberDetermined(m, n, 4);
    if r.version != 0 { ItoaInjective(r.version, s.version); }
  }

  lemma FlowFaithful(f: Flow, g: Flow)
    requires Present(FlowMembers(f)) == Present(FlowMembers(g))
    ensures f == g
  {
    var m, n := FlowMembers(f), FlowMembers(g);
    MemberDetermined(m, n, 0);
    MemberDetermined(m, n, 1);
    MemberDetermined(m, n, 2);
    var x, y := CanonicalRefs(f.causedBy), CanonicalRefs(g.causedBy);
    assert x == y;
    forall i | 0 <= i < |x| ensures f.causedBy[i] == g.causedBy[i] {
      assert x[i] == y[i];
      RefFaithful(f.causedBy[i], g.causedBy[i]);
    }
    assert f.causedBy == g.causedBy;
  }

  lemma ChangesFaithful(cs: seq<Change>, ds: seq<Change>)
    requires ProperChanges(cs) && ProperChanges(ds) && CanonicalChanges(cs) == CanonicalChanges(ds)
    ensures |cs| == |ds| && forall i | 0 <= i < |cs| :: SignedChange(cs[i]) == SignedChange(ds[i])
  {
    var x, y := CanonicalChanges(cs), CanonicalChanges(ds);
    assert |x| == |y|;
    forall i | 0 <= i < |cs| ensures SignedChange(cs[i]) == SignedChange(ds[i]) {
      assert x[i] == y[i];
      assert cs[i] in cs && ds[i] in ds;
      ChangeFaithful(cs[i], ds[i]);
    }
  }

  lemma OriginFaithful(c: Crypto, p: Projection, q: Projection)
    requires EncodesInjectively(c) && CanonicalValue(c, p) == CanonicalValue(c, q)
    ensures p.op == q.op && p.entityId == q.entityId && p.origin == q.origin
    ensures p.changes == [] <==> q.changes == []
    ensures p.changes != [] ==> CanonicalChanges(p.changes) == CanonicalChanges(q.changes)
  {
    var m, n := ProjectionMembers(c, p), ProjectionMembers(c, q);
    ProjectionNames(c, p);
    ProjectionNames(c, q);
    MembersDetermined(m, n);
    assert m[0].1 == n[0].1 && m[1].1 == n[1].1 && m[2].1 == n[2].1;
    assert m[3].1 == n[3].1 && m[4].1 == n[4].1 && m[5].1 == n[5].1 && m[6].1 == n[6].1;
    TimeFaithful(c, p.origin.tsSource, q.origin.tsSource);
    if p.origin.flow.Some? { FlowFaithful(p.origin.flow.value, q.origin.flow.value); }
  }

  lemma TimeFaithful(c: Crypto, t: Option<int>, u: Option<int>)
    requires EncodesInjectively(c) && TimeMember(c, t) == TimeMember(c, u)
    ensures t == u
  {
    if t.Some? { InstantFaithful(c, t.value, u.value); }
  }

  lemma InstantFaithful(c: Crypto, t: int, u: int)
    requires EncodesInjectively(c) && c.formatTime(t) == c.formatTime(u)
    ensures t == u
  {
  }

  lemma ProjectionNames(c: Crypto, p: Projection)
    ensures DistinctNames(ProjectionMembers(c, p))
  {
  }

  /** A member of the object, if it is there. */
  function Member(v: Json, name: string): Option<Json> {
    if v.Obj? && name in v.fields then Some(v.fields[name]) else None
  }

  lemma PresentMember(ms: Members, i: nat)
    requires DistinctNames(ms) && i < |ms|
    ensures Member(Obj(Present(ms)), ms[i].0) == ms[i].1
  {
    PresentLookup(ms, i);
  }

  /** The signed object, field by field. */
  lemma CanonicalFields(c: Crypto, p: Projection)
    ensures var v, o := CanonicalValue(c, p), p.origin;
      && Member(v, "op") == Some(Str(EntityOpText(p.op))) && Member(v, "entity_id") == Some(Str(p.entityId))
      && Member(v, "author") == NonEmpty(o.author) && Member(v, "source") == NonEmpty(o.source)
      && (Member(v, "ts_source").Some? <==> o.tsSource.Some?)
      && (o.tsSource.Some? ==> Member(v, "ts_source") == Some(Str(c.formatTime(o.tsSource.value))))
      && Member(v, "flow") == FlowMember(o.flow)
      && (Member(v, "changes").Some? <==> p.changes != [])
      && (p.changes != [] ==> Member(v, "changes") == Some(Arr(CanonicalChanges(p.changes))))
  {
    var ms := ProjectionMembers(c, p);
    ProjectionNames(c, p);
    PresentMember(ms, 0);
    PresentMember(ms, 1);
    PresentMember(ms, 2);
    PresentMember(ms, 3);
    PresentMember(ms, 4);
    PresentMember(ms, 5);
    PresentMember(ms, 6);
    hide Present, Member, CanonicalChanges, FlowMembers, DistinctNames;
  }

  /** A signed change: path and op always, the old value unless it is an addition, the
      new one unless it is a removal. */
  lemma CanonicalChange(cs: seq<Change>, i: nat)
    requires i < |cs|
    ensures var v, c := CanonicalChanges(cs)[i], cs[i];
      && Member(v, "path") == Some(Str(c.path)) && Member(v, "op") == Some(Str(OpText(c.op)))
      && Member(v, "old") == (if c.op == OpAdd then None else Some(c.before))
      && Member(v, "new") == (if c.op == OpRemove then None else Some(c.after))
  {
    var ms := ChangeMembers(cs[i]);
    PresentMember(ms, 0);
    PresentMember(ms, 1);
    PresentMember(ms, 2);
    PresentMember(ms, 3);
    hide Present, Member;
  }

  /** A signed flow block: what of id, step and causes there is. */
  lemma CanonicalFlow(o: Origin)
    ensures FlowMember(o.flow).Some? <==> o.flow.Some?
    ensures o.flow.Some? ==>
      var v, f := FlowMember(o.flow).value, o.flow.value;
      && Member(v, "id") == NonEmpty(f.id) && Member(v, "step") == NonEmpty(f.step)
      && Member(v, "caused_by") == if f.causedBy == [] then None else Some(Arr(CanonicalRefs(f.causedBy)))
  {
    if o.flow.Some? {
      var ms := FlowMembers(o.flow.value);
      PresentMember(ms, 0);
      PresentMember(ms, 1);
      PresentMember(ms, 2);
      hide Present, Member, CanonicalRefs;
    }
  }

  lemma CanonicalRef(rs: seq<FlowRef>, i: nat)
    requires i < |rs|
    ensures var v, r := CanonicalRefs(rs)[i], rs[i];
      && Member(v, "activity_id") == NonEmpty(r.activityId) && Member(v, "collection") == NonEmpty(r.collection)
      && Member(v, "entity_id") == NonEmpty(r.entityId) && Member(v, "event_id") == NonEmpty(r.eventId)
      && Member(v, "version") == if r.version == 0 then None else Some(Num(Itoa(r.version)))
  {
    var ms := RefMembers(rs[i]);
    PresentMember(ms, 0);
    PresentMember(ms, 1);
    PresentMember(ms, 2);
    PresentMember(ms, 3);
    PresentMember(ms, 4);
    hide Present, Member, Itoa;
  }

  /** Two projections with the same canonical value sign the same thing. */
  lemma CanonicalFaithful(c: Crypto, p: Projection, q: Projection)
    requires EncodesInjectively(c) && ProperChanges(p.changes) && ProperChanges(q.changes)
    requires CanonicalValue(c, p) == CanonicalValue(c, q)
    ensures SameSigned(p, q)
  {
    OriginFaithful(c, p, q);
    if p.changes != [] { ChangesFaithful(p.changes, q.changes); }
  }

  // ------------------------------------------------------------- tamper evidence

  lemma ConcatCancel(p: string, a: string, q: string, b: string)
    requires p + a == q + b && |p| == |q|
    ensures p == q && a == b
  {
    assert (p + a)[..|p|] == p && (q + b)[..|q|] == q;
    assert (p + a)[|p|..] == a && (q + b)[|q|..] == b;
  }

  lemma PrevHashLength(c: Crypto, collection: string, chain: seq<Link>, i: nat)
    requires FixedLength(c) && Verifies(c, collection, chain) && i < |chain|
    ensures |chain[i].integrity.prevHash| == |HASH_SCHEME| + DIGEST_LENGTH
    ensures LinkInput(c, chain[i]) != "" && LinkInput(c, chain[i])[0] == 's'
    ensures chain[i].integrity.hash == HASH_SCHEME + c.digest(LinkInput(c, chain[i]))
  {
    assert LinkVerifies(c, collection, chain, i);
    if i > 0 {
      assert LinkVerifies(c, collection, chain, i - 1);
    }
    assert chain[i].integrity.prevHash[0] == 's';
  }

  ghost predicate AllProper(chain: seq<Link>) {
    forall l <- chain :: ProperChanges(l.projection.changes)
  }

  /** Two verifying chains and a digest that does not collide on their inputs. */
  ghost predicate Comparable(c: Crypto, k: string, xs: seq<Link>, l: string, ys: seq<Link>) {
    && FixedLength(c) && EncodesInjectively(c)
    && CollisionFree(c, Inputs(c, k, xs) + Inputs(c, l, ys))
    && Verifies(c, k, xs) && Verifies(c, l, ys)
    && AllProper(xs) && AllProper(ys)
  }

  /** Equal hashes of two links mean equal predecessors and equal signed fields. */
  lemma LinkDetermined(c: Crypto, k: string, xs: seq<Link>, l: string, ys: seq<Link>, i: nat, j: nat)
    requires Comparable(c, k, xs, l, ys) && i < |xs| && j < |ys|
    requires xs[i].integrity.hash == ys[j].integrity.hash
    ensures SameLink(xs[i], ys[j])
  {
    PrevHashLength(c, k, xs, i);
    PrevHashLength(c, l, ys, j);
    var x, y := LinkInput(c, xs[i]), LinkInput(c, ys[j]);
    ConcatCancel(HASH_SCHEME, c.digest(x), HASH_SCHEME, c.digest(y));
    InputIncluded(c, k, xs, i);
    InputIncluded(c, l, ys, j);
    assert LinkVerifies(c, k, xs, i) && LinkVerifies(c, l, ys, j);
    ConcatCancel(xs[i].integrity.prevHash, c.encode(CanonicalValue(c, xs[i].projection)).value,
                 ys[j].integrity.prevHash, c.encode(CanonicalValue(c, ys[j].projection)).value);
    assert xs[i] in xs && ys[j] in ys;
    CanonicalFaithful(c, xs[i].projection, ys[j].projection);
  }

  ghost predicate SameLink(x: Link, y: Link) {
    x.integrity == y.integrity && SameSigned(x.projection, y.projection)
  }

  /** A genesis never equals a link: their inputs differ in the first character. */
  lemma GenesisIsNoLink(c: Crypto, inputs: set<string>, k: string, l: string, ys: seq<Link>, j: nat)
    requires FixedLength(c) && CollisionFree(c, inputs) && GenesisInput(k) in inputs
    requires Verifies(c, l, ys) && j < |ys| && LinkInput(c, ys[j]) in inputs
    ensures Genesis(c, k) != ys[j].integrity.hash
  {
    PrevHashLength(c, l, ys, j);
    var g, y := GenesisInput(k), LinkInput(c, ys[j]);
    assert g[0] == 'l' && g != y;
    if Genesis(c, k) == ys[j].integrity.hash {
      ConcatCancel(HASH_SCHEME, c.digest(g), HASH_SCHEME, c.digest(y));
    }
  }

  lemma GenesisBindsCollection(c: Crypto, inputs: set<string>, k: string, l: string)
    requires CollisionFree(c, inputs) && GenesisInput(k) in inputs && GenesisInput(l) in inputs
    requires Genesis(c, k) == Genesis(c, l)
    ensures k == l
  {
    ConcatCancel(HASH_SCHEME, c.digest(GenesisInput(k)), HASH_SCHEME, c.digest(GenesisInput(l)));
    ConcatCancel(GENESIS_PREFIX, k, GENESIS_PREFIX, l);
  }

  lemma LinkPrevious(c: Crypto, k: string, xs: seq<Link>, i: nat)
    requires Verifies(c, k, xs) && i < |xs|
    ensures xs[i].integrity.prevHash == if i == 0 then Genesis(c, k) else xs[i - 1].integrity.hash
  {
    assert LinkVerifies(c, k, xs, i);
  }

  /** No link of either chain carries the other's genesis as its hash, and equal
      genesis values mean one collection. */
  lemma StartsAreApart(c: Crypto, k: string, xs: seq<Link>, l: string, ys: seq<Link>, i: nat, j: nat)
    requires Comparable(c, k, xs, l, ys) && i < |xs| && j < |ys|
    ensures xs[i].integrity.hash != Genesis(c, l) && ys[j].integrity.hash != Genesis(c, k)
    ensures Genesis(c, k) == Genesis(c, l) ==> k == l
  {
    var inputs := Inputs(c, k, xs) + Inputs(c, l, ys);
    assert GenesisInput(k) in inputs && GenesisInput(l) in inputs;
    InputIncluded(c, k, xs, i);
    InputIncluded(c, l, ys, j);
    assert LinkInput(c, xs[i]) in inputs && LinkInput(c, ys[j]) in inputs;
    hide Genesis, GenesisInput, LinkInput, Inputs, CollisionFree, FixedLength, Verifies, AllProper, EncodesInjectively;
    GenesisIsNoLink(c, inputs, l, k, xs, i);
    GenesisIsNoLink(c, inputs, k, l, ys, j);
    if Genesis(c, k) == Genesis(c, l) { GenesisBindsCollection(c, inputs, k, l); }
  }

  /** One step back from equal hashes: both chains start here, or neither does. */
  lemma StepBack(c: Crypto, k: string, xs: seq<Link>, l: string, ys: seq<Link>, i: nat, j: nat)
    requires Comparable(c, k, xs, l, ys) && i < |xs| && j < |ys|
    requires xs[i].integrity.hash == ys[j].integrity.hash
    ensures SameLink(xs[i], ys[j])
    ensures i == 0 <==> j == 0
    ensures i == 0 ==> k == l
    ensures i > 0 && j > 0 ==> xs[i - 1].integrity.hash == ys[j - 1].integrity.hash
  {
    LinkDetermined(c, k, xs, l, ys, i, j);
    LinkPrevious(c, k, xs, i);
    LinkPrevious(c, l, ys, j);
    hide Comparable, SameSigned, Genesis;
    StartsAreApart(c, k, xs, l, ys, if i == 0 then 0 else i - 1, if j == 0 then 0 else j - 1);
  }

  lemma InputIncluded(c: Crypto, k: string, xs: seq<Link>, i: nat)
    requires i < |xs|
    ensures LinkInput(c, xs[i]) in Inputs(c, k, xs)
  {
  }

  /** Walking two verifying chains back from equal hashes at i and j. */
  lemma {:induction false} WalkBack(c: Crypto, k: string, xs: seq<Link>, l: string, ys: seq<Link>, i: nat, j: nat, m: nat)
    requires Comparable(c, k, xs, l, ys) && i < |xs| && j < |ys|
    requires xs[i].integrity.hash == ys[j].integrity.hash
    ensures i == j && k == l
    ensures m <= i ==> SameLink(xs[m], ys[m])
  {
    hide Comparable, SameLink;
    StepBack(c, k, xs, l, ys, i, j);
    if i > 0 {
      WalkBack(c, k, xs, l, ys, i - 1, j - 1, m);
    }
  }

  /** Two verifying chains that end in the same hash tell the same story: same
      collection, same length, same signed fields at every position. */
  lemma TamperEvident(c: Crypto, k: string, xs: seq<Link>, l: string, ys: seq<Link>)
    requires Comparable(c, k, xs, l, ys) && xs != [] && ys != []
    requires xs[|xs| - 1].integrity.hash == ys[|ys| - 1].integrity.hash
    ensures k == l && |xs| == |ys|
    ensures forall i | 0 <= i < |xs| :: SameLink(xs[i], ys[i])
  {
    WalkBack(c, k, xs, l, ys, |xs| - 1, |ys| - 1, 0);
    forall m | 0 <= m < |xs| ensures SameLink(xs[m], ys[m]) {
      WalkBack(c, k, xs, l, ys, |xs| - 1, |ys| - 1, m);
    }
  }
}
