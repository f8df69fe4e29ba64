/**
 What the log can be held to, on both write paths: every event in it was asked for
 by a write, carries who wrote what and when, and is linked into its entity's chain
 whenever the chain is on. With the chain on from the start every history is a chain
 that verifies, so the tamper evidence of the hash chain applies to it.
 */
module Audit {

  import opened Wrappers
  import opened Json
  import opened Events
  import opened HashChain
  import opened Ingest
  import opened Coherence
  import opened Batch
  import opened WritePaths

  // -------------------------------------------------------------- one batch's events

  /** Event i of the fold is its item's, linked as it should be. */
  ghost predicate FromItem(env: Env, inputs: seq<Input>, f: Fold, i: nat)
    requires i < |f.events| && |f.eventIdx| == |f.events|
  {
    var k := f.eventIdx[i];
    k < |inputs| && Carries(f.events[i], inputs[k].cmd, inputs[k].now) && LinkPresent(env, f.events[i])
  }

  ghost predicate AllFromItems(env: Env, inputs: seq<Input>, f: Fold) {
    && |f.eventIdx| == |f.events|
    && (forall i | 0 <= i < |f.events| :: FromItem(env, inputs, f, i))
    && (forall i, j | 0 <= i < j < |f.eventIdx| :: f.eventIdx[i] < f.eventIdx[j])
    && forall i | 0 <= i < |f.eventIdx| :: f.eventIdx[i] < |f.errs|
  }

  lemma LocalCarries(env: Env, f: Fold, cur: Option<Current>, ev: Event, cmd: Command, now: int)
    requires ev.integrity.None? && Carries(ev, cmd, now) && Local(env, f, cur, ev).Ok?
    ensures Carries(Local(env, f, cur, ev).value, cmd, now) && LinkPresent(env, Local(env, f, cur, ev).value)
  {
    var numbered := ev.(version := CurVersion(cur) + 1);
    if HasPreStore(env.cfg) {
      HooksLink(env, env.cfg.hooks, numbered, LastKnown(f, ev.entityId));
      HooksKeepEvent(env, env.cfg.hooks, numbered, LastKnown(f, ev.entityId));
    }
    hide RunPreStore, CanonicalValue;
  }

  /** One fold step adds nothing, or its item's event under its item's position. */
  lemma StepCarries(env: Env, s: Store, f: Fold, input: Input)
    ensures var g := FoldStep(env, s, f, input);
      && |g.errs| == |f.errs| + 1
      && ((g.events == f.events && g.eventIdx == f.eventIdx) ||
          (g.events != [] && g.events[..|g.events| - 1] == f.events && g.eventIdx == f.eventIdx + [|f.errs|] &&
           var e := g.events[|g.events| - 1]; Carries(e, input.cmd, input.now) && LinkPresent(env, e)))
  {
    var eid := input.cmd.entityId;
    var l := if eid in f.running then f else Load(env, s, f, eid);
    var p := PlanEvent(env.cfg, input.cmd, l.running[eid], input.now);
    PlanShape(env.cfg, input.cmd, l.running[eid], input.now);
    PlanLeads(env.cfg, input.cmd, l.running[eid], input.now);
    hide PlanEvent, Local, Carries, LinkPresent, LeadsTo;
    if p.Planned? && Local(env, l, l.running[eid], p.ev).Ok? {
      LocalCarries(env, l, l.running[eid], p.ev, input.cmd, input.now);
    }
  }

  lemma FromItemWidens(env: Env, inputs: seq<Input>, f: Fold, g: Fold, i: nat)
    requires inputs != [] && i < |f.events| && |f.eventIdx| == |f.events| && |g.eventIdx| == |g.events|
    requires i < |g.events| && g.events[i] == f.events[i] && g.eventIdx[i] == f.eventIdx[i]
    requires FromItem(env, inputs[..|inputs| - 1], f, i)
    ensures FromItem(env, inputs, g, i)
  {
    hide Carries, LinkPresent;
  }

  /** Every event a batch would insert is its item's, and no item feeds two. */
  lemma {:induction false} FoldCarries(env: Env, s: Store, inputs: seq<Input>)
    ensures var f := FoldAll(env, s, inputs); AllFromItems(env, inputs, f) && |f.errs| == |inputs|
  {
    if inputs != [] {
      var n := |inputs| - 1;
      var f := FoldAll(env, s, inputs[..n]);
      var g := FoldStep(env, s, f, inputs[n]);
      FoldCarries(env, s, inputs[..n]);
      StepCarries(env, s, f, inputs[n]);
      hide FoldStep, Carries, LinkPresent;
      StepKeepsItems(env, inputs, f, g);
    }
  }

  lemma StepKeepsItems(env: Env, inputs: seq<Input>, f: Fold, g: Fold)
    requires inputs != [] && AllFromItems(env, inputs[..|inputs| - 1], f) && |f.errs| == |inputs| - 1 && |g.errs| == |inputs|
    requires (g.events == f.events && g.eventIdx == f.eventIdx) ||
      (g.events != [] && g.events[..|g.events| - 1] == f.events && g.eventIdx == f.eventIdx + [|f.errs|] &&
       var e, x := g.events[|g.events| - 1], inputs[|inputs| - 1]; Carries(e, x.cmd, x.now) && LinkPresent(env, e))
    ensures AllFromItems(env, inputs, g)
  {
    hide Carries, LinkPresent;
    forall i | 0 <= i < |g.events| ensures FromItem(env, inputs, g, i) {
      if i < |f.events| {
        assert FromItem(env, inputs[..|inputs| - 1], f, i);
        assert g.events == f.events || g.events[i] == g.events[..|f.events|][i];
        FromItemWidens(env, inputs, f, g, i);
      }
    }
  }

  // -------------------------------------------------------------------- all the log

  /** Some write asked for the event. */
  ghost predicate AskedFor(e: Event, inputs: seq<Input>) {
    exists k | 0 <= k < |inputs| :: Carries(e, inputs[k].cmd, inputs[k].now)
  }

  /** The log has grown by events the writes asked for, each linked as it should be. */
  ghost predicate GrewBy(env: Env, before: seq<Event>, after: seq<Event>, inputs: seq<Input>) {
    && before <= after
    && forall i | |before| <= i < |after| :: AskedFor(after[i], inputs) && LinkPresent(env, after[i])
  }

  lemma AskedWidens(e: Event, xs: seq<Input>, ys: seq<Input>)
    requires AskedFor(e, xs) || AskedFor(e, ys)
    ensures AskedFor(e, xs + ys)
  {
    hide Carries;
    if AskedFor(e, xs) {
      var k :| 0 <= k < |xs| && Carries(e, xs[k].cmd, xs[k].now);
      assert (xs + ys)[k] == xs[k];
    } else {
      var k :| 0 <= k < |ys| && Carries(e, ys[k].cmd, ys[k].now);
      assert (xs + ys)[|xs| + k] == ys[k];
    }
  }

  lemma GrewTwice(env: Env, a: seq<Event>, b: seq<Event>, c: seq<Event>, xs: seq<Input>, ys: seq<Input>)
    requires GrewBy(env, a, b, xs) && GrewBy(env, b, c, ys)
    ensures GrewBy(env, a, c, xs + ys)
  {
    hide AskedFor, LinkPresent;
    forall i | |a| <= i < |c| ensures AskedFor(c[i], xs + ys) && LinkPresent(env, c[i]) {
      if i < |b| { assert c[i] == b[i]; }
      AskedWidens(c[i], xs, ys);
    }
  }

  lemma WriteGrows(env: Env, s: Store, x: Input)
    ensures GrewBy(env, s.log, ApplyOne(env, s, x.cmd, x.now).0.log, [x])
  {
    var cur := GetCur(s, x.cmd.entityId);
    var p := PlanEvent(env.cfg, x.cmd, cur, x.now);
    PlanShape(env.cfg, x.cmd, cur, x.now);
    PlanLeads(env.cfg, x.cmd, cur, x.now);
    hide PlanEvent, RunPreStore, LastEvent, LeadsTo, BuildSnapshot, LinkPresent;
    if p.Planned? && Enrich(env, s, p.ev).Ok? {
      var v := LastVersion(s.log, p.ev.entityId) + 1;
      EnrichKeepsEvent(env, s, p.ev);
      EnrichedPresent(env, s, p.ev, v);
      assert Carries(Enrich(env, s, p.ev).value.(version := v), [x][0].cmd, [x][0].now);
    }
  }

  lemma BatchGrows(env: Env, s: Store, inputs: seq<Input>)
    ensures GrewBy(env, s.log, WriteBack(env, s, FoldAll(env, s, inputs)).0.log, inputs)
  {
    var f := FoldAll(env, s, inputs);
    FoldCarries(env, s, inputs);
    hide FoldAll, Carries, LinkPresent;
    var m := InsertPrefix(s.log, f.events);
    var t := WriteBack(env, s, f).0;
    hide InsertMany, BuildAll;
    assert f.events == [] ==> s.log + f.events[..m] == s.log;
    forall i | |s.log| <= i < |t.log| ensures AskedFor(t.log[i], inputs) && LinkPresent(env, t.log[i]) {
      assert t.log[i] == f.events[i - |s.log|];
      assert FromItem(env, inputs, f, i - |s.log|);
    }
  }

  /** A batch whose insert is refused reports every item that fed it as a duplicate,
      also those whose events are stored by then, and the others as they went. */
  lemma RefusedBatchFaults(env: Env, s: Store, inputs: seq<Input>, k: nat)
    requires k < |inputs| && !InsertMany(s.log, FoldAll(env, s, inputs).events).1
    ensures var f, r := FoldAll(env, s, inputs), WriteBack(env, s, FoldAll(env, s, inputs));
      && |r.1| == |f.errs| == |inputs| && |f.eventIdx| == |f.events|
      && (exists m: nat :: m < |f.events| && r.0.log == s.log + f.events[..m])
      && r.1[k] == (if k in f.eventIdx then Some(DuplicateKey) else f.errs[k])
  {
    var f := FoldAll(env, s, inputs);
    FoldCarries(env, s, inputs);
    hide FoldAll, Carries, LinkPresent;
    var m := InsertPrefix(s.log, f.events);
    assert f.events != [];
    assert m < |f.events| by { RefusedStops(s.log, f.events); }
    hide InsertMany;
  }

  /** A refused insert leaves something out. */
  lemma RefusedStops(log: seq<Event>, evs: seq<Event>)
    requires !InsertMany(log, evs).1
    ensures |InsertMany(log, evs).0| < |log| + |evs|
  {
    var init := evs[..|evs| - 1];
    var m := InsertPrefix(log, init);
  }

  lemma WorkGrows(env: Env, s: Store, w: Work)
    ensures GrewBy(env, s.log, WorkOne(env, s, w).log, InputsOf(w))
  {
    hide GrewBy, ApplyOne, WriteBack, FoldAll;
    match w
    case Single(x) => WriteGrows(env, s, x);
    case Many(inputs) => BatchGrows(env, s, inputs);
  }

  /** On every mix of single writes and batches, refused or not, the log only grows, and
      by events that carry what some write asked for and are linked whenever the chain
      is on and they can be encoded. */
  lemma {:induction false} EveryEventAsked(env: Env, s: Store, works: seq<Work>)
    ensures GrewBy(env, s.log, WorkAll(env, s, works).log, Flat(works))
  {
    if works != [] {
      var n := |works| - 1;
      var t := WorkAll(env, s, works[..n]);
      hide GrewBy, WorkOne, InputsOf;
      EveryEventAsked(env, s, works[..n]);
      WorkGrows(env, t, works[n]);
      GrewTwice(env, s.log, t.log, WorkAll(env, s, works).log, Flat(works[..n]), InputsOf(works[n]));
    }
  }

  // --------------------------------------------------------------- verifiable chains

  ghost predicate AllLinked(h: seq<Event>) {
    forall e <- h :: e.integrity.Some?
  }

  /** A linked history as a verifier sees it. */
  function ChainOf(h: seq<Event>): (c: seq<Link>)
    requires AllLinked(h)
    ensures |c| == |h| && forall i | 0 <= i < |h| :: c[i] == Link(ProjectionOf(h[i]), h[i].integrity.value)
  {
    seq(|h|, i requires 0 <= i < |h| => Link(ProjectionOf(h[i]), h[i].integrity.value))
  }

  ghost predicate EncodesAll(c: Crypto) {
    forall v: Json :: c.encode(v).Some?
  }

  lemma LinkedHistory(env: Env, log: seq<Event>, eid: string)
    requires ChainOn(env.cfg.hooks) && EncodesAll(env.crypto) && forall e <- log :: LinkPresent(env, e)
    ensures AllLinked(History(log, eid))
  {
    forall e <- History(log, eid) ensures e.integrity.Some? { assert LinkPresent(env, e); }
  }

  lemma ChainedVerifies(env: Env, h: seq<Event>)
    requires AllLinked(h) && Chained(env, h)
    ensures Verifies(env.crypto, env.collection, ChainOf(h))
  {
    var c := ChainOf(h);
    hide CanonicalValue;
    forall i | 0 <= i < |c| ensures LinkVerifies(env.crypto, env.collection, c, i) {
      assert LinkedAt(env, h, i) && h[i] in h;
      if i > 0 { assert h[i - 1] in h; }
    }
  }

  /** With the chain on from the start and an encoder that never fails, after every mix
      of single writes and batches every event is linked and every history is a chain
      that verifies. */
  lemma EveryHistoryVerifies(env: Env, works: seq<Work>, eid: string)
    requires ChainOn(env.cfg.hooks) && EncodesAll(env.crypto)
    ensures var h := History(WorkAll(env, NOTHING, works).log, eid);
      AllLinked(h) && Verifies(env.crypto, env.collection, ChainOf(h))
  {
    var t := WorkAll(env, NOTHING, works);
    EveryEventAsked(env, NOTHING, works);
    assert forall i | 0 <= i < |t.log| :: LinkPresent(env, t.log[i]);
    NothingGood(env);
    NothingLoose();
    ChainHoldsOnBothPaths(env, NOTHING, works);
    LinkedHistory(env, t.log, eid);
    ChainedVerifies(env, History(t.log, eid));
  }

  /** On every such run, whatever fails, each event's link is the one written out by
      `LinkIs`. */
  lemma EveryLinkIs(env: Env, works: seq<Work>, eid: string, i: nat)
    requires i < |History(WorkAll(env, NOTHING, works).log, eid)|
    ensures LinkIs(env, History(WorkAll(env, NOTHING, works).log, eid), i)
  {
    var t := WorkAll(env, NOTHING, works);
    var h := History(t.log, eid);
    EveryEventAsked(env, NOTHING, works);
    assert h[i] in t.log;
    var j :| 0 <= j < |t.log| && t.log[j] == h[i];
    assert LinkPresent(env, t.log[j]);
    NothingGood(env);
    NothingLoose();
    ChainHoldsOnBothPaths(env, NOTHING, works);
    assert Chained(env, h);
    hide WorkAll, History, LinkIs, LinkPresent;
    LinkIsBoth(env, h, i);
  }

  lemma NothingLoose()
    ensures Loose(NOTHING)
  {
    forall eid ensures EntityLoose(NOTHING, eid) { assert History(NOTHING.log, eid) == []; }
  }

  /** The histories are linked, their changes carry known operations, and the digest
      does not collide on what a verifier hashes for them. */
  ghost predicate Trusted(c: Crypto, k: string, h: seq<Event>, l: string, g: seq<Event>) {
    && AllLinked(h) && AllLinked(g) && h != [] && g != []
    && FixedLength(c) && EncodesInjectively(c) && AllProper(ChainOf(h)) && AllProper(ChainOf(g))
    && CollisionFree(c, Inputs(c, k, ChainOf(h)) + Inputs(c, l, ChainOf(g)))
  }

  lemma SameTail(c: Crypto, k: string, h: seq<Event>, l: string, g: seq<Event>)
    requires Trusted(c, k, h, l, g) && Verifies(c, k, ChainOf(h)) && Verifies(c, l, ChainOf(g))
    requires h[|h| - 1].integrity.value.hash == g[|g| - 1].integrity.value.hash
    ensures k == l && |h| == |g| && forall i | 0 <= i < |h| :: SameSigned(ProjectionOf(h[i]), ProjectionOf(g[i]))
  {
    var x, y := ChainOf(h), ChainOf(g);
    assert Comparable(c, k, x, l, y);
    hide Trusted, Comparable, Verifies, SameSigned;
    TamperEvident(c, k, x, l, y);
    forall i | 0 <= i < |h| ensures SameSigned(ProjectionOf(h[i]), ProjectionOf(g[i])) { assert SameLink(x[i], y[i]); }
  }

  /** Hence two stores whose histories of an entity end in the same hash are of the same
      collection and hold the same history, in every signed field, unless the digest
      collides. */
  lemma HistoriesTamperEvident(env: Env, works: seq<Work>, eid: string, h: seq<Event>,
                               env': Env, works': seq<Work>, eid': string, g: seq<Event>)
    requires ChainOn(env.cfg.hooks) && ChainOn(env'.cfg.hooks) && EncodesAll(env.crypto) && env'.crypto == env.crypto
    requires h == History(WorkAll(env, NOTHING, works).log, eid) && g == History(WorkAll(env', NOTHING, works').log, eid')
    requires Trusted(env.crypto, env.collection, h, env'.collection, g)
    requires h[|h| - 1].integrity.Some? && h[|h| - 1].integrity == g[|g| - 1].integrity
    ensures env.collection == env'.collection && |h| == |g|
    ensures forall i | 0 <= i < |h| :: SameSigned(ProjectionOf(h[i]), ProjectionOf(g[i]))
  {
    EveryHistoryVerifies(env, works, eid);
    EveryHistoryVerifies(env', works', eid');
    hide WorkAll, History, Verifies, SameSigned;
    SameTail(env.crypto, env.collection, h, env'.collection, g);
  }
}
