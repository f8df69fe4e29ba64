/**
 What every run of single writes keeps: gap-free versions, a current state and
 snapshots that equal a replay of the log, unique event ids and a linked hash
 chain.
 */
module Coherence {

  import opened Wrappers
  import opened Text
  import opened Json
  import opened Paths
  import opened Diff
  import opened Apply
  import opened Order
  import opened Textual
  import opened Exactness
  import opened EmptyNames
  import opened Events
  import opened HashChain
  import opened Ingest

  // ----------------------------------------------------------------- invariants

  /** cur_* is the replay of the whole history, with its version and time. */
  ghost predicate CurrentMatches(s: Store, eid: string) {
    var h := History(s.log, eid);
    && (eid in s.cur <==> h != [])
    && (eid in s.cur ==>
        && s.cur[eid].version == |h| && s.cur[eid].ts == h[|h| - 1].received
        && FromGenesis(h) == Ok(View(s.cur[eid].state, s.cur[eid].deleted)))
  }

  /** A snapshot is the replay of the history up to its version, with that version's time. */
  ghost predicate SnapshotMatches(s: Store, eid: string, v: int) {
    (eid, v) in s.snaps ==>
      && 1 <= v <= |History(s.log, eid)| && s.snaps[(eid, v)].ts == History(s.log, eid)[v - 1].received
      && FromGenesis(History(s.log, eid)[..v]) == Ok(View(s.snaps[(eid, v)].state, s.snaps[(eid, v)].deleted))
  }

  ghost predicate UniqueEventIds(log: seq<Event>) {
    forall i, j | 0 <= i < j < |log| && log[i].eventId != "" :: log[i].eventId != log[j].eventId
  }

  ghost predicate EntityCoherent(s: Store, eid: string) {
    Versioned(History(s.log, eid)) && CurrentMatches(s, eid)
  }

  ghost predicate Coherent(s: Store) {
    && (forall eid :: EntityCoherent(s, eid))
    && (forall eid, v :: SnapshotMatches(s, eid, v))
    && UniqueEventIds(s.log)
  }

  /** An event with an integrity block carries the hash of its own projection
      over its immediate predecessor's hash, or over the genesis exactly when
      that predecessor is missing or carries no link. */
  ghost predicate LinkedAt(env: Env, h: seq<Event>, i: nat)
    requires i < |h|
  {
    h[i].integrity.Some? ==>
      var x := h[i].integrity.value;
      && Hash(env.crypto, x.prevHash, ProjectionOf(h[i])) == Some(x.hash)
      && x.prevHash == if i > 0 && h[i - 1].integrity.Some? then h[i - 1].integrity.value.hash
                       else Genesis(env.crypto, env.collection)
  }

  ghost predicate Chained(env: Env, h: seq<Event>) {
    forall i | 0 <= i < |h| :: LinkedAt(env, h, i)
  }

  ghost predicate AllChained(env: Env, log: seq<Event>) {
    forall eid :: Chained(env, History(log, eid))
  }

  // ------------------------------------------------------- well-formed commands

  /** The stored diff of a state write replays to that state. */
  ghost predicate StateReplays(keys: ArrayKeys, base: State, state: State) {
    AllPrintable(Edits("", keys, Obj(base), Obj(state))) && InOrder("", keys, Obj(base), Obj(state))
  }

  predicate PlainNames(state: State) {
    forall k <- state :: SafeName(k) && k != ""
  }

  /** A create-with-state logs only additions, so nothing else may be live. */
  ghost predicate CreateReplays(base: State, state: State) {
    PlainNames(state) && base.Keys <= state.Keys
  }

  ghost predicate WellFormed(cfg: Config, cmd: Command, cur: Option<Current>) {
    match cmd.kind
    case KindState => cmd.op != Some(Delete) && StateReplays(cfg.arrayKeys, BaseState(cur), cmd.state)
    case KindDiff =>
      ResolveOp(cmd.op, cur, cfg) == Create && cmd.changes.None? ==> CreateReplays(BaseState(cur), cmd.state)
    case KindDelete => true
    case KindOther => true
  }

  // --------------------------------------------- the plan agrees with the replay

  lemma StateDiffReplays(keys: ArrayKeys, base: State, state: State)
    requires StateReplays(keys, base, state)
    ensures ApplyAll(Obj(base), DiffOf(keys, Obj(base), Obj(state))) == Ok(Obj(state))
  {
    ApplyDiffExact(keys, Obj(base), Obj(state));
  }

  lemma AddsMember(keys: ArrayKeys, state: State, k: string, m: State)
    requires PlainNames(state) && k in state
    ensures FieldEdit("", keys, EMPTY, Obj(state), k) == [Edit([Key(k)], OpAdd, Null, state[k])]
    ensures Printable([Key(k)])
    ensures ApplyAt(false, Obj(m), [Key(k)], OpAdd, state[k]) == Ok(Obj(m[k := state[k]]))
  {
    PrintableStep([], Key(k));
    assert [] + [Key(k)] == [Key(k)];
  }

  /** The members of the state listed in ks. */
  function Part(state: State, ks: seq<string>): State {
    map k | k in ks && k in state :: state[k]
  }

  lemma OverlayCons(state: State, ks: seq<string>, m: State)
    requires ks != [] && forall k <- ks :: k in state
    ensures m + Part(state, ks) == m[ks[0] := state[ks[0]]] + Part(state, ks[1..])
  {
    assert forall k :: k in ks <==> k == ks[0] || k in ks[1..];
  }

  /** Diffing from the empty object adds every member of the state. */
  lemma {:induction false} AddsMembers(keys: ArrayKeys, state: State, ks: seq<string>, m: State)
    requires PlainNames(state) && forall k <- ks :: k in state
    ensures AllPrintable(FieldEdits("", keys, EMPTY, Obj(state), ks))
    ensures ApplyEdits(false, Obj(m), FieldEdits("", keys, EMPTY, Obj(state), ks)) ==
            Ok(Obj(m + Part(state, ks)))
    decreases |ks|
  {
    var es := FieldEdits("", keys, EMPTY, Obj(state), ks);
    if ks == [] {
      assert m + Part(state, ks) == m;
    } else {
      var k := ks[0];
      assert k in ks;
      AddsMember(keys, state, k, m);
      AddsMembers(keys, state, ks[1..], m[k := state[k]]);
      OverlayCons(state, ks, m);
      hide FieldEdit, Printable, ApplyAt, PlainNames;
      assert es == [Edit([Key(k)], OpAdd, Null, state[k])] + FieldEdits("", keys, EMPTY, Obj(state), ks[1..]);
      assert es[1..] == FieldEdits("", keys, EMPTY, Obj(state), ks[1..]);
    }
  }

  /** A create-with-state replayed over a base overlays the state on it. */
  lemma CreateOverlays(keys: ArrayKeys, base: State, state: State)
    requires PlainNames(state)
    ensures ApplyAll(Obj(base), DiffOf(keys, EMPTY, Obj(state))) == Ok(Obj(base + state))
  {
    var es := Edits("", keys, EMPTY, Obj(state));
    var ks := Sorted(EMPTY.fields.Keys + state.Keys);
    if Obj(state) == EMPTY {
      assert base + state == base;
    } else {
      AddsMembers(keys, state, ks, base);
      assert Part(state, ks) == state;
      assert es == FieldEdits("", keys, EMPTY, Obj(state), ks);
      hide Edits, FieldEdits, ApplyEdits, AllPrintable, PlainNames;
      ApplyPrinted(Obj(base), es);
    }
  }

  /** Replaying a well-formed planned event onto the planned base shows the planned state. */
  lemma PlanReplays(cfg: Config, cmd: Command, cur: Option<Current>, now: int, r: Replay)
    requires WellFormed(cfg, cmd, cur) && PlanEvent(cfg, cmd, cur, now).Planned?
    requires r.work == BaseState(cur)
    ensures var p := PlanEvent(cfg, cmd, cur, now);
      ReplayEvent(r, p.ev).Ok? && ReplayEvent(r, p.ev).value.report == p.state && ReplayEvent(r, p.ev).value.deleted == p.deleted
  {
    hide ApplyAll, DiffOf, StateReplays, PlainNames;
    if cmd.kind == KindState {
      StateDiffReplays(cfg.arrayKeys, BaseState(cur), cmd.state);
    } else if cmd.kind == KindDiff && ResolveOp(cmd.op, cur, cfg) == Create && cmd.changes.None? {
      CreateOverlays(cfg.arrayKeys, BaseState(cur), cmd.state);
      OverlayExact(BaseState(cur), cmd.state);
    }
  }

  /** The replay of a coherent entity stands at the base the next write plans from. */
  lemma ReplayStandsAtBase(s: Store, eid: string)
    requires EntityCoherent(s, eid)
    ensures var r := ReplayAll(Start(map[], false), History(s.log, eid));
      r.Ok? && r.value.work == BaseState(GetCur(s, eid))
  {
    ReplayResumable(Start(map[], false), History(s.log, eid));
  }

  lemma ReplayIgnoresIntegrity(r: Replay, e: Event, f: Event)
    requires e.op == f.op && e.changes == f.changes
    ensures ReplayEvent(r, e) == ReplayEvent(r, f)
  {
  }

  // -------------------------------------------------------- a commit is coherent

  /** An event that continues its entity's history as planned keeps the store coherent. */
  lemma CommitCoherent(env: Env, s: Store, ev: Event, state: State, deleted: bool)
    requires Coherent(s) && !HasEventId(s.log, ev.eventId)
    requires ev.version == |History(s.log, ev.entityId)| + 1
    requires FromGenesis(History(s.log, ev.entityId) + [ev]) == Ok(View(state, deleted))
    ensures Coherent(Commit(env, s, ev, state, deleted))
  {
    var t := Commit(env, s, ev, state, deleted);
    forall eid ensures EntityCoherent(t, eid) {
      assert EntityCoherent(s, eid);
      EntityKept(env, s, ev, state, deleted, eid);
    }
    forall eid, v ensures SnapshotMatches(t, eid, v) {
      assert SnapshotMatches(s, eid, v);
      SnapshotKept(env, s, ev, state, deleted, eid, v);
    }
    EventIdsKept(s.log, ev);
  }

  lemma EventIdsKept(log: seq<Event>, ev: Event)
    requires UniqueEventIds(log) && !HasEventId(log, ev.eventId)
    ensures UniqueEventIds(log + [ev])
  {
  }

  lemma EntityKept(env: Env, s: Store, ev: Event, state: State, deleted: bool, eid: string)
    requires EntityCoherent(s, eid)
    requires ev.version == |History(s.log, ev.entityId)| + 1
    requires FromGenesis(History(s.log, ev.entityId) + [ev]) == Ok(View(state, deleted))
    ensures EntityCoherent(Commit(env, s, ev, state, deleted), eid)
  {
    var h := History(s.log, eid);
    HistorySnoc(s.log, ev, eid);
    hide FromGenesis, History, BuildSnapshot, Versioned;
    if eid != ev.entityId {
      assert h + [] == h;
    } else {
      VersionedSnoc(h, ev);
      assert (h + [ev])[|h|] == ev;
    }
  }

  lemma VersionedSnoc(h: seq<Event>, ev: Event)
    requires Versioned(h) && ev.version == |h| + 1
    ensures Versioned(h + [ev])
  {
  }

  lemma SnapshotKept(env: Env, s: Store, ev: Event, state: State, deleted: bool, eid: string, v: int)
    requires SnapshotMatches(s, eid, v)
    requires ev.version == |History(s.log, ev.entityId)| + 1
    requires FromGenesis(History(s.log, ev.entityId) + [ev]) == Ok(View(state, deleted))
    ensures SnapshotMatches(Commit(env, s, ev, state, deleted), eid, v)
  {
    hide FromGenesis, History;
    var t := Commit(env, s, ev, state, deleted);
    HistorySnoc(s.log, ev, eid);
    var h, h' := History(s.log, eid), History(t.log, eid);
    if (eid, v) in t.snaps {
      if eid == ev.entityId && v == ev.version {
        assert h'[..v] == h + [ev];
      } else {
        assert (eid, v) in s.snaps && h'[..v] == h[..v];
      }
    }
  }

  lemma CommitChained(env: Env, s: Store, ev: Event, state: State, deleted: bool)
    requires AllChained(env, s.log)
    requires LinkedAt(env, History(s.log, ev.entityId) + [ev], |History(s.log, ev.entityId)|)
    ensures AllChained(env, Commit(env, s, ev, state, deleted).log)
  {
    var log := s.log + [ev];
    forall eid ensures Chained(env, History(log, eid)) {
      HistorySnoc(s.log, ev, eid);
      var h, h' := History(s.log, eid), History(log, eid);
      assert Chained(env, h);
      forall i | 0 <= i < |h'| ensures LinkedAt(env, h', i) {
        if i < |h| { assert LinkedAt(env, h, i); }
      }
    }
  }

  // ----------------------------------------------------------------- the chain

  /** The hash chain is among the enabled hooks. */
  predicate ChainOn(hooks: seq<Hook>) {
    exists i | 0 <= i < |hooks| :: hooks[i].enabled && hooks[i].plugin.ChainPlugin?
  }

  /** The bytes that are signed, if there are any. */
  function Encoding(env: Env, p: Projection): Option<string> {
    env.crypto.encode(CanonicalValue(env.crypto, p))
  }

  lemma ChainOnSnoc(hooks: seq<Hook>)
    requires hooks != []
    ensures var n := |hooks| - 1;
      ChainOn(hooks) <==> ChainOn(hooks[..n]) || (hooks[n].enabled && hooks[n].plugin.ChainPlugin?)
  {
    var n := |hooks| - 1;
    if ChainOn(hooks[..n]) {
      var i :| 0 <= i < n && hooks[..n][i].enabled && hooks[..n][i].plugin.ChainPlugin?;
      assert hooks[i].enabled && hooks[i].plugin.ChainPlugin?;
    }
    if i :| 0 <= i < |hooks| && hooks[i].enabled && hooks[i].plugin.ChainPlugin? {
      if i < n { assert hooks[..n][i].enabled; }
    }
  }

  /** The hooks write an integrity block exactly if the chain is enabled and the
      projection can be encoded, and then the one for this predecessor. */
  lemma {:induction false} HooksLink(env: Env, hooks: seq<Hook>, ev: Event, last: Option<Event>)
    requires ev.integrity.None? && RunPreStore(env, hooks, ev, last).Ok?
    ensures RunPreStore(env, hooks, ev, last).value.integrity ==
      if ChainOn(hooks) && Encoding(env, ProjectionOf(ev)).Some? then PreStore(env.crypto, env.collection, ev, last) else None
  {
    if hooks != [] {
      var init := hooks[..|hooks| - 1];
      ChainOnSnoc(hooks);
      HooksLink(env, init, ev, last);
      HooksKeepEvent(env, init, ev, last);
      hide ChainOn, CanonicalValue;
    }
  }

  lemma LinkHashNonEmpty(env: Env, h: seq<Event>, i: nat)
    requires i < |h| && LinkedAt(env, h, i)
    ensures h[i].integrity.Some? ==> h[i].integrity.value.hash != ""
  {
  }

  lemma EnrichedLinks(env: Env, s: Store, ev: Event, v: int)
    requires Versioned(History(s.log, ev.entityId)) && Chained(env, History(s.log, ev.entityId))
    requires ev.integrity.None? && Enrich(env, s, ev).Ok?
    ensures var h := History(s.log, ev.entityId);
      LinkedAt(env, h + [Enrich(env, s, ev).value.(version := v)], |h|)
  {
    var h := History(s.log, ev.entityId);
    var e := Enrich(env, s, ev).value.(version := v);
    LastOf(s.log, ev.entityId);
    if HasPreStore(env.cfg) { HooksLink(env, env.cfg.hooks, ev, LastEvent(s.log, ev.entityId)); }
    EnrichKeepsEvent(env, s, ev);
    if h != [] {
      assert LinkedAt(env, h, |h| - 1);
      LinkHashNonEmpty(env, h, |h| - 1);
      assert (h + [e])[|h| - 1] == h[|h| - 1];
    }
  }

  /** An integrity block is there exactly if the chain is on and the event can be encoded. */
  predicate LinkPresent(env: Env, e: Event) {
    e.integrity.Some? <==> ChainOn(env.cfg.hooks) && Encoding(env, ProjectionOf(e)).Some?
  }

  lemma EnrichedPresent(env: Env, s: Store, ev: Event, v: int)
    requires ev.integrity.None? && Enrich(env, s, ev).Ok?
    ensures LinkPresent(env, Enrich(env, s, ev).value.(version := v))
  {
    EnrichKeepsEvent(env, s, ev);
    if HasPreStore(env.cfg) {
      HooksLink(env, env.cfg.hooks, ev, LastEvent(s.log, ev.entityId));
    }
    hide CanonicalValue;
  }

  /** The link of event i of a history, written out: the digest of the previous hash,
      or of the collection's genesis, and the encoding. */
  ghost predicate LinkIs(env: Env, h: seq<Event>, i: nat)
    requires i < |h|
  {
    var canon := Encoding(env, ProjectionOf(h[i]));
    var prev := if i > 0 && h[i - 1].integrity.Some? then h[i - 1].integrity.value.hash
                else "sha256:" + env.crypto.digest("letopis:genesis:v1:" + env.collection);
    h[i].integrity ==
      if ChainOn(env.cfg.hooks) && canon.Some? then Some(Integrity("sha256:" + env.crypto.digest(prev + canon.value), prev)) else None
  }

  lemma LinkIsBoth(env: Env, h: seq<Event>, i: nat)
    requires i < |h|
    ensures LinkIs(env, h, i) <==> LinkedAt(env, h, i) && LinkPresent(env, h[i])
  {
    hide CanonicalValue, ChainOn;
  }

  /** A stored write links its event as the chain demands, or not at all exactly if the
      chain is off or the event cannot be encoded. */
  lemma WriteLinks(env: Env, s: Store, cmd: Command, now: int)
    requires Versioned(History(s.log, cmd.entityId)) && Chained(env, History(s.log, cmd.entityId))
    requires ApplyOne(env, s, cmd, now).1.Stored?
    ensures var h, log := History(s.log, cmd.entityId), ApplyOne(env, s, cmd, now).0.log;
      log != [] && LinkIs(env, h + [log[|log| - 1]], |h|)
  {
    var p := PlanEvent(env.cfg, cmd, GetCur(s, cmd.entityId), now);
    PlanShape(env.cfg, cmd, GetCur(s, cmd.entityId), now);
    var h := History(s.log, cmd.entityId);
    hide PlanEvent, RunPreStore, History, LastEvent, BuildSnapshot, LinkIs, LinkedAt, LinkPresent, Chained, Versioned;
    AppendedEvent(env, s, p);
    var ev := Appended(env, s, p);
    EnrichedLinks(env, s, p.ev, |h| + 1);
    EnrichedPresent(env, s, p.ev, |h| + 1);
    assert (h + [ev])[|h|] == ev;
    LinkIsBoth(env, h + [ev], |h|);
  }

  // ------------------------------------------------------------------- one write

  ghost predicate Good(env: Env, s: Store) {
    Coherent(s) && AllChained(env, s.log)
  }

  /** Replayed after its entity's history, the planned event shows the planned state. */
  ghost predicate PlanFits(s: Store, p: Plan)
    requires p.Planned?
  {
    var r := ReplayAll(Start(map[], false), History(s.log, p.ev.entityId));
    && r.Ok?
    && ReplayEvent(r.value, p.ev).Ok?
    && ReplayEvent(r.value, p.ev).value.report == p.state
    && ReplayEvent(r.value, p.ev).value.deleted == p.deleted
  }

  lemma WellFormedFits(cfg: Config, s: Store, cmd: Command, now: int)
    requires EntityCoherent(s, cmd.entityId) && WellFormed(cfg, cmd, GetCur(s, cmd.entityId))
    ensures var p := PlanEvent(cfg, cmd, GetCur(s, cmd.entityId), now); p.Planned? ==> PlanFits(s, p)
  {
    var cur := GetCur(s, cmd.entityId);
    PlanShape(cfg, cmd, cur, now);
    ReplayStandsAtBase(s, cmd.entityId);
    if PlanEvent(cfg, cmd, cur, now).Planned? {
      PlanReplays(cfg, cmd, cur, now, ReplayAll(Start(map[], false), History(s.log, cmd.entityId)).value);
    }
  }

  /** The logged event differs from the planned one in version and integrity only. */
  lemma FittingEventReplays(s: Store, p: Plan, ev: Event)
    requires p.Planned? && PlanFits(s, p)
    requires ev.entityId == p.ev.entityId && ev.op == p.ev.op && ev.changes == p.ev.changes
    ensures FromGenesis(History(s.log, ev.entityId) + [ev]) == Ok(View(p.state, p.deleted))
  {
    var h := History(s.log, ev.entityId);
    ReplayIgnoresIntegrity(ReplayAll(Start(map[], false), h).value, p.ev, ev);
    ReplaySnoc(Start(map[], false), h, ev);
  }

  /** The event a planned write appends. */
  ghost function Appended(env: Env, s: Store, p: Plan): Event
    requires p.Planned? && Enrich(env, s, p.ev).Ok?
  {
    Enrich(env, s, p.ev).value.(version := |History(s.log, p.ev.entityId)| + 1)
  }

  lemma AppendedEvent(env: Env, s: Store, p: Plan)
    requires p.Planned? && Enrich(env, s, p.ev).Ok? && Versioned(History(s.log, p.ev.entityId))
    ensures var ev := Appended(env, s, p);
      && ev == p.ev.(version := |History(s.log, p.ev.entityId)| + 1, integrity := ev.integrity)
      && ApplyPlanned(env, s, p) ==
         if HasEventId(s.log, p.ev.eventId) then (s, Deduplicated)
         else (Commit(env, s, ev, p.state, p.deleted), Stored(ev.version))
  {
    EnrichKeepsEvent(env, s, p.ev);
    LastOf(s.log, p.ev.entityId);
  }

  lemma PlannedKeepsCoherent(env: Env, s: Store, p: Plan)
    requires Coherent(s) && p.Planned? && PlanFits(s, p)
    ensures Coherent(ApplyPlanned(env, s, p).0)
  {
    assert EntityCoherent(s, p.ev.entityId);
    if Enrich(env, s, p.ev).Ok? {
      AppendedEvent(env, s, p);
      if !HasEventId(s.log, p.ev.eventId) {
        FittingEventReplays(s, p, Appended(env, s, p));
        CommitCoherent(env, s, Appended(env, s, p), p.state, p.deleted);
      }
    }
  }

  lemma PlannedKeepsChained(env: Env, s: Store, p: Plan)
    requires AllChained(env, s.log) && p.Planned? && p.ev.integrity.None?
    requires Versioned(History(s.log, p.ev.entityId))
    ensures AllChained(env, ApplyPlanned(env, s, p).0.log)
  {
    assert Chained(env, History(s.log, p.ev.entityId));
    if Enrich(env, s, p.ev).Ok? {
      AppendedEvent(env, s, p);
      EnrichedLinks(env, s, p.ev, |History(s.log, p.ev.entityId)| + 1);
      CommitChained(env, s, Appended(env, s, p), p.state, p.deleted);
    }
  }

  lemma WriteKeepsGood(env: Env, s: Store, cmd: Command, now: int)
    requires Good(env, s) && WellFormed(env.cfg, cmd, GetCur(s, cmd.entityId))
    ensures Good(env, ApplyOne(env, s, cmd, now).0)
  {
    var cur := GetCur(s, cmd.entityId);
    var p := PlanEvent(env.cfg, cmd, cur, now);
    PlanShape(env.cfg, cmd, cur, now);
    if p.Planned? {
      assert EntityCoherent(s, cmd.entityId);
      WellFormedFits(env.cfg, s, cmd, now);
      PlannedKeepsCoherent(env, s, p);
      PlannedKeepsChained(env, s, p);
    }
  }

  /** A snapshot of the new state is taken at the interval, if its save succeeds; no
      other snapshot changes. */
  ghost predicate Snapshots(env: Env, s: Store, t: Store, eid: string, n: int, snap: Snapshot) {
    && (forall k | k != (eid, n) :: (k in t.snaps <==> k in s.snaps) && (k in t.snaps ==> t.snaps[k] == s.snaps[k]))
    && if env.cfg.interval > 0 && n % env.cfg.interval == 0 && env.saves(eid, n)
       then (eid, n) in t.snaps && t.snaps[(eid, n)] == snap
       else t.snaps == s.snaps
  }

  /** The logged event is the command's, numbered next, and leads to the new current
      state; nothing else is touched. */
  ghost predicate Appends(env: Env, s: Store, t: Store, cmd: Command, now: int, n: int) {
    && |t.log| == |s.log| + 1 && t.log[..|s.log|] == s.log
    && cmd.entityId in t.cur
    && (var e, c := t.log[|s.log|], t.cur[cmd.entityId];
        && Carries(e, cmd, now) && e.version == n
        && c.version == n && c.ts == now
        && LeadsTo(env.cfg.arrayKeys, cmd, BaseState(GetCur(s, cmd.entityId)), e, c.state, c.deleted)
        && Snapshots(env, s, t, cmd.entityId, n, Snapshot(now, c.deleted, c.state)))
    && (forall eid | eid != cmd.entityId :: GetCur(t, eid) == GetCur(s, eid))
  }

  /** What a write does, by outcome: only a stored one changes anything, by one
      event; an expected version is honoured exactly; a repeated event id is not
      stored again. */
  lemma WriteOutcomes(env: Env, s: Store, cmd: Command, now: int)
    requires EntityCoherent(s, cmd.entityId)
    ensures var (t, o) := ApplyOne(env, s, cmd, now);
      var n := |History(s.log, cmd.entityId)|;
      && (o.Stored? ==> o.version == n + 1 && Appends(env, s, t, cmd, now, n + 1) && !HasEventId(s.log, cmd.eventId))
      && (!o.Stored? ==> t == s)
      && (o == Failed(VersionConflict) <==> cmd.expected.Some? && cmd.expected.value != n)
      && (o == Deduplicated ==> HasEventId(s.log, cmd.eventId))
  {
    var cur := GetCur(s, cmd.entityId);
    var p := PlanEvent(env.cfg, cmd, cur, now);
    PlanShape(env.cfg, cmd, cur, now);
    PlanLeads(env.cfg, cmd, cur, now);
    PlanFaults(env.cfg, cmd, cur, now);
    hide PlanEvent, RunPreStore, History, LastEvent, FromGenesis, BuildSnapshot, LeadsTo, Carries, Appends;
    if p.Planned? {
      EnrichFaults(env, s, p.ev);
      if Enrich(env, s, p.ev).Ok? {
        AppendedEvent(env, s, p);
        hide Enrich;
        if !HasEventId(s.log, p.ev.eventId) { CommitAppends(env, s, cmd, now, p, Appended(env, s, p)); }
      }
    }
  }

  /** Committing the planned event, numbered and linked, is what the command asked for. */
  lemma CommitAppends(env: Env, s: Store, cmd: Command, now: int, p: Plan, ev: Event)
    requires p.Planned? && Carries(p.ev, cmd, now)
    requires LeadsTo(env.cfg.arrayKeys, cmd, BaseState(GetCur(s, cmd.entityId)), p.ev, p.state, p.deleted)
    requires ev == p.ev.(version := ev.version, integrity := ev.integrity) && ev.version > 0
    ensures Appends(env, s, Commit(env, s, ev, p.state, p.deleted), cmd, now, ev.version)
  {
    var t := Commit(env, s, ev, p.state, p.deleted);
    assert t.log[..|s.log|] == s.log && t.log[|s.log|] == ev;
    assert Snapshots(env, s, t, ev.entityId, ev.version, Snapshot(ev.received, p.deleted, p.state));
    hide DiffOf, ApplyAll, BuildSnapshot, Snapshots;
  }

  lemma PlanFaults(cfg: Config, cmd: Command, cur: Option<Current>, now: int)
    ensures PlanEvent(cfg, cmd, cur, now) != Rejected(VersionConflict)
  {
  }

  lemma EnrichFaults(env: Env, s: Store, ev: Event)
    ensures Enrich(env, s, ev).Err? ==> Enrich(env, s, ev).error == FailClosed
  {
    HooksFailClosed(env, env.cfg.hooks, ev, LastEvent(s.log, ev.entityId));
  }

  lemma {:induction false} HooksFailClosed(env: Env, hooks: seq<Hook>, ev: Event, last: Option<Event>)
    ensures RunPreStore(env, hooks, ev, last).Err? ==> RunPreStore(env, hooks, ev, last).error == FailClosed
  {
    if hooks != [] { HooksFailClosed(env, hooks[..|hooks| - 1], ev, last); }
  }

  /** A stored delete keeps showing the last live state, flagged deleted, and the
      next write starts from nothing. */
  lemma DeleteRetains(env: Env, s: Store, cmd: Command, now: int)
    requires EntityCoherent(s, cmd.entityId) && cmd.kind == KindDelete && ApplyOne(env, s, cmd, now).1.Stored?
    ensures var t := ApplyOne(env, s, cmd, now).0;
      && cmd.entityId in t.cur && t.cur[cmd.entityId].deleted
      && t.cur[cmd.entityId].state == BaseState(GetCur(s, cmd.entityId))
      && BaseState(GetCur(t, cmd.entityId)) == map[]
  {
    var p := PlanEvent(env.cfg, cmd, GetCur(s, cmd.entityId), now);
    hide RunPreStore, History, LastEvent, FromGenesis, BuildSnapshot;
    AppendedEvent(env, s, p);
  }

  /** A state write without keyed arrays is a no-op exactly if the state is what is live already. */
  lemma UnchangedExactly(env: Env, s: Store, cmd: Command, now: int)
    requires cmd.kind == KindState && env.cfg.arrayKeys == map[]
    requires VersionMatches(cmd.expected, CurVersion(GetCur(s, cmd.entityId)))
    ensures ApplyOne(env, s, cmd, now).1 == Unchanged <==> cmd.state == BaseState(GetCur(s, cmd.entityId))
  {
    EmptyDiff(Obj(BaseState(GetCur(s, cmd.entityId))), Obj(cmd.state));
    hide DiffOf, RunPreStore, LastEvent, History;
  }

  /** The command brings a full state for an entity it creates. */
  predicate CreatesWithState(cfg: Config, cmd: Command, cur: Option<Current>) {
    cmd.kind == KindDiff && ResolveOp(cmd.op, cur, cfg) == Create && cmd.changes.None?
  }

  /** A client diff or delete that passes its version check: a no-op exactly if it
      brings nothing and does not delete, rejected exactly if its changes do not apply
      to the live state or do not leave an object. */
  lemma DiffOutcomes(env: Env, s: Store, cmd: Command, now: int)
    requires cmd.kind != KindState && VersionMatches(cmd.expected, CurVersion(GetCur(s, cmd.entityId)))
    ensures var o, cur := ApplyOne(env, s, cmd, now).1, GetCur(s, cmd.entityId);
      var deletes := cmd.kind == KindDelete || (cmd.kind == KindDiff && ResolveOp(cmd.op, cur, env.cfg) == Delete);
      var brings := if CreatesWithState(env.cfg, cmd, cur) then cmd.state != map[] else cmd.changes.Some? && cmd.changes.value != [];
      var applied := ApplyAll(Obj(BaseState(cur)), if cmd.changes.Some? then cmd.changes.value else []);
      && (o == Failed(UnknownKind) <==> cmd.kind == KindOther)
      && (o == Unchanged <==> cmd.kind == KindDiff && !deletes && !brings)
      && (o == Failed(InvalidDiff) <==>
            cmd.kind == KindDiff && !deletes && !CreatesWithState(env.cfg, cmd, cur) && (applied.Err? || !applied.value.Obj?))
  {
    var cur := GetCur(s, cmd.entityId);
    var p := PlanEvent(env.cfg, cmd, cur, now);
    EmptyFromNothing(env.cfg.arrayKeys, cmd.state);
    hide DiffOf, RunPreStore, LastEvent, History, ApplyPlanned;
    PlannedOutcome(env, s, p);
  }

  lemma PlannedOutcome(env: Env, s: Store, p: Plan)
    ensures p.Planned? ==>
      var o := ApplyPlanned(env, s, p).1; o.Stored? || o == Deduplicated || o == Failed(FailClosed)
  {
    if p.Planned? { EnrichFaults(env, s, p.ev); }
    hide Enrich;
  }

  /** A state diffed against nothing shows a change exactly if it has a member. */
  lemma EmptyFromNothing(keys: ArrayKeys, state: State)
    ensures DiffOf(keys, EMPTY, Obj(state)) == [] <==> state == map[]
  {
    if state != map[] {
      var ks := Sorted(EMPTY.fields.Keys + state.Keys);
      var k :| k in state;
      assert k in ks;
      assert ks != [] && ks[0] in ks;
      assert Edits("", keys, EMPTY, Obj(state)) == FieldEdits("", keys, EMPTY, Obj(state), ks);
      assert |FieldEdit("", keys, EMPTY, Obj(state), ks[0])| == 1;
    }
  }

  /** A replay shows a deleted entity exactly if its last event deletes it. */
  lemma DeletedIsLast(h: seq<Event>)
    requires FromGenesis(h).Ok?
    ensures FromGenesis(h).value.deleted <==> h != [] && h[|h| - 1].op == Delete
  {
    if h != [] {
      var init, e := h[..|h| - 1], h[|h| - 1];
      assert h == init + [e];
      ReplaySnoc(Start(map[], false), init, e);
      hide ApplyAll;
    }
  }

  /** Left to the server, a stored write is a create exactly if the entity is new or its
      last event deleted it, unless the collection starts with updates, and an update
      otherwise. */
  lemma CreateExactly(env: Env, s: Store, cmd: Command, now: int)
    requires EntityCoherent(s, cmd.entityId) && ApplyOne(env, s, cmd, now).1.Stored?
    requires cmd.kind != KindDelete && cmd.op.None?
    ensures var h, log := History(s.log, cmd.entityId), ApplyOne(env, s, cmd, now).0.log;
      && log != []
      && log[|log| - 1].op == if (h == [] || h[|h| - 1].op == Delete) && !env.cfg.firstUpdate then Create else Update
  {
    var p := PlanEvent(env.cfg, cmd, GetCur(s, cmd.entityId), now);
    ResolvedCreate(env.cfg, s, cmd);
    PlannedOp(env.cfg, cmd, GetCur(s, cmd.entityId), now);
    PlanShape(env.cfg, cmd, GetCur(s, cmd.entityId), now);
    hide PlanEvent, Enrich, History, BuildSnapshot, ResolveOp, GetCur, CurrentMatches;
    AppendedEvent(env, s, p);
  }

  lemma PlannedOp(cfg: Config, cmd: Command, cur: Option<Current>, now: int)
    requires cmd.kind != KindDelete
    ensures PlanEvent(cfg, cmd, cur, now).Planned? ==> PlanEvent(cfg, cmd, cur, now).ev.op == ResolveOp(cmd.op, cur, cfg)
  {
    hide DiffOf, ApplyAll;
  }

  lemma ResolvedCreate(cfg: Config, s: Store, cmd: Command)
    requires EntityCoherent(s, cmd.entityId) && cmd.op.None?
    ensures var h := History(s.log, cmd.entityId);
      ResolveOp(cmd.op, GetCur(s, cmd.entityId), cfg) ==
      if (h == [] || h[|h| - 1].op == Delete) && !cfg.firstUpdate then Create else Update
  {
    var h := History(s.log, cmd.entityId);
    hide History, FromGenesis;
    if h != [] { DeletedIsLast(h); }
  }

  // ---------------------------------------------------------------------- runs

  datatype Input = Input(cmd: Command, now: int)

  function RunAll(env: Env, s: Store, inputs: seq<Input>): Store {
    if inputs == [] then s
    else
      var last := inputs[|inputs| - 1];
      ApplyOne(env, RunAll(env, s, inputs[..|inputs| - 1]), last.cmd, last.now).0
  }

  /** Every command is well-formed against the state it meets. */
  ghost predicate GoodRun(env: Env, s: Store, inputs: seq<Input>) {
    inputs == [] ||
    var init, last := inputs[..|inputs| - 1], inputs[|inputs| - 1];
    && GoodRun(env, s, init)
    && WellFormed(env.cfg, last.cmd, GetCur(RunAll(env, s, init), last.cmd.entityId))
  }

  const NOTHING := Store([], map[], map[])

  lemma NothingGood(env: Env)
    ensures Good(env, NOTHING)
  {
    assert forall eid :: History(NOTHING.log, eid) == [];
  }

  /** Caches equal replay, versions are gap-free and the chain holds on every run
      of well-formed commands, whatever is rejected, repeated or deleted. */
  lemma {:induction false} RunKeepsGood(env: Env, s: Store, inputs: seq<Input>)
    requires Good(env, s) && GoodRun(env, s, inputs)
    ensures Good(env, RunAll(env, s, inputs))
  {
    if inputs != [] {
      var init, last := inputs[..|inputs| - 1], inputs[|inputs| - 1];
      RunKeepsGood(env, s, init);
      WriteKeepsGood(env, RunAll(env, s, init), last.cmd, last.now);
    }
  }

  lemma CachesEqualReplay(env: Env, inputs: seq<Input>)
    requires GoodRun(env, NOTHING, inputs)
    ensures Good(env, RunAll(env, NOTHING, inputs))
  {
    NothingGood(env);
    RunKeepsGood(env, NOTHING, inputs);
  }

  // ------------------------------------------------- when a write is not coherent

  lemma PlannedMatchesExactly(env: Env, s: Store, p: Plan)
    requires p.Planned? && EntityCoherent(s, p.ev.entityId) && ApplyPlanned(env, s, p).1.Stored?
    ensures CurrentMatches(ApplyPlanned(env, s, p).0, p.ev.entityId) <==> PlanFits(s, p)
  {
    var h := History(s.log, p.ev.entityId);
    AppendedEvent(env, s, p);
    var ev := Appended(env, s, p);
    HistorySnoc(s.log, ev, p.ev.entityId);
    ReplayStandsAtBase(s, p.ev.entityId);
    ReplayIgnoresIntegrity(ReplayAll(Start(map[], false), h).value, p.ev, ev);
    ReplaySnoc(Start(map[], false), h, ev);
  }

  /** After a stored write, cur_* equals the replay exactly when the plan fits. */
  lemma StoredMatchesExactly(env: Env, s: Store, cmd: Command, now: int)
    requires Coherent(s) && ApplyOne(env, s, cmd, now).1.Stored?
    ensures var p := PlanEvent(env.cfg, cmd, GetCur(s, cmd.entityId), now);
      p.Planned? && (CurrentMatches(ApplyOne(env, s, cmd, now).0, cmd.entityId) <==> PlanFits(s, p))
  {
    PlanShape(env.cfg, cmd, GetCur(s, cmd.entityId), now);
    assert EntityCoherent(s, cmd.entityId);
    PlannedMatchesExactly(env, s, PlanEvent(env.cfg, cmd, GetCur(s, cmd.entityId), now));
  }

  /** A state write that says "delete" logs a delete but stores a live state. */
  lemma DeletingStateWriteBreaks(env: Env, s: Store, cmd: Command, now: int)
    requires Coherent(s) && cmd.kind == KindState && cmd.op == Some(Delete)
    requires ApplyOne(env, s, cmd, now).1.Stored?
    ensures !CurrentMatches(ApplyOne(env, s, cmd, now).0, cmd.entityId)
  {
    StoredMatchesExactly(env, s, cmd, now);
  }

  /** A create-with-state matches the replay exactly when no live member is left out of it. */
  lemma CreateMatchesExactly(env: Env, s: Store, cmd: Command, now: int)
    requires Coherent(s) && cmd.kind == KindDiff && cmd.changes.None? && PlainNames(cmd.state)
    requires ResolveOp(cmd.op, GetCur(s, cmd.entityId), env.cfg) == Create
    requires ApplyOne(env, s, cmd, now).1.Stored?
    ensures CurrentMatches(ApplyOne(env, s, cmd, now).0, cmd.entityId) <==>
            BaseState(GetCur(s, cmd.entityId)).Keys <= cmd.state.Keys
  {
    assert EntityCoherent(s, cmd.entityId);
    hide *;
    StoredMatchesExactly(env, s, cmd, now);
    CreatePlanFits(env.cfg, s, cmd, now);
    OverlayExact(BaseState(GetCur(s, cmd.entityId)), cmd.state);
  }

  lemma CreatePlanFits(cfg: Config, s: Store, cmd: Command, now: int)
    requires EntityCoherent(s, cmd.entityId) && cmd.kind == KindDiff && cmd.changes.None? && PlainNames(cmd.state)
    requires ResolveOp(cmd.op, GetCur(s, cmd.entityId), cfg) == Create
    requires PlanEvent(cfg, cmd, GetCur(s, cmd.entityId), now).Planned?
    ensures PlanFits(s, PlanEvent(cfg, cmd, GetCur(s, cmd.entityId), now)) <==>
            BaseState(GetCur(s, cmd.entityId)) + cmd.state == cmd.state
  {
    PlanShape(cfg, cmd, GetCur(s, cmd.entityId), now);
    ReplayStandsAtBase(s, cmd.entityId);
    CreateOverlays(cfg.arrayKeys, BaseState(GetCur(s, cmd.entityId)), cmd.state);
    hide ReplayAll, History, ApplyAll, DiffOf, EntityCoherent;
  }

  lemma OverlayExact(base: State, state: State)
    ensures base + state == state <==> base.Keys <= state.Keys
  {
    if base + state == state {
      forall k <- base ensures k in state { assert k in base + state; }
    }
  }

  lemma StatePlanFits(cfg: Config, s: Store, cmd: Command, now: int)
    requires EntityCoherent(s, cmd.entityId) && cmd.kind == KindState && cmd.op != Some(Delete)
    requires PlanEvent(cfg, cmd, GetCur(s, cmd.entityId), now).Planned?
    ensures var base := Obj(BaseState(GetCur(s, cmd.entityId)));
      var replayed := ApplyAll(base, DiffOf(cfg.arrayKeys, base, Obj(cmd.state)));
      PlanFits(s, PlanEvent(cfg, cmd, GetCur(s, cmd.entityId), now)) <==>
      replayed.Ok? && AsState(replayed.value) == cmd.state
  {
    PlanShape(cfg, cmd, GetCur(s, cmd.entityId), now);
    ReplayStandsAtBase(s, cmd.entityId);
    hide ReplayAll, History, ApplyAll, DiffOf, EntityCoherent;
  }

  /** Replaying a diff from one state to another shows the other exactly when the
      round trip of the two objects holds. */
  lemma AsStateExact(base: State, state: State)
    requires Sized(Obj(base)) && Sized(Obj(state))
    ensures var r := ApplyAll(Obj(base), DiffOf(map[], Obj(base), Obj(state)));
      r.Ok? && AsState(r.value) == state <==> DiffersSafely(InPaths, Obj(base), Obj(state)) && RootNamed(Obj(base), Obj(state))
  {
    var r := ApplyAll(Obj(base), DiffOf(map[], Obj(base), Obj(state)));
    RoundTripExact(Obj(base), Obj(state));
    if r.Ok? { NonObjectResult(Obj(base), Obj(state)); }
    hide ApplyAll, DiffOf, DiffersSafely, RootNamed;
    if r.Ok? && AsState(r.value) == state { assert r.value == Obj(state); }
  }

  /** Without keyed arrays, a state write matches the replay exactly when its
      differences sit under printable names. */
  lemma StateMatchesExactly(env: Env, s: Store, cmd: Command, now: int)
    requires Coherent(s) && cmd.kind == KindState && cmd.op != Some(Delete) && env.cfg.arrayKeys == map[]
    requires ApplyOne(env, s, cmd, now).1.Stored?
    requires Sized(Obj(BaseState(GetCur(s, cmd.entityId)))) && Sized(Obj(cmd.state))
    ensures var base := Obj(BaseState(GetCur(s, cmd.entityId)));
      CurrentMatches(ApplyOne(env, s, cmd, now).0, cmd.entityId) <==>
      DiffersSafely(InPaths, base, Obj(cmd.state)) && RootNamed(base, Obj(cmd.state))
  {
    assert EntityCoherent(s, cmd.entityId);
    hide *;
    StoredMatchesExactly(env, s, cmd, now);
    StatePlanFits(env.cfg, s, cmd, now);
    AsStateExact(BaseState(GetCur(s, cmd.entityId)), cmd.state);
  }

  /** From nothing every member is simply added, keyed or not. */
  lemma {:induction false} AddsIgnoreKeys(keys: ArrayKeys, state: State, ks: seq<string>)
    requires forall k <- ks :: k in state
    ensures FieldEdits("", keys, EMPTY, Obj(state), ks) == FieldEdits("", map[], EMPTY, Obj(state), ks)
    decreases |ks|
  {
    if ks != [] {
      assert ks[0] in ks;
      AddsIgnoreKeys(keys, state, ks[1..]);
    }
  }

  lemma DiffFromNothing(keys: ArrayKeys, state: State)
    ensures DiffOf(keys, EMPTY, Obj(state)) == DiffOf(map[], EMPTY, Obj(state))
  {
    var ks := Sorted(EMPTY.fields.Keys + state.Keys);
    AddsIgnoreKeys(keys, state, ks);
    hide FieldEdits;
  }

  lemma PlainFromNothing(state: State)
    ensures DiffersSafely(InPaths, EMPTY, Obj(state)) && RootNamed(EMPTY, Obj(state)) <==> PlainNames(state)
  {
  }

  /** On a missing or deleted entity a create-with-state matches the replay exactly
      when all its names are printable. */
  lemma CreateOnNothingExactly(env: Env, s: Store, cmd: Command, now: int)
    requires Coherent(s) && cmd.kind == KindDiff && cmd.changes.None? && Sized(Obj(cmd.state))
    requires ResolveOp(cmd.op, GetCur(s, cmd.entityId), env.cfg) == Create
    requires BaseState(GetCur(s, cmd.entityId)) == map[] && ApplyOne(env, s, cmd, now).1.Stored?
    ensures CurrentMatches(ApplyOne(env, s, cmd, now).0, cmd.entityId) <==> PlainNames(cmd.state)
  {
    assert EntityCoherent(s, cmd.entityId) && Sized(EMPTY);
    assert EMPTY == Obj(map[]);
    hide *;
    StoredMatchesExactly(env, s, cmd, now);
    CreateFitsOnNothing(env.cfg, s, cmd, now);
    AsStateExact(map[], cmd.state);
    PlainFromNothing(cmd.state);
  }

  lemma CreateFitsOnNothing(cfg: Config, s: Store, cmd: Command, now: int)
    requires EntityCoherent(s, cmd.entityId) && cmd.kind == KindDiff && cmd.changes.None?
    requires ResolveOp(cmd.op, GetCur(s, cmd.entityId), cfg) == Create && BaseState(GetCur(s, cmd.entityId)) == map[]
    requires PlanEvent(cfg, cmd, GetCur(s, cmd.entityId), now).Planned?
    ensures var r := ApplyAll(Obj(map[]), DiffOf(map[], Obj(map[]), Obj(cmd.state)));
      PlanFits(s, PlanEvent(cfg, cmd, GetCur(s, cmd.entityId), now)) <==> r.Ok? && AsState(r.value) == cmd.state
  {
    PlanShape(cfg, cmd, GetCur(s, cmd.entityId), now);
    ReplayStandsAtBase(s, cmd.entityId);
    DiffFromNothing(cfg.arrayKeys, cmd.state);
    hide ReplayAll, History, ApplyAll, DiffOf, EntityCoherent;
  }

  /** Client diffs and deletes always match the replay. */
  lemma DiffsAndDeletesMatch(env: Env, s: Store, cmd: Command, now: int)
    requires Coherent(s) && ApplyOne(env, s, cmd, now).1.Stored?
    requires cmd.kind == KindDelete ||
      (cmd.kind == KindDiff && !(ResolveOp(cmd.op, GetCur(s, cmd.entityId), env.cfg) == Create && cmd.changes.None?))
    ensures CurrentMatches(ApplyOne(env, s, cmd, now).0, cmd.entityId)
  {
    assert EntityCoherent(s, cmd.entityId);
    hide ApplyOne, PlanEvent, CurrentMatches, PlanFits, Coherent, EntityCoherent;
    StoredMatchesExactly(env, s, cmd, now);
    WellFormedFits(env.cfg, s, cmd, now);
  }
}
