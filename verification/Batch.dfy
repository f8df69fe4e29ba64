/**
 The fast batch path (internal/service/batch.go): fold a run of writes in
 memory, insert the events at once, then refresh cur_* and sn_*. It leaves what
 the one-at-a-time path leaves.
 */
module Batch {

  import opened Wrappers
  import opened Text
  import opened Events
  import opened Ingest
  import opened Coherence

  // --------------------------------------------------------- one at a time

  /** The inputs applied in order; the store left behind and each outcome. */
  function SeqRun(env: Env, s: Store, inputs: seq<Input>): (r: (Store, seq<Outcome>))
    ensures |r.1| == |inputs|
  {
    if inputs == [] then (s, [])
    else
      var last := inputs[|inputs| - 1];
      var before := SeqRun(env, s, inputs[..|inputs| - 1]);
      var step := ApplyOne(env, before.0, last.cmd, last.now);
      (step.0, before.1 + [step.1])
  }

  function FaultOf(o: Outcome): Option<Fault> {
    if o.Failed? then Some(o.fault) else None
  }

  function FaultsOf(os: seq<Outcome>): (r: seq<Option<Fault>>)
    ensures |r| == |os| && forall i | 0 <= i < |os| :: r[i] == FaultOf(os[i])
  {
    seq(|os|, i requires 0 <= i < |os| => FaultOf(os[i]))
  }

  // --------------------------------------------------------------- the insert

  /** One ordered insert: stops at the first key that is already taken. */
  function InsertMany(log: seq<Event>, evs: seq<Event>): (seq<Event>, bool) {
    if evs == [] then (log, true)
    else
      var before := InsertMany(log, evs[..|evs| - 1]);
      var e := evs[|evs| - 1];
      if !before.1 then before
      else if HasVersion(before.0, e.entityId, e.version) || HasEventId(before.0, e.eventId) then (before.0, false)
      else (before.0 + [e], true)
  }

  lemma InsertSnoc(log: seq<Event>, evs: seq<Event>, e: Event)
    requires InsertMany(log, evs) == (log + evs, true)
    requires !HasVersion(log + evs, e.entityId, e.version) && !HasEventId(log + evs, e.eventId)
    ensures InsertMany(log, evs + [e]) == (log + (evs + [e]), true)
  {
    assert (evs + [e])[..|evs|] == evs;
    Assoc(log, evs, [e]);
  }

  // --------------------------------------------------------------- numbering

  /** Versions count each entity's events, and cur_* knows the count. */
  ghost predicate EntityNumbered(s: Store, eid: string) {
    var h := History(s.log, eid);
    Versioned(h) && (eid in s.cur <==> h != []) && (eid in s.cur ==> s.cur[eid].version == |h|)
  }

  ghost predicate Numbered(s: Store) {
    forall eid :: EntityNumbered(s, eid)
  }

  lemma CoherentNumbered(s: Store)
    requires Coherent(s)
    ensures Numbered(s)
  {
    forall eid ensures EntityNumbered(s, eid) { assert EntityCoherent(s, eid); }
  }

  lemma CommitNumbered(env: Env, s: Store, ev: Event, state: State, deleted: bool)
    requires Numbered(s) && ev.version == |History(s.log, ev.entityId)| + 1
    ensures Numbered(Commit(env, s, ev, state, deleted))
  {
    var t := Commit(env, s, ev, state, deleted);
    forall eid ensures EntityNumbered(t, eid) {
      assert EntityNumbered(s, eid);
      HistorySnoc(s.log, ev, eid);
      if eid == ev.entityId { VersionedSnoc(History(s.log, eid), ev); }
    }
  }

  lemma NextVersionFree(s: Store, eid: string)
    requires EntityNumbered(s, eid)
    ensures !HasVersion(s.log, eid, |History(s.log, eid)| + 1)
  {
    var h := History(s.log, eid);
    forall i | 0 <= i < |s.log| && s.log[i].entityId == eid ensures s.log[i].version != |h| + 1 {
      HistoryIncludes(s.log, s.log[i]);
      var j :| 0 <= j < |h| && h[j] == s.log[i];
    }
  }

  // ------------------------------------------------------------- fresh event ids

  ghost predicate FreshIds(log: seq<Event>, inputs: seq<Input>) {
    && (forall i | 0 <= i < |inputs| :: !HasEventId(log, inputs[i].cmd.eventId))
    && (forall i, j | 0 <= i < j < |inputs| && inputs[i].cmd.eventId != "" ::
          inputs[i].cmd.eventId != inputs[j].cmd.eventId)
  }

  /** The run refuses no write as a repeat or for its expected version. */
  predicate Clear(os: seq<Outcome>) {
    Deduplicated !in os && Failed(VersionConflict) !in os
  }

  /** The next write would pass its version check. */
  predicate Passes(s: Store, input: Input) {
    VersionMatches(input.cmd.expected, CurVersion(GetCur(s, input.cmd.entityId)))
  }

  ghost predicate IdFrom(id: string, inputs: seq<Input>, n: nat)
    requires n <= |inputs|
  {
    exists k | 0 <= k < n :: id == inputs[k].cmd.eventId
  }

  /** Event ids of `evs` all come from the first n inputs. */
  ghost predicate IdsFrom(evs: seq<Event>, inputs: seq<Input>, n: nat)
    requires n <= |inputs|
  {
    forall i | 0 <= i < |evs| :: IdFrom(evs[i].eventId, inputs, n)
  }

  lemma StillFresh(log: seq<Event>, evs: seq<Event>, inputs: seq<Input>, n: nat)
    requires n < |inputs| && FreshIds(log, inputs) && IdsFrom(evs, inputs, n)
    ensures !HasEventId(log + evs, inputs[n].cmd.eventId)
  {
    var id := inputs[n].cmd.eventId;
    assert !HasEventId(log, id);
    forall i | 0 <= i < |log + evs| && id != "" ensures (log + evs)[i].eventId != id {
      if i >= |log| {
        assert (log + evs)[i] == evs[i - |log|];
        assert IdFrom(evs[i - |log|].eventId, inputs, n);
      }
    }
  }

  // ------------------------------------------------------ what a batch carries

  datatype Candidate = Candidate(ev: Event, state: State, deleted: bool)

  function BuildAll(env: Env, snaps: map<(string, int), Snapshot>, cs: seq<Candidate>): map<(string, int), Snapshot> {
    if cs == [] then snaps
    else
      var c := cs[|cs| - 1];
      BuildSnapshot(env, BuildAll(env, snaps, cs[..|cs| - 1]), c.ev, c.state, c.deleted)
  }

  lemma BuildAllSnoc(env: Env, snaps: map<(string, int), Snapshot>, cs: seq<Candidate>, c: Candidate)
    ensures BuildAll(env, snaps, cs + [c]) == BuildSnapshot(env, BuildAll(env, snaps, cs), c.ev, c.state, c.deleted)
  {
    assert (cs + [c])[..|cs|] == cs;
  }

  /** The fold's working state: per entity its running state, last event and
      final state; the events with the inputs they came from; snapshots; faults. */
  datatype Fold = Fold(running: map<string, Option<Current>>, lastEv: map<string, Option<Event>>,
                       finals: map<string, Current>, events: seq<Event>, eventIdx: seq<nat>,
                       snaps: seq<Candidate>, errs: seq<Option<Fault>>)

  const START := Fold(map[], map[], map[], [], [], [], [])

  function Load(env: Env, s: Store, f: Fold, eid: string): Fold {
    f.(running := f.running[eid := GetCur(s, eid)],
       lastEv := if HasPreStore(env.cfg) then f.lastEv[eid := LastEvent(s.log, eid)] else f.lastEv)
  }

  function Record(f: Fold, ev: Event, state: State, deleted: bool, pre: bool): Fold {
    var cur := Current(ev.version, ev.received, deleted, state);
    Fold(f.running[ev.entityId := Some(cur)],
         if pre then f.lastEv[ev.entityId := Some(ev)] else f.lastEv,
         f.finals[ev.entityId := cur],
         f.events + [ev],
         f.eventIdx + [|f.errs|],
         f.snaps + [Candidate(ev, state, deleted)],
         f.errs + [None])
  }

  function Report(f: Fold, fault: Option<Fault>): Fold {
    f.(errs := f.errs + [fault])
  }

  function LastKnown(f: Fold, eid: string): Option<Event> {
    if eid in f.lastEv then f.lastEv[eid] else None
  }

  /** Number the event locally and run the hooks against the in-memory predecessor. */
  function Local(env: Env, f: Fold, cur: Option<Current>, ev: Event): Result<Event, Fault> {
    var numbered := ev.(version := CurVersion(cur) + 1);
    if HasPreStore(env.cfg) then RunPreStore(env, env.cfg.hooks, numbered, LastKnown(f, ev.entityId)) else Ok(numbered)
  }

  function FoldStep(env: Env, s: Store, f: Fold, input: Input): Fold {
    var eid := input.cmd.entityId;
    var g := if eid in f.running then f else Load(env, s, f, eid);
    match PlanEvent(env.cfg, input.cmd, g.running[eid], input.now)
    case Rejected(x) => Report(g, Some(x))
    case NoChange => Report(g, None)
    case Planned(ev, state, deleted) =>
      match Local(env, g, g.running[eid], ev)
      case Err(x) => Report(g, Some(x))
      case Ok(e) => Record(g, e, state, deleted, HasPreStore(env.cfg))
  }

  function FoldAll(env: Env, s: Store, inputs: seq<Input>): Fold {
    if inputs == [] then START
    else FoldStep(env, s, FoldAll(env, s, inputs[..|inputs| - 1]), inputs[|inputs| - 1])
  }

  /** Fault `x` at every position of `idx`. */
  function Taint(errs: seq<Option<Fault>>, idx: seq<nat>, x: Fault): (r: seq<Option<Fault>>)
    ensures |r| == |errs|
    ensures forall k | 0 <= k < |errs| :: r[k] == if k in idx then Some(x) else errs[k]
  {
    seq(|errs|, k requires 0 <= k < |errs| => if k in idx then Some(x) else errs[k])
  }

  /** Writing the fold back: one insert, then current states, then snapshots; a
      failed insert leaves its prefix behind and faults every item that fed it. */
  function WriteBack(env: Env, s: Store, f: Fold): (Store, seq<Option<Fault>>) {
    if f.events == [] then (s, f.errs)
    else
      var inserted := InsertMany(s.log, f.events);
      if !inserted.1 then (s.(log := inserted.0), Taint(f.errs, f.eventIdx, DuplicateKey))
      else (Store(inserted.0, s.cur + f.finals, BuildAll(env, s.snaps, f.snaps)), f.errs)
  }

  /** The store `t` is the original plus what the fold has gathered. */
  ghost predicate StoreMirrors(env: Env, s: Store, t: Store, f: Fold) {
    && t.log == s.log + f.events
    && t.cur == s.cur + f.finals
    && t.snaps == BuildAll(env, s.snaps, f.snaps)
    && InsertMany(s.log, f.events) == (t.log, true)
  }

  /** The fold's tables hold what `t` holds for every loaded entity; the others have not moved. */
  ghost predicate TablesMirror(env: Env, t: Store, f: Fold) {
    && (forall eid <- f.running :: f.running[eid] == GetCur(t, eid))
    && (forall eid | eid !in f.running :: eid !in f.finals && UntouchedBy(f.events, eid))
    && (HasPreStore(env.cfg) ==> forall eid <- f.running :: eid in f.lastEv && f.lastEv[eid] == LastEvent(t.log, eid))
  }

  /** The fold after n inputs mirrors the one-at-a-time run of those inputs. */
  ghost predicate Mirrors(env: Env, s: Store, inputs: seq<Input>, n: nat, f: Fold)
    requires n <= |inputs|
  {
    var t := SeqRun(env, s, inputs[..n]);
    && Numbered(t.0)
    && StoreMirrors(env, s, t.0, f)
    && TablesMirror(env, t.0, f)
    && f.errs == FaultsOf(t.1)
  }

  ghost predicate UntouchedBy(evs: seq<Event>, eid: string) {
    forall i | 0 <= i < |evs| :: evs[i].entityId != eid
  }

  // ------------------------------------------------------------- fold steps

  lemma {:induction false} UntouchedHistory(log: seq<Event>, evs: seq<Event>, eid: string)
    requires UntouchedBy(evs, eid)
    ensures History(log + evs, eid) == History(log, eid)
  {
    if evs == [] {
      assert log + evs == log;
    } else {
      var init, e := evs[..|evs| - 1], evs[|evs| - 1];
      UntouchedHistory(log, init, eid);
      assert log + evs == log + init + [e];
      HistorySnoc(log + init, e, eid);
    }
  }

  /** Loading an entity on first sight: nothing of it has moved yet. */
  lemma LoadMirrors(env: Env, s: Store, t: Store, f: Fold, eid: string)
    requires StoreMirrors(env, s, t, f) && TablesMirror(env, t, f) && eid !in f.running
    ensures StoreMirrors(env, s, t, Load(env, s, f, eid)) && TablesMirror(env, t, Load(env, s, f, eid))
  {
    assert UntouchedBy(f.events, eid);
    UntouchedHistory(s.log, f.events, eid);
    assert GetCur(t, eid) == GetCur(s, eid);
  }

  lemma SeqSnoc(env: Env, s: Store, inputs: seq<Input>, n: nat)
    requires n < |inputs|
    ensures var t := SeqRun(env, s, inputs[..n]);
      var step := ApplyOne(env, t.0, inputs[n].cmd, inputs[n].now);
      SeqRun(env, s, inputs[..n + 1]) == (step.0, t.1 + [step.1])
  {
    assert inputs[..n + 1][..n] == inputs[..n];
  }

  lemma FaultsSnoc(os: seq<Outcome>, o: Outcome)
    ensures FaultsOf(os + [o]) == FaultsOf(os) + [FaultOf(o)]
  {
  }

  lemma IdsWiden(evs: seq<Event>, inputs: seq<Input>, n: nat)
    requires n < |inputs| && IdsFrom(evs, inputs, n)
    ensures IdsFrom(evs, inputs, n + 1)
  {
    forall i | 0 <= i < |evs| ensures IdFrom(evs[i].eventId, inputs, n + 1) {
      assert IdFrom(evs[i].eventId, inputs, n);
    }
  }

  /** An input that stores nothing only reports. */
  lemma SkipMirrors(env: Env, s: Store, inputs: seq<Input>, n: nat, f: Fold, o: Outcome)
    requires n < |inputs| && Mirrors(env, s, inputs, n, f)
    requires var t := SeqRun(env, s, inputs[..n]).0; ApplyOne(env, t, inputs[n].cmd, inputs[n].now) == (t, o)
    ensures Mirrors(env, s, inputs, n + 1, Report(f, FaultOf(o)))
  {
    SeqSnoc(env, s, inputs, n);
    FaultsSnoc(SeqRun(env, s, inputs[..n]).1, o);
  }

  /** Recording an event extends the mirrored store by its commit. */
  lemma RecordStores(env: Env, s: Store, t: Store, f: Fold, ev: Event, state: State, deleted: bool)
    requires StoreMirrors(env, s, t, f) && EntityNumbered(t, ev.entityId) && !HasEventId(t.log, ev.eventId)
    requires ev.version == |History(t.log, ev.entityId)| + 1
    ensures StoreMirrors(env, s, Commit(env, t, ev, state, deleted), Record(f, ev, state, deleted, HasPreStore(env.cfg)))
  {
    Assoc(s.log, f.events, [ev]);
    BuildAllSnoc(env, s.snaps, f.snaps, Candidate(ev, state, deleted));
    MergeUpdate(s.cur, f.finals, ev.entityId, Current(ev.version, ev.received, deleted, state));
    NextVersionFree(t, ev.entityId);
    InsertSnoc(s.log, f.events, ev);
  }

  lemma RecordTables(env: Env, t: Store, f: Fold, ev: Event, state: State, deleted: bool)
    requires TablesMirror(env, t, f) && Numbered(t) && ev.version == |History(t.log, ev.entityId)| + 1
    requires ev.entityId in f.running
    ensures TablesMirror(env, Commit(env, t, ev, state, deleted), Record(f, ev, state, deleted, HasPreStore(env.cfg)))
  {
    hide History, LastEvent;
    var u, g := Commit(env, t, ev, state, deleted), Record(f, ev, state, deleted, HasPreStore(env.cfg));
    forall eid | eid !in g.running ensures eid !in g.finals && UntouchedBy(g.events, eid) {
      UntouchedSnoc(f.events, ev, eid);
    }
    if HasPreStore(env.cfg) {
      CommitNumbered(env, t, ev, state, deleted);
      forall eid <- g.running ensures eid in g.lastEv && g.lastEv[eid] == LastEvent(u.log, eid) {
        assert EntityNumbered(u, eid);
        LastAfter(t.log, ev, eid);
      }
    }
  }

  lemma UntouchedSnoc(evs: seq<Event>, ev: Event, eid: string)
    requires UntouchedBy(evs, eid) && ev.entityId != eid
    ensures UntouchedBy(evs + [ev], eid)
  {
  }

  lemma LastAfter(log: seq<Event>, ev: Event, eid: string)
    requires Versioned(History(log + [ev], eid))
    ensures LastEvent(log + [ev], eid) == if ev.entityId == eid then Some(ev) else LastEvent(log, eid)
  {
    HistorySnoc(log, ev, eid);
    var h := History(log, eid);
    if ev.entityId == eid {
      LastOf(log + [ev], eid);
      assert (h + [ev])[|h|] == ev;
    } else {
      assert h + [] == h;
    }
    hide History;
  }

  lemma MergeUpdate<K, V>(a: map<K, V>, b: map<K, V>, k: K, v: V)
    ensures a + b[k := v] == (a + b)[k := v]
  {
  }

  /** An event chained and numbered in memory is the one the store would have taken. */
  lemma RecordMirrors(env: Env, s: Store, inputs: seq<Input>, n: nat, f: Fold, ev: Event, state: State, deleted: bool)
    requires n < |inputs| && Mirrors(env, s, inputs, n, f)
    requires var t := SeqRun(env, s, inputs[..n]).0;
      && !HasEventId(t.log, ev.eventId)
      && ApplyOne(env, t, inputs[n].cmd, inputs[n].now) == (Commit(env, t, ev, state, deleted), Stored(ev.version))
      && ev.version == |History(t.log, ev.entityId)| + 1
    requires ev.entityId in f.running
    ensures Mirrors(env, s, inputs, n + 1, Record(f, ev, state, deleted, HasPreStore(env.cfg)))
  {
    var t := SeqRun(env, s, inputs[..n]);
    SeqSnoc(env, s, inputs, n);
    FaultsSnoc(t.1, Stored(ev.version));
    CommitNumbered(env, t.0, ev, state, deleted);
    assert EntityNumbered(t.0, ev.entityId);
    RecordStores(env, s, t.0, f, ev, state, deleted);
    RecordTables(env, t.0, f, ev, state, deleted);
  }

  /** Planning against the in-memory current state, numbering it locally and
      chaining it off the in-memory predecessor is what the store does. */
  lemma LocalStep(env: Env, t: Store, f: Fold, cmd: Command, now: int, p: Plan)
    requires EntityNumbered(t, cmd.entityId) && VersionMatches(cmd.expected, CurVersion(GetCur(t, cmd.entityId)))
    requires HasPreStore(env.cfg) ==> LastKnown(f, cmd.entityId) == LastEvent(t.log, cmd.entityId)
    requires p == PlanEvent(env.cfg, cmd, GetCur(t, cmd.entityId), now) && p.Planned?
    ensures var e := Local(env, f, GetCur(t, cmd.entityId), p.ev);
      && (e.Err? ==> ApplyOne(env, t, cmd, now) == (t, Failed(e.error)))
      && (e.Ok? && !HasEventId(t.log, cmd.eventId) ==>
          ApplyOne(env, t, cmd, now) == (Commit(env, t, e.value, p.state, p.deleted), Stored(e.value.version)))
      && (e.Ok? && HasEventId(t.log, cmd.eventId) ==> ApplyOne(env, t, cmd, now) == (t, Deduplicated))
      && (e.Ok? ==>
          && e.value.version == |History(t.log, cmd.entityId)| + 1
          && e.value.entityId == cmd.entityId && e.value.eventId == cmd.eventId)
  {
    hide PlanEvent, LastEvent, RunPreStore, History;
    PlanShape(env.cfg, cmd, GetCur(t, cmd.entityId), now);
    var v := |History(t.log, cmd.entityId)| + 1;
    HooksIgnoreVersion(env, env.cfg.hooks, p.ev, LastKnown(f, cmd.entityId), v);
    if Enrich(env, t, p.ev).Ok? {
      AppendedEvent(env, t, p);
    }
  }

  lemma StartMirrors(env: Env, s: Store, inputs: seq<Input>)
    requires Numbered(s)
    ensures Mirrors(env, s, inputs, 0, START)
  {
    assert inputs[..0] == [];
    assert s.log + [] == s.log && s.cur + map[] == s.cur;
    forall eid ensures UntouchedBy(START.events, eid) {}
  }

  /** What a step records, if anything, carries an event id not seen before. */
  ghost predicate LandsFresh(s: Store, f: Fold, g: Fold, id: string) {
    g.events != f.events ==> !HasEventId(s.log + f.events, id)
  }

  /** One fold step mirrors one write that passes its version check. */
  lemma StepMirrors(env: Env, s: Store, inputs: seq<Input>, n: nat, f: Fold)
    requires n < |inputs| && Mirrors(env, s, inputs, n, f) && Passes(SeqRun(env, s, inputs[..n]).0, inputs[n])
    requires LandsFresh(s, f, FoldStep(env, s, f, inputs[n]), inputs[n].cmd.eventId)
    ensures Mirrors(env, s, inputs, n + 1, FoldStep(env, s, f, inputs[n]))
  {
    hide SeqRun, PlanEvent, RunPreStore, LastEvent, StoreMirrors, TablesMirror, FaultsOf, Numbered;
    var eid := inputs[n].cmd.entityId;
    if eid !in f.running {
      LoadMirrors(env, s, SeqRun(env, s, inputs[..n]).0, f, eid);
      LoadedStepMirrors(env, s, inputs, n, Load(env, s, f, eid));
    } else {
      LoadedStepMirrors(env, s, inputs, n, f);
    }
  }

  lemma LoadedStepMirrors(env: Env, s: Store, inputs: seq<Input>, n: nat, f: Fold)
    requires n < |inputs| && Mirrors(env, s, inputs, n, f) && Passes(SeqRun(env, s, inputs[..n]).0, inputs[n])
    requires inputs[n].cmd.entityId in f.running
    requires LandsFresh(s, f, FoldStep(env, s, f, inputs[n]), inputs[n].cmd.eventId)
    ensures Mirrors(env, s, inputs, n + 1, FoldStep(env, s, f, inputs[n]))
  {
    var cmd, now := inputs[n].cmd, inputs[n].now;
    var t := SeqRun(env, s, inputs[..n]).0;
    var p := PlanEvent(env.cfg, cmd, GetCur(t, cmd.entityId), now);
    match p
    case Rejected(x) => SkipMirrors(env, s, inputs, n, f, Failed(x));
    case NoChange => SkipMirrors(env, s, inputs, n, f, Unchanged);
    case Planned(ev, state, deleted) =>
      PlanShape(env.cfg, cmd, GetCur(t, cmd.entityId), now);
      assert EntityNumbered(t, cmd.entityId);
      LocalStep(env, t, f, cmd, now, p);
      var e := Local(env, f, GetCur(t, cmd.entityId), ev);
      if e.Err? {
        SkipMirrors(env, s, inputs, n, f, Failed(e.error));
      } else {
        RecordMirrors(env, s, inputs, n, f, e.value, state, deleted);
      }
  }

  /** What one fold step adds: at most one event, of the input's entity and id. */
  lemma StepAdds(env: Env, s: Store, f: Fold, input: Input)
    requires f.events == [] ==> f.finals == map[] && f.snaps == []
    ensures var g := FoldStep(env, s, f, input);
      && (g.events == [] ==> g.finals == map[] && g.snaps == [])
      && |g.errs| == |f.errs| + 1
      && (g.events == f.events ==> g.eventIdx == f.eventIdx)
      && (g.events != f.events ==>
            && |g.events| == |f.events| + 1 && g.events[..|f.events|] == f.events
            && g.events[|f.events|].eventId == input.cmd.eventId
            && g.eventIdx == f.eventIdx + [|f.errs|])
  {
    hide PlanEvent, RunPreStore, LastEvent;
    var eid := input.cmd.entityId;
    var g := if eid in f.running then f else Load(env, s, f, eid);
    var p := PlanEvent(env.cfg, input.cmd, g.running[eid], input.now);
    PlanShape(env.cfg, input.cmd, g.running[eid], input.now);
    if p.Planned? {
      var numbered := p.ev.(version := CurVersion(g.running[eid]) + 1);
      HooksKeepEvent(env, env.cfg.hooks, numbered, LastKnown(g, p.ev.entityId));
    }
  }

  /** The shape every fold has. */
  ghost predicate Gathered(inputs: seq<Input>, n: nat, f: Fold)
    requires n <= |inputs|
  {
    && (f.events == [] ==> f.finals == map[] && f.snaps == [])
    && |f.errs| == n
    && |f.eventIdx| == |f.events| && (forall i | 0 <= i < |f.eventIdx| :: f.eventIdx[i] < n)
    && IdsFrom(f.events, inputs, n)
  }

  lemma GatheredSnoc(env: Env, s: Store, inputs: seq<Input>, n: nat, f: Fold)
    requires n < |inputs| && Gathered(inputs, n, f)
    ensures Gathered(inputs, n + 1, FoldStep(env, s, f, inputs[n]))
  {
    StepAdds(env, s, f, inputs[n]);
    var g := FoldStep(env, s, f, inputs[n]);
    hide FoldStep;
    IdsWiden(f.events, inputs, n);
    assert IdFrom(inputs[n].cmd.eventId, inputs, n + 1);
    hide IdFrom;
    if g.events != f.events {
      IdsSnoc(f.events, g.events, inputs, n + 1);
    }
    hide IdsFrom;
  }

  lemma IdsSnoc(events: seq<Event>, more: seq<Event>, inputs: seq<Input>, n: nat)
    requires n <= |inputs| && IdsFrom(events, inputs, n) && |more| == |events| + 1 && more[..|events|] == events
    requires IdFrom(more[|events|].eventId, inputs, n)
    ensures IdsFrom(more, inputs, n)
  {
    hide IdFrom;
    forall i | 0 <= i < |more| ensures IdFrom(more[i].eventId, inputs, n) {
      if i < |events| { assert more[i] == events[i]; }
    }
  }

  lemma {:induction false} FoldGathers(env: Env, s: Store, inputs: seq<Input>, n: nat)
    requires n <= |inputs|
    ensures Gathered(inputs, n, FoldAll(env, s, inputs[..n]))
  {
    hide FoldStep;
    if n > 0 {
      FoldGathers(env, s, inputs, n - 1);
      assert inputs[..n][..n - 1] == inputs[..n - 1];
      GatheredSnoc(env, s, inputs, n - 1, FoldAll(env, s, inputs[..n - 1]));
    }
  }

  // -------------------------------------------------------------- when ids clash

  lemma PassesUnlessRefused(env: Env, s: Store, inputs: seq<Input>, n: nat)
    requires n < |inputs| && Failed(VersionConflict) !in SeqRun(env, s, inputs[..n + 1]).1
    ensures Passes(SeqRun(env, s, inputs[..n]).0, inputs[n])
    ensures Failed(VersionConflict) !in SeqRun(env, s, inputs[..n]).1
  {
    SeqSnoc(env, s, inputs, n);
    hide SeqRun, PlanEvent, ApplyPlanned;
    var before := SeqRun(env, s, inputs[..n]);
    var step := ApplyOne(env, before.0, inputs[n].cmd, inputs[n].now);
    var os := SeqRun(env, s, inputs[..n + 1]).1;
    assert step.1 == os[n] && step.1 in os;
    assert forall i | 0 <= i < n :: before.1[i] == os[i];
  }

  /** A fold whose events can all be inserted mirrors the sequence so far. */
  lemma {:induction false} FoldMirrors(env: Env, s: Store, inputs: seq<Input>, n: nat)
    requires n <= |inputs| && Numbered(s) && Failed(VersionConflict) !in SeqRun(env, s, inputs[..n]).1
    requires InsertMany(s.log, FoldAll(env, s, inputs[..n]).events).1
    ensures Mirrors(env, s, inputs, n, FoldAll(env, s, inputs[..n]))
  {
    hide FoldStep, SeqRun;
    if n == 0 {
      StartMirrors(env, s, inputs);
    } else {
      var f := FoldAll(env, s, inputs[..n - 1]);
      assert inputs[..n][..n - 1] == inputs[..n - 1];
      PassesUnlessRefused(env, s, inputs, n - 1);
      FoldGathers(env, s, inputs, n - 1);
      StepAdds(env, s, f, inputs[n - 1]);
      FoldMirrors(env, s, inputs, n - 1);
      StepMirrors(env, s, inputs, n - 1, f);
    }
  }

  /** One write is refused as a repeat exactly when its fold step records an event
      id seen before. */
  lemma RepeatExactly(env: Env, s: Store, inputs: seq<Input>, n: nat, f: Fold)
    requires n < |inputs| && Mirrors(env, s, inputs, n, f) && Passes(SeqRun(env, s, inputs[..n]).0, inputs[n])
    ensures var t := SeqRun(env, s, inputs[..n]).0;
      ApplyOne(env, t, inputs[n].cmd, inputs[n].now).1 == Deduplicated <==>
      !LandsFresh(s, f, FoldStep(env, s, f, inputs[n]), inputs[n].cmd.eventId)
  {
    hide SeqRun, PlanEvent, RunPreStore, LastEvent, StoreMirrors, TablesMirror, FaultsOf, Numbered;
    var eid := inputs[n].cmd.entityId;
    if eid !in f.running {
      LoadMirrors(env, s, SeqRun(env, s, inputs[..n]).0, f, eid);
      LoadedRepeatExactly(env, s, inputs, n, Load(env, s, f, eid));
    } else {
      LoadedRepeatExactly(env, s, inputs, n, f);
    }
  }

  lemma LoadedRepeatExactly(env: Env, s: Store, inputs: seq<Input>, n: nat, f: Fold)
    requires n < |inputs| && Mirrors(env, s, inputs, n, f) && Passes(SeqRun(env, s, inputs[..n]).0, inputs[n])
    requires inputs[n].cmd.entityId in f.running
    ensures var t := SeqRun(env, s, inputs[..n]).0;
      ApplyOne(env, t, inputs[n].cmd, inputs[n].now).1 == Deduplicated <==>
      !LandsFresh(s, f, FoldStep(env, s, f, inputs[n]), inputs[n].cmd.eventId)
  {
    var cmd, now := inputs[n].cmd, inputs[n].now;
    var t := SeqRun(env, s, inputs[..n]).0;
    var p := PlanEvent(env.cfg, cmd, GetCur(t, cmd.entityId), now);
    hide PlanEvent, RunPreStore, LastEvent, SeqRun, History;
    assert t.log == s.log + f.events && f.running[cmd.entityId] == GetCur(t, cmd.entityId);
    if p.Planned? {
      PlanShape(env.cfg, cmd, GetCur(t, cmd.entityId), now);
      assert EntityNumbered(t, cmd.entityId);
      LocalStep(env, t, f, cmd, now, p);
      hide ApplyOne;
    }
  }

  /** Where no write is refused for its expected version, the batch's one insert goes
      through exactly when none is refused as a repeat. */
  lemma {:induction false} PassingInserts(env: Env, s: Store, inputs: seq<Input>, n: nat)
    requires n <= |inputs| && Numbered(s) && Failed(VersionConflict) !in SeqRun(env, s, inputs[..n]).1
    ensures InsertMany(s.log, FoldAll(env, s, inputs[..n]).events).1 <==>
            Deduplicated !in SeqRun(env, s, inputs[..n]).1
  {
    if n > 0 {
      hide FoldStep, SeqRun, ApplyOne;
      var f := FoldAll(env, s, inputs[..n - 1]);
      var g := FoldStep(env, s, f, inputs[n - 1]);
      assert inputs[..n][..n - 1] == inputs[..n - 1];
      PassesUnlessRefused(env, s, inputs, n - 1);
      PassingInserts(env, s, inputs, n - 1);
      SeqSnoc(env, s, inputs, n - 1);
      FoldGathers(env, s, inputs, n - 1);
      StepAdds(env, s, f, inputs[n - 1]);
      if InsertMany(s.log, f.events).1 {
        FoldMirrors(env, s, inputs, n - 1);
        RepeatExactly(env, s, inputs, n - 1, f);
        InsertsFresh(env, s, inputs, n - 1, f, g);
      }
    }
  }

  lemma InsertsFresh(env: Env, s: Store, inputs: seq<Input>, n: nat, f: Fold, g: Fold)
    requires n < |inputs| && Mirrors(env, s, inputs, n, f) && Passes(SeqRun(env, s, inputs[..n]).0, inputs[n])
    requires g == FoldStep(env, s, f, inputs[n])
    requires f.events == [] ==> f.finals == map[] && f.snaps == []
    ensures InsertMany(s.log, g.events).1 <==> LandsFresh(s, f, g, inputs[n].cmd.eventId)
  {
    StepAdds(env, s, f, inputs[n]);
    hide FoldStep, SeqRun;
    if LandsFresh(s, f, g, inputs[n].cmd.eventId) {
      StepMirrors(env, s, inputs, n, f);
    } else {
      var e := g.events[|f.events|];
      assert g.events[..|g.events| - 1] == f.events;
      assert InsertMany(s.log, f.events) == (s.log + f.events, true);
    }
  }

  // ---------------------------------------------------------- expected versions

  /** The writes without the versions they expect. */
  function Unguarded(inputs: seq<Input>): (r: seq<Input>)
    ensures |r| == |inputs| && forall i | 0 <= i < |inputs| :: r[i] == Released(inputs[i])
  {
    seq(|inputs|, i requires 0 <= i < |inputs| => Released(inputs[i]))
  }

  function Released(input: Input): Input {
    input.(cmd := input.cmd.(expected := None))
  }

  lemma PlanIgnoresExpected(cfg: Config, cmd: Command, cur: Option<Current>, now: int)
    ensures PlanEvent(cfg, cmd.(expected := None), cur, now) == PlanEvent(cfg, cmd, cur, now)
  {
  }

  /** The batch never looks at an expected version. */
  lemma {:induction false} FoldIgnoresExpected(env: Env, s: Store, inputs: seq<Input>)
    ensures FoldAll(env, s, Unguarded(inputs)) == FoldAll(env, s, inputs)
  {
    if inputs != [] {
      var n := |inputs| - 1;
      FoldIgnoresExpected(env, s, inputs[..n]);
      assert Unguarded(inputs)[..n] == Unguarded(inputs[..n]);
      StepIgnoresExpected(env, s, FoldAll(env, s, inputs[..n]), inputs[n]);
      hide FoldStep;
    }
  }

  lemma StepIgnoresExpected(env: Env, s: Store, f: Fold, input: Input)
    ensures FoldStep(env, s, f, Released(input)) == FoldStep(env, s, f, input)
  {
    var eid := input.cmd.entityId;
    var g := if eid in f.running then f else Load(env, s, f, eid);
    PlanIgnoresExpected(env.cfg, input.cmd, g.running[eid], input.now);
    hide PlanEvent, Local, Record;
  }

  lemma {:induction false} UnguardedPasses(env: Env, s: Store, inputs: seq<Input>)
    ensures Failed(VersionConflict) !in SeqRun(env, s, Unguarded(inputs)).1
  {
    if inputs != [] {
      var n := |inputs| - 1;
      var xs := Unguarded(inputs);
      assert xs[..n] == Unguarded(inputs[..n]);
      UnguardedPasses(env, s, inputs[..n]);
      NeverOtherwise(env, SeqRun(env, s, xs[..n]).0, xs[n].cmd, xs[n].now);
      hide ApplyOne;
    }
  }

  /** The batch's one insert goes through exactly when the same writes one at a time,
      whatever versions they expect, repeat no event id. */
  lemma InsertsExactly(env: Env, s: Store, inputs: seq<Input>)
    requires Numbered(s)
    ensures InsertMany(s.log, FoldAll(env, s, inputs).events).1 <==>
            Deduplicated !in SeqRun(env, s, Unguarded(inputs)).1
  {
    var xs := Unguarded(inputs);
    assert xs[..|xs|] == xs;
    UnguardedPasses(env, s, inputs);
    FoldIgnoresExpected(env, s, inputs);
    hide FoldAll, SeqRun, InsertMany;
    PassingInserts(env, s, xs, |xs|);
  }

  lemma {:induction false} FreshNeverRepeats(env: Env, s: Store, inputs: seq<Input>, n: nat)
    requires n <= |inputs| && Numbered(s) && FreshIds(s.log, inputs)
    requires Failed(VersionConflict) !in SeqRun(env, s, inputs[..n]).1
    ensures Deduplicated !in SeqRun(env, s, inputs[..n]).1
  {
    if n > 0 {
      hide SeqRun, ApplyOne, Numbered, FreshIds, Passes;
      PassesUnlessRefused(env, s, inputs, n - 1);
      FreshNeverRepeats(env, s, inputs, n - 1);
      FreshStep(env, s, inputs, n - 1);
      SeqSnoc(env, s, inputs, n - 1);
    }
  }

  lemma FreshStep(env: Env, s: Store, inputs: seq<Input>, n: nat)
    requires n < |inputs| && Numbered(s) && FreshIds(s.log, inputs)
    requires Clear(SeqRun(env, s, inputs[..n]).1) && Passes(SeqRun(env, s, inputs[..n]).0, inputs[n])
    ensures ApplyOne(env, SeqRun(env, s, inputs[..n]).0, inputs[n].cmd, inputs[n].now).1 != Deduplicated
  {
    var f := FoldAll(env, s, inputs[..n]);
    FoldGathers(env, s, inputs, n);
    assert IdsFrom(f.events, inputs, n);
    assert Failed(VersionConflict) !in SeqRun(env, s, inputs[..n]).1 && Deduplicated !in SeqRun(env, s, inputs[..n]).1;
    hide *;
    PassingInserts(env, s, inputs, n);
    FoldMirrors(env, s, inputs, n);
    StillFresh(s.log, f.events, inputs, n);
    NewIdLands(s, f, FoldStep(env, s, f, inputs[n]), inputs[n].cmd.eventId);
    RepeatExactly(env, s, inputs, n, f);
  }

  lemma NewIdLands(s: Store, f: Fold, g: Fold, id: string)
    requires !HasEventId(s.log + f.events, id)
    ensures LandsFresh(s, f, g, id)
  {
  }

  lemma FreshRuns(env: Env, s: Store, inputs: seq<Input>)
    requires Numbered(s) && FreshIds(s.log, inputs) && Failed(VersionConflict) !in SeqRun(env, s, inputs).1
    ensures Deduplicated !in SeqRun(env, s, inputs).1
  {
    assert inputs[..|inputs|] == inputs;
    hide *;
    FreshNeverRepeats(env, s, inputs, |inputs|);
  }

  /** Fresh event ids are always insertable: local numbers never clash. */
  lemma FreshInserts(env: Env, s: Store, inputs: seq<Input>)
    requires Numbered(s) && FreshIds(s.log, inputs)
    ensures InsertMany(s.log, FoldAll(env, s, inputs).events).1
  {
    var xs := Unguarded(inputs);
    assert FreshIds(s.log, xs);
    UnguardedPasses(env, s, inputs);
    hide FoldAll, SeqRun, InsertMany, FreshIds;
    FreshRuns(env, s, xs);
    InsertsExactly(env, s, inputs);
  }

  /** A version conflict is reported by the version check alone, and no write reports
      a duplicate key. */
  lemma NeverOtherwise(env: Env, s: Store, cmd: Command, now: int)
    ensures var o := ApplyOne(env, s, cmd, now).1;
      && o != Failed(DuplicateKey)
      && (o == Failed(VersionConflict) <==> !VersionMatches(cmd.expected, CurVersion(GetCur(s, cmd.entityId))))
  {
    var p := PlanEvent(env.cfg, cmd, GetCur(s, cmd.entityId), now);
    if p.Planned? { HooksFailClosed(env, env.cfg.hooks, p.ev, LastEvent(s.log, p.ev.entityId)); }
  }

  lemma {:induction false} SequenceNeverDuplicates(env: Env, s: Store, inputs: seq<Input>, i: nat)
    requires i < |inputs|
    ensures SeqRun(env, s, inputs).1[i] != Failed(DuplicateKey)
  {
    var n := |inputs| - 1;
    if i < n {
      SequenceNeverDuplicates(env, s, inputs[..n], i);
    } else {
      NeverOtherwise(env, SeqRun(env, s, inputs[..n]).0, inputs[n].cmd, inputs[n].now);
    }
  }

  /** Where no write is refused for its expected version, one collection's batch
      leaves what the same writes one at a time leave exactly when its insert goes
      through. */
  lemma BatchRefinesInserted(env: Env, s: Store, inputs: seq<Input>)
    requires Numbered(s) && Failed(VersionConflict) !in SeqRun(env, s, inputs).1
    ensures WriteBack(env, s, FoldAll(env, s, inputs)) == (SeqRun(env, s, inputs).0, FaultsOf(SeqRun(env, s, inputs).1))
            <==> InsertMany(s.log, FoldAll(env, s, inputs).events).1
  {
    var f := FoldAll(env, s, inputs);
    assert inputs[..|inputs|] == inputs;
    FoldGathers(env, s, inputs, |inputs|);
    if InsertMany(s.log, f.events).1 {
      hide SeqRun;
      FoldMirrors(env, s, inputs, |inputs|);
      hide FoldAll, InsertMany;
      WriteBackMirrors(env, s, f, SeqRun(env, s, inputs).0);
    } else {
      hide FoldAll;
      assert f.events != [];
      var k := f.eventIdx[0];
      assert k in f.eventIdx;
      assert WriteBack(env, s, f).1[k] == Some(DuplicateKey);
      SequenceNeverDuplicates(env, s, inputs, k);
      hide SeqRun;
      assert FaultsOf(SeqRun(env, s, inputs).1)[k] != Some(DuplicateKey);
    }
  }

  lemma StepNeverConflicts(env: Env, s: Store, f: Fold, input: Input)
    requires Some(VersionConflict) !in f.errs
    ensures Some(VersionConflict) !in FoldStep(env, s, f, input).errs
  {
    var eid := input.cmd.entityId;
    var g := if eid in f.running then f else Load(env, s, f, eid);
    var p := PlanEvent(env.cfg, input.cmd, g.running[eid], input.now);
    if p.Planned? {
      HooksFailClosed(env, env.cfg.hooks, p.ev.(version := CurVersion(g.running[eid]) + 1), LastKnown(g, p.ev.entityId));
    }
  }

  lemma {:induction false} FoldNeverConflicts(env: Env, s: Store, inputs: seq<Input>)
    ensures Some(VersionConflict) !in FoldAll(env, s, inputs).errs
  {
    if inputs != [] {
      hide FoldStep;
      FoldNeverConflicts(env, s, inputs[..|inputs| - 1]);
      StepNeverConflicts(env, s, FoldAll(env, s, inputs[..|inputs| - 1]), inputs[|inputs| - 1]);
    }
  }

  /** A write refused for its expected version is not refused by the batch. */
  lemma ConflictIsMissed(env: Env, s: Store, inputs: seq<Input>)
    requires Failed(VersionConflict) in SeqRun(env, s, inputs).1
    ensures WriteBack(env, s, FoldAll(env, s, inputs)).1 != FaultsOf(SeqRun(env, s, inputs).1)
  {
    FoldNeverConflicts(env, s, inputs);
    hide FoldAll, SeqRun, InsertMany;
    var os := SeqRun(env, s, inputs).1;
    var k :| 0 <= k < |os| && os[k] == Failed(VersionConflict);
    assert FaultsOf(os)[k] == Some(VersionConflict);
  }

  /** One collection's batch leaves the log, current states, snapshots and faults of
      the same writes applied one at a time exactly when none of those is refused as
      a repeat or for the version it expects. */
  lemma BatchRefinesExactly(env: Env, s: Store, inputs: seq<Input>)
    requires Numbered(s)
    ensures WriteBack(env, s, FoldAll(env, s, inputs)) == (SeqRun(env, s, inputs).0, FaultsOf(SeqRun(env, s, inputs).1))
            <==> Clear(SeqRun(env, s, inputs).1)
  {
    assert inputs[..|inputs|] == inputs;
    hide FoldAll, SeqRun, InsertMany, WriteBack;
    if Failed(VersionConflict) in SeqRun(env, s, inputs).1 {
      ConflictIsMissed(env, s, inputs);
    } else {
      PassingInserts(env, s, inputs, |inputs|);
      BatchRefinesInserted(env, s, inputs);
    }
  }

  /** A delete that expects version 5 of an entity without any is refused on its own
      and carried out in a batch. */
  lemma ExpectedVersionIgnored(env: Env, cmd: Command, now: int)
    requires cmd.kind == KindDelete && cmd.expected == Some(5) && !HasPreStore(env.cfg)
    ensures SeqRun(env, NOTHING, [Input(cmd, now)]) == (NOTHING, [Failed(VersionConflict)])
    ensures cmd.entityId in WriteBack(env, NOTHING, FoldAll(env, NOTHING, [Input(cmd, now)])).0.cur
  {
    var x := Input(cmd, now);
    assert [x][..0] == [] && [x][..1] == [x] && FoldAll(env, NOTHING, []) == START;
    SeqSnoc(env, NOTHING, [x], 0);
    assert SeqRun(env, NOTHING, [x][..0]) == (NOTHING, []) && [] + [Failed(VersionConflict)] == [Failed(VersionConflict)];
    assert ApplyOne(env, NOTHING, cmd, now) == (NOTHING, Failed(VersionConflict));
    var f := FoldAll(env, NOTHING, [x]);
    assert f == FoldStep(env, NOTHING, START, x) && |f.events| == 1 && f.events[0].version == 1;
    assert f.events[..0] == [] && InsertMany([], f.events[..0]) == ([], true);
    assert InsertMany([], f.events).1;
  }

  /** Distinct event ids not yet in the log leave only the expected versions to check. */
  lemma BatchRefinesSequence(env: Env, s: Store, inputs: seq<Input>)
    requires Numbered(s) && FreshIds(s.log, inputs)
    ensures WriteBack(env, s, FoldAll(env, s, inputs)) == (SeqRun(env, s, inputs).0, FaultsOf(SeqRun(env, s, inputs).1))
            <==> Failed(VersionConflict) !in SeqRun(env, s, inputs).1
  {
    hide FoldAll, SeqRun, InsertMany, WriteBack;
    if Failed(VersionConflict) !in SeqRun(env, s, inputs).1 { FreshRuns(env, s, inputs); }
    BatchRefinesExactly(env, s, inputs);
  }

  lemma {:induction false} InsertPrefix(log: seq<Event>, evs: seq<Event>) returns (m: nat)
    ensures m <= |evs| && InsertMany(log, evs).0 == log + evs[..m] && (InsertMany(log, evs).1 ==> m == |evs|)
  {
    if evs == [] {
      m := 0;
      assert log + evs[..0] == log;
    } else {
      var init := evs[..|evs| - 1];
      m := InsertPrefix(log, init);
      assert evs[..m] == init[..m];
      if InsertMany(log, evs).1 {
        m := |evs|;
        assert evs[..m] == init + [evs[m - 1]];
        Assoc(log, init, [evs[m - 1]]);
      }
    }
  }

  lemma {:induction false} HistoryGrows(log: seq<Event>, evs: seq<Event>, eid: string)
    ensures |History(log + evs, eid)| >= |History(log, eid)|
    ensures evs != [] && evs[0].entityId == eid ==> |History(log + evs, eid)| > |History(log, eid)|
  {
    if evs == [] {
      assert log + evs == log;
    } else {
      var n := |evs| - 1;
      HistoryGrows(log, evs[..n], eid);
      assert log + evs == log + evs[..n] + [evs[n]];
      HistorySnoc(log + evs[..n], evs[n], eid);
    }
  }

  /** A batch whose insert is refused part-way leaves events that cur_* does not
      know of; it keeps the two in step exactly when nothing was inserted. */
  lemma RefusedBatchGoesStale(env: Env, s: Store, f: Fold)
    requires Numbered(s) && f.events != [] && !InsertMany(s.log, f.events).1
    ensures Numbered(WriteBack(env, s, f).0) <==> InsertMany(s.log, f.events).0 == s.log
  {
    var m := InsertPrefix(s.log, f.events);
    var t := WriteBack(env, s, f).0;
    hide InsertMany;
    if m == 0 {
      assert s.log + f.events[..0] == s.log;
    } else {
      var eid := f.events[0].entityId;
      HistoryGrows(s.log, f.events[..m], eid);
      assert EntityNumbered(s, eid);
      assert !EntityNumbered(t, eid);
    }
  }

  lemma WriteBackMirrors(env: Env, s: Store, f: Fold, t: Store)
    requires StoreMirrors(env, s, t, f) && (f.events == [] ==> f.finals == map[] && f.snaps == [])
    ensures WriteBack(env, s, f) == (t, f.errs)
  {
    if f.events == [] {
      assert s.log + [] == s.log && s.cur + map[] == s.cur;
    }
  }

  // ----------------------------------------------------------------- as it runs

  method RunHooks(env: Env, ev: Event, last: Option<Event>) returns (r: Result<Event, Fault>)
    ensures r == RunPreStore(env, env.cfg.hooks, ev, last)
  {
    var hooks := env.cfg.hooks;
    var draft := ev;
    for i := 0 to |hooks|
      invariant RunPreStore(env, hooks[..i], ev, last) == Ok(draft)
    {
      assert hooks[..i + 1][..i] == hooks[..i];
      if !hooks[i].enabled { continue; }
      var out := RunPlugin(env, hooks[i].plugin, draft, last);
      if out.None? {
        if hooks[i].failClosed {
          HooksStop(env, hooks, ev, last, i + 1);
          return Err(FailClosed);
        }
      } else {
        draft := out.value;
      }
    }
    assert hooks[..|hooks|] == hooks;
    return Ok(draft);
  }

  lemma {:induction false} HooksStop(env: Env, hooks: seq<Hook>, ev: Event, last: Option<Event>, i: nat)
    requires i <= |hooks| && RunPreStore(env, hooks[..i], ev, last).Err?
    ensures RunPreStore(env, hooks, ev, last) == RunPreStore(env, hooks[..i], ev, last)
    decreases |hooks| - i
  {
    if i == |hooks| {
      assert hooks[..i] == hooks;
    } else {
      assert hooks[..i + 1][..i] == hooks[..i];
      HooksStop(env, hooks, ev, last, i + 1);
    }
  }

  /** The loop body, on the fold's variables. */
  method FoldOne(env: Env, s: Store, f: Fold, input: Input) returns (g: Fold)
    ensures g == FoldStep(env, s, f, input)
  {
    hide PlanEvent, LastEvent;
    var Fold(running, lastEv, finals, events, eventIdx, snaps, errs) := f;
    var hasPre := HasPreStore(env.cfg);
    var cmd := input.cmd;
    var eid := cmd.entityId;
    if eid !in running {
      running := running[eid := GetCur(s, eid)];
      if hasPre {
        lastEv := lastEv[eid := LastEvent(s.log, eid)];
      }
    }
    var cur := running[eid];
    ghost var loaded := Fold(running, lastEv, finals, events, eventIdx, snaps, errs);
    match PlanEvent(env.cfg, cmd, cur, input.now) {
    case Rejected(x) => errs := errs + [Some(x)];
    case NoChange => errs := errs + [None];
    case Planned(planned, state, deleted) =>
      PlannedFor(env.cfg, cmd, cur, input.now);
      var ev := planned.(version := CurVersion(cur) + 1);
      if hasPre {
        var last := if eid in lastEv then lastEv[eid] else None;
        var hooked := RunHooks(env, ev, last);
        assert Local(env, loaded, cur, planned) == hooked;
        if hooked.Err? {
          g := Fold(running, lastEv, finals, events, eventIdx, snaps, errs + [Some(hooked.error)]);
          return;
        }
        HooksKeepEvent(env, env.cfg.hooks, ev, last);
        ev := hooked.value;
        lastEv := lastEv[eid := Some(ev)];
      }
      events, eventIdx, errs := events + [ev], eventIdx + [|errs|], errs + [None];
      snaps := snaps + [Candidate(ev, state, deleted)];
      var next := Current(ev.version, ev.received, deleted, state);
      running, finals := running[eid := Some(next)], finals[eid := next];
    }
    g := Fold(running, lastEv, finals, events, eventIdx, snaps, errs);
  }

  lemma PlannedFor(cfg: Config, cmd: Command, cur: Option<Current>, now: int)
    ensures PlanEvent(cfg, cmd, cur, now).Planned? ==> PlanEvent(cfg, cmd, cur, now).ev.entityId == cmd.entityId
  {
    PlanShape(cfg, cmd, cur, now);
  }

  /** The in-memory fold over one collection's inputs. */
  method FoldInputs(env: Env, s: Store, inputs: seq<Input>) returns (f: Fold)
    ensures f == FoldAll(env, s, inputs)
  {
    hide FoldStep;
    f := START;
    for i := 0 to |inputs|
      invariant f == FoldAll(env, s, inputs[..i])
    {
      assert inputs[..i + 1][..i] == inputs[..i];
      f := FoldOne(env, s, f, inputs[i]);
    }
    assert inputs[..|inputs|] == inputs;
  }
}
