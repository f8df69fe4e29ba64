/**
 Both write paths together: any mix of single writes (internal/service/ingest.go)
 and batches (internal/service/batch.go) leaves what the same writes one by one
 leave, and gap-free versions and the hash chain survive even refused batches.
 */
module WritePaths {

  import opened Wrappers
  import opened Text
  import opened Events
  import opened Ingest
  import opened Coherence
  import opened Batch

  datatype Work = Single(input: Input) | Many(inputs: seq<Input>)

  function WorkOne(env: Env, s: Store, w: Work): Store {
    match w
    case Single(x) => ApplyOne(env, s, x.cmd, x.now).0
    case Many(inputs) => WriteBack(env, s, FoldAll(env, s, inputs)).0
  }

  function WorkAll(env: Env, s: Store, works: seq<Work>): Store {
    if works == [] then s else WorkOne(env, WorkAll(env, s, works[..|works| - 1]), works[|works| - 1])
  }

  function InputsOf(w: Work): seq<Input> {
    match w
    case Single(x) => [x]
    case Many(inputs) => inputs
  }

  /** All writes in order, however they were grouped. */
  function Flat(works: seq<Work>): seq<Input> {
    if works == [] then [] else Flat(works[..|works| - 1]) + InputsOf(works[|works| - 1])
  }

  /** Written one by one, a batch has no write refused as a repeat or for the version it expects. */
  ghost predicate Goes(env: Env, s: Store, w: Work) {
    w.Many? ==> Clear(SeqRun(env, s, w.inputs).1)
  }

  ghost predicate AllGo(env: Env, s: Store, works: seq<Work>) {
    works == [] ||
    var init := works[..|works| - 1];
    AllGo(env, s, init) && Goes(env, WorkAll(env, s, init), works[|works| - 1])
  }

  // ------------------------------------------------------------- mixing the paths

  lemma WriteKeepsNumbered(env: Env, s: Store, cmd: Command, now: int)
    requires Numbered(s)
    ensures Numbered(ApplyOne(env, s, cmd, now).0)
  {
    var cur := GetCur(s, cmd.entityId);
    var p := PlanEvent(env.cfg, cmd, cur, now);
    hide PlanEvent, Enrich, Numbered, History;
    if p.Planned? { PlannedKeepsNumbered(env, s, p); }
  }

  lemma PlannedKeepsNumbered(env: Env, s: Store, p: Plan)
    requires Numbered(s) && p.Planned?
    ensures Numbered(ApplyPlanned(env, s, p).0)
  {
    assert EntityNumbered(s, p.ev.entityId);
    hide Numbered, RunPreStore, LastEvent, History;
    if Enrich(env, s, p.ev).Ok? {
      AppendedEvent(env, s, p);
      if !HasEventId(s.log, p.ev.eventId) {
        CommitNumbered(env, s, Appended(env, s, p), p.state, p.deleted);
      }
    }
  }

  lemma {:induction false} RunKeepsNumbered(env: Env, s: Store, inputs: seq<Input>)
    requires Numbered(s)
    ensures Numbered(RunAll(env, s, inputs))
  {
    if inputs != [] {
      var init, last := inputs[..|inputs| - 1], inputs[|inputs| - 1];
      hide Numbered, ApplyOne;
      RunKeepsNumbered(env, s, init);
      WriteKeepsNumbered(env, RunAll(env, s, init), last.cmd, last.now);
    }
  }

  lemma {:induction false} SeqIsRun(env: Env, s: Store, inputs: seq<Input>)
    ensures SeqRun(env, s, inputs).0 == RunAll(env, s, inputs)
  {
    hide ApplyOne;
    if inputs != [] { SeqIsRun(env, s, inputs[..|inputs| - 1]); }
  }

  lemma {:induction false} RunConcat(env: Env, s: Store, xs: seq<Input>, ys: seq<Input>)
    ensures RunAll(env, s, xs + ys) == RunAll(env, RunAll(env, s, xs), ys)
  {
    hide ApplyOne;
    if ys == [] {
      assert xs + ys == xs;
    } else {
      var n := |ys| - 1;
      RunConcat(env, s, xs, ys[..n]);
      assert (xs + ys)[..|xs + ys| - 1] == xs + ys[..n];
    }
  }

  lemma WorkIsRun(env: Env, s: Store, w: Work)
    requires Numbered(s) && Goes(env, s, w)
    ensures WorkOne(env, s, w) == RunAll(env, s, InputsOf(w))
  {
    match w
    case Single(x) =>
      assert [x][..0] == [] && RunAll(env, s, []) == s;
    case Many(inputs) =>
      hide FoldAll, WriteBack, SeqRun, RunAll;
      BatchRefinesExactly(env, s, inputs);
      SeqIsRun(env, s, inputs);
  }

  /** However writes are grouped into batches, the stores end up the same. */
  lemma {:induction false} GroupingIsInvisible(env: Env, s: Store, works: seq<Work>)
    requires Numbered(s) && AllGo(env, s, works)
    ensures WorkAll(env, s, works) == RunAll(env, s, Flat(works))
  {
    if works != [] {
      var init, w := works[..|works| - 1], works[|works| - 1];
      GroupingIsInvisible(env, s, init);
      hide RunAll, WorkOne, Goes, InputsOf, Numbered;
      RunKeepsNumbered(env, s, Flat(init));
      WorkIsRun(env, WorkAll(env, s, init), w);
      RunConcat(env, s, Flat(init), InputsOf(w));
    }
  }

  /** On both write paths, well-formed commands keep every cache equal to a replay. */
  lemma CachesEqualReplayOnBothPaths(env: Env, s: Store, works: seq<Work>)
    requires Good(env, s) && AllGo(env, s, works) && GoodRun(env, s, Flat(works))
    ensures Good(env, WorkAll(env, s, works))
  {
    CoherentNumbered(s);
    hide RunAll, WorkAll, AllGo, Good, GoodRun, Flat, Numbered;
    GroupingIsInvisible(env, s, works);
    RunKeepsGood(env, s, Flat(works));
  }

  // -------------------------------------------------------- with refused batches

  /** Versions count each entity's events; cur_* may lag behind. */
  ghost predicate EntityLoose(s: Store, eid: string) {
    var h := History(s.log, eid);
    Versioned(h) && (eid in s.cur ==> 0 <= s.cur[eid].version <= |h|)
  }

  ghost predicate Loose(s: Store) {
    forall eid :: EntityLoose(s, eid)
  }

  ghost predicate AllVersioned(log: seq<Event>) {
    forall eid :: Versioned(History(log, eid))
  }

  lemma LooseIsVersioned(s: Store)
    requires Loose(s)
    ensures AllVersioned(s.log)
  {
    forall eid ensures Versioned(History(s.log, eid)) { assert EntityLoose(s, eid); }
  }

  lemma NextKeepsVersioned(log: seq<Event>, ev: Event)
    requires AllVersioned(log) && ev.version == |History(log, ev.entityId)| + 1
    ensures AllVersioned(log + [ev])
  {
    forall eid ensures Versioned(History(log + [ev], eid)) {
      HistorySnoc(log, ev, eid);
      assert Versioned(History(log, eid));
      if eid == ev.entityId { VersionedSnoc(History(log, eid), ev); }
    }
  }

  /** In a gap-free history every version up to the last is taken. */
  lemma TakenBelow(log: seq<Event>, eid: string, v: int)
    requires Versioned(History(log, eid)) && 1 <= v <= |History(log, eid)|
    ensures HasVersion(log, eid, v)
  {
    var h := History(log, eid);
    assert h[v - 1] in h;
    var i :| 0 <= i < |log| && log[i] == h[v - 1];
  }

  lemma CommitLoose(env: Env, s: Store, ev: Event, state: State, deleted: bool)
    requires Loose(s) && ev.version == |History(s.log, ev.entityId)| + 1
    ensures Loose(Commit(env, s, ev, state, deleted))
  {
    var t := Commit(env, s, ev, state, deleted);
    forall eid ensures EntityLoose(t, eid) {
      assert EntityLoose(s, eid);
      HistorySnoc(s.log, ev, eid);
      if eid == ev.entityId { VersionedSnoc(History(s.log, eid), ev); }
    }
  }

  /** A single write continues the true history, however stale cur_* is. */
  lemma WriteKeepsChain(env: Env, s: Store, cmd: Command, now: int)
    requires Loose(s) && AllChained(env, s.log)
    ensures var t := ApplyOne(env, s, cmd, now).0; Loose(t) && AllChained(env, t.log)
  {
    var cur := GetCur(s, cmd.entityId);
    var p := PlanEvent(env.cfg, cmd, cur, now);
    PlanShape(env.cfg, cmd, cur, now);
    assert EntityLoose(s, cmd.entityId);
    hide PlanEvent, RunPreStore, LastEvent, AllChained, Loose, History;
    if p.Planned? {
      PlannedKeepsChained(env, s, p);
      if Enrich(env, s, p.ev).Ok? {
        AppendedEvent(env, s, p);
        if !HasEventId(s.log, p.ev.eventId) {
          CommitLoose(env, s, Appended(env, s, p), p.state, p.deleted);
        }
      }
    }
  }

  // ------------------------------------------------------- the fold of any batch

  /** What the fold knows of a loaded entity: nothing of it has been numbered yet, or
      its running version counts the true history; its last event is the true one. */
  ghost predicate Tracks(env: Env, s: Store, f: Fold, log: seq<Event>, eid: string)
    requires eid in f.running
  {
    && ((UntouchedBy(f.events, eid) && f.running[eid] == GetCur(s, eid)) ||
        (f.running[eid].Some? && f.running[eid].value.version == |History(log, eid)|))
    && (HasPreStore(env.cfg) ==> eid in f.lastEv && f.lastEv[eid] == LastEvent(log, eid))
  }

  ghost predicate LogOk(env: Env, log: seq<Event>) {
    AllVersioned(log) && AllChained(env, log)
  }

  ghost predicate FinalOk(f: Fold, log: seq<Event>, eid: string) {
    eid in f.finals ==> 0 <= f.finals[eid].version <= |History(log, eid)|
  }

  /** The fold's tables agree with the log its events would leave. */
  ghost predicate Follows(env: Env, s: Store, f: Fold) {
    var log := s.log + f.events;
    && LogOk(env, log)
    && (forall eid <- f.running :: Tracks(env, s, f, log, eid))
    && (forall eid | eid !in f.running :: UntouchedBy(f.events, eid))
    && (forall eid :: FinalOk(f, log, eid))
  }

  lemma LoadFollows(env: Env, s: Store, f: Fold, eid: string)
    requires Follows(env, s, f) && eid !in f.running
    ensures Follows(env, s, Load(env, s, f, eid))
  {
    var g, log := Load(env, s, f, eid), s.log + f.events;
    hide LogOk, History, UntouchedBy, Tracks, LastEvent;
    forall x <- g.running ensures Tracks(env, s, g, log, x) {
      if x == eid { LoadTracks(env, s, f, log, eid); } else { LoadKeeps(env, s, f, log, eid, x); }
    }
    assert forall x :: FinalOk(f, log, x) ==> FinalOk(g, log, x);
  }

  lemma LoadTracks(env: Env, s: Store, f: Fold, log: seq<Event>, eid: string)
    requires UntouchedBy(f.events, eid) && log == s.log + f.events
    ensures Tracks(env, s, Load(env, s, f, eid), log, eid)
  {
    UntouchedHistory(s.log, f.events, eid);
    hide History, UntouchedBy;
  }

  lemma LoadKeeps(env: Env, s: Store, f: Fold, log: seq<Event>, eid: string, x: string)
    requires x in f.running && x != eid && Tracks(env, s, f, log, x)
    ensures Tracks(env, s, Load(env, s, f, eid), log, x)
  {
    hide History, UntouchedBy, LastEvent;
  }

  lemma RunningVersion(env: Env, s: Store, f: Fold, eid: string)
    requires Loose(s) && Follows(env, s, f) && eid in f.running
    ensures 0 <= CurVersion(f.running[eid]) <= |History(s.log + f.events, eid)|
  {
    var log := s.log + f.events;
    assert Tracks(env, s, f, log, eid);
    assert EntityLoose(s, eid);
    if UntouchedBy(f.events, eid) { UntouchedHistory(s.log, f.events, eid); }
  }

  /** The event the fold records, seen from the log so far: it links to the true
      predecessor, and if its number is free it is the next. */
  lemma LocalContinues(env: Env, s: Store, f: Fold, ev: Event)
    requires Loose(s) && Follows(env, s, f) && ev.entityId in f.running && ev.integrity.None?
    requires Local(env, f, f.running[ev.entityId], ev).Ok?
    ensures var log, h, e := s.log + f.events, History(s.log + f.events, ev.entityId), Local(env, f, f.running[ev.entityId], ev).value;
      && e.entityId == ev.entityId && e.received == ev.received
      && LinkedAt(env, h + [e], |h|)
      && (!HasVersion(log, e.entityId, e.version) ==> e.version == |h| + 1)
  {
    var eid := ev.entityId;
    var log, v := s.log + f.events, CurVersion(f.running[eid]) + 1;
    var t := s.(log := log);
    RunningVersion(env, s, f, eid);
    assert Tracks(env, s, f, log, eid);
    assert Versioned(History(log, eid)) && Chained(env, History(log, eid));
    assert HasPreStore(env.cfg) ==> LastKnown(f, eid) == LastEvent(log, eid);
    hide RunPreStore, LastEvent, History, Chained, LinkedAt, Versioned, Follows, Tracks, Loose, HasVersion, LastKnown;
    HooksIgnoreVersion(env, env.cfg.hooks, ev, LastKnown(f, eid), v);
    EnrichKeepsEvent(env, t, ev);
    assert Enrich(env, t, ev).Ok? && Local(env, f, f.running[eid], ev).value == Enrich(env, t, ev).value.(version := v);
    hide Enrich, Local;
    EnrichedLinks(env, t, ev, v);
    if v <= |History(log, eid)| { TakenBelow(log, eid, v); }
  }

  lemma RecordFollows(env: Env, s: Store, f: Fold, e: Event, state: State, deleted: bool)
    requires Follows(env, s, f) && e.entityId in f.running
    requires var h := History(s.log + f.events, e.entityId); e.version == |h| + 1 && LinkedAt(env, h + [e], |h|)
    ensures Follows(env, s, Record(f, e, state, deleted, HasPreStore(env.cfg)))
  {
    var g, log := Record(f, e, state, deleted, HasPreStore(env.cfg)), s.log + f.events;
    Assoc(s.log, f.events, [e]);
    LogContinues(env, s, log, e, state, deleted);
    hide LogOk, LinkedAt, History, UntouchedBy, Tracks, FinalOk;
    forall x <- g.running ensures Tracks(env, s, g, log + [e], x) {
      VersionedIn(env, log + [e], x);
      RecordTracks(env, s, f, log, e, state, deleted, x);
    }
    forall x | x !in g.running ensures UntouchedBy(g.events, x) { UntouchedSnoc(f.events, e, x); }
    forall x ensures FinalOk(g, log + [e], x) { RecordFinal(env, f, log, e, state, deleted, x); }
  }

  lemma LogContinues(env: Env, s: Store, log: seq<Event>, e: Event, state: State, deleted: bool)
    requires LogOk(env, log)
    requires var h := History(log, e.entityId); e.version == |h| + 1 && LinkedAt(env, h + [e], |h|)
    ensures LogOk(env, log + [e])
  {
    NextKeepsVersioned(log, e);
    CommitChained(env, s.(log := log), e, state, deleted);
    hide AllVersioned, AllChained;
  }

  lemma RecordFinal(env: Env, f: Fold, log: seq<Event>, e: Event, state: State, deleted: bool, x: string)
    requires FinalOk(f, log, x) && e.version == |History(log, e.entityId)| + 1
    ensures FinalOk(Record(f, e, state, deleted, HasPreStore(env.cfg)), log + [e], x)
  {
    HistorySnoc(log, e, x);
  }

  lemma VersionedIn(env: Env, log: seq<Event>, eid: string)
    requires LogOk(env, log)
    ensures Versioned(History(log, eid))
  {
  }

  lemma RecordTracks(env: Env, s: Store, f: Fold, log: seq<Event>, e: Event, state: State, deleted: bool, x: string)
    requires e.entityId in f.running && x in f.running && Tracks(env, s, f, log, x)
    requires e.version == |History(log, e.entityId)| + 1 && Versioned(History(log + [e], x))
    ensures Tracks(env, s, Record(f, e, state, deleted, HasPreStore(env.cfg)), log + [e], x)
  {
    HistorySnoc(log, e, x);
    LastAfter(log, e, x);
    hide History, LastEvent, Tracks, Versioned, UntouchedBy;
    if x == e.entityId {
      OwnTracks(env, s, f, log, e, state, deleted);
    } else {
      assert History(log, x) + [] == History(log, x);
      if UntouchedBy(f.events, x) { UntouchedSnoc(f.events, e, x); }
      OtherTracks(env, s, f, log, e, state, deleted, x);
    }
  }

  lemma OwnTracks(env: Env, s: Store, f: Fold, log: seq<Event>, e: Event, state: State, deleted: bool)
    requires |History(log + [e], e.entityId)| == e.version && LastEvent(log + [e], e.entityId) == Some(e)
    ensures Tracks(env, s, Record(f, e, state, deleted, HasPreStore(env.cfg)), log + [e], e.entityId)
  {
    hide History, LastEvent, UntouchedBy;
  }

  lemma OtherTracks(env: Env, s: Store, f: Fold, log: seq<Event>, e: Event, state: State, deleted: bool, x: string)
    requires e.entityId in f.running && x in f.running && Tracks(env, s, f, log, x) && x != e.entityId
    requires |History(log + [e], x)| == |History(log, x)| && LastEvent(log + [e], x) == LastEvent(log, x)
    requires UntouchedBy(f.events, x) ==> UntouchedBy(f.events + [e], x)
    ensures Tracks(env, s, Record(f, e, state, deleted, HasPreStore(env.cfg)), log + [e], x)
  {
    hide History, LastEvent, UntouchedBy;
  }

  /** g continues f: no new event, or one that keeps the tables right if its number is free. */
  ghost predicate Continues(env: Env, s: Store, f: Fold, g: Fold) {
    || (g.events == f.events && Follows(env, s, g))
    || (g.events != [] && g.events[..|g.events| - 1] == f.events &&
        var e := g.events[|f.events|];
        !HasVersion(s.log + f.events, e.entityId, e.version) ==> Follows(env, s, g))
  }

  /** What one fold step adds continues the log, if it can be inserted. */
  lemma StepFollows(env: Env, s: Store, f: Fold, input: Input)
    requires Loose(s) && Follows(env, s, f)
    ensures Continues(env, s, f, FoldStep(env, s, f, input))
  {
    hide PlanEvent, RunPreStore, LastEvent, Follows, Loose, Local, HasVersion;
    var eid := input.cmd.entityId;
    if eid !in f.running {
      LoadFollows(env, s, f, eid);
      LoadedStepFollows(env, s, Load(env, s, f, eid), input);
    } else {
      LoadedStepFollows(env, s, f, input);
    }
  }

  lemma LoadedStepFollows(env: Env, s: Store, f: Fold, input: Input)
    requires Loose(s) && Follows(env, s, f) && input.cmd.entityId in f.running
    ensures Continues(env, s, f, FoldStep(env, s, f, input))
  {
    var eid := input.cmd.entityId;
    var p := PlanEvent(env.cfg, input.cmd, f.running[eid], input.now);
    PlanShape(env.cfg, input.cmd, f.running[eid], input.now);
    var x := StepIs(env, s, f, input, p);
    ReportFollows(env, s, f);
    hide FoldStep, PlanEvent, Local, LastEvent, History, Loose, Follows, HasVersion, LinkedAt;
    if p.Planned? && Local(env, f, f.running[eid], p.ev).Ok? {
      LocalContinues(env, s, f, p.ev);
      RecordContinues(env, s, f, Local(env, f, f.running[eid], p.ev).value, p.state, p.deleted);
    }
  }

  lemma StepIs(env: Env, s: Store, f: Fold, input: Input, p: Plan) returns (x: Option<Fault>)
    requires input.cmd.entityId in f.running
    requires p == PlanEvent(env.cfg, input.cmd, f.running[input.cmd.entityId], input.now)
    requires p.Planned? ==> p.ev.entityId == input.cmd.entityId
    ensures var l := if p.Planned? then Local(env, f, f.running[input.cmd.entityId], p.ev) else Err(UnknownKind);
      if l.Ok? then FoldStep(env, s, f, input) == Record(f, l.value, p.state, p.deleted, HasPreStore(env.cfg))
      else FoldStep(env, s, f, input) == Report(f, x)
  {
    hide PlanEvent, Local, Record, Report;
    match p
    case Rejected(fault) => x := Some(fault);
    case NoChange => x := None;
    case Planned(ev, _, _) =>
      var l := Local(env, f, f.running[input.cmd.entityId], ev);
      x := if l.Err? then Some(l.error) else None;
  }

  lemma RecordContinues(env: Env, s: Store, f: Fold, e: Event, state: State, deleted: bool)
    requires Follows(env, s, f) && e.entityId in f.running
    requires var h := History(s.log + f.events, e.entityId);
      && LinkedAt(env, h + [e], |h|)
      && (!HasVersion(s.log + f.events, e.entityId, e.version) ==> e.version == |h| + 1)
    ensures Continues(env, s, f, Record(f, e, state, deleted, HasPreStore(env.cfg)))
  {
    hide LinkedAt, History, HasVersion, Follows;
    if !HasVersion(s.log + f.events, e.entityId, e.version) {
      RecordFollows(env, s, f, e, state, deleted);
    }
    assert (f.events + [e])[..|f.events|] == f.events;
  }

  lemma ReportFollows(env: Env, s: Store, f: Fold)
    requires Follows(env, s, f)
    ensures forall x :: Follows(env, s, Report(f, x))
  {
    hide LogOk, History;
    forall x ensures Follows(env, s, Report(f, x)) {
      var g, log := Report(f, x), s.log + f.events;
      forall eid <- g.running ensures Tracks(env, s, g, log, eid) { assert Tracks(env, s, f, log, eid); }
      forall eid ensures FinalOk(g, log, eid) { assert FinalOk(f, log, eid); }
    }
  }

  /** Whatever is inserted of a fold's events keeps the log in order; if all of them
      are, the fold's tables agree with it. */
  lemma {:induction false} FoldFollows(env: Env, s: Store, inputs: seq<Input>)
    requires Loose(s) && AllChained(env, s.log)
    ensures var f := FoldAll(env, s, inputs); var ins := InsertMany(s.log, f.events);
      LogOk(env, ins.0) && (ins.1 ==> Follows(env, s, f) && ins.0 == s.log + f.events)
  {
    if inputs == [] {
      LooseIsVersioned(s);
      StartFollows(env, s);
    } else {
      var n := |inputs| - 1;
      var f := FoldAll(env, s, inputs[..n]);
      FoldFollows(env, s, inputs[..n]);
      if InsertMany(s.log, f.events).1 {
        StepFollows(env, s, f, inputs[n]);
        hide FoldStep, Follows, LogOk, Loose, Continues;
        InsertStep(env, s, f, FoldStep(env, s, f, inputs[n]));
      } else {
        StepExtends(env, s, f, inputs[n]);
        hide FoldStep, Follows, LogOk, Loose;
      }
    }
  }

  lemma StartFollows(env: Env, s: Store)
    requires AllVersioned(s.log) && AllChained(env, s.log)
    ensures Follows(env, s, START)
  {
    assert s.log + [] == s.log;
    forall eid ensures UntouchedBy(START.events, eid) {}
    forall eid ensures FinalOk(START, s.log, eid) {}
  }

  lemma StepExtends(env: Env, s: Store, f: Fold, input: Input)
    ensures var g := FoldStep(env, s, f, input);
      g.events == f.events || (g.events != [] && g.events[..|g.events| - 1] == f.events)
  {
    hide PlanEvent, RunPreStore, LastEvent;
  }

  lemma InsertStep(env: Env, s: Store, f: Fold, g: Fold)
    requires InsertMany(s.log, f.events) == (s.log + f.events, true) && LogOk(env, s.log + f.events)
    requires Continues(env, s, f, g)
    ensures var ins := InsertMany(s.log, g.events);
      LogOk(env, ins.0) && (ins.1 ==> Follows(env, s, g) && ins.0 == s.log + g.events)
  {
    if g.events != f.events {
      var e := g.events[|f.events|];
      assert g.events == f.events + [e];
      Assoc(s.log, f.events, [e]);
      if InsertMany(s.log, g.events).1 { FollowsLog(env, s, g); }
    }
  }

  lemma FollowsLog(env: Env, s: Store, g: Fold)
    requires Follows(env, s, g)
    ensures LogOk(env, s.log + g.events)
  {
  }

  /** A batch, refused or not, leaves gap-free versions, a linked chain and a cur_*
      that is at most stale. */
  lemma BatchKeepsChain(env: Env, s: Store, inputs: seq<Input>)
    requires Loose(s) && AllChained(env, s.log)
    ensures var t := WriteBack(env, s, FoldAll(env, s, inputs)).0; Loose(t) && AllChained(env, t.log)
  {
    var f := FoldAll(env, s, inputs);
    FoldFollows(env, s, inputs);
    hide FoldAll;
    var m := InsertPrefix(s.log, f.events);
    var t := WriteBack(env, s, f).0;
    hide InsertMany, BuildAll;
    if f.events != [] {
      forall eid ensures EntityLoose(t, eid) {
        assert EntityLoose(s, eid);
        HistoryGrows(s.log, f.events[..m], eid);
        assert f.events[..|f.events|] == f.events;
        assert Follows(env, s, f) ==> FinalOk(f, s.log + f.events, eid);
      }
    }
  }

  /** On every mix of single writes and batches, whatever the commands, whichever
      hooks fail and whichever inserts are refused, versions stay gap-free and every
      event with an integrity block links to its immediate predecessor. */
  lemma {:induction false} ChainHoldsOnBothPaths(env: Env, s: Store, works: seq<Work>)
    requires Loose(s) && AllChained(env, s.log)
    ensures var t := WorkAll(env, s, works); Loose(t) && AllChained(env, t.log)
  {
    if works != [] {
      var t, w := WorkAll(env, s, works[..|works| - 1]), works[|works| - 1];
      ChainHoldsOnBothPaths(env, s, works[..|works| - 1]);
      hide Loose, AllChained, ApplyOne, WriteBack, FoldAll;
      match w
      case Single(x) => WriteKeepsChain(env, t, x.cmd, x.now);
      case Many(inputs) => BatchKeepsChain(env, t, inputs);
    }
  }
}
