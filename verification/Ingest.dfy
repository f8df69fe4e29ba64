/**
 One write at a time (internal/service/ingest.go): plan the event, run the
 pre-store hooks (internal/plugin/host.go), append, refresh the current state
 and take a snapshot (internal/service/snapshot.go). A `Store` is what one
 collection keeps: the event log, cur_* and sn_*.
 */
module Ingest {

  import opened Wrappers
  import opened Json
  import opened Diff
  import opened Apply
  import opened Events
  import opened HashChain

  datatype Kind = KindState | KindDiff | KindDelete | KindOther

  /** `changes` is None when the client sent no change list at all. */
  datatype Command = Command(kind: Kind, entityId: string, op: Option<EntityOp>, expected: Option<int>, origin: Origin,
                             eventId: string, state: State, changes: Option<seq<Change>>)

  /** A pre-store plugin: the hash chain, or one that may only refuse, seeing
      what a draft exposes and the previous event. */
  datatype Plugin = ChainPlugin | Passive(fails: (Projection, Option<Event>) -> bool)

  datatype Hook = Hook(plugin: Plugin, enabled: bool, failClosed: bool)

  datatype Config = Config(arrayKeys: ArrayKeys, firstUpdate: bool, interval: int, hooks: seq<Hook>)

  /** The surroundings of a collection; `saves` tells which snapshot writes succeed. */
  datatype Env = Env(collection: string, cfg: Config, crypto: Crypto, saves: (string, int) -> bool)

  datatype Store = Store(log: seq<Event>, cur: map<string, Current>, snaps: map<(string, int), Snapshot>)

  datatype Fault = UnknownCollection | VersionConflict | InvalidDiff | UnknownKind | FailClosed | DuplicateKey

  datatype Outcome = Stored(version: int) | Unchanged | Deduplicated | Failed(fault: Fault)

  // ------------------------------------------------------------------- planning

  function BaseState(cur: Option<Current>): State {
    if cur.None? || cur.value.deleted then map[] else cur.value.state
  }

  function CurVersion(cur: Option<Current>): int {
    if cur.None? then 0 else cur.value.version
  }

  function VersionMatches(expected: Option<int>, current: int): bool {
    expected.None? || expected.value == current
  }

  function ResolveOp(explicit: Option<EntityOp>, cur: Option<Current>, cfg: Config): EntityOp {
    if explicit.Some? then explicit.value
    else if cur.Some? && !cur.value.deleted then Update
    else if cfg.firstUpdate then Update
    else Create
  }

  function BuildEvent(cmd: Command, op: EntityOp, changes: seq<Change>, now: int): Event {
    Event(cmd.entityId, 0, op, cmd.origin, now, cmd.eventId, changes, None)
  }

  datatype Plan = Planned(ev: Event, state: State, deleted: bool) | NoChange | Rejected(fault: Fault)

  function ChangesOf(cmd: Command): seq<Change> {
    if cmd.changes.Some? then cmd.changes.value else []
  }

  function PlanEvent(cfg: Config, cmd: Command, cur: Option<Current>, now: int): Plan {
    var base := BaseState(cur);
    match cmd.kind
    case KindState =>
      var changes := DiffOf(cfg.arrayKeys, Obj(base), Obj(cmd.state));
      if changes == [] then NoChange
      else Planned(BuildEvent(cmd, ResolveOp(cmd.op, cur, cfg), changes, now), cmd.state, false)
    case KindDiff =>
      var op := ResolveOp(cmd.op, cur, cfg);
      if op == Delete then Planned(BuildEvent(cmd, op, ChangesOf(cmd), now), base, true)
      else if op == Create && cmd.changes.None? then
        var changes := DiffOf(cfg.arrayKeys, EMPTY, Obj(cmd.state));
        if changes == [] then NoChange
        else Planned(BuildEvent(cmd, op, changes, now), cmd.state, false)
      else (match ApplyAll(Obj(base), ChangesOf(cmd))
            case Err(_) => Rejected(InvalidDiff)
            case Ok(v) =>
              if !v.Obj? then Rejected(InvalidDiff)
              else if ChangesOf(cmd) == [] then NoChange
              else Planned(BuildEvent(cmd, op, ChangesOf(cmd), now), v.fields, false))
    case KindDelete => Planned(BuildEvent(cmd, Delete, [], now), base, true)
    case KindOther => Rejected(UnknownKind)
  }

  // ---------------------------------------------------------------------- hooks

  predicate HasPreStore(cfg: Config) {
    exists i | 0 <= i < |cfg.hooks| :: cfg.hooks[i].enabled
  }

  /** One plugin's contribution: the event it leaves behind, or None on error. */
  function RunPlugin(env: Env, p: Plugin, ev: Event, last: Option<Event>): Option<Event> {
    match p
    case Passive(fails) => if fails(ProjectionOf(ev), last) then None else Some(ev)
    case ChainPlugin =>
      match PreStore(env.crypto, env.collection, ev, last)
      case None => None
      case Some(link) => Some(ev.(integrity := Some(link)))
  }

  function RunHook(env: Env, h: Hook, ev: Event, last: Option<Event>): Result<Event, Fault> {
    if !h.enabled then Ok(ev)
    else match RunPlugin(env, h.plugin, ev, last)
      case Some(e) => Ok(e)
      case None => if h.failClosed then Err(FailClosed) else Ok(ev)
  }

  /** The hooks in order; a fail-closed error stops, a fail-open one is skipped. */
  function RunPreStore(env: Env, hooks: seq<Hook>, ev: Event, last: Option<Event>): Result<Event, Fault> {
    if hooks == [] then Ok(ev)
    else match RunPreStore(env, hooks[..|hooks| - 1], ev, last)
      case Err(f) => Err(f)
      case Ok(e) => RunHook(env, hooks[|hooks| - 1], e, last)
  }

  // -------------------------------------------------------------------- storage

  function History(log: seq<Event>, eid: string): (h: seq<Event>)
    ensures forall e <- h :: e.entityId == eid && e in log
  {
    if log == [] then []
    else
      var e := log[|log| - 1];
      History(log[..|log| - 1], eid) + if e.entityId == eid then [e] else []
  }

  function Highest(h: seq<Event>): (e: Event)
    requires h != []
    ensures e in h && forall x <- h :: x.version <= e.version
  {
    var e := h[|h| - 1];
    if |h| == 1 then e
    else
      var m := Highest(h[..|h| - 1]);
      if m.version > e.version then m else e
  }

  function LastEvent(log: seq<Event>, eid: string): Option<Event> {
    var h := History(log, eid);
    if h == [] then None else Some(Highest(h))
  }

  function LastVersion(log: seq<Event>, eid: string): int {
    var last := LastEvent(log, eid);
    if last.None? then 0 else last.value.version
  }

  /** The sparse unique index on event_id. */
  predicate HasEventId(log: seq<Event>, id: string) {
    id != "" && exists i | 0 <= i < |log| :: log[i].eventId == id
  }

  /** The unique index on (entity, version). */
  predicate HasVersion(log: seq<Event>, eid: string, v: int) {
    exists i | 0 <= i < |log| :: log[i].entityId == eid && log[i].version == v
  }

  function GetCur(s: Store, eid: string): Option<Current> {
    if eid in s.cur then Some(s.cur[eid]) else None
  }

  predicate ShouldSnapshot(version: int, interval: int) {
    interval > 0 && version > 0 && version % interval == 0
  }

  function BuildSnapshot(env: Env, snaps: map<(string, int), Snapshot>, ev: Event, state: State, deleted: bool)
    : map<(string, int), Snapshot>
  {
    if ShouldSnapshot(ev.version, env.cfg.interval) && env.saves(ev.entityId, ev.version)
    then snaps[(ev.entityId, ev.version) := Snapshot(ev.received, deleted, state)]
    else snaps
  }

  /** A numbered event takes effect: log, current state, snapshot. */
  function Commit(env: Env, s: Store, ev: Event, state: State, deleted: bool): Store {
    Store(s.log + [ev],
          s.cur[ev.entityId := Current(ev.version, ev.received, deleted, state)],
          BuildSnapshot(env, s.snaps, ev, state, deleted))
  }

  // ------------------------------------------------------------------ one write

  /** The event as the hooks leave it. */
  function Enrich(env: Env, s: Store, ev: Event): Result<Event, Fault> {
    if HasPreStore(env.cfg) then RunPreStore(env, env.cfg.hooks, ev, LastEvent(s.log, ev.entityId)) else Ok(ev)
  }

  function ApplyPlanned(env: Env, s: Store, p: Plan): (Store, Outcome)
    requires p.Planned?
  {
    match Enrich(env, s, p.ev)
    case Err(f) => (s, Failed(f))
    case Ok(ev) =>
      if HasEventId(s.log, ev.eventId) then (s, Deduplicated)
      else
        var v := LastVersion(s.log, ev.entityId) + 1;
        (Commit(env, s, ev.(version := v), p.state, p.deleted), Stored(v))
  }

  function ApplyOne(env: Env, s: Store, cmd: Command, now: int): (Store, Outcome) {
    var cur := GetCur(s, cmd.entityId);
    if !VersionMatches(cmd.expected, CurVersion(cur)) then (s, Failed(VersionConflict))
    else match PlanEvent(env.cfg, cmd, cur, now)
      case Rejected(f) => (s, Failed(f))
      case NoChange => (s, Unchanged)
      case Planned(ev, state, deleted) => ApplyPlanned(env, s, Planned(ev, state, deleted))
  }

  // ------------------------------------------------------------- small facts

  lemma HistorySnoc(log: seq<Event>, e: Event, eid: string)
    ensures History(log + [e], eid) == History(log, eid) + if e.entityId == eid then [e] else []
  {
    assert (log + [e])[..|log|] == log;
  }

  lemma {:induction false} HistoryIncludes(log: seq<Event>, e: Event)
    requires e in log
    ensures e in History(log, e.entityId)
  {
    if e != log[|log| - 1] { HistoryIncludes(log[..|log| - 1], e); }
  }

  ghost predicate Versioned(h: seq<Event>) {
    forall i | 0 <= i < |h| :: h[i].version == i + 1
  }

  /** In a gap-free history the highest version is the last and counts the events. */
  lemma HighestIsLast(h: seq<Event>)
    requires Versioned(h) && h != []
    ensures Highest(h) == h[|h| - 1]
  {
    var e := Highest(h);
    var i :| 0 <= i < |h| && h[i] == e;
    assert h[|h| - 1] in h;
  }

  lemma LastOf(log: seq<Event>, eid: string)
    requires Versioned(History(log, eid))
    ensures var h := History(log, eid);
      && LastVersion(log, eid) == |h|
      && LastEvent(log, eid) == if h == [] then None else Some(h[|h| - 1])
  {
    if History(log, eid) != [] { HighestIsLast(History(log, eid)); }
  }

  /** Hooks only ever touch the integrity block. */
  lemma {:induction false} HooksKeepEvent(env: Env, hooks: seq<Hook>, ev: Event, last: Option<Event>)
    ensures RunPreStore(env, hooks, ev, last).Ok? ==>
      RunPreStore(env, hooks, ev, last).value == ev.(integrity := RunPreStore(env, hooks, ev, last).value.integrity)
  {
    if hooks != [] { HooksKeepEvent(env, hooks[..|hooks| - 1], ev, last); }
  }

  lemma EnrichKeepsEvent(env: Env, s: Store, ev: Event)
    ensures Enrich(env, s, ev).Ok? ==> Enrich(env, s, ev).value == ev.(integrity := Enrich(env, s, ev).value.integrity)
  {
    HooksKeepEvent(env, env.cfg.hooks, ev, LastEvent(s.log, ev.entityId));
  }

  /** A draft does not show its version, so numbering before or after is the same. */
  lemma {:induction false} HooksIgnoreVersion(env: Env, hooks: seq<Hook>, ev: Event, last: Option<Event>, v: int)
    ensures var r, n := RunPreStore(env, hooks, ev, last), RunPreStore(env, hooks, ev.(version := v), last);
      n == if r.Ok? then Ok(r.value.(version := v)) else r
  {
    if hooks != [] { HooksIgnoreVersion(env, hooks[..|hooks| - 1], ev, last, v); }
  }

  /** The event is what the command asked for: its entity, id, origin and time, its own
      change list if it brought one, its op if it named one. */
  predicate Carries(ev: Event, cmd: Command, now: int) {
    && ev.entityId == cmd.entityId && ev.eventId == cmd.eventId && ev.origin == cmd.origin && ev.received == now
    && (cmd.kind == KindDelete ==> ev.op == Delete && ev.changes == [])
    && (cmd.kind == KindDiff && cmd.changes.Some? ==> ev.changes == cmd.changes.value)
    && (cmd.kind == KindDiff && cmd.changes.None? && ev.op == Delete ==> ev.changes == [])
    && (cmd.kind != KindDelete && cmd.op.Some? ==> ev.op == cmd.op.value)
  }

  /** The event and the state a command leads to from the live state `base`. */
  ghost predicate LeadsTo(keys: ArrayKeys, cmd: Command, base: State, ev: Event, state: State, deleted: bool) {
    match cmd.kind
    case KindState => !deleted && state == cmd.state && ev.changes == DiffOf(keys, Obj(base), Obj(state))
    case KindDiff =>
      && (deleted <==> ev.op == Delete) && (deleted ==> state == base)
      && (!deleted && cmd.changes.Some? ==> ApplyAll(Obj(base), cmd.changes.value) == Ok(Obj(state)))
      && (!deleted && cmd.changes.None? ==> state == cmd.state && ev.changes == DiffOf(keys, EMPTY, Obj(state)))
    case KindDelete => deleted && state == base
    case KindOther => false
  }

  lemma PlanLeads(cfg: Config, cmd: Command, cur: Option<Current>, now: int)
    ensures var p := PlanEvent(cfg, cmd, cur, now);
      p.Planned? ==> Carries(p.ev, cmd, now) && LeadsTo(cfg.arrayKeys, cmd, BaseState(cur), p.ev, p.state, p.deleted)
  {
    hide DiffOf, ApplyAll;
  }

  lemma PlanShape(cfg: Config, cmd: Command, cur: Option<Current>, now: int)
    ensures var p := PlanEvent(cfg, cmd, cur, now);
      p.Planned? ==> p.ev.entityId == cmd.entityId && p.ev.eventId == cmd.eventId && p.ev.integrity == None && p.ev.received == now
  {
  }

  /** Hook i is reached, enabled and fail-closed, and its plugin fails. */
  predicate RefusedAt(env: Env, hooks: seq<Hook>, ev: Event, last: Option<Event>, i: nat)
    requires i < |hooks|
  {
    var before := RunPreStore(env, hooks[..i], ev, last);
    before.Ok? && hooks[i].enabled && hooks[i].failClosed && RunPlugin(env, hooks[i].plugin, before.value, last).None?
  }

  /** The hooks refuse an event exactly when an enabled fail-closed plugin fails;
      fail-open errors never do. */
  lemma {:induction false} RefusedExactly(env: Env, hooks: seq<Hook>, ev: Event, last: Option<Event>)
    ensures RunPreStore(env, hooks, ev, last).Err? <==> exists i | 0 <= i < |hooks| :: RefusedAt(env, hooks, ev, last, i)
  {
    if hooks != [] {
      var n := |hooks| - 1;
      var init := hooks[..n];
      RefusedExactly(env, init, ev, last);
      forall i | 0 <= i < n ensures RefusedAt(env, hooks, ev, last, i) == RefusedAt(env, init, ev, last, i) {
        assert init[..i] == hooks[..i];
      }
      if RunPreStore(env, hooks, ev, last).Err? {
        if RunPreStore(env, init, ev, last).Err? {
          var i :| 0 <= i < n && RefusedAt(env, init, ev, last, i);
          assert RefusedAt(env, hooks, ev, last, i);
        } else {
          assert RefusedAt(env, hooks, ev, last, n);
        }
      }
      if i :| 0 <= i < |hooks| && RefusedAt(env, hooks, ev, last, i) {
        if i < n { assert RefusedAt(env, init, ev, last, i); }
      }
    }
  }
}
