/**
 Events, the states they materialize into, and their replay
 (internal/domain/event.go, internal/domain/snapshot_recon.go).
 */
module Events {

  import opened Wrappers
  import opened Json
  import opened Paths
  import opened Diff
  import opened Apply

  type State = map<string, Json>

  datatype EntityOp = Create | Update | Delete

  datatype FlowRef = FlowRef(activityId: string, collection: string, entityId: string, version: int, eventId: string)

  datatype Flow = Flow(id: string, step: string, causedBy: seq<FlowRef>)

  datatype Integrity = Integrity(hash: string, prevHash: string)

  /** Client-supplied fields that ride along with an event; `source time` in
      milliseconds, absent when not supplied. */
  datatype Origin = Origin(author: string, source: string, tsSource: Option<int>, flow: Option<Flow>)

  /** Version 0 marks an event storage has not numbered yet. */
  datatype Event = Event(entityId: string, version: int, op: EntityOp, origin: Origin, received: int,
                         eventId: string, changes: seq<Change>, integrity: Option<Integrity>)

  datatype Current = Current(version: int, ts: int, deleted: bool, state: State)

  datatype Snapshot = Snapshot(ts: int, deleted: bool, state: State)

  // --------------------------------------------------------------------- replay

  /** `work` is what the next diff applies to, `report` what is shown. */
  datatype Replay = Replay(work: State, report: State, deleted: bool)

  function Start(base: State, baseDeleted: bool): Replay {
    Replay(if baseDeleted then map[] else base, base, baseDeleted)
  }

  function AsState(v: Json): State {
    if v.Obj? then v.fields else map[]
  }

  function ReplayEvent(r: Replay, ev: Event): Result<Replay, Error> {
    if ev.op == Delete then Ok(Replay(map[], r.work, true))
    else match ApplyAll(Obj(r.work), ev.changes)
      case Err(e) => Err(e)
      case Ok(v) => Ok(Replay(AsState(v), AsState(v), false))
  }

  function ReplayAll(r: Replay, evs: seq<Event>): Result<Replay, Error> {
    if evs == [] then Ok(r)
    else match ReplayAll(r, evs[..|evs| - 1])
      case Err(e) => Err(e)
      case Ok(q) => ReplayEvent(q, evs[|evs| - 1])
  }

  datatype View = View(state: State, deleted: bool)

  function Reconstruct(base: State, baseDeleted: bool, evs: seq<Event>): Result<View, Error> {
    match ReplayAll(Start(base, baseDeleted), evs)
    case Err(e) => Err(e)
    case Ok(r) => Ok(View(r.report, r.deleted))
  }

  /** Replay of a whole history. */
  function FromGenesis(evs: seq<Event>): Result<View, Error> {
    Reconstruct(map[], false, evs)
  }

  lemma ReplaySnoc(r: Replay, evs: seq<Event>, ev: Event)
    ensures ReplayAll(r, evs + [ev]) ==
            match ReplayAll(r, evs) case Err(e) => Err(e) case Ok(q) => ReplayEvent(q, ev)
  {
    assert (evs + [ev])[..|evs|] == evs;
  }

  lemma {:induction false} ReplayConcat(r: Replay, xs: seq<Event>, ys: seq<Event>)
    ensures ReplayAll(r, xs + ys) ==
            match ReplayAll(r, xs) case Err(e) => Err(e) case Ok(q) => ReplayAll(q, ys)
    decreases |ys|
  {
    if ys == [] {
      assert xs + ys == xs;
    } else {
      var init, y := ys[..|ys| - 1], ys[|ys| - 1];
      assert ys == init + [y] && xs + ys == xs + init + [y];
      ReplayConcat(r, xs, init);
      ReplaySnoc(r, xs + init, y);
    }
  }

  /** What a replay shows determines how it goes on. */
  ghost predicate Resumable(r: Replay) {
    r == Start(r.report, r.deleted)
  }

  lemma {:induction false} ReplayResumable(r: Replay, evs: seq<Event>)
    requires Resumable(r)
    ensures ReplayAll(r, evs).Ok? ==> Resumable(ReplayAll(r, evs).value)
  {
    if evs != [] {
      ReplayResumable(r, evs[..|evs| - 1]);
    }
  }

  /** Reconstruction composes over any split, including one right after a delete. */
  lemma ReconstructSplit(base: State, baseDeleted: bool, xs: seq<Event>, ys: seq<Event>)
    ensures Reconstruct(base, baseDeleted, xs + ys) ==
            match Reconstruct(base, baseDeleted, xs)
            case Err(e) => Err(e)
            case Ok(v) => Reconstruct(v.state, v.deleted, ys)
  {
    ReplayConcat(Start(base, baseDeleted), xs, ys);
    ReplayResumable(Start(base, baseDeleted), xs);
  }

  method ReconstructEvents(base: State, baseDeleted: bool, evs: seq<Event>) returns (r: Result<View, Error>)
    ensures r == Reconstruct(base, baseDeleted, evs)
  {
    var work := if baseDeleted then map[] else base;
    var report := base;
    var deleted := baseDeleted;
    for i := 0 to |evs|
      invariant ReplayAll(Start(base, baseDeleted), evs[..i]) == Ok(Replay(work, report, deleted))
    {
      assert evs[..i + 1][..i] == evs[..i];
      if evs[i].op == Delete {
        report := work;
        work := map[];
        deleted := true;
      } else {
        var applied := ApplyAll(Obj(work), evs[i].changes);
        if applied.Err? {
          ReplayConcat(Start(base, baseDeleted), evs[..i + 1], evs[i + 1..]);
          assert evs == evs[..i + 1] + evs[i + 1..];
          return Err(applied.error);
        }
        work := AsState(applied.value);
        report := work;
        deleted := false;
      }
    }
    assert evs[..|evs|] == evs;
    return Ok(View(report, deleted));
  }
}
