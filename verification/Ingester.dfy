/**
 The write service over all collections (internal/service/ingest.go,
 internal/service/batch.go, internal/service/snapshot.go): single writes and
 batches, as they change the stores.
 */
module Ingester {

  import opened Wrappers
  import opened Events
  import opened Ingest
  import opened Coherence
  import opened Batch

  datatype Item = Item(collection: string, input: Input)

  type World = map<string, Store>

  // --------------------------------------------------------------- one at a time

  /** One write against the collection it names. */
  function WorldStep(envs: map<string, Env>, w: World, item: Item): (r: (World, Outcome))
    requires w.Keys == envs.Keys
    ensures r.0.Keys == w.Keys
  {
    var c := item.collection;
    if c !in envs then (w, Failed(UnknownCollection))
    else
      var step := ApplyOne(envs[c], w[c], item.input.cmd, item.input.now);
      (w[c := step.0], step.1)
  }

  /** The items applied one by one in arrival order. */
  function WorldRun(envs: map<string, Env>, w: World, items: seq<Item>): (r: (World, seq<Outcome>))
    requires w.Keys == envs.Keys
    ensures r.0.Keys == w.Keys && |r.1| == |items|
  {
    if items == [] then (w, [])
    else
      var before := WorldRun(envs, w, items[..|items| - 1]);
      var step := WorldStep(envs, before.0, items[|items| - 1]);
      (step.0, before.1 + [step.1])
  }

  // ------------------------------------------------------------ by collection

  /** Where a collection's items stand, in arrival order. */
  function Indices(items: seq<Item>, c: string): (r: seq<nat>)
    ensures forall i | 0 <= i < |r| :: r[i] < |items| && items[r[i]].collection == c
    ensures forall i, j | 0 <= i < j < |r| :: r[i] < r[j]
  {
    if items == [] then []
    else
      var n := |items| - 1;
      Indices(items[..n], c) + if items[n].collection == c then [n] else []
  }

  lemma {:induction false} IndicesComplete(items: seq<Item>, k: nat)
    requires k < |items|
    ensures k in Indices(items, items[k].collection)
  {
    if k < |items| - 1 { IndicesComplete(items[..|items| - 1], k); }
  }

  function InputsAt(items: seq<Item>, idxs: seq<nat>): (r: seq<Input>)
    requires forall i | 0 <= i < |idxs| :: idxs[i] < |items|
    ensures |r| == |idxs| && forall i | 0 <= i < |idxs| :: r[i] == items[idxs[i]].input
  {
    seq(|idxs|, i requires 0 <= i < |idxs| => items[idxs[i]].input)
  }

  /** A collection's inputs, in arrival order. */
  function Share(items: seq<Item>, c: string): seq<Input> {
    InputsAt(items, Indices(items, c))
  }

  lemma ShareSnoc(items: seq<Item>, c: string)
    requires items != []
    ensures var n := |items| - 1;
      Share(items, c) == Share(items[..n], c) + if items[n].collection == c then [items[n].input] else []
  {
  }

  lemma SeqRunSnoc(env: Env, s: Store, inputs: seq<Input>, x: Input)
    ensures var t := SeqRun(env, s, inputs); var step := ApplyOne(env, t.0, x.cmd, x.now);
      SeqRun(env, s, inputs + [x]) == (step.0, t.1 + [step.1])
  {
    assert (inputs + [x])[..|inputs|] == inputs;
  }

  /** `own` lists the outcomes at the positions `idxs`. */
  ghost predicate Picks(os: seq<Outcome>, idxs: seq<nat>, own: seq<Outcome>) {
    |idxs| == |own| && forall i | 0 <= i < |idxs| :: idxs[i] < |os| && os[idxs[i]] == own[i]
  }

  lemma PicksSnoc(os: seq<Outcome>, idxs: seq<nat>, own: seq<Outcome>, o: Outcome)
    requires Picks(os, idxs, own)
    ensures Picks(os + [o], idxs, own) && Picks(os + [o], idxs + [|os|], own + [o])
  {
  }

  /** Each collection sees the sequential run of its own items only, and they
      report what that run reports. */
  lemma {:induction false} WorldProjects(envs: map<string, Env>, w: World, items: seq<Item>, c: string)
    requires w.Keys == envs.Keys && c in envs
    ensures WorldRun(envs, w, items).0[c] == SeqRun(envs[c], w[c], Share(items, c)).0
    ensures Picks(WorldRun(envs, w, items).1, Indices(items, c), SeqRun(envs[c], w[c], Share(items, c)).1)
  {
    if items != [] {
      var n := |items| - 1;
      WorldProjects(envs, w, items[..n], c);
      ShareSnoc(items, c);
      IndicesSnoc(items, c);
      hide *;
      WorldSnoc(envs, w, items);
      StepSeen(envs, WorldRun(envs, w, items[..n]).0, items[n], c);
      var os, idxs := WorldRun(envs, w, items[..n]).1, Indices(items[..n], c);
      var own := SeqRun(envs[c], w[c], Share(items[..n], c));
      var o := WorldStep(envs, WorldRun(envs, w, items[..n]).0, items[n]).1;
      PicksSnoc(os, idxs, own.1, o);
      if items[n].collection == c {
        SeqRunSnoc(envs[c], w[c], Share(items[..n], c), items[n].input);
      } else {
        assert Share(items[..n], c) + [] == Share(items[..n], c) && idxs + [] == idxs;
      }
    }
  }

  lemma IndicesSnoc(items: seq<Item>, c: string)
    requires items != []
    ensures var n := |items| - 1;
      Indices(items, c) == Indices(items[..n], c) + (if items[n].collection == c then [n] else [])
  {
  }

  lemma WorldSnoc(envs: map<string, Env>, w: World, items: seq<Item>)
    requires w.Keys == envs.Keys && items != []
    ensures var n := |items| - 1;
      var before := WorldRun(envs, w, items[..n]);
      var step := WorldStep(envs, before.0, items[n]);
      WorldRun(envs, w, items) == (step.0, before.1 + [step.1])
  {
    hide WorldStep;
  }

  /** One item, as one of the collections sees it. */
  lemma StepSeen(envs: map<string, Env>, w: World, item: Item, c: string)
    requires w.Keys == envs.Keys && c in envs
    ensures var step := WorldStep(envs, w, item);
      if item.collection == c then (step.0[c], step.1) == ApplyOne(envs[c], w[c], item.input.cmd, item.input.now)
      else step.0[c] == w[c]
  {
    hide ApplyOne;
  }

  lemma {:induction false} UnknownFails(envs: map<string, Env>, w: World, items: seq<Item>, k: nat)
    requires w.Keys == envs.Keys && k < |items| && items[k].collection !in envs
    ensures WorldRun(envs, w, items).1[k] == Failed(UnknownCollection)
  {
    hide ApplyOne;
    if k < |items| - 1 { UnknownFails(envs, w, items[..|items| - 1], k); }
  }

  // ----------------------------------------------------------------- the service

  method InsertOrdered(log: seq<Event>, evs: seq<Event>) returns (stored: seq<Event>, ok: bool)
    ensures (stored, ok) == InsertMany(log, evs)
  {
    stored, ok := log, true;
    for i := 0 to |evs|
      invariant (stored, ok) == InsertMany(log, evs[..i]) && ok
    {
      assert evs[..i + 1][..i] == evs[..i];
      if HasVersion(stored, evs[i].entityId, evs[i].version) || HasEventId(stored, evs[i].eventId) {
        ok := false;
        InsertStays(log, evs, i + 1);
        return;
      }
      stored := stored + [evs[i]];
    }
    assert evs[..|evs|] == evs;
  }

  lemma {:induction false} InsertStays(log: seq<Event>, evs: seq<Event>, i: nat)
    requires i <= |evs| && !InsertMany(log, evs[..i]).1
    ensures InsertMany(log, evs) == InsertMany(log, evs[..i])
    decreases |evs| - i
  {
    if i == |evs| {
      assert evs[..i] == evs;
    } else {
      assert evs[..i + 1][..i] == evs[..i];
      InsertStays(log, evs, i + 1);
    }
  }

  /** The current states, one upsert per entity in whatever order. */
  method UpsertAll(cur: map<string, Current>, finals: map<string, Current>) returns (r: map<string, Current>)
    ensures r == cur + finals
  {
    r := cur;
    var todo := finals.Keys;
    while todo != {}
      invariant todo <= finals.Keys
      invariant forall eid :: eid in r <==> eid in cur || eid in finals.Keys - todo
      invariant forall eid <- r :: r[eid] == if eid in finals.Keys - todo then finals[eid] else cur[eid]
    {
      var eid :| eid in todo;
      r := r[eid := finals[eid]];
      todo := todo - {eid};
    }
  }

  method SnapshotAll(env: Env, snaps: map<(string, int), Snapshot>, cs: seq<Candidate>)
    returns (r: map<(string, int), Snapshot>)
    ensures r == BuildAll(env, snaps, cs)
  {
    r := snaps;
    for i := 0 to |cs|
      invariant r == BuildAll(env, snaps, cs[..i])
    {
      assert cs[..i + 1][..i] == cs[..i];
      if ShouldSnapshot(cs[i].ev.version, env.cfg.interval) && env.saves(cs[i].ev.entityId, cs[i].ev.version) {
        r := r[(cs[i].ev.entityId, cs[i].ev.version) := Snapshot(cs[i].ev.received, cs[i].deleted, cs[i].state)];
      }
    }
    assert cs[..|cs|] == cs;
  }

  /** The fold's results go to the stores. */
  method StoreFold(env: Env, s: Store, f: Fold) returns (t: Store, errs: seq<Option<Fault>>)
    ensures (t, errs) == WriteBack(env, s, f)
  {
    if f.events == [] {
      return s, f.errs;
    }
    var log, ok := InsertOrdered(s.log, f.events);
    if !ok {
      return s.(log := log), Taint(f.errs, f.eventIdx, DuplicateKey);
    }
    var cur := UpsertAll(s.cur, f.finals);
    var snaps := SnapshotAll(env, s.snaps, f.snaps);
    return Store(log, cur, snaps), f.errs;
  }

  lemma FoldLength(env: Env, s: Store, inputs: seq<Input>)
    ensures |WriteBack(env, s, FoldAll(env, s, inputs)).1| == |inputs|
  {
    assert inputs[..|inputs|] == inputs;
    FoldGathers(env, s, inputs, |inputs|);
  }

  class Service {
    const envs: map<string, Env>
    var world: World

    ghost predicate Valid()
      reads this
    {
      world.Keys == envs.Keys
    }

    constructor (envs: map<string, Env>)
      ensures Valid() && this.envs == envs && forall c <- world :: world[c] == NOTHING
    {
      this.envs := envs;
      this.world := map c | c in envs :: NOTHING;
    }

    /** One write: plan, hooks, append, refresh, snapshot. */
    method ApplyOne(item: Item) returns (o: Outcome)
      requires Valid()
      modifies this
      ensures Valid() && (world, o) == WorldStep(envs, old(world), item)
    {
      hide PlanEvent, RunPreStore, LastEvent;
      var c, cmd := item.collection, item.input.cmd;
      if c !in envs {
        return Failed(UnknownCollection);
      }
      var env, s := envs[c], world[c];
      assert world[c := s] == world;
      var cur := GetCur(s, cmd.entityId);
      if !VersionMatches(cmd.expected, CurVersion(cur)) {
        return Failed(VersionConflict);
      }
      var p := PlanEvent(env.cfg, cmd, cur, item.input.now);
      if p.Rejected? {
        return Failed(p.fault);
      }
      if p.NoChange? {
        return Unchanged;
      }
      var ev := p.ev;
      if HasPreStore(env.cfg) {
        var hooked := RunHooks(env, ev, LastEvent(s.log, ev.entityId));
        if hooked.Err? {
          return Failed(hooked.error);
        }
        ev := hooked.value;
      }
      if HasEventId(s.log, ev.eventId) {
        return Deduplicated;
      }
      ev := ev.(version := LastVersion(s.log, ev.entityId) + 1);
      ghost var committed := Commit(env, s, ev, p.state, p.deleted);
      hide ShouldSnapshot, History;
      world := world[c := s.(log := s.log + [ev])];
      world := world[c := world[c].(cur := s.cur[ev.entityId := Current(ev.version, ev.received, p.deleted, p.state)])];
      if ShouldSnapshot(ev.version, env.cfg.interval) && env.saves(ev.entityId, ev.version) {
        world := world[c := world[c].(snaps := s.snaps[(ev.entityId, ev.version) := Snapshot(ev.received, p.deleted, p.state)])];
      }
      assert p == Planned(p.ev, p.state, p.deleted);
      assert world == old(world)[c := committed];
      return Stored(ev.version);
    }

    /** One collection's items: fold, insert, refresh; faults go to their items. */
    method BatchCollection(c: string, items: seq<Item>, idxs: seq<nat>, errs: array<Option<Fault>>)
      requires Valid() && errs.Length == |items| && idxs == Indices(items, c)
      modifies this, errs
      ensures Valid()
      ensures c !in envs ==> world == old(world) && forall i | 0 <= i < |idxs| :: errs[idxs[i]] == Some(UnknownCollection)
      ensures c in envs ==>
        var r := WriteBack(envs[c], old(world)[c], FoldAll(envs[c], old(world)[c], Share(items, c)));
        && world == old(world)[c := r.0]
        && |r.1| == |idxs| && forall i | 0 <= i < |idxs| :: errs[idxs[i]] == r.1[i]
      ensures forall k | 0 <= k < |items| && items[k].collection != c :: errs[k] == old(errs[k])
    {
      if c !in envs {
        Scatter(idxs, seq(|idxs|, _ => Some(UnknownCollection)), errs);
        return;
      }
      hide *;
      var f := FoldInputs(envs[c], world[c], InputsAt(items, idxs));
      var t, faults := StoreFold(envs[c], world[c], f);
      assert |faults| == |idxs| by { FoldLength(envs[c], world[c], InputsAt(items, idxs)); }
      world := world[c := t];
      Scatter(idxs, faults, errs);
    }

    /** The whole batch, grouped by collection: each collection takes its share in one go. */
    method IngestBatch(items: seq<Item>) returns (errs: array<Option<Fault>>)
      requires Valid()
      modifies this
      ensures Valid() && fresh(errs) && errs.Length == |items|
      ensures BatchDone(envs, old(world), items, world, errs[..])
    {
      hide FoldAll, WriteBack, Indices, InputsAt, Share, FirstSight, ShareDone, BatchDone;
      errs := new Option<Fault>[|items|](_ => None);
      var order, byColl := Group(items);
      ghost var w := world;
      for j := 0 to |order|
        invariant Valid() && TurnsDone(envs, w, items, world, errs[..], order[..j])
      {
        hide TurnsDone;
        var c := order[j];
        ghost var was, before := errs[..], world;
        BatchCollection(c, items, byColl[c], errs);
        assert order[..j + 1] == order[..j] + [c];
        TurnDone(envs, w, items, before, was, world, errs[..], order[..j], c);
      }
      hide *;
      assert order[..|order|] == order;
      AllDone(envs, w, items, world, errs[..], order);
    }
  }

  // ------------------------------------------------------------- what a batch does

  /** A collection has taken its share of the items. */
  ghost predicate ShareDone(envs: map<string, Env>, w: World, items: seq<Item>, v: World, errs: seq<Option<Fault>>, c: string)
    requires w.Keys == envs.Keys == v.Keys && |errs| == |items|
  {
    var idxs := Indices(items, c);
    if c !in envs then forall i | 0 <= i < |idxs| :: errs[idxs[i]] == Some(UnknownCollection)
    else
      var r := WriteBack(envs[c], w[c], FoldAll(envs[c], w[c], Share(items, c)));
      v[c] == r.0 && |r.1| == |idxs| && forall i | 0 <= i < |idxs| :: errs[idxs[i]] == r.1[i]
  }

  ghost predicate BatchDone(envs: map<string, Env>, w: World, items: seq<Item>, v: World, errs: seq<Option<Fault>>)
    requires w.Keys == envs.Keys == v.Keys && |errs| == |items|
  {
    forall c :: ShareDone(envs, w, items, v, errs, c)
  }

  lemma DoneNow(envs: map<string, Env>, w: World, items: seq<Item>, v: World, errs: seq<Option<Fault>>, c: string)
    requires w.Keys == envs.Keys == v.Keys && |errs| == |items|
    requires c !in envs ==> forall i | 0 <= i < |Indices(items, c)| :: errs[Indices(items, c)[i]] == Some(UnknownCollection)
    requires c in envs ==>
      var idxs, r := Indices(items, c), WriteBack(envs[c], w[c], FoldAll(envs[c], w[c], Share(items, c)));
      v[c] == r.0 && |r.1| == |idxs| && forall i | 0 <= i < |idxs| :: errs[idxs[i]] == r.1[i]
    ensures ShareDone(envs, w, items, v, errs, c)
  {
    hide FoldAll, WriteBack, Indices, Share;
  }

  /** Another collection's turn leaves a finished one alone. */
  lemma DoneStays(envs: map<string, Env>, w: World, items: seq<Item>, v: World, errs: seq<Option<Fault>>,
                  v': World, errs': seq<Option<Fault>>, c: string, x: string)
    requires w.Keys == envs.Keys == v.Keys == v'.Keys && |errs| == |items| == |errs'|
    requires ShareDone(envs, w, items, v, errs, x) && c != x
    requires forall d <- envs | d != c :: v'[d] == v[d]
    requires forall k | 0 <= k < |items| && items[k].collection != c :: errs'[k] == errs[k]
    ensures ShareDone(envs, w, items, v', errs', x)
  {
    hide FoldAll, WriteBack, Share;
  }

  lemma {:induction false} NoIndices(items: seq<Item>, c: string)
    requires forall k | 0 <= k < |items| :: items[k].collection != c
    ensures Indices(items, c) == []
  {
    if items != [] { NoIndices(items[..|items| - 1], c); }
  }

  /** The collections in `turns` have taken their shares, the others nothing. */
  ghost predicate TurnsDone(envs: map<string, Env>, w: World, items: seq<Item>, v: World, errs: seq<Option<Fault>>, turns: seq<string>)
    requires w.Keys == envs.Keys == v.Keys && |errs| == |items|
  {
    && (forall c <- envs | c !in turns :: v[c] == w[c])
    && (forall c | c in turns :: ShareDone(envs, w, items, v, errs, c))
  }

  lemma TurnDone(envs: map<string, Env>, w: World, items: seq<Item>, v: World, errs: seq<Option<Fault>>,
                 v': World, errs': seq<Option<Fault>>, turns: seq<string>, c: string)
    requires w.Keys == envs.Keys == v.Keys == v'.Keys && |errs| == |items| == |errs'|
    requires TurnsDone(envs, w, items, v, errs, turns) && c !in turns
    requires c !in envs ==>
      v' == v && forall i | 0 <= i < |Indices(items, c)| :: errs'[Indices(items, c)[i]] == Some(UnknownCollection)
    requires c in envs ==>
      var idxs, r := Indices(items, c), WriteBack(envs[c], v[c], FoldAll(envs[c], v[c], Share(items, c)));
      v' == v[c := r.0] && |r.1| == |idxs| && forall i | 0 <= i < |idxs| :: errs'[idxs[i]] == r.1[i]
    requires forall k | 0 <= k < |items| && items[k].collection != c :: errs'[k] == errs[k]
    ensures TurnsDone(envs, w, items, v', errs', turns + [c])
  {
    hide FoldAll, WriteBack, Indices, Share, ShareDone;
    DoneNow(envs, w, items, v', errs', c);
    forall x | x in turns ensures ShareDone(envs, w, items, v', errs', x) {
      DoneStays(envs, w, items, v, errs, v', errs', c, x);
    }
  }

  lemma AllDone(envs: map<string, Env>, w: World, items: seq<Item>, v: World, errs: seq<Option<Fault>>, order: seq<string>)
    requires w.Keys == envs.Keys == v.Keys && |errs| == |items|
    requires forall k | 0 <= k < |items| :: items[k].collection in order
    requires TurnsDone(envs, w, items, v, errs, order)
    ensures BatchDone(envs, w, items, v, errs)
  {
    forall c ensures ShareDone(envs, w, items, v, errs, c) {
      if c !in order { NoIndices(items, c); }
    }
  }

  /** Written one by one, none of the inputs is refused as a repeat or for the version it expects. */
  predicate RunsClear(env: Env, s: Store, inputs: seq<Input>) {
    Clear(SeqRun(env, s, inputs).1)
  }

  /** The stores and faults are those of the items written one by one. */
  ghost predicate Sequential(envs: map<string, Env>, w: World, items: seq<Item>, v: World, errs: seq<Option<Fault>>)
    requires w.Keys == envs.Keys
  {
    v == WorldRun(envs, w, items).0 && errs == FaultsOf(WorldRun(envs, w, items).1)
  }

  /** One collection's store and its items' faults are those of the sequential run. */
  ghost predicate Agrees(envs: map<string, Env>, w: World, items: seq<Item>, v: World, errs: seq<Option<Fault>>, c: string)
    requires w.Keys == envs.Keys == v.Keys && |errs| == |items| && c in envs
  {
    var idxs, run := Indices(items, c), WorldRun(envs, w, items);
    v[c] == run.0[c] && forall i | 0 <= i < |idxs| :: errs[idxs[i]] == FaultsOf(run.1)[idxs[i]]
  }

  lemma AgreesIs(envs: map<string, Env>, w: World, items: seq<Item>, v: World, errs: seq<Option<Fault>>, c: string)
    requires w.Keys == envs.Keys == v.Keys && |errs| == |items| && c in envs
    ensures var idxs, run := Indices(items, c), WorldRun(envs, w, items);
      Agrees(envs, w, items, v, errs, c) <==>
      v[c] == run.0[c] && forall i | 0 <= i < |idxs| :: errs[idxs[i]] == FaultsOf(run.1)[idxs[i]]
  {
    hide WorldRun, Indices, FaultsOf;
  }

  lemma AllAgree(envs: map<string, Env>, w: World, items: seq<Item>, v: World, errs: seq<Option<Fault>>)
    requires w.Keys == envs.Keys == v.Keys && |errs| == |items| && BatchDone(envs, w, items, v, errs)
    ensures Sequential(envs, w, items, v, errs) <==> forall c <- envs :: Agrees(envs, w, items, v, errs, c)
  {
    hide ShareDone, WorldRun, Indices;
    if forall c <- envs :: Agrees(envs, w, items, v, errs, c) {
      forall k | 0 <= k < |items| ensures errs[k] == FaultsOf(WorldRun(envs, w, items).1)[k] {
        assert ShareDone(envs, w, items, v, errs, items[k].collection);
        ItemAgrees(envs, w, items, v, errs, k);
      }
      assert forall c <- envs :: v[c] == WorldRun(envs, w, items).0[c];
    }
  }

  /** On one collection the batch agrees with the sequential run exactly when that
      refuses none of its items as a repeat or for the version it expects. */
  lemma ShareAgrees(envs: map<string, Env>, w: World, items: seq<Item>, v: World, errs: seq<Option<Fault>>, c: string)
    requires w.Keys == envs.Keys == v.Keys && |errs| == |items| && ShareDone(envs, w, items, v, errs, c)
    requires c in envs && Numbered(w[c])
    ensures Agrees(envs, w, items, v, errs, c) <==> RunsClear(envs[c], w[c], Share(items, c))
  {
    AgreesIs(envs, w, items, v, errs, c);
    hide *;
    WorldProjects(envs, w, items, c);
    BatchRefinesExactly(envs[c], w[c], Share(items, c));
    DoneSays(envs, w, items, v, errs, c);
    FaultsPicked(WorldRun(envs, w, items).1, Indices(items, c), SeqRun(envs[c], w[c], Share(items, c)).1, errs,
                 WriteBack(envs[c], w[c], FoldAll(envs[c], w[c], Share(items, c))).1);
    RunsClearIs(envs[c], w[c], Share(items, c));
  }

  lemma RunsClearIs(env: Env, s: Store, inputs: seq<Input>)
    ensures RunsClear(env, s, inputs) <==> Clear(SeqRun(env, s, inputs).1)
  {
  }

  lemma DoneSays(envs: map<string, Env>, w: World, items: seq<Item>, v: World, errs: seq<Option<Fault>>, c: string)
    requires w.Keys == envs.Keys == v.Keys && |errs| == |items| && ShareDone(envs, w, items, v, errs, c) && c in envs
    ensures var idxs, r := Indices(items, c), WriteBack(envs[c], w[c], FoldAll(envs[c], w[c], Share(items, c)));
      v[c] == r.0 && |r.1| == |idxs| && forall i | 0 <= i < |idxs| :: errs[idxs[i]] == r.1[i]
  {
    hide FoldAll, WriteBack, Share, Indices;
  }

  /** Faults agree at the picked positions exactly when they agree with the picked outcomes. */
  lemma FaultsPicked(os: seq<Outcome>, idxs: seq<nat>, own: seq<Outcome>, errs: seq<Option<Fault>>, faults: seq<Option<Fault>>)
    requires Picks(os, idxs, own) && |errs| == |os| && |faults| == |idxs|
    requires forall i | 0 <= i < |idxs| :: idxs[i] < |errs| && errs[idxs[i]] == faults[i]
    ensures (forall i | 0 <= i < |idxs| :: errs[idxs[i]] == FaultsOf(os)[idxs[i]]) <==> faults == FaultsOf(own)
  {
    assert forall i | 0 <= i < |idxs| :: FaultsOf(os)[idxs[i]] == FaultsOf(own)[i];
    hide FaultsOf, FaultOf;
  }

  /** The run over all collections refuses a write so exactly when some collection's own run does. */
  lemma ClearProjects(envs: map<string, Env>, w: World, items: seq<Item>)
    requires w.Keys == envs.Keys
    ensures Clear(WorldRun(envs, w, items).1) <==> forall c <- envs :: RunsClear(envs[c], w[c], Share(items, c))
  {
    OutcomeProjects(envs, w, items, Deduplicated);
    OutcomeProjects(envs, w, items, Failed(VersionConflict));
    hide WorldRun, Share, SeqRun;
  }

  /** An outcome other than an unknown collection occurs exactly in some collection's own run. */
  lemma OutcomeProjects(envs: map<string, Env>, w: World, items: seq<Item>, o: Outcome)
    requires w.Keys == envs.Keys && o != Failed(UnknownCollection)
    ensures o !in WorldRun(envs, w, items).1 <==> forall c <- envs :: o !in SeqRun(envs[c], w[c], Share(items, c)).1
  {
    var os := WorldRun(envs, w, items).1;
    hide WorldRun, Share, Indices, SeqRun;
    if o !in os {
      forall c <- envs ensures o !in SeqRun(envs[c], w[c], Share(items, c)).1 {
        WorldProjects(envs, w, items, c);
        var idxs, own := Indices(items, c), SeqRun(envs[c], w[c], Share(items, c)).1;
        forall i | 0 <= i < |own| ensures own[i] != o { assert os[idxs[i]] == own[i]; }
      }
    }
    if forall c <- envs :: o !in SeqRun(envs[c], w[c], Share(items, c)).1 {
      forall k | 0 <= k < |items| ensures os[k] != o { OutcomeIsOwn(envs, w, items, k, o); }
    }
  }

  lemma OutcomeIsOwn(envs: map<string, Env>, w: World, items: seq<Item>, k: nat, o: Outcome)
    requires w.Keys == envs.Keys && k < |items| && o != Failed(UnknownCollection)
    requires items[k].collection in envs ==>
      o !in SeqRun(envs[items[k].collection], w[items[k].collection], Share(items, items[k].collection)).1
    ensures WorldRun(envs, w, items).1[k] != o
  {
    var c := items[k].collection;
    hide WorldRun, Share, SeqRun, Indices;
    if c !in envs {
      UnknownFails(envs, w, items, k);
    } else {
      WorldProjects(envs, w, items, c);
      IndicesComplete(items, k);
      var i :| 0 <= i < |Indices(items, c)| && Indices(items, c)[i] == k;
      assert SeqRun(envs[c], w[c], Share(items, c)).1[i] != o;
    }
  }

  /** A batch is the same writes one by one, over all collections, exactly when
      none of those is refused as a repeat or for the version it expects. */
  lemma BatchIsSequence(envs: map<string, Env>, w: World, items: seq<Item>, v: World, errs: seq<Option<Fault>>)
    requires w.Keys == envs.Keys == v.Keys && |errs| == |items| && BatchDone(envs, w, items, v, errs)
    requires forall c <- envs :: Numbered(w[c])
    ensures Sequential(envs, w, items, v, errs) <==> Clear(WorldRun(envs, w, items).1)
  {
    ClearProjects(envs, w, items);
    AllAgree(envs, w, items, v, errs);
    hide Numbered, Share, ShareDone, RunsClear, WorldRun, Indices, Agrees, Sequential;
    forall c <- envs ensures Agrees(envs, w, items, v, errs, c) <==> RunsClear(envs[c], w[c], Share(items, c)) {
      assert ShareDone(envs, w, items, v, errs, c);
      ShareAgrees(envs, w, items, v, errs, c);
    }
  }

  lemma ItemAgrees(envs: map<string, Env>, w: World, items: seq<Item>, v: World, errs: seq<Option<Fault>>, k: nat)
    requires w.Keys == envs.Keys == v.Keys && |errs| == |items| && k < |items|
    requires ShareDone(envs, w, items, v, errs, items[k].collection)
    requires var c := items[k].collection; c in envs ==>
      forall i | 0 <= i < |Indices(items, c)| :: errs[Indices(items, c)[i]] == FaultsOf(WorldRun(envs, w, items).1)[Indices(items, c)[i]]
    ensures errs[k] == FaultsOf(WorldRun(envs, w, items).1)[k]
  {
    var c := items[k].collection;
    IndicesComplete(items, k);
    var i :| 0 <= i < |Indices(items, c)| && Indices(items, c)[i] == k;
    if c !in envs { UnknownFails(envs, w, items, k); }
  }

  /** Distinct event ids not yet in the log leave only the expected versions to check. */
  lemma FreshBatchIsSequence(envs: map<string, Env>, w: World, items: seq<Item>, v: World, errs: seq<Option<Fault>>)
    requires w.Keys == envs.Keys == v.Keys && |errs| == |items| && BatchDone(envs, w, items, v, errs)
    requires forall c <- envs :: Numbered(w[c])
    requires forall c <- envs :: FreshIds(w[c].log, Share(items, c))
    ensures Sequential(envs, w, items, v, errs) <==> Failed(VersionConflict) !in WorldRun(envs, w, items).1
  {
    OutcomeProjects(envs, w, items, Failed(VersionConflict));
    OutcomeProjects(envs, w, items, Deduplicated);
    hide BatchDone, Sequential, WorldRun, SeqRun, Numbered, FreshIds, Share;
    if Failed(VersionConflict) !in WorldRun(envs, w, items).1 {
      forall c <- envs ensures Deduplicated !in SeqRun(envs[c], w[c], Share(items, c)).1 {
        FreshRuns(envs[c], w[c], Share(items, c));
      }
    }
    BatchIsSequence(envs, w, items, v, errs);
  }

  // -------------------------------------------------------------------- grouping

  /** What the grouping knows of a collection after k items. */
  ghost predicate Grouped(items: seq<Item>, k: nat, byColl: map<string, seq<nat>>, c: string)
    requires k <= |items|
  {
    Indices(items[..k], c) == if c in byColl then byColl[c] else []
  }

  lemma GroupedSnoc(items: seq<Item>, k: nat, byColl: map<string, seq<nat>>, c: string)
    requires k < |items| && Grouped(items, k, byColl, c)
    ensures var x := items[k].collection;
      Grouped(items, k + 1, byColl[x := (if x in byColl then byColl[x] else []) + [k]], c)
  {
    assert items[..k + 1][..k] == items[..k];
  }

  ghost predicate AllGrouped(items: seq<Item>, k: nat, byColl: map<string, seq<nat>>)
    requires k <= |items|
  {
    forall c :: Grouped(items, k, byColl, c)
  }

  lemma AllGroupedSnoc(items: seq<Item>, k: nat, byColl: map<string, seq<nat>>)
    requires k < |items| && AllGrouped(items, k, byColl)
    ensures var x := items[k].collection;
      AllGrouped(items, k + 1, byColl[x := (if x in byColl then byColl[x] else []) + [k]])
  {
    var x, n := items[k].collection, k + 1;
    var next := byColl[x := (if x in byColl then byColl[x] else []) + [k]];
    hide Grouped;
    forall c ensures Grouped(items, n, next, c) { GroupedSnoc(items, k, byColl, c); }
  }

  lemma GroupedDone(items: seq<Item>, byColl: map<string, seq<nat>>)
    requires AllGrouped(items, |items|, byColl)
    ensures forall c <- byColl :: byColl[c] == Indices(items, c)
  {
    assert items[..|items|] == items;
    forall c <- byColl ensures byColl[c] == Indices(items, c) { assert Grouped(items, |items|, byColl, c); }
  }

  /** Each collection once, where it is first seen. */
  function FirstSight(items: seq<Item>): seq<string> {
    if items == [] then []
    else
      var n := |items| - 1;
      var before := FirstSight(items[..n]);
      if items[n].collection in before then before else before + [items[n].collection]
  }

  lemma FirstSightSnoc(items: seq<Item>, k: nat)
    requires k < |items|
    ensures var before, c := FirstSight(items[..k]), items[k].collection;
      FirstSight(items[..k + 1]) == if c in before then before else before + [c]
  {
    assert items[..k + 1][..k] == items[..k];
  }

  lemma {:induction false} FirstSightFacts(items: seq<Item>)
    ensures var order := FirstSight(items);
      && (forall k | 0 <= k < |items| :: items[k].collection in order)
      && (forall i, j | 0 <= i < j < |order| :: order[i] != order[j])
  {
    if items != [] {
      var n := |items| - 1;
      FirstSightFacts(items[..n]);
      assert forall k | 0 <= k < n :: items[..n][k] == items[k];
    }
  }

  lemma GroupStart(items: seq<Item>)
    ensures AllGrouped(items, 0, map[]) && FirstSight(items[..0]) == []
  {
    assert items[..0] == [];
  }

  /** The collections in order of first sight, and where each one's items stand. */
  method Group(items: seq<Item>) returns (order: seq<string>, byColl: map<string, seq<nat>>)
    ensures order == FirstSight(items)
    ensures forall k | 0 <= k < |items| :: items[k].collection in order
    ensures forall i, j | 0 <= i < j < |order| :: order[i] != order[j]
    ensures forall c :: c in byColl <==> c in order
    ensures forall c <- byColl :: byColl[c] == Indices(items, c)
  {
    hide *;
    GroupStart(items);
    order, byColl := [], map[];
    for k := 0 to |items|
      invariant order == FirstSight(items[..k])
      invariant forall c :: c in byColl <==> c in order
      invariant AllGrouped(items, k, byColl)
    {
      FirstSightSnoc(items, k);
      var c := items[k].collection;
      ghost var was := byColl;
      if c !in byColl {
        order := order + [c];
        byColl := byColl[c := []];
      }
      byColl := byColl[c := byColl[c] + [k]];
      assert byColl == was[c := (if c in was then was[c] else []) + [k]];
      AllGroupedSnoc(items, k, was);
    }
    assert items[..|items|] == items;
    GroupedDone(items, byColl);
    FirstSightFacts(items);
  }

  /** Puts vals[i] at position idxs[i]. */
  method Scatter(idxs: seq<nat>, vals: seq<Option<Fault>>, errs: array<Option<Fault>>)
    requires |idxs| == |vals| && forall i | 0 <= i < |idxs| :: idxs[i] < errs.Length
    requires forall i, j | 0 <= i < j < |idxs| :: idxs[i] < idxs[j]
    modifies errs
    ensures forall i | 0 <= i < |idxs| :: errs[idxs[i]] == vals[i]
    ensures forall k | 0 <= k < errs.Length && k !in idxs :: errs[k] == old(errs[k])
  {
    for i := 0 to |idxs|
      invariant forall j | 0 <= j < i :: errs[idxs[j]] == vals[j]
      invariant forall k | 0 <= k < errs.Length && k !in idxs :: errs[k] == old(errs[k])
    {
      errs[idxs[i]] := vals[i];
    }
  }
}
