/**
 Point-in-time reads (internal/service/read.go): resolve the target version,
 anchor at the nearest snapshot, replay the tail. Snapshots only make it
 faster.
 */
module Reads {

  import opened Wrappers
  import opened Events
  import opened Ingest
  import opened Coherence

  /** Time 0 stands for the zero instant, which the time filter ignores. */
  datatype Query = AtVersion(version: int) | AtTime(at: int) | Latest

  datatype Answer =
    | Reconstructed(version: int, ts: int, deleted: bool, state: State, snapshotVersion: int, eventsApplied: int)
    | NotFound
    | Broken

  // ---------------------------------------------------------------- the queries

  /** Events of one entity with version in (after, max], max <= 0 meaning no bound. */
  function Window(h: seq<Event>, after: int, max: int): seq<Event> {
    if h == [] then []
    else
      var e := h[|h| - 1];
      Window(h[..|h| - 1], after, max) + if after < e.version && (max <= 0 || e.version <= max) then [e] else []
  }

  function Received(h: seq<Event>, at: int): seq<Event> {
    if h == [] then []
    else
      var e := h[|h| - 1];
      Received(h[..|h| - 1], at) + if at == 0 || e.received <= at then [e] else []
  }

  /** Highest snapshot version at or below the target, or 0. */
  function Nearest(snaps: map<(string, int), Snapshot>, eid: string, target: int): (v: int)
    ensures v == 0 || (1 <= v <= target && (eid, v) in snaps)
    ensures forall x | v < x <= target :: (eid, x) !in snaps || x < 1
    decreases if target < 0 then 0 else target
  {
    if target <= 0 then 0 else if (eid, target) in snaps then target else Nearest(snaps, eid, target - 1)
  }

  function ResolveTarget(h: seq<Event>, q: Query): Option<int>
    requires h != []
  {
    match q
    case AtVersion(v) => Some(if v < Highest(h).version then v else Highest(h).version)
    case AtTime(at) =>
      var seen := Received(h, at);
      if seen == [] then None else Some(Highest(seen).version)
    case Latest => Some(Highest(h).version)
  }

  /** The state a replay starts from: a snapshot, or nothing at version 0. */
  function Anchor(s: Store, eid: string, at: int): View
    requires at == 0 || (eid, at) in s.snaps
  {
    if at == 0 then View(map[], false) else View(s.snaps[(eid, at)].state, s.snaps[(eid, at)].deleted)
  }

  function Answered(r: Result<View, Paths.Error>, target: int, ts: int, at: int, applied: int): Answer {
    match r
    case Err(_) => Broken
    case Ok(v) => Reconstructed(target, ts, v.deleted, v.state, at, applied)
  }

  /** `lookup` is false when the snapshot store is absent or its lookup fails. */
  function StateAt(s: Store, eid: string, q: Query, lookup: bool): Answer {
    var h := History(s.log, eid);
    if h == [] then NotFound
    else match ResolveTarget(h, q)
      case None => NotFound
      case Some(target) =>
        var at := if lookup then Nearest(s.snaps, eid, target) else 0;
        var base, tail := Anchor(s, eid, at), Window(h, at, target);
        Answered(Reconstruct(base.state, base.deleted, tail), target, TimeOf(s, eid, at, tail), at, |tail|)
  }

  /** The received time of the last event read, or the snapshot's. */
  function TimeOf(s: Store, eid: string, at: int, tail: seq<Event>): int
    requires at == 0 || (eid, at) in s.snaps
  {
    if tail != [] then tail[|tail| - 1].received else if at == 0 then 0 else s.snaps[(eid, at)].ts
  }

  // ------------------------------------------------------------------- windows

  lemma SliceOfInit(h: seq<Event>, a: nat, b: nat)
    requires a <= b < |h|
    ensures h[a..b] == h[..|h| - 1][a..b]
  {
  }

  lemma SliceSnoc(h: seq<Event>, a: nat)
    requires a < |h|
    ensures h[a..|h|] == h[..|h| - 1][a..] + [h[|h| - 1]]
  {
  }

  lemma {:induction false} WindowIs(h: seq<Event>, after: int, max: int)
    requires Versioned(h) && 0 <= after && (max <= 0 || after <= max)
    ensures var hi := if max <= 0 || max > |h| then |h| else max;
      Window(h, after, max) == if after <= hi then h[after..hi] else []
  {
    if h != [] {
      var init := h[..|h| - 1];
      WindowIs(init, after, max);
      var hi := if max <= 0 || max > |h| then |h| else max;
      if hi == |h| && after < |h| {
        SliceSnoc(h, after);
        assert init[after..|init|] == init[after..];
      } else if after <= hi < |h| {
        SliceOfInit(h, after, hi);
      }
    }
  }

  lemma {:induction false} ReceivedFrom(h: seq<Event>, at: int)
    ensures forall e <- Received(h, at) :: e in h && (at != 0 ==> e.received <= at)
    ensures forall e <- h | at == 0 || e.received <= at :: e in Received(h, at)
  {
    if h != [] { ReceivedFrom(h[..|h| - 1], at); }
  }

  /** A prefix of a history that replays also replays. */
  lemma PrefixReplays(h: seq<Event>, n: nat)
    requires n <= |h| && FromGenesis(h).Ok?
    ensures FromGenesis(h[..n]).Ok?
  {
    assert h == h[..n] + h[n..];
    ReplayConcat(Start(map[], false), h[..n], h[n..]);
  }

  // ------------------------------------------------------------- the theorems

  /** What a query asks for, said of the whole history. */
  ghost predicate Asks(h: seq<Event>, q: Query, target: int) {
    match q
    case AtVersion(v) => v >= 1 && target == if v < |h| then v else |h|
    case AtTime(at) =>
      && at != 0 && 1 <= target <= |h| && h[target - 1].received <= at
      && forall i | target <= i < |h| :: h[i].received > at
    case Latest => target == |h|
  }

  lemma TargetIs(h: seq<Event>, q: Query, target: int)
    requires Versioned(h) && h != [] && Asks(h, q, target)
    ensures ResolveTarget(h, q) == Some(target) && 1 <= target <= |h|
  {
    HighestIsLast(h);
    if q.AtTime? {
      LastReceived(h, q.at, target);
    }
  }

  /** The highest version received by a time is the last position received by it. */
  lemma LastReceived(h: seq<Event>, at: int, target: int)
    requires Versioned(h) && h != [] && Asks(h, AtTime(at), target)
    ensures ResolveTarget(h, AtTime(at)) == Some(target) && 1 <= target <= |h|
  {
    var seen := Received(h, at);
    ReceivedFrom(h, at);
    assert h[target - 1] in seen;
    var e := Highest(seen);
    hide Received;
    var i :| 0 <= i < |h| && h[i] == e;
    assert e.version == target;
  }

  /** Every answered query replays to the full-history state, whatever snapshots
      exist and whether or not they can be looked up. */
  lemma ReadEqualsReplay(s: Store, eid: string, q: Query, lookup: bool, target: int)
    requires EntityCoherent(s, eid) && (forall v :: SnapshotMatches(s, eid, v))
    requires History(s.log, eid) != [] && Asks(History(s.log, eid), q, target)
    ensures 1 <= target <= |History(s.log, eid)| && FromGenesis(History(s.log, eid)[..target]).Ok?
    ensures var r := StateAt(s, eid, q, lookup);
      && r.Reconstructed? && r.version == target && r.ts == History(s.log, eid)[target - 1].received
      && FromGenesis(History(s.log, eid)[..target]) == Ok(View(r.state, r.deleted))
      && r.snapshotVersion + r.eventsApplied == target
  {
    hide Reconstruct, Window, History, Asks, StateAt, ResolveTarget, Nearest, Versioned, FromGenesis, TimeOf;
    var h := History(s.log, eid);
    var at := if lookup then Nearest(s.snaps, eid, target) else 0;
    TargetIs(h, q, target);
    PrefixReplays(h, target);
    assert SnapshotMatches(s, eid, at);
    AnchoredReplay(h, Anchor(s, eid, at), at, target);
    AnchoredTime(s, eid, h, at, target);
    StateAtIs(s, eid, q, lookup, target);
  }

  lemma StateAtIs(s: Store, eid: string, q: Query, lookup: bool, target: int)
    requires History(s.log, eid) != [] && ResolveTarget(History(s.log, eid), q) == Some(target)
    ensures var at := if lookup then Nearest(s.snaps, eid, target) else 0;
      var base, tail := Anchor(s, eid, at), Window(History(s.log, eid), at, target);
      StateAt(s, eid, q, lookup) ==
      Answered(Reconstruct(base.state, base.deleted, tail), target, TimeOf(s, eid, at, tail), at, |tail|)
  {
    hide Reconstruct, Window, History, ResolveTarget, Nearest, TimeOf, Anchor, Answered;
  }

  lemma AnchoredTime(s: Store, eid: string, h: seq<Event>, at: int, target: int)
    requires Versioned(h) && 0 <= at <= target && 1 <= target <= |h|
    requires at == 0 || ((eid, at) in s.snaps && s.snaps[(eid, at)].ts == h[at - 1].received)
    ensures TimeOf(s, eid, at, Window(h, at, target)) == h[target - 1].received
  {
    WindowIs(h, at, target);
    hide Window, Versioned;
    if at < target { assert h[at..target][target - at - 1] == h[target - 1]; }
  }

  lemma ReplayNothing(h: seq<Event>)
    requires h == []
    ensures Reconstruct(map[], false, h) == Ok(View(map[], false))
  {
  }

  /** Replaying the tail from a faithful anchor equals replaying from genesis. */
  lemma AnchoredReplay(h: seq<Event>, base: View, at: nat, target: int)
    requires Versioned(h) && at <= target && 1 <= target <= |h|
    requires at > 0 ==> FromGenesis(h[..at]) == Ok(base)
    requires at == 0 ==> base == View(map[], false)
    ensures Reconstruct(base.state, base.deleted, Window(h, at, target)) == FromGenesis(h[..target])
    ensures |Window(h, at, target)| == target - at
  {
    hide Reconstruct;
    WindowIs(h, at, target);
    assert h[..target] == h[..at] + h[at..target];
    ReconstructSplit(map[], false, h[..at], h[at..target]);
    hide Window, Versioned;
    if at == 0 { ReplayNothing(h[..0]); }
  }

  /** A read shows the replay of the first `target` events. */
  ghost predicate Shows(h: seq<Event>, target: int, r: Answer) {
    && 1 <= target <= |h| && r.Reconstructed? && r.version == target && r.ts == h[target - 1].received
    && FromGenesis(h[..target]) == Ok(View(r.state, r.deleted)) && r.snapshotVersion + r.eventsApplied == target
  }

  lemma ReadShows(s: Store, eid: string, q: Query, lookup: bool, target: int)
    requires EntityCoherent(s, eid) && (forall v :: SnapshotMatches(s, eid, v))
    requires History(s.log, eid) != [] && Asks(History(s.log, eid), q, target)
    ensures Shows(History(s.log, eid), target, StateAt(s, eid, q, lookup))
  {
    hide EntityCoherent, SnapshotMatches, StateAt, FromGenesis, Asks, History;
    ReadEqualsReplay(s, eid, q, lookup, target);
  }

  lemma NoLookupReadsAll(s: Store, eid: string, q: Query)
    ensures StateAt(s, eid, q, false).Reconstructed? ==> StateAt(s, eid, q, false).snapshotVersion == 0
  {
  }

  /** Losing snapshots, or all of them, never changes what a read shows. */
  lemma SnapshotsOnlySpeedReads(s: Store, kept: map<(string, int), Snapshot>, eid: string, q: Query, lookup: bool, target: int)
    requires Coherent(s) && (forall k <- kept :: k in s.snaps && kept[k] == s.snaps[k])
    requires History(s.log, eid) != [] && Asks(History(s.log, eid), q, target)
    ensures var r, full := StateAt(s.(snaps := kept), eid, q, lookup), StateAt(s.(snaps := map[]), eid, q, false);
      && r.Reconstructed? && full.Reconstructed?
      && r.version == full.version == target && r.ts == full.ts && r.state == full.state && r.deleted == full.deleted
      && full.eventsApplied == target
  {
    KeptCoherent(s, kept, eid);
    KeptCoherent(s, map[], eid);
    hide Coherent, EntityCoherent, SnapshotMatches, StateAt, FromGenesis, Asks, History;
    ReadShows(s.(snaps := kept), eid, q, lookup, target);
    ReadShows(s.(snaps := map[]), eid, q, false, target);
    NoLookupReadsAll(s.(snaps := map[]), eid, q);
  }

  lemma KeptCoherent(s: Store, kept: map<(string, int), Snapshot>, eid: string)
    requires Coherent(s) && (forall k <- kept :: k in s.snaps && kept[k] == s.snaps[k])
    ensures EntityCoherent(s.(snaps := kept), eid)
    ensures forall v :: SnapshotMatches(s.(snaps := kept), eid, v)
  {
    assert EntityCoherent(s, eid);
    forall v ensures SnapshotMatches(s.(snaps := kept), eid, v) {
      assert SnapshotMatches(s, eid, v);
    }
  }

  /** A cutoff before the first event finds nothing. */
  lemma TooEarly(s: Store, eid: string, at: int, lookup: bool)
    requires at != 0 && forall e <- History(s.log, eid) :: e.received > at
    ensures StateAt(s, eid, AtTime(at), lookup) == NotFound
  {
    var h := History(s.log, eid);
    ReceivedFrom(h, at);
    assert forall i | 0 <= i < |Received(h, at)| :: Received(h, at)[i] in Received(h, at);
  }

  lemma {:induction false} ZeroCutoffSeesAll(h: seq<Event>)
    ensures Received(h, 0) == h
  {
    if h != [] { ZeroCutoffSeesAll(h[..|h| - 1]); }
  }

  /** The zero instant is no bound to the time filter: such a read answers with the
      latest version. */
  lemma ZeroCutoffReadsLatest(s: Store, eid: string, lookup: bool)
    ensures StateAt(s, eid, AtTime(0), lookup) == StateAt(s, eid, Latest, lookup)
  {
    ZeroCutoffSeesAll(History(s.log, eid));
    hide History, Window, Reconstruct;
  }

  /** A cutoff before the first event of an entity finds nothing exactly if it is
      not the zero instant. */
  lemma TooEarlyExactly(s: Store, eid: string, at: int, lookup: bool)
    requires EntityCoherent(s, eid) && (forall v :: SnapshotMatches(s, eid, v))
    requires History(s.log, eid) != [] && forall e <- History(s.log, eid) :: e.received > at
    ensures StateAt(s, eid, AtTime(at), lookup) == NotFound <==> at != 0
  {
    if at != 0 {
      TooEarly(s, eid, at, lookup);
    } else {
      ZeroCutoffReadsLatest(s, eid, lookup);
      ReadEqualsReplay(s, eid, Latest, lookup, |History(s.log, eid)|);
    }
  }

  /** Version 0 or below is not a past version to the event filter: the whole
      history is replayed, though the answer keeps the requested number. */
  lemma NonPositiveVersionReadsAll(s: Store, eid: string, v: int, lookup: bool)
    requires EntityCoherent(s, eid) && History(s.log, eid) != [] && v <= 0
    ensures StateAt(s, eid, AtVersion(v), lookup) ==
            Reconstructed(v, s.cur[eid].ts, s.cur[eid].deleted, s.cur[eid].state, 0, |History(s.log, eid)|)
  {
    var h := History(s.log, eid);
    hide *;
    CurrentIsReplay(s, eid);
    ResolvesBelow(h, v);
    NearestBelow(s.snaps, eid, v);
    UnboundedWindow(h, v);
    StateAtIs(s, eid, AtVersion(v), lookup, v);
    AnswersWhole(s, eid, v, h, s.cur[eid]);
  }

  lemma ResolvesBelow(h: seq<Event>, v: int)
    requires Versioned(h) && h != [] && v <= 0
    ensures ResolveTarget(h, AtVersion(v)) == Some(v)
  {
    HighestVersion(h);
    hide Highest, Received, Versioned;
  }

  lemma NearestBelow(snaps: map<(string, int), Snapshot>, eid: string, v: int)
    requires v <= 0
    ensures Nearest(snaps, eid, v) == 0
  {
  }

  lemma AnswersWhole(s: Store, eid: string, v: int, h: seq<Event>, cur: Current)
    requires h != [] && cur.ts == h[|h| - 1].received && FromGenesis(h) == Ok(View(cur.state, cur.deleted))
    ensures var base := Anchor(s, eid, 0);
      Answered(Reconstruct(base.state, base.deleted, h), v, TimeOf(s, eid, 0, h), 0, |h|) ==
      Reconstructed(v, cur.ts, cur.deleted, cur.state, 0, |h|)
  {
    hide Reconstruct;
  }

  lemma CurrentIsReplay(s: Store, eid: string)
    requires EntityCoherent(s, eid) && History(s.log, eid) != []
    ensures Versioned(History(s.log, eid)) && eid in s.cur
    ensures var h := History(s.log, eid); s.cur[eid].ts == h[|h| - 1].received
    ensures FromGenesis(History(s.log, eid)) == Ok(View(s.cur[eid].state, s.cur[eid].deleted))
  {
    hide Reconstruct, History, Versioned;
  }

  lemma HighestVersion(h: seq<Event>)
    requires Versioned(h) && h != []
    ensures Highest(h).version == |h|
  {
    HighestIsLast(h);
  }

  lemma UnboundedWindow(h: seq<Event>, v: int)
    requires Versioned(h) && v <= 0
    ensures Window(h, 0, v) == h
  {
    WindowIs(h, 0, v);
    assert h[0..|h|] == h;
  }

  // -------------------------------------------------------------- the saved tail

  /** A snapshot exists exactly at the interval's versions whose save succeeded. */
  ghost predicate SavedAt(env: Env, s: Store, eid: string, v: int) {
    (eid, v) in s.snaps <==>
      1 <= v <= |History(s.log, eid)| && ShouldSnapshot(v, env.cfg.interval) && env.saves(eid, v)
  }

  ghost predicate SavedOnInterval(env: Env, s: Store) {
    forall eid, v :: SavedAt(env, s, eid, v)
  }

  lemma WriteKeepsSaved(env: Env, s: Store, cmd: Command, now: int)
    requires SavedOnInterval(env, s) && EntityCoherent(s, cmd.entityId)
    ensures SavedOnInterval(env, ApplyOne(env, s, cmd, now).0)
  {
    var cur := GetCur(s, cmd.entityId);
    var p := PlanEvent(env.cfg, cmd, cur, now);
    PlanShape(env.cfg, cmd, cur, now);
    if p.Planned? && Enrich(env, s, p.ev).Ok? {
      AppendedEvent(env, s, p);
      CommitKeepsSaved(env, s, Appended(env, s, p), p.state, p.deleted);
    }
  }

  lemma CommitKeepsSaved(env: Env, s: Store, ev: Event, state: State, deleted: bool)
    requires SavedOnInterval(env, s) && ev.version == |History(s.log, ev.entityId)| + 1
    ensures SavedOnInterval(env, Commit(env, s, ev, state, deleted))
  {
    var t := Commit(env, s, ev, state, deleted);
    forall eid, v ensures SavedAt(env, t, eid, v) {
      assert SavedAt(env, s, eid, v);
      HistorySnoc(s.log, ev, eid);
    }
  }

  lemma {:induction false} RunKeepsSaved(env: Env, inputs: seq<Input>)
    requires GoodRun(env, NOTHING, inputs)
    ensures SavedOnInterval(env, RunAll(env, NOTHING, inputs))
  {
    if inputs != [] {
      var init, last := inputs[..|inputs| - 1], inputs[|inputs| - 1];
      RunKeepsSaved(env, init);
      CachesEqualReplay(env, init);
      assert EntityCoherent(RunAll(env, NOTHING, init), last.cmd.entityId);
      WriteKeepsSaved(env, RunAll(env, NOTHING, init), last.cmd, last.now);
    }
  }

  /** The last number from n down to 1 that satisfies p, or 0. */
  function LastWhere(p: int -> bool, n: nat): nat {
    if n == 0 || p(n) then n else LastWhere(p, n - 1)
  }

  lemma {:induction false} NearestIsLast(snaps: map<(string, int), Snapshot>, eid: string, p: int -> bool, n: nat)
    requires forall v | 1 <= v <= n :: (eid, v) in snaps <==> p(v)
    ensures Nearest(snaps, eid, n) == LastWhere(p, n)
  {
    if n > 0 {
      assert (eid, n) in snaps <==> p(n);
      if (eid, n) !in snaps { NearestIsLast(snaps, eid, p, n - 1); }
    }
  }

  lemma {:induction false} LastMultiple(k: int, n: nat)
    requires k > 0
    ensures LastWhere(v => ShouldSnapshot(v, k), n) == n - n % k
  {
    if n > 0 && n % k != 0 {
      LastMultiple(k, n - 1);
      var q := n / k;
      assert n == q * k + n % k;
      DivModUnique(n - 1, k, q, n % k - 1);
    }
  }

  lemma NearestOnInterval(env: Env, s: Store, eid: string, target: nat)
    requires SavedOnInterval(env, s) && env.cfg.interval > 0 && (forall e, v :: env.saves(e, v))
    requires target <= |History(s.log, eid)|
    ensures Nearest(s.snaps, eid, target) == target - target % env.cfg.interval
  {
    var p := v => ShouldSnapshot(v, env.cfg.interval);
    forall v | 1 <= v <= target ensures (eid, v) in s.snaps <==> p(v) {
      assert SavedAt(env, s, eid, v) && env.saves(eid, v);
    }
    NearestIsLast(s.snaps, eid, p, target);
    LastMultiple(env.cfg.interval, target);
  }

  lemma DivModUnique(n: int, k: int, q: int, r: int)
    requires k > 0 && n == q * k + r && 0 <= r < k
    ensures n % k == r
  {
    var d := n / k - q;
    assert n == (n / k) * k + n % k;
    assert d * k == r - n % k;
    MulSign(d, k);
  }

  lemma MulSign(d: int, k: int)
    requires k > 0
    ensures d >= 1 ==> d * k >= k
    ensures d <= -1 ==> d * k <= -k
  {
  }

  /** On a run from scratch with every save succeeding and interval k, a read of
      version n replays only n mod k events. */
  lemma TailIsBounded(env: Env, inputs: seq<Input>, eid: string, q: Query, target: int)
    requires GoodRun(env, NOTHING, inputs) && env.cfg.interval > 0 && (forall e, v :: env.saves(e, v))
    requires History(RunAll(env, NOTHING, inputs).log, eid) != []
    requires Asks(History(RunAll(env, NOTHING, inputs).log, eid), q, target)
    ensures var r := StateAt(RunAll(env, NOTHING, inputs), eid, q, true);
      r.Reconstructed? && r.eventsApplied == target % env.cfg.interval
  {
    var s := RunAll(env, NOTHING, inputs);
    CachesEqualReplay(env, inputs);
    RunKeepsSaved(env, inputs);
    hide RunAll, GoodRun, History, Window, ResolveTarget, Nearest, Reconstruct, SavedOnInterval, EntityCoherent, SnapshotMatches;
    assert EntityCoherent(s, eid);
    forall v ensures SnapshotMatches(s, eid, v) {}
    hide Coherent, Good, Asks, StateAt, TimeOf, FromGenesis;
    ReadEqualsReplay(s, eid, q, true, target);
    TargetIs(History(s.log, eid), q, target);
    NearestOnInterval(env, s, eid, target);
    StateAtIs(s, eid, q, true, target);
  }
}
