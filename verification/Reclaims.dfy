/**
 Reclaimed tasks (reclaim of internal/delivery/dispatcher.go): a queue hands out
 again a task that is only waiting its turn, so that it is attempted and acked, and
 then attempted once more. One delivery is then several copies. Other deliveries do
 not matter to it; without reclaims its one copy is where `Dispatch` has it.
 */
module Reclaims {

  import opened Webhooks
  import D = Dispatch

  datatype Copy = Queued(task: Task) | Waiting(task: Task) | Delivered(task: Task) | Dead(letter: Letter)

  datatype State = State(copies: seq<Copy>, posts: nat, rounds: nat, reclaims: nat)

  datatype Action =
    | Handle(i: nat, outcome: D.Outcome)
    | Reclaim(i: nat, outcome: D.Outcome)
    | Fire(i: nat, republished: bool)
    | Redeliver(i: nat, requeued: bool)

  predicate Enabled(s: State, a: Action) {
    a.i < |s.copies| &&
    match a
    case Handle(i, _) => s.copies[i].Queued?
    case Reclaim(i, _) => s.copies[i].Queued?
    case Fire(i, _) => s.copies[i].Waiting?
    case Redeliver(i, _) => s.copies[i].Dead?
  }

  predicate Sends(cfg: Config, t: Task, outcome: D.Outcome) {
    t.secretRef in cfg.secrets && outcome != D.SsrfBlocked
  }

  /** What an attempt makes of a task. */
  function After(cfg: Config, t: Task, outcome: D.Outcome): Copy {
    if t.secretRef !in cfg.secrets then Dead(Parked(t, UnknownSecret))
    else if outcome == D.SsrfBlocked then Dead(Parked(t, Blocked))
    else if outcome == D.Success then Delivered(D.Tried(t))
    else if t.attempt + 1 >= Cap(cfg, t) then Dead(Parked(D.Tried(t), Exhausted))
    else Waiting(D.Tried(t))
  }

  function One(b: bool): nat { if b then 1 else 0 }

  function Do(cfg: Config, s: State, a: Action): State
    requires Enabled(s, a)
  {
    match a
    case Handle(i, outcome) =>
      var t := s.copies[i].task;
      s.(copies := s.copies[i := After(cfg, t, outcome)], posts := s.posts + One(Sends(cfg, t, outcome)))
    case Reclaim(i, outcome) =>
      var t := s.copies[i].task;
      s.(copies := s.copies + [After(cfg, t, outcome)], posts := s.posts + One(Sends(cfg, t, outcome)),
         reclaims := s.reclaims + 1)
    case Fire(i, republished) =>
      var t := s.copies[i].task;
      s.(copies := s.copies[i := if republished then Queued(t) else Dead(Parked(t, RepublishFailed))])
    case Redeliver(i, requeued) =>
      if requeued then s.(copies := s.copies[i := Queued(Requeued(s.copies[i].letter))], rounds := s.rounds + 1) else s
  }

  predicate Schedule(cfg: Config, s: State, actions: seq<Action>)
    decreases |actions|
  {
    actions == [] || (Enabled(s, actions[0]) && Schedule(cfg, Do(cfg, s, actions[0]), actions[1..]))
  }

  function Run(cfg: Config, s: State, actions: seq<Action>): State
    requires Schedule(cfg, s, actions)
    decreases |actions|
  {
    if actions == [] then s else Run(cfg, Do(cfg, s, actions[0]), actions[1..])
  }

  function Start(t: Task): State { State([Queued(t)], 0, 0, 0) }

  lemma {:induction false} RunConcat(cfg: Config, s: State, xs: seq<Action>, ys: seq<Action>)
    requires Schedule(cfg, s, xs) && Schedule(cfg, Run(cfg, s, xs), ys)
    ensures Schedule(cfg, s, xs + ys) && Run(cfg, s, xs + ys) == Run(cfg, Run(cfg, s, xs), ys)
    decreases |xs|
  {
    hide Do, Enabled;
    if xs == [] {
      assert xs + ys == ys;
    } else {
      RunConcat(cfg, Do(cfg, s, xs[0]), xs[1..], ys);
      assert (xs + ys)[1..] == xs[1..] + ys;
    }
  }

  lemma RunOne(cfg: Config, s: State, a: Action)
    requires Enabled(s, a)
    ensures Schedule(cfg, s, [a]) && Run(cfg, s, [a]) == Do(cfg, s, a)
  {
    hide Do, Enabled;
    assert [a][1..] == [];
  }

  // ------------------------------------------------------------------- the bounds

  /** The delivery `t`, as submitted or as redelivered, but for its attempt counter. */
  predicate IsCopyOf(t: Task, x: Task) {
    x == t.(attempt := x.attempt) || x == Again(t).(attempt := x.attempt)
  }

  predicate CopyOk(cfg: Config, t: Task, rounds: nat, c: Copy) {
    match c
    case Dead(l) => l == Parked(t.(attempt := l.attempts), l.reason)
    case Delivered(x) => IsCopyOf(t, x)
    case _ => IsCopyOf(t, c.task) && c.task.attempt < Cap(cfg, c.task) && (rounds == 0 ==> c.task.maxAttempts == t.maxAttempts)
  }

  ghost predicate Inv(cfg: Config, t: Task, s: State) {
    forall c <- s.copies :: CopyOk(cfg, t, s.rounds, c)
  }

  /** The requests a copy may still make in its round. */
  function Left(cfg: Config, c: Copy): int {
    if c.Queued? || c.Waiting? then Cap(cfg, c.task) - c.task.attempt else 0
  }

  function LeftAll(cfg: Config, cs: seq<Copy>): int {
    if cs == [] then 0 else LeftAll(cfg, cs[..|cs| - 1]) + Left(cfg, cs[|cs| - 1])
  }

  lemma {:induction false} LeftUpdate(cfg: Config, cs: seq<Copy>, i: nat, c: Copy)
    requires i < |cs|
    ensures LeftAll(cfg, cs[i := c]) == LeftAll(cfg, cs) - Left(cfg, cs[i]) + Left(cfg, c)
  {
    hide Left;
    var n := |cs| - 1;
    if i < n {
      assert cs[i := c][..n] == cs[..n][i := c];
      LeftUpdate(cfg, cs[..n], i, c);
    } else {
      assert cs[i := c][..n] == cs[..n];
    }
  }

  lemma {:induction false} LeftIsNat(cfg: Config, t: Task, rounds: nat, cs: seq<Copy>)
    requires forall c <- cs :: CopyOk(cfg, t, rounds, c)
    ensures LeftAll(cfg, cs) >= 0
  {
    if cs != [] {
      LeftIsNat(cfg, t, rounds, cs[..|cs| - 1]);
      assert cs[|cs| - 1] in cs;
    }
  }

  /** The most requests one round of one copy can make. */
  function Most(cfg: Config, t: Task, rounds: nat): int {
    if rounds == 0 || cfg.maxAttempts < Cap(cfg, t) then Cap(cfg, t) else cfg.maxAttempts
  }

  /** All requests: a round for the delivery, one for each redelivery and one for each reclaim. */
  function Allowed(cfg: Config, t: Task, s: State): int {
    Cap(cfg, t) + s.rounds * cfg.maxAttempts + s.reclaims * Most(cfg, t, s.rounds)
  }

  lemma AttemptOk(cfg: Config, t: Task, rounds: nat, x: Task, outcome: D.Outcome)
    requires CopyOk(cfg, t, rounds, Queued(x))
    ensures CopyOk(cfg, t, rounds, After(cfg, x, outcome))
    ensures Left(cfg, After(cfg, x, outcome)) + One(Sends(cfg, x, outcome)) <= Left(cfg, Queued(x)) <= Most(cfg, t, rounds)
  {
  }

  lemma RequeueOk(cfg: Config, t: Task, rounds: nat, l: Letter)
    requires CopyOk(cfg, t, rounds, Dead(l)) && cfg.maxAttempts > 0
    ensures CopyOk(cfg, t, rounds + 1, Queued(Requeued(l))) && Left(cfg, Queued(Requeued(l))) == cfg.maxAttempts
  {
    RequeueRestores(t.(attempt := l.attempts), l.reason);
  }

  lemma WokenOk(cfg: Config, t: Task, rounds: nat, x: Task, republished: bool)
    requires CopyOk(cfg, t, rounds, Waiting(x))
    ensures var c := if republished then Queued(x) else Dead(Parked(x, RepublishFailed));
      CopyOk(cfg, t, rounds, c) && Left(cfg, c) <= Left(cfg, Waiting(x))
  {
  }

  lemma LaterOk(cfg: Config, t: Task, rounds: nat, c: Copy)
    requires CopyOk(cfg, t, rounds, c)
    ensures CopyOk(cfg, t, rounds + 1, c)
  {
  }

  ghost predicate Bounded(cfg: Config, t: Task, s: State) {
    Inv(cfg, t, s) && s.posts + LeftAll(cfg, s.copies) <= Allowed(cfg, t, s) && |s.copies| == 1 + s.reclaims
  }

  lemma HandleKeeps(cfg: Config, t: Task, s: State, i: nat, outcome: D.Outcome)
    requires Bounded(cfg, t, s) && Enabled(s, Handle(i, outcome))
    ensures Bounded(cfg, t, Do(cfg, s, Handle(i, outcome)))
  {
    var x := s.copies[i].task;
    assert s.copies[i] in s.copies && s.copies[i] == Queued(x);
    AttemptOk(cfg, t, s.rounds, x, outcome);
    LeftUpdate(cfg, s.copies, i, After(cfg, x, outcome));
    hide CopyOk, After, Left, LeftAll, Most, Sends;
  }

  lemma ReclaimKeeps(cfg: Config, t: Task, s: State, i: nat, outcome: D.Outcome)
    requires Bounded(cfg, t, s) && Enabled(s, Reclaim(i, outcome))
    ensures Bounded(cfg, t, Do(cfg, s, Reclaim(i, outcome)))
  {
    var x := s.copies[i].task;
    var u := Do(cfg, s, Reclaim(i, outcome));
    assert s.copies[i] in s.copies && s.copies[i] == Queued(x);
    AttemptOk(cfg, t, s.rounds, x, outcome);
    assert u.copies[..|s.copies|] == s.copies;
    hide CopyOk, After, Left, Most, Sends;
    var m := Most(cfg, t, s.rounds);
    assert (s.reclaims + 1) * m == s.reclaims * m + m;
  }

  lemma FireKeeps(cfg: Config, t: Task, s: State, i: nat, republished: bool)
    requires Bounded(cfg, t, s) && Enabled(s, Fire(i, republished))
    ensures Bounded(cfg, t, Do(cfg, s, Fire(i, republished)))
  {
    var x := s.copies[i].task;
    assert s.copies[i] in s.copies && s.copies[i] == Waiting(x);
    WokenOk(cfg, t, s.rounds, x, republished);
    LeftUpdate(cfg, s.copies, i, if republished then Queued(x) else Dead(Parked(x, RepublishFailed)));
    hide CopyOk, Left, LeftAll, Most, Parked;
  }

  lemma RedeliverKeeps(cfg: Config, t: Task, s: State, i: nat)
    requires Bounded(cfg, t, s) && Enabled(s, Redeliver(i, true)) && cfg.maxAttempts > 0
    ensures Bounded(cfg, t, Do(cfg, s, Redeliver(i, true)))
  {
    var l := s.copies[i].letter;
    var u := Do(cfg, s, Redeliver(i, true));
    assert s.copies[i] in s.copies && s.copies[i] == Dead(l) && Left(cfg, Dead(l)) == 0;
    RequeueOk(cfg, t, s.rounds, l);
    LeftUpdate(cfg, s.copies, i, Queued(Requeued(l)));
    forall c <- u.copies ensures CopyOk(cfg, t, u.rounds, c) {
      if c != Queued(Requeued(l)) {
        assert c in s.copies;
        LaterOk(cfg, t, s.rounds, c);
      }
    }
    AllowsMore(cfg, t, s.rounds, s.reclaims);
    hide CopyOk, Left, LeftAll, Most, Requeued;
  }

  lemma AllowsMore(cfg: Config, t: Task, rounds: nat, reclaims: nat)
    ensures reclaims * Most(cfg, t, rounds) <= reclaims * Most(cfg, t, rounds + 1)
    ensures (rounds + 1) * cfg.maxAttempts == rounds * cfg.maxAttempts + cfg.maxAttempts
  {
    var m, n := Most(cfg, t, rounds), Most(cfg, t, rounds + 1);
    assert m <= n;
    hide Most;
    assert reclaims * n - reclaims * m == reclaims * (n - m);
  }

  lemma StepKeeps(cfg: Config, t: Task, s: State, a: Action)
    requires Bounded(cfg, t, s) && Enabled(s, a) && cfg.maxAttempts > 0
    ensures Bounded(cfg, t, Do(cfg, s, a))
  {
    hide Bounded;
    match a
    case Handle(i, outcome) => HandleKeeps(cfg, t, s, i, outcome);
    case Reclaim(i, outcome) => ReclaimKeeps(cfg, t, s, i, outcome);
    case Fire(i, republished) => FireKeeps(cfg, t, s, i, republished);
    case Redeliver(i, requeued) => if requeued { RedeliverKeeps(cfg, t, s, i); }
  }

  lemma {:induction false} RunKeeps(cfg: Config, t: Task, s: State, actions: seq<Action>)
    requires Bounded(cfg, t, s) && Schedule(cfg, s, actions) && cfg.maxAttempts > 0
    ensures Bounded(cfg, t, Run(cfg, s, actions))
    decreases |actions|
  {
    if actions != [] {
      hide Bounded, Do, Enabled;
      StepKeeps(cfg, t, s, actions[0]);
      RunKeeps(cfg, t, Do(cfg, s, actions[0]), actions[1..]);
    }
  }

  lemma StartBounded(cfg: Config, t: Task)
    requires t.attempt == 0 && cfg.maxAttempts > 0
    ensures Bounded(cfg, t, Start(t))
  {
    var cs := [Queued(t)];
    assert cs[..0] == [] && LeftAll(cfg, cs[..0]) == 0 && LeftAll(cfg, cs) == Cap(cfg, t);
    assert t == t.(attempt := t.attempt);
  }

  /** In every run there is one copy of a delivery and one more for each reclaim, each
      copy is the delivery, and the requests are at most a round for the delivery, one
      for each redelivery and one for each reclaim. */
  lemma CopiesCount(cfg: Config, t: Task, actions: seq<Action>)
    requires t.attempt == 0 && cfg.maxAttempts > 0 && Schedule(cfg, Start(t), actions)
    ensures var s := Run(cfg, Start(t), actions);
      && |s.copies| == 1 + s.reclaims && (forall c <- s.copies :: CopyOk(cfg, t, s.rounds, c))
      && s.posts <= Allowed(cfg, t, s)
  {
    StartBounded(cfg, t);
    RunKeeps(cfg, t, Start(t), actions);
    var s := Run(cfg, Start(t), actions);
    hide Run, Schedule, Allowed, CopyOk;
    LeftIsNat(cfg, t, s.rounds, s.copies);
  }

  // --------------------------------------------------------- the bound is reached

  /** A queued copy may fail all its attempts. */
  lemma {:induction false} FailOut(cfg: Config, s: State, i: nat) returns (acts: seq<Action>)
    requires i < |s.copies| && s.copies[i].Queued? && s.copies[i].task.secretRef in cfg.secrets
    requires s.copies[i].task.attempt < Cap(cfg, s.copies[i].task)
    ensures Schedule(cfg, s, acts)
    ensures var u := Run(cfg, s, acts);
      && u.posts == s.posts + Left(cfg, s.copies[i]) && u.rounds == s.rounds && u.reclaims == s.reclaims
      && |u.copies| == |s.copies| && forall j | 0 <= j < |s.copies| && j != i :: u.copies[j] == s.copies[j]
    decreases Left(cfg, s.copies[i]), 0
  {
    var a := Handle(i, D.Failure);
    var u := Do(cfg, s, a);
    RunOne(cfg, s, a);
    if s.copies[i].task.attempt + 1 >= Cap(cfg, s.copies[i].task) {
      acts := [a];
    } else {
      var rest := WaitOut(cfg, u, i);
      RunConcat(cfg, s, [a], rest);
      acts := [a] + rest;
      hide Schedule, Run;
    }
  }

  lemma {:induction false} WaitOut(cfg: Config, s: State, i: nat) returns (acts: seq<Action>)
    requires i < |s.copies| && s.copies[i].Waiting? && s.copies[i].task.secretRef in cfg.secrets
    requires s.copies[i].task.attempt < Cap(cfg, s.copies[i].task)
    ensures Schedule(cfg, s, acts)
    ensures var u := Run(cfg, s, acts);
      && u.posts == s.posts + Left(cfg, s.copies[i]) && u.rounds == s.rounds && u.reclaims == s.reclaims
      && |u.copies| == |s.copies| && forall j | 0 <= j < |s.copies| && j != i :: u.copies[j] == s.copies[j]
    decreases Left(cfg, s.copies[i]), 1
  {
    var a := Fire(i, true);
    RunOne(cfg, s, a);
    var rest := FailOut(cfg, Do(cfg, s, a), i);
    RunConcat(cfg, s, [a], rest);
    acts := [a] + rest;
    hide Schedule, Run;
  }

  /** A queued copy may be reclaimed, and the reclaimed one fail all its attempts. */
  lemma ReclaimFailsOut(cfg: Config, s: State, t: Task) returns (acts: seq<Action>)
    requires s.copies != [] && s.copies[0] == Queued(t) && t.secretRef in cfg.secrets && t.attempt < Cap(cfg, t)
    ensures Schedule(cfg, s, acts)
    ensures var u := Run(cfg, s, acts);
      && u.posts == s.posts + Cap(cfg, t) - t.attempt && u.rounds == s.rounds && u.reclaims == s.reclaims + 1
      && u.copies != [] && u.copies[0] == Queued(t)
  {
    var a := Reclaim(0, D.Failure);
    var u := Do(cfg, s, a);
    RunOne(cfg, s, a);
    if t.attempt + 1 >= Cap(cfg, t) {
      acts := [a];
    } else {
      var rest := WaitOut(cfg, u, |s.copies|);
      RunConcat(cfg, s, [a], rest);
      acts := [a] + rest;
      hide Schedule, Run;
    }
  }

  lemma {:induction false} Reclaimed(cfg: Config, t: Task, n: nat) returns (acts: seq<Action>)
    requires t.secretRef in cfg.secrets && t.attempt == 0 && Cap(cfg, t) > 0
    ensures Schedule(cfg, Start(t), acts)
    ensures var s := Run(cfg, Start(t), acts);
      s.reclaims == n && s.rounds == 0 && s.posts == n * Cap(cfg, t) && s.copies != [] && s.copies[0] == Queued(t)
  {
    if n == 0 {
      acts := [];
    } else {
      var before := Reclaimed(cfg, t, n - 1);
      var last := ReclaimFailsOut(cfg, Run(cfg, Start(t), before), t);
      RunConcat(cfg, Start(t), before, last);
      acts := before + last;
      assert n * Cap(cfg, t) == (n - 1) * Cap(cfg, t) + Cap(cfg, t);
    }
  }

  /** The bound is exact: with n reclaims and no redelivery, n + 1 times its cap of
      requests can be made for a delivery. */
  lemma BoundIsReached(cfg: Config, t: Task, n: nat) returns (acts: seq<Action>)
    requires t.secretRef in cfg.secrets && t.attempt == 0 && cfg.maxAttempts > 0
    ensures Schedule(cfg, Start(t), acts)
    ensures var s := Run(cfg, Start(t), acts);
      s.reclaims == n && s.rounds == 0 && s.posts == (n + 1) * Cap(cfg, t) == Allowed(cfg, t, s)
  {
    var before := Reclaimed(cfg, t, n);
    var last := FailOut(cfg, Run(cfg, Start(t), before), 0);
    RunConcat(cfg, Start(t), before, last);
    acts := before + last;
    hide Schedule, Run;
  }

  /** One reclaim is enough for a delivery to be delivered and dead at once. */
  lemma DeliveredAndDead(cfg: Config, t: Task) returns (acts: seq<Action>)
    requires t.secretRef in cfg.secrets && t.attempt == 0
    ensures Schedule(cfg, Start(t), acts)
    ensures var s := Run(cfg, Start(t), acts);
      s.reclaims == 1 && |s.copies| == 2 && s.copies[0].Delivered? && s.copies[1].Dead?
  {
    var a, b := Reclaim(0, D.SsrfBlocked), Handle(0, D.Success);
    RunOne(cfg, Start(t), a);
    RunOne(cfg, Do(cfg, Start(t), a), b);
    RunConcat(cfg, Start(t), [a], [b]);
    acts := [a] + [b];
    hide Schedule, Run;
  }

  // ------------------------------------------------------------- without reclaims

  /** Where `Dispatch` has a delivery. */
  function PlaceOf(s: D.System, id: string): Copy
    requires id in s.queued || id in s.waiting || id in s.delivered || id in s.parked
  {
    if id in s.queued then Queued(s.queued[id])
    else if id in s.waiting then Waiting(s.waiting[id])
    else if id in s.delivered then Delivered(s.delivered[id])
    else Dead(s.parked[id])
  }

  predicate Placed(s: D.System, id: string) {
    id in s.queued || id in s.waiting || id in s.delivered || id in s.parked
  }

  /** The one copy is where `Dispatch` has the delivery, with the same counts. */
  ghost predicate Matches(s: D.System, id: string, c: State) {
    Placed(s, id) && c == State([PlaceOf(s, id)], D.Posted(s, id), D.Rounds(s, id), 0)
  }

  /** What filing a task does to its delivery. */
  ghost predicate Files(s: D.System, u: D.System, id: string, c: Copy) {
    && Placed(u, id) && PlaceOf(u, id) == c
    && D.Posted(u, id) == D.Posted(s, id) && D.Rounds(u, id) == D.Rounds(s, id)
  }

  lemma ParkFiles(s: D.System, t: Task, reason: Reason)
    requires D.Free(s, t.deliveryId)
    ensures Files(s, D.Park(s, t, reason), t.deliveryId, Dead(Parked(t, reason)))
  {
    hide Parked;
  }

  lemma DeliverFiles(s: D.System, t: Task)
    requires D.Free(s, t.deliveryId)
    ensures Files(s, D.Deliver(s, t), t.deliveryId, Delivered(t)) && Files(s, D.Delay(s, t), t.deliveryId, Waiting(t))
  {
  }

  lemma PostCounts(s: D.System, id: string)
    requires D.Free(s, id)
    ensures var u := D.Post(s, id);
      D.Free(u, id) && D.Posted(u, id) == D.Posted(s, id) + 1 && D.Rounds(u, id) == D.Rounds(s, id)
  {
  }

  lemma ProcessMatches(cfg: Config, s: D.System, t: Task, outcome: D.Outcome)
    requires D.Free(s, t.deliveryId)
    ensures var u, id := D.Process(cfg, s, t, outcome), t.deliveryId;
      && Placed(u, id) && PlaceOf(u, id) == After(cfg, t, outcome)
      && D.Posted(u, id) == D.Posted(s, id) + One(Sends(cfg, t, outcome)) && D.Rounds(u, id) == D.Rounds(s, id)
  {
    var posted := D.Post(s, t.deliveryId);
    assert D.Tried(t).deliveryId == t.deliveryId;
    PostCounts(s, t.deliveryId);
    ParkFiles(s, t, UnknownSecret);
    ParkFiles(s, t, Blocked);
    ParkFiles(posted, D.Tried(t), Exhausted);
    DeliverFiles(posted, D.Tried(t));
    D.ProcessIs(cfg, s, t, outcome);
    hide D.Process, D.Tried, D.Post, D.Park, D.Deliver, D.Delay, D.Posted, D.Rounds, D.Free, Parked, Cap, PlaceOf, Placed;
  }

  lemma HandleMatches(cfg: Config, s: D.System, id: string, outcome: D.Outcome, c: State)
    requires D.IdOk(cfg, s, id) && id in s.queued && Matches(s, id, c)
    ensures Enabled(c, Handle(0, outcome))
    ensures Matches(D.Do(cfg, s, D.Action.Handle(id, outcome)), id, Do(cfg, c, Handle(0, outcome)))
  {
    var taken := s.(queued := s.queued - {id});
    assert D.Posted(taken, id) == D.Posted(s, id) && D.Rounds(taken, id) == D.Rounds(s, id);
    assert D.Free(taken, id) && s.queued[id].deliveryId == id;
    hide D.IdOk, D.Process, After, Sends, D.Posted, D.Rounds;
    ProcessMatches(cfg, taken, s.queued[id], outcome);
  }

  lemma FireMatches(cfg: Config, s: D.System, id: string, ok: bool, c: State)
    requires D.IdOk(cfg, s, id) && id in s.waiting && Matches(s, id, c)
    ensures Enabled(c, Fire(0, ok))
    ensures Matches(D.Do(cfg, s, D.Action.Fire(id, ok)), id, Do(cfg, c, Fire(0, ok)))
  {
    var woken := s.(waiting := s.waiting - {id});
    assert D.Posted(woken, id) == D.Posted(s, id) && D.Rounds(woken, id) == D.Rounds(s, id);
    assert D.Free(woken, id) && s.waiting[id].deliveryId == id;
    ParkFiles(woken, s.waiting[id], RepublishFailed);
    hide D.IdOk, Parked;
  }

  lemma RedeliverMatches(cfg: Config, s: D.System, id: string, ok: bool, c: State)
    requires D.IdOk(cfg, s, id) && id in s.parked && Matches(s, id, c)
    ensures Enabled(c, Redeliver(0, ok))
    ensures Matches(D.Do(cfg, s, D.Action.Redeliver(id, ok)), id, Do(cfg, c, Redeliver(0, ok)))
  {
    hide Requeued;
  }

  lemma SubmitMatches(cfg: Config, s: D.System, t: Task)
    requires D.IdOk(cfg, s, t.deliveryId) && D.Enabled(s, D.Submit(t))
    ensures Matches(D.Do(cfg, s, D.Submit(t)), t.deliveryId, Start(t))
  {
  }

  lemma UntouchedMatches(s: D.System, u: D.System, id: string, c: State)
    requires D.Untouched(s, u, id) && Matches(s, id, c)
    ensures Matches(u, id, c)
  {
  }

  /** The step a dispatcher's step is for its delivery. */
  function StepOf(a: D.Action): Action
    requires !a.Submit?
  {
    match a
    case Handle(_, outcome) => Handle(0, outcome)
    case Fire(_, ok) => Fire(0, ok)
    case Redeliver(_, ok) => Redeliver(0, ok)
  }

  lemma StepMatches(cfg: Config, s: D.System, a: D.Action, id: string, c: State)
    requires D.IdOk(cfg, s, id) && D.Enabled(s, a) && !a.Submit? && a.id == id && Matches(s, id, c)
    ensures Enabled(c, StepOf(a)) && Matches(D.Do(cfg, s, a), id, Do(cfg, c, StepOf(a)))
  {
    hide D.IdOk, D.Do, Do, Matches;
    match a
    case Handle(_, outcome) => HandleMatches(cfg, s, id, outcome, c);
    case Fire(_, ok) => FireMatches(cfg, s, id, ok, c);
    case Redeliver(_, ok) => RedeliverMatches(cfg, s, id, ok, c);
  }

  /** Every run of the dispatcher is, for each delivery, a run without reclaims whose
      one copy is where the dispatcher has it. */
  lemma {:induction false} DispatchIsReclaimFree(cfg: Config, actions: seq<D.Action>, id: string) returns (acts: seq<Action>)
    requires D.Schedule(cfg, actions) && cfg.maxAttempts > 0 && id in D.Run(cfg, actions).submitted
    ensures var t := D.Run(cfg, actions).submitted[id];
      Schedule(cfg, Start(t), acts) && Matches(D.Run(cfg, actions), id, Run(cfg, Start(t), acts))
  {
    var init, a := actions[..|actions| - 1], actions[|actions| - 1];
    var s := D.Run(cfg, init);
    D.ScheduleKeepsInv(cfg, init);
    var x := D.Concerned(cfg, s, a);
    D.InvAt(cfg, s, id);
    hide D.Inv, D.IdOk, Matches, D.Untouched;
    if x != id {
      D.StepsAreLocal(cfg, s, a, x, id);
      SubmittedSame(s, D.Do(cfg, s, a), id);
      acts := DispatchIsReclaimFree(cfg, init, id);
      UntouchedMatches(s, D.Do(cfg, s, a), id, Run(cfg, Start(s.submitted[id]), acts));
    } else if a.Submit? {
      acts := [];
      SubmitMatches(cfg, s, a.task);
    } else {
      SubmittedKept(cfg, s, a);
      var before := DispatchIsReclaimFree(cfg, init, id);
      var t := s.submitted[id];
      var c := Run(cfg, Start(t), before);
      StepMatches(cfg, s, a, id, c);
      RunOne(cfg, c, StepOf(a));
      RunConcat(cfg, Start(t), before, [StepOf(a)]);
      acts := before + [StepOf(a)];
    }
  }

  lemma SubmittedSame(s: D.System, u: D.System, id: string)
    requires D.Untouched(s, u, id) && id in u.submitted
    ensures id in s.submitted && u.submitted[id] == s.submitted[id]
  {
    hide D.TallyOf;
  }

  lemma SubmittedKept(cfg: Config, s: D.System, a: D.Action)
    requires D.Enabled(s, a) && !a.Submit?
    ensures D.Do(cfg, s, a).submitted == s.submitted
  {
    if a.Handle? {
      D.ProcessKeepsRounds(cfg, s.(queued := s.queued - {a.id}), s.queued[a.id], a.outcome, a.id);
      hide D.Process;
    }
  }
}
