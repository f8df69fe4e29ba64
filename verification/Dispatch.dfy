/**
 Webhook delivery (internal/delivery/dispatcher.go) as a state machine over the
 delivery queue, the scheduled retries, the delivered webhooks and the
 dead-letter queue, including redelivery from it. Acks and dead-letter saves
 succeed; what a POST returns, whether a republish or a requeue succeeds and when
 things happen are open.
 */
module Dispatch {

  import opened Wrappers
  import opened Webhooks

  datatype Outcome = Success | SsrfBlocked | Failure

  /** The requests made for a delivery, its redeliveries, and how many of the
      requests were made before the last one. */
  datatype Tally = Tally(posts: nat, rounds: nat, earlier: nat)

  /** Everything is filed under its delivery id. */
  datatype System = System(submitted: map<string, Task>, queued: map<string, Task>, waiting: map<string, Task>,
                           delivered: map<string, Task>, parked: map<string, Letter>, tallies: map<string, Tally>)

  datatype Action =
    | Submit(task: Task)
    | Handle(id: string, outcome: Outcome)
    | Fire(id: string, republished: bool)
    | Redeliver(id: string, requeued: bool)

  function TallyOf(s: System, id: string): Tally {
    if id in s.tallies then s.tallies[id] else Tally(0, 0, 0)
  }

  function Posted(s: System, id: string): nat { TallyOf(s, id).posts }

  function Rounds(s: System, id: string): nat { TallyOf(s, id).rounds }

  function Earlier(s: System, id: string): nat { TallyOf(s, id).earlier }

  predicate Enabled(s: System, a: Action) {
    match a
    case Submit(t) => t.deliveryId !in s.submitted && t.attempt == 0
    case Handle(id, _) => id in s.queued
    case Fire(id, _) => id in s.waiting
    case Redeliver(id, _) => id in s.parked
  }

  function Park(s: System, t: Task, reason: Reason): System {
    s.(parked := s.parked[t.deliveryId := Parked(t, reason)])
  }

  /** A parked delivery starts another round. */
  function Restart(s: System, id: string): System
    requires id in s.parked
  {
    var n := TallyOf(s, id);
    s.(parked := s.parked - {id}, queued := s.queued[id := Requeued(s.parked[id])],
       tallies := s.tallies[id := Tally(n.posts, n.rounds + 1, n.posts)])
  }

  /** A request goes out. */
  function Post(s: System, id: string): System {
    var n := TallyOf(s, id);
    s.(tallies := s.tallies[id := Tally(n.posts + 1, n.rounds, n.earlier)])
  }

  function Deliver(s: System, t: Task): System {
    s.(delivered := s.delivered[t.deliveryId := t])
  }

  function Delay(s: System, t: Task): System {
    s.(waiting := s.waiting[t.deliveryId := t])
  }

  function Tried(t: Task): Task {
    t.(attempt := t.attempt + 1)
  }

  /** One delivery attempt, after the task left the queue. */
  function Process(cfg: Config, s: System, t: Task, outcome: Outcome): System {
    if t.secretRef !in cfg.secrets then Park(s, t, UnknownSecret)
    else if outcome == SsrfBlocked then Park(s, t, Blocked)
    else
      var posted := Post(s, t.deliveryId);
      if outcome == Success then Deliver(posted, Tried(t))
      else if t.attempt + 1 >= Cap(cfg, t) then Park(posted, Tried(t), Exhausted)
      else Delay(posted, Tried(t))
  }

  function Do(cfg: Config, s: System, a: Action): System {
    match a
    case Submit(t) =>
      s.(submitted := s.submitted[t.deliveryId := t], queued := s.queued[t.deliveryId := t])
    case Handle(id, outcome) =>
      if id in s.queued then Process(cfg, s.(queued := s.queued - {id}), s.queued[id], outcome) else s
    case Fire(id, republished) =>
      if id !in s.waiting then s
      else
        var t := s.waiting[id];
        var woken := s.(waiting := s.waiting - {id});
        if republished then woken.(queued := woken.queued[id := t]) else Park(woken, t, RepublishFailed)
    case Redeliver(id, requeued) =>
      if requeued && id in s.parked then Restart(s, id) else s
  }

  const INITIAL := System(map[], map[], map[], map[], map[], map[])

  function Run(cfg: Config, actions: seq<Action>): System {
    if actions == [] then INITIAL
    else Do(cfg, Run(cfg, actions[..|actions| - 1]), actions[|actions| - 1])
  }

  predicate Schedule(cfg: Config, actions: seq<Action>) {
    actions == [] ||
    (Schedule(cfg, actions[..|actions| - 1]) && Enabled(Run(cfg, actions[..|actions| - 1]), actions[|actions| - 1]))
  }

  // ------------------------------------------------------------------ invariants

  /** The task as the current round started it. */
  function Source(s: System, id: string): Task
    requires id in s.submitted
  {
    if Rounds(s, id) == 0 then s.submitted[id] else Again(s.submitted[id])
  }

  /** The submitted delivery, but for its attempt counter and what a redelivery forgets. */
  predicate SameDelivery(s: System, id: string, t: Task) {
    id in s.submitted && t == Source(s, id).(attempt := t.attempt) && t.deliveryId == id
  }

  predicate SameLetter(s: System, id: string, l: Letter) {
    id in s.submitted && l == Parked(Source(s, id).(attempt := l.attempts), l.reason) && l.deliveryId == id
  }

  /** All requests a delivery may ever make: its own cap, and the default per redelivery. */
  function Allowed(cfg: Config, s: System, id: string): int
    requires id in s.submitted
  {
    Cap(cfg, s.submitted[id]) + Rounds(s, id) * cfg.maxAttempts
  }

  /** The rounds so far have kept within what is allowed. */
  predicate RoundOk(cfg: Config, s: System, id: string, attempt: int) {
    && id in s.submitted
    && Posted(s, id) == Earlier(s, id) + attempt
    && Earlier(s, id) + Cap(cfg, Source(s, id)) <= Allowed(cfg, s, id)
  }

  /** A live task has made `attempt` requests this round and may make one more. */
  predicate Live(cfg: Config, s: System, id: string, t: Task) {
    SameDelivery(s, id, t) && RoundOk(cfg, s, id, t.attempt) && t.attempt < Cap(cfg, t)
  }

  predicate Done(cfg: Config, s: System, id: string, t: Task) {
    SameDelivery(s, id, t) && RoundOk(cfg, s, id, t.attempt) && 1 <= t.attempt <= Cap(cfg, t)
  }

  /** A parked task has made `attempts` requests this round: the cap if and only if exhausted. */
  predicate ParkedOk(cfg: Config, s: System, id: string, l: Letter) {
    && SameLetter(s, id, l) && RoundOk(cfg, s, id, l.attempts)
    && var cap := Cap(cfg, Source(s, id));
       if l.reason == Exhausted then l.attempts == cap else l.attempts < cap
  }

  /** A submitted delivery is in exactly one place and in order there; any other
      id is nowhere. */
  predicate IdOk(cfg: Config, s: System, id: string) {
    var q, w, d, p := id in s.queued, id in s.waiting, id in s.delivered, id in s.parked;
    if id !in s.submitted then !q && !w && !d && !p && TallyOf(s, id) == Tally(0, 0, 0)
    else
      || (q && !w && !d && !p && Live(cfg, s, id, s.queued[id]))
      || (!q && w && !d && !p && Live(cfg, s, id, s.waiting[id]))
      || (!q && !w && d && !p && Done(cfg, s, id, s.delivered[id]))
      || (!q && !w && !d && p && ParkedOk(cfg, s, id, s.parked[id]))
  }

  ghost predicate Inv(cfg: Config, s: System) {
    forall id :: IdOk(cfg, s, id)
  }

  function Find<T>(m: map<string, T>, id: string): Option<T> {
    if id in m then Some(m[id]) else None
  }

  /** No part of the state says anything new about a delivery. */
  predicate Untouched(s: System, t: System, id: string) {
    && Find(s.submitted, id) == Find(t.submitted, id) && Find(s.queued, id) == Find(t.queued, id)
    && Find(s.waiting, id) == Find(t.waiting, id) && Find(s.delivered, id) == Find(t.delivered, id)
    && Find(s.parked, id) == Find(t.parked, id) && TallyOf(s, id) == TallyOf(t, id)
  }

  lemma UntouchedOk(cfg: Config, s: System, t: System, id: string)
    requires Untouched(s, t, id) && IdOk(cfg, s, id)
    ensures IdOk(cfg, t, id)
  {
  }

  /** The delivery an action is about, filed under its own id. */
  predicate Concerns(s: System, a: Action, id: string)
    requires Enabled(s, a)
  {
    match a
    case Submit(t) => t.deliveryId == id
    case Handle(x, _) => x == id && s.queued[x].deliveryId == id
    case Fire(x, _) => x == id && s.waiting[x].deliveryId == id
    case Redeliver(x, _) => x == id && s.parked[x].deliveryId == id
  }

  lemma FindOther<T>(m: map<string, T>, k: string, v: T, id: string)
    requires k != id
    ensures Find(m[k := v], id) == Find(m, id) && Find(m - {k}, id) == Find(m, id)
  {
  }

  lemma ParkIsLocal(s: System, t: Task, reason: Reason, id: string)
    requires t.deliveryId != id
    ensures Untouched(s, Park(s, t, reason), id)
  {
    FindOther(s.parked, t.deliveryId, Parked(t, reason), id);
    hide Find, TallyOf, Parked;
    TallyStays(s, Park(s, t, reason), id);
  }

  lemma TallyStays(s: System, t: System, id: string)
    requires s.tallies == t.tallies
    ensures TallyOf(s, id) == TallyOf(t, id)
  {
  }

  lemma PostIsLocal(s: System, x: string, id: string)
    requires x != id
    ensures Untouched(s, Post(s, x), id)
  {
    assert TallyOf(Post(s, x), id) == TallyOf(s, id);
    hide Find;
  }

  lemma FileIsLocal(s: System, t: Task, id: string)
    requires t.deliveryId != id
    ensures Untouched(s, Deliver(s, t), id) && Untouched(s, Delay(s, t), id)
  {
    FindOther(s.delivered, t.deliveryId, t, id);
    FindOther(s.waiting, t.deliveryId, t, id);
    hide Find;
  }

  lemma RestartIsLocal(s: System, x: string, id: string)
    requires x in s.parked && x != id
    ensures Untouched(s, Restart(s, x), id)
  {
    FindOther(s.parked, x, s.parked[x], id);
    FindOther(s.queued, x, Requeued(s.parked[x]), id);
    assert TallyOf(Restart(s, x), id) == TallyOf(s, id);
    hide Find, Requeued;
  }

  lemma UntouchedTrans(s: System, t: System, u: System, id: string)
    requires Untouched(s, t, id) && Untouched(t, u, id)
    ensures Untouched(s, u, id)
  {
    hide Find, TallyOf;
  }

  lemma ProcessIsLocal(cfg: Config, s: System, t: Task, outcome: Outcome, id: string)
    requires t.deliveryId != id
    ensures Untouched(s, Process(cfg, s, t, outcome), id)
  {
    var posted := Post(s, t.deliveryId);
    assert Tried(t).deliveryId == t.deliveryId;
    hide Untouched, Park, Post, Deliver, Delay, Cap, Tried;
    ParkIsLocal(s, t, UnknownSecret, id);
    ParkIsLocal(s, t, Blocked, id);
    PostIsLocal(s, t.deliveryId, id);
    ParkIsLocal(posted, Tried(t), Exhausted, id);
    FileIsLocal(posted, Tried(t), id);
    if t.secretRef in cfg.secrets && outcome != SsrfBlocked {
      UntouchedTrans(s, posted, Process(cfg, s, t, outcome), id);
    }
  }

  lemma SubmitIsLocal(cfg: Config, s: System, t: Task, id: string)
    requires t.deliveryId != id
    ensures Untouched(s, Do(cfg, s, Submit(t)), id)
  {
    FindOther(s.submitted, t.deliveryId, t, id);
    FindOther(s.queued, t.deliveryId, t, id);
    hide Find, TallyOf;
  }

  lemma FireIsLocal(cfg: Config, s: System, x: string, republished: bool, id: string)
    requires x in s.waiting && s.waiting[x].deliveryId == x != id
    ensures Untouched(s, Do(cfg, s, Fire(x, republished)), id)
  {
    var t := s.waiting[x];
    FindOther(s.waiting, x, t, id);
    FindOther(s.queued, x, t, id);
    ParkIsLocal(s.(waiting := s.waiting - {x}), t, RepublishFailed, id);
    hide Find, Park, TallyOf;
  }

  lemma StepsAreLocal(cfg: Config, s: System, a: Action, x: string, id: string)
    requires Enabled(s, a) && Concerns(s, a, x) && x != id
    ensures Untouched(s, Do(cfg, s, a), id)
  {
    match a
    case Submit(t) => SubmitIsLocal(cfg, s, t, id);
    case Fire(_, republished) => FireIsLocal(cfg, s, x, republished, id);
    case Redeliver(_, requeued) => if requeued { RestartIsLocal(s, x, id); }
    case Handle(_, outcome) =>
      var taken := s.(queued := s.queued - {x});
      FindOther(s.queued, x, s.queued[x], id);
      ProcessIsLocal(cfg, taken, s.queued[x], outcome, id);
      hide Process, Find, TallyOf;
      assert Do(cfg, s, a) == Process(cfg, taken, s.queued[x], outcome);
  }

  lemma SubmitKeepsInv(cfg: Config, s: System, t: Task)
    requires IdOk(cfg, s, t.deliveryId) && Enabled(s, Submit(t)) && cfg.maxAttempts > 0
    ensures IdOk(cfg, Do(cfg, s, Submit(t)), t.deliveryId)
  {
  }

  predicate Free(s: System, id: string) {
    id !in s.queued && id !in s.waiting && id !in s.delivered && id !in s.parked
  }

  lemma ParkKeepsInv(cfg: Config, s: System, t: Task, reason: Reason)
    requires var id := t.deliveryId; Free(s, id) && SameDelivery(s, id, t) && RoundOk(cfg, s, id, t.attempt)
    requires if reason == Exhausted then t.attempt == Cap(cfg, t) else t.attempt < Cap(cfg, t)
    ensures IdOk(cfg, Park(s, t, reason), t.deliveryId)
  {
    var u, id := Park(s, t, reason), t.deliveryId;
    assert Source(u, id) == Source(s, id) && Posted(u, id) == Posted(s, id) && Earlier(u, id) == Earlier(s, id);
    assert Allowed(cfg, u, id) == Allowed(cfg, s, id);
    assert u.parked[id] == Parked(t, reason) && Cap(cfg, t) == Cap(cfg, Source(s, id));
    assert SameLetter(u, id, u.parked[id]);
    hide Source, Posted, Earlier, Allowed, Cap;
    assert RoundOk(cfg, u, id, t.attempt);
    assert ParkedOk(cfg, u, id, u.parked[id]);
    hide ParkedOk, RoundOk, SameLetter;
  }

  lemma PostKeepsRound(cfg: Config, s: System, t: Task)
    requires Live(cfg, s, t.deliveryId, t)
    ensures var u, id, tried := Post(s, t.deliveryId), t.deliveryId, Tried(t);
      && tried.deliveryId == id && tried.attempt == t.attempt + 1 && Cap(cfg, tried) == Cap(cfg, t)
      && SameDelivery(u, id, tried) && RoundOk(cfg, u, id, tried.attempt) && u == s.(tallies := u.tallies)
  {
    var u, id := Post(s, t.deliveryId), t.deliveryId;
    assert u.submitted == s.submitted && Rounds(u, id) == Rounds(s, id);
    assert Earlier(u, id) == Earlier(s, id) && Posted(u, id) == Posted(s, id) + 1;
    hide Post, Posted, Earlier, Rounds;
  }

  lemma FileKeepsInv(cfg: Config, s: System, t: Task)
    requires var id := t.deliveryId; Free(s, id) && SameDelivery(s, id, t) && RoundOk(cfg, s, id, t.attempt)
    requires 1 <= t.attempt <= Cap(cfg, t)
    ensures IdOk(cfg, Deliver(s, t), t.deliveryId)
    ensures t.attempt < Cap(cfg, t) ==> IdOk(cfg, Delay(s, t), t.deliveryId)
  {
    var u, w, id := Deliver(s, t), Delay(s, t), t.deliveryId;
    RoundStays(cfg, s, u, id, t);
    RoundStays(cfg, s, w, id, t);
    hide SameDelivery, RoundOk, Cap;
  }

  lemma RoundStays(cfg: Config, s: System, t: System, id: string, task: Task)
    requires s.submitted == t.submitted && s.tallies == t.tallies
    requires SameDelivery(s, id, task) && RoundOk(cfg, s, id, task.attempt)
    ensures SameDelivery(t, id, task) && RoundOk(cfg, t, id, task.attempt)
  {
    assert TallyOf(s, id) == TallyOf(t, id);
    hide TallyOf, Cap;
  }

  /** A live delivery nobody holds is in order wherever an attempt puts it. */
  lemma ProcessKeepsInv(cfg: Config, s: System, t: Task, outcome: Outcome)
    requires Live(cfg, s, t.deliveryId, t) && Free(s, t.deliveryId)
    ensures IdOk(cfg, Process(cfg, s, t, outcome), t.deliveryId)
  {
    hide *;
    if t.secretRef !in cfg.secrets || outcome == SsrfBlocked {
      LiveIs(cfg, s, t);
      var reason := if t.secretRef !in cfg.secrets then UnknownSecret else Blocked;
      ParkKeepsInv(cfg, s, t, reason);
      ProcessIs(cfg, s, t, outcome);
    } else {
      var posted := Post(s, t.deliveryId);
      LiveIs(cfg, s, t);
      PostKeepsRound(cfg, s, t);
      FreeStays(s, posted, t.deliveryId);
      ProcessIs(cfg, s, t, outcome);
      if outcome == Success {
        FileKeepsInv(cfg, posted, Tried(t));
      } else if t.attempt + 1 >= Cap(cfg, t) {
        ParkKeepsInv(cfg, posted, Tried(t), Exhausted);
      } else {
        FileKeepsInv(cfg, posted, Tried(t));
      }
    }
  }

  lemma LiveIs(cfg: Config, s: System, t: Task)
    requires Live(cfg, s, t.deliveryId, t)
    ensures SameDelivery(s, t.deliveryId, t) && RoundOk(cfg, s, t.deliveryId, t.attempt) && t.attempt < Cap(cfg, t)
  {
  }

  lemma FreeStays(s: System, t: System, id: string)
    requires Free(s, id) && t == s.(tallies := t.tallies)
    ensures Free(t, id)
  {
  }

  lemma ProcessIs(cfg: Config, s: System, t: Task, outcome: Outcome)
    ensures Process(cfg, s, t, outcome) ==
      if t.secretRef !in cfg.secrets then Park(s, t, UnknownSecret)
      else if outcome == SsrfBlocked then Park(s, t, Blocked)
      else
        var posted := Post(s, t.deliveryId);
        if outcome == Success then Deliver(posted, Tried(t))
        else if t.attempt + 1 >= Cap(cfg, t) then Park(posted, Tried(t), Exhausted)
        else Delay(posted, Tried(t))
  {
    hide Park, Post, Deliver, Tried, Cap, Delay;
  }

  lemma HandleKeepsInv(cfg: Config, s: System, x: string, outcome: Outcome)
    requires IdOk(cfg, s, x) && Enabled(s, Handle(x, outcome))
    ensures IdOk(cfg, Do(cfg, s, Handle(x, outcome)), x)
  {
    hide Process;
    ProcessKeepsInv(cfg, s.(queued := s.queued - {x}), s.queued[x], outcome);
  }

  lemma FireKeepsInv(cfg: Config, s: System, x: string, republished: bool)
    requires IdOk(cfg, s, x) && Enabled(s, Fire(x, republished))
    ensures IdOk(cfg, Do(cfg, s, Fire(x, republished)), x)
  {
  }

  lemma RedeliverKeepsInv(cfg: Config, s: System, x: string, requeued: bool)
    requires IdOk(cfg, s, x) && Enabled(s, Redeliver(x, requeued)) && cfg.maxAttempts > 0
    ensures IdOk(cfg, Do(cfg, s, Redeliver(x, requeued)), x)
  {
    if requeued {
      var t := Restart(s, x);
      assert Rounds(t, x) == Rounds(s, x) + 1 && t.submitted == s.submitted;
      assert (Rounds(s, x) + 1) * cfg.maxAttempts == Rounds(s, x) * cfg.maxAttempts + cfg.maxAttempts;
      assert Live(cfg, t, x, t.queued[x]);
    }
  }

  lemma Concerned(cfg: Config, s: System, a: Action) returns (x: string)
    requires Inv(cfg, s) && Enabled(s, a)
    ensures Concerns(s, a, x) && (a.Submit? || a.id == x)
  {
    x := if a.Submit? then a.task.deliveryId else a.id;
    assert IdOk(cfg, s, x);
  }

  lemma StepKeepsInv(cfg: Config, s: System, a: Action)
    requires Inv(cfg, s) && Enabled(s, a) && cfg.maxAttempts > 0
    ensures Inv(cfg, Do(cfg, s, a))
  {
    var x := Concerned(cfg, s, a);
    hide IdOk, Do, Untouched;
    forall id ensures IdOk(cfg, Do(cfg, s, a), id) {
      assert IdOk(cfg, s, id);
      if id != x {
        StepsAreLocal(cfg, s, a, x, id);
        UntouchedOk(cfg, s, Do(cfg, s, a), id);
      } else {
        match a
        case Submit(t) => SubmitKeepsInv(cfg, s, t);
        case Handle(_, outcome) => HandleKeepsInv(cfg, s, x, outcome);
        case Fire(_, republished) => FireKeepsInv(cfg, s, x, republished);
        case Redeliver(_, requeued) => RedeliverKeepsInv(cfg, s, x, requeued);
      }
    }
  }

  lemma {:induction false} ScheduleKeepsInv(cfg: Config, actions: seq<Action>)
    requires Schedule(cfg, actions) && cfg.maxAttempts > 0
    ensures Inv(cfg, Run(cfg, actions))
  {
    if actions != [] {
      ScheduleKeepsInv(cfg, actions[..|actions| - 1]);
      hide Do, Enabled, IdOk;
      StepKeepsInv(cfg, Run(cfg, actions[..|actions| - 1]), actions[|actions| - 1]);
    } else {
      forall id ensures IdOk(cfg, INITIAL, id) {}
    }
  }

  // ---------------------------------------------------------------- the theorems

  /** In every run each submitted delivery is in exactly one place, unchanged but for
      its attempt counter and what a redelivery forgets, and has made at most the
      requests it is allowed. */
  lemma NothingIsLost(cfg: Config, actions: seq<Action>, id: string)
    requires Schedule(cfg, actions) && cfg.maxAttempts > 0 && id in Run(cfg, actions).submitted
    ensures var s := Run(cfg, actions);
      && (id in s.queued || id in s.waiting || id in s.delivered || id in s.parked)
      && (id in s.queued ==> id !in s.waiting && id !in s.delivered && id !in s.parked)
      && (id in s.waiting ==> id !in s.delivered && id !in s.parked)
      && (id in s.delivered ==> id !in s.parked)
      && Posted(s, id) <= Allowed(cfg, s, id)
      && (id in s.queued ==> SameDelivery(s, id, s.queued[id]))
      && (id in s.waiting ==> SameDelivery(s, id, s.waiting[id]))
      && (id in s.delivered ==> SameDelivery(s, id, s.delivered[id]))
      && (id in s.parked ==> SameLetter(s, id, s.parked[id]))
  {
    ScheduleKeepsInv(cfg, actions);
    assert IdOk(cfg, Run(cfg, actions), id);
    hide Allowed, Run;
  }

  /** A delivery parked as exhausted has made exactly its cap of requests since it was
      submitted or last redelivered; one parked for another reason made fewer. */
  lemma ExhaustedAtCap(cfg: Config, actions: seq<Action>, id: string)
    requires Schedule(cfg, actions) && cfg.maxAttempts > 0 && id in Run(cfg, actions).parked
    ensures var s := Run(cfg, actions);
      && id in s.submitted && Posted(s, id) == Earlier(s, id) + s.parked[id].attempts
      && (s.parked[id].reason == Exhausted <==> s.parked[id].attempts == Cap(cfg, Source(s, id)))
  {
    ScheduleKeepsInv(cfg, actions);
    assert IdOk(cfg, Run(cfg, actions), id);
    hide Allowed, Run;
  }

  /** What is left to do for one delivery: each attempt takes a request or a
      retry's wake-up off it. */
  function Remaining(cfg: Config, s: System, id: string): int {
    if id in s.queued then 2 * (Cap(cfg, s.queued[id]) - s.queued[id].attempt)
    else if id in s.waiting then 2 * (Cap(cfg, s.waiting[id]) - s.waiting[id].attempt) + 1
    else 0
  }

  /** The dispatcher's own steps. */
  predicate Works(a: Action) { a.Handle? || a.Fire? }

  /** Every step on a delivery brings it closer to delivered or parked; no other
      step affects it. */
  lemma StepsAreBounded(cfg: Config, actions: seq<Action>, id: string, a: Action)
    requires Schedule(cfg, actions) && cfg.maxAttempts > 0 && Enabled(Run(cfg, actions), a) && Works(a)
    ensures var s := Run(cfg, actions);
      if a.id == id then 0 <= Remaining(cfg, Do(cfg, s, a), id) < Remaining(cfg, s, id)
      else Remaining(cfg, Do(cfg, s, a), id) == Remaining(cfg, s, id)
  {
    ScheduleKeepsInv(cfg, actions);
    var s := Run(cfg, actions);
    var x := Concerned(cfg, s, a);
    hide Run, Schedule, Inv;
    assert IdOk(cfg, s, id) by { ScheduleKeepsInv(cfg, actions); InvAt(cfg, s, id); }
    if a.id == id {
      StepBrings(cfg, s, id, a);
    } else {
      StepsAreLocal(cfg, s, a, x, id);
    }
  }

  lemma InvAt(cfg: Config, s: System, id: string)
    requires Inv(cfg, s)
    ensures IdOk(cfg, s, id)
  {
  }

  lemma ProcessBrings(cfg: Config, s: System, t: Task, outcome: Outcome)
    requires t.attempt < Cap(cfg, t) && Free(s, t.deliveryId)
    ensures 0 <= Remaining(cfg, Process(cfg, s, t, outcome), t.deliveryId) < 2 * (Cap(cfg, t) - t.attempt)
  {
    assert Cap(cfg, Tried(t)) == Cap(cfg, t) && Tried(t).deliveryId == t.deliveryId && Tried(t).attempt == t.attempt + 1;
    assert Free(Post(s, t.deliveryId), t.deliveryId);
    ProcessIs(cfg, s, t, outcome);
    hide Process, Tried, Parked, Cap, Post;
  }

  lemma StepBrings(cfg: Config, s: System, id: string, a: Action)
    requires IdOk(cfg, s, id) && Enabled(s, a) && Works(a) && a.id == id
    ensures 0 <= Remaining(cfg, Do(cfg, s, a), id) < Remaining(cfg, s, id)
  {
    if a.Handle? {
      ProcessBrings(cfg, s.(queued := s.queued - {id}), s.queued[id], a.outcome);
    }
    hide Process, RoundOk, Cap;
  }

  /** How often a run has worked on a delivery. */
  function Worked(actions: seq<Action>, id: string): nat {
    if actions == [] then 0
    else
      var a := actions[|actions| - 1];
      Worked(actions[..|actions| - 1], id) + if Works(a) && a.id == id then 1 else 0
  }

  /** What a delivery may cost in all. */
  function Budget(cfg: Config, s: System, id: string): int {
    if id in s.submitted then 2 * Allowed(cfg, s, id) else 0
  }

  lemma StepWithinBudget(cfg: Config, s: System, a: Action, id: string)
    requires Enabled(s, a) && Inv(cfg, s) && cfg.maxAttempts > 0
    ensures var t := Do(cfg, s, a); var cost := if Works(a) && a.id == id then 1 else 0;
      cost + Remaining(cfg, t, id) + Budget(cfg, s, id) <= Remaining(cfg, s, id) + Budget(cfg, t, id)
  {
    var x := Concerned(cfg, s, a);
    InvAt(cfg, s, id);
    hide Inv;
    if id != x {
      StepsAreLocal(cfg, s, a, x, id);
      hide Do;
    } else if Works(a) {
      BudgetStays(cfg, s, a, id);
      StepBrings(cfg, s, id, a);
      hide Do, Remaining;
    } else if a.Redeliver? && a.requeued {
      RestartBudget(cfg, s, id);
    } else if a.Submit? {
      SubmitBudget(cfg, s, a.task);
    }
  }

  lemma SubmitBudget(cfg: Config, s: System, t: Task)
    requires IdOk(cfg, s, t.deliveryId) && Enabled(s, Submit(t))
    ensures var u := Do(cfg, s, Submit(t)); var id := t.deliveryId;
      Remaining(cfg, u, id) + Budget(cfg, s, id) <= Remaining(cfg, s, id) + Budget(cfg, u, id)
  {
  }

  lemma ProcessKeepsRounds(cfg: Config, s: System, t: Task, outcome: Outcome, id: string)
    ensures var u := Process(cfg, s, t, outcome); u.submitted == s.submitted && Rounds(u, id) == Rounds(s, id)
  {
    var posted := Post(s, t.deliveryId);
    assert posted.submitted == s.submitted && Rounds(posted, id) == Rounds(s, id);
    FilingKeepsRounds(s, t, UnknownSecret, id);
    FilingKeepsRounds(s, t, Blocked, id);
    FilingKeepsRounds(posted, Tried(t), Exhausted, id);
    ProcessIs(cfg, s, t, outcome);
    hide *;
  }

  lemma FilingKeepsRounds(s: System, t: Task, reason: Reason, id: string)
    ensures Park(s, t, reason).submitted == s.submitted && Rounds(Park(s, t, reason), id) == Rounds(s, id)
    ensures Deliver(s, t).submitted == s.submitted && Rounds(Deliver(s, t), id) == Rounds(s, id)
    ensures Delay(s, t).submitted == s.submitted && Rounds(Delay(s, t), id) == Rounds(s, id)
  {
    hide Parked;
  }

  lemma BudgetStays(cfg: Config, s: System, a: Action, id: string)
    requires Enabled(s, a) && Works(a)
    ensures Budget(cfg, Do(cfg, s, a), id) == Budget(cfg, s, id)
  {
    var t := Do(cfg, s, a);
    assert t.submitted == s.submitted && Rounds(t, id) == Rounds(s, id) by {
      hide Process;
      if a.Handle? {
        ProcessKeepsRounds(cfg, s.(queued := s.queued - {a.id}), s.queued[a.id], a.outcome, id);
      }
    }
    hide Do, Rounds, Cap;
  }

  lemma RestartBudget(cfg: Config, s: System, id: string)
    requires id in s.parked && IdOk(cfg, s, id)
    ensures var t := Restart(s, id);
      Remaining(cfg, t, id) + Budget(cfg, s, id) <= Remaining(cfg, s, id) + Budget(cfg, t, id)
  {
    var t := Restart(s, id);
    assert Rounds(t, id) == Rounds(s, id) + 1 && t.submitted == s.submitted && id in s.submitted;
    assert (Rounds(s, id) + 1) * cfg.maxAttempts == Rounds(s, id) * cfg.maxAttempts + cfg.maxAttempts;
    assert Remaining(cfg, t, id) == 2 * cfg.maxAttempts;
  }

  /** In every run the dispatcher works on a delivery at most twice per request it is
      allowed, redeliveries included. */
  lemma {:induction false} WorkIsBounded(cfg: Config, actions: seq<Action>, id: string)
    requires Schedule(cfg, actions) && cfg.maxAttempts > 0
    ensures var s := Run(cfg, actions);
      && 0 <= Remaining(cfg, s, id)
      && Worked(actions, id) + Remaining(cfg, s, id) <= Budget(cfg, s, id)
  {
    ScheduleKeepsInv(cfg, actions);
    InvAt(cfg, Run(cfg, actions), id);
    if actions != [] {
      var init := actions[..|actions| - 1];
      WorkIsBounded(cfg, init, id);
      ScheduleKeepsInv(cfg, init);
      StepWithinBudget(cfg, Run(cfg, init), actions[|actions| - 1], id);
      hide Do, Enabled, Remaining, Budget, Inv;
    }
  }

  // -------------------------------------------------------------- why it ended so

  predicate SecretKnown(cfg: Config, s: System, id: string) {
    id in s.submitted && s.submitted[id].secretRef in cfg.secrets
  }

  /** The action answers a request for this delivery with success. */
  predicate Delivers(cfg: Config, s: System, a: Action, id: string) {
    a == Handle(id, Success) && SecretKnown(cfg, s, id)
  }

  /** Some action of the run did. */
  predicate WasDelivered(cfg: Config, actions: seq<Action>, id: string) {
    actions != [] &&
    var init := actions[..|actions| - 1];
    WasDelivered(cfg, init, id) || Delivers(cfg, Run(cfg, init), actions[|actions| - 1], id)
  }

  lemma ProcessDelivers(cfg: Config, s: System, t: Task, outcome: Outcome)
    requires Free(s, t.deliveryId)
    ensures var u, id := Process(cfg, s, t, outcome), t.deliveryId;
      && id !in u.queued
      && (id in u.delivered <==> outcome == Success && t.secretRef in cfg.secrets)
  {
    assert Tried(t).deliveryId == t.deliveryId && Free(Post(s, t.deliveryId), t.deliveryId);
    ProcessIs(cfg, s, t, outcome);
    hide Process, Tried, Parked, Cap, Post;
  }

  lemma HandleDelivers(cfg: Config, s: System, id: string, outcome: Outcome)
    requires IdOk(cfg, s, id) && id in s.queued
    ensures var u := Do(cfg, s, Handle(id, outcome));
      && id !in u.queued
      && (id in u.delivered <==> outcome == Success && SecretKnown(cfg, s, id))
  {
    ProcessDelivers(cfg, s.(queued := s.queued - {id}), s.queued[id], outcome);
    hide Process, RoundOk, Cap;
  }

  lemma StepDelivers(cfg: Config, s: System, a: Action, id: string)
    requires Enabled(s, a) && Inv(cfg, s)
    ensures id in Do(cfg, s, a).delivered <==> id in s.delivered || Delivers(cfg, s, a, id)
  {
    var x := Concerned(cfg, s, a);
    InvAt(cfg, s, id);
    hide Inv, Process;
    if x != id {
      StepsAreLocal(cfg, s, a, x, id);
      hide Do, TallyOf;
    } else if a.Handle? {
      HandleDelivers(cfg, s, id, a.outcome);
      hide Do, SecretKnown, Live, Done, ParkedOk;
    } else {
      hide Live, Done, ParkedOk, SecretKnown, Requeued, Parked;
    }
  }

  /** In every run a delivery is delivered exactly if one of its requests, signed
      with a known secret, succeeded. */
  lemma {:induction false} DeliveredExactly(cfg: Config, actions: seq<Action>, id: string)
    requires Schedule(cfg, actions) && cfg.maxAttempts > 0
    ensures id in Run(cfg, actions).delivered <==> WasDelivered(cfg, actions, id)
  {
    if actions != [] {
      var n := |actions| - 1;
      var init := actions[..n];
      DeliveredExactly(cfg, init, id);
      ScheduleKeepsInv(cfg, init);
      StepDelivers(cfg, Run(cfg, init), actions[n], id);
      hide Do, Enabled, Inv, Delivers;
    }
  }

  // ------------------------------------------------------------------ why it parked

  /** The dispatcher's last step on a delivery. */
  function LastWork(actions: seq<Action>, id: string): Option<Action> {
    if actions == [] then None
    else
      var a := actions[|actions| - 1];
      if Works(a) && a.id == id then Some(a) else LastWork(actions[..|actions| - 1], id)
  }

  /** The reason a step leaves behind when it parks a delivery. */
  predicate Tells(a: Action, known: bool, reason: Reason) {
    match a
    case Handle(_, outcome) =>
      if !known then reason == UnknownSecret
      else (outcome == SsrfBlocked && reason == Blocked) || (outcome == Failure && reason == Exhausted)
    case Fire(_, republished) => !republished && reason == RepublishFailed
    case _ => false
  }

  predicate WhyOk(cfg: Config, s: System, id: string, last: Option<Action>) {
    id in s.parked ==> last.Some? && Tells(last.value, SecretKnown(cfg, s, id), s.parked[id].reason)
  }

  lemma ProcessTells(cfg: Config, s: System, t: Task, outcome: Outcome)
    requires Free(s, t.deliveryId)
    ensures var u, id := Process(cfg, s, t, outcome), t.deliveryId;
      && u.submitted == s.submitted
      && (id in u.parked ==> Tells(Handle(id, outcome), t.secretRef in cfg.secrets, u.parked[id].reason))
  {
    assert Tried(t).deliveryId == t.deliveryId && Free(Post(s, t.deliveryId), t.deliveryId);
    assert Post(s, t.deliveryId).submitted == s.submitted;
    ProcessIs(cfg, s, t, outcome);
    hide Process, Tried, Cap, Post;
  }

  lemma HandleTells(cfg: Config, s: System, id: string, outcome: Outcome)
    requires IdOk(cfg, s, id) && id in s.queued
    ensures WhyOk(cfg, Do(cfg, s, Handle(id, outcome)), id, Some(Handle(id, outcome)))
  {
    ProcessTells(cfg, s.(queued := s.queued - {id}), s.queued[id], outcome);
    hide Process, RoundOk, Cap, Tells;
  }

  lemma StepKeepsWhy(cfg: Config, s: System, a: Action, id: string, last: Option<Action>)
    requires Enabled(s, a) && Inv(cfg, s) && WhyOk(cfg, s, id, last)
    ensures WhyOk(cfg, Do(cfg, s, a), id, if Works(a) && a.id == id then Some(a) else last)
  {
    var x := Concerned(cfg, s, a);
    InvAt(cfg, s, id);
    hide Inv, Process;
    if x != id {
      StepsAreLocal(cfg, s, a, x, id);
      hide Do, TallyOf, Tells;
    } else if a.Handle? {
      HandleTells(cfg, s, id, a.outcome);
      hide Do, WhyOk;
    } else {
      hide RoundOk, Cap;
    }
  }

  /** In every run the reason a parked delivery carries is what the dispatcher's last
      step on it met: an unknown secret, a blocked target, the last allowed failure, or
      a queue that did not take it back. */
  lemma {:induction false} ParkedWhy(cfg: Config, actions: seq<Action>, id: string)
    requires Schedule(cfg, actions) && cfg.maxAttempts > 0
    ensures WhyOk(cfg, Run(cfg, actions), id, LastWork(actions, id))
  {
    if actions != [] {
      var init := actions[..|actions| - 1];
      ParkedWhy(cfg, init, id);
      ScheduleKeepsInv(cfg, init);
      hide Do, Enabled, Inv, WhyOk;
      StepKeepsWhy(cfg, Run(cfg, init), actions[|actions| - 1], id, LastWork(init, id));
    }
  }

  /** No request goes out unsigned, and a known secret is never reported unknown. */
  predicate SecretOk(cfg: Config, s: System, id: string) {
    && (Posted(s, id) > 0 ==> SecretKnown(cfg, s, id))
    && (id in s.parked ==> (s.parked[id].reason == UnknownSecret <==> !SecretKnown(cfg, s, id)))
  }

  /** What an attempt with this secret reference leaves is in order. */
  lemma ProcessKeepsSecret(cfg: Config, s: System, t: Task, outcome: Outcome)
    requires Free(s, t.deliveryId) && t.deliveryId in s.submitted
    requires s.submitted[t.deliveryId].secretRef == t.secretRef && SecretOk(cfg, s, t.deliveryId)
    ensures var u, id := Process(cfg, s, t, outcome), t.deliveryId;
      SecretOk(cfg, u, id) && (id in u.waiting ==> Posted(u, id) > 0)
  {
    var posted, id := Post(s, t.deliveryId), t.deliveryId;
    assert Tried(t).deliveryId == id && Free(posted, id) && posted.submitted == s.submitted && Posted(posted, id) > 0;
    ProcessIs(cfg, s, t, outcome);
    hide Process, Tried, Cap, Post;
  }

  lemma HandleKeepsSecret(cfg: Config, s: System, id: string, outcome: Outcome)
    requires IdOk(cfg, s, id) && id in s.queued && SecretOk(cfg, s, id)
    ensures var u := Do(cfg, s, Handle(id, outcome)); SecretOk(cfg, u, id) && (id in u.waiting ==> Posted(u, id) > 0)
  {
    ProcessKeepsSecret(cfg, s.(queued := s.queued - {id}), s.queued[id], outcome);
    hide Process, RoundOk, Cap;
  }

  lemma StepKeepsSecret(cfg: Config, s: System, a: Action, id: string)
    requires Enabled(s, a) && Inv(cfg, s) && SecretOk(cfg, s, id) && (id in s.waiting ==> Posted(s, id) > 0)
    ensures SecretOk(cfg, Do(cfg, s, a), id)
    ensures id in Do(cfg, s, a).waiting ==> Posted(Do(cfg, s, a), id) > 0
  {
    var x := Concerned(cfg, s, a);
    InvAt(cfg, s, id);
    hide Inv, Process;
    if x != id {
      StepsAreLocal(cfg, s, a, x, id);
      hide Do, TallyOf;
    } else if a.Handle? {
      HandleKeepsSecret(cfg, s, id, a.outcome);
      hide Do, SecretOk;
    } else {
      hide RoundOk, Cap;
    }
  }

  lemma {:induction false} SecretsRespected(cfg: Config, actions: seq<Action>, id: string)
    requires Schedule(cfg, actions) && cfg.maxAttempts > 0
    ensures var s := Run(cfg, actions); SecretOk(cfg, s, id) && (id in s.waiting ==> Posted(s, id) > 0)
  {
    if actions != [] {
      var init := actions[..|actions| - 1];
      SecretsRespected(cfg, init, id);
      ScheduleKeepsInv(cfg, init);
      hide Do, Enabled, Inv, SecretOk, Posted;
      StepKeepsSecret(cfg, Run(cfg, init), actions[|actions| - 1], id);
    }
  }

  // ----------------------------------------------------------------- as it runs

  lemma RunSnoc(cfg: Config, trace: seq<Action>, a: Action)
    requires Schedule(cfg, trace) && Enabled(Run(cfg, trace), a)
    ensures Schedule(cfg, trace + [a]) && Run(cfg, trace + [a]) == Do(cfg, Run(cfg, trace), a)
  {
    assert (trace + [a])[..|trace|] == trace;
  }

  /** What a caller may rely on after a step of the dispatcher on one delivery. */
  ghost predicate Progressed(cfg: Config, s: System, t: System, trace: seq<Action>, id: string) {
    && 0 <= Remaining(cfg, t, id) < Remaining(cfg, s, id)
    && Worked(trace, id) + Remaining(cfg, t, id) <= Budget(cfg, t, id)
    && (id in t.submitted ==> Posted(t, id) <= Allowed(cfg, t, id))
    && forall x | x != id :: Untouched(s, t, x)
  }

  lemma StepProgresses(cfg: Config, trace: seq<Action>, a: Action)
    requires Schedule(cfg, trace) && Enabled(Run(cfg, trace), a) && Works(a) && cfg.maxAttempts > 0
    ensures Progressed(cfg, Run(cfg, trace), Do(cfg, Run(cfg, trace), a), trace + [a], a.id)
  {
    var s, id := Run(cfg, trace), a.id;
    RunSnoc(cfg, trace, a);
    ScheduleKeepsInv(cfg, trace);
    var x := Concerned(cfg, s, a);
    InvAt(cfg, s, id);
    WorkIsBounded(cfg, trace + [a], id);
    if id in Run(cfg, trace + [a]).submitted { NothingIsLost(cfg, trace + [a], id); }
    hide Run, Schedule, Do, Enabled, IdOk, Inv, Remaining, Budget, Allowed, Untouched, Worked;
    StepBrings(cfg, s, id, a);
    forall y | y != id ensures Untouched(s, Do(cfg, s, a), y) { StepsAreLocal(cfg, s, a, id, y); }
  }

  class Dispatcher {
    const cfg: Config
    var submitted: map<string, Task>
    var queued: map<string, Task>
    var waiting: map<string, Task>
    var delivered: map<string, Task>
    var parked: map<string, Letter>
    ghost var tallies: map<string, Tally>
    ghost var trace: seq<Action>

    ghost function State(): System
      reads this
    {
      System(submitted, queued, waiting, delivered, parked, tallies)
    }

    /** The dispatcher's fields are what some schedule leaves. */
    ghost predicate Valid()
      reads this
    {
      cfg.maxAttempts > 0 && Schedule(cfg, trace) && Run(cfg, trace) == State()
    }

    constructor (cfg: Config)
      requires cfg.maxAttempts > 0
      ensures Valid() && this.cfg == cfg && trace == []
    {
      this.cfg := cfg;
      submitted, queued, waiting, delivered, parked := map[], map[], map[], map[], map[];
      tallies, trace := map[], [];
    }

    /** A new delivery is queued. */
    method Accept(t: Task)
      requires Valid() && t.deliveryId !in submitted && t.attempt == 0
      modifies this
      ensures Valid() && trace == old(trace) + [Submit(t)] && t.deliveryId in queued
    {
      RunSnoc(cfg, trace, Submit(t));
      hide Run, Schedule;
      submitted := submitted[t.deliveryId := t];
      queued := queued[t.deliveryId := t];
      trace := trace + [Submit(t)];
    }

    method ToDlq(t: Task, reason: Reason)
      modifies this
      ensures State() == Park(old(State()), t, reason) && trace == old(trace)
    {
      parked := parked[t.deliveryId := Parked(t, reason)];
    }

    method Attempt(t: Task, outcome: Outcome)
      modifies this
      ensures State() == Process(cfg, old(State()), t, outcome) && trace == old(trace)
    {
      if t.secretRef !in cfg.secrets {
        ToDlq(t, UnknownSecret);
        return;
      }
      if outcome == SsrfBlocked {
        ToDlq(t, Blocked);
        return;
      }
      tallies := Post(State(), t.deliveryId).tallies;
      var tried := t.(attempt := t.attempt + 1);
      if outcome == Success {
        delivered := delivered[t.deliveryId := tried];
        return;
      }
      var cap := t.maxAttempts;
      if cap <= 0 {
        cap := cfg.maxAttempts;
      }
      if tried.attempt >= cap {
        ToDlq(tried, Exhausted);
        return;
      }
      waiting := waiting[t.deliveryId := tried];
    }

    /** Takes a task off the queue, attempts it and acks it: the delivery is closer to
        its end, within its bounds, delivered exactly if a signed request succeeded,
        and no other delivery notices. */
    method HandleTask(id: string, outcome: Outcome)
      requires Valid() && id in queued
      modifies this
      ensures Valid() && trace == old(trace) + [Handle(id, outcome)]
      ensures id !in queued && Progressed(cfg, old(State()), State(), trace, id)
      ensures id in delivered <==> outcome == Success && SecretKnown(cfg, old(State()), id)
    {
      ghost var s, a := State(), Handle(id, outcome);
      RunSnoc(cfg, trace, a);
      StepProgresses(cfg, trace, a);
      ScheduleKeepsInv(cfg, trace);
      InvAt(cfg, s, id);
      HandleDelivers(cfg, s, id, outcome);
      hide Run, Schedule, Progressed, Process, Inv, IdOk, SecretKnown;
      var t := queued[id];
      queued := queued - {id};
      Attempt(t, outcome);
      trace := trace + [a];
      assert State() == Do(cfg, s, a);
    }

    /** The backoff wait is over: back to the queue, or to the DLQ if that fails. */
    method Republish(id: string, ok: bool)
      requires Valid() && id in waiting
      modifies this
      ensures Valid() && trace == old(trace) + [Fire(id, ok)]
      ensures id !in waiting && Progressed(cfg, old(State()), State(), trace, id)
      ensures if ok then id in queued && queued[id] == old(waiting)[id] else id in parked && parked[id].reason == RepublishFailed
    {
      ghost var s, a := State(), Fire(id, ok);
      RunSnoc(cfg, trace, a);
      StepProgresses(cfg, trace, a);
      ScheduleKeepsInv(cfg, trace);
      InvAt(cfg, s, id);
      hide Run, Schedule, Progressed, Inv;
      var t := waiting[id];
      waiting := waiting - {id};
      if ok {
        queued := queued[id := t];
      } else {
        ToDlq(t, RepublishFailed);
      }
      trace := trace + [a];
      assert State() == Do(cfg, s, a);
    }

    /** A parked delivery is sent back to the queue: the requests it has made still
        count, and it is allowed the default number more. */
    method Redeliver(id: string, ok: bool)
      requires Valid() && id in parked
      modifies this
      ensures Valid() && trace == old(trace) + [Action.Redeliver(id, ok)]
      ensures id in submitted && Posted(State(), id) == Posted(old(State()), id) <= Allowed(cfg, old(State()), id)
      ensures if ok then id in queued && id !in parked && queued[id] == Again(submitted[id]) else State() == old(State())
      ensures Allowed(cfg, State(), id) == Allowed(cfg, old(State()), id) + if ok then cfg.maxAttempts else 0
    {
      ghost var s, a := State(), Action.Redeliver(id, ok);
      RunSnoc(cfg, trace, a);
      ScheduleKeepsInv(cfg, trace);
      InvAt(cfg, s, id);
      assert id in s.submitted;
      NothingIsLost(cfg, trace, id);
      RestartAllows(cfg, s, id);
      hide Run, Schedule, Inv, Allowed, IdOk;
      if ok {
        queued := queued[id := Requeued(parked[id])];
        parked := parked - {id};
        tallies := Restart(s, id).tallies;
      }
      trace := trace + [a];
      assert State() == Do(cfg, s, a);
    }
  }

  lemma RestartAllows(cfg: Config, s: System, id: string)
    requires id in s.parked && id in s.submitted && SameLetter(s, id, s.parked[id])
    ensures var t := Restart(s, id);
      && t.submitted == s.submitted && Posted(t, id) == Posted(s, id) && t.queued[id] == Again(s.submitted[id])
      && Allowed(cfg, t, id) == Allowed(cfg, s, id) + cfg.maxAttempts
  {
    assert Rounds(Restart(s, id), id) == Rounds(s, id) + 1;
    assert (Rounds(s, id) + 1) * cfg.maxAttempts == Rounds(s, id) * cfg.maxAttempts + cfg.maxAttempts;
  }
}
