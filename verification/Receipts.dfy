/**
 Receipt dedup (internal/service/pipeline.go, internal/storage/redis/
 idempotency_store.go): deliveries that share an event_id race over one key with
 set-if-absent, get and delete. Each delivery carries its own fresh ticket, so a
 delivery's number stands for its ticket. No key expires and no store call fails.
 */
module Receipts {

  import opened Wrappers

  type Delivery = nat

  const MAX_TRIES := 3

  datatype Phase =
    | Trying(tries: nat)                // about to set-if-absent
    | Lost(tries: nat)                  // lost it, about to get
    | Reserved                          // told to go ahead, about to publish
    | Failing                           // publish failed, about to release
    | Published                         // accepted under its own ticket
    | Refused                           // failed and released
    | Answered(ticket: Delivery)        // replayed an earlier accept

  /** `releases` counts the failed publishes that gave the key back. */
  datatype System = System(key: Option<Delivery>, phases: map<Delivery, Phase>, releases: nat)

  datatype Action =
    | SetIfAbsent(d: Delivery)
    | Get(d: Delivery)
    | PublishOk(d: Delivery)
    | PublishFails(d: Delivery)
    | Release(d: Delivery)

  function PhaseOf(s: System, d: Delivery): Phase {
    if d in s.phases then s.phases[d] else Trying(0)
  }

  predicate Enabled(s: System, a: Action) {
    match a
    case SetIfAbsent(d) => PhaseOf(s, d).Trying?
    case Get(d) => PhaseOf(s, d).Lost?
    case PublishOk(d) => PhaseOf(s, d) == Reserved
    case PublishFails(d) => PhaseOf(s, d) == Reserved
    case Release(d) => PhaseOf(s, d) == Failing
  }

  function Move(s: System, d: Delivery, p: Phase): System {
    s.(phases := s.phases[d := p])
  }

  function Do(s: System, a: Action): System {
    match a
    case SetIfAbsent(d) =>
      if s.key.None? then Move(s.(key := Some(d)), d, Reserved)
      else (match PhaseOf(s, d) case Trying(n) => Move(s, d, Lost(n)) case _ => s)
    case Get(d) =>
      (match PhaseOf(s, d)
       case Lost(n) =>
         if s.key.Some? then Move(s, d, Answered(s.key.value))
         else if n + 1 == MAX_TRIES then Move(s, d, Reserved)
         else Move(s, d, Trying(n + 1))
       case _ => s)
    case PublishOk(d) => Move(s, d, Published)
    case PublishFails(d) => Move(s, d, Failing)
    case Release(d) => Move(s.(key := None, releases := s.releases + 1), d, Refused)
  }

  const INITIAL := System(None, map[], 0)

  function Run(actions: seq<Action>): System {
    if actions == [] then INITIAL else Do(Run(actions[..|actions| - 1]), actions[|actions| - 1])
  }

  predicate Schedule(actions: seq<Action>) {
    actions == [] ||
    (Schedule(actions[..|actions| - 1]) && Enabled(Run(actions[..|actions| - 1]), actions[|actions| - 1]))
  }

  // ------------------------------------------------------------------ invariants

  predicate Holds(p: Phase) { p == Reserved || p == Failing || p == Published }

  /** Whoever was told to go ahead holds the key, and nobody else does. */
  predicate KeyOk(s: System, d: Delivery) {
    d in s.phases ==> (Holds(s.phases[d]) <==> s.key == Some(d))
  }

  ghost predicate Inv(s: System) {
    && (forall d :: KeyOk(s, d))
    && (s.key.Some? ==> s.key.value in s.phases)
  }

  /** The last get misses: the delivery goes ahead without the key. */
  predicate Strays(s: System, a: Action) {
    a.Get? && s.key.None? && PhaseOf(s, a.d) == Lost(MAX_TRIES - 1)
  }

  /** Some delivery has gone ahead without the key. */
  predicate Strayed(actions: seq<Action>) {
    actions != [] &&
    var init := actions[..|actions| - 1];
    Strayed(init) || Strays(Run(init), actions[|actions| - 1])
  }

  lemma StepKeepsInv(s: System, a: Action)
    requires Inv(s) && Enabled(s, a) && !Strays(s, a)
    ensures Inv(Do(s, a))
  {
    var t := Do(s, a);
    forall d ensures KeyOk(t, d) {
      assert KeyOk(s, d) && KeyOk(s, a.d);
    }
  }

  lemma {:induction false} ScheduleKeepsInv(actions: seq<Action>)
    requires Schedule(actions) && !Strayed(actions)
    ensures Inv(Run(actions))
  {
    if actions == [] {
      assert forall d :: KeyOk(INITIAL, d);
    } else {
      hide Do, Enabled, Strays, Inv;
      ScheduleKeepsInv(actions[..|actions| - 1]);
      StepKeepsInv(Run(actions[..|actions| - 1]), actions[|actions| - 1]);
    }
  }

  // ---------------------------------------------------------------- the theorems

  predicate AtMostOne(s: System) {
    forall d, e | d in s.phases && e in s.phases && s.phases[d] == Published && s.phases[e] == Published :: d == e
  }

  lemma HoldersAgree(s: System)
    requires Inv(s)
    ensures AtMostOne(s)
  {
    forall d, e | d in s.phases && e in s.phases && s.phases[d] == Published && s.phases[e] == Published
      ensures d == e
    {
      assert KeyOk(s, d) && KeyOk(s, e);
    }
  }

  /** However many publishes fail, at most one delivery is accepted as long as none
      has gone ahead without the key. */
  lemma AcceptedAtMostOnce(actions: seq<Action>)
    requires Schedule(actions) && !Strayed(actions)
    ensures AtMostOne(Run(actions))
  {
    ScheduleKeepsInv(actions);
    HoldersAgree(Run(actions));
  }

  // ----------------------------------------------------- once one is accepted

  /** A delivery has been accepted and nobody is out without the key. */
  ghost predicate Settled(s: System, e: Delivery) {
    Inv(s) && PhaseOf(s, e) == Published
  }

  lemma AcceptedIsSettled(actions: seq<Action>, e: Delivery)
    requires Schedule(actions) && !Strayed(actions) && PhaseOf(Run(actions), e) == Published
    ensures Settled(Run(actions), e)
  {
    ScheduleKeepsInv(actions);
  }

  /** From then on the key is its own. */
  lemma SettledKey(s: System, e: Delivery)
    requires Settled(s, e)
    ensures s.key == Some(e) && forall d | d in s.phases && Holds(s.phases[d]) :: d == e
  {
    assert KeyOk(s, e);
    forall d | d in s.phases && Holds(s.phases[d]) ensures d == e { assert KeyOk(s, d); }
  }

  /** No later step undoes it, nor lets anybody go ahead without the key: nobody is
      left to release it. */
  lemma SettledStays(s: System, a: Action, e: Delivery)
    requires Settled(s, e) && Enabled(s, a)
    ensures !Strays(s, a) && Settled(Do(s, a), e)
  {
    SettledKey(s, e);
    StepKeepsInv(s, a);
    hide Inv;
  }

  /** A later repeat loses the key to it and answers with its ticket. */
  lemma RepeatsAnswerSameTicket(s: System, e: Delivery, d: Delivery)
    requires Settled(s, e)
    ensures Enabled(s, SetIfAbsent(d)) ==> PhaseOf(Do(s, SetIfAbsent(d)), d).Lost?
    ensures Enabled(s, Get(d)) ==> PhaseOf(Do(s, Get(d)), d) == Answered(e)
  {
    SettledKey(s, e);
  }

  function RunFrom(s: System, actions: seq<Action>): System
    decreases |actions|
  {
    if actions == [] then s else RunFrom(Do(s, actions[0]), actions[1..])
  }

  predicate ScheduleFrom(s: System, actions: seq<Action>)
    decreases |actions|
  {
    actions == [] || (Enabled(s, actions[0]) && ScheduleFrom(Do(s, actions[0]), actions[1..]))
  }

  /** Nobody goes ahead without the key from here on. */
  predicate KeptFrom(s: System, actions: seq<Action>)
    decreases |actions|
  {
    actions == [] || (!Strays(s, actions[0]) && KeptFrom(Do(s, actions[0]), actions[1..]))
  }

  /** Accepted once is accepted for good: whatever follows, however many publishes
      fail, no second delivery is accepted and none goes ahead without the key. */
  lemma {:induction false} AcceptedForGood(s: System, e: Delivery, later: seq<Action>)
    requires Settled(s, e) && ScheduleFrom(s, later)
    ensures Settled(RunFrom(s, later), e) && AtMostOne(RunFrom(s, later)) && KeptFrom(s, later)
    decreases |later|
  {
    if later == [] {
      HoldersAgree(s);
    } else {
      hide Settled, Strays;
      SettledStays(s, later[0], e);
      AcceptedForGood(Do(s, later[0]), e, later[1..]);
    }
  }

  lemma {:induction false} KeptKeepsInv(s: System, later: seq<Action>)
    requires Inv(s) && ScheduleFrom(s, later) && KeptFrom(s, later)
    ensures Inv(RunFrom(s, later))
    decreases |later|
  {
    if later != [] {
      hide Inv, Strays, Do, Enabled;
      StepKeepsInv(s, later[0]);
      KeptKeepsInv(Do(s, later[0]), later[1..]);
    }
  }

  // -------------------------------------------------- going ahead without the key

  /** A delivery nobody has seen yet. */
  lemma {:induction false} Unseen(seen: set<Delivery>) returns (d: Delivery)
    ensures forall x <- seen :: x < d
  {
    if seen == {} {
      d := 0;
    } else {
      var x :| x in seen;
      d := Unseen(seen - {x});
      d := if x < d then d else x + 1;
      assert forall y <- seen :: y == x || y in seen - {x};
    }
  }

  /** Two more accepts are open to a delivery that went ahead without the key and to
      a new one, although nobody else strays. */
  lemma StrayAcceptsTwo(s: System, d: Delivery) returns (later: seq<Action>)
    requires s.key.None? && PhaseOf(s, d) == Reserved
    ensures ScheduleFrom(s, later) && KeptFrom(s, later) && !AtMostOne(RunFrom(s, later))
  {
    var e := Unseen(s.phases.Keys);
    assert d in s.phases && e !in s.phases;
    later := [SetIfAbsent(e), PublishOk(e), PublishOk(d)];
    ThreeSteps(s, SetIfAbsent(e), PublishOk(e), PublishOk(d));
    KeptThree(s, SetIfAbsent(e), PublishOk(e), PublishOk(d));
    var t := RunFrom(s, later);
    hide RunFrom, ScheduleFrom, KeptFrom;
    assert d in t.phases && e in t.phases && t.phases[d] == Published && t.phases[e] == Published && d != e;
  }

  lemma KeptThree(s: System, a: Action, b: Action, c: Action)
    requires !a.Get? && !b.Get? && !c.Get?
    ensures KeptFrom(s, [a, b, c])
  {
    hide Do;
    assert [a, b, c][1..] == [b, c] && [b, c][1..] == [c] && [c][1..] == [];
    assert KeptFrom(Do(Do(s, a), b), [c]);
    assert KeptFrom(Do(s, a), [b, c]);
  }

  /** A delivery out without the key that fails gives back somebody else's: even an
      accepted one is then no longer the only one there can be. */
  lemma StrayReleaseReopens(s: System, d: Delivery, e: Delivery) returns (later: seq<Action>)
    requires s.key == Some(e) && PhaseOf(s, e) == Published && PhaseOf(s, d) == Failing
    ensures ScheduleFrom(s, later) && KeptFrom(s, later) && !AtMostOne(RunFrom(s, later))
  {
    var x := Unseen(s.phases.Keys);
    assert e in s.phases && x !in s.phases;
    later := [Release(d), SetIfAbsent(x), PublishOk(x)];
    ThreeSteps(s, Release(d), SetIfAbsent(x), PublishOk(x));
    KeptThree(s, Release(d), SetIfAbsent(x), PublishOk(x));
    var t := RunFrom(s, later);
    hide RunFrom, ScheduleFrom, KeptFrom;
    assert e in t.phases && x in t.phases && t.phases[e] == Published && t.phases[x] == Published && e != x;
  }

  ghost predicate CanAcceptTwo(s: System) {
    exists later :: ScheduleFrom(s, later) && KeptFrom(s, later) && !AtMostOne(RunFrom(s, later))
  }

  /** The exact danger: of all steps of a run in which everybody has kept to the key,
      those after which two accepts become possible, with nobody straying from then
      on, are the gets that go ahead without it. */
  lemma StrayExactly(actions: seq<Action>, a: Action)
    requires Schedule(actions) && !Strayed(actions) && Enabled(Run(actions), a)
    ensures CanAcceptTwo(Do(Run(actions), a)) <==> Strays(Run(actions), a)
  {
    ScheduleKeepsInv(actions);
    var s := Run(actions);
    hide Run, Schedule, Strayed;
    if Strays(s, a) {
      var later := StrayAcceptsTwo(Do(s, a), a.d);
    } else {
      StepKeepsInv(s, a);
      hide Inv, Do, Strays, Enabled;
      forall later | ScheduleFrom(Do(s, a), later) && KeptFrom(Do(s, a), later)
        ensures AtMostOne(RunFrom(Do(s, a), later))
      {
        KeptKeepsInv(Do(s, a), later);
        HoldersAgree(RunFrom(Do(s, a), later));
      }
    }
  }

  // -------------------------------------------------------- three failed publishes

  lemma {:induction false} ForwardIsBackward(before: seq<Action>, after: seq<Action>)
    requires Schedule(before) && ScheduleFrom(Run(before), after)
    ensures Schedule(before + after) && Run(before + after) == RunFrom(Run(before), after)
    decreases |after|
  {
    hide Do, Enabled;
    if after == [] {
      assert before + after == before;
    } else {
      var next := before + [after[0]];
      assert next[..|next| - 1] == before;
      ForwardIsBackward(next, after[1..]);
      assert before + after == next + after[1..];
    }
  }

  /** Delivery d fails between delivery 0's lost set-if-absent and its get. */
  function Round(d: Delivery): seq<Action> {
    [SetIfAbsent(d), SetIfAbsent(0), PublishFails(d), Release(d), Get(0)]
  }

  lemma OneStep(s: System, a: Action)
    requires Enabled(s, a)
    ensures ScheduleFrom(s, [a]) && RunFrom(s, [a]) == Do(s, a)
  {
    hide Do, Enabled;
    assert [a][1..] == [];
  }

  lemma TwoSteps(s: System, a: Action, b: Action)
    requires Enabled(s, a) && Enabled(Do(s, a), b)
    ensures ScheduleFrom(s, [a, b]) && RunFrom(s, [a, b]) == Do(Do(s, a), b)
  {
    hide Do, Enabled;
    OneStep(Do(s, a), b);
    assert [a, b][1..] == [b];
  }

  lemma ThreeSteps(s: System, a: Action, b: Action, c: Action)
    requires Enabled(s, a) && Enabled(Do(s, a), b) && Enabled(Do(Do(s, a), b), c)
    ensures ScheduleFrom(s, [a, b, c]) && RunFrom(s, [a, b, c]) == Do(Do(Do(s, a), b), c)
  {
    hide Do, Enabled;
    TwoSteps(Do(s, a), b, c);
    assert [a, b, c][1..] == [b, c];
  }

  /** A round costs delivery 0 a try; the third sends it ahead without the key. */
  lemma RoundMisses(trace: seq<Action>, d: Delivery)
    requires Schedule(trace) && Run(trace).key.None? && d != 0 && PhaseOf(Run(trace), d) == Trying(0)
    requires PhaseOf(Run(trace), 0).Trying? && PhaseOf(Run(trace), 0).tries < MAX_TRIES
    ensures var s, t := Run(trace), Run(trace + Round(d));
      && Schedule(trace + Round(d)) && t.key.None? && t.releases == s.releases + 1
      && PhaseOf(t, 0) == (if PhaseOf(s, 0).tries + 1 == MAX_TRIES then Reserved else Trying(PhaseOf(s, 0).tries + 1))
      && forall x | x != 0 && x != d :: PhaseOf(t, x) == PhaseOf(s, x)
  {
    var s := Run(trace);
    hide Run, Schedule, RunFrom, ScheduleFrom;
    var n := PhaseOf(s, 0).tries;
    var s1 := Do(s, SetIfAbsent(d));
    var s2 := Do(s1, SetIfAbsent(0));
    assert PhaseOf(s1, d) == Reserved && PhaseOf(s1, 0) == Trying(n) && s1.key == Some(d);
    assert PhaseOf(s2, 0) == Lost(n) && PhaseOf(s2, d) == Reserved && s2.key == Some(d);
    var s3 := Do(s2, PublishFails(d));
    var s4 := Do(s3, Release(d));
    assert PhaseOf(s3, d) == Failing && PhaseOf(s4, 0) == Lost(n) && s4.key.None?;
    TwoSteps(s, SetIfAbsent(d), SetIfAbsent(0));
    ForwardIsBackward(trace, [SetIfAbsent(d), SetIfAbsent(0)]);
    ThreeSteps(s2, PublishFails(d), Release(d), Get(0));
    ForwardIsBackward(trace + [SetIfAbsent(d), SetIfAbsent(0)], [PublishFails(d), Release(d), Get(0)]);
    assert trace + Round(d) == trace + [SetIfAbsent(d), SetIfAbsent(0)] + [PublishFails(d), Release(d), Get(0)];
  }

  /** Three rounds, then delivery 4 is accepted and delivery 0 too. */
  const RACE: seq<Action> := [] + Round(1) + Round(2) + Round(3) + [SetIfAbsent(4), PublishOk(4), PublishOk(0)]

  lemma ThreeFailuresAcceptTwo()
    ensures Schedule(RACE) && Run(RACE).releases == 3
    ensures PhaseOf(Run(RACE), 4) == Published && PhaseOf(Run(RACE), 0) == Published
  {
    assert Run([]) == INITIAL && Schedule([]);
    hide Run, Schedule, Round, RunFrom, ScheduleFrom;
    RoundMisses([], 1);
    RoundMisses([] + Round(1), 2);
    RoundMisses([] + Round(1) + Round(2), 3);
    var s := Run([] + Round(1) + Round(2) + Round(3));
    ThreeSteps(s, SetIfAbsent(4), PublishOk(4), PublishOk(0));
    ForwardIsBackward([] + Round(1) + Round(2) + Round(3), [SetIfAbsent(4), PublishOk(4), PublishOk(0)]);
  }

  /** Every miss is paid for by a release. */
  predicate Paid(s: System, d: Delivery) {
    match PhaseOf(s, d)
    case Trying(n) => n <= s.releases
    case Lost(n) => n <= s.releases && (s.key.None? ==> n + 1 <= s.releases)
    case _ => true
  }

  lemma StepPays(s: System, a: Action, d: Delivery)
    requires Paid(s, d) && Paid(s, a.d) && Enabled(s, a)
    ensures Paid(Do(s, a), d)
  {
  }

  lemma {:induction false} SchedulePays(actions: seq<Action>, d: Delivery)
    requires Schedule(actions)
    ensures Paid(Run(actions), d)
  {
    if actions != [] {
      hide Do, Enabled, Paid;
      var init, a := actions[..|actions| - 1], actions[|actions| - 1];
      SchedulePays(init, d);
      SchedulePays(init, a.d);
      StepPays(Run(init), a, d);
    }
  }

  /** Nobody goes ahead without the key before the third failed publish. */
  lemma {:induction false} StraysCostThree(actions: seq<Action>)
    requires Schedule(actions) && Run(actions).releases < MAX_TRIES
    ensures !Strayed(actions)
  {
    if actions != [] {
      var init, a := actions[..|actions| - 1], actions[|actions| - 1];
      SchedulePays(init, a.d);
      assert Run(init).releases <= Run(actions).releases;
      StraysCostThree(init);
    }
  }

  ghost predicate Safe(n: nat) {
    forall actions | Schedule(actions) && Run(actions).releases <= n :: AtMostOne(Run(actions))
  }

  /** Counting failures alone, at most one accept is guaranteed exactly up to two. */
  lemma AtMostOnceExactly(n: nat)
    ensures Safe(n) <==> n <= 2
  {
    hide Run, Schedule;
    if n <= 2 {
      forall actions | Schedule(actions) && Run(actions).releases <= n ensures AtMostOne(Run(actions)) {
        StraysCostThree(actions);
        AcceptedAtMostOnce(actions);
      }
    } else {
      ThreeFailuresAcceptTwo();
      var s := Run(RACE);
      assert 0 in s.phases && 4 in s.phases && s.phases[0] == Published && s.phases[4] == Published;
      assert !AtMostOne(s);
    }
  }

  // ------------------------------------------------------------- answered tickets

  /** The holder of the key is about to publish, has, or is about to release it. */
  predicate HolderOk(s: System) {
    s.key.Some? ==> Holds(PhaseOf(s, s.key.value))
  }

  /** A ticket answered with is that of a delivery that was told to go ahead. */
  predicate AnswerOk(s: System, d: Delivery) {
    PhaseOf(s, d).Answered? ==>
      Holds(PhaseOf(s, PhaseOf(s, d).ticket)) || PhaseOf(s, PhaseOf(s, d).ticket) == Refused
  }

  /** This needs nobody to keep to the key. */
  lemma StepKeepsAnswers(s: System, a: Action, d: Delivery)
    requires Enabled(s, a) && HolderOk(s) && AnswerOk(s, d)
    ensures HolderOk(Do(s, a)) && AnswerOk(Do(s, a), d)
  {
  }

  lemma {:induction false} AnswersAreTold(actions: seq<Action>, d: Delivery)
    requires Schedule(actions)
    ensures HolderOk(Run(actions)) && AnswerOk(Run(actions), d)
  {
    if actions != [] {
      hide Do, Enabled, HolderOk, AnswerOk;
      AnswersAreTold(actions[..|actions| - 1], d);
      StepKeepsAnswers(Run(actions[..|actions| - 1]), actions[|actions| - 1], d);
    }
  }

  /** An accept is never taken back. */
  lemma {:induction false} PublishedStays(s: System, e: Delivery, later: seq<Action>)
    requires PhaseOf(s, e) == Published && ScheduleFrom(s, later)
    ensures PhaseOf(RunFrom(s, later), e) == Published
    decreases |later|
  {
    if later != [] { PublishedStays(Do(s, later[0]), e, later[1..]); }
  }

  ghost predicate CanRefuse(s: System, e: Delivery) {
    exists later :: ScheduleFrom(s, later) && PhaseOf(RunFrom(s, later), e) == Refused
  }

  lemma ToldCanRefuse(s: System, e: Delivery) returns (later: seq<Action>)
    requires PhaseOf(s, e) == Reserved || PhaseOf(s, e) == Failing || PhaseOf(s, e) == Refused
    ensures ScheduleFrom(s, later) && PhaseOf(RunFrom(s, later), e) == Refused
  {
    if PhaseOf(s, e) == Reserved {
      later := [PublishFails(e), Release(e)];
      TwoSteps(s, PublishFails(e), Release(e));
    } else if PhaseOf(s, e) == Failing {
      later := [Release(e)];
      OneStep(s, Release(e));
    } else {
      later := [];
    }
  }

  /** A repeat may be answered with a ticket that is then refused, exactly as long as
      that ticket's delivery has not been accepted. */
  lemma AnsweredExactly(actions: seq<Action>, d: Delivery)
    requires Schedule(actions) && PhaseOf(Run(actions), d).Answered?
    ensures var s := Run(actions); var e := PhaseOf(s, d).ticket;
      CanRefuse(s, e) <==> PhaseOf(s, e) != Published
  {
    AnswersAreTold(actions, d);
    var s := Run(actions);
    var e := PhaseOf(s, d).ticket;
    hide Run, Schedule;
    if PhaseOf(s, e) == Published {
      forall later | ScheduleFrom(s, later) ensures PhaseOf(RunFrom(s, later), e) == Published {
        PublishedStays(s, e, later);
      }
    } else {
      var later := ToldCanRefuse(s, e);
    }
  }

  /** Delivery 1 is answered with the ticket of delivery 0, whose publish then fails:
      one delivery was refused, the other told it is accepted, and nothing was. */
  const LOST: seq<Action> := [SetIfAbsent(0), SetIfAbsent(1), Get(1)] + [PublishFails(0), Release(0)]

  lemma AnsweredTicketRefused()
    ensures Schedule(LOST) && !Strayed(LOST)
    ensures PhaseOf(Run(LOST), 1) == Answered(0) && PhaseOf(Run(LOST), 0) == Refused
  {
    var first := [SetIfAbsent(0), SetIfAbsent(1), Get(1)];
    assert Schedule([]) && Run([]) == INITIAL && [] + first == first;
    ThreeSteps(INITIAL, SetIfAbsent(0), SetIfAbsent(1), Get(1));
    ForwardIsBackward([], first);
    var s := Run(first);
    assert PhaseOf(s, 1) == Answered(0) && PhaseOf(s, 0) == Reserved && s.releases == 0;
    TwoSteps(s, PublishFails(0), Release(0));
    ForwardIsBackward(first, [PublishFails(0), Release(0)]);
    hide Run, Schedule, ScheduleFrom, RunFrom, Strayed;
    StraysCostThree(LOST);
  }

  // ----------------------------------------------------------------- as it runs

  lemma RunSnoc(trace: seq<Action>, a: Action)
    requires Schedule(trace) && Enabled(Run(trace), a)
    ensures Schedule(trace + [a]) && Run(trace + [a]) == Do(Run(trace), a)
  {
    assert (trace + [a])[..|trace|] == trace;
  }

  lemma RepeatsAnswer(s: System, d: Delivery)
    ensures forall e: Delivery | Settled(s, e) && Enabled(s, SetIfAbsent(d)) :: PhaseOf(Do(s, SetIfAbsent(d)), d).Lost?
    ensures forall e: Delivery | Settled(s, e) && Enabled(s, Get(d)) :: PhaseOf(Do(s, Get(d)), d) == Answered(e)
  {
    forall e: Delivery | Settled(s, e)
      ensures Enabled(s, SetIfAbsent(d)) ==> PhaseOf(Do(s, SetIfAbsent(d)), d).Lost?
      ensures Enabled(s, Get(d)) ==> PhaseOf(Do(s, Get(d)), d) == Answered(e)
    {
      RepeatsAnswerSameTicket(s, e, d);
    }
  }

  lemma AllSettled(actions: seq<Action>)
    requires Schedule(actions)
    ensures !Strayed(actions) ==> forall e: Delivery | PhaseOf(Run(actions), e) == Published :: Settled(Run(actions), e)
  {
    if !Strayed(actions) {
      hide Run, Schedule, Strayed, Settled;
      forall e: Delivery | PhaseOf(Run(actions), e) == Published ensures Settled(Run(actions), e) {
        AcceptedIsSettled(actions, e);
      }
    }
  }

  /** Another delivery's step does not move this one. */
  lemma StepsAreLocal(s: System, a: Action, d: Delivery)
    requires a.d != d
    ensures PhaseOf(Do(s, a), d) == PhaseOf(s, d)
  {
  }

  /** The dedup store shared by the deliveries; `trace` is what has happened. */
  class Barrier {
    var sys: System
    ghost var trace: seq<Action>

    ghost predicate Valid()
      reads this
    {
      Schedule(trace) && Run(trace) == sys
    }

    /** Whoever was settled still is. */
    twostate predicate Kept()
      reads this
    {
      old(trace) <= trace && forall e :: Settled(old(sys), e) ==> Settled(sys, e)
    }

    constructor ()
      ensures Valid() && sys == INITIAL
    {
      sys, trace := INITIAL, [];
    }

    method Step(a: Action)
      requires Valid() && Enabled(sys, a)
      modifies this
      ensures Valid() && sys == Do(old(sys), a) && Kept()
    {
      hide Do, Enabled, Settled;
      RunSnoc(trace, a);
      forall e | Settled(sys, e) ensures Settled(Do(sys, a), e) { SettledStays(sys, a, e); }
      sys := Do(sys, a);
      trace := trace + [a];
    }

    /** Whatever the other deliveries manage to do in the meantime. */
    method Meanwhile(d: Delivery, actions: seq<Action>)
      requires Valid()
      modifies this
      ensures Valid() && PhaseOf(sys, d) == PhaseOf(old(sys), d) && Kept()
    {
      hide Do, Enabled, Run, Schedule, Settled;
      for i := 0 to |actions|
        invariant Valid() && PhaseOf(sys, d) == PhaseOf(old(sys), d) && Kept()
      {
        if actions[i].d != d && Enabled(sys, actions[i]) {
          StepsAreLocal(sys, actions[i], d);
          Step(actions[i]);
        }
      }
    }

    /** Claims the key, or finds out whose it is; `others` says what the others do
        before each store call. */
    method Reserve(d: Delivery, others: nat -> seq<Action>) returns (existing: Option<Delivery>)
      requires Valid() && PhaseOf(sys, d) == Trying(0)
      modifies this
      ensures Valid() && Kept()
      ensures PhaseOf(sys, d) == if existing.None? then Reserved else Answered(existing.value)
      ensures forall e: Delivery | Settled(old(sys), e) :: existing == Some(e)
      ensures !Strayed(old(trace)) ==>
        forall e: Delivery | PhaseOf(old(sys), e) == Published :: existing == Some(e)
    {
      AllSettled(trace);
      hide Run, Schedule, Settled, Strayed;
      for n := 0 to MAX_TRIES
        invariant Valid() && Kept()
        invariant PhaseOf(sys, d) == if n < MAX_TRIES then Trying(n) else Reserved
        invariant n == MAX_TRIES ==> forall e: Delivery :: !Settled(old(sys), e)
      {
        Meanwhile(d, others(2 * n));
        RepeatsAnswer(sys, d);
        Step(SetIfAbsent(d));
        if PhaseOf(sys, d) == Reserved {
          return None;
        }
        Meanwhile(d, others(2 * n + 1));
        RepeatsAnswer(sys, d);
        Step(Get(d));
        if PhaseOf(sys, d).Answered? {
          return Some(PhaseOf(sys, d).ticket);
        }
      }
      return None;
    }

    /** One delivery: reserve, publish, release on failure. Once another has been
        accepted and nobody went ahead without the key, this one answers with its ticket. */
    method Enqueue(d: Delivery, others: nat -> seq<Action>, published: bool) returns (ticket: Option<Delivery>)
      requires Valid() && PhaseOf(sys, d) == Trying(0)
      modifies this
      ensures Valid() && Kept()
      ensures ticket.None? ==> !published && PhaseOf(sys, d) == Refused
      ensures ticket.Some? ==>
        PhaseOf(sys, d) == Answered(ticket.value) || (published && ticket == Some(d) && PhaseOf(sys, d) == Published)
      ensures !Strayed(old(trace)) ==>
        forall e: Delivery | PhaseOf(old(sys), e) == Published :: ticket == Some(e)
    {
      AllSettled(trace);
      hide Run, Schedule, Settled, Strayed;
      var existing := Reserve(d, others);
      if existing.Some? {
        return existing;
      }
      Meanwhile(d, others(2 * MAX_TRIES));
      if published {
        Step(PublishOk(d));
        return Some(d);
      }
      Step(PublishFails(d));
      Meanwhile(d, others(2 * MAX_TRIES + 1));
      Step(Release(d));
      return None;
    }
  }
}
