/**
 Version allocation by any number of concurrent writers over the unique
 (entity, version) and event_id indexes (internal/storage/mongo/event_repo.go).
 Reading the tail and inserting one document are the atomic steps; a schedule is
 any list of such steps.
 */
module Appends {

  type Writer = nat

  const MAX_RETRIES := 16

  /** A stored document and, for the record, who inserted it. */
  datatype Doc = Doc(entity: string, version: int, eventId: string, writer: Writer)

  /** Where a writer stands. `start` is how many versions of the entity were
      stored when its call began; it only serves the statement of the theorems. */
  datatype Phase =
    | Idle
    | Reading(entity: string, eventId: string, tries: nat, start: nat)
    | Inserting(entity: string, eventId: string, tries: nat, start: nat, last: nat)
    | GaveUp(entity: string, start: nat)
    | InBatch(rest: seq<Doc>)

  datatype System = System(log: seq<Doc>, phases: map<Writer, Phase>)

  /** `claim` of Insert: which violated index the server names when both are. */
  datatype Action =
    | Begin(w: Writer, entity: string, eventId: string)
    | ReadTail(w: Writer)
    | Insert(w: Writer, claim: Clash)
    | BeginBatch(w: Writer, docs: seq<Doc>, base: map<string, nat>)
    | InsertNext(w: Writer)

  datatype Clash = OnVersion | OnEventId

  // --------------------------------------------------------------------- indexes

  function Of(log: seq<Doc>, entity: string): (h: seq<Doc>)
    ensures forall d <- h :: d in log && d.entity == entity
  {
    if log == [] then []
    else
      var d := log[|log| - 1];
      Of(log[..|log| - 1], entity) + if d.entity == entity then [d] else []
  }

  function Count(log: seq<Doc>, entity: string): nat { |Of(log, entity)| }

  predicate VersionTaken(log: seq<Doc>, entity: string, v: int) {
    exists i | 0 <= i < |log| :: log[i].entity == entity && log[i].version == v
  }

  predicate IdTaken(log: seq<Doc>, id: string) {
    id != "" && exists i | 0 <= i < |log| :: log[i].eventId == id
  }

  /** Highest stored version of the entity, 0 when it has none. */
  function LastVersion(log: seq<Doc>, entity: string): (v: int)
    ensures v >= 0
    ensures forall i | 0 <= i < |log| && log[i].entity == entity :: log[i].version <= v
    ensures v == 0 || VersionTaken(log, entity, v)
  {
    if log == [] then 0
    else
      var d := log[|log| - 1];
      var v := LastVersion(log[..|log| - 1], entity);
      assert v != 0 ==> VersionTaken(log[..|log| - 1], entity, v);
      if d.entity == entity && d.version > v then d.version else v
  }

  // ----------------------------------------------------------------------- steps

  function PhaseOf(s: System, w: Writer): Phase {
    if w in s.phases then s.phases[w] else Idle
  }

  function Move(s: System, w: Writer, p: Phase): System {
    s.(phases := s.phases[w := p])
  }

  function Put(s: System, w: Writer, d: Doc, p: Phase): System {
    System(s.log + [d], s.phases[w := p])
  }

  function CountDocs(docs: seq<Doc>, entity: string): nat { |Of(docs, entity)| }

  /** A batch numbered locally: per entity consecutive from a version that cur_*
      once showed, which may be stale but was stored. */
  predicate Numbered(log: seq<Doc>, docs: seq<Doc>, base: map<string, nat>) {
    forall i | 0 <= i < |docs| ::
      && docs[i].entity in base && base[docs[i].entity] <= Count(log, docs[i].entity)
      && docs[i].version == base[docs[i].entity] + 1 + CountDocs(docs[..i], docs[i].entity)
  }

  /** No call of the writer is under way. */
  predicate Free(p: Phase) {
    p.Idle? || p.GaveUp? || (p.InBatch? && p.rest == [])
  }

  predicate Enabled(s: System, a: Action) {
    match a
    case Begin(w, _, _) => Free(PhaseOf(s, w))
    case ReadTail(w) => PhaseOf(s, w).Reading?
    case Insert(w, claim) =>
      var p := PhaseOf(s, w);
      && p.Inserting?
      && (VersionTaken(s.log, p.entity, p.last + 1) || IdTaken(s.log, p.eventId) ==>
            if claim == OnVersion then VersionTaken(s.log, p.entity, p.last + 1) else IdTaken(s.log, p.eventId))
    case BeginBatch(w, docs, base) =>
      && Free(PhaseOf(s, w)) && Numbered(s.log, docs, base)
      && forall i | 0 <= i < |docs| :: docs[i].writer == w
    case InsertNext(w) => PhaseOf(s, w).InBatch? && PhaseOf(s, w).rest != []
  }

  function Do(s: System, a: Action): System {
    match a
    case Begin(w, entity, id) => Move(s, w, Reading(entity, id, 0, Count(s.log, entity)))
    case ReadTail(w) =>
      (match PhaseOf(s, w)
       case Reading(e, id, tries, start) => Move(s, w, Inserting(e, id, tries, start, LastVersion(s.log, e)))
       case _ => s)
    case Insert(w, claim) =>
      (match PhaseOf(s, w)
       case Inserting(e, id, tries, start, last) =>
         if !VersionTaken(s.log, e, last + 1) && !IdTaken(s.log, id) then Put(s, w, Doc(e, last + 1, id, w), Idle)
         else if claim == OnEventId then Move(s, w, Idle)
         else if tries + 1 == MAX_RETRIES then Move(s, w, GaveUp(e, start))
         else Move(s, w, Reading(e, id, tries + 1, start))
       case _ => s)
    case BeginBatch(w, docs, _) => Move(s, w, InBatch(docs))
    case InsertNext(w) =>
      (match PhaseOf(s, w)
       case InBatch(rest) =>
         if rest == [] then s
         else if VersionTaken(s.log, rest[0].entity, rest[0].version) || IdTaken(s.log, rest[0].eventId)
         then Move(s, w, Idle)
         else Put(s, w, rest[0], InBatch(rest[1..]))
       case _ => s)
  }

  const INITIAL := System([], map[])

  function Run(actions: seq<Action>): System {
    if actions == [] then INITIAL else Do(Run(actions[..|actions| - 1]), actions[|actions| - 1])
  }

  predicate Schedule(actions: seq<Action>) {
    actions == [] ||
    (Schedule(actions[..|actions| - 1]) && Enabled(Run(actions[..|actions| - 1]), actions[|actions| - 1]))
  }

  // ------------------------------------------------------------------ invariants

  /** The entity's documents carry versions 1, 2, ..., n in insertion order. */
  ghost predicate GapFree(log: seq<Doc>, entity: string) {
    forall i | 0 <= i < Count(log, entity) :: Of(log, entity)[i].version == i + 1
  }

  /** No document of the entity beyond `start` was inserted by w. */
  ghost predicate OthersSince(log: seq<Doc>, entity: string, start: nat, w: Writer) {
    forall i | start <= i < Count(log, entity) :: Of(log, entity)[i].writer != w
  }

  /** The next document of each entity is at most one past what is stored. */
  ghost predicate Reaches(log: seq<Doc>, rest: seq<Doc>) {
    forall i | 0 <= i < |rest| ::
      1 <= rest[i].version <= Count(log, rest[i].entity) + 1 + CountDocs(rest[..i], rest[i].entity)
  }

  ghost predicate PhaseOk(log: seq<Doc>, w: Writer, p: Phase) {
    match p
    case Idle => true
    case Reading(e, _, tries, start) =>
      tries < MAX_RETRIES && start + tries <= Count(log, e) && OthersSince(log, e, start, w)
    case Inserting(e, _, tries, start, last) =>
      tries < MAX_RETRIES && start + tries <= last <= Count(log, e) && OthersSince(log, e, start, w)
    case GaveUp(e, start) => start + MAX_RETRIES <= Count(log, e) && OthersSince(log, e, start, w)
    case InBatch(rest) => Reaches(log, rest) && forall i | 0 <= i < |rest| :: rest[i].writer == w
  }

  ghost predicate UniqueIds(log: seq<Doc>) {
    forall i, j | 0 <= i < j < |log| && log[i].eventId != "" :: log[i].eventId != log[j].eventId
  }

  ghost predicate Inv(s: System) {
    && (forall e :: GapFree(s.log, e))
    && UniqueIds(s.log)
    && (forall w <- s.phases :: PhaseOk(s.log, w, s.phases[w]))
  }

  // ----------------------------------------------------------------- small facts

  lemma OfSnoc(log: seq<Doc>, d: Doc, entity: string)
    ensures Of(log + [d], entity) == Of(log, entity) + if d.entity == entity then [d] else []
  {
    assert (log + [d])[..|log|] == log;
  }

  lemma {:induction false} OfIncludes(log: seq<Doc>, d: Doc)
    requires d in log
    ensures d in Of(log, d.entity)
  {
    if d != log[|log| - 1] { OfIncludes(log[..|log| - 1], d); }
  }

  /** In a gap-free log exactly the versions 1..n are taken. */
  lemma TakenExactly(log: seq<Doc>, entity: string, v: int)
    requires GapFree(log, entity)
    ensures VersionTaken(log, entity, v) <==> 1 <= v <= Count(log, entity)
  {
    var h := Of(log, entity);
    if VersionTaken(log, entity, v) {
      var i :| 0 <= i < |log| && log[i].entity == entity && log[i].version == v;
      OfIncludes(log, log[i]);
      var j :| 0 <= j < |h| && h[j] == log[i];
    }
    if 1 <= v <= |h| {
      assert h[v - 1] in h;
      var i :| 0 <= i < |log| && log[i] == h[v - 1];
    }
  }

  lemma TailIsCount(log: seq<Doc>, entity: string)
    requires GapFree(log, entity)
    ensures LastVersion(log, entity) == Count(log, entity)
  {
    var n := Count(log, entity);
    TakenExactly(log, entity, LastVersion(log, entity));
    TakenExactly(log, entity, n);
  }

  // --------------------------------------------------------- an insert is next

  /** A free version at most one past the end is exactly the next one. */
  lemma PutKeepsGapFree(log: seq<Doc>, d: Doc, entity: string)
    requires GapFree(log, entity) && GapFree(log, d.entity)
    requires 1 <= d.version <= Count(log, d.entity) + 1 && !VersionTaken(log, d.entity, d.version)
    ensures GapFree(log + [d], entity)
  {
    TakenExactly(log, d.entity, d.version);
    OfSnoc(log, d, entity);
  }

  lemma PutKeepsPhase(log: seq<Doc>, d: Doc, w: Writer, p: Phase)
    requires PhaseOk(log, w, p) && d.writer != w
    ensures PhaseOk(log + [d], w, p)
  {
    if p.InBatch? {
      forall i | 0 <= i < |p.rest|
        ensures 1 <= p.rest[i].version <= Count(log + [d], p.rest[i].entity) + 1 + CountDocs(p.rest[..i], p.rest[i].entity)
      {
        OfSnoc(log, d, p.rest[i].entity);
      }
    } else if p != Idle {
      OfSnoc(log, d, p.entity);
    }
  }

  lemma PutKeepsInv(s: System, w: Writer, d: Doc, p: Phase)
    requires Inv(s) && d.writer == w && PhaseOk(s.log + [d], w, p)
    requires 1 <= d.version <= Count(s.log, d.entity) + 1
    requires !VersionTaken(s.log, d.entity, d.version) && !IdTaken(s.log, d.eventId)
    ensures Inv(Put(s, w, d, p))
  {
    var t := Put(s, w, d, p);
    forall e ensures GapFree(t.log, e) { PutKeepsGapFree(s.log, d, e); }
    forall x <- t.phases ensures PhaseOk(t.log, x, t.phases[x]) {
      if x != w { PutKeepsPhase(s.log, d, x, s.phases[x]); }
    }
  }

  lemma CountDocsHead(rest: seq<Doc>, i: nat, entity: string)
    requires 0 < i <= |rest|
    ensures CountDocs(rest[..i], entity) == (if rest[0].entity == entity then 1 else 0) + CountDocs(rest[1..][..i - 1], entity)
    decreases i
  {
    var front := rest[..i];
    if i == 1 {
      assert front[..0] == [] && rest[1..][..0] == [];
    } else {
      assert front[..i - 1] == rest[..i - 1];
      CountDocsHead(rest, i - 1, entity);
      var tail := rest[1..][..i - 1];
      assert tail[..i - 2] == rest[1..][..i - 2] && tail[i - 2] == front[i - 1];
    }
  }

  /** After its head is stored, the rest of a batch still reaches the end. */
  lemma BatchAdvances(log: seq<Doc>, rest: seq<Doc>)
    requires rest != [] && Reaches(log, rest)
    ensures Reaches(log + [rest[0]], rest[1..])
  {
    var log', tail := log + [rest[0]], rest[1..];
    forall i | 0 <= i < |tail|
      ensures 1 <= tail[i].version <= Count(log', tail[i].entity) + 1 + CountDocs(tail[..i], tail[i].entity)
    {
      assert tail[i] == rest[i + 1];
      CountDocsHead(rest, i + 1, tail[i].entity);
      OfSnoc(log, rest[0], tail[i].entity);
    }
  }

  // ----------------------------------------------------------------- every step

  lemma StepKeepsInv(s: System, a: Action)
    requires Inv(s) && Enabled(s, a)
    ensures Inv(Do(s, a))
  {
    match a
    case Begin(w, e, id) =>
    case ReadTail(w) => TailIsCount(s.log, s.phases[w].entity);
    case Insert(w, claim) => InsertKeepsInv(s, w, claim);
    case BeginBatch(w, docs, base) =>
    case InsertNext(w) => NextKeepsInv(s, w);
  }

  lemma MoveKeepsInv(s: System, w: Writer, p: Phase)
    requires Inv(s) && PhaseOk(s.log, w, p)
    ensures Inv(Move(s, w, p))
  {
  }

  lemma InsertKeepsInv(s: System, w: Writer, claim: Clash)
    requires Inv(s) && Enabled(s, Insert(w, claim))
    ensures Inv(Do(s, Insert(w, claim)))
  {
    var p := s.phases[w];
    assert PhaseOk(s.log, w, p);
    assert GapFree(s.log, p.entity);
    TakenExactly(s.log, p.entity, p.last + 1);
    hide Inv, GapFree;
    if !VersionTaken(s.log, p.entity, p.last + 1) && !IdTaken(s.log, p.eventId) {
      PutKeepsInv(s, w, Doc(p.entity, p.last + 1, p.eventId, w), Idle);
    } else if claim == OnEventId {
      MoveKeepsInv(s, w, Idle);
    } else if p.tries + 1 == MAX_RETRIES {
      MoveKeepsInv(s, w, GaveUp(p.entity, p.start));
    } else {
      MoveKeepsInv(s, w, Reading(p.entity, p.eventId, p.tries + 1, p.start));
    }
  }

  lemma NextKeepsInv(s: System, w: Writer)
    requires Inv(s) && Enabled(s, InsertNext(w))
    ensures Inv(Do(s, InsertNext(w)))
  {
    var rest := s.phases[w].rest;
    assert PhaseOk(s.log, w, s.phases[w]);
    if !VersionTaken(s.log, rest[0].entity, rest[0].version) && !IdTaken(s.log, rest[0].eventId) {
      BatchAdvances(s.log, rest);
      assert rest[..0] == [];
      assert PhaseOk(s.log + [rest[0]], w, InBatch(rest[1..]));
      PutKeepsInv(s, w, rest[0], InBatch(rest[1..]));
    }
  }

  lemma {:induction false} ScheduleKeepsInv(actions: seq<Action>)
    requires Schedule(actions)
    ensures Inv(Run(actions))
  {
    if actions == [] {
      assert forall e :: Of(INITIAL.log, e) == [];
    } else {
      ScheduleKeepsInv(actions[..|actions| - 1]);
      StepKeepsInv(Run(actions[..|actions| - 1]), actions[|actions| - 1]);
    }
  }

  // ---------------------------------------------------------------- the theorems

  /** Under every schedule each entity's stored versions are exactly 1..n, each
      once, and no two documents share an event id. */
  lemma VersionsGapFree(actions: seq<Action>, entity: string, v: int)
    requires Schedule(actions)
    ensures var log := Run(actions).log;
      && (VersionTaken(log, entity, v) <==> 1 <= v <= Count(log, entity))
      && UniqueIds(log)
      && forall i, j | 0 <= i < j < Count(log, entity) :: Of(log, entity)[i].version < Of(log, entity)[j].version
  {
    ScheduleKeepsInv(actions);
    assert GapFree(Run(actions).log, entity);
    TakenExactly(Run(actions).log, entity, v);
  }

  /** A writer that gives up has watched sixteen documents of its entity being
      stored since it began, none of them its own. */
  lemma GivingUpHasWitnesses(actions: seq<Action>, w: Writer)
    requires Schedule(actions) && PhaseOf(Run(actions), w).GaveUp?
    ensures var log, p := Run(actions).log, PhaseOf(Run(actions), w);
      && p.start + 16 <= Count(log, p.entity)
      && forall i | p.start <= i < p.start + 16 ::
           Of(log, p.entity)[i].writer != w && Of(log, p.entity)[i].version == i + 1
  {
    ScheduleKeepsInv(actions);
    var p := PhaseOf(Run(actions), w);
    assert PhaseOk(Run(actions).log, w, p) && GapFree(Run(actions).log, p.entity);
  }

  /** Every retry so far is witnessed by a distinct insert of another writer. */
  lemma RetryHasWitness(actions: seq<Action>, w: Writer)
    requires Schedule(actions) && PhaseOf(Run(actions), w).Reading?
    ensures var log, p := Run(actions).log, PhaseOf(Run(actions), w);
      && p.start + p.tries <= Count(log, p.entity)
      && forall i | p.start <= i < p.start + p.tries :: Of(log, p.entity)[i].writer != w
  {
    ScheduleKeepsInv(actions);
    assert PhaseOk(Run(actions).log, w, PhaseOf(Run(actions), w));
  }

  // ----------------------------------------------------------------- as it runs

  datatype Appended = Stored(version: int) | Duplicate | Conflict

  lemma RunSnoc(trace: seq<Action>, a: Action)
    requires Schedule(trace) && Enabled(Run(trace), a)
    ensures Schedule(trace + [a]) && Run(trace + [a]) == Do(Run(trace), a)
  {
    assert (trace + [a])[..|trace|] == trace;
  }

  /** Another writer's step does not move this one. */
  lemma StepsAreLocal(s: System, a: Action, w: Writer)
    requires a.w != w
    ensures PhaseOf(Do(s, a), w) == PhaseOf(s, w)
  {
    hide LastVersion, VersionTaken, IdTaken, Of;
  }

  lemma LastIsNext(log: seq<Doc>, d: Doc)
    requires GapFree(log + [d], d.entity)
    ensures d.version == Count(log + [d], d.entity)
  {
    var h := Of(log + [d], d.entity);
    OfSnoc(log, d, d.entity);
    assert h[|h| - 1] == d;
  }

  lemma StoredIsNext(trace: seq<Action>, before: System, w: Writer, d: Doc)
    requires Schedule(trace) && Run(trace) == Put(before, w, d, Idle)
    ensures d.version == Count(Run(trace).log, d.entity)
  {
    hide GapFree, Run, Schedule, Count, PhaseOk, UniqueIds;
    ScheduleKeepsInv(trace);
    assert GapFree(before.log + [d], d.entity);
    LastIsNext(before.log, d);
  }

  lemma Witnesses(trace: seq<Action>, w: Writer)
    requires Schedule(trace) && PhaseOf(Run(trace), w).GaveUp?
    ensures var log, p := Run(trace).log, PhaseOf(Run(trace), w);
      p.start + MAX_RETRIES <= Count(log, p.entity) && OthersSince(log, p.entity, p.start, w)
  {
    ScheduleKeepsInv(trace);
    assert PhaseOk(Run(trace).log, w, PhaseOf(Run(trace), w));
  }

  /** What a writer's own steps do to it. */
  lemma OwnBegin(s: System, w: Writer, entity: string, id: string)
    ensures PhaseOf(Do(s, Begin(w, entity, id)), w) == Reading(entity, id, 0, Count(s.log, entity))
  {
  }

  lemma OwnRead(s: System, w: Writer)
    requires PhaseOf(s, w).Reading?
    ensures var p, q := PhaseOf(s, w), PhaseOf(Do(s, ReadTail(w)), w);
      q.Inserting? && Reading(q.entity, q.eventId, q.tries, q.start) == p
  {
  }

  lemma OwnInsert(s: System, w: Writer, claim: Clash)
    requires PhaseOf(s, w).Inserting?
    ensures var p, t := PhaseOf(s, w), Do(s, Insert(w, claim));
      if !VersionTaken(s.log, p.entity, p.last + 1) && !IdTaken(s.log, p.eventId) then
        t == Put(s, w, Doc(p.entity, p.last + 1, p.eventId, w), Idle)
      else
        && (claim == OnEventId ==> PhaseOf(t, w) == Idle && t.log == s.log)
        && (claim == OnVersion && p.tries + 1 == MAX_RETRIES ==> PhaseOf(t, w) == GaveUp(p.entity, p.start))
        && (claim == OnVersion && p.tries + 1 != MAX_RETRIES ==>
              PhaseOf(t, w) == Reading(p.entity, p.eventId, p.tries + 1, p.start))
  {
    hide VersionTaken, IdTaken;
  }

  /** The shared store; `trace` is what has happened to it. */
  class Repo {
    var sys: System
    ghost var trace: seq<Action>

    ghost predicate Valid()
      reads this
    {
      Schedule(trace) && Run(trace) == sys
    }

    constructor ()
      ensures Valid() && sys == INITIAL
    {
      sys, trace := INITIAL, [];
    }

    method Step(a: Action)
      requires Valid() && Enabled(sys, a)
      modifies this
      ensures Valid() && sys == Do(old(sys), a) && trace == old(trace) + [a]
    {
      hide Do, Enabled;
      RunSnoc(trace, a);
      sys := Do(sys, a);
      trace := trace + [a];
    }

    /** Whatever the other writers manage to do in the meantime. */
    method Meanwhile(w: Writer, actions: seq<Action>)
      requires Valid()
      modifies this
      ensures Valid() && PhaseOf(sys, w) == PhaseOf(old(sys), w) && old(trace) <= trace
    {
      hide Do, Enabled, Run, Schedule;
      for i := 0 to |actions|
        invariant Valid() && PhaseOf(sys, w) == PhaseOf(old(sys), w) && old(trace) <= trace
      {
        if actions[i].w != w && Enabled(sys, actions[i]) {
          StepsAreLocal(sys, actions[i], w);
          Step(actions[i]);
        }
      }
    }

    /** One call, with any interference between its database operations: it
        stores the next version, or finds its event id stored, or gives up after
        watching sixteen inserts of others. `others` and `claims` say what the
        others do and which clash the server names at each try. */
    method AppendEvent(w: Writer, entity: string, id: string, others: nat -> seq<Action>, claims: nat -> Clash)
      returns (r: Appended)
      requires Valid() && Free(PhaseOf(sys, w))
      modifies this
      ensures Valid() && old(trace) <= trace && Free(PhaseOf(sys, w))
      ensures r.Stored? ==>
        r.version == Count(sys.log, entity) && sys.log != [] && sys.log[|sys.log| - 1] == Doc(entity, r.version, id, w)
      ensures r.Duplicate? ==> IdTaken(sys.log, id)
      ensures r.Conflict? ==> exists start: nat ::
        && Count(old(sys).log, entity) <= start && start + MAX_RETRIES <= Count(sys.log, entity)
        && OthersSince(sys.log, entity, start, w)
    {
      hide LastVersion, VersionTaken, IdTaken, Run, Schedule, Count, OthersSince, Do;
      OwnBegin(sys, w, entity, id);
      Step(Begin(w, entity, id));
      ghost var start := Count(old(sys).log, entity);
      for k := 0 to MAX_RETRIES
        invariant Valid() && old(trace) <= trace
        invariant PhaseOf(sys, w) == if k < MAX_RETRIES then Reading(entity, id, k, start) else GaveUp(entity, start)
      {
        Meanwhile(w, others(2 * k));
        OwnRead(sys, w);
        Step(ReadTail(w));
        Meanwhile(w, others(2 * k + 1));
        var v := PhaseOf(sys, w).last + 1;
        var onVersion, onId := VersionTaken(sys.log, entity, v), IdTaken(sys.log, id);
        var claim := if onVersion && onId then claims(k) else if onVersion then OnVersion else OnEventId;
        ghost var before := sys;
        OwnInsert(sys, w, claim);
        Step(Insert(w, claim));
        if !onVersion && !onId {
          StoredIsNext(trace, before, w, Doc(entity, v, id, w));
          return Stored(v);
        }
        if claim == OnEventId {
          return Duplicate;
        }
      }
      Witnesses(trace, w);
      return Conflict;
    }
  }
}
