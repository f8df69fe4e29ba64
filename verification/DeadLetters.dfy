/**
 Redelivery of parked webhooks (internal/service/dlq.go, and Requeue of
 internal/service/webhook_publisher.go). Letters are listed newest first; the
 store keeps them in that order. Deletes succeed; a requeue may be refused.
 */
module DeadLetters {

  import opened Webhooks

  const PAGE: nat := 200

  /** A letter as the store files it, under an id of its own. */
  datatype Entry = Entry(id: string, letter: Letter)

  function RequeuedAll(ls: seq<Entry>): seq<Task> {
    seq(|ls|, i requires 0 <= i < |ls| => Requeued(ls[i].letter))
  }

  function OfRule(ls: seq<Entry>, rule: string): seq<Entry> {
    if ls == [] then []
    else (if ls[0].letter.ruleId == rule then [ls[0]] else []) + OfRule(ls[1..], rule)
  }

  function Others(ls: seq<Entry>, rule: string): seq<Entry> {
    if ls == [] then []
    else (if ls[0].letter.ruleId == rule then [] else [ls[0]]) + Others(ls[1..], rule)
  }

  function Without(ls: seq<Entry>, id: string): seq<Entry> {
    if ls == [] then [] else if ls[0].id == id then ls[1..] else [ls[0]] + Without(ls[1..], id)
  }

  /** The first page of a list. */
  function Take(ls: seq<Entry>, n: nat): seq<Entry> {
    if |ls| < n then ls else ls[..n]
  }

  ghost predicate DistinctIds(ls: seq<Entry>) {
    forall i, j | 0 <= i < j < |ls| :: ls[i].id != ls[j].id
  }

  // ----------------------------------------------------------------- small facts

  lemma {:induction false} OfRuleFrom(ls: seq<Entry>, rule: string)
    ensures forall l <- OfRule(ls, rule) :: l.letter.ruleId == rule && l in ls
  {
    if ls != [] { OfRuleFrom(ls[1..], rule); }
  }

  lemma {:induction false} WithoutKeeps(ls: seq<Entry>, id: string)
    requires DistinctIds(ls)
    ensures DistinctIds(Without(ls, id)) && forall l <- Without(ls, id) :: l in ls
  {
    if ls != [] && ls[0].id != id {
      WithoutKeeps(ls[1..], id);
      var rest := Without(ls[1..], id);
      forall j | 0 <= j < |rest| ensures rest[j].id != ls[0].id {
        assert rest[j] in ls[1..];
      }
    }
  }

  /** Deleting the rule's first letter takes it off the rule's list and touches nothing else. */
  lemma {:induction false} DeleteFirst(ls: seq<Entry>, rule: string)
    requires OfRule(ls, rule) != [] && DistinctIds(ls)
    ensures var rest := Without(ls, OfRule(ls, rule)[0].id);
      OfRule(rest, rule) == OfRule(ls, rule)[1..] && Others(rest, rule) == Others(ls, rule)
  {
    var tail := ls[1..];
    if ls[0].letter.ruleId == rule {
      assert OfRule(ls, rule)[1..] == OfRule(tail, rule);
    } else {
      var first := OfRule(tail, rule)[0];
      assert OfRule(ls, rule) == OfRule(tail, rule);
      OfRuleFrom(tail, rule);
      assert first in OfRule(tail, rule);
      DeleteFirst(tail, rule);
      var rest := Without(tail, first.id);
      assert ([ls[0]] + rest)[1..] == rest;
    }
  }

  lemma RequeuedSnoc(ls: seq<Entry>, l: Entry)
    ensures RequeuedAll(ls + [l]) == RequeuedAll(ls) + [Requeued(l.letter)]
  {
  }

  /** Progress through a rule's list `all`: its first n letters are queued, the
      others are still parked, and no other rule's letter has moved. */
  ghost predicate Progress(all: seq<Entry>, others: seq<Entry>, queued: seq<Task>, rule: string, n: nat,
                           letters: seq<Entry>, queue: seq<Task>)
  {
    && n <= |all|
    && OfRule(letters, rule) == all[n..]
    && Others(letters, rule) == others
    && DistinctIds(letters)
    && queue == queued + RequeuedAll(all[..n])
  }

  /** The queue takes the first n letters. */
  ghost predicate Accepted(accepts: Entry -> bool, all: seq<Entry>, n: nat)
    requires n <= |all|
  {
    forall i | 0 <= i < n :: accepts(all[i])
  }

  lemma AcceptedNone(accepts: Entry -> bool, all: seq<Entry>)
    ensures Accepted(accepts, all, 0)
  {
  }

  lemma AcceptedSnoc(accepts: Entry -> bool, all: seq<Entry>, n: nat)
    requires n < |all| && Accepted(accepts, all, n) && accepts(all[n])
    ensures Accepted(accepts, all, n + 1)
  {
  }

  /** `page` is what comes next in `all` after its first n letters. */
  ghost predicate IsPage(all: seq<Entry>, n: nat, page: seq<Entry>) {
    n + |page| <= |all| && page == all[n..n + |page|]
  }

  lemma PageAt(all: seq<Entry>, n: nat, page: seq<Entry>, k: nat)
    requires IsPage(all, n, page) && k < |page|
    ensures n + k < |all| && page[k] == all[n + k]
  {
  }

  lemma ProgressStart(letters: seq<Entry>, queue: seq<Task>, rule: string)
    requires DistinctIds(letters)
    ensures Progress(OfRule(letters, rule), Others(letters, rule), queue, rule, 0, letters, queue)
  {
    hide OfRule, Others;
    var all := OfRule(letters, rule);
    assert all[0..] == all && queue + RequeuedAll(all[..0]) == queue;
  }

  /** The first page of what is left of the rule's list is the next one; a short
      page is the last. */
  lemma NextPage(all: seq<Entry>, others: seq<Entry>, queued: seq<Task>, rule: string, n: nat,
                 letters: seq<Entry>, queue: seq<Task>)
    requires Progress(all, others, queued, rule, n, letters, queue)
    ensures var page := Take(OfRule(letters, rule), PAGE);
      IsPage(all, n, page) && n + |page| <= |all| && (page == [] || |page| < PAGE ==> n + |page| == |all|)
  {
    hide OfRule, Others, RequeuedAll, DistinctIds;
  }

  lemma ProgressStep(all: seq<Entry>, others: seq<Entry>, queued: seq<Task>, rule: string, n: nat,
                     letters: seq<Entry>, queue: seq<Task>)
    requires Progress(all, others, queued, rule, n, letters, queue) && n < |all|
    ensures OfRule(letters, rule)[0] == all[n]
    ensures Progress(all, others, queued, rule, n + 1, Without(letters, all[n].id), queue + [Requeued(all[n].letter)])
  {
    DeleteFirst(letters, rule);
    WithoutKeeps(letters, all[n].id);
    assert all[n..][1..] == all[n + 1..];
    assert all[..n + 1] == all[..n] + [all[n]];
    RequeuedSnoc(all[..n], all[n]);
    assert queued + (RequeuedAll(all[..n]) + [Requeued(all[n].letter)]) == queued + RequeuedAll(all[..n]) + [Requeued(all[n].letter)];
  }

  // ------------------------------------------------------------------ the service

  class Service {
    /** Which letters the queue would take back. */
    const accepts: Entry -> bool
    var letters: seq<Entry>
    var queue: seq<Task>

    constructor (accepts: Entry -> bool, letters: seq<Entry>)
      ensures this.accepts == accepts && this.letters == letters && queue == []
    {
      this.accepts := accepts;
      this.letters := letters;
      this.queue := [];
    }

    /** Requeue first, delete after: a refused letter stays parked, and so does one
        whose delete fails, to be redelivered again. */
    method RedeliverOne(l: Entry, deletes: bool) returns (ok: bool)
      modifies this
      ensures ok == accepts(l)
      ensures ok ==> queue == old(queue) + [Requeued(l.letter)]
      ensures letters == if ok && deletes then Without(old(letters), l.id) else old(letters)
      ensures !ok ==> queue == old(queue)
    {
      if !accepts(l) {
        return false;
      }
      queue := queue + [Requeued(l.letter)];
      if deletes {
        letters := Without(letters, l.id);
      }
      return true;
    }

    /** One page: the rule's next letters, up to the first the queue refuses. */
    method RedeliverPage(rule: string, page: seq<Entry>, ghost all: seq<Entry>, ghost others: seq<Entry>,
                         ghost queued: seq<Task>, ghost n: nat) returns (done: nat)
      requires Progress(all, others, queued, rule, n, letters, queue)
      requires n + |page| <= |all| && IsPage(all, n, page) && Accepted(accepts, all, n)
      modifies this
      ensures done <= |page| && Progress(all, others, queued, rule, n + done, letters, queue)
      ensures Accepted(accepts, all, n + done)
      ensures done < |page| ==> !accepts(all[n + done])
    {
      hide *;
      done := 0;
      while done < |page|
        invariant done <= |page|
        invariant Progress(all, others, queued, rule, n + done, letters, queue)
        invariant Accepted(accepts, all, n + done)
      {
        PageAt(all, n, page, done);
        ProgressStep(all, others, queued, rule, n + done, letters, queue);
        var ok := RedeliverOne(page[done], true);
        if !ok {
          return;
        }
        AcceptedSnoc(accepts, all, n + done);
        done := done + 1;
      }
    }

    /** Drains a rule's letters. Without a refusal every one of them is requeued
        once, in order, and no other rule's letter is touched. */
    method RedeliverAll(rule: string) returns (requeued: nat, ok: bool)
      requires DistinctIds(letters)
      modifies this
      ensures requeued <= |OfRule(old(letters), rule)|
      ensures Progress(OfRule(old(letters), rule), Others(old(letters), rule), old(queue), rule, requeued, letters, queue)
      ensures Accepted(accepts, OfRule(old(letters), rule), requeued)
      ensures ok ==> requeued == |OfRule(old(letters), rule)|
      ensures !ok ==> requeued < |OfRule(old(letters), rule)| && !accepts(OfRule(old(letters), rule)[requeued])
    {
      hide *;
      requeued := 0;
      ghost var all, others, queued := OfRule(letters, rule), Others(letters, rule), queue;
      ProgressStart(letters, queue, rule);
      AcceptedNone(accepts, all);
      while true
        invariant requeued <= |all| && Progress(all, others, queued, rule, requeued, letters, queue)
        invariant Accepted(accepts, all, requeued)
        decreases |all| - requeued
      {
        NextPage(all, others, queued, rule, requeued, letters, queue);
        var page := Take(OfRule(letters, rule), PAGE);
        if page == [] {
          return requeued, true;
        }
        var done := RedeliverPage(rule, page, all, others, queued, requeued);
        requeued := requeued + done;
        if done < |page| {
          return requeued, false;
        }
        if |page| < PAGE {
          return requeued, true;
        }
      }
    }
  }
}
