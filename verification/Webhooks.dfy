/**
 What a webhook delivery carries (internal/delivery/delivery.go), what is kept of
 it in the dead-letter queue (internal/delivery/dispatcher.go) and what comes back
 when it is redelivered (internal/service/webhook_publisher.go).
 */
module Webhooks {

  /** `attempt` counts the tries already made in this round. */
  datatype Task = Task(deliveryId: string, ruleId: string, ruleName: string, collection: string, url: string,
                       secretRef: string, body: string, timeoutMs: int, maxAttempts: int, attempt: nat)

  datatype Reason = UnknownSecret | Blocked | Exhausted | RepublishFailed

  datatype Letter = Letter(ruleId: string, collection: string, deliveryId: string, url: string, secretRef: string,
                           body: string, attempts: nat, reason: Reason)

  datatype Config = Config(secrets: map<string, string>, maxAttempts: nat, timeoutMs: int)

  /** The cap in force for a task. */
  function Cap(cfg: Config, t: Task): int {
    if t.maxAttempts <= 0 then cfg.maxAttempts else t.maxAttempts
  }

  /** The time one of its requests may take. */
  function Timeout(cfg: Config, t: Task): int {
    if t.timeoutMs > 0 then t.timeoutMs else cfg.timeoutMs
  }

  function Parked(t: Task, reason: Reason): Letter {
    Letter(t.ruleId, t.collection, t.deliveryId, t.url, t.secretRef, t.body, t.attempt, reason)
  }

  function Requeued(l: Letter): Task {
    Task(l.deliveryId, l.ruleId, "", l.collection, l.url, l.secretRef, l.body, 0, 0, 0)
  }

  /** The task as it starts over: its rule's name, timeout and cap are forgotten. */
  function Again(t: Task): Task {
    t.(ruleName := "", timeoutMs := 0, maxAttempts := 0, attempt := 0)
  }

  /** Parking and requeueing gives back the delivery, its rule, target, secret and
      body; what was set for its rule alone is lost. */
  lemma RequeueRestores(t: Task, reason: Reason)
    ensures Requeued(Parked(t, reason)) == Again(t)
    ensures Again(t) == t <==> t.ruleName == "" && t.timeoutMs == 0 && t.maxAttempts == 0 && t.attempt == 0
  {
  }

  /** A redelivered task is tried under the policy of the original exactly if the
      original's own cap and timeout were unset or the defaults. */
  lemma PolicyKeptExactly(cfg: Config, t: Task, reason: Reason)
    ensures var again := Requeued(Parked(t, reason));
      Cap(cfg, again) == Cap(cfg, t) && Timeout(cfg, again) == Timeout(cfg, t) <==>
      (t.maxAttempts <= 0 || t.maxAttempts == cfg.maxAttempts) && (t.timeoutMs <= 0 || t.timeoutMs == cfg.timeoutMs)
  {
  }

  /** A rule that allows more tries than the default gets fewer the second time. */
  lemma OwnCapForgotten(cfg: Config, t: Task)
    requires t.maxAttempts > cfg.maxAttempts
    ensures Cap(cfg, Requeued(Parked(t, Exhausted))) < Cap(cfg, t)
  {
  }
}
