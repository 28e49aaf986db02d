/** Pacing: how far apart uploads are, whatever the server answers. */
module QueuePacing {
  import opened Basics
  import opened RetryPolicies
  import opened QueueTypes
  import opened QueueListing
  import opened QueueBackoff
  import opened QueueModel
  import opened QueueRuns

  /** One upload: when, how long the gate then closes, the answer, the failures before it, and the draw. */
  datatype Sent = Sent(atMs: real, waitMs: real, outcome: UploadOutcome, failures: nat, random: Num)

  ghost predicate Sends(cfg: QueueConfig, st: QueueState, op: Op)
    requires WellKeyed(st.records)
  {
    op.FlushOp? && Due(MetaOf(st), op.nowMs) && Selected(cfg, st, op.nowMs).Some?
  }

  ghost function SentBy(cfg: QueueConfig, st: QueueState, op: Op): Sent
    requires WellKeyed(st.records) && Sends(cfg, st, op)
  {
    var outcome := AnswerTo(op.upload, Selected(cfg, st, op.nowMs).value);
    Sent(op.nowMs, Wait(cfg, MetaOf(st), outcome, op.random), outcome, MetaOf(st).consecutiveFailures, op.random)
  }

  ghost function SentLog(cfg: QueueConfig, st: QueueState, ops: seq<Op>): seq<Sent>
    requires WellKeyed(st.records)
    decreases |ops|
  {
    if ops == [] then []
    else
      StepKeyed(cfg, st, ops[0]);
      (if Sends(cfg, st, ops[0]) then [SentBy(cfg, st, ops[0])] else []) + SentLog(cfg, Step(cfg, st, ops[0]), ops[1..])
  }

  /**
   * What a wait is worth: the platform interval, and after a failure worth retrying the backoff
   * for the streak so far and the server's hint.
   */
  ghost predicate LongEnough(cfg: QueueConfig, s: Sent) {
    && s.waitMs >= cfg.minUploadIntervalMs
    && (s.outcome.Failed? && !Hopeless(s.outcome.reason) ==>
          && s.waitMs >= BackoffDelay(Finite((s.failures + 1) as real), Some(Whole(cfg.retry)), s.random) as real
          && (forall hint :: s.outcome.retryAfterSeconds == Some(Finite(hint)) ==> s.waitMs >= hint * 1000.0))
  }

  // ---- the gate ----------------------------------------------------------

  /** Nothing will be sent before `gate`: the stored gate says so, or the clock has passed it. */
  ghost predicate ClosedUntil(st: QueueState, clockMs: real, gate: real) {
    clockMs >= gate || (MetaOf(st).nextAttemptAtMs.Some? && MetaOf(st).nextAttemptAtMs.value >= gate)
  }

  /** The clock does not run backwards from one flush to the next. */
  predicate Forward(clockMs: real, ops: seq<Op>)
    decreases |ops|
  {
    ops != [] ==>
      if ops[0].FlushOp? then clockMs <= ops[0].nowMs && Forward(ops[0].nowMs, ops[1..])
      else Forward(clockMs, ops[1..])
  }

  function ClockAfter(clockMs: real, op: Op): real {
    if op.FlushOp? then op.nowMs else clockMs
  }

  /** A call opens the gate early for no one; an upload closes it for its own wait. */
  lemma StepKeepsGate(cfg: QueueConfig, st: QueueState, op: Op, clockMs: real, gate: real)
    requires WellKeyed(st.records) && ClosedUntil(st, clockMs, gate)
    requires op.FlushOp? ==> clockMs <= op.nowMs
    ensures Sends(cfg, st, op) ==>
              && op.nowMs >= gate
              && MetaOf(Step(cfg, st, op)).nextAttemptAtMs
                == Some(SentBy(cfg, st, op).atMs + SentBy(cfg, st, op).waitMs)
    ensures !Sends(cfg, st, op) ==> ClosedUntil(Step(cfg, st, op), ClockAfter(clockMs, op), gate)
  {
    hide PruneStep, Selected, SettledRecords, Wait, Refusal, RetryDisposition;
  }

  lemma {:induction false} LogPaced(cfg: QueueConfig, st: QueueState, ops: seq<Op>, clockMs: real, gate: real)
    requires WithinLimits(cfg) && WellKeyed(st.records) && ClosedUntil(st, clockMs, gate) && Forward(clockMs, ops)
    ensures var log := SentLog(cfg, st, ops);
            && (forall s :: s in log ==> s.atMs >= gate && LongEnough(cfg, s))
            && (forall i, j :: 0 <= i < j < |log| ==> log[j].atMs >= log[i].atMs + log[i].waitMs)
    decreases |ops|
  {
    hide WithinLimits, Step, Sends, SentBy, ClosedUntil, SentLog, LongEnough;
    SentLogUnfolds(cfg, st, ops);
    if ops != [] {
      var op, next := ops[0], Step(cfg, st, ops[0]);
      StepKeyed(cfg, st, op);
      StepKeepsGate(cfg, st, op, clockMs, gate);
      if Sends(cfg, st, op) {
        SentFacts(cfg, st, op);
        var s := SentBy(cfg, st, op);
        GateClosed(next, op.nowMs, s.atMs + s.waitMs);
        LogPaced(cfg, next, ops[1..], op.nowMs, s.atMs + s.waitMs);
        LogGrows(s, SentLog(cfg, next, ops[1..]));
      } else {
        LogPaced(cfg, next, ops[1..], ClockAfter(clockMs, op), gate);
      }
    }
  }

  lemma SentLogUnfolds(cfg: QueueConfig, st: QueueState, ops: seq<Op>)
    requires WellKeyed(st.records)
    ensures ops == [] ==> SentLog(cfg, st, ops) == []
    ensures ops != [] ==> WellKeyed(Step(cfg, st, ops[0]).records)
    ensures ops != [] && Sends(cfg, st, ops[0]) ==>
              SentLog(cfg, st, ops) == [SentBy(cfg, st, ops[0])] + SentLog(cfg, Step(cfg, st, ops[0]), ops[1..])
    ensures ops != [] && !Sends(cfg, st, ops[0]) ==>
      SentLog(cfg, st, ops) == SentLog(cfg, Step(cfg, st, ops[0]), ops[1..])
  {
    hide Step, Sends, SentBy;
    if ops != [] { StepKeyed(cfg, st, ops[0]); }
  }

  lemma LogGrows(s: Sent, rest: seq<Sent>)
    requires forall x :: x in rest ==> x.atMs >= s.atMs + s.waitMs
    requires forall i, j :: 0 <= i < j < |rest| ==> rest[j].atMs >= rest[i].atMs + rest[i].waitMs
    ensures var log := [s] + rest; forall i, j :: 0 <= i < j < |log| ==> log[j].atMs >= log[i].atMs + log[i].waitMs
  {
    var log := [s] + rest;
    forall i, j | 0 <= i < j < |log| ensures log[j].atMs >= log[i].atMs + log[i].waitMs {
      assert log[j] == rest[j - 1] && rest[j - 1] in rest;
      if i > 0 { assert log[i] == rest[i - 1]; }
    }
  }

  lemma GateClosed(st: QueueState, clockMs: real, gate: real)
    requires MetaOf(st).nextAttemptAtMs == Some(gate)
    ensures ClosedUntil(st, clockMs, gate)
  {
  }

  lemma SentFacts(cfg: QueueConfig, st: QueueState, op: Op)
    requires WithinLimits(cfg) && WellKeyed(st.records) && Sends(cfg, st, op)
    ensures op.FlushOp? && SentBy(cfg, st, op).atMs == op.nowMs && SentBy(cfg, st, op).waitMs >= 0.0
    ensures LongEnough(cfg, SentBy(cfg, st, op))
  {
    hide Selected, PruneStep, BackoffDelay, RetryDisposition, Hopeless, WellFormed, Whole;
    var outcome := SentBy(cfg, st, op).outcome;
    if outcome.Failed? { DispositionsExactly(outcome.reason); }
  }

  /**
   * On any run whose flush times do not decrease, any two uploads are apart by at least the first
   * one's wait: by at least `minUploadIntervalMs`, which is never below 30 seconds, and after a
   * failure worth retrying by at least the backoff and the server's hint.
   */
  lemma UploadsPaced(cfg: QueueConfig, st: QueueState, ops: seq<Op>, startMs: real)
    requires WithinLimits(cfg) && WellKeyed(st.records) && Forward(startMs, ops)
    ensures cfg.minUploadIntervalMs >= 30000.0
    ensures var log := SentLog(cfg, st, ops);
            && (forall i, j :: 0 <= i < j < |log| ==> log[j].atMs >= log[i].atMs + log[i].waitMs)
            && (forall i :: 0 <= i < |log| ==> LongEnough(cfg, log[i]))
  {
    hide SentLog, WellFormed, LongEnough;
    LogPaced(cfg, st, ops, startMs, startMs);
    assert forall i :: 0 <= i < |SentLog(cfg, st, ops)| ==> SentLog(cfg, st, ops)[i] in SentLog(cfg, st, ops);
  }
}
