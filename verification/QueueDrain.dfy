/** The queue drains: every upload uses up attempts, and attempts are finite. */
module QueueDrain {
  import opened Limits
  import opened RetryPolicies
  import opened QueueTypes
  import opened QueueListing
  import opened QueueModel
  import opened QueueFacts
  import opened QueueRuns

  /** The attempts that the pending records have left, all together. */
  ghost function WorkOf(cfg: QueueConfig, m: Records): int {
    if m == map[] then 0
    else
      var k :| k in m;
      (cfg.maxAttempts - m[k].attemptCount) + WorkOf(cfg, m - {k})
  }

  lemma {:induction false} WorkWithout(cfg: QueueConfig, m: Records, k: string)
    requires k in m
    ensures WorkOf(cfg, m) == (cfg.maxAttempts - m[k].attemptCount) + WorkOf(cfg, m - {k})
    decreases |m|
  {
    var j :| j in m && WorkOf(cfg, m) == (cfg.maxAttempts - m[j].attemptCount) + WorkOf(cfg, m - {j});
    if j != k {
      WorkWithout(cfg, m - {j}, k);
      WorkWithout(cfg, m - {k}, j);
      assert m - {j} - {k} == m - {k} - {j};
    }
  }

  /** Attempts are left everywhere. */
  predicate AttemptsRemain(cfg: QueueConfig, m: Records) {
    forall k :: k in m ==> m[k].attemptCount < cfg.maxAttempts
  }

  /** Nothing new, nothing with fewer attempts, and every record of `sent` gone or with one more. */
  ghost predicate Worked(before: Records, after: Records, sent: set<string>) {
    && after.Keys <= before.Keys
    && (forall k :: k in after ==> before[k].attemptCount <= after[k].attemptCount)
    && (forall k :: k in after && k in sent ==> before[k].attemptCount < after[k].attemptCount)
  }

  lemma {:induction false} WorkDrops(cfg: QueueConfig, before: Records, after: Records, sent: set<string>)
    requires AttemptsRemain(cfg, before) && Worked(before, after, sent) && sent <= before.Keys
      && AttemptsRemain(cfg, after)
    ensures 0 <= WorkOf(cfg, after) && WorkOf(cfg, after) + |sent| <= WorkOf(cfg, before)
    decreases |before|
  {
    if before == map[] {
      assert sent == {};
    } else {
      var k :| k in before;
      WorkWithout(cfg, before, k);
      if k in after { WorkWithout(cfg, after, k); }
      WorkDrops(cfg, before - {k}, after - {k}, sent - {k});
      if k !in after { assert after - {k} == after; }
    }
  }

  lemma {:induction false} WorkBounds(cfg: QueueConfig, m: Records)
    requires AttemptsRemain(cfg, m)
    ensures |m| <= WorkOf(cfg, m) <= cfg.maxAttempts * |m|
    decreases |m|
  {
    hide WorkOf;
    if m == map[] {
      EmptyWork(cfg);
    } else {
      var k :| k in m;
      var rest := m - {k};
      WorkWithout(cfg, m, k);
      WorkBounds(cfg, rest);
      assert m.Keys == rest.Keys + {k};
      Distribute(cfg.maxAttempts, |rest|, 1);
    }
  }

  lemma EmptyWork(cfg: QueueConfig)
    ensures WorkOf(cfg, map[]) == 0
  {
  }

  lemma Distribute(a: int, b: int, c: int)
    ensures a * (b + c) == a * b + a * c
  {
  }

  /** The ids a flush submits; none if it does not call upload. */
  ghost function Submitted(cfg: QueueConfig, st: QueueState, op: Op): set<string>
    requires WellKeyed(st.records)
  {
    if op.FlushOp? && Due(MetaOf(st), op.nowMs) && Selected(cfg, st, op.nowMs).Some? then
      IdSet(Selected(cfg, st, op.nowMs).value.records)
    else {}
  }

  /**
   * Whatever the server answers, a flush that calls upload lowers the attempts left by at least one
   * for each record submitted; a due flush that does not call it leaves the queue empty.
   */
  lemma FlushDrains(cfg: QueueConfig, st: QueueState, op: Op)
    requires WithinLimits(cfg) && Inv(cfg, st) && op.FlushOp?
    ensures WellKeyed(Step(cfg, st, op).records)
    ensures 0 <= WorkOf(cfg, Step(cfg, st, op).records)
    ensures WorkOf(cfg, Step(cfg, st, op).records) + |Submitted(cfg, st, op)| <= WorkOf(cfg, st.records)
    ensures Due(MetaOf(st), op.nowMs) ==> Submitted(cfg, st, op) != {} || Step(cfg, st, op).records == map[]
  {
    hide WithinLimits, FlushStep, Selected, Due, WorkOf;
    var after := FlushStep(cfg, st, op.upload, op.nowMs, op.random);
    FlushInv(cfg, st, op.upload, op.nowMs, op.random);
    forall k | k in after.records
      ensures k in st.records && st.records[k].attemptCount <= after.records[k].attemptCount
      ensures k in Submitted(cfg, st, op) ==> st.records[k].attemptCount < after.records[k].attemptCount
    {
      FlushBumps(cfg, st, op.upload, op.nowMs, op.random, k);
    }
    SubmittedPending(cfg, st, op);
    WorkDrops(cfg, st.records, after.records, Submitted(cfg, st, op));
  }

  lemma SubmittedPending(cfg: QueueConfig, st: QueueState, op: Op)
    requires Inv(cfg, st) && op.FlushOp?
    ensures Submitted(cfg, st, op) <= st.records.Keys
    ensures Due(MetaOf(st), op.nowMs) ==> Submitted(cfg, st, op) != {} || Step(cfg, st, op).records == map[]
  {
    hide FlushStep, Selected, Due, PruneStep, Gone;
    if Due(MetaOf(st), op.nowMs) {
      FlushFacts(cfg, st, op.upload, op.nowMs, op.random);
      var selection := Selected(cfg, st, op.nowMs);
      if selection.Some? {
        BatchIds(selection.value.records, PruneStep(cfg, st.records, op.nowMs).0);
        assert IdOf(selection.value.records[0]) in Submitted(cfg, st, op);
      }
    }
  }

  // ---- whole runs --------------------------------------------------------

  /** How many of the calls upload something. */
  ghost function Uploads(cfg: QueueConfig, st: QueueState, ops: seq<Op>): nat
    requires WellKeyed(st.records)
    decreases |ops|
  {
    if ops == [] then 0
    else
      StepKeyed(cfg, st, ops[0]);
      (if Submitted(cfg, st, ops[0]) != {} then 1 else 0) + Uploads(cfg, Step(cfg, st, ops[0]), ops[1..])
  }

  function Enqueued(cfg: QueueConfig, ops: seq<Op>): nat {
    if ops == [] then 0 else (if Enqueues(cfg, ops[0]) then 1 else 0) + Enqueued(cfg, ops[1..])
  }

  lemma InsertedWork(cfg: QueueConfig, records: Records, event: Event, nowMs: real)
    requires cfg.maxAttempts >= 1 && AttemptsRemain(cfg, records)
    ensures AttemptsRemain(cfg, Inserted(records, event, nowMs))
    ensures WorkOf(cfg, Inserted(records, event, nowMs)) <= WorkOf(cfg, records) + cfg.maxAttempts
  {
    hide WorkOf;
    var put, rest := Inserted(records, event, nowMs), records - {event.eventId};
    WorkWithout(cfg, put, event.eventId);
    assert put - {event.eventId} == rest;
    WorkDrops(cfg, records, rest, {});
  }

  lemma EnqueueWork(cfg: QueueConfig, st: QueueState, op: Op)
    requires WithinLimits(cfg) && Inv(cfg, st) && op.EnqueueOp?
    ensures WellKeyed(Step(cfg, st, op).records)
    ensures WorkOf(cfg, Step(cfg, st, op).records) <= WorkOf(cfg, st.records)
      + (if Enqueues(cfg, op) then cfg.maxAttempts else 0)
  {
    hide WellFormed, WorkOf, PruneStep, Refusal, Inserted, AcceptedEvent, Advance;
    if Enqueues(cfg, op) {
      EnqueueFacts(cfg, st, op.submission, op.nowMs);
      var event := AcceptedEvent(cfg, op.submission);
      var put, after := Inserted(st.records, event, op.nowMs), EnqueueStep(cfg, st, op.submission, op.nowMs).0.records;
      InsertedWork(cfg, st.records, event, op.nowMs);
      WorkDrops(cfg, put, after, {});
    }
  }

  /**
   * On every run, uploads never outnumber the attempts the queue started with plus
   * `maxAttempts` for each event taken in.
   */
  lemma {:induction false} UploadsBounded(cfg: QueueConfig, st: QueueState, ops: seq<Op>)
    requires WithinLimits(cfg) && Inv(cfg, st)
    ensures WellKeyed(Run(cfg, st, ops).records)
    ensures Uploads(cfg, st, ops) + WorkOf(cfg, Run(cfg, st, ops).records)
            <= WorkOf(cfg, st.records) + cfg.maxAttempts * Enqueued(cfg, ops)
    decreases |ops|
  {
    hide WithinLimits, WorkOf, Step, Submitted, Enqueues, Inv;
    RunInvKeyed(cfg, st, ops);
    if ops != [] {
      var op := ops[0];
      StepInv(cfg, st, op);
      UploadStep(cfg, st, op);
      UploadsBounded(cfg, Step(cfg, st, op), ops[1..]);
      Distribute(cfg.maxAttempts, if Enqueues(cfg, op) then 1 else 0, Enqueued(cfg, ops[1..]));
    }
  }

  lemma RunInvKeyed(cfg: QueueConfig, st: QueueState, ops: seq<Op>)
    requires WithinLimits(cfg) && Inv(cfg, st)
    ensures WellKeyed(st.records) && WellKeyed(Run(cfg, st, ops).records)
  {
    RunInv(cfg, st, ops);
  }

  lemma UploadStep(cfg: QueueConfig, st: QueueState, op: Op)
    requires WithinLimits(cfg) && Inv(cfg, st)
    ensures WellKeyed(st.records) && WellKeyed(Step(cfg, st, op).records)
    ensures (if Submitted(cfg, st, op) != {} then 1 else 0) + WorkOf(cfg, Step(cfg, st, op).records)
            <= WorkOf(cfg, st.records) + cfg.maxAttempts * (if Enqueues(cfg, op) then 1 else 0)
  {
    hide WithinLimits, WorkOf, EnqueueStep, FlushStep, Enqueues;
    match op
    case EnqueueOp(s, nowMs) => EnqueueWork(cfg, st, op);
    case FlushOp(upload, nowMs, random) =>
      FlushDrains(cfg, st, op);
    case ReserveOp =>
  }

  /** Every call of the run is a flush that its gate lets through. */
  ghost predicate AllDue(cfg: QueueConfig, st: QueueState, ops: seq<Op>)
    requires WellKeyed(st.records)
    decreases |ops|
  {
    ops != [] ==>
      && ops[0].FlushOp? && Due(MetaOf(st), ops[0].nowMs)
      && (StepKeyed(cfg, st, ops[0]); AllDue(cfg, Step(cfg, st, ops[0]), ops[1..]))
  }

  /**
   * With no new events, as many due flushes as there are attempts left always empty the queue,
   * whatever the server answers; `maxAttempts` for each pending record is enough.
   */
  lemma {:induction false} DrainsWithin(cfg: QueueConfig, st: QueueState, ops: seq<Op>)
    requires WithinLimits(cfg) && Inv(cfg, st) && AllDue(cfg, st, ops)
    ensures WellKeyed(Run(cfg, st, ops).records)
    ensures |ops| >= WorkOf(cfg, st.records) ==> Run(cfg, st, ops).records == map[]
    decreases |ops|
  {
    hide WithinLimits, WorkOf, Step, Submitted, Due;
    RunInvKeyed(cfg, st, ops);
    WorkBounds(cfg, st.records);
    if ops != [] {
      StepInv(cfg, st, ops[0]);
      FlushDrains(cfg, st, ops[0]);
      EmptyWork(cfg);
      DrainsWithin(cfg, Step(cfg, st, ops[0]), ops[1..]);
    } else if WorkOf(cfg, st.records) <= 0 {
      assert |st.records| == 0;
    }
  }

  /** So eight due flushes for each pending record are enough. */
  lemma DrainsWithinEightEach(cfg: QueueConfig, st: QueueState, ops: seq<Op>)
    requires WithinLimits(cfg) && Inv(cfg, st) && AllDue(cfg, st, ops) && |ops| >= MAX_UPLOAD_ATTEMPTS * |st.records|
    ensures WellKeyed(Run(cfg, st, ops).records) && Run(cfg, st, ops).records == map[]
  {
    hide WithinLimits, WorkOf, Run, AllDue, AttemptsRemain;
    WorkAtMost(cfg, st);
    DrainsWithin(cfg, st, ops);
  }

  lemma WorkAtMost(cfg: QueueConfig, st: QueueState)
    requires WithinLimits(cfg) && Inv(cfg, st)
    ensures WorkOf(cfg, st.records) <= MAX_UPLOAD_ATTEMPTS * |st.records|
  {
    hide WorkOf, WellFormed;
    WorkBounds(cfg, st.records);
    Distribute(|st.records|, cfg.maxAttempts, MAX_UPLOAD_ATTEMPTS - cfg.maxAttempts);
  }

  // ---- one record --------------------------------------------------------

  /** The attempts one id has left. */
  function AttemptsLeft(cfg: QueueConfig, m: Records, id: string): int {
    if id in m then cfg.maxAttempts - m[id].attemptCount else 0
  }

  ghost function Submissions(cfg: QueueConfig, st: QueueState, ops: seq<Op>, id: string): nat
    requires WellKeyed(st.records)
    decreases |ops|
  {
    if ops == [] then 0
    else
      StepKeyed(cfg, st, ops[0]);
      (if id in Submitted(cfg, st, ops[0]) then 1 else 0) + Submissions(cfg, Step(cfg, st, ops[0]), ops[1..], id)
  }

  /** Whether the call takes in that id. */
  predicate TakesIn(cfg: QueueConfig, op: Op, id: string) {
    Enqueues(cfg, op) && op.submission.eventId == id
  }

  function EnqueuedAs(cfg: QueueConfig, ops: seq<Op>, id: string): nat {
    if ops == [] then 0
    else (if TakesIn(cfg, ops[0], id) then 1 else 0) + EnqueuedAs(cfg, ops[1..], id)
  }

  lemma SubmissionStep(cfg: QueueConfig, st: QueueState, op: Op, id: string)
    requires WithinLimits(cfg) && Inv(cfg, st)
    ensures WellKeyed(st.records) && WellKeyed(Step(cfg, st, op).records)
    ensures 0 <= AttemptsLeft(cfg, Step(cfg, st, op).records, id)
    ensures (if id in Submitted(cfg, st, op) then 1 else 0) + AttemptsLeft(cfg, Step(cfg, st, op).records, id)
            <= AttemptsLeft(cfg, st.records, id)
               + (if TakesIn(cfg, op, id) then cfg.maxAttempts else 0)
  {
    hide WithinLimits, FlushStep, Selected, PruneStep, Due, Refusal;
    StepInv(cfg, st, op);
    match op
    case EnqueueOp(s, nowMs) =>
      if Refusal(cfg, s).None? { EnqueueFacts(cfg, st, s, nowMs); }
    case FlushOp(upload, nowMs, random) =>
      SubmittedPending(cfg, st, op);
      if id in FlushStep(cfg, st, upload, nowMs, random).records {
        FlushBumps(cfg, st, upload, nowMs, random, id);
      }
    case ReserveOp =>
  }

  lemma {:induction false} SubmissionsBounded(cfg: QueueConfig, st: QueueState, ops: seq<Op>, id: string)
    requires WithinLimits(cfg) && Inv(cfg, st)
    ensures WellKeyed(st.records)
    ensures Submissions(cfg, st, ops, id) <= AttemptsLeft(cfg, st.records, id)
      + cfg.maxAttempts * EnqueuedAs(cfg, ops, id)
    decreases |ops|
  {
    hide WithinLimits, Step, Submitted, TakesIn;
    if ops != [] {
      var op := ops[0];
      StepInv(cfg, st, op);
      SubmissionStep(cfg, st, op, id);
      SubmissionsBounded(cfg, Step(cfg, st, op), ops[1..], id);
      Distribute(cfg.maxAttempts, if TakesIn(cfg, op, id) then 1 else 0, EnqueuedAs(cfg, ops[1..], id));
    }
  }

  /** On any run from an empty queue, an id enqueued once is submitted at most `maxAttempts` (8) times. */
  lemma SubmittedAtMostMaxAttempts(cfg: QueueConfig, ops: seq<Op>, id: string)
    requires WithinLimits(cfg) && EnqueuedAs(cfg, ops, id) <= 1
    ensures Submissions(cfg, EMPTY_QUEUE, ops, id) <= cfg.maxAttempts <= MAX_UPLOAD_ATTEMPTS
  {
    hide Submissions, EnqueuedAs, WellFormed;
    SubmissionsBounded(cfg, EMPTY_QUEUE, ops, id);
  }
}
