/**
 The life of a run: dispatch, reports, lease renewals and reaping, as steps of coordinators and workers
 that interleave freely (pkg/coordinator/coordinator.go, pkg/worker/worker.go, pkg/reaper/reaper.go).
 Each SQL statement is one step; a dispatch transaction holds its row locks from its first step to its
 last. Times are in seconds.
 */
module Lifecycle {
  import opened Common

  const LEASE_TTL: int := 60
  const RENEWAL_INTERVAL: int := 15
  const DISPATCH_BATCH_SIZE: nat := 50

  type RunId = nat
  type TxId = nat
  type ExecutionId = nat

  datatype Status = Pending | Running | Succeeded | Failed | Missed | Cancelled | BudgetExceeded

  predicate Terminal(s: Status) {
    s == Succeeded || s == Failed || s == BudgetExceeded
  }

  // -- Rows ------------------------------------------------------------------------------

  /**
   A row of `runs`. `history` (the statuses the row went through) and `extendedAt` (the clock reading
   of its last lease extension) are not columns; they record what the properties speak about.
   */
  datatype Run = Run(
    agent: string, scheduledFor: int, status: Status, lease: Option<int>, finishedAt: Option<int>,
    history: seq<Status>, extendedAt: int)
  {
    function Become(s: Status): Run {
      this.(status := s, history := if s == status then history else history + [s])
    }

    /** A dispatch marks the row as picked up at `now`. */
    function Leased(now: int): Run {
      Become(Running).(lease := Some(now + LEASE_TTL), extendedAt := now)
    }

    /** A worker reports that it started; there is no guard on the current status. */
    function Started(): Run {
      Become(Running)
    }

    /** A worker extends its claim; only a running row is touched. */
    function Renewed(now: int): Run {
      if status == Running then this.(lease := Some(now + LEASE_TTL), extendedAt := now) else this
    }

    /** A worker reports the outcome; there is no guard on the current status. */
    function Ended(outcome: Status, now: int): Run {
      Become(outcome).(lease := None, finishedAt := Some(now))
    }

    predicate Expired(now: int) {
      status == Running && lease.Some? && lease.value < now
    }

    /** The reaper fails a running row whose lease ran out; the lease column keeps its value. */
    function Reaped(now: int): Run {
      if Expired(now) then Become(Failed).(finishedAt := Some(now)) else this
    }
  }

  function NewRun(agent: string, scheduledFor: int, status: Status): Run {
    Run(agent, scheduledFor, status, None, None, [status], 0)
  }

  type Runs = map<RunId, Run>

  /** The rows in `ids` marked as picked up, all others as they were. */
  function MarkAll(runs: Runs, ids: set<RunId>, now: int): Runs {
    map r | r in runs :: if r in ids then runs[r].Leased(now) else runs[r]
  }

  function ReapAll(runs: Runs, now: int): Runs {
    map r | r in runs :: runs[r].Reaped(now)
  }

  // -- State -----------------------------------------------------------------------------

  /**
   An open dispatch transaction: the time it read, the rows it locked, how many of them it offered, the
   ones a worker accepted and it marked, whether a statement failed, and whether it stopped offering.
   */
  datatype Tx = Tx(now: int, batch: seq<RunId>, offered: nat, marked: set<RunId>, doomed: bool, closed: bool)

  datatype Phase = Queued | Starting | Executing | Finishing(outcome: Status)

  /** A run a worker accepted and has not finished with. */
  datatype Execution = Execution(run: RunId, phase: Phase)

  /** `strays` are start reports whose sender gave up waiting, but which may still reach the database. */
  datatype State = State(
    clock: int, runs: Runs, txs: map<TxId, Tx>, executions: map<ExecutionId, Execution>, strays: set<RunId>)

  const INITIAL := State(0, map[], map[], map[], {})

  ghost predicate Locked(s: State, r: RunId) {
    exists t :: t in s.txs && r in s.txs[t].batch
  }

  // -- Steps -----------------------------------------------------------------------------

  datatype Step =
    | Tick(now: int)
    | Create(id: RunId, agent: string, scheduledFor: int, missed: bool)
    | Begin(tx: TxId, now: int, batch: seq<RunId>)
    | Accept(tx: TxId, execution: ExecutionId, markOk: bool)
    | EnqueueWithError(tx: TxId, execution: ExecutionId)
    | Decline(tx: TxId)
    | Commit(tx: TxId)
    | Rollback(tx: TxId)
    | Dequeue(execution: ExecutionId)
    | ReportRunning(execution: ExecutionId)
    | LoseRunning(execution: ExecutionId, stray: bool)
    | StrayRunning(id: RunId)
    | Renew(id: RunId, now: int)
    | Finish(execution: ExecutionId, outcome: Status)
    | ReportOutcome(execution: ExecutionId, now: int)
    | LoseOutcome(execution: ExecutionId)
    | Reap(now: int)
    | Die(executions: set<ExecutionId>)

  /** The row an open transaction is about to offer. */
  ghost predicate Offering(s: State, t: TxId, r: RunId) {
    && t in s.txs && !s.txs[t].closed
    && s.txs[t].offered < |s.txs[t].batch| && s.txs[t].batch[s.txs[t].offered] == r
  }

  /** The batch a locking query may return: due pending rows nobody has locked, oldest first. */
  ghost predicate Selectable(s: State, now: int, batch: seq<RunId>) {
    && |batch| <= DISPATCH_BATCH_SIZE
    && (forall i, j :: 0 <= i < j < |batch| ==> batch[i] != batch[j])
    && (forall r :: r in batch ==>
          r in s.runs && s.runs[r].status == Pending && s.runs[r].scheduledFor <= now && !Locked(s, r))
    && (forall i, j :: 0 <= i < j < |batch| ==> s.runs[batch[i]].scheduledFor <= s.runs[batch[j]].scheduledFor)
  }

  ghost predicate Enabled(s: State, step: Step) {
    match step
    case Tick(now) => s.clock <= now
    case Create(id, _, _, _) => id !in s.runs
    case Begin(t, now, batch) => t !in s.txs && now <= s.clock && Selectable(s, now, batch)
    case Accept(t, e, markOk) =>
      t in s.txs && Offering(s, t, Current(s, t)) && e !in s.executions && (s.txs[t].doomed ==> !markOk)
    case EnqueueWithError(t, e) => t in s.txs && Offering(s, t, Current(s, t)) && e !in s.executions
    case Decline(t) => t in s.txs && Offering(s, t, Current(s, t))
    case Commit(t) =>
      t in s.txs && !s.txs[t].doomed && (s.txs[t].closed || s.txs[t].offered == |s.txs[t].batch|)
    case Rollback(t) => t in s.txs
    case Dequeue(e) => e in s.executions && s.executions[e].phase == Queued
    case ReportRunning(e) =>
      && e in s.executions && s.executions[e].phase == Starting
      && s.executions[e].run in s.runs && !Locked(s, s.executions[e].run)
    case LoseRunning(e, _) => e in s.executions && s.executions[e].phase == Starting
    case StrayRunning(r) => r in s.strays && r in s.runs && !Locked(s, r)
    case Renew(r, now) => r in s.runs && now <= s.clock
    case Finish(e, outcome) => e in s.executions && s.executions[e].phase == Executing && Terminal(outcome)
    case ReportOutcome(e, now) =>
      && e in s.executions && s.executions[e].phase.Finishing? && now <= s.clock
      && s.executions[e].run in s.runs && !Locked(s, s.executions[e].run)
    case LoseOutcome(e) => e in s.executions && s.executions[e].phase.Finishing?
    case Reap(now) => now <= s.clock
    case Die(_) => true
  }

  function Current(s: State, t: TxId): RunId
    requires t in s.txs
  {
    var tx := s.txs[t];
    if tx.offered < |tx.batch| then tx.batch[tx.offered] else 0
  }

  function SetRun(s: State, r: RunId, run: Run): State {
    s.(runs := s.runs[r := run])
  }

  function SetPhase(s: State, e: ExecutionId, phase: Phase): State
    requires e in s.executions
  {
    s.(executions := s.executions[e := s.executions[e].(phase := phase)])
  }

  function Enqueue(s: State, e: ExecutionId, r: RunId): State {
    s.(executions := s.executions[e := Execution(r, Queued)])
  }

  /** What a step does. */
  ghost function Apply(s: State, step: Step): State
    requires Enabled(s, step)
  {
    match step
    case Tick(now) => s.(clock := now)
    case Create(id, agent, at, missed) => SetRun(s, id, NewRun(agent, at, if missed then Missed else Pending))
    case Begin(t, now, batch) => s.(txs := s.txs[t := Tx(now, batch, 0, {}, false, false)])
    case Accept(t, e, markOk) =>
      var r, tx := Current(s, t), s.txs[t];
      Enqueue(s, e, r).(txs := s.txs[t :=
        if markOk then tx.(offered := tx.offered + 1, marked := tx.marked + {r})
        else tx.(offered := tx.offered + 1, doomed := true)])
    case EnqueueWithError(t, e) => Enqueue(s, e, Current(s, t))
    case Decline(t) => s.(txs := s.txs[t := s.txs[t].(closed := true)])
    case Commit(t) => s.(runs := MarkAll(s.runs, s.txs[t].marked, s.txs[t].now), txs := s.txs - {t})
    case Rollback(t) => s.(txs := s.txs - {t})
    case Dequeue(e) => SetPhase(s, e, Starting)
    case ReportRunning(e) =>
      var r := s.executions[e].run;
      SetPhase(SetRun(s, r, s.runs[r].Started()), e, Executing)
    case LoseRunning(e, stray) =>
      SetPhase(s.(strays := if stray then s.strays + {s.executions[e].run} else s.strays), e, Executing)
    case StrayRunning(r) => SetRun(s, r, s.runs[r].Started()).(strays := s.strays - {r})
    case Renew(r, now) => SetRun(s, r, s.runs[r].Renewed(now))
    case Finish(e, outcome) => SetPhase(s, e, Finishing(outcome))
    case ReportOutcome(e, now) =>
      var r := s.executions[e].run;
      SetRun(s, r, s.runs[r].Ended(s.executions[e].phase.outcome, now)).(executions := s.executions - {e})
    case LoseOutcome(e) => s.(executions := s.executions - {e})
    case Reap(now) => s.(runs := ReapAll(s.runs, now))
    case Die(es) => s.(executions := s.executions - es)
  }

  ghost predicate Next(s: State, step: Step, s': State) {
    Enabled(s, step) && s' == Apply(s, step)
  }

  /**
   A dispatch locks at most fifty rows: different ones, due, pending, locked by no other dispatch, the
   oldest first. It starts with nothing offered and changes no row.
   */
  lemma BeginMeans(s: State, t: TxId, now: int, batch: seq<RunId>)
    ensures Enabled(s, Begin(t, now, batch)) <==>
      && t !in s.txs && now <= s.clock && |batch| <= 50
      && (forall i, j :: 0 <= i < j < |batch| ==> batch[i] != batch[j])
      && (forall r :: r in batch ==>
            && r in s.runs && s.runs[r].status == Pending && s.runs[r].scheduledFor <= now
            && forall u :: u in s.txs ==> r !in s.txs[u].batch)
      && (forall i, j :: 0 <= i < j < |batch| ==> s.runs[batch[i]].scheduledFor <= s.runs[batch[j]].scheduledFor)
    ensures Enabled(s, Begin(t, now, batch)) ==>
      var s' := Apply(s, Begin(t, now, batch));
      s'.runs == s.runs && s'.executions == s.executions && t in s'.txs && s'.txs[t].batch == batch
      && s'.txs[t].offered == 0 && s'.txs[t].marked == {} && s'.txs[t].now == now
  {
    if forall r :: r in batch ==> forall u :: u in s.txs ==> r !in s.txs[u].batch {
      assert forall r :: r in batch ==> !Locked(s, r);
    }
  }

  /** A renewal extends the lease of a running row to a minute from the coordinator's clock, and does nothing else. */
  lemma RenewMeans(s: State, r: RunId, now: int)
    ensures Enabled(s, Renew(r, now)) <==> r in s.runs && now <= s.clock
    ensures Enabled(s, Renew(r, now)) ==>
      var s' := Apply(s, Renew(r, now));
      && s'.runs.Keys == s.runs.Keys && s'.txs == s.txs && s'.executions == s.executions
      && (forall q :: q in s.runs && q != r ==> s'.runs[q] == s.runs[q])
      && (s.runs[r].status != Running ==> s'.runs[r] == s.runs[r])
      && (s.runs[r].status == Running ==>
            s'.runs[r] == s.runs[r].(lease := Some(now + 60), extendedAt := now))
  {
  }

  // -- What every interleaving keeps -----------------------------------------------------

  /** The first status is pending or missed and is left, if at all, for good; missed is final. */
  ghost predicate HistoryOk(run: Run) {
    && |run.history| > 0 && run.history[|run.history| - 1] == run.status
    && (run.history[0] == Pending || run.history == [Missed])
    && (forall i :: 0 < i < |run.history| ==> run.history[i] == Running || Terminal(run.history[i]))
    && (run.status == Missed ==> run.lease == None)
  }

  ghost predicate TxOk(tx: Tx) {
    && tx.offered <= |tx.batch|
    && (forall i, j :: 0 <= i < j < |tx.batch| ==> tx.batch[i] != tx.batch[j])
    && (forall r :: r in tx.marked ==> r in tx.batch[..tx.offered])
  }

  /** Locked rows are pending, and no two transactions hold the same row. */
  ghost predicate LocksOk(runs: Runs, txs: map<TxId, Tx>) {
    && (forall t :: t in txs ==> TxOk(txs[t]))
    && (forall t, r :: t in txs && r in txs[t].batch ==> r in runs && runs[r].status == Pending)
    && (forall t, u, r :: t in txs && u in txs && r in txs[t].batch && r in txs[u].batch ==> t == u)
  }

  /** Only rows that once were pending are executed or reported on. */
  ghost predicate WorkOk(runs: Runs, executions: map<ExecutionId, Execution>, strays: set<RunId>) {
    && (forall e :: e in executions ==>
          executions[e].run in runs && runs[executions[e].run].status != Missed
          && (executions[e].phase.Finishing? ==> Terminal(executions[e].phase.outcome)))
    && (forall r :: r in strays ==> r in runs && runs[r].status != Missed)
  }

  ghost predicate RowsOk(runs: Runs) {
    forall r :: r in runs ==> HistoryOk(runs[r])
  }

  ghost predicate Safe(s: State) {
    RowsOk(s.runs) && LocksOk(s.runs, s.txs) && WorkOk(s.runs, s.executions, s.strays)
  }

  /** How one step may change a row: it never returns to pending, and a missed one stays as it is. */
  ghost predicate RunAdvances(before: Run, after: Run) {
    && HistoryOk(after)
    && (after.status == Pending ==> before.status == Pending)
    && (after.status == Missed <==> before.status == Missed)
    && (before.status == Missed ==> after == before)
    && before.history <= after.history
  }

  ghost predicate RowsAdvance(before: Runs, after: Runs) {
    before.Keys <= after.Keys && forall r :: r in before ==> RunAdvances(before[r], after[r])
  }

  lemma BecomeAdvances(run: Run, s: Status)
    requires HistoryOk(run) && run.status != Missed && (s == Running || Terminal(s))
    ensures RunAdvances(run, run.Become(s))
  {
  }

  lemma RenewedAdvances(run: Run, now: int)
    requires HistoryOk(run)
    ensures RunAdvances(run, run.Renewed(now)) && run.Renewed(now).status == run.status
  {
  }

  lemma ReapedAdvances(run: Run, now: int)
    requires HistoryOk(run)
    ensures RunAdvances(run, run.Reaped(now)) && (run.status == Pending ==> run.Reaped(now) == run)
  {
    if run.Expired(now) {
      BecomeAdvances(run, Failed);
    }
  }

  /** If rows advance and the locked ones are still pending, the invariant carries over. */
  lemma RowsStaySafe(s: State, runs: Runs, txs: map<TxId, Tx>)
    requires Safe(s) && RowsAdvance(s.runs, runs) && runs.Keys == s.runs.Keys
    requires txs.Keys <= s.txs.Keys && forall t :: t in txs ==> txs[t] == s.txs[t]
    requires forall t, r :: t in txs && r in txs[t].batch ==> r in runs && runs[r].status == Pending
    ensures Safe(s.(runs := runs, txs := txs))
  {
    LocksStayOk(s.runs, runs, s.txs, txs);
    assert WorkOk(runs, s.executions, s.strays);
  }

  lemma LocksStayOk(runs: Runs, runs': Runs, txs: map<TxId, Tx>, txs': map<TxId, Tx>)
    requires LocksOk(runs, txs)
    requires txs'.Keys <= txs.Keys && forall t :: t in txs' ==> txs'[t] == txs[t]
    requires forall t, r :: t in txs' && r in txs'[t].batch ==> r in runs' && runs'[r].status == Pending
    ensures LocksOk(runs', txs')
  {
  }

  lemma WorkStaysSafe(s: State, executions: map<ExecutionId, Execution>, strays: set<RunId>)
    requires Safe(s) && WorkOk(s.runs, executions, strays)
    ensures Safe(s.(executions := executions, strays := strays))
  {
  }

  lemma CreateIsSafe(s: State, r: RunId, run: Run)
    requires Safe(s) && r !in s.runs && HistoryOk(run)
    ensures Safe(SetRun(s, r, run)) && RowsAdvance(s.runs, SetRun(s, r, run).runs)
  {
    var runs' := s.runs[r := run];
    LocksStayOk(s.runs, runs', s.txs, s.txs);
    assert WorkOk(runs', s.executions, s.strays);
  }

  lemma OneRowAdvances(s: State, r: RunId, run: Run)
    requires Safe(s) && r in s.runs && RunAdvances(s.runs[r], run)
    requires Locked(s, r) ==> run.status == Pending
    ensures Safe(SetRun(s, r, run)) && RowsAdvance(s.runs, SetRun(s, r, run).runs)
  {
    var runs' := s.runs[r := run];
    forall x | x in s.runs
      ensures RunAdvances(s.runs[x], runs'[x])
    {
      assert x != r ==> HistoryOk(s.runs[x]);
    }
    assert runs'.Keys == s.runs.Keys;
    forall t, x | t in s.txs && x in s.txs[t].batch
      ensures x in runs' && runs'[x].status == Pending
    {
      assert Locked(s, x);
    }
    RowsStaySafe(s, runs', s.txs);
  }

  lemma ReapAdvances(s: State, now: int)
    requires Safe(s)
    ensures var s' := s.(runs := ReapAll(s.runs, now)); Safe(s') && RowsAdvance(s.runs, s'.runs)
    ensures forall r :: r in s.runs && s.runs[r].status == Pending ==> ReapAll(s.runs, now)[r] == s.runs[r]
  {
    var runs' := ReapAll(s.runs, now);
    forall r | r in s.runs
      ensures RunAdvances(s.runs[r], runs'[r]) && (s.runs[r].status == Pending ==> runs'[r].status == Pending)
    {
      ReapedAdvances(s.runs[r], now);
    }
    RowsStaySafe(s, runs', s.txs);
  }

  lemma MarkedArePending(s: State, t: TxId)
    requires Safe(s) && t in s.txs
    ensures forall r :: r in s.txs[t].marked ==> r in s.txs[t].batch && r in s.runs && s.runs[r].status == Pending
  {
    assert TxOk(s.txs[t]);
    forall r | r in s.txs[t].marked
      ensures r in s.txs[t].batch
    {
      assert r in s.txs[t].batch[..s.txs[t].offered];
    }
  }

  lemma CommitAdvances(s: State, t: TxId)
    requires Safe(s) && t in s.txs
    ensures var s' := s.(runs := MarkAll(s.runs, s.txs[t].marked, s.txs[t].now), txs := s.txs - {t});
            Safe(s') && RowsAdvance(s.runs, s'.runs)
    ensures forall r :: r in s.txs[t].marked ==> r in s.runs && s.runs[r].status == Pending
  {
    var tx := s.txs[t];
    var runs' := MarkAll(s.runs, tx.marked, tx.now);
    MarkedArePending(s, t);
    forall r | r in s.runs
      ensures RunAdvances(s.runs[r], runs'[r])
    {
      assert HistoryOk(s.runs[r]);
      if r in tx.marked {
        BecomeAdvances(s.runs[r], Running);
      }
    }
    forall u, r | u in s.txs && u != t && r in s.txs[u].batch
      ensures r in runs' && runs'[r].status == Pending
    {
      assert r !in tx.batch;
    }
    RowsStaySafe(s, runs', s.txs - {t});
  }

  lemma DispatchAdvances(s: State, t: TxId, tx: Tx)
    requires Safe(s) && t in s.txs && TxOk(tx) && tx.batch == s.txs[t].batch
    ensures Safe(s.(txs := s.txs[t := tx]))
  {
  }

  lemma BeginAdvances(s: State, t: TxId, now: int, batch: seq<RunId>)
    requires Safe(s) && t !in s.txs && Selectable(s, now, batch)
    ensures Safe(s.(txs := s.txs[t := Tx(now, batch, 0, {}, false, false)]))
  {
    var txs' := s.txs[t := Tx(now, batch, 0, {}, false, false)];
    assert TxOk(txs'[t]);
    forall u, r | u in s.txs && r in s.txs[u].batch
      ensures r !in batch
    {
      assert Locked(s, r);
    }
  }

  lemma EnqueueAdvances(s: State, e: ExecutionId, r: RunId)
    requires Safe(s) && r in s.runs && s.runs[r].status != Missed
    ensures Safe(Enqueue(s, e, r))
  {
  }

  lemma AcceptIsSafe(s: State, t: TxId, e: ExecutionId, markOk: bool)
    requires Safe(s) && Enabled(s, Accept(t, e, markOk))
    ensures Safe(Apply(s, Accept(t, e, markOk)))
    ensures Current(s, t) in s.txs[t].batch && Current(s, t) in s.runs && s.runs[Current(s, t)].status == Pending
    ensures Apply(s, Accept(t, e, markOk)).executions == s.executions[e := Execution(Current(s, t), Queued)]
  {
    var r, tx := Current(s, t), s.txs[t];
    var tx' := if markOk then tx.(offered := tx.offered + 1, marked := tx.marked + {r})
               else tx.(offered := tx.offered + 1, doomed := true);
    assert tx.batch[..tx.offered + 1] == tx.batch[..tx.offered] + [r];
    assert TxOk(tx');
    DispatchAdvances(s, t, tx');
    EnqueueAdvances(s.(txs := s.txs[t := tx']), e, r);
  }

  predicate Dispatching(step: Step) {
    step.Begin? || step.Accept? || step.EnqueueWithError? || step.Decline? || step.Commit? || step.Rollback?
  }

  lemma SameRowsAdvance(runs: Runs)
    requires RowsOk(runs)
    ensures RowsAdvance(runs, runs)
  {
  }

  lemma DispatchStepIsSafe(s: State, step: Step)
    requires Safe(s) && Enabled(s, step) && Dispatching(step)
    ensures Safe(Apply(s, step)) && RowsAdvance(s.runs, Apply(s, step).runs)
  {
    SameRowsAdvance(s.runs);
    match step
    case Begin(t, now, batch) => BeginAdvances(s, t, now, batch);
    case Accept(t, e, markOk) => AcceptIsSafe(s, t, e, markOk);
    case EnqueueWithError(t, e) =>
      assert Current(s, t) in s.txs[t].batch;
      EnqueueAdvances(s, e, Current(s, t));
    case Decline(t) => DispatchAdvances(s, t, s.txs[t].(closed := true));
    case Commit(t) => CommitAdvances(s, t);
    case Rollback(t) => RowsStaySafe(s, s.runs, s.txs - {t});
  }

  lemma ReportStepIsSafe(s: State, step: Step)
    requires Safe(s) && Enabled(s, step)
    requires step.ReportRunning? || step.StrayRunning? || step.ReportOutcome?
    ensures Safe(Apply(s, step)) && RowsAdvance(s.runs, Apply(s, step).runs)
  {
    match step
    case ReportRunning(e) =>
      var r := s.executions[e].run;
      BecomeAdvances(s.runs[r], Running);
      OneRowAdvances(s, r, s.runs[r].Started());
    case StrayRunning(r) =>
      BecomeAdvances(s.runs[r], Running);
      OneRowAdvances(s, r, s.runs[r].Started());
    case ReportOutcome(e, now) =>
      var r := s.executions[e].run;
      BecomeAdvances(s.runs[r], s.executions[e].phase.outcome);
      OneRowAdvances(s, r, s.runs[r].Ended(s.executions[e].phase.outcome, now));
  }

  /** Every enabled step keeps the invariant, and rows only ever advance. */
  lemma StepIsSafe(s: State, step: Step)
    requires Safe(s) && Enabled(s, step)
    ensures Safe(Apply(s, step)) && RowsAdvance(s.runs, Apply(s, step).runs)
  {
    if Dispatching(step) {
      DispatchStepIsSafe(s, step);
    } else if step.ReportRunning? || step.StrayRunning? || step.ReportOutcome? {
      ReportStepIsSafe(s, step);
    } else if step.Renew? {
      RenewedAdvances(s.runs[step.id], step.now);
      if Locked(s, step.id) {
        var t :| t in s.txs && step.id in s.txs[t].batch;
      }
      OneRowAdvances(s, step.id, s.runs[step.id].Renewed(step.now));
    } else if step.Reap? {
      ReapAdvances(s, step.now);
    } else {
      QuietStepIsSafe(s, step);
    }
  }

  lemma QuietStepIsSafe(s: State, step: Step)
    requires Safe(s) && Enabled(s, step)
    requires || step.Tick? || step.Create? || step.Dequeue? || step.LoseRunning?
             || step.Finish? || step.LoseOutcome? || step.Die?
    ensures Safe(Apply(s, step)) && RowsAdvance(s.runs, Apply(s, step).runs)
  {
    SameRowsAdvance(s.runs);
    if step.Create? {
      CreateIsSafe(s, step.id, Apply(s, step).runs[step.id]);
    } else {
      var s' := Apply(s, step);
      WorkStaysSafe(s, s'.executions, s'.strays);
    }
  }
}
