/** What holds of runs over every behaviour of the system, and under which discipline more holds. */
module LifecycleRuns {
  import opened Common
  import opened Lifecycle

  // -- Behaviours ------------------------------------------------------------------------

  ghost predicate StepAt(ss: seq<State>, steps: seq<Step>, i: nat)
    requires i < |steps| && |ss| == |steps| + 1
  {
    Next(ss[i], steps[i], ss[i + 1])
  }

  ghost predicate Behaviour(ss: seq<State>, steps: seq<Step>) {
    && |ss| == |steps| + 1
    && ss[0] == INITIAL
    && forall i :: 0 <= i < |steps| ==> StepAt(ss, steps, i)
  }

  lemma {:induction false} AlwaysSafe(ss: seq<State>, steps: seq<Step>, i: nat)
    requires Behaviour(ss, steps) && i < |ss|
    ensures Safe(ss[i])
  {
    if i > 0 {
      AlwaysSafe(ss, steps, i - 1);
      assert StepAt(ss, steps, i - 1);
      StepIsSafe(ss[i - 1], steps[i - 1]);
    }
  }

  lemma AdvanceIsTransitive(a: Run, b: Run, c: Run)
    requires RunAdvances(a, b) && RunAdvances(b, c)
    ensures RunAdvances(a, c)
  {
  }

  /** Over any stretch of a behaviour a row only advances: in particular nothing returns to pending. */
  lemma {:induction false} RowsOnlyAdvance(ss: seq<State>, steps: seq<Step>, i: nat, j: nat, r: RunId)
    requires Behaviour(ss, steps) && i <= j < |ss| && r in ss[i].runs
    ensures r in ss[j].runs && RunAdvances(ss[i].runs[r], ss[j].runs[r])
    decreases j - i
  {
    AlwaysSafe(ss, steps, i);
    if i < j {
      RowsOnlyAdvance(ss, steps, i, j - 1, r);
      AlwaysSafe(ss, steps, j - 1);
      assert StepAt(ss, steps, j - 1);
      StepIsSafe(ss[j - 1], steps[j - 1]);
      assert RunAdvances(ss[j - 1].runs[r], ss[j].runs[r]);
      AdvanceIsTransitive(ss[i].runs[r], ss[j - 1].runs[r], ss[j].runs[r]);
    }
  }

  // -- Dispatch --------------------------------------------------------------------------

  /** Dispatch passes that overlap never offer the same row. */
  lemma OverlappingPassesAreDisjoint(ss: seq<State>, steps: seq<Step>, i: nat, t: TxId, u: TxId, r: RunId)
    requires Behaviour(ss, steps) && i < |ss|
    requires t in ss[i].txs && u in ss[i].txs && r in ss[i].txs[t].batch && r in ss[i].txs[u].batch
    ensures t == u
  {
    AlwaysSafe(ss, steps, i);
  }

  lemma CommitMarks(s: State, t: TxId, r: RunId)
    requires Safe(s) && Enabled(s, Commit(t)) && r in s.txs[t].marked
    ensures r in s.runs && s.runs[r].history == [Pending] && Apply(s, Commit(t)).runs[r].status == Running
  {
    assert r in s.txs[t].batch;
    assert HistoryOk(s.runs[r]);
  }

  /** A row accepted in a committed dispatch is never offered again, by any dispatch. */
  lemma CommittedIsNeverOfferedAgain(ss: seq<State>, steps: seq<Step>, i: nat, j: nat, u: TxId, r: RunId)
    requires Behaviour(ss, steps) && i < j < |ss| && steps[i].Commit?
    requires steps[i].tx in ss[i].txs && r in ss[i].txs[steps[i].tx].marked
    ensures !Offering(ss[j], u, r)
  {
    AlwaysSafe(ss, steps, i);
    assert StepAt(ss, steps, i);
    CommitMarks(ss[i], steps[i].tx, r);
    RowsOnlyAdvance(ss, steps, i + 1, j, r);
    AlwaysSafe(ss, steps, j);
  }

  /** When a dispatch commits, no worker has reported anything about the rows it marks. */
  lemma DispatchOverwritesNoReport(ss: seq<State>, steps: seq<Step>, i: nat, r: RunId)
    requires Behaviour(ss, steps) && i < |steps| && steps[i].Commit?
    requires steps[i].tx in ss[i].txs && r in ss[i].txs[steps[i].tx].marked
    ensures r in ss[i].runs && ss[i].runs[r].history == [Pending]
  {
    AlwaysSafe(ss, steps, i);
    assert StepAt(ss, steps, i);
    CommitMarks(ss[i], steps[i].tx, r);
  }

  /** A missed run is never locked for dispatch, leased, queued or executed, now or later. */
  lemma MissedIsNeverWorked(ss: seq<State>, steps: seq<Step>, i: nat, j: nat, r: RunId)
    requires Behaviour(ss, steps) && i <= j < |ss|
    requires r in ss[i].runs && ss[i].runs[r].status == Missed
    ensures r in ss[j].runs && ss[j].runs[r] == ss[i].runs[r] && ss[j].runs[r].lease == None
    ensures !Locked(ss[j], r)
    ensures forall e :: e in ss[j].executions ==> ss[j].executions[e].run != r
  {
    RowsOnlyAdvance(ss, steps, i, j, r);
    AlwaysSafe(ss, steps, j);
  }

  /** A renewal changes no status, so it never revives a finished run. */
  lemma RenewalRevivesNothing(ss: seq<State>, steps: seq<Step>, i: nat, r: RunId)
    requires Behaviour(ss, steps) && i < |steps| && steps[i].Renew? && r in ss[i].runs
    ensures r in ss[i + 1].runs && ss[i + 1].runs[r].status == ss[i].runs[r].status
    ensures ss[i].runs[r].status != Running ==> ss[i + 1].runs[r] == ss[i].runs[r]
  {
    assert StepAt(ss, steps, i);
  }

  // -- No stuck runs ---------------------------------------------------------------------

  /**
   The discipline: a dispatch in which a worker accepted a run commits, an offer that returned an error
   was not enqueued, and a start report arrives, if late, while the run is still being executed.
   */
  ghost predicate Disciplined(s: State, step: Step) {
    && !step.EnqueueWithError?
    && (step.StrayRunning? ==> BeingExecuted(s, step.id))
    && (step.Accept? ==> step.markOk)
    && (step.Rollback? && step.tx in s.txs ==> s.txs[step.tx].marked == {})
  }

  ghost predicate BeingExecuted(s: State, r: RunId) {
    exists e :: e in s.executions && s.executions[e].run == r
  }

  /** Some open dispatch has marked the row but not committed yet. */
  ghost predicate Held(txs: map<TxId, Tx>, r: RunId) {
    exists t :: t in txs && r in txs[t].marked
  }

  /** A running row has a lease, and a lease ends one TTL after its last extension. */
  ghost predicate LeaseOk(run: Run) {
    && (run.status == Running ==> run.lease.Some?)
    && (run.lease.Some? ==> run.lease.value == run.extendedAt + LEASE_TTL)
  }

  ghost predicate LeasesOk(runs: Runs) {
    forall r :: r in runs ==> LeaseOk(runs[r])
  }

  ghost predicate OneEach(executions: map<ExecutionId, Execution>) {
    forall e, f :: e in executions && f in executions && executions[e].run == executions[f].run ==> e == f
  }

  /** The run's dispatch is still open, or it has committed and the row carries a lease. */
  ghost predicate ClaimOk(s: State, r: RunId) {
    Held(s.txs, r) || (r in s.runs && s.runs[r].status != Pending && s.runs[r].lease.Some?)
  }

  ghost predicate ClaimsOk(s: State) {
    forall e :: e in s.executions ==> ClaimOk(s, s.executions[e].run)
  }

  ghost predicate Orderly(s: State) {
    Safe(s) && LeasesOk(s.runs) && OneEach(s.executions) && ClaimsOk(s)
  }

  lemma HeldIsLocked(s: State, r: RunId)
    requires Safe(s) && Held(s.txs, r)
    ensures Locked(s, r) && r in s.runs && s.runs[r].status == Pending
  {
    var t :| t in s.txs && r in s.txs[t].marked;
    assert r in s.txs[t].batch;
  }

  lemma UnlockedIsLeased(s: State, e: ExecutionId)
    requires Orderly(s) && e in s.executions && !Locked(s, s.executions[e].run)
    ensures !Held(s.txs, s.executions[e].run)
    ensures var run := s.runs[s.executions[e].run]; run.status != Pending && run.lease.Some?
  {
    assert !Held(s.txs, s.executions[e].run) by {
      forall t | t in s.txs
        ensures s.executions[e].run !in s.txs[t].marked
      {
        assert s.executions[e].run !in s.txs[t].batch;
      }
    }
    assert ClaimOk(s, s.executions[e].run);
  }

  lemma OfferedIsNotHeld(s: State, t: TxId, r: RunId)
    requires Safe(s) && Offering(s, t, r)
    ensures !Held(s.txs, r) && r in s.runs && s.runs[r].status == Pending
  {
    assert r in s.txs[t].batch;
    forall u | u in s.txs
      ensures r !in s.txs[u].marked
    {
      if u == t {
        assert r !in s.txs[t].batch[..s.txs[t].offered];
      } else {
        assert r !in s.txs[u].batch;
      }
    }
  }

  lemma OfferedIsUnclaimed(s: State, t: TxId, r: RunId)
    requires Orderly(s) && Offering(s, t, r)
    ensures forall e :: e in s.executions ==> s.executions[e].run != r
  {
    OfferedIsNotHeld(s, t, r);
    assert forall e :: e in s.executions ==> ClaimOk(s, s.executions[e].run);
  }

  // Each part of the invariant is carried over a step on its own.

  lemma LeasesStep(s: State, step: Step, s': State)
    requires LeasesOk(s.runs) && Next(s, step, s')
    requires step.StrayRunning? ==> s.runs[step.id].lease.Some?
    requires step.ReportRunning? ==> s.runs[s.executions[step.execution].run].lease.Some?
    requires step.ReportOutcome? ==> Terminal(s.executions[step.execution].phase.outcome)
    ensures LeasesOk(s'.runs)
  {
    forall r | r in s'.runs
      ensures LeaseOk(s'.runs[r])
    {
      assert r in s.runs ==> LeaseOk(s.runs[r]);
    }
  }

  ghost predicate SubExecutions(after: map<ExecutionId, Execution>, before: map<ExecutionId, Execution>) {
    forall e :: e in after ==> e in before && after[e].run == before[e].run
  }

  /** Executions come into being only by an enqueue, and never change the run they are for. */
  lemma ExecutionsStep(s: State, step: Step, s': State)
    requires Next(s, step, s') && !step.EnqueueWithError?
    ensures !step.Accept? ==> SubExecutions(s'.executions, s.executions)
    ensures step.Accept? ==> s'.executions == s.executions[step.execution := Execution(Current(s, step.tx), Queued)]
  {
  }

  lemma OneEachStep(s: State, step: Step, s': State)
    requires OneEach(s.executions) && Next(s, step, s') && !step.EnqueueWithError?
    requires step.Accept? ==> forall e :: e in s.executions ==> s.executions[e].run != Current(s, step.tx)
    ensures OneEach(s'.executions)
  {
    ExecutionsStep(s, step, s');
  }

  /** Marks of dispatches other than the one that ends stay. */
  lemma HeldSurvives(txs: map<TxId, Tx>, txs': map<TxId, Tx>, r: RunId)
    requires Held(txs, r)
    requires forall t :: t in txs && r in txs[t].marked ==> t in txs' && r in txs'[t].marked
    ensures Held(txs', r)
  {
    var t :| t in txs && r in txs[t].marked;
    assert r in txs'[t].marked;
  }

  lemma ClaimStep(s: State, step: Step, s': State, r: RunId)
    requires Next(s, step, s') && Disciplined(s, step) && ClaimOk(s, r)
    requires !step.Commit? && !(step.ReportOutcome? && s.executions[step.execution].run == r)
    ensures ClaimOk(s', r)
  {
    if Held(s.txs, r) {
      HeldSurvives(s.txs, s'.txs, r);
    }
  }

  lemma CommitClaims(s: State, t: TxId, s': State, r: RunId)
    requires LocksOk(s.runs, s.txs) && Next(s, Commit(t), s') && ClaimOk(s, r)
    ensures ClaimOk(s', r)
    ensures r in s.txs[t].marked ==> r in s'.runs && s'.runs[r].status == Running
    ensures Held(s.txs, r) && !Held(s'.txs, r) ==> r in s.txs[t].marked
  {
    if r in s.txs[t].marked {
      assert r in s.txs[t].batch;
    } else if Held(s.txs, r) {
      HeldSurvives(s.txs, s'.txs, r);
    }
  }

  lemma ClaimsStep(s: State, step: Step, s': State)
    requires LocksOk(s.runs, s.txs) && OneEach(s.executions) && ClaimsOk(s)
    requires Next(s, step, s') && Disciplined(s, step)
    ensures ClaimsOk(s')
  {
    ExecutionsStep(s, step, s');
    forall e | e in s'.executions
      ensures ClaimOk(s', s'.executions[e].run)
    {
      if step.Accept? && e == step.execution {
        assert Current(s, step.tx) in s'.txs[step.tx].marked;
      } else {
        ClaimsStepOf(s, step, s', e);
      }
    }
  }

  lemma ClaimsStepOf(s: State, step: Step, s': State, e: ExecutionId)
    requires LocksOk(s.runs, s.txs) && OneEach(s.executions) && ClaimsOk(s)
    requires Next(s, step, s') && Disciplined(s, step) && e in s.executions && e in s'.executions
    ensures ClaimOk(s', s.executions[e].run)
  {
    assert ClaimOk(s, s.executions[e].run);
    if step.Commit? {
      CommitClaims(s, step.tx, s', s.executions[e].run);
    } else {
      ClaimStep(s, step, s', s.executions[e].run);
    }
  }

  lemma StepIsOrderly(s: State, step: Step, s': State)
    requires Orderly(s) && Next(s, step, s') && Safe(s') && Disciplined(s, step)
    ensures Orderly(s')
  {
    if step.ReportRunning? {
      UnlockedIsLeased(s, step.execution);
    } else if step.StrayRunning? {
      var e :| e in s.executions && s.executions[e].run == step.id;
      UnlockedIsLeased(s, e);
    } else if step.Accept? {
      OfferedIsUnclaimed(s, step.tx, Current(s, step.tx));
    }
    LeasesStep(s, step, s');
    OneEachStep(s, step, s');
    ClaimsStep(s, step, s');
  }

  ghost predicate DisciplinedUpTo(ss: seq<State>, steps: seq<Step>, n: nat)
    requires |ss| == |steps| + 1 && n <= |steps|
  {
    forall k :: 0 <= k < n ==> Disciplined(ss[k], steps[k])
  }

  lemma {:induction false} AlwaysOrderly(ss: seq<State>, steps: seq<Step>, i: nat)
    requires Behaviour(ss, steps) && i < |ss| && DisciplinedUpTo(ss, steps, i)
    ensures Orderly(ss[i])
  {
    if i > 0 {
      AlwaysOrderly(ss, steps, i - 1);
      AlwaysSafe(ss, steps, i);
      assert StepAt(ss, steps, i - 1);
      StepIsOrderly(ss[i - 1], steps[i - 1], ss[i]);
    }
  }

  /** A start report, in time or stray, on a row that carries no lease. */
  ghost predicate StartsWithoutLease(s: State, step: Step) {
    || (step.ReportRunning? && step.execution in s.executions && Leaseless(s, s.executions[step.execution].run))
    || (step.StrayRunning? && Leaseless(s, step.id))
  }

  predicate Leaseless(s: State, r: RunId) {
    r in s.runs && s.runs[r].lease == None
  }

  lemma OutcomeIsTerminal(s: State, e: ExecutionId)
    requires Safe(s) && e in s.executions && s.executions[e].phase.Finishing?
    ensures Terminal(s.executions[e].phase.outcome)
  {
  }

  lemma StrayLeases(s: State, r: RunId, s': State)
    requires LeasesOk(s.runs) && Next(s, StrayRunning(r), s')
    ensures LeasesOk(s'.runs) <==> s.runs[r].lease.Some?
  {
    assert LeaseOk(s.runs[r]) && (LeaseOk(s'.runs[r]) <==> s.runs[r].lease.Some?);
  }

  lemma StartLeases(s: State, e: ExecutionId, s': State)
    requires LeasesOk(s.runs) && Next(s, ReportRunning(e), s')
    ensures LeasesOk(s'.runs) <==> s.runs[s.executions[e].run].lease.Some?
  {
    var r := s.executions[e].run;
    assert LeaseOk(s.runs[r]) && (LeaseOk(s'.runs[r]) <==> s.runs[r].lease.Some?);
  }

  /** A step leaves a running row without a lease, out of the reaper's reach, exactly if it is such a report. */
  lemma LeasesKeptIff(s: State, step: Step, s': State)
    requires Safe(s) && LeasesOk(s.runs) && Next(s, step, s')
    ensures LeasesOk(s'.runs) <==> !StartsWithoutLease(s, step)
  {
    if step.StrayRunning? {
      StrayLeases(s, step.id, s');
    } else if step.ReportRunning? {
      StartLeases(s, step.execution, s');
    } else {
      if step.ReportOutcome? {
        OutcomeIsTerminal(s, step.execution);
      }
      LeasesStep(s, step, s');
    }
  }

  /** The row is running without a lease, and nobody is left to report on it. */
  ghost predicate Abandoned(s: State, r: RunId) {
    && r in s.runs && s.runs[r].status == Running && s.runs[r].lease == None && r !in s.strays
    && forall e :: e in s.executions ==> s.executions[e].run != r
  }

  lemma AbandonedRow(s: State, step: Step, s': State, r: RunId)
    requires LocksOk(s.runs, s.txs) && Next(s, step, s') && Abandoned(s, r) && !(step.Renew? && step.id == r)
    ensures r in s'.runs && s'.runs[r] == s.runs[r]
  {
    if step.Commit? {
      assert TxOk(s.txs[step.tx]);
      assert r !in s.txs[step.tx].batch;
    }
  }

  lemma AbandonedByAll(s: State, step: Step, s': State, r: RunId)
    requires LocksOk(s.runs, s.txs) && Next(s, step, s') && Abandoned(s, r)
    ensures r !in s'.strays && forall e :: e in s'.executions ==> s'.executions[e].run != r
  {
    if step.Accept? || step.EnqueueWithError? {
      assert Current(s, step.tx) in s.txs[step.tx].batch;
    }
  }

  lemma AbandonedStep(s: State, step: Step, s': State, r: RunId)
    requires Safe(s) && Next(s, step, s') && Abandoned(s, r) && !(step.Renew? && step.id == r)
    ensures Abandoned(s', r) && s'.runs[r] == s.runs[r]
  {
    AbandonedRow(s, step, s', r);
    AbandonedByAll(s, step, s', r);
  }

  /** Such a row is never expired, so it stays running for ever: no reaper pass and no dispatch touches it. */
  lemma {:induction false} AbandonedForEver(ss: seq<State>, steps: seq<Step>, i: nat, j: nat, r: RunId)
    requires Behaviour(ss, steps) && i <= j < |ss| && Abandoned(ss[i], r)
    requires forall k :: i <= k < j ==> !(steps[k].Renew? && steps[k].id == r)
    ensures Abandoned(ss[j], r) && ss[j].runs[r] == ss[i].runs[r]
    ensures forall now :: !ss[j].runs[r].Expired(now)
    decreases j - i
  {
    if i < j {
      AbandonedForEver(ss, steps, i, j - 1, r);
      AlwaysSafe(ss, steps, j - 1);
      assert StepAt(ss, steps, j - 1);
      AbandonedStep(ss[j - 1], steps[j - 1], ss[j], r);
    }
  }

  /** The reaper fails a running row exactly when its last lease extension is over a TTL old. */
  lemma ReapedIffStale(s: State, r: RunId, now: int, s': State)
    requires Orderly(s) && Next(s, Reap(now), s') && r in s.runs && s.runs[r].status == Running
    ensures s'.runs[r].status == (if s.runs[r].extendedAt + LEASE_TTL < now then Failed else Running)
  {
    assert LeaseOk(s.runs[r]);
  }

  ghost predicate StartsAreLeased(ss: seq<State>, steps: seq<Step>, i: nat)
    requires |ss| == |steps| + 1 && i <= |steps|
  {
    forall k :: 0 <= k < i ==> !StartsWithoutLease(ss[k], steps[k])
  }

  ghost predicate LeasesOkUpTo(ss: seq<State>, i: nat)
    requires i < |ss|
  {
    forall k :: 0 <= k <= i ==> LeasesOk(ss[k].runs)
  }

  /** All running rows have their leases up to a moment exactly if no start report so far was on a row without one. */
  lemma {:induction false} LeasesAlwaysIff(ss: seq<State>, steps: seq<Step>, i: nat)
    requires Behaviour(ss, steps) && i < |ss|
    ensures LeasesOkUpTo(ss, i) <==> StartsAreLeased(ss, steps, i)
  {
    if i > 0 {
      LeasesAlwaysIff(ss, steps, i - 1);
      AlwaysSafe(ss, steps, i - 1);
      assert StepAt(ss, steps, i - 1);
      if LeasesOk(ss[i - 1].runs) {
        LeasesKeptIff(ss[i - 1], steps[i - 1], ss[i]);
      }
    }
  }

  /** The discipline is one way to see to that. */
  lemma DisciplinedStartsAreLeased(ss: seq<State>, steps: seq<Step>, i: nat)
    requires Behaviour(ss, steps) && i < |ss| && DisciplinedUpTo(ss, steps, i)
    ensures StartsAreLeased(ss, steps, i)
  {
    LeasesAlwaysIff(ss, steps, i);
    forall k | 0 <= k <= i
      ensures LeasesOk(ss[k].runs)
    {
      AlwaysOrderly(ss, steps, k);
    }
  }

  /**
   No stuck runs: as long as start reports find a lease, after a reaper pass nothing is running whose claim
   was last extended more than a TTL ago.
   */
  lemma NothingStaysStuck(ss: seq<State>, steps: seq<Step>, i: nat, r: RunId)
    requires Behaviour(ss, steps) && i < |steps| && StartsAreLeased(ss, steps, i) && steps[i].Reap?
    requires r in ss[i + 1].runs && ss[i + 1].runs[r].status == Running
    ensures ss[i + 1].runs[r].lease.Some?
    ensures steps[i].now - LEASE_TTL <= ss[i + 1].runs[r].extendedAt
  {
    LeasesAlwaysIff(ss, steps, i);
    assert LeasesOk(ss[i].runs);
    assert StepAt(ss, steps, i);
    assert LeaseOk(ss[i].runs[r]);
  }

  // -- One life per run ------------------------------------------------------------------

  /** Claims of live executions are extended in time: never more than a TTL goes by between extensions. */
  ghost predicate Timely(s: State) {
    forall e :: e in s.executions && s.executions[e].run in s.runs && !Held(s.txs, s.executions[e].run) ==>
      s.clock - s.runs[s.executions[e].run].extendedAt <= LEASE_TTL
  }

  /** Pending, then running, then one terminal status; or missed. */
  ghost predicate OneLife(h: seq<Status>) {
    || h == [Missed] || h == [Pending] || h == [Pending, Running]
    || (|h| == 3 && h[..2] == [Pending, Running] && Terminal(h[2]))
  }

  ghost predicate LivesOk(runs: Runs) {
    forall r :: r in runs ==> OneLife(runs[r].history)
  }

  /** Being executed outside an open dispatch means being marked as running. */
  ghost predicate RunsNow(s: State, r: RunId) {
    Held(s.txs, r) || (r in s.runs && s.runs[r].status == Running)
  }

  /** The run of a live execution is running from its dispatch's commit on. */
  ghost predicate LiveRunning(s: State) {
    forall e :: e in s.executions ==> RunsNow(s, s.executions[e].run)
  }

  ghost predicate Steady(s: State) {
    Orderly(s) && LivesOk(s.runs) && LiveRunning(s)
  }

  lemma OneLifeGrows(run: Run, s: Status)
    requires HistoryOk(run) && OneLife(run.history)
    requires (run.status == Pending && s == Running) || (run.status == Running && (s == Running || Terminal(s)))
    ensures OneLife(run.Become(s).history)
  {
  }

  /**
   Reports have no guard: one keeps a row's life in shape if and only if the row is running or already
   stands there, or is pending and reported to run.
   */
  lemma UnguardedReportIff(run: Run, s: Status)
    requires HistoryOk(run) && OneLife(run.history) && (s == Running || Terminal(s))
    ensures OneLife(run.Become(s).history) <==>
      run.status == Running || run.status == s || (run.status == Pending && s == Running)
  {
    var h := run.Become(s).history;
    if run.status == Running || (run.status == Pending && s == Running) {
      OneLifeGrows(run, s);
    } else if run.status != s {
      assert h[|h| - 1] == s && h[|h| - 2] == run.status;
      assert run.status == Pending ==> run.history == [Pending];
    }
  }

  /** A report that makes no sense of the row's life so far. */
  ghost predicate BreaksLife(s: State, step: Step) {
    || (step.ReportRunning? && step.execution in s.executions
        && Misreports(s, s.executions[step.execution].run, Running))
    || (step.StrayRunning? && Misreports(s, step.id, Running))
    || (step.ReportOutcome? && step.execution in s.executions && s.executions[step.execution].phase.Finishing?
        && Misreports(s, s.executions[step.execution].run, s.executions[step.execution].phase.outcome))
  }

  predicate Misreports(s: State, r: RunId, status: Status) {
    && r in s.runs && s.runs[r].status != Running && s.runs[r].status != status
    && !(s.runs[r].status == Pending && status == Running)
  }

  lemma ReportLives(s: State, r: RunId, run: Run, status: Status)
    requires RowsOk(s.runs) && LivesOk(s.runs) && r in s.runs && (status == Running || Terminal(status))
    requires run.history == s.runs[r].Become(status).history
    ensures LivesOk(s.runs[r := run]) <==> !Misreports(s, r, status)
  {
    UnguardedReportIff(s.runs[r], status);
    assert s.runs[r := run][r] == run;
  }

  lemma OtherLives(s: State, step: Step, s': State)
    requires Safe(s) && LivesOk(s.runs) && Next(s, step, s')
    requires !step.ReportRunning? && !step.StrayRunning? && !step.ReportOutcome?
    ensures LivesOk(s'.runs)
  {
    forall r | r in s'.runs
      ensures OneLife(s'.runs[r].history)
    {
      if r in s.runs {
        assert HistoryOk(s.runs[r]) && OneLife(s.runs[r].history);
        OtherLife(s, step, s', r);
      }
    }
  }

  lemma OtherLife(s: State, step: Step, s': State, r: RunId)
    requires LocksOk(s.runs, s.txs) && Next(s, step, s')
    requires r in s.runs && HistoryOk(s.runs[r]) && OneLife(s.runs[r].history)
    requires !step.ReportRunning? && !step.StrayRunning? && !step.ReportOutcome?
    ensures OneLife(s'.runs[r].history)
  {
    if s'.runs[r].history != s.runs[r].history {
      if step.Commit? {
        assert TxOk(s.txs[step.tx]);
        assert r in s.txs[step.tx].batch;
        OneLifeGrows(s.runs[r], Running);
      } else {
        OneLifeGrows(s.runs[r], Failed);
      }
    }
  }

  /** A step leaves some run with more than one life exactly if it is such a report. */
  lemma LivesKeptIff(s: State, step: Step, s': State)
    requires Safe(s) && LivesOk(s.runs) && Next(s, step, s')
    ensures LivesOk(s'.runs) <==> !BreaksLife(s, step)
  {
    if step.ReportRunning? {
      var r := s.executions[step.execution].run;
      ReportLives(s, r, s'.runs[r], Running);
    } else if step.StrayRunning? {
      ReportLives(s, step.id, s'.runs[step.id], Running);
    } else if step.ReportOutcome? {
      var r := s.executions[step.execution].run;
      OutcomeIsTerminal(s, step.execution);
      ReportLives(s, r, s'.runs[r], s.executions[step.execution].phase.outcome);
    } else {
      OtherLives(s, step, s');
    }
  }

  ghost predicate LivesOkUpTo(ss: seq<State>, i: nat)
    requires i < |ss|
  {
    forall k :: 0 <= k <= i ==> LivesOk(ss[k].runs)
  }

  ghost predicate ReportsFitUpTo(ss: seq<State>, steps: seq<Step>, i: nat)
    requires |ss| == |steps| + 1 && i <= |steps|
  {
    forall k :: 0 <= k < i ==> !BreaksLife(ss[k], steps[k])
  }

  /** In every run of the system, all runs have one life up to a moment exactly if no report so far broke one. */
  lemma {:induction false} LivesAlwaysIff(ss: seq<State>, steps: seq<Step>, i: nat)
    requires Behaviour(ss, steps) && i < |ss|
    ensures LivesOkUpTo(ss, i) <==> ReportsFitUpTo(ss, steps, i)
  {
    if i > 0 {
      LivesAlwaysIff(ss, steps, i - 1);
      AlwaysSafe(ss, steps, i - 1);
      assert StepAt(ss, steps, i - 1);
      if LivesOk(ss[i - 1].runs) {
        LivesKeptIff(ss[i - 1], steps[i - 1], ss[i]);
      }
    }
  }

  /** With timely extensions the reaper fails no run that is being executed. */
  lemma ReapSparesTheLiving(s: State, now: int, s': State, e: ExecutionId)
    requires Steady(s) && Timely(s) && Next(s, Reap(now), s') && e in s.executions
    ensures s.executions[e].run in s'.runs && s'.runs[s.executions[e].run] == s.runs[s.executions[e].run]
  {
    var r := s.executions[e].run;
    assert ClaimOk(s, r) && r in s.runs;
    if Held(s.txs, r) {
      HeldIsLocked(s, r);
    } else {
      assert LeaseOk(s.runs[r]);
    }
  }

  lemma ReporterRuns(s: State, e: ExecutionId)
    requires Steady(s) && e in s.executions && !Locked(s, s.executions[e].run)
    ensures s.executions[e].run in s.runs && s.runs[s.executions[e].run].status == Running
  {
    UnlockedIsLeased(s, e);
    assert RunsNow(s, s.executions[e].run);
  }

  /** Under the discipline and with timely extensions, reports come from executions whose run is running. */
  lemma ReportsFit(s: State, step: Step)
    requires Steady(s) && Enabled(s, step) && Disciplined(s, step)
    ensures !BreaksLife(s, step)
  {
    if step.ReportRunning? || step.ReportOutcome? {
      ReporterRuns(s, step.execution);
    } else if step.StrayRunning? {
      var e :| e in s.executions && s.executions[e].run == step.id;
      ReporterRuns(s, e);
    }
  }

  lemma LivesStep(s: State, step: Step, s': State)
    requires Steady(s) && Next(s, step, s') && Disciplined(s, step)
    ensures LivesOk(s'.runs)
  {
    ReportsFit(s, step);
    LivesKeptIff(s, step, s');
  }

  lemma LiveReap(s: State, now: int, s': State)
    requires Steady(s) && Timely(s) && Next(s, Reap(now), s')
    ensures LiveRunning(s')
  {
    forall e | e in s.executions
      ensures RunsNow(s', s.executions[e].run)
    {
      assert RunsNow(s, s.executions[e].run);
      ReapSparesTheLiving(s, now, s', e);
    }
  }

  lemma LiveStep(s: State, step: Step, s': State)
    requires LocksOk(s.runs, s.txs) && OneEach(s.executions) && ClaimsOk(s) && LiveRunning(s)
    requires Next(s, step, s') && Disciplined(s, step) && !step.Reap?
    ensures LiveRunning(s')
  {
    ExecutionsStep(s, step, s');
    forall e | e in s'.executions
      ensures RunsNow(s', s'.executions[e].run)
    {
      if step.Accept? && e == step.execution {
        assert Current(s, step.tx) in s'.txs[step.tx].marked;
      } else {
        assert RunsNow(s, s.executions[e].run) && ClaimOk(s, s.executions[e].run);
        LiveStepOf(s, step, s', e);
      }
    }
  }

  lemma LiveStepOf(s: State, step: Step, s': State, e: ExecutionId)
    requires LocksOk(s.runs, s.txs) && OneEach(s.executions)
    requires Next(s, step, s') && Disciplined(s, step) && !step.Reap?
    requires e in s.executions && e in s'.executions
    requires RunsNow(s, s.executions[e].run) && ClaimOk(s, s.executions[e].run)
    ensures RunsNow(s', s.executions[e].run)
  {
    var r := s.executions[e].run;
    if step.Commit? {
      CommitClaims(s, step.tx, s', r);
    } else if Held(s.txs, r) {
      HeldSurvives(s.txs, s'.txs, r);
    }
  }

  lemma StepIsSteady(s: State, step: Step, s': State)
    requires Steady(s) && Timely(s) && Next(s, step, s') && Safe(s') && Disciplined(s, step)
    ensures Steady(s')
  {
    StepIsOrderly(s, step, s');
    LivesStep(s, step, s');
    if step.Reap? {
      LiveReap(s, step.now, s');
    } else {
      LiveStep(s, step, s');
    }
  }

  lemma InitialIsSteady(s: State)
    requires s == INITIAL
    ensures Steady(s)
  {
  }

  lemma StepAtIsSteady(ss: seq<State>, steps: seq<Step>, i: nat)
    requires Behaviour(ss, steps) && 0 < i < |ss|
    requires Steady(ss[i - 1]) && Timely(ss[i - 1]) && Disciplined(ss[i - 1], steps[i - 1])
    ensures Steady(ss[i])
  {
    AlwaysSafe(ss, steps, i);
    assert StepAt(ss, steps, i - 1);
    StepIsSteady(ss[i - 1], steps[i - 1], ss[i]);
  }

  ghost predicate TimelyAt(ss: seq<State>, k: nat)
    requires k < |ss|
  {
    Timely(ss[k])
  }

  ghost predicate TimelyUpTo(ss: seq<State>, i: nat)
    requires i <= |ss|
  {
    forall k: nat :: k < i ==> TimelyAt(ss, k)
  }

  /**
   If every live claim is extended at least once a TTL, no live run is ever reaped and every run goes
   through pending, running and one terminal status, or a prefix of that.
   */
  lemma {:induction false} EveryRunHasOneLife(ss: seq<State>, steps: seq<Step>, i: nat)
    requires Behaviour(ss, steps) && i < |ss| && DisciplinedUpTo(ss, steps, i) && TimelyUpTo(ss, i)
    ensures Steady(ss[i])
  {
    if i > 0 {
      EveryRunHasOneLife(ss, steps, i - 1);
      assert TimelyAt(ss, i - 1);
      StepAtIsSteady(ss, steps, i);
    } else {
      InitialIsSteady(ss[i]);
    }
  }
}
