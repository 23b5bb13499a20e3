/** How renewals keep a lease alive, and what happens to runs outside the discipline. */
module LifecycleLeases {
  import opened Common
  import opened Lifecycle
  import opened LifecycleRuns

  // -- Renewals --------------------------------------------------------------------------

  /**
   The age of a lease right after the `n`th renewal tick of an execution that started with a lease
   already `d` seconds old; `delivered[k]` says whether the `k`th renewal reached the coordinator.
   */
  function AgeAfter(d: int, delivered: seq<bool>, n: nat): int
    requires n <= |delivered|
  {
    if n == 0 then d
    else if delivered[n - 1] then 0
    else AgeAfter(d, delivered, n - 1) + RENEWAL_INTERVAL
  }

  /** The lease is never older than its TTL when the next renewal is due. */
  ghost predicate KeptAlive(d: int, delivered: seq<bool>) {
    forall n :: 0 <= n <= |delivered| ==> AgeAfter(d, delivered, n) + RENEWAL_INTERVAL <= LEASE_TTL
  }

  /** Renewals `first` up to but not including `end` were all lost. */
  ghost predicate AllLost(delivered: seq<bool>, first: nat, end: nat)
    requires first <= end <= |delivered|
  {
    forall k :: first <= k < end ==> !delivered[k]
  }

  lemma {:induction false} AgeOfStreak(d: int, delivered: seq<bool>, first: nat, end: nat)
    requires first <= end <= |delivered| && AllLost(delivered, first, end)
    ensures AgeAfter(d, delivered, end) == AgeAfter(d, delivered, first) + RENEWAL_INTERVAL * (end - first)
    decreases end
  {
    if first < end {
      AgeOfStreak(d, delivered, first, end - 1);
    }
  }

  /** Where the streak of lost renewals before tick `n` begins. */
  function StreakStart(delivered: seq<bool>, n: nat): (first: nat)
    requires n <= |delivered|
    ensures first <= n && AllLost(delivered, first, n)
    ensures first > 0 ==> delivered[first - 1]
  {
    if n == 0 || delivered[n - 1] then n else StreakStart(delivered, n - 1)
  }

  /**
   A lease stays alive exactly when no four renewals in a row are lost once one has arrived, and the
   renewals lost at the start still fit the TTL next to the age the lease had when execution began.
   */
  lemma KeptAliveIff(d: int, delivered: seq<bool>)
    ensures KeptAlive(d, delivered) <==>
      && (forall first, end :: 0 < first <= end <= |delivered| && delivered[first - 1] && AllLost(delivered, first, end)
            ==> end - first <= 3)
      && (forall end :: 0 <= end <= |delivered| && AllLost(delivered, 0, end)
            ==> d + 15 * (end + 1) <= 60)
  {
    if KeptAlive(d, delivered) {
      forall first, end | 0 < first <= end <= |delivered| && delivered[first - 1] && AllLost(delivered, first, end)
        ensures end - first <= 3
      {
        AgeOfStreak(d, delivered, first, end);
      }
      forall end | 0 <= end <= |delivered| && AllLost(delivered, 0, end)
        ensures d + RENEWAL_INTERVAL * (end + 1) <= LEASE_TTL
      {
        AgeOfStreak(d, delivered, 0, end);
      }
    }
    forall n | 0 <= n <= |delivered|
      ensures var first := StreakStart(delivered, n);
              AgeAfter(d, delivered, n) == (if first == 0 then d else 0) + RENEWAL_INTERVAL * (n - first)
    {
      AgeOfStreak(d, delivered, StreakStart(delivered, n), n);
    }
  }

  // -- Inside the discipline --------------------------------------------------------------

  lemma Extend(ss: seq<State>, steps: seq<Step>, step: Step, s: State)
    requires Behaviour(ss, steps) && Next(ss[|steps|], step, s)
    ensures Behaviour(ss + [s], steps + [step])
  {
    var ss', steps' := ss + [s], steps + [step];
    forall i | 0 <= i < |steps'|
      ensures StepAt(ss', steps', i)
    {
      if i < |steps| {
        assert StepAt(ss, steps, i);
      }
    }
  }

  /** A run is created and a dispatch locks it. */
  lemma LockedRun() returns (ss: seq<State>, steps: seq<Step>)
    ensures Behaviour(ss, steps) && |steps| == 2 && DisciplinedUpTo(ss, steps, 2)
    ensures ss[2] == State(0, map[0 := NewRun("agent", 0, Pending)],
                           map[0 := Tx(0, [0], 0, {}, false, false)], map[], {})
  {
    var s1 := State(0, map[0 := NewRun("agent", 0, Pending)], map[], map[], {});
    var s2 := s1.(txs := map[0 := Tx(0, [0], 0, {}, false, false)]);
    ss, steps := [INITIAL], [];
    Extend(ss, steps, Create(0, "agent", 0, false), s1);
    ss, steps := ss + [s1], steps + [Create(0, "agent", 0, false)];
    assert Selectable(s1, 0, [0]);
    Extend(ss, steps, Begin(0, 0, [0]), s2);
    ss, steps := ss + [s2], steps + [Begin(0, 0, [0])];
  }

  /** A worker queues it, and the dispatch is about to end. */
  lemma QueuedRun() returns (ss: seq<State>, steps: seq<Step>)
    ensures Behaviour(ss, steps) && |steps| == 3 && DisciplinedUpTo(ss, steps, 3)
    ensures ss[3] == State(0, map[0 := NewRun("agent", 0, Pending)],
                           map[0 := Tx(0, [0], 1, {0}, false, false)], map[0 := Execution(0, Queued)], {})
  {
    ss, steps := LockedRun();
    var s2 := ss[2];
    var s3 := s2.(txs := map[0 := Tx(0, [0], 1, {0}, false, false)], executions := map[0 := Execution(0, Queued)]);
    assert Apply(s2, Accept(0, 0, true)).txs == s3.txs by {
      var none: set<RunId> := {};
      assert none + {0} == {0};
    }
    assert Apply(s2, Accept(0, 0, true)).executions == s3.executions;
    Extend(ss, steps, Accept(0, 0, true), s3);
    ss, steps := ss + [s3], steps + [Accept(0, 0, true)];
  }

  /** Dispatched and queued: the row carries a lease. */
  lemma DispatchedRun() returns (ss: seq<State>, steps: seq<Step>)
    ensures Behaviour(ss, steps) && |steps| == 4 && DisciplinedUpTo(ss, steps, 4)
    ensures ss[4] == State(0, map[0 := Run("agent", 0, Running, Some(60), None, [Pending, Running], 0)], map[],
                           map[0 := Execution(0, Queued)], {})
  {
    ss, steps := QueuedRun();
    var run := NewRun("agent", 0, Pending);
    var s4 := State(0, map[0 := run.Leased(0)], map[], map[0 := Execution(0, Queued)], {});
    assert run.Leased(0) == Run("agent", 0, Running, Some(60), None, [Pending, Running], 0);
    assert Next(ss[3], Commit(0), s4);
    Extend(ss, steps, Commit(0), s4);
    ss, steps := ss + [s4], steps + [Commit(0)];
  }

  /** Then started and executed. */
  lemma ExecutedRun() returns (ss: seq<State>, steps: seq<Step>)
    ensures Behaviour(ss, steps) && |steps| == 7 && DisciplinedUpTo(ss, steps, 7)
    ensures ss[7] == State(0, map[0 := Run("agent", 0, Running, Some(60), None, [Pending, Running], 0)], map[],
                           map[0 := Execution(0, Finishing(Succeeded))], {})
  {
    ss, steps := DispatchedRun();
    var s4 := ss[4];
    var s5 := s4.(executions := map[0 := Execution(0, Starting)]);
    var s6 := s4.(executions := map[0 := Execution(0, Executing)]);
    var s7 := s4.(executions := map[0 := Execution(0, Finishing(Succeeded))]);
    Extend(ss, steps, Dequeue(0), s5);
    ss, steps := ss + [s5], steps + [Dequeue(0)];
    assert Next(s5, ReportRunning(0), s6);
    Extend(ss, steps, ReportRunning(0), s6);
    ss, steps := ss + [s6], steps + [ReportRunning(0)];
    Extend(ss, steps, Finish(0, Succeeded), s7);
    ss, steps := ss + [s7], steps + [Finish(0, Succeeded)];
  }

  /** And reported: the whole life of a run. */
  lemma WholeLife() returns (ss: seq<State>, steps: seq<Step>)
    ensures Behaviour(ss, steps) && |steps| == 8 && DisciplinedUpTo(ss, steps, 8)
    ensures ss[8] == State(0, map[0 := Run("agent", 0, Succeeded, None, Some(0), [Pending, Running, Succeeded], 0)],
                           map[], map[], {})
  {
    ss, steps := ExecutedRun();
    var run := ss[7].runs[0];
    var s8 := ss[7].(runs := map[0 := run.Ended(Succeeded, 0)], executions := map[]);
    assert run.Ended(Succeeded, 0) == Run("agent", 0, Succeeded, None, Some(0), [Pending, Running, Succeeded], 0);
    assert Next(ss[7], ReportOutcome(0, 0), s8);
    Extend(ss, steps, ReportOutcome(0, 0), s8);
    ss, steps := ss + [s8], steps + [ReportOutcome(0, 0)];
  }

  // -- Outside the discipline ------------------------------------------------------------

  /**
   A queued run is not renewed. Its lease can run out before a worker starts it; it is reaped, and the
   start report then sets the failed run back to running.
   */
  lemma ReapedRunIsRevived() returns (ss: seq<State>, steps: seq<Step>)
    ensures Behaviour(ss, steps) && DisciplinedUpTo(ss, steps, |steps|)
    ensures var s := ss[|steps|]; 0 in s.runs && s.runs[0].history == [Pending, Running, Failed, Running]
  {
    ss, steps := DispatchedRun();
    var leased := ss[4].runs[0];
    var s5 := ss[4].(clock := 61);
    var s6 := s5.(runs := map[0 := leased.Reaped(61)]);
    var s7 := s6.(executions := map[0 := Execution(0, Starting)]);
    var s8 := s7.(runs := map[0 := leased.Reaped(61).Started()], executions := map[0 := Execution(0, Executing)]);
    Extend(ss, steps, Tick(61), s5);
    ss, steps := ss + [s5], steps + [Tick(61)];
    assert Next(s5, Reap(61), s6);
    Extend(ss, steps, Reap(61), s6);
    ss, steps := ss + [s6], steps + [Reap(61)];
    Extend(ss, steps, Dequeue(0), s7);
    ss, steps := ss + [s7], steps + [Dequeue(0)];
    assert Next(s7, ReportRunning(0), s8);
    Extend(ss, steps, ReportRunning(0), s8);
    ss, steps := ss + [s8], steps + [ReportRunning(0)];
  }

  /** Every step but the one at `breach` follows the discipline. */
  ghost predicate OnlyBreach(ss: seq<State>, steps: seq<Step>, breach: nat)
    requires |ss| == |steps| + 1
  {
    forall k :: 0 <= k < |steps| && k != breach ==> Disciplined(ss[k], steps[k])
  }

  lemma Grow(ss: seq<State>, steps: seq<Step>, step: Step, s: State, breach: nat)
    requires Behaviour(ss, steps) && OnlyBreach(ss, steps, breach) && Next(ss[|steps|], step, s)
    requires |steps| == breach || Disciplined(ss[|steps|], step)
    ensures Behaviour(ss + [s], steps + [step]) && OnlyBreach(ss + [s], steps + [step], breach)
  {
    Extend(ss, steps, step, s);
  }

  /** A worker has queued the run, but no dispatch marked it: the row is pending and carries no lease. */
  function Unmarked(): State {
    State(0, map[0 := NewRun("agent", 0, Pending)], map[], map[0 := Execution(0, Queued)], {})
  }

  /** From there the worker's start report makes it running without a lease, and then the worker dies. */
  lemma UnmarkedIsAbandoned(ss: seq<State>, steps: seq<Step>, breach: nat) returns (ss': seq<State>, steps': seq<Step>)
    requires Behaviour(ss, steps) && OnlyBreach(ss, steps, breach) && breach < |steps| && ss[|steps|] == Unmarked()
    ensures Behaviour(ss', steps') && OnlyBreach(ss', steps', breach) && steps <= steps' && Abandoned(ss'[|steps'|], 0)
  {
    var s4 := Unmarked();
    var s5 := s4.(executions := map[0 := Execution(0, Starting)]);
    var s6 := s5.(runs := map[0 := s4.runs[0].Started()], executions := map[0 := Execution(0, Executing)]);
    var s7 := s6.(executions := map[]);
    Grow(ss, steps, Dequeue(0), s5, breach);
    ss', steps' := ss + [s5], steps + [Dequeue(0)];
    assert Next(s5, ReportRunning(0), s6);
    Grow(ss', steps', ReportRunning(0), s6, breach);
    ss', steps' := ss' + [s6], steps' + [ReportRunning(0)];
    assert Next(s6, Die({0}), s7);
    Grow(ss', steps', Die({0}), s7, breach);
    ss', steps' := ss' + [s7], steps' + [Die({0})];
  }

  lemma RolledBackRun() returns (ss: seq<State>, steps: seq<Step>)
    ensures Behaviour(ss, steps) && |steps| == 4 && steps[3].Rollback? && OnlyBreach(ss, steps, 3)
    ensures ss[4] == Unmarked()
  {
    ss, steps := QueuedRun();
    assert Next(ss[3], Rollback(0), Unmarked());
    Grow(ss, steps, Rollback(0), Unmarked(), 3);
    ss, steps := ss + [Unmarked()], steps + [Rollback(0)];
  }

  /** An accepting dispatch that is rolled back leaves its run abandoned. */
  lemma RolledBackRunGetsStuck() returns (ss: seq<State>, steps: seq<Step>)
    ensures Behaviour(ss, steps) && |steps| > 3 && steps[3].Rollback? && OnlyBreach(ss, steps, 3)
    ensures Abandoned(ss[|steps|], 0)
  {
    ss, steps := RolledBackRun();
    ss, steps := UnmarkedIsAbandoned(ss, steps, 3);
  }

  /** A worker that queued a run while its reply was lost: the dispatch commits without it. */
  lemma EnqueuedWithErrorGetsStuck() returns (ss: seq<State>, steps: seq<Step>)
    ensures Behaviour(ss, steps) && |steps| > 2 && steps[2].EnqueueWithError? && OnlyBreach(ss, steps, 2)
    ensures Abandoned(ss[|steps|], 0)
  {
    ss, steps := LockedRun();
    var s3 := ss[2].(executions := map[0 := Execution(0, Queued)]);
    var s4 := s3.(txs := map[0 := Tx(0, [0], 0, {}, false, true)]);
    assert Next(ss[2], EnqueueWithError(0, 0), s3);
    Grow(ss, steps, EnqueueWithError(0, 0), s3, 2);
    ss, steps := ss + [s3], steps + [EnqueueWithError(0, 0)];
    assert Next(s3, Decline(0), s4);
    Grow(ss, steps, Decline(0), s4, 2);
    ss, steps := ss + [s4], steps + [Decline(0)];
    assert Next(s4, Commit(0), Unmarked());
    Grow(ss, steps, Commit(0), Unmarked(), 2);
    ss, steps := UnmarkedIsAbandoned(ss + [Unmarked()], steps + [Commit(0)], 2);
  }

  /** A run accepted but not marked dooms its dispatch; the worker executes it all the same. */
  lemma FailedMarkGetsStuck() returns (ss: seq<State>, steps: seq<Step>)
    ensures Behaviour(ss, steps) && |steps| > 2 && steps[2] == Accept(0, 0, false) && OnlyBreach(ss, steps, 2)
    ensures Abandoned(ss[|steps|], 0)
  {
    ss, steps := LockedRun();
    var s3 := ss[2].(txs := map[0 := Tx(0, [0], 1, {}, true, false)], executions := map[0 := Execution(0, Queued)]);
    assert Next(ss[2], Accept(0, 0, false), s3);
    Grow(ss, steps, Accept(0, 0, false), s3, 2);
    ss, steps := ss + [s3], steps + [Accept(0, 0, false)];
    assert Next(s3, Rollback(0), Unmarked());
    Grow(ss, steps, Rollback(0), Unmarked(), 2);
    ss, steps := UnmarkedIsAbandoned(ss + [Unmarked()], steps + [Rollback(0)], 2);
  }

  /**
   From there, if the start report is lost as well, the outcome is reported on a row that is still pending:
   the row goes from pending to succeeded.
   */
  lemma OutcomeOfAPendingRun() returns (ss: seq<State>, steps: seq<Step>)
    ensures Behaviour(ss, steps) && |steps| > 3 && steps[3].Rollback? && OnlyBreach(ss, steps, 3)
    ensures var s := ss[|steps|]; 0 in s.runs && s.runs[0].history == [Pending, Succeeded]
  {
    ss, steps := RolledBackRun();
    var s4 := Unmarked();
    var s5 := s4.(executions := map[0 := Execution(0, Starting)]);
    var s6 := s4.(executions := map[0 := Execution(0, Executing)]);
    var s7 := s4.(executions := map[0 := Execution(0, Finishing(Succeeded))]);
    var s8 := s4.(runs := map[0 := s4.runs[0].Ended(Succeeded, 0)], executions := map[]);
    Grow(ss, steps, Dequeue(0), s5, 3);
    ss, steps := ss + [s5], steps + [Dequeue(0)];
    assert Next(s5, LoseRunning(0, false), s6);
    Grow(ss, steps, LoseRunning(0, false), s6, 3);
    ss, steps := ss + [s6], steps + [LoseRunning(0, false)];
    Grow(ss, steps, Finish(0, Succeeded), s7, 3);
    ss, steps := ss + [s7], steps + [Finish(0, Succeeded)];
    assert Next(s7, ReportOutcome(0, 0), s8);
    Grow(ss, steps, ReportOutcome(0, 0), s8, 3);
    ss, steps := ss + [s8], steps + [ReportOutcome(0, 0)];
  }

  /** A dispatched run whose worker gave up on its start report and went on to execute it. */
  lemma GivenUpReport(breach: nat) returns (ss: seq<State>, steps: seq<Step>)
    ensures Behaviour(ss, steps) && |steps| == 6 && OnlyBreach(ss, steps, breach)
    ensures ss[6] == State(0, map[0 := NewRun("agent", 0, Pending).Leased(0)],
                           map[], map[0 := Execution(0, Executing)], {0})
  {
    ss, steps := QueuedRun();
    var s4 := State(0, map[0 := NewRun("agent", 0, Pending).Leased(0)], map[], map[0 := Execution(0, Queued)], {});
    var s5 := s4.(executions := map[0 := Execution(0, Starting)]);
    var s6 := s5.(executions := map[0 := Execution(0, Executing)], strays := {0});
    assert Next(ss[3], Commit(0), s4);
    Grow(ss, steps, Commit(0), s4, breach);
    ss, steps := ss + [s4], steps + [Commit(0)];
    Grow(ss, steps, Dequeue(0), s5, breach);
    ss, steps := ss + [s5], steps + [Dequeue(0)];
    assert Next(s5, LoseRunning(0, true), s6) by {
      var none: set<RunId> := {};
      assert none + {0} == {0};
    }
    Grow(ss, steps, LoseRunning(0, true), s6, breach);
    ss, steps := ss + [s6], steps + [LoseRunning(0, true)];
  }

  /** It then reports the outcome, which clears the lease. */
  lemma FinishedWithStray(breach: nat) returns (ss: seq<State>, steps: seq<Step>)
    ensures Behaviour(ss, steps) && |steps| == 8 && OnlyBreach(ss, steps, breach)
    ensures ss[8] == State(0, map[0 := NewRun("agent", 0, Pending).Leased(0).Ended(Succeeded, 0)], map[], map[], {0})
  {
    ss, steps := GivenUpReport(breach);
    var s6 := ss[6];
    var s7 := s6.(executions := map[0 := Execution(0, Finishing(Succeeded))]);
    var s8 := s7.(runs := map[0 := s6.runs[0].Ended(Succeeded, 0)], executions := map[]);
    assert Next(s6, Finish(0, Succeeded), s7);
    Grow(ss, steps, Finish(0, Succeeded), s7, breach);
    ss, steps := ss + [s7], steps + [Finish(0, Succeeded)];
    assert Next(s7, ReportOutcome(0, 0), s8);
    Grow(ss, steps, ReportOutcome(0, 0), s8, breach);
    ss, steps := ss + [s8], steps + [ReportOutcome(0, 0)];
  }

  /** A start report that arrives after the outcome sets the finished run back to running, without a lease. */
  lemma StrayReportGetsStuck() returns (ss: seq<State>, steps: seq<Step>)
    ensures Behaviour(ss, steps) && |steps| == 9 && steps[8].StrayRunning? && OnlyBreach(ss, steps, 8)
    ensures Abandoned(ss[|steps|], 0)
  {
    ss, steps := FinishedWithStray(8);
    var s8 := ss[8];
    var s9 := s8.(runs := map[0 := s8.runs[0].Started()], strays := {});
    assert Next(s8, StrayRunning(0), s9);
    Grow(ss, steps, StrayRunning(0), s9, 8);
    ss, steps := ss + [s9], steps + [StrayRunning(0)];
  }
}
