/**
 Renewals in the life of a run: an execution that tries to renew its lease at whatever times, with some of
 the renewals lost, keeps it exactly as long as no two extensions are more than a TTL apart.
 */
module LifecycleRenewals {
  import opened Lifecycle
  import opened LifecycleRuns
  import opened LifecycleLeases

  /** The execution is live, for a run whose dispatch has committed. */
  ghost predicate Live(s: State, e: ExecutionId, r: RunId) {
    e in s.executions && s.executions[e].run == r && r in s.runs && !Held(s.txs, r)
  }

  /** When an execution tries to renew, from state `first` on: at which states, and which renewals arrive. */
  datatype Pace = Pace(first: nat, ticks: seq<nat>, delivered: seq<bool>)

  ghost predicate Ordered(p: Pace, last: nat) {
    && p.first <= last && |p.ticks| == |p.delivered|
    && (forall n :: 0 <= n < |p.ticks| ==> p.first <= p.ticks[n] < last)
    && (forall m, n :: 0 <= m < n < |p.ticks| ==> p.ticks[m] < p.ticks[n])
  }

  ghost predicate IsRenewal(step: Step, r: RunId) {
    step.Renew? && step.id == r
  }

  /**
   Up to state `last` the execution is live and tries to renew at the ticks; the renewals delivered, each
   at the time the coordinator reads, and no others, are renewals of the run.
   */
  ghost predicate Paced(ss: seq<State>, steps: seq<Step>, e: ExecutionId, r: RunId, p: Pace, last: nat)
    requires |ss| == |steps| + 1
  {
    && Ordered(p, last) && last < |ss|
    && (forall i :: p.first <= i <= last ==> Live(ss[i], e, r))
    && (forall n :: 0 <= n < |p.ticks| && p.delivered[n] ==> steps[p.ticks[n]] == Renew(r, ss[p.ticks[n]].clock))
    && (forall i :: p.first <= i < last && IsRenewal(steps[i], r) ==> Delivers(p, i))
  }

  ghost predicate Delivers(p: Pace, i: nat)
    requires |p.ticks| == |p.delivered|
  {
    exists n :: 0 <= n < |p.ticks| && p.ticks[n] == i && p.delivered[n]
  }

  function Age(s: State, r: RunId): int
    requires r in s.runs
  {
    s.clock - s.runs[r].extendedAt
  }

  /** The renewals delivered up to the `n`th found the row running. */
  ghost predicate Effective(ss: seq<State>, r: RunId, p: Pace, n: nat)
    requires n <= |p.ticks| == |p.delivered|
  {
    forall m :: 0 <= m < n && p.delivered[m] ==>
      p.ticks[m] < |ss| && r in ss[p.ticks[m]].runs && ss[p.ticks[m]].runs[r].status == Running
  }

  /** State `i` lies after `n` of the ticks and not after the next one. */
  ghost predicate After(p: Pace, n: nat, i: nat) {
    n <= |p.ticks| && (n > 0 ==> p.ticks[n - 1] < i) && (n < |p.ticks| ==> i <= p.ticks[n])
  }

  lemma {:induction false} ClockGrows(ss: seq<State>, steps: seq<Step>, i: nat, j: nat)
    requires Behaviour(ss, steps) && i <= j < |ss|
    ensures ss[i].clock <= ss[j].clock
    decreases j - i
  {
    if i < j {
      ClockGrows(ss, steps, i, j - 1);
      assert StepAt(ss, steps, j - 1);
    }
  }

  /** Outside an open dispatch only a renewal extends a lease. */
  lemma StepExtends(s: State, step: Step, s': State, r: RunId)
    requires Next(s, step, s') && r in s.runs && !Held(s.txs, r)
    ensures r in s'.runs
    ensures !IsRenewal(step, r) ==> s'.runs[r].extendedAt == s.runs[r].extendedAt
    ensures IsRenewal(step, r) && s.runs[r].status == Running ==> s'.runs[r].extendedAt == step.now
  {
    if step.Commit? {
      assert r !in s.txs[step.tx].marked;
    }
  }

  /** When the lease was last extended before the `n + 1`st tick. */
  function Extension(ss: seq<State>, r: RunId, p: Pace, n: nat): int
    requires n <= |p.ticks| == |p.delivered| && p.first < |ss| && r in ss[p.first].runs
    requires forall m :: 0 <= m < |p.ticks| ==> p.ticks[m] < |ss|
  {
    if n == 0 then ss[p.first].runs[r].extendedAt
    else if p.delivered[n - 1] then ss[p.ticks[n - 1]].clock
    else Extension(ss, r, p, n - 1)
  }

  lemma {:induction false} ExtendedAt(
    ss: seq<State>, steps: seq<Step>, e: ExecutionId, r: RunId, p: Pace, last: nat, n: nat, i: nat)
    requires Behaviour(ss, steps) && Paced(ss, steps, e, r, p, last) && p.first <= i <= last
    requires After(p, n, i) && Effective(ss, r, p, n)
    ensures r in ss[p.first].runs && ss[i].runs[r].extendedAt == Extension(ss, r, p, n)
    decreases i
  {
    assert Live(ss[p.first], e, r);
    if i > p.first {
      var j := i - 1;
      assert Live(ss[j], e, r) && StepAt(ss, steps, j);
      StepExtends(ss[j], steps[j], ss[i], r);
      if n > 0 && p.ticks[n - 1] == j {
        ExtendedAt(ss, steps, e, r, p, last, n - 1, j);
        if !p.delivered[n - 1] {
          NotDelivered(p, last, n - 1);
        }
      } else {
        ExtendedAt(ss, steps, e, r, p, last, n, j);
        NoTickAt(p, last, n, j);
      }
    }
  }

  lemma NotDelivered(p: Pace, last: nat, n: nat)
    requires Ordered(p, last) && n < |p.ticks| && !p.delivered[n]
    ensures !Delivers(p, p.ticks[n])
  {
  }

  lemma NoTickAt(p: Pace, last: nat, n: nat, j: nat)
    requires Ordered(p, last) && After(p, n, j + 1) && (n > 0 ==> p.ticks[n - 1] != j)
    ensures !Delivers(p, j)
  {
    forall m | 0 <= m < |p.ticks|
      ensures p.ticks[m] != j
    {
      if m < n {
        assert p.ticks[m] <= p.ticks[n - 1];
      } else {
        assert p.ticks[n] <= p.ticks[m];
      }
    }
  }

  lemma {:induction false} FindTick(p: Pace, last: nat, i: nat, n: nat) returns (m: nat)
    requires Ordered(p, last) && n <= |p.ticks| && (n < |p.ticks| ==> i <= p.ticks[n])
    ensures After(p, m, i)
    decreases n
  {
    if n == 0 || p.ticks[n - 1] < i {
      m := n;
    } else {
      m := FindTick(p, last, i, n - 1);
    }
  }

  /** The state up to which the lease must last after `n` ticks: that of the next one, or the last. */
  function Until(p: Pace, last: nat, n: nat): nat
    requires n <= |p.ticks|
  {
    if n < |p.ticks| then p.ticks[n] else last
  }

  /** No tick, nor the last state, comes more than a TTL after the lease was last extended. */
  ghost predicate GapsFit(ss: seq<State>, r: RunId, p: Pace, last: nat)
    requires Ordered(p, last) && last < |ss| && r in ss[p.first].runs
  {
    forall n :: 0 <= n <= |p.ticks| ==> ss[Until(p, last, n)].clock - Extension(ss, r, p, n) <= LEASE_TTL
  }

  /** The lease of the run is at most a TTL old throughout. */
  ghost predicate InTime(ss: seq<State>, r: RunId, first: nat, last: nat) {
    forall i :: first <= i <= last && i < |ss| && r in ss[i].runs ==> Age(ss[i], r) <= LEASE_TTL
  }

  lemma AgeAtTick(ss: seq<State>, steps: seq<Step>, e: ExecutionId, r: RunId, p: Pace, last: nat, n: nat)
    requires Behaviour(ss, steps) && Paced(ss, steps, e, r, p, last) && n <= |p.ticks| && Effective(ss, r, p, n)
    ensures var i := Until(p, last, n);
            p.first <= i <= last && r in ss[i].runs && r in ss[p.first].runs
            && Age(ss[i], r) == ss[i].clock - Extension(ss, r, p, n)
  {
    assert Live(ss[Until(p, last, n)], e, r);
    ExtendedAt(ss, steps, e, r, p, last, n, Until(p, last, n));
  }

  lemma GapsFitIsInTime(ss: seq<State>, steps: seq<Step>, e: ExecutionId, r: RunId, p: Pace, last: nat, i: nat)
    requires Behaviour(ss, steps) && Paced(ss, steps, e, r, p, last) && Effective(ss, r, p, |p.ticks|)
    requires r in ss[p.first].runs && GapsFit(ss, r, p, last) && p.first <= i <= last
    ensures r in ss[i].runs && Age(ss[i], r) <= LEASE_TTL
  {
    var n := FindTick(p, last, i, |p.ticks|);
    assert Live(ss[i], e, r);
    ExtendedAt(ss, steps, e, r, p, last, n, i);
    ClockGrows(ss, steps, i, Until(p, last, n));
  }

  /**
   Whenever an execution tries to renew, and whichever of its renewals arrive, the lease of its row is at
   most a TTL old in every state if and only if no two extensions, nor the last and the end, are further
   apart than that.
   */
  lemma InTimeIffGapsFit(ss: seq<State>, steps: seq<Step>, e: ExecutionId, r: RunId, p: Pace, last: nat)
    requires Behaviour(ss, steps) && Paced(ss, steps, e, r, p, last) && Effective(ss, r, p, |p.ticks|)
    ensures r in ss[p.first].runs
    ensures InTime(ss, r, p.first, last) <==> GapsFit(ss, r, p, last)
  {
    assert Live(ss[p.first], e, r);
    if InTime(ss, r, p.first, last) {
      forall n | 0 <= n <= |p.ticks|
        ensures ss[Until(p, last, n)].clock - Extension(ss, r, p, n) <= LEASE_TTL
      {
        AgeAtTick(ss, steps, e, r, p, last, n);
      }
    }
    if GapsFit(ss, r, p, last) {
      forall i | p.first <= i <= last
        ensures Age(ss[i], r) <= LEASE_TTL
      {
        GapsFitIsInTime(ss, steps, e, r, p, last, i);
      }
    }
  }

  // -- Renewals at the interval -------------------------------------------------------------

  /** The ticks come every RENEWAL_INTERVAL and the renewals arrive at once. */
  ghost predicate Regular(ss: seq<State>, p: Pace)
    requires p.first < |ss|
  {
    forall n :: 0 <= n < |p.ticks| ==>
      p.ticks[n] < |ss| && ss[p.ticks[n]].clock == ss[p.first].clock + RENEWAL_INTERVAL * (n + 1)
  }

  lemma {:induction false} RegularExtension(ss: seq<State>, r: RunId, p: Pace, last: nat, n: nat)
    requires Ordered(p, last) && last < |ss| && r in ss[p.first].runs && Regular(ss, p) && n <= |p.ticks|
    ensures Extension(ss, r, p, n)
      == ss[p.first].clock + RENEWAL_INTERVAL * n - AgeAfter(Age(ss[p.first], r), p.delivered, n)
  {
    if n > 0 {
      RegularExtension(ss, r, p, last, n - 1);
    }
  }

  /** Then extensions are close enough if the losses keep the lease alive, and only if, once the next tick is due. */
  lemma RegularGapsFit(ss: seq<State>, r: RunId, p: Pace, last: nat)
    requires Ordered(p, last) && last < |ss| && r in ss[p.first].runs && Regular(ss, p)
    requires ss[last].clock <= ss[p.first].clock + RENEWAL_INTERVAL * (|p.ticks| + 1)
    ensures KeptAlive(Age(ss[p.first], r), p.delivered) ==> GapsFit(ss, r, p, last)
    ensures ss[last].clock == ss[p.first].clock + RENEWAL_INTERVAL * (|p.ticks| + 1) && GapsFit(ss, r, p, last) ==>
      KeptAlive(Age(ss[p.first], r), p.delivered)
  {
    forall n | 0 <= n <= |p.ticks|
      ensures Extension(ss, r, p, n)
        == ss[p.first].clock + RENEWAL_INTERVAL * n - AgeAfter(Age(ss[p.first], r), p.delivered, n)
      ensures ss[Until(p, last, n)].clock <= ss[p.first].clock + RENEWAL_INTERVAL * (n + 1)
      ensures n < |p.ticks| ==> ss[Until(p, last, n)].clock == ss[p.first].clock + RENEWAL_INTERVAL * (n + 1)
    {
      RegularExtension(ss, r, p, last, n);
    }
  }

  /**
   From the state in which an execution starts to renew every interval up to the moment its next renewal
   is due, its lease is never older than a TTL if and only if the losses keep it alive.
   */
  lemma InTimeIffKeptAlive(ss: seq<State>, steps: seq<Step>, e: ExecutionId, r: RunId, p: Pace, last: nat)
    requires Behaviour(ss, steps) && Paced(ss, steps, e, r, p, last) && Effective(ss, r, p, |p.ticks|)
    requires Regular(ss, p) && ss[last].clock == ss[p.first].clock + RENEWAL_INTERVAL * (|p.ticks| + 1)
    ensures r in ss[p.first].runs
    ensures InTime(ss, r, p.first, last) <==> KeptAlive(Age(ss[p.first], r), p.delivered)
  {
    InTimeIffGapsFit(ss, steps, e, r, p, last);
    RegularGapsFit(ss, r, p, last);
  }

  // -- Renewed runs are never reaped -------------------------------------------------------

  /** Up to state `k` the execution renews in time. */
  ghost predicate Renews(ss: seq<State>, steps: seq<Step>, e: ExecutionId, r: RunId, k: nat, p: Pace)
    requires |ss| == |steps| + 1
  {
    Paced(ss, steps, e, r, p, k) && r in ss[p.first].runs && GapsFit(ss, r, p, k)
  }

  /** Every live execution of a committed run has renewed in time so far. */
  ghost predicate AllRenew(ss: seq<State>, steps: seq<Step>, k: nat)
    requires |ss| == |steps| + 1 && k < |ss|
  {
    forall e, r :: Live(ss[k], e, r) ==> exists p :: Renews(ss, steps, e, r, k, p)
  }

  /** A renewal of a live execution finds its row running, as long as everything was steady. */
  lemma RenewalsAreEffective(ss: seq<State>, steps: seq<Step>, e: ExecutionId, r: RunId, p: Pace, last: nat)
    requires |ss| == |steps| + 1 && Paced(ss, steps, e, r, p, last)
    requires forall j: nat :: j < last ==> Steady(ss[j])
    ensures Effective(ss, r, p, |p.ticks|)
  {
    forall m | 0 <= m < |p.ticks|
      ensures p.ticks[m] < |ss| && r in ss[p.ticks[m]].runs && ss[p.ticks[m]].runs[r].status == Running
    {
      var j := p.ticks[m];
      assert Live(ss[j], e, r) && Steady(ss[j]);
      assert RunsNow(ss[j], ss[j].executions[e].run);
    }
  }

  lemma AllRenewIsTimely(ss: seq<State>, steps: seq<Step>, k: nat)
    requires Behaviour(ss, steps) && k < |ss| && AllRenew(ss, steps, k)
    requires forall j: nat :: j < k ==> Steady(ss[j])
    ensures Timely(ss[k])
  {
    forall e |
      e in ss[k].executions && ss[k].executions[e].run in ss[k].runs && !Held(ss[k].txs, ss[k].executions[e].run)
      ensures ss[k].clock - ss[k].runs[ss[k].executions[e].run].extendedAt <= LEASE_TTL
    {
      var r := ss[k].executions[e].run;
      assert Live(ss[k], e, r);
      var p :| Renews(ss, steps, e, r, k, p);
      RenewalsAreEffective(ss, steps, e, r, p, k);
      GapsFitIsInTime(ss, steps, e, r, p, k, k);
    }
  }

  /**
   If the extensions of every live execution's lease are at most a TTL apart, whenever it renews and
   whatever it loses, then no live run is ever reaped and every run has one life.
   */
  lemma {:induction false} RenewedRunsHaveOneLife(ss: seq<State>, steps: seq<Step>, i: nat)
    requires Behaviour(ss, steps) && i < |ss| && DisciplinedUpTo(ss, steps, i)
    requires forall k :: 0 <= k < i ==> AllRenew(ss, steps, k)
    ensures Steady(ss[i])
  {
    if i == 0 {
      InitialIsSteady(ss[i]);
    } else {
      forall j: nat | j < i
        ensures Steady(ss[j])
      {
        RenewedRunsHaveOneLife(ss, steps, j);
      }
      AllRenewIsTimely(ss, steps, i - 1);
      StepAtIsSteady(ss, steps, i);
    }
  }
}
