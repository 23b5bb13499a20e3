/**
 The statements the coordinator and the reaper run on the tables (pkg/coordinator/coordinator.go,
 pkg/reaper/reaper.go), tied to the row operations the life of a run is built from.
 */
module Coordinator {
  import opened Common
  import L = Lifecycle
  import R = LifecycleRuns
  import A = Alerts

  /** What a worker can put in a status report; `Unsupported` is any other value of the wire type. */
  datatype Reported = RUNNING | SUCCEEDED | FAILED | BUDGET_EXCEEDED | Unsupported

  function Outcome(r: Reported): L.Status {
    match r
    case FAILED => L.Failed
    case BUDGET_EXCEEDED => L.BudgetExceeded
    case _ => L.Succeeded
  }

  /** The reply to offering one run: nobody reachable, nobody took it, or taken and marked or not. */
  datatype Offer = Error | NotAccepted | Accepted(markOk: bool)

  function Ids(rs: seq<L.RunId>): set<L.RunId> {
    set r | r in rs
  }

  /** How many rows from the front of the batch were accepted before the pass stopped. */
  function AcceptedCount(batch: seq<L.RunId>, offers: L.RunId -> Offer): (n: nat)
    ensures n <= |batch|
    ensures forall k :: 0 <= k < n ==> offers(batch[k]).Accepted?
    ensures n < |batch| ==> !offers(batch[n]).Accepted?
  {
    if batch == [] || !offers(batch[0]).Accepted? then 0 else 1 + AcceptedCount(batch[1..], offers)
  }

  function Agents(runs: L.Runs, now: int): set<A.AgentId> {
    set r | r in runs && runs[r].Expired(now) :: runs[r].agent
  }

  /** The rows are the same but for those in `ids`. */
  ghost predicate SameBut(before: L.Runs, after: L.Runs, ids: set<L.RunId>) {
    after.Keys == before.Keys && forall r :: r in before && r !in ids ==> after[r] == before[r]
  }

  /** Status, lease and end of a row after a statement; whose run it is and when it is for stay. */
  ghost predicate Row(before: L.Run, after: L.Run, status: L.Status, lease: Option<int>, finishedAt: Option<int>) {
    && after.status == status && after.lease == lease && after.finishedAt == finishedAt
    && after.agent == before.agent && after.scheduledFor == before.scheduledFor
  }

  /** The agents are the same but for the failure count and mark of those in `ids`. */
  ghost predicate Counted(before: A.Agents, after: A.Agents, ids: set<A.AgentId>, succeeded: bool) {
    && after.Keys == before.Keys
    && forall a :: a in before ==>
         && after[a].alertsEnabled == before[a].alertsEnabled
         && after[a].failures
            == (if a !in ids then before[a].failures else if succeeded then 0 else before[a].failures + 1)
         && after[a].notifiedAt == (if a in ids && succeeded then None else before[a].notifiedAt)
  }

  lemma ReapMeans(runs: L.Runs, now: int)
    ensures SameBut(runs, L.ReapAll(runs, now), Overdue(runs, now))
    ensures forall r :: r in Overdue(runs, now) ==>
      Row(runs[r], L.ReapAll(runs, now)[r], L.Failed, runs[r].lease, Some(now))
    ensures forall r :: r in L.ReapAll(runs, now) ==> !L.ReapAll(runs, now)[r].Expired(now)
  {
  }

  lemma CountMeans(runs: L.Runs, agents: A.Agents, now: int)
    ensures Agents(runs, now) == set r | r in Overdue(runs, now) :: runs[r].agent
    ensures Counted(agents, A.CountReaped(agents, Agents(runs, now)), Agents(runs, now), false)
  {
  }

  /** The running rows whose lease lies in the past. */
  ghost function Overdue(runs: L.Runs, now: int): set<L.RunId> {
    set r | r in runs && runs[r].status == L.Running && runs[r].lease.Some? && runs[r].lease.value < now
  }

  class Database {
    var runs: L.Runs
    var agents: A.Agents

    /** `updateOk` and `countOk` say whether the statement on the run and the one on its agent succeeded. */
    method UpdateRunStatus(id: L.RunId, status: Reported, now: int, updateOk: bool, countOk: bool) returns (ok: bool)
      modifies this
      ensures status == Unsupported || !updateOk ==> !ok && runs == old(runs) && agents == old(agents)
      ensures status == RUNNING && updateOk ==> ok && agents == old(agents)
      ensures status != Unsupported && updateOk ==>
        runs == if id !in old(runs) then old(runs)
                else old(runs)[id := if status == RUNNING then old(runs)[id].Started()
                                     else old(runs)[id].Ended(Outcome(status), now)]
      ensures status != Unsupported && status != RUNNING && updateOk ==>
        && ok == countOk
        && agents == if id in old(runs) && countOk
                     then A.RecordOutcome(old(agents), old(runs)[id].agent, status == SUCCEEDED)
                     else old(agents)
      ensures SameBut(old(runs), runs, {id})
      ensures updateOk && id in old(runs) && status == RUNNING ==>
        Row(old(runs)[id], runs[id], L.Running, old(runs)[id].lease, old(runs)[id].finishedAt)
      ensures updateOk && id in old(runs) && status == SUCCEEDED ==>
        Row(old(runs)[id], runs[id], L.Succeeded, None, Some(now))
      ensures updateOk && id in old(runs) && status == FAILED ==>
        Row(old(runs)[id], runs[id], L.Failed, None, Some(now))
      ensures updateOk && id in old(runs) && status == BUDGET_EXCEEDED ==>
        Row(old(runs)[id], runs[id], L.BudgetExceeded, None, Some(now))
      ensures ok && status != RUNNING && id in old(runs) ==>
        Counted(old(agents), agents, {old(runs)[id].agent}, status == SUCCEEDED)
    {
      match status
      case RUNNING =>
        if !updateOk {
          return false;
        }
        if id in runs {
          runs := runs[id := runs[id].Started()];
        }
        ok := true;
      case Unsupported =>
        ok := false;
      case _ =>
        var outcome := L.Succeeded;
        if status == FAILED {
          outcome := L.Failed;
        }
        if status == BUDGET_EXCEEDED {
          outcome := L.BudgetExceeded;
        }
        if !updateOk {
          return false;
        }
        if id in runs {
          runs := runs[id := runs[id].Ended(outcome, now)];
          if countOk {
            agents := A.RecordOutcome(agents, runs[id].agent, outcome == L.Succeeded);
          }
        }
        ok := countOk;
    }

    /** Without an answer if the statement fails; otherwise whether a row was affected: only a running row is. */
    method RenewLease(id: L.RunId, now: int, updateOk: bool) returns (renewed: Option<bool>)
      modifies this`runs
      ensures renewed.Some? <==> updateOk
      ensures updateOk ==> (renewed.value <==> id in old(runs) && old(runs)[id].status == L.Running)
      ensures runs == if updateOk && id in old(runs) then old(runs)[id := old(runs)[id].Renewed(now)] else old(runs)
      ensures SameBut(old(runs), runs, if renewed == Some(true) then {id} else {})
      ensures renewed == Some(true) ==>
        Row(old(runs)[id], runs[id], L.Running, Some(now + 60), old(runs)[id].finishedAt)
    {
      if !updateOk {
        return None;
      }
      var affected := id in runs && runs[id].status == L.Running;
      if affected {
        runs := runs[id := runs[id].(lease := Some(now + L.LEASE_TTL), extendedAt := now)];
      } else if id in runs {
        assert runs == runs[id := runs[id].Renewed(now)];
      }
      return Some(affected);
    }

    /** One statement fails the expired runs and counts their agents, each agent once. */
    method ReapExpiredRuns(now: int) returns (reaped: nat)
      modifies this
      ensures runs == L.ReapAll(old(runs), now)
      ensures agents == A.CountReaped(old(agents), Agents(old(runs), now))
      ensures reaped == |set r | r in old(runs) && old(runs)[r].Expired(now)|
      ensures forall r :: r in runs ==> !runs[r].Expired(now)
      ensures SameBut(old(runs), runs, Overdue(old(runs), now)) && reaped == |Overdue(old(runs), now)|
      ensures forall r :: r in Overdue(old(runs), now) ==>
        Row(old(runs)[r], runs[r], L.Failed, old(runs)[r].lease, Some(now))
      ensures Counted(old(agents), agents, set r | r in Overdue(old(runs), now) :: old(runs)[r].agent, false)
    {
      ReapMeans(runs, now);
      CountMeans(runs, agents, now);
      var expired := set r | r in runs && runs[r].Expired(now);
      var failing := set r | r in expired :: runs[r].agent;
      assert failing == Agents(runs, now);
      reaped := |expired|;
      agents := A.CountReaped(agents, failing);
      assert expired == Overdue(runs, now);
      runs := L.ReapAll(runs, now);
    }

    /**
     A dispatch pass over the rows its locking query returned. The pass stops at the first run nobody
     takes. A failed mark aborts the transaction, so nothing of it is stored; `commitOk` is the
     success of the commit itself. `accepted` are the runs workers have taken either way.
     */
    method DispatchPendingRuns(now: int, batch: seq<L.RunId>, offers: L.RunId -> Offer, commitOk: bool)
      returns (accepted: seq<L.RunId>, committed: bool)
      modifies this`runs
      ensures accepted == batch[..AcceptedCount(batch, offers)]
      ensures committed <==> commitOk && forall r :: r in accepted ==> offers(r).Accepted? && offers(r).markOk
      ensures runs == if committed then L.MarkAll(old(runs), Ids(accepted), now) else old(runs)
      ensures accepted <= batch && (forall k :: 0 <= k < |accepted| ==> offers(batch[k]).Accepted?)
      ensures |accepted| < |batch| ==> !offers(batch[|accepted|]).Accepted?
      ensures SameBut(old(runs), runs, if committed then set r | r in accepted else {})
      ensures committed ==> forall r :: r in accepted && r in old(runs) ==>
        Row(old(runs)[r], runs[r], L.Running, Some(now + 60), old(runs)[r].finishedAt)
    {
      accepted := [];
      var marked: set<L.RunId> := {};
      var doomed := false;
      var i: nat := 0;
      while i < |batch|
        invariant runs == old(runs)
        invariant i <= AcceptedCount(batch, offers) && accepted == batch[..i]
        invariant doomed <==> exists r :: r in accepted && !(offers(r).Accepted? && offers(r).markOk)
        invariant !doomed ==> marked == Ids(accepted)
        decreases |batch| - i
      {
        AcceptedFront(batch, offers, i);
        var offer := offers(batch[i]);
        if !offer.Accepted? {
          break;
        }
        accepted := accepted + [batch[i]];
        assert accepted == batch[..i + 1];
        if offer.markOk {
          marked := marked + {batch[i]};
        } else {
          doomed := true;
        }
        i := i + 1;
      }
      committed := commitOk && !doomed;
      if committed {
        assert marked == Ids(accepted);
        runs := L.MarkAll(runs, marked, now);
      }
    }
  }

  lemma AcceptedFront(batch: seq<L.RunId>, offers: L.RunId -> Offer, i: nat)
    requires i <= AcceptedCount(batch, offers) && i < |batch|
    ensures offers(batch[i]).Accepted? <==> i < AcceptedCount(batch, offers)
  {
  }

  // -- A dispatch pass is a run of steps -------------------------------------------------

  ghost predicate Path(s: L.State, steps: seq<L.Step>, s': L.State) {
    if steps == [] then s == s'
    else
      var n := |steps| - 1;
      exists m :: Path(s, steps[..n], m) && L.Next(m, steps[n], s')
  }

  lemma PathSnoc(s: L.State, steps: seq<L.Step>, m: L.State, step: L.Step, s': L.State)
    requires Path(s, steps, m) && L.Next(m, step, s')
    ensures Path(s, steps + [step], s')
  {
    assert (steps + [step])[..|steps|] == steps;
  }

  /** The executions of the first `n` rows of a batch, numbered from `base`. */
  function Enqueued(
      work: map<L.ExecutionId, L.Execution>, base: nat, batch: seq<L.RunId>, n: nat): map<L.ExecutionId, L.Execution>
    requires n <= |batch|
  {
    if n == 0 then work
    else Enqueued(work, base, batch, n - 1)[base + n - 1 := L.Execution(batch[n - 1], L.Queued)]
  }

  lemma {:induction false} EnqueuedIds(work: map<L.ExecutionId, L.Execution>, base: nat, batch: seq<L.RunId>, n: nat)
    requires n <= |batch| && forall e :: e in work ==> e < base
    ensures forall e :: e in Enqueued(work, base, batch, n) ==> e < base + n
  {
    if n > 0 {
      EnqueuedIds(work, base, batch, n - 1);
    }
  }

  function Offering(s: L.State, t: L.TxId, now: int, batch: seq<L.RunId>, base: nat, n: nat): L.State
    requires n <= |batch|
  {
    s.(txs := s.txs[t := L.Tx(now, batch, n, Ids(batch[..n]), false, false)],
       executions := Enqueued(s.executions, base, batch, n))
  }

  lemma {:induction false} AcceptsArePath(s: L.State, t: L.TxId, now: int, batch: seq<L.RunId>, base: nat, n: nat)
    returns (steps: seq<L.Step>)
    requires L.Enabled(s, L.Begin(t, now, batch)) && n <= |batch|
    requires forall e :: e in s.executions ==> e < base
    ensures Path(s, steps, Offering(s, t, now, batch, base, n))
  {
    if n == 0 {
      steps := [L.Begin(t, now, batch)];
      assert Ids(batch[..0]) == {};
      PathSnoc(s, [], s, L.Begin(t, now, batch), Offering(s, t, now, batch, base, 0));
      assert [] + steps == steps;
    } else {
      steps := AcceptsArePath(s, t, now, batch, base, n - 1);
      var m, step := Offering(s, t, now, batch, base, n - 1), L.Accept(t, base + n - 1, true);
      EnqueuedIds(s.executions, base, batch, n - 1);
      AcceptStep(s, t, now, batch, base, n);
      PathSnoc(s, steps, m, step, Offering(s, t, now, batch, base, n));
      steps := steps + [step];
    }
  }

  lemma AcceptStep(s: L.State, t: L.TxId, now: int, batch: seq<L.RunId>, base: nat, n: nat)
    requires 0 < n <= |batch|
    requires base + n - 1 !in Enqueued(s.executions, base, batch, n - 1)
    ensures L.Next(Offering(s, t, now, batch, base, n - 1), L.Accept(t, base + n - 1, true),
                   Offering(s, t, now, batch, base, n))
  {
    var m := Offering(s, t, now, batch, base, n - 1);
    assert L.Current(m, t) == batch[n - 1];
    assert batch[..n] == batch[..n - 1] + [batch[n - 1]];
    assert m.txs[t].marked + {batch[n - 1]} == Ids(batch[..n]);
    assert m.txs[t := L.Tx(now, batch, n, Ids(batch[..n]), false, false)]
        == s.txs[t := L.Tx(now, batch, n, Ids(batch[..n]), false, false)];
  }

  /** The transaction after `n` accepted offers, `closed` if the next one was refused. */
  function Ending(s: L.State, t: L.TxId, now: int, batch: seq<L.RunId>, base: nat, n: nat, closed: bool): L.State
    requires n <= |batch|
  {
    s.(txs := s.txs[t := L.Tx(now, batch, n, Ids(batch[..n]), false, closed)],
       executions := Enqueued(s.executions, base, batch, n))
  }

  lemma DeclineStep(s: L.State, t: L.TxId, now: int, batch: seq<L.RunId>, base: nat, n: nat)
    requires n < |batch|
    ensures L.Next(Offering(s, t, now, batch, base, n), L.Decline(t), Ending(s, t, now, batch, base, n, true))
  {
    var m := Offering(s, t, now, batch, base, n);
    assert L.Current(m, t) == batch[n];
    assert m.txs[t := m.txs[t].(closed := true)] == Ending(s, t, now, batch, base, n, true).txs;
  }

  lemma CommitStep(s: L.State, t: L.TxId, now: int, batch: seq<L.RunId>, base: nat, n: nat)
    requires n <= |batch| && t !in s.txs
    ensures L.Next(Ending(s, t, now, batch, base, n, n < |batch|), L.Commit(t),
                   s.(runs := L.MarkAll(s.runs, Ids(batch[..n]), now),
                      executions := Enqueued(s.executions, base, batch, n)))
  {
    var m := Ending(s, t, now, batch, base, n, n < |batch|);
    assert m.txs - {t} == s.txs;
  }

  /**
   What a committed pass stores is what the steps of the protocol store: beginning the transaction,
   one accepted offer after another, possibly a refusal, and the commit.
   */
  lemma CommittedPassIsAPath(s: L.State, t: L.TxId, now: int, batch: seq<L.RunId>, base: nat, offers: L.RunId -> Offer)
    returns (steps: seq<L.Step>)
    requires L.Enabled(s, L.Begin(t, now, batch))
    requires forall e :: e in s.executions ==> e < base
    ensures var n := AcceptedCount(batch, offers);
            Path(s, steps, s.(runs := L.MarkAll(s.runs, Ids(batch[..n]), now),
                              executions := Enqueued(s.executions, base, batch, n)))
  {
    var n := AcceptedCount(batch, offers);
    steps := AcceptsArePath(s, t, now, batch, base, n);
    var m := Ending(s, t, now, batch, base, n, n < |batch|);
    if n < |batch| {
      DeclineStep(s, t, now, batch, base, n);
      PathSnoc(s, steps, Offering(s, t, now, batch, base, n), L.Decline(t), m);
      steps := steps + [L.Decline(t)];
    }
    CommitStep(s, t, now, batch, base, n);
    PathSnoc(s, steps, m, L.Commit(t),
             s.(runs := L.MarkAll(s.runs, Ids(batch[..n]), now), executions := Enqueued(s.executions, base, batch, n)));
    steps := steps + [L.Commit(t)];
  }

  lemma RollbackStep(s: L.State, t: L.TxId, now: int, batch: seq<L.RunId>, base: nat, n: nat)
    requires n <= |batch| && t !in s.txs
    ensures L.Next(Ending(s, t, now, batch, base, n, n < |batch|), L.Rollback(t),
                   s.(executions := Enqueued(s.executions, base, batch, n)))
  {
    var m := Ending(s, t, now, batch, base, n, n < |batch|);
    assert m.txs - {t} == s.txs;
  }

  /**
   A pass whose commit fails stores nothing, but the workers keep what they accepted: the same steps up
   to a rollback, which breaks the dispatch discipline exactly if some offer was accepted.
   */
  lemma RolledBackPassIsAPath(s: L.State, t: L.TxId, now: int, batch: seq<L.RunId>, base: nat, offers: L.RunId -> Offer)
    returns (steps: seq<L.Step>, m: L.State)
    requires L.Enabled(s, L.Begin(t, now, batch))
    requires forall e :: e in s.executions ==> e < base
    ensures var n := AcceptedCount(batch, offers);
            Path(s, steps, m) && L.Next(m, L.Rollback(t), s.(executions := Enqueued(s.executions, base, batch, n)))
    ensures R.Disciplined(m, L.Rollback(t)) <==> AcceptedCount(batch, offers) == 0
  {
    var n := AcceptedCount(batch, offers);
    steps := AcceptsArePath(s, t, now, batch, base, n);
    m := Ending(s, t, now, batch, base, n, n < |batch|);
    if n < |batch| {
      DeclineStep(s, t, now, batch, base, n);
      PathSnoc(s, steps, Offering(s, t, now, batch, base, n), L.Decline(t), m);
      steps := steps + [L.Decline(t)];
    }
    RollbackStep(s, t, now, batch, base, n);
    if n > 0 {
      assert batch[0] in batch[..n];
      assert batch[0] in Ids(batch[..n]);
    }
  }
}
