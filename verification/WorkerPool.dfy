/** The coordinator's worker pool: heartbeats, sweeps and offers (pkg/coordinator/coordinator.go). */
module WorkerPool {
  import opened Common
  import opened RoundRobin
  import F = FairTurns

  const UINT8: nat := 256

  type WorkerId = nat

  /** `misses` is a uint8. */
  datatype Worker = Worker(misses: nat, address: string)

  datatype Answer = Errored | Declined | Accepted

  datatype OfferResult = NoWorkers | NobodyAccepted | TakenBy(worker: WorkerId)

  // -- Sweeps ----------------------------------------------------------------------------

  /** A sweep drops a worker that missed too many heartbeats and counts one more miss for the others. */
  function Swept(misses: nat, max: nat): Option<nat> {
    if misses > max then None else Some((misses + 1) % UINT8)
  }

  /** The miss count after `k` sweeps without a heartbeat; `None` once the worker was dropped. */
  function AfterSweeps(max: nat, k: nat): Option<nat> {
    if k == 0 then Some(0)
    else
      var misses := AfterSweeps(max, k - 1);
      if misses == None then None else Swept(misses.value, max)
  }

  /** The same from any count. */
  function SweptTimes(misses: nat, max: nat, k: nat): Option<nat> {
    if k == 0 then Some(misses)
    else
      var before := SweptTimes(misses, max, k - 1);
      if before == None then None else Swept(before.value, max)
  }

  lemma {:induction false} SweptFromZero(max: nat, k: nat)
    ensures SweptTimes(0, max, k) == AfterSweeps(max, k)
  {
    if k > 0 {
      SweptFromZero(max, k - 1);
    }
  }

  /** A silent worker is dropped exactly at sweep `max + 2`, provided the maximum is below 255. */
  lemma {:induction false} DroppedExactlyAt(max: nat, k: nat)
    requires max <= 254
    ensures AfterSweeps(max, k) == if k <= max + 1 then Some(k) else None
  {
    if k > 0 {
      DroppedExactlyAt(max, k - 1);
    }
  }

  lemma NextMiss(k: nat)
    ensures (k % UINT8 + 1) % UINT8 == (k + 1) % UINT8
  {
    assert k + 1 == (k % UINT8 + 1) + k / UINT8 * UINT8;
    ModShift(k % UINT8 + 1, UINT8, k / UINT8);
  }

  /** With a maximum of 255 the count wraps round and a silent worker is never dropped. */
  lemma {:induction false} NeverDroppedAt255(k: nat)
    ensures AfterSweeps(255, k) == Some(k % UINT8)
  {
    if k > 0 {
      NeverDroppedAt255(k - 1);
      NextMiss(k - 1);
    }
  }

  /** So silence is noticed at all if and only if the configured maximum is at most 254. */
  lemma SilenceIsNoticedIff(max: nat)
    requires max < UINT8
    ensures (exists k: nat :: AfterSweeps(max, k) == None) <==> max <= 254
  {
    if max <= 254 {
      DroppedExactlyAt(max, max + 2);
    } else {
      forall k: nat ensures AfterSweeps(max, k) != None {
        NeverDroppedAt255(k);
      }
    }
  }

  // -- The pool --------------------------------------------------------------------------

  ghost predicate ListsKeys(keys: seq<WorkerId>, pool: map<WorkerId, Worker>) {
    && (forall i, j :: 0 <= i < j < |keys| ==> keys[i] != keys[j])
    && (forall w :: w in keys <==> w in pool)
  }

  /** Rebuilding the key list; the order in which a Go map is traversed is arbitrary. */
  method KeysOf(pool: map<WorkerId, Worker>) returns (keys: seq<WorkerId>)
    ensures ListsKeys(keys, pool)
  {
    keys := [];
    var rest := pool.Keys;
    while rest != {}
      invariant rest <= pool.Keys
      invariant forall i, j :: 0 <= i < j < |keys| ==> keys[i] != keys[j]
      invariant forall w :: w in keys <==> w in pool && w !in rest
      decreases |rest|
    {
      var w :| w in rest;
      keys := keys + [w];
      rest := rest - {w};
    }
  }

  /** What a sweep leaves of the pool. */
  ghost predicate SweptPool(before: map<WorkerId, Worker>, after: map<WorkerId, Worker>, max: nat) {
    && (forall w :: w in after <==> w in before && Swept(before[w].misses, max).Some?)
    && (forall w :: w in after ==> after[w] == before[w].(misses := Swept(before[w].misses, max).value))
  }

  /** What `k` sweeps leave of the pool. */
  ghost predicate SweptPoolTimes(before: map<WorkerId, Worker>, after: map<WorkerId, Worker>, max: nat, k: nat) {
    && (forall w :: w in after <==> w in before && SweptTimes(before[w].misses, max, k).Some?)
    && (forall w :: w in after ==> after[w] == before[w].(misses := SweptTimes(before[w].misses, max, k).value))
  }

  lemma SweepOnce(
    first: map<WorkerId, Worker>, before: map<WorkerId, Worker>, after: map<WorkerId, Worker>, max: nat, k: nat)
    requires SweptPoolTimes(first, before, max, k) && SweptPool(before, after, max)
    ensures SweptPoolTimes(first, after, max, k + 1)
  {
  }

  function SweptOne(workers: map<WorkerId, Worker>, w: WorkerId, max: nat): map<WorkerId, Worker>
    requires w in workers
  {
    var misses := Swept(workers[w].misses, max);
    if misses == None then workers - {w} else workers[w := workers[w].(misses := misses.value)]
  }

  /** All but the workers in `rest` have been swept. */
  ghost predicate PartlySwept(
      before: map<WorkerId, Worker>, after: map<WorkerId, Worker>, rest: set<WorkerId>, max: nat) {
    && after.Keys <= before.Keys
    && (forall w :: w in rest ==> w in after && after[w] == before[w])
    && (forall w :: w in before && w !in rest ==> (w in after <==> Swept(before[w].misses, max).Some?))
    && (forall w :: w in after && w !in rest ==> after[w] == before[w].(misses := Swept(before[w].misses, max).value))
  }

  lemma SweepOneMore(
      before: map<WorkerId, Worker>, after: map<WorkerId, Worker>, rest: set<WorkerId>, w: WorkerId, max: nat)
    requires PartlySwept(before, after, rest, max) && w in rest
    ensures PartlySwept(before, SweptOne(after, w, max), rest - {w}, max)
  {
  }

  class Pool {
    var workers: map<WorkerId, Worker>
    var keys: seq<WorkerId>
    var roundRobinIndex: nat
    const maxMisses: nat

    /** Between calls the key list holds exactly the registered workers, each once. */
    ghost predicate Valid()
      reads this
    {
      && ListsKeys(keys, workers)
      && roundRobinIndex < UINT32
    }

    constructor (maxMisses: nat)
      ensures Valid() && workers == map[] && this.maxMisses == maxMisses && roundRobinIndex == 0
    {
      workers, keys, roundRobinIndex := map[], [], 0;
      this.maxMisses := maxMisses;
    }

    /** A heartbeat clears a known worker's misses or registers a new worker; `dialOk` is the dial's success. */
    method SendHeartbeat(id: WorkerId, address: string, dialOk: bool) returns (acknowledged: bool)
      requires Valid()
      modifies this
      ensures Valid() && roundRobinIndex == old(roundRobinIndex)
      ensures acknowledged == (id in old(workers) || dialOk)
      ensures workers ==
        if id in old(workers) then old(workers)[id := old(workers)[id].(misses := 0)]
        else if dialOk then old(workers)[id := Worker(0, address)]
        else old(workers)
      ensures workers.Keys == old(workers).Keys ==> keys == old(keys)
    {
      if id in workers {
        workers := workers[id := workers[id].(misses := 0)];
      } else if !dialOk {
        return false;
      } else {
        workers := workers[id := Worker(0, address)];
        keys := KeysOf(workers);
      }
      return true;
    }

    method RemoveInactiveWorkers()
      requires Valid()
      modifies this
      ensures Valid() && roundRobinIndex == old(roundRobinIndex)
      ensures SweptPool(old(workers), workers, maxMisses)
      ensures forall w :: w in workers <==> w in old(workers) && old(workers)[w].misses <= maxMisses
      ensures forall w :: w in workers ==>
        workers[w].misses == (old(workers)[w].misses + 1) % 256 && workers[w].address == old(workers)[w].address
    {
      var rest := workers.Keys;
      ghost var before := workers;
      while rest != {}
        invariant Valid() && roundRobinIndex == old(roundRobinIndex)
        invariant PartlySwept(before, workers, rest, maxMisses)
        decreases |rest|
      {
        var w :| w in rest;
        SweepOneMore(before, workers, rest, w, maxMisses);
        SweepOne(w);
        rest := rest - {w};
      }
    }

    /**
     `k` sweeps with no heartbeat in between: each worker is what that many sweeps make of it, and one
     that had missed nothing is still registered if and only if `k` is at most the maximum plus one.
     */
    method Sweeps(k: nat)
      requires Valid()
      modifies this
      ensures Valid() && roundRobinIndex == old(roundRobinIndex)
      ensures SweptPoolTimes(old(workers), workers, maxMisses, k)
      ensures maxMisses <= 254 ==>
        forall w :: w in old(workers) && old(workers)[w].misses == 0 ==> (w in workers <==> k <= maxMisses + 1)
    {
      for i := 0 to k
        invariant Valid() && roundRobinIndex == old(roundRobinIndex)
        invariant SweptPoolTimes(old(workers), workers, maxMisses, i)
      {
        ghost var before := workers;
        RemoveInactiveWorkers();
        SweepOnce(old(workers), before, workers, maxMisses, i);
      }
      SweptFromZero(maxMisses, k);
      if maxMisses <= 254 {
        DroppedExactlyAt(maxMisses, k);
      }
    }

    /** The body of the sweep: a worker over the maximum is dropped, which rebuilds the key list. */
    method SweepOne(w: WorkerId)
      requires Valid() && w in workers
      modifies this
      ensures Valid() && roundRobinIndex == old(roundRobinIndex)
      ensures workers == SweptOne(old(workers), w, maxMisses)
      ensures w in workers ==> keys == old(keys)
    {
      if workers[w].misses > maxMisses {
        workers := workers - {w};
        keys := KeysOf(workers);
      } else {
        workers := workers[w := workers[w].(misses := (workers[w].misses + 1) % UINT8)];
      }
    }

    method GetNextWorker() returns (worker: Option<WorkerId>)
      requires Valid()
      modifies this`roundRobinIndex
      ensures Valid()
      ensures keys == [] ==> worker == None && roundRobinIndex == old(roundRobinIndex)
      ensures keys != [] ==>
        && worker == Some(keys[Slot(old(roundRobinIndex), 0, |keys|, UINT32)])
        && worker == Some(keys[old(roundRobinIndex) % |keys|])
        && worker.value in workers
        && roundRobinIndex == (old(roundRobinIndex) + 1) % UINT32
    {
      if |keys| == 0 {
        return None;
      }
      SlotZero(roundRobinIndex, |keys|);
      worker := Some(keys[roundRobinIndex % |keys|]);
      assert worker.value in keys;
      roundRobinIndex := (roundRobinIndex + 1) % UINT32;
    }

    /** Attempt `k` of an offer that began with the counter at `start`. */
    method TryNext(ghost start: nat, ghost k: nat) returns (worker: WorkerId)
      requires Valid() && keys != [] && roundRobinIndex == (start + k) % UINT32
      modifies this`roundRobinIndex
      ensures Valid() && roundRobinIndex == (start + k + 1) % UINT32
      ensures worker == keys[Slot(start, k, |keys|, UINT32)]
    {
      SlotFollows(start, k, |keys|, roundRobinIndex);
      var next := GetNextWorker();
      worker := next.value;
    }

    /** `m` calls with nothing else changing the pool. */
    method NextWorkers(m: nat) returns (picked: seq<WorkerId>)
      requires Valid() && keys != []
      modifies this`roundRobinIndex
      ensures Valid() && roundRobinIndex == (old(roundRobinIndex) + m) % UINT32
      ensures Picked(keys, old(roundRobinIndex), picked) && |picked| == m
    {
      picked := [];
      SlotZero(roundRobinIndex, |keys|);
      while |picked| < m
        invariant Valid() && |picked| <= m && roundRobinIndex == (old(roundRobinIndex) + |picked|) % UINT32
        invariant Picked(keys, old(roundRobinIndex), picked)
      {
        var worker := TryNext(old(roundRobinIndex), |picked|);
        picked := picked + [worker];
      }
    }

    /**
     Offers a run to each worker in turn until one takes it; `answers[k]` is the reply to attempt `k`.
     `tried` lists the workers asked.
     */
    method OfferRunToWorker(answers: nat -> Answer) returns (result: OfferResult, tried: seq<WorkerId>)
      requires Valid()
      modifies this`roundRobinIndex
      ensures Valid()
      ensures |tried| <= |keys| && roundRobinIndex == (old(roundRobinIndex) + |tried|) % UINT32
      ensures keys == [] ==> tried == []
      ensures keys != [] ==> Picked(keys, old(roundRobinIndex), tried)
      ensures forall k :: 0 <= k < |tried| ==> tried[k] == keys[(old(roundRobinIndex) + k) % 0x1_0000_0000 % |keys|]
      ensures result.NoWorkers? <==> keys == []
      ensures result.NobodyAccepted? ==> |tried| == |keys| && forall k :: 0 <= k < |keys| ==> answers(k) != Accepted
      ensures result.TakenBy? ==>
        && |tried| > 0 && result.worker == tried[|tried| - 1] && answers(|tried| - 1) == Accepted
        && forall k :: 0 <= k < |tried| - 1 ==> answers(k) != Accepted
    {
      tried := [];
      if |keys| == 0 {
        return NoWorkers, tried;
      }
      while |tried| < |keys|
        invariant Valid() && |tried| <= |keys|
        invariant roundRobinIndex == (old(roundRobinIndex) + |tried|) % UINT32
        invariant Picked(keys, old(roundRobinIndex), tried)
        invariant forall k :: 0 <= k < |tried| ==> answers(k) != Accepted
      {
        var worker := TryNext(old(roundRobinIndex), |tried|);
        tried := tried + [worker];
        if answers(|tried| - 1) == Accepted {
          return TakenBy(worker), tried;
        }
      }
      return NobodyAccepted, tried;
    }
  }

  /** What successive calls return while the key list stays the same. */
  ghost predicate Picked(keys: seq<WorkerId>, start: nat, picked: seq<WorkerId>)
    requires keys != []
  {
    forall k :: 0 <= k < |picked| ==> picked[k] == keys[Slot(start, k, |keys|, UINT32)]
  }

  lemma {:induction false} PickedCount(keys: seq<WorkerId>, start: nat, picked: seq<WorkerId>, v: nat)
    requires keys != [] && Picked(keys, start, picked) && v < |keys|
    requires forall i, j :: 0 <= i < j < |keys| ==> keys[i] != keys[j]
    ensures multiset(picked)[keys[v]] == Turns(start, |picked|, |keys|, v, UINT32)
  {
    if picked != [] {
      var n := |picked| - 1;
      PickedCount(keys, start, picked[..n], v);
      assert picked == picked[..n] + [picked[n]];
      var s := Slot(start, n, |keys|, UINT32);
      assert picked[n] == keys[v] <==> s == v;
    }
  }

  /**
   As long as the pool is stable and the counter does not wrap, or the number of workers divides 2^32,
   `m` calls return each worker the floor or the ceiling of `m / n` times.
   */
  lemma WorkersTakeFairTurns(keys: seq<WorkerId>, start: nat, picked: seq<WorkerId>, w: WorkerId)
    requires w in keys && Picked(keys, start, picked)
    requires forall i, j :: 0 <= i < j < |keys| ==> keys[i] != keys[j]
    requires start + |picked| <= UINT32 || UINT32 % |keys| == 0
    ensures var floor := |picked| / |keys|;
            floor <= multiset(picked)[w] <= floor + (if |picked| % |keys| == 0 then 0 else 1)
  {
    var v :| 0 <= v < |keys| && keys[v] == w;
    PickedCount(keys, start, picked, v);
    TurnsAreFair(start, |picked|, |keys|, v, UINT32);
  }

  /** Every worker is returned the floor or the ceiling of its share. */
  ghost predicate TurnsAreShared(keys: seq<WorkerId>, picked: seq<WorkerId>)
    requires keys != []
  {
    forall w :: w in keys ==>
      var floor := |picked| / |keys|;
      floor <= multiset(picked)[w] <= floor + (if |picked| % |keys| == 0 then 0 else 1)
  }

  /** The calls are fair to all workers if and only if the leftovers around the counter's wraps fit. */
  lemma TurnsAreSharedIff(keys: seq<WorkerId>, start: nat, picked: seq<WorkerId>)
    requires keys != [] && start < UINT32 && Picked(keys, start, picked)
    requires forall i, j :: 0 <= i < j < |keys| ==> keys[i] != keys[j]
    ensures TurnsAreShared(keys, picked) <==> F.LeftoversFit(start, |picked|, |keys|, UINT32)
  {
    F.FairIff(start, |picked|, |keys|, UINT32);
    forall v | 0 <= v < |keys|
      ensures multiset(picked)[keys[v]] == Turns(start, |picked|, |keys|, v, UINT32)
    {
      PickedCount(keys, start, picked, v);
    }
    if TurnsAreShared(keys, picked) {
      forall v | 0 <= v < |keys|
        ensures F.FairTo(start, |picked|, |keys|, v, UINT32)
      {
        assert keys[v] in keys;
      }
    } else {
      var w :| w in keys && !(|picked| / |keys| <= multiset(picked)[w]
        <= |picked| / |keys| + (if |picked| % |keys| == 0 then 0 else 1));
      var v :| 0 <= v < |keys| && keys[v] == w;
      assert !F.FairTo(start, |picked|, |keys|, v, UINT32);
    }
  }

  lemma SlotFollows(start: nat, k: nat, n: nat, index: nat)
    requires n > 0 && index == (start + k) % UINT32
    ensures Slot(index, 0, n, UINT32) == Slot(start, k, n, UINT32)
    ensures (index + 1) % UINT32 == (start + k + 1) % UINT32
  {
    ModUnique(index, UINT32, 0, index);
    var q := (start + k) / UINT32;
    assert start + k + 1 == (index + 1) + q * UINT32;
    ModShift(index + 1, UINT32, q);
  }

  lemma SlotZero(i: nat, n: nat)
    requires n > 0 && i < UINT32
    ensures Slot(i, 0, n, UINT32) == i % n
  {
    ModUnique(i, UINT32, 0, i);
  }

  /**
   When nobody accepts, each registered worker was asked exactly once if and only if the counter did
   not wrap during the offer or the number of workers divides 2^32.
   */
  lemma RefusedOfferTriesAllIff(keys: seq<WorkerId>, index: nat, tried: seq<WorkerId>)
    requires 0 < |keys| < UINT32 && index < UINT32
    requires forall i, j :: 0 <= i < j < |keys| ==> keys[i] != keys[j]
    requires |tried| == |keys| && Picked(keys, index, tried)
    ensures (forall a, b :: 0 <= a < b < |tried| ==> tried[a] != tried[b]) && (forall w :: w in keys ==> w in tried)
      <==> index + |keys| <= UINT32 || UINT32 % |keys| == 0
  {
    var n := |keys|;
    EachOnceIff(index, n, UINT32);
    if EachOnce(index, n, UINT32) {
      forall w | w in keys
        ensures w in tried
      {
        var v :| 0 <= v < n && keys[v] == w;
        assert Tried(index, v, n, UINT32);
        var k :| 0 <= k < n && Slot(index, k, n, UINT32) == v;
        assert tried[k] == w;
      }
    } else {
      var a, b := WrapCollides(index, n, UINT32);
      assert tried[a] == tried[b];
    }
  }
}
