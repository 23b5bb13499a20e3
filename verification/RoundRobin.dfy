/**
 Which worker an offer goes to: a uint32 counter taken modulo the number of workers
 (pkg/coordinator/coordinator.go). `wrap` is 2^32; it is a parameter of the arithmetic lemmas.
 */
module RoundRobin {

  const UINT32: nat := 0x1_0000_0000

  /** The position in the key list that attempt `k` looks at when the counter started at `i`. */
  function Slot(i: nat, k: nat, n: nat, wrap: nat): (s: nat)
    requires n > 0 && wrap > 0
    ensures s < n
  {
    ((i + k) % wrap) % n
  }

  /** `n` attempts look at each of `n` positions exactly once. */
  ghost predicate EachOnce(i: nat, n: nat, wrap: nat)
    requires n > 0 && wrap > 0
  {
    && (forall a, b :: 0 <= a < b < n ==> Slot(i, a, n, wrap) != Slot(i, b, n, wrap))
    && (forall v :: 0 <= v < n ==> Tried(i, v, n, wrap))
  }

  ghost predicate Tried(i: nat, v: nat, n: nat, wrap: nat)
    requires n > 0 && wrap > 0
  {
    exists k :: 0 <= k < n && Slot(i, k, n, wrap) == v
  }

  // -- Arithmetic ------------------------------------------------------------------------

  lemma MulAtLeast(x: int, n: nat)
    requires x >= 1
    ensures x * n >= n
  {
    assert (x - 1) * n >= 0;
  }

  lemma SmallMultiple(x: int, n: nat)
    requires 0 - n < x * n < n
    ensures x == 0
  {
    assert (-x) * n == -(x * n);
    if x >= 1 {
      MulAtLeast(x, n);
    } else if x <= -1 {
      MulAtLeast(-x, n);
    }
  }

  lemma SameRemainder(q: int, r: int, p: int, m: int, n: nat)
    requires 0 <= r < n && 0 <= m < n && q * n + r == p * n + m
    ensures q == p && r == m
  {
    assert (q - p) * n == q * n - p * n;
    SmallMultiple(q - p, n);
  }

  lemma ModUnique(x: int, n: nat, q: int, r: int)
    requires n > 0 && x == q * n + r && 0 <= r < n
    ensures x % n == r && x / n == q
  {
    SameRemainder(q, r, x / n, x % n, n);
  }

  /** Adding a multiple of `n` changes no remainder. */
  lemma ModShift(x: int, n: nat, q: int)
    requires n > 0
    ensures (x + q * n) % n == x % n
  {
    assert x + q * n == (x / n + q) * n + x % n;
    ModUnique(x + q * n, n, x / n + q, x % n);
  }

  /** Among `n` consecutive numbers exactly one has remainder `v`. */
  lemma HitIff(i: int, k: int, n: nat, v: nat)
    requires n > 0 && 0 <= k < n && v < n
    ensures (i + k) % n == v <==> k == (v - i) % n
  {
    var q := (v - i) / n;
    var d := (v - i) % n;
    assert i + d == (-q) * n + v;
    ModUnique(i + d, n, -q, v);
    if (i + k) % n == v {
      var p := (i + k) / n;
      assert i + k == p * n + v;
      assert k - d == (p + q) * n;
      SmallMultiple(p + q, n);
    }
  }

  // -- One offer -------------------------------------------------------------------------

  /** Until it wraps, or for ever if `n` divides 2^32, the counter picks positions like an unbounded one. */
  lemma SlotWithoutWrap(i: nat, k: nat, n: nat, wrap: nat)
    requires n > 0 && wrap > 0 && (i + k < wrap || wrap % n == 0)
    ensures Slot(i, k, n, wrap) == (i + k) % n
  {
    if i + k < wrap {
      ModUnique(i + k, wrap, 0, i + k);
    } else {
      var q, turns := (i + k) / wrap, wrap / n;
      assert i + k == q * wrap + (i + k) % wrap && wrap == turns * n;
      assert q * wrap == (q * turns) * n;
      ModShift((i + k) % wrap, n, q * turns);
    }
  }

  lemma SlotHit(i: nat, k: nat, n: nat, wrap: nat, v: nat)
    requires n > 0 && i < wrap && n <= wrap && k < n && v < n
    requires i + n <= wrap || wrap % n == 0
    ensures Slot(i, k, n, wrap) == v <==> k == (v - i) % n
  {
    SlotWithoutWrap(i, k, n, wrap);
    HitIff(i, k, n, v);
  }

  lemma EachOnceWithoutWrap(i: nat, n: nat, wrap: nat)
    requires n > 0 && i < wrap && n <= wrap
    requires i + n <= wrap || wrap % n == 0
    ensures EachOnce(i, n, wrap)
  {
    forall a, b | 0 <= a < b < n
      ensures Slot(i, a, n, wrap) != Slot(i, b, n, wrap)
    {
      SlotHit(i, a, n, wrap, Slot(i, a, n, wrap));
      SlotHit(i, b, n, wrap, Slot(i, a, n, wrap));
    }
    forall v | 0 <= v < n
      ensures Tried(i, v, n, wrap)
    {
      SlotHit(i, (v - i) % n, n, wrap, v);
    }
  }

  /** When the counter wraps inside an offer and `n` does not divide 2^32, two attempts collide. */
  lemma WrapCollides(i: nat, n: nat, wrap: nat) returns (a: nat, b: nat)
    requires n > 0 && i < wrap && n <= wrap && i + n > wrap && wrap % n != 0
    ensures a < b < n && Slot(i, a, n, wrap) == Slot(i, b, n, wrap)
  {
    var before, m := wrap - i, wrap % n;
    assert wrap == wrap / n * n + m;
    if m < before {
      a, b := before - m, before;
      ModUnique(i + a, wrap, 0, wrap - m);
      ModUnique(wrap - m, n, wrap / n, 0);
      ModUnique(i + b, wrap, 1, 0);
      ModUnique(0, n, 0, 0);
    } else {
      a, b := 0, m;
      ModUnique(i, wrap, 0, i);
      assert i == wrap / n * n + (m - before);
      ModUnique(i, n, wrap / n, m - before);
      ModUnique(i + b, wrap, 1, m - before);
      ModUnique(m - before, n, 0, m - before);
    }
  }

  /**
   An offer that nobody accepts tries each of `n` workers exactly once if and only if the counter does
   not wrap on the way or `n` divides 2^32.
   */
  lemma EachOnceIff(i: nat, n: nat, wrap: nat)
    requires n > 0 && i < wrap && n <= wrap
    ensures EachOnce(i, n, wrap) <==> i + n <= wrap || wrap % n == 0
  {
    if i + n <= wrap || wrap % n == 0 {
      EachOnceWithoutWrap(i, n, wrap);
    } else {
      var a, b := WrapCollides(i, n, wrap);
    }
  }

  /** Three workers and a counter about to wrap: the third worker is not tried. */
  lemma ThreeWorkersMissOne(k: nat)
    requires k < 3
    ensures Slot(UINT32 - 1, k, 3, UINT32) != 2
  {
    assert UINT32 % 3 == 1;
    assert k == 0 || k == 1 || k == 2;
  }

  // -- Many offers -----------------------------------------------------------------------

  /** How often position `v` comes up in `m` steps of an unbounded counter from `i` on. */
  function Hits(i: nat, m: nat, n: nat, v: nat): nat
    requires n > 0
  {
    if m == 0 then 0 else Hits(i, m - 1, n, v) + (if (i + m - 1) % n == v then 1 else 0)
  }

  lemma {:induction false} HitsSplit(i: nat, a: nat, b: nat, n: nat, v: nat)
    requires n > 0
    ensures Hits(i, a + b, n, v) == Hits(i, a, n, v) + Hits(i + a, b, n, v)
  {
    if b > 0 {
      HitsSplit(i, a, b - 1, n, v);
    }
  }

  lemma {:induction false} HitsInOneRound(i: nat, m: nat, n: nat, v: nat)
    requires n > 0 && m <= n && v < n
    ensures Hits(i, m, n, v) == if (v - i) % n < m then 1 else 0
  {
    if m > 0 {
      HitsInOneRound(i, m - 1, n, v);
      HitIff(i, m - 1, n, v);
    }
  }

  lemma {:induction false} HitsInRounds(i: nat, rounds: nat, m: nat, n: nat, v: nat)
    requires n > 0 && v < n && m < n
    ensures rounds * n + m >= 0
    ensures rounds <= Hits(i, rounds * n + m, n, v) <= rounds + (if m == 0 then 0 else 1)
    decreases rounds
  {
    if rounds == 0 {
      HitsInOneRound(i, m, n, v);
    } else {
      assert rounds * n + m == n + ((rounds - 1) * n + m);
      HitsInRounds(i + n, rounds - 1, m, n, v);
      HitsSplit(i, n, (rounds - 1) * n + m, n, v);
      HitsInOneRound(i, n, n, v);
    }
  }

  lemma HitsAreFair(i: nat, m: nat, n: nat, v: nat)
    requires n > 0 && v < n
    ensures m / n <= Hits(i, m, n, v) <= m / n + (if m % n == 0 then 0 else 1)
  {
    assert m == m / n * n + m % n;
    HitsInRounds(i, m / n, m % n, n, v);
  }

  /** How often position `v` is picked in `m` calls with the counter at `i`. */
  function Turns(i: nat, m: nat, n: nat, v: nat, wrap: nat): nat
    requires n > 0 && wrap > 0
  {
    if m == 0 then 0 else Turns(i, m - 1, n, v, wrap) + (if Slot(i, m - 1, n, wrap) == v then 1 else 0)
  }

  lemma {:induction false} TurnsAreHits(i: nat, m: nat, n: nat, v: nat, wrap: nat)
    requires n > 0 && wrap > 0 && (i + m <= wrap || wrap % n == 0)
    ensures Turns(i, m, n, v, wrap) == Hits(i, m, n, v)
  {
    if m > 0 {
      TurnsAreHits(i, m - 1, n, v, wrap);
      SlotWithoutWrap(i, m - 1, n, wrap);
    }
  }

  /**
   If the counter does not wrap, or `n` divides 2^32, `m` calls give each of `n` workers the floor or the
   ceiling of `m / n` turns.
   */
  lemma TurnsAreFair(i: nat, m: nat, n: nat, v: nat, wrap: nat)
    requires n > 0 && wrap > 0 && v < n && (i + m <= wrap || wrap % n == 0)
    ensures m / n <= Turns(i, m, n, v, wrap) <= m / n + (if m % n == 0 then 0 else 1)
  {
    TurnsAreHits(i, m, n, v, wrap);
    HitsAreFair(i, m, n, v);
  }

  /** Across a wrap they need not: three calls give the third of three workers none. */
  lemma WrapIsUnfair()
    ensures Turns(UINT32 - 1, 3, 3, 2, UINT32) == 0
  {
    ThreeWorkersMissOne(0);
    ThreeWorkersMissOne(1);
    ThreeWorkersMissOne(2);
    assert Turns(UINT32 - 1, 1, 3, 2, UINT32) == 0;
    assert Turns(UINT32 - 1, 2, 3, 2, UINT32) == 0;
  }
}
