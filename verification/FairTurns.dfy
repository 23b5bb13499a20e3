/**
 When the round robin is fair (pkg/coordinator/coordinator.go): for any number of calls and any start of
 the counter, exactly when every worker gets its floor or ceiling of turns in spite of wraps.
 */
module FairTurns {
  import opened RoundRobin

  /** Every position gets the floor or the ceiling of its share of `m` calls. */
  ghost predicate Fair(i: nat, m: nat, n: nat, wrap: nat)
    requires n > 0 && wrap > 0
  {
    forall v :: 0 <= v < n ==> FairTo(i, m, n, v, wrap)
  }

  predicate FairTo(i: nat, m: nat, n: nat, v: nat, wrap: nat)
    requires n > 0 && wrap > 0
  {
    m / n <= Turns(i, m, n, v, wrap) <= m / n + (if m % n == 0 then 0 else 1)
  }

  /** What one stretch of calls leaves over for position `v` after the full rounds in it. */
  function Extra(i: nat, m: nat, n: nat, v: nat): nat
    requires n > 0
  {
    if (v - i) % n < m % n then 1 else 0
  }

  // -- Arithmetic ------------------------------------------------------------------------

  lemma SumDiv(p: nat, q: nat, n: nat)
    requires n > 0
    ensures var carry := if p % n + q % n >= n then 1 else 0;
            (p + q) / n == p / n + q / n + carry && (p + q) % n == p % n + q % n - carry * n
  {
    var carry := if p % n + q % n >= n then 1 else 0;
    assert p == p / n * n + p % n && q == q / n * n + q % n;
    assert p + q == (p / n + q / n + carry) * n + (p % n + q % n - carry * n);
    ModUnique(p + q, n, p / n + q / n + carry, p % n + q % n - carry * n);
  }

  /** A difference modulo `n`, from the remainders. */
  lemma Difference(v: nat, i: nat, n: nat)
    requires n > 0
    ensures (v - i) % n == if v % n >= i % n then v % n - i % n else v % n - i % n + n
  {
    var r := if v % n >= i % n then v % n - i % n else v % n - i % n + n;
    var q := if v % n >= i % n then v / n - i / n else v / n - i / n - 1;
    assert v == v / n * n + v % n && i == i / n * n + i % n;
    assert v - i == q * n + r;
    ModUnique(v - i, n, q, r);
  }

  lemma SmallRemainder(v: nat, n: nat)
    requires v < n
    ensures v % n == v && v / n == 0
  {
    ModUnique(v, n, 0, v);
  }

  // -- One stretch without a wrap ---------------------------------------------------------

  lemma {:induction false} HitsInRoundsExactly(i: nat, rounds: nat, b: nat, n: nat, v: nat)
    requires n > 0 && v < n && b < n
    ensures rounds * n + b >= 0
    ensures Hits(i, rounds * n + b, n, v) == rounds + if (v - i) % n < b then 1 else 0
    decreases rounds
  {
    if rounds == 0 {
      HitsInOneRound(i, b, n, v);
    } else {
      assert rounds * n + b == n + ((rounds - 1) * n + b);
      HitsInRoundsExactly(i + n, rounds - 1, b, n, v);
      HitsSplit(i, n, (rounds - 1) * n + b, n, v);
      HitsInOneRound(i, n, n, v);
      ModShift(v - i, n, -1);
      assert v - (i + n) == v - i + (-1) * n;
    }
  }

  lemma HitsExactly(i: nat, m: nat, n: nat, v: nat)
    requires n > 0 && v < n
    ensures Hits(i, m, n, v) == m / n + Extra(i, m, n, v)
  {
    assert m == m / n * n + m % n;
    HitsInRoundsExactly(i, m / n, m % n, n, v);
  }

  // -- Stretches between wraps ------------------------------------------------------------

  lemma {:induction false} TurnsSplit(i: nat, a: nat, b: nat, n: nat, v: nat, wrap: nat)
    requires n > 0 && wrap > 0
    ensures Turns(i, a + b, n, v, wrap) == Turns(i, a, n, v, wrap) + Turns(i + a, b, n, v, wrap)
  {
    if b > 0 {
      TurnsSplit(i, a, b - 1, n, v, wrap);
      assert i + (a + b - 1) == (i + a) + (b - 1);
    }
  }

  lemma {:induction false} TurnsAfterWrap(m: nat, n: nat, v: nat, wrap: nat)
    requires n > 0 && wrap > 0
    ensures Turns(wrap, m, n, v, wrap) == Turns(0, m, n, v, wrap)
  {
    if m > 0 {
      TurnsAfterWrap(m - 1, n, v, wrap);
      ModShift(m - 1, wrap, 1);
      assert m - 1 + 1 * wrap == wrap + (m - 1);
    }
  }

  /** Calls that reach a wrap: those before it, and the rest from a counter at zero. */
  lemma TurnsAcrossWrap(i: nat, r: nat, n: nat, v: nat, wrap: nat)
    requires n > 0 && v < n && i <= wrap && wrap > 0
    ensures Turns(i, wrap - i + r, n, v, wrap)
      == (wrap - i) / n + Extra(i, wrap - i, n, v) + Turns(0, r, n, v, wrap)
  {
    TurnsSplit(i, wrap - i, r, n, v, wrap);
    TurnsAreHits(i, wrap - i, n, v, wrap);
    HitsExactly(i, wrap - i, n, v);
    TurnsAfterWrap(r, n, v, wrap);
  }

  lemma TurnsFromZero(r: nat, n: nat, v: nat, wrap: nat)
    requires n > 0 && v < n && r <= wrap && wrap > 0
    ensures Turns(0, r, n, v, wrap) == r / n + if v < r % n then 1 else 0
  {
    TurnsAreHits(0, r, n, v, wrap);
    HitsExactly(0, r, n, v);
    SmallRemainder(v, n);
  }

  /** Positions two turns apart cannot both have their share. */
  lemma FarApartIsUnfair(i: nat, m: nat, n: nat, u: nat, v: nat, wrap: nat)
    requires n > 0 && wrap > 0 && u < n && v < n
    requires Turns(i, m, n, u, wrap) >= Turns(i, m, n, v, wrap) + 2
    ensures !Fair(i, m, n, wrap)
  {
    assert !(FairTo(i, m, n, u, wrap) && FairTo(i, m, n, v, wrap));
  }

  // -- The leftovers of the first stretch --------------------------------------------------

  /** The leftovers before a wrap end where the wrap's own begin: from `s` round to `c`. */
  lemma FirstExtra(i: nat, n: nat, v: nat, wrap: nat)
    requires n > 0 && v < n && i <= wrap
    ensures var s, c := i % n, wrap % n;
            && (wrap - i) % n == (if s <= c then c - s else c - s + n)
            && Extra(i, wrap - i, n, v)
               == (if s <= c then (if s <= v < c then 1 else 0) else if s <= v || v < c then 1 else 0)
  {
    Difference(wrap, i, n);
    Difference(v, i, n);
    SmallRemainder(v, n);
  }

  // -- One wrap ----------------------------------------------------------------------------

  /** `b`, `c` and `d` are the leftovers before the wrap, of a whole cycle, and after the wrap. */
  predicate OneWrapIsFair(b: nat, c: nat, d: nat, n: nat) {
    b == 0 || d == 0 || (b <= c && d <= c - b) || (b > c && c + n - b <= d)
  }

  lemma OneWrapTurns(i: nat, r: nat, n: nat, v: nat, wrap: nat)
    requires n > 0 && v < n && i <= wrap && wrap > 0 && r <= wrap
    ensures var s, c, d := i % n, wrap % n, r % n;
            Turns(i, wrap - i + r, n, v, wrap) == (wrap - i) / n + r / n
              + (if s <= c then (if s <= v < c then 1 else 0) else if s <= v || v < c then 1 else 0)
              + (if v < d then 1 else 0)
  {
    TurnsAcrossWrap(i, r, n, v, wrap);
    TurnsFromZero(r, n, v, wrap);
    FirstExtra(i, n, v, wrap);
  }

  lemma OneWrapFair(i: nat, r: nat, n: nat, wrap: nat)
    requires n > 0 && i <= wrap && wrap > 0 && r <= wrap && wrap % n != 0
    requires OneWrapIsFair((wrap - i) % n, wrap % n, r % n, n)
    ensures Fair(i, wrap - i + r, n, wrap)
  {
    SumDiv(wrap - i, r, n);
    var m := wrap - i + r;
    forall v | 0 <= v < n
      ensures FairTo(i, m, n, v, wrap)
    {
      OneWrapTurns(i, r, n, v, wrap);
      FirstExtra(i, n, v, wrap);
    }
  }

  lemma OneWrapUnfair(i: nat, r: nat, n: nat, wrap: nat)
    requires n > 0 && i <= wrap && wrap > 0 && r <= wrap && wrap % n != 0
    requires !OneWrapIsFair((wrap - i) % n, wrap % n, r % n, n)
    ensures !Fair(i, wrap - i + r, n, wrap)
  {
    var s, c := i % n, wrap % n;
    FirstExtra(i, n, 0, wrap);
    var u, v := if s <= c then s else 0, if s <= c then n - 1 else s - 1;
    OneWrapTurns(i, r, n, u, wrap);
    OneWrapTurns(i, r, n, v, wrap);
    FarApartIsUnfair(i, wrap - i + r, n, u, v, wrap);
  }

  // -- Two wraps ---------------------------------------------------------------------------

  lemma TwoWrapTurns(i: nat, r: nat, n: nat, v: nat, wrap: nat)
    requires n > 0 && v < n && i <= wrap && wrap > 0 && r <= wrap
    ensures var s, c, d := i % n, wrap % n, r % n;
            Turns(i, wrap - i + (wrap + r), n, v, wrap) == (wrap - i) / n + wrap / n + r / n
              + (if s <= c then (if s <= v < c then 1 else 0) else if s <= v || v < c then 1 else 0)
              + (if v < c then 1 else 0) + (if v < d then 1 else 0)
  {
    TurnsAcrossWrap(i, wrap + r, n, v, wrap);
    FirstExtra(i, n, v, wrap);
    assert wrap - 0 + r == wrap + r;
    TurnsAcrossWrap(0, r, n, v, wrap);
    TurnsFromZero(r, n, v, wrap);
    SmallRemainder(v, n);
  }

  lemma TwoWrapsFair(i: nat, r: nat, n: nat, wrap: nat)
    requires n > 0 && i <= wrap && wrap > 0 && r <= wrap && (wrap - i) % n == 0 && r % n == 0
    ensures Fair(i, wrap - i + (wrap + r), n, wrap)
  {
    SumDiv(wrap, r, n);
    SumDiv(wrap - i, wrap + r, n);
    var m := wrap - i + (wrap + r);
    forall v | 0 <= v < n
      ensures FairTo(i, m, n, v, wrap)
    {
      TwoWrapTurns(i, r, n, v, wrap);
      FirstExtra(i, n, v, wrap);
    }
  }

  lemma TwoWrapsUnfair(i: nat, r: nat, n: nat, wrap: nat)
    requires n > 0 && i <= wrap && wrap > 0 && r <= wrap && wrap % n != 0
    requires !((wrap - i) % n == 0 && r % n == 0)
    ensures !Fair(i, wrap - i + (wrap + r), n, wrap)
  {
    var s, c := i % n, wrap % n;
    FirstExtra(i, n, 0, wrap);
    var u, v := if s < c then s else 0, if s <= c then n - 1 else c;
    TwoWrapTurns(i, r, n, u, wrap);
    TwoWrapTurns(i, r, n, v, wrap);
    FarApartIsUnfair(i, wrap - i + (wrap + r), n, u, v, wrap);
  }

  // -- More wraps --------------------------------------------------------------------------

  /** From zero, every full cycle gives the first position one turn more than the last. */
  lemma {:induction false} CyclesFavourTheFirst(cycles: nat, r: nat, n: nat, wrap: nat)
    requires n > 0 && wrap > 0 && wrap % n != 0 && r <= wrap
    ensures cycles * wrap + r >= 0
    ensures Turns(0, cycles * wrap + r, n, 0, wrap) >= Turns(0, cycles * wrap + r, n, n - 1, wrap) + cycles
    decreases cycles
  {
    if cycles == 0 {
      TurnsFromZero(r, n, 0, wrap);
      TurnsFromZero(r, n, n - 1, wrap);
    } else {
      var rest := (cycles - 1) * wrap + r;
      assert cycles * wrap + r == wrap - 0 + rest;
      CyclesFavourTheFirst(cycles - 1, r, n, wrap);
      TurnsAcrossWrap(0, rest, n, 0, wrap);
      TurnsAcrossWrap(0, rest, n, n - 1, wrap);
      SmallRemainder(0, n);
      SmallRemainder(n - 1, n);
    }
  }

  lemma ManyWrapsUnfair(i: nat, cycles: nat, r: nat, n: nat, wrap: nat)
    requires n > 0 && i <= wrap && wrap > 0 && wrap % n != 0 && r <= wrap && cycles >= 2
    ensures cycles * wrap + r >= 0
    ensures !Fair(i, wrap - i + (cycles * wrap + r), n, wrap)
  {
    var rest := cycles * wrap + r;
    CyclesFavourTheFirst(cycles, r, n, wrap);
    TurnsAcrossWrap(i, rest, n, 0, wrap);
    TurnsAcrossWrap(i, rest, n, n - 1, wrap);
    FirstExtra(i, n, 0, wrap);
    FirstExtra(i, n, n - 1, wrap);
    FarApartIsUnfair(i, wrap - i + rest, n, 0, n - 1, wrap);
  }

  // -- All of it ---------------------------------------------------------------------------

  /** No wrap, a number of workers that divides 2^32, or leftovers of one or two wraps that fit together. */
  predicate LeftoversFit(i: nat, m: nat, n: nat, wrap: nat)
    requires n > 0 && i < wrap
  {
    var b, c := (wrap - i) % n, wrap % n;
    || i + m <= wrap || c == 0
    || (wrap < i + m <= 2 * wrap && OneWrapIsFair(b, c, (i + m - wrap) % n, n))
    || (2 * wrap < i + m <= 3 * wrap && b == 0 && (i + m - 2 * wrap) % n == 0)
  }

  /** `m` calls with the counter at `i` are fair to `n` workers if and only if the leftovers fit. */
  lemma FairIff(i: nat, m: nat, n: nat, wrap: nat)
    requires n > 0 && i < wrap
    ensures Fair(i, m, n, wrap) <==> LeftoversFit(i, m, n, wrap)
  {
    if i + m <= wrap || wrap % n == 0 {
      forall v | 0 <= v < n
        ensures FairTo(i, m, n, v, wrap)
      {
        TurnsAreFair(i, m, n, v, wrap);
      }
    } else if i + m <= 2 * wrap {
      var r := i + m - wrap;
      assert m == wrap - i + r;
      if OneWrapIsFair((wrap - i) % n, wrap % n, r % n, n) {
        OneWrapFair(i, r, n, wrap);
      } else {
        OneWrapUnfair(i, r, n, wrap);
      }
    } else if i + m <= 3 * wrap {
      var r := i + m - 2 * wrap;
      assert m == wrap - i + (wrap + r);
      if (wrap - i) % n == 0 && r % n == 0 {
        TwoWrapsFair(i, r, n, wrap);
      } else {
        TwoWrapsUnfair(i, r, n, wrap);
      }
    } else {
      ThreeWrapsUnfair(i, m, n, wrap);
    }
  }

  lemma AtLeastTwo(cycles: nat, r: nat, wrap: nat)
    requires r < wrap && cycles * wrap + r > 2 * wrap
    ensures cycles >= 2
  {
    if cycles <= 1 {
      MulAtLeast(2 - cycles, wrap);
    }
  }

  lemma ThreeWrapsUnfair(i: nat, m: nat, n: nat, wrap: nat)
    requires n > 0 && i < wrap && wrap % n != 0 && i + m > 3 * wrap
    ensures !Fair(i, m, n, wrap)
  {
    var rest := i + m - wrap;
    var cycles, r := rest / wrap, rest % wrap;
    assert rest == cycles * wrap + r;
    AtLeastTwo(cycles, r, wrap);
    ManyWrapsUnfair(i, cycles, r, n, wrap);
  }

  /** A wrap need not be unfair: four calls across one, to three workers. */
  lemma FairAcrossAWrap()
    ensures Fair(UINT32 - 2, 4, 3, UINT32)
  {
    assert UINT32 % 3 == 1;
    FairIff(UINT32 - 2, 4, 3, UINT32);
  }
}
