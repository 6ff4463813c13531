/** The adaptive probe interval: arithmetic of the waits the control loop sets
    between rounds (internal/state/state.go, end of applyResults). */
module Pacing {

  /** 100ms, in nanoseconds. */
  const MIN_INTERVAL := 100_000_000

  /** Integer division by two, truncating toward zero. */
  function Half(x: int): (h: int)
    ensures x >= 0 ==> 2 * h <= x <= 2 * h + 1
    ensures x < 0 ==> 2 * h - 1 <= x <= 2 * h
  {
    if x >= 0 then x / 2 else -(-x / 2)
  }

  function Accelerate(current: int): int {
    if Half(current) < MIN_INTERVAL then MIN_INTERVAL else Half(current)
  }

  /** The wait chosen after a round. */
  function NextInterval(current: int, base: int, hasPending: bool, changed: bool): int {
    if hasPending && !changed then Accelerate(current) else base
  }

  function Power2(k: nat): (p: nat)
    ensures p >= 1
  {
    if k == 0 then 1 else 2 * Power2(k - 1)
  }

  /** The wait after `k` accelerations in a row of a wait that started at `base`. */
  function Accelerated(base: int, k: nat): int {
    if k == 0 then base else Accelerate(Accelerated(base, k - 1))
  }

  lemma HalvePower(base: nat, k: nat)
    ensures base / Power2(k) / 2 == base / Power2(k + 1)
  {
    var p := Power2(k);
    var q := base / p / 2;
    assert base == p * (base / p) + base % p;
    assert base / p == 2 * q + base / p % 2;
    var rest := base / p % 2;
    assert base == p * (2 * q + rest) + base % p;
    assert p * (2 * q + rest) == (2 * p) * q + p * rest;
    assert 0 <= p * rest + base % p < 2 * p by {
      assert p * rest <= p;
    }
    QuotientUnique(base, 2 * p, q, p * rest + base % p);
  }

  lemma MultipleInRange(d: int, x: int, low: int, high: int)
    requires 0 <= low < d && 0 <= high < d && d * x == high - low
    ensures x == 0
  {
  }

  lemma QuotientUnique(a: int, d: int, q: int, r: int)
    requires 0 <= r < d && a == d * q + r
    ensures a / d == q
  {
    var q', r' := a / d, a % d;
    assert a == d * q' + r';
    assert d * (q - q') == d * q - d * q';
    MultipleInRange(d, q - q', r, r');
  }

  /** Closed form: the base halved `k` times, never below the floor. */
  lemma {:induction false} AcceleratedClosedForm(base: nat, k: nat)
    ensures Accelerated(base, k) ==
              if k == 0 then base
              else if base / Power2(k) < 100_000_000 then 100_000_000 else base / Power2(k)
  {
    if k > 0 {
      AcceleratedClosedForm(base, k - 1);
      HalvePower(base, k - 1);
      if k > 1 && base / Power2(k - 1) < MIN_INTERVAL {
        assert base / Power2(k) < MIN_INTERVAL;
      }
    }
  }

  /** The sum of the first `m` accelerated waits. */
  function AcceleratedSum(base: int, m: nat): int {
    if m == 0 then 0 else AcceleratedSum(base, m - 1) + Accelerated(base, m)
  }

  /** However many rounds are needed, the accelerated waits stay below one base
      interval plus one floor each. */
  lemma {:induction false} AcceleratedSumBound(base: nat, m: nat)
    ensures AcceleratedSum(base, m) <= base - base / Power2(m) + m * 100_000_000
  {
    if m > 0 {
      AcceleratedSumBound(base, m - 1);
      AcceleratedClosedForm(base, m);
      HalvePower(base, m - 1);
      assert m * MIN_INTERVAL == (m - 1) * MIN_INTERVAL + MIN_INTERVAL;
    }
  }

  /** What is left of an interval after taking off its share grows with it. */
  lemma ShareMonotone(x: nat, y: nat, p: nat)
    requires x <= y && p >= 1
    ensures x - x / p <= y - y / p
  {
    var d, q := y - x, x / p;
    assert x == p * q + x % p && y == p * (y / p) + y % p;
    assert p * d >= d by {
      MulMonotone(d, 1, p);
    }
    assert p * (q + d + 1) == p * q + p * d + p;
    if y / p >= q + d + 1 {
      MulMonotone(p, q + d + 1, y / p);
    }
  }

  /** Accelerating shortens the wait exactly for intervals above the floor; at
      or below it the wait stays at, or rises to, the floor. */
  lemma ShortensIffAboveFloor(current: int)
    ensures Accelerate(current) < current <==> current > 100_000_000
  {
  }

  // ---------- runs ----------

  /** What one round tells the pacing: some result was contrary, some target flipped. */
  datatype Beat = Beat(hasPending: bool, changed: bool)

  /** The wait after `k` rounds. */
  function Paced(start: int, base: int, bs: seq<Beat>, k: nat): int
    requires k <= |bs|
  {
    if k == 0 then start
    else NextInterval(Paced(start, base, bs, k - 1), base, bs[k - 1].hasPending, bs[k - 1].changed)
  }

  function PacedSum(start: int, base: int, bs: seq<Beat>, k: nat): int
    requires k <= |bs|
  {
    if k == 0 then 0 else PacedSum(start, base, bs, k - 1) + Paced(start, base, bs, k)
  }

  /** How many of the first `k` rounds contain a flip. */
  function FlipBeats(bs: seq<Beat>, k: nat): nat
    requires k <= |bs|
  {
    if k == 0 then 0 else FlipBeats(bs, k - 1) + if bs[k - 1].changed then 1 else 0
  }

  /** How many of the first `k` rounds have no contrary result. */
  function CalmBeats(bs: seq<Beat>, k: nat): nat
    requires k <= |bs|
  {
    if k == 0 then 0 else CalmBeats(bs, k - 1) + if bs[k - 1].hasPending then 0 else 1
  }

  /** Both counts are sizes of sets of rounds. */
  lemma {:induction false} FlipBeatsCount(bs: seq<Beat>, k: nat)
    requires k <= |bs|
    ensures FlipBeats(bs, k) == |set j: nat | j < k && bs[j].changed|
  {
    if k > 0 {
      FlipBeatsCount(bs, k - 1);
      FlipSetNext(bs, k - 1);
    }
  }

  lemma FlipSetNext(bs: seq<Beat>, k: nat)
    requires k < |bs|
    ensures |set j: nat | j < k + 1 && bs[j].changed|
              == |set j: nat | j < k && bs[j].changed| + if bs[k].changed then 1 else 0
  {
    var before, now := set j: nat | j < k && bs[j].changed, set j: nat | j < k + 1 && bs[j].changed;
    if bs[k].changed {
      assert now == before + {k};
    } else {
      assert now == before;
    }
  }

  lemma {:induction false} CalmBeatsCount(bs: seq<Beat>, k: nat)
    requires k <= |bs|
    ensures CalmBeats(bs, k) == |set j: nat | j < k && !bs[j].hasPending|
  {
    if k > 0 {
      CalmBeatsCount(bs, k - 1);
      CalmSetNext(bs, k - 1);
    }
  }

  lemma CalmSetNext(bs: seq<Beat>, k: nat)
    requires k < |bs|
    ensures |set j: nat | j < k + 1 && !bs[j].hasPending|
              == |set j: nat | j < k && !bs[j].hasPending| + if bs[k].hasPending then 0 else 1
  {
    var before, now := set j: nat | j < k && !bs[j].hasPending, set j: nat | j < k + 1 && !bs[j].hasPending;
    if bs[k].hasPending {
      assert now == before;
    } else {
      assert now == before + {k};
    }
  }

  /** With the wait itself as potential: two base intervals pay for each reset,
      100ms for each round. */
  lemma {:induction false} PacedPotential(start: int, base: int, bs: seq<Beat>, k: nat)
    requires k <= |bs| && start >= MIN_INTERVAL && base >= MIN_INTERVAL
    ensures Paced(start, base, bs, k) >= MIN_INTERVAL
    ensures PacedSum(start, base, bs, k) + Paced(start, base, bs, k) <=
              start + 2 * base * (FlipBeats(bs, k) + CalmBeats(bs, k)) + MIN_INTERVAL * k
  {
    if k > 0 {
      PacedPotential(start, base, bs, k - 1);
      var f, f' := FlipBeats(bs, k - 1) + CalmBeats(bs, k - 1), FlipBeats(bs, k) + CalmBeats(bs, k);
      if bs[k - 1].hasPending && !bs[k - 1].changed {
        AccelerateCost(Paced(start, base, bs, k - 1));
      } else {
        ResetCost(base, f, f');
      }
    }
  }

  /** A base interval of at most 100ms never leads to a longer wait than that. */
  lemma {:induction false} PacedBelowFloor(start: int, base: int, bs: seq<Beat>, k: nat)
    requires k <= |bs| && 0 <= start <= MIN_INTERVAL && 0 <= base <= MIN_INTERVAL
    ensures 0 <= Paced(start, base, bs, k) <= MIN_INTERVAL
    ensures PacedSum(start, base, bs, k) <= MIN_INTERVAL * k
  {
    if k > 0 {
      PacedBelowFloor(start, base, bs, k - 1);
    }
  }

  /** The waits of any run, from any wait the base interval allows: the first
      wait, two base intervals for each reset and 100ms for each round cover them. */
  lemma PacedSumBound(start: int, base: nat, bs: seq<Beat>, k: nat)
    requires k <= |bs| && (base <= start <= 100_000_000 || 100_000_000 <= start <= base)
    ensures PacedSum(start, base, bs, k) <=
              start + 2 * base * (FlipBeats(bs, k) + CalmBeats(bs, k)) + 100_000_000 * k
  {
    if base >= MIN_INTERVAL {
      PacedPotential(start, base, bs, k);
    } else {
      PacedBelowFloor(start, base, bs, k);
      MulMonotone(2 * base, 0, FlipBeats(bs, k) + CalmBeats(bs, k));
    }
  }

  lemma AccelerateCost(w: int)
    requires w >= MIN_INTERVAL
    ensures MIN_INTERVAL <= Accelerate(w) && 2 * Accelerate(w) <= w + MIN_INTERVAL
  {
  }

  lemma ResetCost(base: nat, f: nat, f': nat)
    requires f < f'
    ensures 2 * base * f' >= 2 * base * f + 2 * base
  {
    MulMonotone(2 * base, f + 1, f');
    assert 2 * base * (f + 1) == 2 * base * f + 2 * base;
  }

  lemma MulMonotone(a: nat, x: nat, y: nat)
    requires x <= y
    ensures a * x <= a * y
  {
  }

  lemma {:induction false} PacedAcceleration(start: nat, base: int, bs: seq<Beat>, k: nat)
    requires k <= |bs|
    requires forall j :: 0 <= j < k ==> bs[j].hasPending && !bs[j].changed
    ensures Paced(start, base, bs, k) ==
              if k == 0 then start
              else if start / Power2(k) < 100_000_000 then 100_000_000 else start / Power2(k)
    ensures PacedSum(start, base, bs, k) == AcceleratedSum(start, k)
    ensures AcceleratedSum(start, k) <= start - start / Power2(k) + k * 100_000_000
  {
    PacedIsAccelerated(start, base, bs, k);
    AcceleratedClosedForm(start, k);
    AcceleratedSumBound(start, k);
  }

  lemma {:induction false} PacedIsAccelerated(start: int, base: int, bs: seq<Beat>, k: nat)
    requires k <= |bs|
    requires forall j :: 0 <= j < k ==> bs[j].hasPending && !bs[j].changed
    ensures Paced(start, base, bs, k) == Accelerated(start, k)
    ensures PacedSum(start, base, bs, k) == AcceleratedSum(start, k)
  {
    if k > 0 {
      PacedIsAccelerated(start, base, bs, k - 1);
    }
  }
}
