/** The fixed-point arithmetic of rc80211_minstrel.h: probabilities are scaled so
    that 4096 stands for certainty, and averages move by a quarter of the distance
    to the newest value, in C's truncating integer arithmetic. */
module FixedPoint {

  const SCALE: nat := 4096
  const TWO32: nat := 0x1_0000_0000
  const EWMA_LEVEL: nat := 96
  const EWMA_DIV: nat := 128
  const EWMV_MAX: nat := 3072

  // An unsigned 32-bit store.
  function Wrap32(x: nat): (r: nat) {
    x % TWO32
  }

  // C's signed division rounds toward zero.
  function CDiv(a: int, b: nat): int
    requires b > 0
  {
    if a >= 0 then a / b else -((-a) / b)
  }

  // MINSTREL_FRAC on unsigned operands: the shift may lose high bits.
  function Frac(val: nat, div: nat): nat
    requires div > 0
  {
    Wrap32(val * SCALE) / div
  }

  function Trunc(val: nat): nat {
    val / SCALE
  }

  function Percent(p: nat): nat {
    p * SCALE / 100
  }

  function Ewma(prev: int, cur: int): int {
    prev + CDiv((EWMA_DIV - EWMA_LEVEL) * (cur - prev), EWMA_DIV)
  }

  function Ewmv(prevVariance: nat, curProb: int, probEwma: int): int {
    EWMA_LEVEL * (prevVariance + Trunc(Deviation(curProb - probEwma))) / EWMA_DIV
  }

  // The distance times the step that the average takes over it.
  function Deviation(diff: int): (r: nat) {
    var incr := CDiv((EWMA_DIV - EWMA_LEVEL) * diff, EWMA_DIV);
    SameSign(diff, incr);
    diff * incr
  }

  lemma SameSign(x: int, y: int)
    requires (x >= 0 && y >= 0) || (x <= 0 && y <= 0)
    ensures x * y >= 0
  {
  }

  // ----- Division of naturals -----

  lemma QuotientFits(x: nat, e: nat)
    requires e > 0
    ensures x / e * e <= x < e * (x / e + 1)
  {
  }

  lemma ScaleUp(q: nat, d: nat, e: nat)
    requires d <= e
    ensures q * d <= q * e
  {
  }

  lemma DivisionBound(x: nat, b: nat, q: nat)
    requires b > 0 && x >= q * b
    ensures x / b >= q
  {
    QuotientFits(x, b);
    if x / b < q {
      ScaleUp(b, x / b + 1, q);
      assert false;
    }
  }

  lemma DivideMonotone(x: nat, y: nat, d: nat, e: nat)
    requires x <= y && 0 < d <= e
    ensures x / e <= y / d
  {
    var q := x / e;
    QuotientFits(x, e);
    ScaleUp(q, d, e);
    DivisionBound(y, d, q);
  }

  lemma ProductBound(x: nat, y: nat, mx: nat, my: nat)
    requires x <= mx && y <= my
    ensures x * y <= mx * my
  {
    assert x * y <= mx * y;
    assert mx * y <= mx * my;
  }

  lemma DeviationBound(diff: int)
    requires -4096 <= diff <= 4096
    ensures Deviation(diff) <= 4096 * 1024
  {
    var incr := CDiv((EWMA_DIV - EWMA_LEVEL) * diff, EWMA_DIV);
    if diff >= 0 {
      ProductBound(diff, incr, 4096, 1024);
    } else {
      ProductBound(-diff, -incr, 4096, 1024);
      assert diff * incr == (-diff) * (-incr);
    }
  }

  // A ratio of a part to a whole never exceeds certainty, even when the shift wraps.
  lemma FracWithin(val: nat, div: nat)
    requires val <= div && div > 0
    ensures Frac(val, div) <= SCALE
  {
  }

  // Below 2^20 the shift is exact, so Frac is the rounded-down scaled quotient.
  lemma FracExact(val: nat, div: nat)
    requires div > 0 && val < 0x10_0000
    ensures Frac(val, div) * div <= val * SCALE < (Frac(val, div) + 1) * div
  {
  }

  // The moving average lies between the old value and the new one, moves whenever
  // they differ by at least 4, and moves by exactly a quarter, rounded down.
  lemma EwmaMoves(prev: int, cur: int)
    ensures prev <= cur ==> Ewma(prev, cur) == prev + (cur - prev) / 4
    ensures cur <= prev ==> Ewma(prev, cur) == prev - (prev - cur) / 4
    ensures Ewma(prev, cur) == prev <==> -4 < cur - prev < 4
  {
  }

  // The variance can never leave 0 .. 3072, the fixed point of its worst case.
  lemma EwmvRange(oldVariance: nat, curProb: nat, probEwma: nat)
    requires oldVariance <= EWMV_MAX && curProb <= SCALE && probEwma <= SCALE
    ensures 0 <= Ewmv(oldVariance, curProb, probEwma) <= EWMV_MAX
  {
    DeviationBound(curProb - probEwma);
    var t := Trunc(Deviation(curProb - probEwma));
    assert t <= 1024;
  }

  function Abs(x: int): nat {
    if x < 0 then -x else x
  }

  // The variance takes in the distance times its quarter, and keeps three quarters of
  // the sum; the direction of the distance does not matter.
  lemma EwmvMoves(oldVariance: nat, curProb: int, probEwma: int)
    ensures var gap := Abs(curProb - probEwma);
            Ewmv(oldVariance, curProb, probEwma) == 3 * (oldVariance + gap * (gap / 4) / SCALE) / 4
  {
    var diff := curProb - probEwma;
    var incr := CDiv((EWMA_DIV - EWMA_LEVEL) * diff, EWMA_DIV);
    assert if diff >= 0 then incr == Abs(diff) / 4 else incr == -(Abs(diff) / 4);
    assert Deviation(diff) == Abs(diff) * (Abs(diff) / 4) by {
      if diff < 0 {
        Negatives(Abs(diff), Abs(diff) / 4);
      }
    }
    ThreeQuarters(oldVariance + Trunc(Deviation(diff)));
  }

  lemma Negatives(x: int, y: int)
    ensures (-x) * (-y) == x * y
  {
  }

  lemma ThreeQuarters(x: nat)
    ensures EWMA_LEVEL * x / EWMA_DIV == 3 * x / 4
  {
  }

  // ----- Convergence under a steady success ratio -----

  // The average after k intervals that all measured the same ratio.
  function Settle(start: int, ratio: int, k: nat): int
    decreases k
  {
    if k == 0 then start else Ewma(Settle(start, ratio, k - 1), ratio)
  }

  // What is left of a distance d after k intervals.
  function Remaining(d: nat, k: nat): nat
    decreases k
  {
    if k == 0 then d else Remaining(d, k - 1) - Remaining(d, k - 1) / 4
  }

  lemma {:induction false} RemainingMonotone(d: nat, e: nat, k: nat)
    requires d <= e
    ensures Remaining(d, k) <= Remaining(e, k)
    decreases k
  {
    if k > 0 {
      RemainingMonotone(d, e, k - 1);
    }
  }

  lemma {:induction false} RemainingShrinks(d: nat, k: nat, j: nat)
    requires j <= k
    ensures Remaining(d, k) <= Remaining(d, j)
    decreases k
  {
    if j < k {
      RemainingShrinks(d, k - 1, j);
    }
  }

  // The average stays on its side of the ratio, so it never overshoots, and its
  // distance follows Remaining exactly.
  lemma {:induction false} NeverOvershoots(start: int, ratio: int, k: nat)
    ensures Abs(Settle(start, ratio, k) - ratio) == Remaining(Abs(start - ratio), k)
    ensures start <= ratio ==> start <= Settle(start, ratio, k) <= ratio
    ensures ratio <= start ==> ratio <= Settle(start, ratio, k) <= start
    decreases k
  {
    if k > 0 {
      NeverOvershoots(start, ratio, k - 1);
      EwmaMoves(Settle(start, ratio, k - 1), ratio);
    }
  }

  lemma RemainingStep(d: nat, k: nat, r: nat)
    requires Remaining(d, k) == r
    ensures Remaining(d, k + 1) == r - r / 4
  {
  }

  // 27 intervals settle the largest possible distance, and 26 do not.
  lemma WorstDistance(d: nat)
    requires d == SCALE
    ensures Remaining(d, 26) == 4 && Remaining(d, 27) == 3
  {
    RemainingStep(d, 0, 4096); RemainingStep(d, 1, 3072); RemainingStep(d, 2, 2304);
    RemainingStep(d, 3, 1728); RemainingStep(d, 4, 1296); RemainingStep(d, 5, 972);
    RemainingStep(d, 6, 729); RemainingStep(d, 7, 547); RemainingStep(d, 8, 411);
    RemainingStep(d, 9, 309); RemainingStep(d, 10, 232); RemainingStep(d, 11, 174);
    RemainingStep(d, 12, 131); RemainingStep(d, 13, 99); RemainingStep(d, 14, 75);
    RemainingStep(d, 15, 57); RemainingStep(d, 16, 43); RemainingStep(d, 17, 33);
    RemainingStep(d, 18, 25); RemainingStep(d, 19, 19); RemainingStep(d, 20, 15);
    RemainingStep(d, 21, 12); RemainingStep(d, 22, 9); RemainingStep(d, 23, 7);
    RemainingStep(d, 24, 6); RemainingStep(d, 25, 5); RemainingStep(d, 26, 4);
  }

  // Any steady ratio is reached, from any average, to within 3/4096 in at most 27
  // intervals, and the average then stays where it is.
  lemma SettlesIn27(start: nat, ratio: nat, k: nat)
    requires start <= SCALE && ratio <= SCALE && k >= 27
    ensures Abs(Settle(start, ratio, k) - ratio) <= 3
    ensures Settle(start, ratio, k + 1) == Settle(start, ratio, k)
  {
    hide Ewma, Remaining;
    var worst := SCALE;
    NeverOvershoots(start, ratio, k);
    RemainingMonotone(Abs(start - ratio), worst, k);
    RemainingShrinks(worst, k, 27);
    WorstDistance(worst);
    EwmaMoves(Settle(start, ratio, k), ratio);
  }

  // 26 intervals are not enough to come down from certainty.
  lemma SettlesNoSooner(start: nat, k: nat)
    requires start == SCALE && k == 26
    ensures Settle(start, 0, k) == 4
  {
    hide Ewma, Remaining, Settle;
    NeverOvershoots(start, 0, k);
    WorstDistance(start);
  }
}
