/** How many transmissions of a frame fit into one segment of a retry chain. */
module Retransmit {
  import opened FixedPoint

  const T_SLOT: nat := 9

  // The settings of struct minstrel_priv that the computation uses.
  datatype Link = Link(cwMin: nat, cwMax: nat, segmentSize: nat, maxRetry: nat)

  function Min(a: nat, b: nat): nat {
    if a < b then a else b
  }

  function Doubled(cw: nat, l: Link): nat {
    Min(2 * cw + 1, l.cwMax)
  }

  // The contention window of try i, counted from 0: it doubles up to its cap.
  function Window(l: Link, i: nat): nat {
    if i == 0 then l.cwMin else Doubled(Window(l, i - 1), l)
  }

  function Contention(l: Link, i: nat): nat {
    T_SLOT * Window(l, i) / 2
  }

  // The time that k tries take when each costs perTry besides its contention.
  function Spent(l: Link, perTry: nat, k: nat): nat {
    if k == 0 then 0 else Spent(l, perTry, k - 1) + Contention(l, k - 1) + perTry
  }

  // Two tries are always granted; more must end within the segment.
  predicate Granted(l: Link, perTry: nat, k: nat) {
    k == 2 || Spent(l, perTry, k) < l.segmentSize
  }

  // k is the largest number of tries granted between 2 and cap.
  ghost predicate Largest(l: Link, perTry: nat, cap: nat, k: nat) {
    && 2 <= k <= cap
    && Granted(l, perTry, k)
    && forall j :: k < j <= cap ==> !Granted(l, perTry, j)
  }

  lemma {:induction false} SpentGrows(l: Link, perTry: nat, j: nat, k: nat)
    requires j <= k
    ensures Spent(l, perTry, j) <= Spent(l, perTry, k)
    decreases k
  {
    if j < k {
      SpentGrows(l, perTry, j, k - 1);
    }
  }

  lemma {:induction false} SpentMonotone(l: Link, perTry: nat, more: nat, k: nat)
    requires perTry <= more
    ensures Spent(l, perTry, k) <= Spent(l, more, k)
    decreases k
  {
    if k > 0 {
      SpentMonotone(l, perTry, more, k - 1);
    }
  }

  // With tries granted up to k and not at k + 1, k is the largest.
  lemma LargestBy(l: Link, perTry: nat, cap: nat, k: nat)
    requires 2 <= k <= cap && Granted(l, perTry, k)
    requires k < cap ==> Spent(l, perTry, k + 1) >= l.segmentSize
    ensures Largest(l, perTry, cap, k)
  {
    forall j | k < j <= cap
      ensures !Granted(l, perTry, j)
    {
      SpentGrows(l, perTry, k + 1, j);
    }
  }

  // The largest number of tries is unique, and every smaller number from 2 on is
  // granted as well.
  lemma LargestIsThreshold(l: Link, perTry: nat, cap: nat, k: nat, j: nat)
    requires Largest(l, perTry, cap, k) && 2 <= j <= cap
    ensures Granted(l, perTry, j) <==> j <= k
  {
    if j < k {
      SpentGrows(l, perTry, j, k);
    }
  }

  // The loop of minstrel_calc_retransmit: retry is the largest number of tries that
  // the segment grants, and retryRtscts the largest that it grants with protection,
  // which can never be more.
  method Retries(l: Link, overhead: nat, overheadRtscts: nat, txTimeData: nat)
    returns (retry: nat, retryRtscts: nat)
    requires overhead <= overheadRtscts
    ensures Largest(l, overhead + txTimeData, if l.maxRetry > 3 then l.maxRetry else 3, retry)
    ensures Largest(l, overheadRtscts + txTimeData, retry, retryRtscts)
  {
    hide Window, Spent, Largest, Contention;
    retry, retryRtscts := 2, 2;
    var cw := l.cwMin;
    var ctime := T_SLOT * cw / 2;
    cw := Min(2 * cw + 1, l.cwMax);
    ctime := ctime + T_SLOT * cw / 2;
    cw := Min(2 * cw + 1, l.cwMax);
    var txTime := ctime + 2 * (overhead + txTimeData);
    var txTimeRtscts := ctime + 2 * (overheadRtscts + txTimeData);

    ghost var per, perRts := overhead + txTimeData, overheadRtscts + txTimeData;
    WindowSteps(l);
    ghost var cap := if l.maxRetry > 3 then l.maxRetry else 3;
    var more := true;
    while more
      invariant 2 <= retryRtscts <= retry <= cap
      invariant Granted(l, per, retry) && Granted(l, perRts, retryRtscts)
      invariant more ==> retry < cap && txTime == Spent(l, per, retry) && txTimeRtscts == Spent(l, perRts, retry)
      invariant more ==> cw == Window(l, retry)
      invariant retryRtscts < retry ==> Spent(l, perRts, retryRtscts + 1) >= l.segmentSize
      invariant !more && retry < cap ==> Spent(l, per, retry + 1) >= l.segmentSize
      decreases more, cap - retry
    {
      ctime := T_SLOT * cw / 2;
      cw := Min(2 * cw + 1, l.cwMax);
      SpentNext(l, per, retry);
      SpentNext(l, perRts, retry);
      txTime := txTime + ctime + overhead + txTimeData;
      txTimeRtscts := txTimeRtscts + ctime + overheadRtscts + txTimeData;
      RtsctsLags(l, per, perRts, retryRtscts, retry);
      if txTimeRtscts < l.segmentSize {
        retryRtscts := retryRtscts + 1;
      }
      more := txTime < l.segmentSize;
      if more {
        retry := retry + 1;
        more := retry < l.maxRetry;
      }
    }
    LargestBy(l, per, cap, retry);
    LargestBy(l, perRts, retry, retryRtscts);
  }

  lemma RtsctsLags(l: Link, per: nat, perRts: nat, rts: nat, retry: nat)
    requires per <= perRts && rts <= retry
    ensures Spent(l, per, retry + 1) <= Spent(l, perRts, retry + 1)
    ensures Spent(l, perRts, rts + 1) <= Spent(l, perRts, retry + 1)
  {
    SpentMonotone(l, per, perRts, retry + 1);
    SpentGrows(l, perRts, rts + 1, retry + 1);
  }

  lemma SpentNext(l: Link, per: nat, k: nat)
    ensures Window(l, k + 1) == Min(2 * Window(l, k) + 1, l.cwMax)
    ensures Spent(l, per, k + 1) == Spent(l, per, k) + T_SLOT * Window(l, k) / 2 + per
  {
  }

  lemma WindowSteps(l: Link)
    ensures Window(l, 0) == l.cwMin
    ensures Window(l, 1) == Min(2 * l.cwMin + 1, l.cwMax)
    ensures Window(l, 2) == Min(2 * Window(l, 1) + 1, l.cwMax)
    ensures forall per: nat :: Spent(l, per, 2) == T_SLOT * Window(l, 0) / 2 + T_SLOT * Window(l, 1) / 2 + 2 * per
  {
    assert Window(l, 1) == Doubled(Window(l, 0), l);
    assert Window(l, 2) == Doubled(Window(l, 1), l);
    forall per: nat
      ensures Spent(l, per, 2) == T_SLOT * Window(l, 0) / 2 + T_SLOT * Window(l, 1) / 2 + 2 * per
    {
      assert Spent(l, per, 1) == Contention(l, 0) + per;
    }
  }

  // A slower rate or a longer overhead is never granted more tries.
  lemma SlowerGetsNoMore(l: Link, perTry: nat, more: nat, cap: nat, k: nat, j: nat)
    requires perTry <= more
    requires Largest(l, perTry, cap, k) && Largest(l, more, cap, j)
    ensures j <= k
  {
    SpentMonotone(l, perTry, more, j);
    assert Granted(l, perTry, j);
  }

  lemma {:induction false} WindowCapped(l: Link, i: nat)
    requires l.cwMin <= l.cwMax
    ensures Window(l, i) <= l.cwMax
  {
    if i > 0 {
      WindowCapped(l, i - 1);
    }
  }

  function PowerOfTwo(i: nat): (p: nat)
    ensures p > 0
  {
    if i == 0 then 1 else 2 * PowerOfTwo(i - 1)
  }

  lemma TwiceOf(p: nat, m: nat)
    requires p > 0 && m > 0
    ensures 2 * p * m == 2 * (p * m) && p * m > 0
  {
  }

  // The window in closed form: doubling with one more slot each time, up to the cap.
  lemma {:induction false} WindowIs(l: Link, i: nat)
    requires l.cwMin <= l.cwMax
    ensures Window(l, i) == Min(PowerOfTwo(i) * (l.cwMin + 1) - 1, l.cwMax)
  {
    if i > 0 {
      WindowIs(l, i - 1);
      var x := PowerOfTwo(i - 1) * (l.cwMin + 1);
      assert PowerOfTwo(i) * (l.cwMin + 1) == 2 * x by {
        TwiceOf(PowerOfTwo(i - 1), l.cwMin + 1);
      }
      WindowStep(l, Window(l, i - 1), x);
      assert Window(l, i) == Doubled(Window(l, i - 1), l);
      hide *;
    }
  }

  lemma WindowStep(l: Link, w: nat, x: nat)
    requires x > 0 && w == Min(x - 1, l.cwMax)
    ensures Doubled(w, l) == Min(2 * x - 1, l.cwMax)
  {
  }

  // The driver's settings grant three tries of up to 1836 microseconds each, besides the
  // contention of 67, 139 and 283.
  lemma ThreeFit(l: Link, perTry: nat)
    requires l == Link(15, 1023, 6000, 3)
    ensures Spent(l, perTry, 3) == 489 + 3 * perTry
    ensures Granted(l, perTry, 3) <==> perTry <= 1836
  {
    assert Window(l, 1) == 31 && Window(l, 2) == 63;
    assert Spent(l, perTry, 1) == 67 + perTry;
    assert Spent(l, perTry, 2) == 206 + 2 * perTry;
  }

  // With the driver's windows of at most 1023 slots and costs below 2^23, the sums
  // for up to 256 tries stay below 2^32, so the unsigned arithmetic never wraps.
  lemma {:induction false} SpentFits(l: Link, perTry: nat, k: nat)
    requires l.cwMin <= l.cwMax <= 1023 && perTry < 0x80_0000 && k <= 256
    ensures Spent(l, perTry, k) <= k * 0x80_1200 < TWO32
    decreases k
  {
    if k > 0 {
      WindowCapped(l, k - 1);
      assert Contention(l, k - 1) <= 0x11FB;
      SpentFits(l, perTry, k - 1);
    }
  }
}
