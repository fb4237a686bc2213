/** What the legacy controller computes: the throughput estimate, the chain of fast
    rates, the most probable rate and the table of supported rates. */
module LegacyModel {
  import opened FixedPoint
  import opened RateStats
  import Retransmit

  datatype Rate = Rate(
    rix: int, retryCountCts: nat, adjustedRetryCount: nat,
    perfectTxTime: nat, ackTime: nat, sampleLimit: int, stats: Stats)

  // minstrel_get_tp_avg with the rate's own probability, as every caller uses it.
  function TpAvg(perfectTxTime: nat, prob: nat): nat {
    var usecs := if perfectTxTime == 0 then 1_000_000 else perfectTxTime;
    if prob < Percent(10) then 0
    else if prob > Percent(90) then Trunc(100 * PerUsec(Percent(90), usecs))
    else Trunc(100 * PerUsec(prob, usecs))
  }

  function PerUsec(prob: nat, usecs: nat): nat
    requires usecs > 0
  {
    prob * 1000 / usecs
  }

  // What minstrel_update_stats makes of one rate.
  function Updated(r: Rate): Rate {
    var s := Recalculated(r.stats);
    var rare := s.probEwma > Percent(95) || s.probEwma < Percent(10);
    var adjusted := if !rare then s.retryCount else if s.retryCount / 2 > 2 then 2 else s.retryCount / 2;
    r.(adjustedRetryCount := if adjusted == 0 then 2 else adjusted,
       sampleLimit := if rare then 100 else -1,
       stats := s.(tpAvg := TpAvg(r.perfectTxTime, s.probEwma)))
  }

  // The estimate in numbers: nothing below 10%, and from there the frames that succeed in
  // a tenth of a second, scaled, with certainty capped at 90%.
  lemma EstimateIs(perfectTxTime: nat, prob: nat)
    ensures var time := if perfectTxTime == 0 then 1_000_000 else perfectTxTime;
            TpAvg(perfectTxTime, prob) ==
            if prob < 409 then 0 else 100 * ((if prob > 3686 then 3686 else prob) * 1000 / time) / SCALE
  {
  }

  // It grows with the probability, also beyond 90%, where it stays, and shrinks with the
  // time of a frame.
  lemma TpAvgMonotone(fast: nat, slow: nat, prob: nat, more: nat)
    requires 0 < fast <= slow && prob <= more
    ensures TpAvg(slow, prob) <= TpAvg(fast, more)
    ensures prob >= 3686 ==> TpAvg(fast, prob) == TpAvg(fast, more)
  {
    var p, m := if prob > Percent(90) then Percent(90) else prob, if more > Percent(90) then Percent(90) else more;
    DivideMonotone(p * 1000, m * 1000, fast, slow);
    DivideMonotone(100 * PerUsec(p, slow), 100 * PerUsec(m, fast), SCALE, SCALE);
    hide PerUsec;
  }

  // What a recomputation must leave of the limit and the retry count, read from the stored
  // probability: above 95% or below 10% a rate gets 100 samples and at most two tries,
  // between them no limit and all its tries.
  predicate Adjusted(r: Rate) {
    var prob, retry := r.stats.probEwma, r.stats.retryCount;
    if prob > 3891 || prob < 409
    then r.sampleLimit == 100 && r.adjustedRetryCount == if retry in {2, 3} then 1 else 2
    else r.sampleLimit == -1 && r.adjustedRetryCount == if retry == 0 then 2 else retry
  }

  lemma UpdatedIs(r: Rate)
    ensures Adjusted(Updated(r)) && Updated(r).stats.retryCount == r.stats.retryCount
    ensures Updated(r) == r.(stats := Updated(r).stats, sampleLimit := Updated(r).sampleLimit,
                             adjustedRetryCount := Updated(r).adjustedRetryCount)
    ensures Updated(r).stats == Recalculated(r.stats).(tpAvg := TpAvg(r.perfectTxTime, Updated(r).stats.probEwma))
  {
    hide TpAvg, Frac, Ewma, Ewmv;
  }

  // ----- The chain of fast rates -----

  // k is the fastest rate below hi, and the highest-numbered of equals.
  ghost predicate Fastest(tps: seq<nat>, hi: nat, k: nat) {
    && k < hi <= |tps|
    && (forall i :: 0 <= i < hi ==> tps[i] <= tps[k])
    && (forall i :: k < i < hi ==> tps[i] < tps[k])
  }

  // Each rate of the chain is the fastest below its predecessor; once rate 0 is
  // reached the chain stays there.
  ghost predicate IsChain(tps: seq<nat>, chain: seq<nat>) {
    && |chain| > 0
    && Fastest(tps, |tps|, chain[0])
    && forall j :: 1 <= j < |chain| ==>
                     if chain[j - 1] == 0 then chain[j] == 0 else Fastest(tps, chain[j - 1], chain[j])
  }

  // Along the chain indices fall strictly until rate 0 and throughput never rises;
  // any rate above an entry that the chain skipped is slower than the entry before it.
  lemma {:induction false} ChainFalls(tps: seq<nat>, chain: seq<nat>, j: nat, k: nat)
    requires IsChain(tps, chain) && j < k < |chain|
    ensures chain[k] < |tps| && chain[j] < |tps|
    ensures chain[k] <= chain[j] && (chain[k] == chain[j] ==> chain[j] == 0)
    ensures tps[chain[k]] <= tps[chain[j]]
    ensures forall i :: chain[k] < i < chain[k - 1] ==> tps[i] < tps[chain[k]]
    decreases k
  {
    ChainLink(tps, chain, k);
    if j < k - 1 {
      ChainFalls(tps, chain, j, k - 1);
    }
  }

  lemma ChainLink(tps: seq<nat>, chain: seq<nat>, k: nat)
    requires IsChain(tps, chain) && 0 < k < |chain|
    ensures chain[k] < |tps| && chain[k - 1] < |tps|
    ensures chain[k] <= chain[k - 1] && (chain[k] == chain[k - 1] ==> chain[k] == 0)
    ensures tps[chain[k]] <= tps[chain[k - 1]]
    ensures forall i :: chain[k] < i < chain[k - 1] ==> tps[i] < tps[chain[k]]
  {
    ChainInRange(tps, chain, k - 1);
    ChainInRange(tps, chain, k);
    assert if chain[k - 1] == 0 then chain[k] == 0 else Fastest(tps, chain[k - 1], chain[k]);
    if k > 1 {
      assert if chain[k - 2] == 0 then chain[k - 1] == 0 else Fastest(tps, chain[k - 2], chain[k - 1]);
    }
  }

  lemma {:induction false} ChainInRange(tps: seq<nat>, chain: seq<nat>, j: nat)
    requires IsChain(tps, chain) && j < |chain|
    ensures chain[j] < |tps|
    decreases j
  {
    if j > 0 {
      ChainInRange(tps, chain, j - 1);
    }
  }

  // The chain is determined by the throughputs.
  lemma {:induction false} ChainUnique(tps: seq<nat>, a: seq<nat>, b: seq<nat>, j: nat)
    requires IsChain(tps, a) && IsChain(tps, b) && j < |a| && j < |b|
    ensures a[j] == b[j]
    decreases j
  {
    if j > 0 {
      ChainUnique(tps, a, b, j - 1);
      if a[j - 1] != 0 {
        OneFastest(tps, a[j - 1], a[j], b[j]);
      }
    } else {
      OneFastest(tps, |tps|, a[0], b[0]);
    }
  }

  lemma OneFastest(tps: seq<nat>, hi: nat, k: nat, l: nat)
    requires Fastest(tps, hi, k) && Fastest(tps, hi, l)
    ensures k == l
  {
    assert tps[k] == tps[l];
  }

  // ----- The most probable rate -----

  // The rate selected after the first n rates: from 95% on throughput decides, below
  // it the probability, always against the rate selected so far.
  function Pick(ps: seq<nat>, tps: seq<nat>, n: nat): (k: nat)
    requires n <= |ps| == |tps| && |ps| > 0
    ensures k < |ps| && (k < n || k == 0)
  {
    if n == 0 then 0
    else
      var k, i := Pick(ps, tps, n - 1), n - 1;
      if ps[i] >= Percent(95) then (if tps[i] >= tps[k] then i else k)
      else (if ps[i] >= ps[k] then i else k)
  }

  lemma PickNext(ps: seq<nat>, tps: seq<nat>, i: nat)
    requires i < |ps| == |tps|
    ensures Pick(ps, tps, 0) == 0
    ensures var k := Pick(ps, tps, i);
            Pick(ps, tps, i + 1) ==
            if ps[i] >= Percent(95) then (if tps[i] >= tps[k] then i else k) else (if ps[i] >= ps[k] then i else k)
  {
  }

  // The comment's rule (2): when no rate reaches 95%, the selected rate has the
  // highest probability, and is the highest-numbered of equals.
  lemma {:induction false} BelowThreshold(ps: seq<nat>, tps: seq<nat>, n: nat)
    requires 0 < n <= |ps| == |tps|
    requires forall i :: 0 <= i < n ==> ps[i] < Percent(95)
    ensures Fastest(ps, n, Pick(ps, tps, n))
    decreases n
  {
    if n > 1 {
      BelowThreshold(ps, tps, n - 1);
    }
  }

  // m is the fastest of the rates that reach 95%, and the highest-numbered of equals.
  ghost predicate FastestReliable(ps: seq<nat>, tps: seq<nat>, m: nat) {
    && m < |ps| == |tps| && ps[m] >= Percent(95)
    && (forall i :: 0 <= i < |ps| && ps[i] >= Percent(95) ==> tps[i] <= tps[m])
    && (forall i :: m < i < |ps| && ps[i] >= Percent(95) ==> tps[i] < tps[m])
  }

  // The comment's rule (1) for a selected rate k.
  ghost predicate RuleOne(ps: seq<nat>, tps: seq<nat>, k: nat)
    requires k < |ps| == |tps|
  {
    && ps[k] >= Percent(95)
    && forall i :: 0 <= i < |ps| && ps[i] >= Percent(95) ==> tps[i] <= tps[k]
  }

  // Once a reliable rate is selected, only reliable rates replace it.
  lemma {:induction false} ReliableStays(ps: seq<nat>, tps: seq<nat>, from: nat, n: nat)
    requires from <= n <= |ps| == |tps| && |ps| > 0 && ps[Pick(ps, tps, from)] >= Percent(95)
    ensures ps[Pick(ps, tps, n)] >= Percent(95)
    ensures tps[Pick(ps, tps, n)] >= tps[Pick(ps, tps, from)]
    decreases n
  {
    if from < n {
      ReliableStays(ps, tps, from, n - 1);
    }
  }

  // After rate m no reliable rate is as fast, so m stays selected, or stays unselected.
  lemma {:induction false} AfterFastest(ps: seq<nat>, tps: seq<nat>, m: nat, n: nat)
    requires FastestReliable(ps, tps, m) && m < n <= |ps|
    ensures Pick(ps, tps, m + 1) == m ==> Pick(ps, tps, n) == m
    ensures Pick(ps, tps, m + 1) != m ==>
              var k := Pick(ps, tps, n);
              k != m && (ps[k] < Percent(95) || tps[k] < tps[m] || k == Pick(ps, tps, m + 1))
    decreases n
  {
    if m + 1 < n {
      AfterFastest(ps, tps, m, n - 1);
    }
  }

  // Rule (1) is met exactly when the fastest reliable rate is at least as fast as the
  // rate selected before it is looked at; that is the guard that can turn it away.
  lemma RuleOneIff(ps: seq<nat>, tps: seq<nat>, m: nat)
    requires FastestReliable(ps, tps, m)
    ensures RuleOne(ps, tps, Pick(ps, tps, |ps|)) <==> tps[m] >= tps[Pick(ps, tps, m)]
  {
    AfterFastest(ps, tps, m, |ps|);
    if tps[m] < tps[Pick(ps, tps, m)] {
      assert Pick(ps, tps, m + 1) == Pick(ps, tps, m) != m;
    }
  }

  // A rate at 94% with the shorter frames is selected although another reaches 96%.
  lemma RuleOneFails(ps: seq<nat>, tps: seq<nat>)
    requires ps == [Percent(94), Percent(96)] && tps == [TpAvg(1000, ps[0]), TpAvg(2000, ps[1])]
    ensures Pick(ps, tps, 2) == 0 && !RuleOne(ps, tps, 0) && FastestReliable(ps, tps, 1)
  {
    assert Pick(ps, tps, 0) == 0;
    assert Pick(ps, tps, 1) == 0;
  }

  // ----- The table of supported rates -----

  // The numbers of the supported rates, in order.
  function Indices(supp: seq<bool>, n: nat): (r: seq<int>)
    requires n <= |supp|
    ensures |r| <= n
    ensures forall k :: 0 <= k < |r| ==> k <= r[k] < n && supp[r[k]]
    ensures forall j, k :: 0 <= j < k < |r| ==> r[j] < r[k]
  {
    if n == 0 then [] else Indices(supp, n - 1) + if supp[n - 1] then [n - 1] else []
  }

  // Every supported rate is in the table.
  lemma {:induction false} IndicesComplete(supp: seq<bool>, n: nat, rix: nat)
    requires rix < n <= |supp| && supp[rix]
    ensures rix as int in Indices(supp, n)
    decreases n
  {
    if rix < n - 1 {
      IndicesComplete(supp, n - 1, rix);
    }
  }

  lemma SomeIndex(supp: seq<bool>)
    requires true in supp
    ensures 0 < |Indices(supp, |supp|)| <= |supp|
  {
    var k: nat :| k < |supp| && supp[k];
    IndicesComplete(supp, |supp|, k);
  }

  // rate_lowest_index_aml, for a station that supports some rate.
  function Lowest(supp: seq<bool>, from: nat): (k: nat)
    requires from <= |supp| && exists i :: from <= i < |supp| && supp[i]
    ensures from <= k < |supp| && supp[k] && forall i :: from <= i < k ==> !supp[i]
    decreases |supp| - from
  {
    if supp[from] then from else Lowest(supp, from + 1)
  }

  // The table that minstrel_rate_init leaves: the supported rates, then -1.
  ghost predicate TableFor(rixs: seq<int>, supp: seq<bool>) {
    && |rixs| == |supp|
    && forall k :: 0 <= k < |rixs| ==>
                     rixs[k] == if k < |Indices(supp, |supp|)| then Indices(supp, |supp|)[k] else -1
  }

  // What the downward search of rix_to_ndx comes to.
  function Search(rixs: seq<int>, rix: int, i: int): (n: int)
    requires -1 <= i < |rixs|
    ensures -1 <= n <= i
    ensures n >= 0 ==> rixs[n] == rix
    ensures forall k :: n < k <= i ==> rixs[k] != rix
    decreases i + 1
  {
    if i < 0 || rixs[i] == rix then i else Search(rixs, rix, i - 1)
  }

  // The search inverts the table: it maps each entry's rate number back to the entry,
  // and exactly the unsupported rate numbers to -1.
  lemma SearchInverts(rixs: seq<int>, supp: seq<bool>, rix: nat)
    requires TableFor(rixs, supp) && rix < |supp|
    ensures Search(rixs, rix, rix) >= 0 <==> supp[rix]
    ensures forall n :: 0 <= n < |Indices(supp, |supp|)| && rixs[n] == rix ==> Search(rixs, rix, rix) == n
  {
    var t := Indices(supp, |supp|);
    if supp[rix] {
      IndicesComplete(supp, |supp|, rix);
      var n: nat :| n < |t| && t[n] == rix;
      assert rixs[n] == rix && n <= rix;
    }
    var r := Search(rixs, rix, rix);
    if r >= 0 {
      assert rixs[r] == rix && r < |t| && supp[t[r]];
    }
  }

  // ----- Retry counts -----

  // minstrel_get_retry_count: a protected frame is tried at least twice, and more often
  // exactly as far as both counts allow.
  function TriesFor(r: Rate, useRts: bool, useCts: bool): (n: nat)
    ensures !useRts && !useCts ==> n == r.adjustedRetryCount
    ensures useRts || useCts ==>
              var allowed := if useRts then r.stats.retryCountRtscts else r.retryCountCts;
              && 2 <= n
              && (n == 2 || (n <= r.adjustedRetryCount && n <= allowed))
              && (n >= r.adjustedRetryCount || n >= allowed)
  {
    var retry := r.adjustedRetryCount;
    if useRts then Max(2, Retransmit.Min(r.stats.retryCountRtscts, retry))
    else if useCts then Max(2, Retransmit.Min(r.retryCountCts, retry))
    else retry
  }

  function Max(a: nat, b: nat): nat {
    if a < b then b else a
  }

  // A number of transmissions fits when it is one, or all before the last end within
  // the segment that started with the time already spent.
  predicate Fitting(l: Retransmit.Link, spent: nat, perTry: nat, k: nat) {
    k == 1 || (k > 1 && spent + Retransmit.Spent(l, perTry, k - 1) < l.segmentSize)
  }

  // k is the largest number up to cap that fits.
  ghost predicate LargestFitting(l: Retransmit.Link, spent: nat, perTry: nat, cap: nat, k: nat) {
    && 1 <= k <= cap
    && Fitting(l, spent, perTry, k)
    && forall j :: k < j <= cap ==> !Fitting(l, spent, perTry, j)
  }

  lemma LargestFittingBy(l: Retransmit.Link, spent: nat, perTry: nat, cap: nat, k: nat)
    requires 1 <= k <= cap && Fitting(l, spent, perTry, k)
    requires k < cap ==> spent + Retransmit.Spent(l, perTry, k) >= l.segmentSize
    ensures LargestFitting(l, spent, perTry, cap, k)
  {
    hide Retransmit.Spent;
    forall j | k < j <= cap
      ensures !Fitting(l, spent, perTry, j)
    {
      Retransmit.SpentGrows(l, perTry, k, j - 1);
    }
  }

  // The largest number is unique, and everything below it fits.
  lemma FittingIsThreshold(l: Retransmit.Link, spent: nat, perTry: nat, cap: nat, k: nat, j: nat)
    requires LargestFitting(l, spent, perTry, cap, k) && 1 <= j <= cap
    ensures Fitting(l, spent, perTry, j) <==> j <= k
  {
    hide Retransmit.Spent;
    if 1 < j < k {
      Retransmit.SpentGrows(l, perTry, j - 1, k - 1);
    }
  }

  // The rounds of the loop that yields the given count.
  function Rounds(l: Retransmit.Link, retry: nat): nat {
    if retry < Max(2, l.maxRetry) then retry else retry - 1
  }

  // The retry counts that minstrel_rate_init gives a rate with these durations: plain,
  // with protection by the rate's own CTS, and with RTS and CTS. The last two also end
  // with the loop for the first.
  ghost predicate Planned(l: Retransmit.Link, perfect: nat, ackTime: nat, spAck: nat, retry: nat, cts: nat,
      rtscts: nat) {
    var perTry, cap := ackTime + perfect, Retransmit.Min(Max(1, l.maxRetry), Rounds(l, retry) + 1);
    && LargestFitting(l, perfect + spAck, perTry, Max(2, l.maxRetry), retry)
    && LargestFitting(l, 0, perTry + spAck, cap, cts)
    && LargestFitting(l, 0, perTry + 2 * spAck, cap, rtscts)
  }

  // More protection never grants more tries.
  lemma MoreProtectionFewerTries(l: Retransmit.Link, perfect: nat, ackTime: nat, spAck: nat, retry: nat, cts: nat,
      rtscts: nat)
    requires Planned(l, perfect, ackTime, spAck, retry, cts, rtscts)
    ensures rtscts <= cts
  {
    hide Retransmit.Spent;
    if rtscts > 1 {
      Retransmit.SpentMonotone(l, ackTime + perfect + spAck, ackTime + perfect + 2 * spAck, rtscts - 1);
      assert Fitting(l, 0, ackTime + perfect + spAck, rtscts);
    }
  }

  // With the driver's settings, in microseconds: contention takes 67 before the first retry
  // and 139 before the second, and all but the last try must end within 6000.
  lemma DriverPlan(perfect: nat, ackTime: nat, spAck: nat, retry: nat, cts: nat, rtscts: nat)
    requires Planned(Retransmit.Link(15, 1023, 6000, 3), perfect, ackTime, spAck, retry, cts, rtscts)
    ensures var once := perfect + ackTime;
            && retry == (if perfect + spAck + 2 * once < 5794 then 3
                         else if perfect + spAck + once < 5933 then 2 else 1)
            && cts == (if retry > 1 && 2 * (once + spAck) < 5794 then 3 else if once + spAck < 5933 then 2 else 1)
            && rtscts == if retry > 1 && 2 * (once + 2 * spAck) < 5794 then 3
                         else if once + 2 * spAck < 5933 then 2 else 1
  {
    var l, once := Retransmit.Link(15, 1023, 6000, 3), perfect + ackTime;
    var cap := if retry > 1 then 3 else 2;
    TwoFit(perfect + spAck, once, 3, retry);
    TwoFit(0, once + spAck, cap, cts);
    TwoFit(0, once + 2 * spAck, cap, rtscts);
  }

  lemma TwoFit(spent: nat, perTry: nat, cap: nat, k: nat)
    requires 2 <= cap <= 3 && LargestFitting(Retransmit.Link(15, 1023, 6000, 3), spent, perTry, cap, k)
    ensures k == if cap == 3 && spent + 2 * perTry < 5794 then 3 else if spent + perTry < 5933 then 2 else 1
  {
    var l := Retransmit.Link(15, 1023, 6000, 3);
    assert Retransmit.Window(l, 1) == 31;
    assert Retransmit.Spent(l, perTry, 1) == 67 + perTry;
    assert Retransmit.Spent(l, perTry, 2) == 206 + 2 * perTry;
    assert Fitting(l, spent, perTry, 2) <==> spent + perTry < 5933;
    assert Fitting(l, spent, perTry, 3) <==> spent + 2 * perTry < 5794;
    hide Retransmit.Spent, Fitting;
  }

  // The loop of minstrel_rate_init over the tries of one rate.
  method PlanRetries(l: Retransmit.Link, perfect: nat, ackTime: nat, spAck: nat)
      returns (retry: nat, cts: nat, rtscts: nat)
    ensures Planned(l, perfect, ackTime, spAck, retry, cts, rtscts)
  {
    hide Retransmit.Window, Retransmit.Spent, LargestFitting, Retransmit.Contention, Stepped;
    retry, cts, rtscts := 1, 1, 1;
    var cw := l.cwMin;
    var txTime, txCts, txRts := perfect + spAck, 0, 0;
    ghost var per, cap := ackTime + perfect, Max(2, l.maxRetry);
    ghost var rounds := 0;
    NothingSpent(l, per, spAck);
    var more := true;
    while more
      invariant 1 <= retry <= cap && (retry == rounds + 1 || (!more && retry == rounds))
      invariant Fitting(l, perfect + spAck, per, retry)
      invariant txTime == perfect + spAck + Retransmit.Spent(l, per, rounds) && cw == Retransmit.Window(l, rounds)
      invariant txCts == Retransmit.Spent(l, per + spAck, rounds)
      invariant txRts == Retransmit.Spent(l, per + 2 * spAck, rounds)
      invariant more ==> retry < cap
      invariant !more ==> if rounds == retry then txTime >= l.segmentSize else retry == cap
      invariant Stepped(l, per + spAck, rounds, cts) && Stepped(l, per + 2 * spAck, rounds, rtscts)
      decreases more, cap - retry
    {
      Retransmit.SpentNext(l, per, rounds);
      Retransmit.SpentNext(l, per + spAck, rounds);
      Retransmit.SpentNext(l, per + 2 * spAck, rounds);
      var single := ackTime + perfect + Retransmit.T_SLOT * cw / 2;
      cw := Retransmit.Min(2 * cw + 1, l.cwMax);
      txTime := txTime + single;
      txCts := txCts + single + spAck;
      txRts := txRts + single + 2 * spAck;
      SteppedNext(l, per + spAck, rounds, cts);
      SteppedNext(l, per + 2 * spAck, rounds, rtscts);
      if txCts < l.segmentSize && cts < l.maxRetry {
        cts := cts + 1;
      }
      if txRts < l.segmentSize && rtscts < l.maxRetry {
        rtscts := rtscts + 1;
      }
      rounds := rounds + 1;
      more := txTime < l.segmentSize;
      if more {
        retry := retry + 1;
        more := retry < l.maxRetry;
      }
    }
    LargestFittingBy(l, perfect + spAck, per, cap, retry);
    SteppedIsLargest(l, per + spAck, rounds, cts);
    SteppedIsLargest(l, per + 2 * spAck, rounds, rtscts);
  }

  // A protected count after so many rounds: one more per round while the time and the
  // maximum allow it.
  ghost predicate Stepped(l: Retransmit.Link, perTry: nat, rounds: nat, n: nat) {
    && 1 <= n <= rounds + 1 && n <= Max(1, l.maxRetry)
    && Fitting(l, 0, perTry, n)
    && (n < rounds + 1 && n < Max(1, l.maxRetry) ==> Retransmit.Spent(l, perTry, n) >= l.segmentSize)
  }

  lemma SteppedNext(l: Retransmit.Link, perTry: nat, rounds: nat, n: nat)
    requires Stepped(l, perTry, rounds, n)
    ensures var more := Retransmit.Spent(l, perTry, rounds + 1) < l.segmentSize && n < l.maxRetry;
            Stepped(l, perTry, rounds + 1, if more then n + 1 else n)
  {
    hide Retransmit.Spent;
    Retransmit.SpentGrows(l, perTry, n, rounds + 1);
  }

  lemma SteppedIsLargest(l: Retransmit.Link, perTry: nat, rounds: nat, n: nat)
    requires Stepped(l, perTry, rounds, n)
    ensures LargestFitting(l, 0, perTry, Retransmit.Min(Max(1, l.maxRetry), rounds + 1), n)
  {
    hide Retransmit.Spent, LargestFitting;
    LargestFittingBy(l, 0, perTry, Retransmit.Min(Max(1, l.maxRetry), rounds + 1), n);
  }

  lemma NothingSpent(l: Retransmit.Link, per: nat, spAck: nat)
    ensures Retransmit.Window(l, 0) == l.cwMin && Retransmit.Spent(l, per, 0) == 0
    ensures Stepped(l, per + spAck, 0, 1) && Stepped(l, per + 2 * spAck, 0, 1)
    ensures Retransmit.Spent(l, per + spAck, 0) == Retransmit.Spent(l, per + 2 * spAck, 0) == 0
  {
  }

  // ----- Reports -----

  datatype Entry = Entry(idx: int, count: nat)

  // A transmit status: acknowledged or not, a probe or not, four chain entries, and
  // whether the update interval has elapsed when it arrives.
  datatype Status = Status(ack: bool, probe: bool, rates: seq<Entry>, expired: bool)

  // What the driver promises: rate numbers of the band, and every entry in use was
  // really tried, with an 8-bit count.
  predicate WellFormed(s: Status, bitrates: nat) {
    && |s.rates| == 4
    && forall i :: 0 <= i < 4 ==> s.rates[i].idx < bitrates && (s.rates[i].idx >= 0 ==> 1 <= s.rates[i].count <= 255)
  }

  // The chain ends at the first entry without a rate.
  function ChainLength(s: Status, from: nat): (n: nat)
    requires |s.rates| == 4 && from <= 4
    ensures from <= n <= 4
    ensures forall i :: from <= i < n ==> s.rates[i].idx >= 0
    ensures n < 4 ==> s.rates[n].idx < 0
    decreases 4 - from
  {
    if from == 4 || s.rates[from].idx < 0 then from else ChainLength(s, from + 1)
  }

  // Success goes to an entry that is followed by the end of the chain, never to the
  // fourth.
  function EntryEvent(s: Status, i: nat): (e: Event)
    requires |s.rates| == 4 && i < 4
    ensures e.Report?
  {
    Report(s.rates[i].count, if s.ack && i != 3 && s.rates[i + 1].idx < 0 then 1 else 0)
  }

  // What the first n entries of the chain report for entry k of the rate table.
  function Reports(s: Status, rixs: seq<int>, k: nat, n: nat): (es: seq<Event>)
    requires WellFormed(s, |rixs|) && n <= ChainLength(s, 0)
    ensures forall e :: e in es ==> e.Report?
  {
    if n == 0 then [] else
      Reports(s, rixs, k, n - 1) +
      if Search(rixs, s.rates[n - 1].idx, s.rates[n - 1].idx) == k then [EntryEvent(s, n - 1)] else []
  }

  lemma {:induction false} ReportsHonest(s: Status, rixs: seq<int>, k: nat, n: nat)
    requires WellFormed(s, |rixs|) && n <= ChainLength(s, 0)
    ensures forall e :: e in Reports(s, rixs, k, n) ==> e.Report? && Honest(e) && e.tries <= 65025
    ensures |Reports(s, rixs, k, n)| <= n
    decreases n
  {
    if n > 0 {
      ReportsHonest(s, rixs, k, n - 1);
    }
  }

  // An acknowledged chain of up to three rates credits one success, to its last rate;
  // no other entry and no longer chain is credited.
  lemma CreditedOnce(s: Status, i: nat)
    requires |s.rates| == 4 && i < ChainLength(s, 0)
    ensures EntryEvent(s, i).acked == if s.ack && i + 1 == ChainLength(s, 0) && i < 3 then 1 else 0
    ensures EntryEvent(s, i).tries == s.rates[i].count
  {
  }

  // The table after the first n entries of a status were taken in.
  function Taken(s: Status, rixs: seq<int>, was: seq<Rate>, n: nat): (r: seq<Rate>)
    requires WellFormed(s, |rixs|) && n <= ChainLength(s, 0)
    ensures |r| == |was|
    ensures forall k :: 0 <= k < |was| ==> r[k] == was[k].(stats := Run(was[k].stats, Reports(s, rixs, k, n)))
  {
    seq(|was|, k requires 0 <= k < |was| => was[k].(stats := Run(was[k].stats, Reports(s, rixs, k, n))))
  }

  // One more entry changes only the rate that it names, if any.
  lemma TakenNext(s: Status, rixs: seq<int>, was: seq<Rate>, n: nat)
    requires WellFormed(s, |rixs|) && n < ChainLength(s, 0) && |was| == |rixs|
    ensures var ndx, e := Search(rixs, s.rates[n].idx, s.rates[n].idx), EntryEvent(s, n);
            var now := Taken(s, rixs, was, n);
            Taken(s, rixs, was, n + 1) ==
            if ndx < 0 then now
            else now[ndx := now[ndx].(stats := RateStats.Reported(now[ndx].stats, e.tries, e.acked))]
  {
    hide EntryEvent;
    var ndx, e := Search(rixs, s.rates[n].idx, s.rates[n].idx), EntryEvent(s, n);
    var now, next := Taken(s, rixs, was, n), Taken(s, rixs, was, n + 1);
    forall k | 0 <= k < |was|
      ensures next[k] == if k == ndx then now[k].(stats := RateStats.Reported(now[k].stats, e.tries, e.acked))
              else now[k]
    {
      var es := Reports(s, rixs, k, n);
      assert (es + [e])[..|es|] == es && es + [] == es;
    }
  }

  const ROOM: nat := 4 * 65025

  // Taking in a status keeps every rate sound, counts exactly what it reports, and
  // touches nothing else.
  lemma TakenSound(s: Status, rixs: seq<int>, was: seq<Rate>, k: nat)
    requires WellFormed(s, |rixs|) && k < |was|
    requires Sound(was[k].stats) && was[k].stats.attempts + ROOM < TWO32
    ensures var es := Reports(s, rixs, k, ChainLength(s, 0));
            var t := Run(was[k].stats, es);
            && t == was[k].stats.(attempts := t.attempts, success := t.success)
            && Sound(t)
            && t.attempts == was[k].stats.attempts + Tried(es)
            && t.success == was[k].stats.success + Acked(es)
  {
    hide Sound, EntryEvent;
    var es := Reports(s, rixs, k, ChainLength(s, 0));
    ReportsOnlyCount(was[k].stats, es);
    ReportsHonest(s, rixs, k, ChainLength(s, 0));
    SmallReportsFit(was[k].stats, es);
  }
}
