/** How the most probable rate of an HT station comes about: during a recomputation
    every eligible rate challenges the rate selected so far, in order. The rate that was
    selected before the pass is compared by its old statistics until its turn comes. */
module MostProbable {
  import opened FixedPoint
  import opened Ranking

  // The keys after and before the recomputation, and which rates may challenge.
  datatype Pass = Pass(now: seq<Key>, was: seq<Key>, eligible: seq<bool>)

  predicate Fit(p: Pass) {
    |p.now| == |p.was| == |p.eligible|
  }

  predicate Likely(x: Key) {
    x.prob > Percent(75)
  }

  // Above 75% throughput decides, below it the probability.
  predicate Outdoes(x: Key, y: Key) {
    if Likely(x) then x.tp > y.tp else x.prob > y.prob
  }

  // The key of rate k once the rates below hi were recomputed.
  function Seen(p: Pass, k: nat, hi: nat): Key
    requires Fit(p) && k < |p.now|
  {
    if k < hi then p.now[k] else p.was[k]
  }

  // The rate selected after the rates below hi, beginning with start.
  function Choice(p: Pass, start: nat, hi: nat): (k: nat)
    requires Fit(p) && start < |p.now| && hi <= |p.now|
    ensures k == start || (k < hi && p.eligible[k])
  {
    if hi == 0 then start
    else
      var k := Choice(p, start, hi - 1);
      if p.eligible[hi - 1] && Outdoes(p.now[hi - 1], Seen(p, k, hi)) then hi - 1 else k
  }

  // ----- No eligible rate works more than 75% of the time -----

  // m is the most probable eligible rate, and the highest-numbered of equals.
  ghost predicate MostLikely(p: Pass, m: nat)
    requires Fit(p)
  {
    && m < |p.now| && p.eligible[m]
    && (forall i :: 0 <= i < |p.now| && p.eligible[i] ==> p.now[i].prob <= p.now[m].prob)
    && (forall i :: m < i < |p.now| && p.eligible[i] ==> p.now[i].prob < p.now[m].prob)
  }

  // No eligible rate is more probable than r.
  ghost predicate Highest(p: Pass, r: nat)
    requires Fit(p) && r < |p.now|
  {
    forall i :: 0 <= i < |p.now| && p.eligible[i] ==> p.now[i].prob <= p.now[r].prob
  }

  // The previous choice beats rate m by what it was before the pass, and would not by
  // what it is after it.
  predicate Outdated(p: Pass, start: nat, m: nat)
    requires Fit(p) && start < |p.now| && m < |p.now|
  {
    m < start && p.now[start].prob < p.now[m].prob <= p.was[start].prob
  }

  // Then it is not replaced before its own turn, and by no better rate afterwards.
  lemma {:induction false} OutdatedStays(p: Pass, start: nat, m: nat, n: nat)
    requires Fit(p) && start < |p.now| && n <= |p.now|
    requires MostLikely(p, m) && !Likely(p.now[m]) && Outdated(p, start, m)
    ensures Choice(p, start, n) >= start
    decreases n
  {
    if n > 0 {
      OutdatedStays(p, start, m, n - 1);
    }
  }

  // Otherwise the choice is as probable as m from its turn on.
  lemma {:induction false} CurrentHolds(p: Pass, start: nat, m: nat, n: nat)
    requires Fit(p) && start < |p.now| && MostLikely(p, m) && m < n <= |p.now|
    requires !Likely(p.now[m]) && !Outdated(p, start, m)
    ensures Seen(p, Choice(p, start, n), n).prob >= p.now[m].prob
    decreases n
  {
    if n > m + 1 {
      CurrentHolds(p, start, m, n - 1);
    }
  }

  // With no eligible rate above 75% the selected rate is the most probable one, except
  // exactly when the previous choice is outdated.
  lemma HighestIff(p: Pass, start: nat, m: nat)
    requires Fit(p) && start < |p.now| && MostLikely(p, m) && !Likely(p.now[m])
    ensures Highest(p, Choice(p, start, |p.now|)) <==> !Outdated(p, start, m)
  {
    if Outdated(p, start, m) {
      OutdatedStays(p, start, m, |p.now|);
      assert p.now[Choice(p, start, |p.now|)].prob < p.now[m].prob;
    } else {
      CurrentHolds(p, start, m, |p.now|);
    }
  }

  // ----- Some eligible rate does -----

  // m is the fastest of the eligible rates above 75%, the highest-numbered of equals.
  ghost predicate FastestLikely(p: Pass, m: nat)
    requires Fit(p)
  {
    && m < |p.now| && p.eligible[m] && Likely(p.now[m])
    && (forall i :: 0 <= i < |p.now| && p.eligible[i] && Likely(p.now[i]) ==> p.now[i].tp <= p.now[m].tp)
    && (forall i :: m < i < |p.now| && p.eligible[i] && Likely(p.now[i]) ==> p.now[i].tp < p.now[m].tp)
  }

  // r is eligible, works more than 75% of the time, and no such rate is faster.
  ghost predicate FastAndLikely(p: Pass, r: nat)
    requires Fit(p) && r < |p.now|
  {
    && p.eligible[r] && Likely(p.now[r])
    && forall i :: 0 <= i < |p.now| && p.eligible[i] && Likely(p.now[i]) ==> p.now[i].tp <= p.now[r].tp
  }

  // A fastest likely rate that is selected after m's turn stays selected.
  lemma {:induction false} FastStays(p: Pass, start: nat, m: nat, k: nat, n: nat)
    requires Fit(p) && start < |p.now| && FastestLikely(p, m) && m < n <= |p.now|
    requires k <= m && Choice(p, start, m + 1) == k && FastAndLikely(p, k)
    ensures Choice(p, start, n) == k
    decreases n
  {
    if n > m + 1 {
      FastStays(p, start, m, k, n - 1);
    }
  }

  // A rate that turned m away is replaced only by rates after m.
  lemma {:induction false} TurnedAway(p: Pass, start: nat, m: nat, k: nat, n: nat)
    requires Fit(p) && start < |p.now| && m < n <= |p.now|
    requires Choice(p, start, m + 1) == k
    ensures Choice(p, start, n) == k || Choice(p, start, n) > m
    decreases n
  {
    if n > m + 1 {
      TurnedAway(p, start, m, k, n - 1);
    }
  }

  // The selected rate is the fastest of those above 75% exactly when the fastest of
  // them is faster than what its predecessor shows at that moment, or the predecessor
  // is such a rate itself and was already recomputed.
  lemma FastestIff(p: Pass, start: nat, m: nat)
    requires Fit(p) && start < |p.now| && FastestLikely(p, m)
    ensures var k := Choice(p, start, m);
            FastAndLikely(p, Choice(p, start, |p.now|)) <==>
            || p.now[m].tp > Seen(p, k, m + 1).tp
            || (k <= m && p.eligible[k] && Likely(p.now[k]))
  {
    var k, after := Choice(p, start, m), Choice(p, start, m + 1);
    if p.now[m].tp > Seen(p, k, m + 1).tp || (k <= m && p.eligible[k] && Likely(p.now[k])) {
      FastStays(p, start, m, after, |p.now|);
    } else {
      TurnedAway(p, start, m, k, |p.now|);
    }
  }
}
