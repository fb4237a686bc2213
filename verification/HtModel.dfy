/** What the operations of an HT station compute, as functions of its state. */
module HtModel {
  import opened FixedPoint
  import opened RateStats
  import opened Ranking
  import opened HtRates
  import opened MostProbable

  // The rates of group g are cells 10 g .. 10 g + 9, the numbering that the source
  // uses for every stored rate index.
  function Cell(group: nat, rate: nat): (c: nat)
    requires group < GROUPS && rate < MCS_GROUP_RATES
    ensures c < CELLS && c / MCS_GROUP_RATES == group && c % MCS_GROUP_RATES == rate
  {
    MCS_GROUP_RATES * group + rate
  }

  type Masks = seq<seq<bool>>

  predicate Shaped(supported: Masks) {
    |supported| == GROUPS && forall g :: 0 <= g < GROUPS ==> |supported[g]| == MCS_GROUP_RATES
  }

  // The masks that minstrel_ht_update_caps can build: eight HT rates, four CCK rates.
  predicate Caps(supported: Masks) {
    && Shaped(supported)
    && forall g, i :: 0 <= g < GROUPS && 0 <= i < MCS_GROUP_RATES && supported[g][i] ==>
                        Listed(g, i) && (g == CCK_GROUP ==> i < 4)
  }

  predicate Has(supported: Masks, c: nat)
    requires Shaped(supported) && c < CELLS
  {
    supported[c / MCS_GROUP_RATES][c % MCS_GROUP_RATES]
  }

  predicate HasGroup(supported: Masks, g: nat)
    requires Shaped(supported) && g < GROUPS
  {
    true in supported[g]
  }

  // What the throughput estimate needs of the cells: a probability, and none for a
  // rate that has no duration.
  predicate Estimable(stats: seq<Stats>) {
    && |stats| == CELLS
    && forall c :: 0 <= c < CELLS ==>
                     && stats[c].probEwma <= SCALE
                     && (stats[c].probEwma == 0 || Listed(c / MCS_GROUP_RATES, c % MCS_GROUP_RATES))
  }

  function KeyOf(a: Airtime, s: Stats, c: nat): Key
    requires Usable(a) && c < CELLS
    requires s.probEwma == 0 || Listed(c / MCS_GROUP_RATES, c % MCS_GROUP_RATES)
  {
    Key(TpAvg(a, c / MCS_GROUP_RATES, c % MCS_GROUP_RATES, s.probEwma), s.probEwma)
  }

  function Keys(a: Airtime, stats: seq<Stats>): (keys: seq<Key>)
    requires Usable(a) && Estimable(stats)
    ensures |keys| == CELLS
    ensures forall c :: 0 <= c < CELLS ==> keys[c] == KeyOf(a, stats[c], c)
  {
    seq(CELLS, c requires 0 <= c < CELLS => KeyOf(a, stats[c], c))
  }

  // ----- Recomputing the statistics -----

  // A supported cell after its statistics were recomputed.
  function Refreshed(a: Airtime, s: Stats, c: nat): Stats
    requires Usable(a) && c < CELLS && Listed(c / MCS_GROUP_RATES, c % MCS_GROUP_RATES)
  {
    var r := Recalculated(s);
    r.(retryUpdated := false, tpAvg := KeyOf(a, r, c).tp)
  }

  ghost predicate Started(supported: Masks, stats: seq<Stats>) {
    && Caps(supported)
    && Estimable(stats)
    && forall c :: 0 <= c < CELLS && Has(supported, c) ==> Sound(stats[c])
  }

  function Final(a: Airtime, supported: Masks, stats: seq<Stats>, c: nat): (r: Stats)
    requires Usable(a) && Caps(supported) && |stats| == CELLS && c < CELLS
  {
    if Has(supported, c) then Refreshed(a, stats[c], c) else stats[c]
  }

  lemma FinalSound(a: Airtime, supported: Masks, stats: seq<Stats>, c: nat)
    requires Usable(a) && Started(supported, stats) && c < CELLS
    ensures var r := Final(a, supported, stats, c);
            && r.probEwma <= SCALE
            && (r.probEwma == 0 || Listed(c / MCS_GROUP_RATES, c % MCS_GROUP_RATES))
            && (Has(supported, c) ==> Sound(r) && r.attempts == 0 && r.success == 0 && !r.retryUpdated)
            && (!Has(supported, c) ==> r == stats[c])
  {
    hide TpAvg, Recalculated;
    if Has(supported, c) {
      RecalculatedSound(stats[c]);
      assert Recalculated(stats[c]).attempts == 0 by { RecalculatedClears(stats[c]); }
    }
  }

  // ----- The candidates of a ranking -----

  datatype Kind = McsRates | CckRates | AllRates

  predicate Offers(kind: Kind, supported: Masks, c: nat)
    requires Shaped(supported) && c < CELLS
  {
    && Has(supported, c)
    && (kind == McsRates ==> c / MCS_GROUP_RATES != CCK_GROUP)
    && (kind == CckRates ==> c / MCS_GROUP_RATES == CCK_GROUP)
  }

  // The supported rates below cell hi, each once.
  ghost function Offered(kind: Kind, supported: Masks, hi: nat): (m: multiset<nat>)
    requires Shaped(supported) && hi <= CELLS
    ensures forall c: nat :: c in m <==> c < hi && Offers(kind, supported, c)
    ensures forall c :: c in m ==> m[c] == 1
  {
    if hi == 0 then multiset{}
    else Offered(kind, supported, hi - 1) +
         if Offers(kind, supported, hi - 1) then multiset{hi - 1} else multiset{}
  }

  const ZEROS: seq<nat> := [0, 0, 0, 0]

  // Every ranking starts from four copies of rate 0.
  ghost function Pool(kind: Kind, supported: Masks, hi: nat): multiset<nat>
    requires Shaped(supported) && hi <= CELLS
  {
    multiset(ZEROS) + Offered(kind, supported, hi)
  }

  lemma PoolNext(kind: Kind, supported: Masks, c: nat)
    requires Shaped(supported) && c < CELLS
    ensures Offers(kind, supported, c) ==> Pool(kind, supported, c + 1) == Pool(kind, supported, c) + multiset{c}
    ensures !Offers(kind, supported, c) ==> Pool(kind, supported, c + 1) == Pool(kind, supported, c)
  {
    hide Offers;
  }

  lemma ZerosRanked(keys: seq<Key>)
    requires |keys| == CELLS
    ensures TopOf(ZEROS, multiset(ZEROS), keys)
  {
  }

  // A supported CCK rate is faster than rate 0 and than every supported MCS rate.
  ghost predicate CckWins(supported: Masks, keys: seq<Key>)
    requires Shaped(supported) && |keys| == CELLS
  {
    exists c :: c in Offered(CckRates, supported, CELLS) && FasterThanAll(c, Pool(McsRates, supported, CELLS), keys)
  }

  ghost predicate FasterThanAll(c: nat, pool: multiset<nat>, keys: seq<Key>) {
    c < |keys| && forall m :: m in pool ==> m < |keys| && keys[c].tp > keys[m].tp
  }

  // The rates that compete for the station's list.
  ghost function Contenders(supported: Masks, keys: seq<Key>): multiset<nat>
    requires Shaped(supported) && |keys| == CELLS
  {
    Pool(McsRates, supported, CELLS) +
    if CckWins(supported, keys) then Offered(CckRates, supported, CELLS) else multiset{}
  }

  // The supported CCK rate k is faster than rate 0 and than every supported MCS rate.
  predicate Outruns(supported: Masks, keys: seq<Key>, k: nat)
    requires Shaped(supported) && |keys| == CELLS
  {
    && 40 <= k < 50 && Has(supported, k) && keys[k].tp > keys[0].tp
    && forall m :: 0 <= m < CELLS && m / 10 != 4 && Has(supported, m) ==> keys[k].tp > keys[m].tp
  }

  lemma PoolsAre(supported: Masks, m: nat)
    requires Shaped(supported)
    ensures m in Pool(McsRates, supported, CELLS) <==> m == 0 || (m < CELLS && m / 10 != 4 && Has(supported, m))
    ensures m in Offered(CckRates, supported, CELLS) <==> 40 <= m < 50 && Has(supported, m)
  {
    assert m < CELLS ==> (m / 10 == 4 <==> 40 <= m < 50);
    hide Has;
  }

  lemma OutrunsIff(supported: Masks, keys: seq<Key>, k: nat)
    requires Shaped(supported) && |keys| == CELLS && 40 <= k < 50 && Has(supported, k)
    ensures Outruns(supported, keys, k) <==> FasterThanAll(k, Pool(McsRates, supported, CELLS), keys)
  {
    hide Has, Pool;
    var pool := Pool(McsRates, supported, CELLS);
    forall m: nat
      ensures m in pool <==> m == 0 || (m < CELLS && m / 10 != 4 && Has(supported, m))
    {
      PoolsAre(supported, m);
    }
  }

  // Read rate by rate: besides rate 0 every supported rate outside the CCK group competes,
  // and the supported CCK rates do if one of them outruns all of those.
  lemma ContendersAre(supported: Masks, keys: seq<Key>, c: nat)
    requires Shaped(supported) && |keys| == CELLS && 0 < c < CELLS
    ensures c in Contenders(supported, keys) <==>
            supported[c / 10][c % 10] && (c / 10 == 4 ==> exists k :: Outruns(supported, keys, k))
  {
    PoolsAre(supported, c);
    assert CckWins(supported, keys) <==> exists k :: Outruns(supported, keys, k) by {
      hide Pool, Has, Outruns, FasterThanAll, Offered;
      if CckWins(supported, keys) {
        var k :| k in Offered(CckRates, supported, CELLS) && FasterThanAll(k, Pool(McsRates, supported, CELLS), keys);
        PoolsAre(supported, k);
        OutrunsIff(supported, keys, k);
      }
      if k :| Outruns(supported, keys, k) {
        OutrunsSupported(supported, keys, k);
        PoolsAre(supported, k);
        OutrunsIff(supported, keys, k);
      }
    }
    hide CckWins, Outruns, Pool, Offered;
  }

  lemma OutrunsSupported(supported: Masks, keys: seq<Key>, k: nat)
    requires Shaped(supported) && |keys| == CELLS && Outruns(supported, keys, k)
    ensures 40 <= k < 50 && Has(supported, k)
  {
  }

  // The first entry of a ranking is among the fastest candidates.
  lemma FirstIsFastest(list: seq<nat>, all: multiset<nat>, keys: seq<Key>)
    requires TopOf(list, all, keys)
    ensures list[0] in all
    ensures forall m :: m in all ==> m < |keys| && keys[m].tp <= keys[list[0]].tp
  {
    forall m | m in all
      ensures m < |keys| && keys[m].tp <= keys[list[0]].tp
    {
      if m in Dropped(list, all) {
        assert RanksBelow(m, list, keys);
        assert !Beats(keys[list[|list| - 1]], keys[list[0]]) || |list| == 1;
      } else {
        assert m in list;
      }
    }
    assert list[0] in list;
  }

  // Comparing the heads of the two lists decides whether a CCK rate wins.
  lemma HeadsDecide(mcs: seq<nat>, cck: seq<nat>, supported: Masks, keys: seq<Key>)
    requires Shaped(supported) && |keys| == CELLS
    requires TopOf(mcs, Pool(McsRates, supported, CELLS), keys)
    requires TopOf(cck, Pool(CckRates, supported, CELLS), keys)
    ensures CckWins(supported, keys) <==> keys[cck[0]].tp > keys[mcs[0]].tp
  {
    var pool := Pool(McsRates, supported, CELLS);
    FirstIsFastest(mcs, pool, keys);
    FirstIsFastest(cck, Pool(CckRates, supported, CELLS), keys);
    assert 0 in pool;
    if keys[cck[0]].tp > keys[mcs[0]].tp {
      assert cck[0] in Offered(CckRates, supported, CELLS) by {
        assert cck[0] != 0;
      }
      assert FasterThanAll(cck[0], pool, keys);
    }
  }

  // The list after minstrel_ht_assign_best_tp_rates.
  function Assigned(mcs: seq<nat>, cck: seq<nat>, keys: seq<Key>): (r: seq<nat>)
    requires |mcs| == |cck| == 4 && InRange(mcs, keys) && InRange(cck, keys)
    ensures |r| == 4 && InRange(r, keys)
  {
    if keys[cck[0]].tp > keys[mcs[0]].tp then InsertAll(mcs, cck, keys) else mcs
  }

  lemma PoolsJoin(supported: Masks, mcsPool: multiset<nat>, cckPool: multiset<nat>, all: multiset<nat>)
    requires Shaped(supported) && cckPool == Pool(CckRates, supported, CELLS)
    requires all == mcsPool + Offered(CckRates, supported, CELLS)
    ensures mcsPool + cckPool == all + multiset(ZEROS)
    ensures forall e :: e in multiset(ZEROS) ==> e == 0
  {
    hide Offered;
  }

  // The station's list ranks the best four of four copies of rate 0 and all supported
  // MCS rates, and of all supported CCK rates too exactly when one of those wins.
  lemma AssignedIsTop(mcs: seq<nat>, cck: seq<nat>, supported: Masks, keys: seq<Key>)
    requires Shaped(supported) && |keys| == CELLS && |mcs| == |cck| == 4
    requires TopOf(mcs, Pool(McsRates, supported, CELLS), keys)
    requires TopOf(cck, Pool(CckRates, supported, CELLS), keys)
    ensures TopOf(Assigned(mcs, cck, keys), Contenders(supported, keys), keys)
  {
    HeadsDecide(mcs, cck, supported, keys);
    var mcsPool, cckPool := Pool(McsRates, supported, CELLS), Pool(CckRates, supported, CELLS);
    assert InRange(mcs, keys) && InRange(cck, keys);
    assert mcsPool[0] >= 4;
    hide TopOf, CckWins, InsertAll, Pool, Offered;
    if CckWins(supported, keys) {
      MergeIsTop(mcs, cck, mcsPool, cckPool, keys);
      var all := mcsPool + Offered(CckRates, supported, CELLS);
      PoolsJoin(supported, mcsPool, cckPool, all);
      SpareCopies(InsertAll(mcs, cck, keys), 0, all, multiset(ZEROS), keys);
    } else {
      assert Contenders(supported, keys) == mcsPool;
    }
  }

  // A rank depends only on the keys of the entries and of the candidate.
  lemma {:induction false} InsertAgrees(list: seq<nat>, x: nat, k: seq<Key>, l: seq<Key>)
    requires InRange(list, k) && x < |k| && |k| == |l|
    requires k[x] == l[x] && forall i :: 0 <= i < |list| ==> k[list[i]] == l[list[i]]
    ensures InsertPos(list, x, k) == InsertPos(list, x, l)
    ensures Insert(list, x, k) == Insert(list, x, l)
    decreases |list|
  {
    if list != [] {
      InsertAgrees(list[..|list| - 1], x, k, l);
    }
  }

  // ----- The pass over all cells -----

  function Flags(supported: Masks): (r: seq<bool>)
    requires Shaped(supported)
    ensures |r| == GROUPS
  {
    seq(GROUPS, g requires 0 <= g < GROUPS => HasGroup(supported, g))
  }

  function Finals(a: Airtime, supported: Masks, stats: seq<Stats>): (r: seq<Stats>)
    requires Usable(a) && Caps(supported) && |stats| == CELLS
    ensures |r| == CELLS
    ensures forall c :: 0 <= c < CELLS ==> r[c] == Final(a, supported, stats, c)
  {
    seq(CELLS, c requires 0 <= c < CELLS => Final(a, supported, stats, c))
  }

  lemma FinalsEstimable(a: Airtime, supported: Masks, stats: seq<Stats>)
    requires Usable(a) && Started(supported, stats)
    ensures Estimable(Finals(a, supported, stats))
    ensures forall c :: 0 <= c < CELLS && Has(supported, c) ==> Sound(Finals(a, supported, stats)[c])
  {
    hide Final, Sound;
    forall c | 0 <= c < CELLS
      ensures var r := Finals(a, supported, stats)[c];
              && r.probEwma <= SCALE
              && (r.probEwma == 0 || Listed(c / MCS_GROUP_RATES, c % MCS_GROUP_RATES))
              && (Has(supported, c) ==> Sound(r))
    {
      FinalSound(a, supported, stats, c);
    }
  }

  // The cells while the pass has dealt with those below hi.
  ghost predicate Halfway(a: Airtime, supported: Masks, was: seq<Stats>, now: seq<Stats>, hi: nat)
    requires Usable(a) && Caps(supported) && |was| == CELLS
  {
    && |now| == CELLS
    && forall c :: 0 <= c < CELLS ==> now[c] == if c < hi then Final(a, supported, was, c) else was[c]
  }

  // The keys at the end of the pass.
  ghost function FinalKeys(a: Airtime, supported: Masks, was: seq<Stats>): (keys: seq<Key>)
    requires Usable(a) && Started(supported, was)
    ensures |keys| == CELLS
  {
    FinalsEstimable(a, supported, was);
    Keys(a, Finals(a, supported, was))
  }

  // Halfway, the estimates are defined and final for every cell dealt with.
  lemma HalfwayKeys(a: Airtime, supported: Masks, was: seq<Stats>, now: seq<Stats>, hi: nat)
    requires Usable(a) && Started(supported, was) && Halfway(a, supported, was, now, hi) && hi <= CELLS
    ensures Estimable(now)
    ensures forall c :: 0 <= c < hi ==> Keys(a, now)[c] == FinalKeys(a, supported, was)[c]
    ensures forall c :: 0 <= c < hi && Has(supported, c) ==> now[c].tpAvg == Keys(a, now)[c].tp
  {
    FinalsEstimable(a, supported, was);
    assert forall c :: 0 <= c < hi && Has(supported, c) ==> now[c].tpAvg == KeyOf(a, now[c], c).tp by {
      hide TpAvg, Recalculated, Sound;
    }
    hide Final, KeyOf;
  }

  // At the end of the pass the estimates are the final ones, every cell stores its
  // own estimate, and the cells are fit for the next pass.
  lemma PassEnds(a: Airtime, supported: Masks, was: seq<Stats>, now: seq<Stats>)
    requires Usable(a) && Started(supported, was) && Halfway(a, supported, was, now, CELLS)
    requires forall c :: 0 <= c < CELLS && !Has(supported, c) ==> was[c].probEwma == 0 && was[c].tpAvg == 0
    ensures Estimable(now) && Keys(a, now) == FinalKeys(a, supported, was)
    ensures forall c :: 0 <= c < CELLS ==> now[c].tpAvg == Keys(a, now)[c].tp
    ensures forall c :: 0 <= c < CELLS ==>
                          if Has(supported, c) then Sound(now[c]) else now[c].probEwma == 0 && now[c].tpAvg == 0
  {
    HalfwayKeys(a, supported, was, now, CELLS);
    FinalsEstimable(a, supported, was);
    hide Recalculated, Sound, Nsecs, PerSecond, Listed;
  }

  lemma FullyPassed(a: Airtime, supported: Masks, was: seq<Stats>, now: seq<Stats>)
    requires Usable(a) && Caps(supported) && |was| == CELLS && Halfway(a, supported, was, now, CELLS)
    ensures now == Finals(a, supported, was)
  {
    hide Final;
  }

  // A pass loses no counts but whole wraps of the lifetime counters.
  lemma FinalConserves(a: Airtime, supported: Masks, was: seq<Stats>, c: nat)
    requires Usable(a) && Started(supported, was) && c < CELLS && Has(supported, c)
    ensures var t := Final(a, supported, was, c);
            Grew(Counted(was[c]), Counted(t), 0) && Grew(Succeeded(was[c]), Succeeded(t), 0)
  {
    hide TpAvg, Recalculated, Grew;
    StepConserves(was[c], Recalculate);
    assert Tried([Recalculate]) == 0 && Acked([Recalculate]) == 0;
  }

  lemma HalfwayAhead(a: Airtime, supported: Masks, was: seq<Stats>, now: seq<Stats>, c: nat)
    requires Usable(a) && Caps(supported) && |was| == CELLS && c < CELLS
    requires Halfway(a, supported, was, now, c)
    ensures |now| == CELLS && now[c] == was[c]
  {
  }

  lemma RecalculatedKeepsRetry(s: Stats)
    ensures Recalculated(s.(retryUpdated := false)) == Recalculated(s).(retryUpdated := false)
  {
    hide Frac, Ewma, Ewmv;
  }

  // With the statistics of the next cell recomputed but its estimate not yet stored,
  // the keys up to that cell are final already.
  lemma RecomputedKeys(a: Airtime, supported: Masks, was: seq<Stats>, now: seq<Stats>, c: nat, tp: nat)
    requires Usable(a) && Started(supported, was) && c < CELLS && Has(supported, c)
    requires Halfway(a, supported, was, now, c)
    ensures var next := now[c := Recalculated(was[c]).(retryUpdated := false)];
            && Estimable(next)
            && (forall e :: 0 <= e <= c ==> Keys(a, next)[e] == FinalKeys(a, supported, was)[e])
            && (tp == Keys(a, next)[c].tp ==>
                  Halfway(a, supported, was, next[c := next[c].(tpAvg := tp)], c + 1))
  {
    hide TpAvg, Recalculated, Sound;
    var next := now[c := Recalculated(was[c]).(retryUpdated := false)];
    FinalsEstimable(a, supported, was);
    assert forall e :: 0 <= e < c ==> next[e] == Finals(a, supported, was)[e];
    assert next[c].probEwma == Finals(a, supported, was)[c].probEwma;
  }

  ghost predicate Ranks(list: seq<nat>, kind: Kind, supported: Masks, hi: nat, keys: seq<Key>)
    requires Shaped(supported) && hi <= CELLS
  {
    |list| == 4 && TopOf(list, Pool(kind, supported, hi), keys)
  }

  lemma RanksInRange(list: seq<nat>, kind: Kind, supported: Masks, hi: nat, keys: seq<Key>)
    requires Shaped(supported) && hi <= CELLS && |keys| == CELLS && Ranks(list, kind, supported, hi, keys)
    ensures InRange(list, keys)
    ensures forall i :: 0 <= i < 4 ==> list[i] < CELLS
    ensures forall i :: 0 <= i < 4 ==> list[i] == 0 || (list[i] < hi && Offers(kind, supported, list[i]))
  {
    forall i | 0 <= i < 4
      ensures list[i] == 0 || (list[i] < hi && Offers(kind, supported, list[i]))
    {
      assert list[i] in multiset(list);
      assert list[i] in Pool(kind, supported, hi);
    }
  }

  // The list of a group names rates of that group and of lower ones only.
  lemma RanksDescend(list: seq<nat>, supported: Masks, g: nat, keys: seq<Key>)
    requires Shaped(supported) && g < GROUPS && |keys| == CELLS
    requires Ranks(list, AllRates, supported, MCS_GROUP_RATES * (g + 1), keys)
    ensures |list| == 4 && forall i :: 0 <= i < 4 ==> list[i] < CELLS && list[i] / MCS_GROUP_RATES <= g
  {
    RanksInRange(list, AllRates, supported, MCS_GROUP_RATES * (g + 1), keys);
  }

  // A rate offered by the next cell is inserted, whatever the keys beyond it.
  lemma RanksNext(list: seq<nat>, kind: Kind, supported: Masks, c: nat, now: seq<Key>, keys: seq<Key>)
    requires Shaped(supported) && c < CELLS && |now| == |keys| == CELLS
    requires Ranks(list, kind, supported, c, keys)
    requires forall e :: 0 <= e <= c ==> now[e] == keys[e]
    requires Offers(kind, supported, c)
    ensures InRange(list, now)
    ensures Ranks(Insert(list, c, now), kind, supported, c + 1, keys)
  {
    hide Insert, InsertPos, TopOf, Pool, Offers;
    RanksInRange(list, kind, supported, c, keys);
    InsertAgrees(list, c, now, keys);
    InsertKeepsTop(list, c, Pool(kind, supported, c), keys);
    PoolNext(kind, supported, c);
  }

  lemma RanksSkip(list: seq<nat>, kind: Kind, supported: Masks, c: nat, keys: seq<Key>)
    requires Shaped(supported) && c < CELLS && Ranks(list, kind, supported, c, keys)
    requires !Offers(kind, supported, c)
    ensures Ranks(list, kind, supported, c + 1, keys)
  {
    hide TopOf, Pool, Offers;
    PoolNext(kind, supported, c);
  }

  // A group without rates leaves everything as it was.
  lemma HalfwaySkip(a: Airtime, supported: Masks, was: seq<Stats>, now: seq<Stats>, lo: nat, hi: nat)
    requires Usable(a) && Caps(supported) && |was| == CELLS && lo <= hi <= CELLS
    requires forall c :: lo <= c < hi ==> !Has(supported, c)
    requires Halfway(a, supported, was, now, lo)
    ensures Halfway(a, supported, was, now, hi)
  {
  }

  lemma {:induction false} RanksSkipTo(list: seq<nat>, kind: Kind, supported: Masks, lo: nat, hi: nat, keys: seq<Key>)
    requires Shaped(supported) && lo <= hi <= CELLS && Ranks(list, kind, supported, lo, keys)
    requires forall c :: lo <= c < hi ==> !Has(supported, c)
    ensures Ranks(list, kind, supported, hi, keys)
    decreases hi
  {
    hide Ranks;
    if lo < hi {
      RanksSkipTo(list, kind, supported, lo, hi - 1, keys);
      RanksSkip(list, kind, supported, hi - 1, keys);
    }
  }

  lemma NoneInGroup(supported: Masks, g: nat)
    requires Shaped(supported) && g < GROUPS && !HasGroup(supported, g)
    ensures forall c :: MCS_GROUP_RATES * g <= c < MCS_GROUP_RATES * (g + 1) ==> !Has(supported, c)
  {
    forall c | MCS_GROUP_RATES * g <= c < MCS_GROUP_RATES * (g + 1)
      ensures !Has(supported, c)
    {
      assert c / MCS_GROUP_RATES == g;
    }
  }

  // ----- The most probable rate -----

  // minstrel_ht_set_best_prob_rate: the new most probable rate of the station and of
  // the group of cell c.
  function BestProb(keys: seq<Key>, topGroup: nat, maxProb: nat, groupProb: nat, c: nat): (r: (nat, nat))
    requires |keys| == CELLS && maxProb < CELLS && groupProb < CELLS && c < CELLS
    ensures r.0 == maxProb || r.0 == c
    ensures r.1 == groupProb || r.1 == c
  {
    if c / MCS_GROUP_RATES == CCK_GROUP && topGroup != CCK_GROUP then (maxProb, groupProb)
    else if keys[c].prob > Percent(75) then
      (if keys[c].tp > keys[maxProb].tp then c else maxProb,
       if keys[c].tp > keys[groupProb].tp then c else groupProb)
    else
      (if keys[c].prob > keys[maxProb].prob then c else maxProb,
       if keys[c].prob > keys[groupProb].prob then c else groupProb)
  }

  lemma ProbIgnoresGroup(keys: seq<Key>, topGroup: nat, maxProb: nat, groupProb: nat, c: nat)
    requires |keys| == CELLS && maxProb < CELLS && groupProb < CELLS && c < CELLS
    ensures BestProb(keys, topGroup, maxProb, groupProb, c).0 == BestProb(keys, topGroup, maxProb, maxProb, c).0
  {
  }

  // The cells halfway through the pass, in closed form.
  function Mid(a: Airtime, supported: Masks, was: seq<Stats>, hi: nat): (r: seq<Stats>)
    requires Usable(a) && Caps(supported) && |was| == CELLS
    ensures |r| == CELLS
    ensures forall c :: 0 <= c < CELLS ==> r[c] == if c < hi then Final(a, supported, was, c) else was[c]
  {
    seq(CELLS, c requires 0 <= c < CELLS => if c < hi then Final(a, supported, was, c) else was[c])
  }

  lemma HalfwayIsMid(a: Airtime, supported: Masks, was: seq<Stats>, now: seq<Stats>, hi: nat)
    requires Usable(a) && Caps(supported) && |was| == CELLS && Halfway(a, supported, was, now, hi)
    ensures now == Mid(a, supported, was, hi)
  {
    hide Final;
  }

  // The rates that may challenge: CCK rates only while the top rate is one.
  predicate Eligible(supported: Masks, topGroup: nat, c: nat)
    requires Shaped(supported) && c < CELLS
  {
    Has(supported, c) && (c / MCS_GROUP_RATES == CCK_GROUP ==> topGroup == CCK_GROUP)
  }

  function Eligibles(supported: Masks, topGroup: nat): (r: seq<bool>)
    requires Shaped(supported)
    ensures |r| == CELLS && forall c :: 0 <= c < CELLS ==> r[c] == Eligible(supported, topGroup, c)
  {
    seq(CELLS, c requires 0 <= c < CELLS => Eligible(supported, topGroup, c))
  }

  // What the challenges of one recomputation depend on.
  ghost function PassOf(a: Airtime, supported: Masks, was: seq<Stats>, topGroup: nat): (p: Pass)
    requires Usable(a) && Started(supported, was)
    ensures Fit(p) && |p.now| == CELLS
  {
    Pass(FinalKeys(a, supported, was), Keys(a, was), Eligibles(supported, topGroup))
  }

  // The most probable rate after the cells below hi.
  ghost function ProbAfter(a: Airtime, supported: Masks, was: seq<Stats>, topGroup: nat, start: nat, hi: nat): (k: nat)
    requires Usable(a) && Started(supported, was) && start < CELLS && hi <= CELLS
    ensures k < CELLS && (k == start || (k < hi && Has(supported, k)))
  {
    Choice(PassOf(a, supported, was, topGroup), start, hi)
  }

  // What a challenger sees is what the cells hold at that moment.
  lemma SeenIsMid(a: Airtime, supported: Masks, was: seq<Stats>, topGroup: nat, k: nat, hi: nat)
    requires Usable(a) && Started(supported, was) && k < CELLS && hi <= CELLS
    ensures Estimable(Mid(a, supported, was, hi))
    ensures Keys(a, Mid(a, supported, was, hi))[k] == Seen(PassOf(a, supported, was, topGroup), k, hi)
  {
    hide Final, FinalKeys, KeyOf;
    HalfwayKeys(a, supported, was, Mid(a, supported, was, hi), hi);
  }

  lemma ChoiceNext(p: Pass, start: nat, c: nat)
    requires Fit(p) && start < |p.now| && c < |p.now|
    ensures var k := Choice(p, start, c);
            Choice(p, start, c + 1) == if p.eligible[c] && Outdoes(p.now[c], Seen(p, k, c + 1)) then c else k
  {
  }

  // Each supported cell issues the challenge of minstrel_ht_set_best_prob_rate.
  lemma ProbNext(a: Airtime, supported: Masks, was: seq<Stats>, topGroup: nat, start: nat, c: nat)
    requires Usable(a) && Started(supported, was) && start < CELLS && c < CELLS
    ensures Estimable(Mid(a, supported, was, c + 1))
    ensures var k := ProbAfter(a, supported, was, topGroup, start, c);
            ProbAfter(a, supported, was, topGroup, start, c + 1) ==
            if Has(supported, c) then BestProb(Keys(a, Mid(a, supported, was, c + 1)), topGroup, k, k, c).0 else k
  {
    hide Final, Keys, FinalKeys, Mid, Estimable, Started, Choice, Seen, Percent;
    var p := PassOf(a, supported, was, topGroup);
    SeenIsMid(a, supported, was, topGroup, ProbAfter(a, supported, was, topGroup, start, c), c + 1);
    SeenIsMid(a, supported, was, topGroup, c, c + 1);
    SeenNow(p, c, c + 1);
    ChoiceNext(p, start, c);
  }

  lemma SeenNow(p: Pass, c: nat, hi: nat)
    requires Fit(p) && c < hi <= |p.now|
    ensures Seen(p, c, hi) == p.now[c]
  {
  }

  // A pass never turns to a CCK rate while the top rate is none.
  lemma CckStaysOut(a: Airtime, supported: Masks, was: seq<Stats>, topGroup: nat, start: nat)
    requires Usable(a) && Started(supported, was) && start < CELLS && topGroup != 4
    ensures var k := ProbAfter(a, supported, was, topGroup, start, CELLS); k == start || k / 10 != 4
  {
  }

  // With no eligible rate above 75%, m the most probable one: the selected rate is as
  // probable unless, exactly, the rate selected before comes after m, its old probability
  // keeps m away and its new one is lower.
  lemma ProbAfterHighest(a: Airtime, supported: Masks, was: seq<Stats>, topGroup: nat, start: nat, m: nat)
    requires Usable(a) && Started(supported, was) && start < CELLS
    requires MostLikely(PassOf(a, supported, was, topGroup), m) && Final(a, supported, was, m).probEwma <= Percent(75)
    ensures var k := ProbAfter(a, supported, was, topGroup, start, CELLS);
            (forall c :: 0 <= c < CELLS && Eligible(supported, topGroup, c) ==>
                           Final(a, supported, was, c).probEwma <= Final(a, supported, was, k).probEwma)
            <==>
            !(m < start &&
              Final(a, supported, was, start).probEwma < Final(a, supported, was, m).probEwma <= was[start].probEwma)
  {
    var p := PassOf(a, supported, was, topGroup);
    FinalsEstimable(a, supported, was);
    assert forall c :: 0 <= c < CELLS ==> p.now[c].prob == Final(a, supported, was, c).probEwma by {
      hide Final, Estimable, TpAvg;
    }
    hide Final, FinalKeys, Keys, Choice, Percent, Eligible;
    HighestIff(p, start, m);
  }

  lemma {:induction false} ProbSkip(a: Airtime, supported: Masks, was: seq<Stats>, topGroup: nat, start: nat,
      lo: nat, hi: nat)
    requires Usable(a) && Started(supported, was) && start < CELLS && lo <= hi <= CELLS
    requires forall c :: lo <= c < hi ==> !Has(supported, c)
    ensures ProbAfter(a, supported, was, topGroup, start, hi) == ProbAfter(a, supported, was, topGroup, start, lo)
    decreases hi
  {
    hide BestProb, Estimable, Final, Sound, ProbAfter;
    if lo < hi {
      ProbSkip(a, supported, was, topGroup, start, lo, hi - 1);
      ProbNext(a, supported, was, topGroup, start, hi - 1);
    }
  }

  // A station with rates 3 and 5 of group 0. Rate 5 was the most probable at 3000 and
  // fails its only try of the interval, rate 3 stands at 2900: the pass keeps rate 5 at
  // its new 2250, below rate 3.
  lemma FallenChoiceStays(a: Airtime, supported: Masks, was: seq<Stats>)
    requires Usable(a) && Started(supported, was)
    requires forall c :: 0 <= c < CELLS ==> Has(supported, c) == (c == 3 || c == 5)
    requires was[3] == ZERO.(attHist := 9, succHist := 9, probEwma := 2900)
    requires was[5] == ZERO.(attempts := 1, attHist := 9, succHist := 9, probEwma := 3000)
    ensures var k := ProbAfter(a, supported, was, 0, 5, CELLS);
            Final(a, supported, was, k).probEwma < Final(a, supported, was, 3).probEwma
    ensures Final(a, supported, was, 3).probEwma == 2900 && Final(a, supported, was, 5).probEwma == 2250
  {
    hide TpAvg, Choice, Measured;
    RecalculatedSound(was[3]);
    RecalculatedSound(was[5]);
    FinalsEstimable(a, supported, was);
    var p := PassOf(a, supported, was, 0);
    assert p.now[3].prob == 2900 && p.now[5].prob == 2250 && p.was[5].prob == 3000;
    OutdatedStays(p, 5, 3, CELLS);
    assert Choice(p, 5, CELLS) == 5;
  }

  // ----- The average aggregate length -----

  // The lengths of statuses are 8-bit, so the quotient fits the signed argument that it
  // is passed as.
  function NewAvg(avg: int, ampduLen: nat, packets: nat): int
    requires packets > 0
  {
    Ewma(avg, Frac(ampduLen, packets))
  }

  // The average goes a quarter of the way to the interval's subframes per status, which
  // are exact below 2^20 subframes.
  lemma AverageMoves(avg: int, ampduLen: nat, packets: nat, q: int)
    requires packets > 0 && ampduLen < 0x10_0000 && q * packets <= SCALE * ampduLen < (q + 1) * packets
    ensures NewAvg(avg, ampduLen, packets) == if q >= avg then avg + (q - avg) / 4 else avg - (avg - q) / 4
  {
    var f := Frac(ampduLen, packets);
    FracExact(ampduLen, packets);
    OneQuotient(f, q, packets, SCALE * ampduLen);
    EwmaMoves(avg, f);
  }

  lemma OneQuotient(f: int, q: int, d: nat, x: nat)
    requires f * d <= x < (f + 1) * d && q * d <= x < (q + 1) * d
    ensures f == q
  {
    OrderedProducts(d, f + 1, q);
    OrderedProducts(d, q + 1, f);
  }

  // The interval's scaled count, which may have wrapped, is large enough for its number
  // of statuses and the average before it.
  predicate KeepsAverage(avg: int, ampduLen: nat, packets: nat) {
    Wrap32(ampduLen * SCALE) >= (4 * SCALE - 3 - 3 * avg) * packets
  }

  // Exactly when one interval leaves an average that can still be divided by.
  lemma AverageUsableIff(avg: nat, ampduLen: nat, packets: nat)
    requires avg >= SCALE && packets > 0 && ampduLen <= 255 * packets
    ensures NewAvg(avg, ampduLen, packets) >= SCALE <==> KeepsAverage(avg, ampduLen, packets)
  {
    hide Ewma, Wrap32;
    var f, least := Frac(ampduLen, packets), 4 * SCALE - 3 - 3 * avg;
    EwmaMoves(avg, f);
    QuotientAtLeast(Wrap32(ampduLen * SCALE), packets, least);
  }

  lemma QuotientAtLeast(x: nat, d: nat, q: int)
    requires d > 0
    ensures x / d >= q <==> x >= q * d
  {
    QuotientFits(x, d);
    if q >= 0 {
      if x >= q * d {
        DivisionBound(x, d, q);
      } else if x / d >= q {
        ScaleUp(d, q, x / d);
      }
    } else {
      assert q * d <= 0;
    }
  }

  // With one to 255 subframes per status the average then stays between one subframe
  // and 255, so it can be divided by.
  lemma AverageStays(avg: nat, ampduLen: nat, packets: nat)
    requires SCALE <= avg <= 255 * SCALE
    requires 0 < packets <= ampduLen <= 255 * packets && KeepsAverage(avg, ampduLen, packets)
    ensures SCALE <= NewAvg(avg, ampduLen, packets) <= 255 * SCALE
  {
    hide Ewma, KeepsAverage;
    var f := Frac(ampduLen, packets);
    AverageUsableIff(avg, ampduLen, packets);
    assert f <= 255 * SCALE by {
      QuotientAtLeast(Wrap32(ampduLen * SCALE), packets, 255 * SCALE + 1);
      assert Wrap32(ampduLen * SCALE) <= ampduLen * SCALE <= 255 * SCALE * packets;
    }
    EwmaMoves(avg, f);
  }

  // Fewer than 2^20 subframes always keep the average.
  lemma FewSubframesKeep(avg: nat, ampduLen: nat, packets: nat)
    requires avg >= SCALE && packets <= ampduLen < 0x10_0000
    ensures KeepsAverage(avg, ampduLen, packets)
  {
    assert Wrap32(ampduLen * SCALE) == ampduLen * SCALE;
    ScaleUp(SCALE, packets, ampduLen);
    assert (4 * SCALE - 3 - 3 * avg) * packets <= SCALE * packets;
  }

  // 4113 aggregates of about 255 subframes each are too many for one interval: their
  // scaled count wraps to zero, and an average of one subframe falls below one, where
  // the estimate divides by zero.
  lemma TooManySubframes(avg: nat, ampduLen: nat, packets: nat)
    requires avg == SCALE && ampduLen == 0x10_0000 && packets == 4113
    ensures packets <= ampduLen <= 255 * packets
    ensures NewAvg(avg, ampduLen, packets) == 3072 && Trunc(3072) == 0
    ensures !KeepsAverage(avg, ampduLen, packets)
  {
  }

  // With one subframe per status the average stays exactly one subframe, unless an
  // interval holds 2^20 statuses, which always leave less than one.
  lemma OneSubframeIff(packets: nat)
    requires packets > 0
    ensures NewAvg(SCALE, packets, packets) >= SCALE <==> packets < 0x10_0000
    ensures packets < 0x10_0000 ==> NewAvg(SCALE, packets, packets) == SCALE
  {
    AverageUsableIff(SCALE, packets, packets);
    hide Frac;
    if packets < 0x10_0000 {
      FracExact(packets, packets);
      ExactlyOne(Frac(packets, packets), packets);
      EwmaMoves(SCALE, SCALE);
    }
  }

  lemma ExactlyOne(f: nat, packets: nat)
    requires packets > 0 && f * packets <= packets * SCALE < (f + 1) * packets
    ensures f == SCALE
  {
    OrderedProducts(packets, f + 1, SCALE);
    OrderedProducts(packets, SCALE + 1, f);
  }

  lemma OrderedProducts(q: nat, d: int, e: int)
    ensures d <= e ==> q * d <= q * e
  {
  }
}
