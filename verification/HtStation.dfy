/** An HT/VHT station of the rate controller: its cells of statistics, its groups, the
    rates it has chosen and its sampling state, updated in place by every operation. */
module HtStation {
  import opened FixedPoint
  import opened RateStats
  import opened Ranking
  import opened HtRates
  import opened HtModel
  import opened HtFeedback
  import opened SampleCursor
  import opened HtSampler
  import HtSeek
  import HtSampling
  import Retransmit
  import SampleTable

  // struct minstrel_mcs_group_data without its rates, which are cells of the station.
  datatype GroupData = GroupData(index: nat, column: nat, maxGroupTp: seq<nat>, maxGroupProb: nat)

  // One slot of the rate table handed to the hardware.
  datatype Slot = Slot(idx: int, count: nat, countCts: nat, countRts: nat, flags: RateFlags)

  // The groups below hi that have rates rank the cells up to their own, the others are
  // as they were, and no cursor has moved.
  ghost predicate GroupsRanked(supported: Masks, was: seq<GroupData>, now: seq<GroupData>, hi: nat, keys: seq<Key>)
    requires Shaped(supported)
  {
    && |was| == |now| == GROUPS
    && forall h :: 0 <= h < GROUPS ==>
                     && now[h].index == was[h].index && now[h].column == was[h].column
                     && if h < hi && HasGroup(supported, h)
                        then Ranks(now[h].maxGroupTp, AllRates, supported, MCS_GROUP_RATES * (h + 1), keys)
                        else now[h] == was[h]
  }

  lemma GroupsRankedStart(supported: Masks, was: seq<GroupData>, keys: seq<Key>)
    requires Shaped(supported) && |was| == GROUPS
    ensures GroupsRanked(supported, was, was, 0, keys)
  {
  }

  lemma GroupsRankedNext(supported: Masks, was: seq<GroupData>, now: seq<GroupData>, g: nat, keys: seq<Key>,
      list: seq<nat>, prob: nat)
    requires Shaped(supported) && g < GROUPS && GroupsRanked(supported, was, now, g, keys)
    requires HasGroup(supported, g) && Ranks(list, AllRates, supported, MCS_GROUP_RATES * (g + 1), keys)
    ensures GroupsRanked(supported, was, now[g := now[g].(maxGroupProb := prob, maxGroupTp := list)], g + 1, keys)
  {
    hide Ranks, HasGroup;
  }

  lemma GroupsRankedSkip(supported: Masks, was: seq<GroupData>, now: seq<GroupData>, g: nat, keys: seq<Key>)
    requires Shaped(supported) && g < GROUPS && GroupsRanked(supported, was, now, g, keys)
    requires !HasGroup(supported, g)
    ensures GroupsRanked(supported, was, now, g + 1, keys)
  {
    hide Ranks, HasGroup;
  }

  lemma CountStep(supported: Masks, g: nat)
    requires Shaped(supported) && g < GROUPS
    ensures multiset(Flags(supported)[..0])[true] == 0
    ensures multiset(Flags(supported)[..g + 1])[true] ==
            multiset(Flags(supported)[..g])[true] + if HasGroup(supported, g) then 1 else 0
  {
    assert Flags(supported)[..g + 1] == Flags(supported)[..g] + [HasGroup(supported, g)];
  }

  // Every supported cell has counted exactly what the status reports for it.
  ghost predicate CountsReported(s: Status, cckRates: seq<nat>, supported: Masks, was: seq<Stats>, now: seq<Stats>)
    requires WellFormed(s, cckRates, supported)
  {
    && |was| == |now| == CELLS
    && forall c :: 0 <= c < CELLS && Has(supported, c) ==>
                     var es := CellReports(s, cckRates, supported, c);
                     && Grew(Counted(was[c]), Counted(now[c]), Tried(es))
                     && Grew(Succeeded(was[c]), Succeeded(now[c]), Acked(es))
  }

  // Neither a recomputation nor new retry counts lose or add to what was counted.
  lemma StatusConserves(s: Status, cckRates: seq<nat>, supported: Masks, a: Airtime, was: seq<Stats>, now: seq<Stats>)
    requires WellFormed(s, cckRates, supported) && Caps(supported) && Usable(a) && Estimable(was)
    requires forall c :: 0 <= c < CELLS ==>
                           if Has(supported, c) then Sound(was[c]) && was[c].attempts + ROOM < TWO32
                           else was[c].probEwma == 0 && was[c].tpAvg == 0
    requires var taken := TakenAll(s, cckRates, supported, was);
             AllButRetry(taken, now) || AllButRetry(Finals(a, supported, taken), now)
    ensures CountsReported(s, cckRates, supported, was, now)
  {
    FourRates(s, cckRates, supported);
    hide WellFormed, ChainLength, Run, Final, Estimable, Sound, Grew, Subframes, Taken, Reports;
    var taken := TakenAll(s, cckRates, supported, was);
    StatusStarts(s, cckRates, supported, was);
    forall c | 0 <= c < CELLS && Has(supported, c)
      ensures Grew(Counted(was[c]), Counted(now[c]), Tried(CellReports(s, cckRates, supported, c)))
      ensures Grew(Succeeded(was[c]), Succeeded(now[c]), Acked(CellReports(s, cckRates, supported, c)))
    {
      TakenSound(s, cckRates, supported, was, c);
      SettledGrew(a, supported, was[c], taken, now[c], CellReports(s, cckRates, supported, c), c);
    }
  }

  // What one cell counted before a status, after its reports were taken in, and at the end.
  lemma SettledGrew(a: Airtime, supported: Masks, was: Stats, taken: seq<Stats>, now: Stats, es: seq<Event>, c: nat)
    requires Usable(a) && Started(supported, taken) && c < CELLS && Has(supported, c)
    requires Counted(taken[c]) == Counted(was) + Tried(es) && Succeeded(taken[c]) == Succeeded(was) + Acked(es)
    requires var t := Final(a, supported, taken, c);
             || (Counted(now) == Counted(taken[c]) && Succeeded(now) == Succeeded(taken[c]))
             || (Counted(now) == Counted(t) && Succeeded(now) == Succeeded(t))
    ensures Grew(Counted(was), Counted(now), Tried(es)) && Grew(Succeeded(was), Succeeded(now), Acked(es))
  {
    FinalConserves(a, supported, taken, c);
    hide *;
    ExactlyGrew(Counted(was), Counted(taken[c]), Counted(now), Tried(es));
    ExactlyGrew(Succeeded(was), Succeeded(taken[c]), Succeeded(now), Acked(es));
  }

  lemma ExactlyGrew(was: nat, mid: nat, now: nat, added: nat)
    requires mid == was + added && (now == mid || Grew(mid, now, 0))
    ensures Grew(was, now, added)
  {
    assert Grew(was, mid, added);
    if now != mid {
      GrewTwice(was, mid, now, added, 0);
    }
  }

  lemma StatusStarts(s: Status, cckRates: seq<nat>, supported: Masks, was: seq<Stats>)
    requires WellFormed(s, cckRates, supported) && Caps(supported) && Estimable(was)
    requires forall c :: 0 <= c < CELLS ==>
                           if Has(supported, c) then Sound(was[c]) && was[c].attempts + ROOM < TWO32
                           else was[c].probEwma == 0 && was[c].tpAvg == 0
    ensures Started(supported, TakenAll(s, cckRates, supported, was))
  {
    hide WellFormed, ChainLength, Run, Estimable, Taken, Subframes, Started;
    TakenInOrder(s, cckRates, supported, was, TWO32);
  }

  // A rate is dying when fewer than a fifth of more than thirty attempts succeeded.
  predicate Dying(s: Stats) {
    s.attempts > 30 && Frac(s.success, s.attempts) < Percent(20)
  }

  // In numbers: the scaled successes, as far as they fit 32 bits, against 819/4096 of the
  // attempts.
  lemma DyingIff(s: Stats)
    requires Sound(s)
    ensures Dying(s) <==> s.attempts > 30 && 4096 * s.success % 0x1_0000_0000 < 819 * s.attempts
    ensures s.success < 0x10_0000 ==> (Dying(s) <==> s.attempts > 30 && 4096 * s.success < 819 * s.attempts)
  {
    hide Sound;
    if s.attempts > 0 {
      QuotientAtLeast(Wrap32(s.success * SCALE), s.attempts, 819);
    }
  }

  // One of the station's rates after the check for sudden death.
  function AfterCheck(supported: Masks, lists: seq<seq<nat>>, stats: seq<Stats>, idx: nat, primary: bool): (r: nat)
    requires |stats| == CELLS && idx < CELLS && ListsDescend(supported, lists)
    ensures r < CELLS
  {
    if Dying(stats[idx]) then Downgraded(supported, lists, idx, primary) else idx
  }

  // Every entry of a station's list has a duration.
  lemma ContendersNamed(list: seq<nat>, supported: Masks, keys: seq<Key>)
    requires Caps(supported) && |keys| == CELLS && TopOf(list, Contenders(supported, keys), keys)
    ensures forall i :: 0 <= i < |list| ==> Named(list[i])
  {
    forall i | 0 <= i < |list|
      ensures Named(list[i])
    {
      assert list[i] in multiset(list);
      assert list[i] in Contenders(supported, keys);
      assert list[i] == 0 || Has(supported, list[i]);
    }
  }

  lemma RanksNamed(list: seq<nat>, supported: Masks, hi: nat, keys: seq<Key>)
    requires Caps(supported) && hi <= CELLS && |keys| == CELLS && Ranks(list, AllRates, supported, hi, keys)
    ensures |list| == 4 && forall i :: 0 <= i < 4 ==> Named(list[i])
  {
    hide TopOf;
    RanksInRange(list, AllRates, supported, hi, keys);
  }

  // The outcome of a request for a sample: none, or a cell to try, in the first or the
  // second slot of the retry chain, with its hardware encoding.
  datatype Sample = NoSample | Sampled(cell: nat, slot: nat, rate: TxRate)

  function CellDuration(c: nat): nat
    requires c < CELLS
  {
    Duration(c / MCS_GROUP_RATES, c % MCS_GROUP_RATES)
  }

  // Of two rates the one with the shorter frames, and the other one.
  function Faster(a: nat, b: nat): nat
    requires a < CELLS && b < CELLS
  {
    if CellDuration(a) > CellDuration(b) then b else a
  }

  function Slower(a: nat, b: nat): nat
    requires a < CELLS && b < CELLS
  {
    if CellDuration(a) > CellDuration(b) then a else b
  }

  // A slow sample goes to the second slot when the link works well. The stream counts
  // are unsigned, so a best rate without streams never passes the comparison.
  predicate Indirect(best: nat, slower: nat, maxProb: nat, cell: nat, prob: nat)
    requires best < CELLS && slower < CELLS && maxProb < CELLS && cell < CELLS
  {
    var streams := Streams(best / MCS_GROUP_RATES);
    && CellDuration(cell) >= CellDuration(slower)
    && ((streams > 0 && streams - 1 < Streams(cell / MCS_GROUP_RATES)) || CellDuration(cell) >= CellDuration(maxProb))
    && best % MCS_GROUP_RATES > cell % MCS_GROUP_RATES + 1
    && prob > Percent(70)
  }

  // The sample made of a drawn rate. The probability is that of the drawn rate in the
  // group that was current before any search, as in the source.
  function SampleOf(stats: seq<Stats>, tp0: nat, tp1: nat, maxProb: nat, first: nat, group: nat, idx: nat,
      cckRates: seq<nat>): Sample
    requires |stats| == CELLS && tp0 < CELLS && tp1 < CELLS && maxProb < CELLS && |cckRates| == 4
    requires first < GROUPS && group < GROUPS && idx < MCS_GROUP_RATES
  {
    var best := Faster(tp0, tp1);
    var mcs := HtSampling.Clipped(best, idx);
    var cell := Cell(group, mcs);
    if cell == tp0 || cell == maxProb then NoSample
    else
      var indirect := Indirect(best, Slower(tp0, tp1), maxProb, cell, stats[Cell(first, idx)].probEwma);
      Sampled(cell, if indirect then 1 else 0, TxRate(EncodeIdx(group, mcs, cckRates), GroupFlags(group), 1))
  }

  // Which rate is sampled, and where. Of the two best rates best is the one with the
  // shorter frames. A drawn rate more than one index above it is brought down to the next
  // odd index. The most probable rate and the first of the two are never
  // sampled. A sample goes to the second slot exactly if it is no faster than the other
  // best rate, uses no fewer streams than the best one or is no faster than the most
  // probable one, lies more than one index below the best, and was drawn at more than 70%.
  lemma SampleIs(stats: seq<Stats>, tp0: nat, tp1: nat, maxProb: nat, first: nat, group: nat, idx: nat,
                 cckRates: seq<nat>) returns (best: nat, other: nat, rate: nat)
    requires |stats| == CELLS && tp0 < CELLS && tp1 < CELLS && maxProb < CELLS && |cckRates| == 4
    requires first < GROUPS && group < GROUPS && idx < MCS_GROUP_RATES
    ensures (best == tp0 && other == tp1) || (best == tp1 && other == tp0)
    ensures CellDuration(best) < CellDuration(other) || (CellDuration(best) == CellDuration(other) && best == tp0)
    ensures rate < 10 && (idx <= best % 10 + 1 ==> rate == idx)
    ensures idx > best % 10 + 1 ==> best % 10 < rate <= best % 10 + 2 && rate % 2 == 1
    ensures var r, c := SampleOf(stats, tp0, tp1, maxProb, first, group, idx, cckRates), 10 * group + rate;
            && (r.NoSample? <==> c == tp0 || c == maxProb)
            && (r.Sampled? ==>
                  && r.cell == c && r.slot <= 1 && r.rate.count == 1
                  && (r.slot == 1 <==>
                      && CellDuration(c) >= CellDuration(other)
                      && ((best / 10 != 4 && group != 4) || CellDuration(c) >= CellDuration(maxProb))
                      && rate + 1 < best % 10
                      && stats[10 * first + idx].probEwma > 2867))
  {
    hide Duration, EncodeIdx, GroupFlags;
    best, other, rate := Faster(tp0, tp1), Slower(tp0, tp1), HtSampling.Clipped(Faster(tp0, tp1), idx);
  }

  // What minstrel_init_start_stats does to a cell of a supported group of the given
  // bandwidth: the expected rate and rate 2 start with a few successes.
  function Restarted(supported: Masks, bw: nat, maxRate: nat, s: Stats, c: nat): Stats
    requires Shaped(supported) && c < CELLS && maxRate < MCS_GROUP_RATES
  {
    var g := c / MCS_GROUP_RATES;
    if GroupBandwidth(g) != bw || !supported[g][maxRate] then s
    else if c % MCS_GROUP_RATES == 2 then StartedLow(s)
    else if c % MCS_GROUP_RATES == maxRate then StartedTop(s)
    else s
  }

  function GroupBandwidth(g: nat): nat
    requires g < GROUPS
  {
    Bandwidth(GroupFlags(g))
  }

  // In numbers: in the groups of the bandwidth that support the expected rate, that rate
  // starts with two successes of two and rate 2 with one of one, which also holds when
  // both are the same. Every other cell, and every other field, stays.
  lemma RestartedIs(supported: Masks, bw: nat, maxRate: nat, s: Stats, g: nat, i: nat)
    requires Shaped(supported) && g < GROUPS && i < MCS_GROUP_RATES && maxRate < MCS_GROUP_RATES
    ensures var starts := supported[g][maxRate] &&
                          bw == (if g in {9, 10} then 2 else if g in {2, 3, 7, 8} then 1 else 0);
            Restarted(supported, bw, maxRate, s, 10 * g + i) ==
            if starts && i == 2 then s.(attempts := 1, success := 1, attHist := 1, succHist := 1)
            else if starts && i == maxRate then s.(attempts := 2, success := 2, attHist := 3, succHist := 3)
            else s
  {
    GroupsInOrder(g);
  }

  // What minstrel_clear_unfitable_rate_stats does to a cell.
  function Unfit(supported: Masks, rateIndex: nat, s: Stats, c: nat): Stats
    requires Shaped(supported) && c < CELLS
  {
    if Has(supported, c) && c % MCS_GROUP_RATES >= rateIndex + 2 then Cleared(s) else s
  }

  // The two cells differ at most in what minstrel_calc_retransmit writes.
  predicate SameButRetry(s: Stats, t: Stats) {
    s.(retryCount := t.retryCount, retryCountRtscts := t.retryCountRtscts, retryUpdated := t.retryUpdated) == t
  }

  predicate AllButRetry(was: seq<Stats>, now: seq<Stats>) {
    |was| == |now| && forall c :: 0 <= c < |was| ==> SameButRetry(was[c], now[c])
  }

  // The cells agree in what a slot of the rate table depends on.
  predicate KeepsSlots(s: Stats, t: Stats) {
    s.probEwma == t.probEwma && s.retryCount == t.retryCount && s.retryCountRtscts == t.retryCountRtscts
  }

  predicate AllKeepSlots(was: seq<Stats>, now: seq<Stats>) {
    |was| == |now| && forall c :: 0 <= c < |was| ==> KeepsSlots(was[c], now[c])
  }

  lemma ButRetry(was: seq<Stats>, mid: seq<Stats>, now: seq<Stats>)
    requires AllButRetry(was, mid) && AllButRetry(mid, now)
    ensures AllButRetry(was, now)
  {
  }

  lemma ButRetrySelf(was: seq<Stats>)
    ensures AllButRetry(was, was)
  {
  }

  // New retry counts change no estimate.
  lemma KeysAfter(a: Airtime, was: seq<Stats>, now: seq<Stats>)
    requires Usable(a) && Estimable(was) && Estimable(now) && AllButRetry(was, now)
    ensures Keys(a, was) == Keys(a, now)
  {
    hide TpAvg, Listed;
    assert forall c :: 0 <= c < CELLS ==> was[c].probEwma == now[c].probEwma by {
      assert forall c :: 0 <= c < CELLS ==> SameButRetry(was[c], now[c]);
    }
  }

  lemma {:induction false} StepDownAfter(was: seq<Stats>, now: seq<Stats>, g: nat, i: nat)
    requires |was| == CELLS && AllButRetry(was, now) && g < GROUPS && i < MCS_GROUP_RATES
    ensures StepDown(was, g, i) == StepDown(now, g, i)
    decreases i
  {
    assert SameButRetry(was[Cell(g, i)], now[Cell(g, i)]);
    if i > 0 {
      StepDownAfter(was, now, g, i - 1);
    }
  }

  lemma RobustAfter(was: seq<Stats>, now: seq<Stats>, tp0: nat, maxProb: nat)
    requires |was| == CELLS && tp0 < CELLS && AllButRetry(was, now) && Robust(was, tp0, maxProb)
    ensures Robust(now, tp0, maxProb)
  {
  }

  // The slot that minstrel_ht_set_rate writes for a rate with these statistics. Slots
  // after the first use protection.
  function SlotFor(s: Stats, offset: nat, index: nat, cckRates: seq<nat>): Slot
    requires index < CELLS && |cckRates| == 4
  {
    var g := index / MCS_GROUP_RATES;
    var poor := s.probEwma < Percent(20) || s.retryCount == 0;
    var count, rts := if poor then 2 else s.retryCount, if poor then 2 else s.retryCountRtscts;
    Slot(EncodeIdx(g, index % MCS_GROUP_RATES, cckRates), if offset > 0 then rts else count, count, rts,
         GroupFlags(g).(useRtsCts := offset > 0))
  }

  // In numbers: a rate below 20% or without a retry count gets two tries. Any other one
  // gets as many as planned, and those with protection in every slot but the first.
  lemma SlotIs(s: Stats, offset: nat, index: nat, cckRates: seq<nat>)
    requires index < CELLS && |cckRates| == 4
    ensures var slot := SlotFor(s, offset, index, cckRates);
            && slot.flags.useRtsCts == (offset >= 1)
            && slot.flags.(useRtsCts := false) == GroupFlags(index / MCS_GROUP_RATES)
            && (s.probEwma < 819 || s.retryCount == 0 ==> slot.count == slot.countCts == slot.countRts == 2)
            && (s.probEwma >= 819 && s.retryCount > 0 ==>
                  && slot.count == (if offset == 0 then s.retryCount else s.retryCountRtscts)
                  && slot.countCts == s.retryCount && slot.countRts == s.retryCountRtscts)
  {
    GroupsInOrder(index / MCS_GROUP_RATES);
    hide EncodeIdx, GroupFlags;
  }

  // What the retry counts of a cell must be.
  ghost predicate Planned(l: Retransmit.Link, s: Stats, overhead: nat, overheadRtscts: nat, data: nat) {
    if s.probEwma < Percent(10) then s.retryCount == s.retryCountRtscts == 1
    else
      && Retransmit.Largest(l, overhead + data, if l.maxRetry > 3 then l.maxRetry else 3, s.retryCount)
      && Retransmit.Largest(l, overheadRtscts + data, s.retryCount, s.retryCountRtscts)
  }

  // The average aggregate length and the two counters that it will be updated from.
  datatype Load = Load(avg: int, len: nat, packets: nat)

  function LoadAfter(s: Status, l: Load): Load {
    if Ignored(s) then l
    else if !s.expired then Load(l.avg, l.len + Subframes(s), l.packets + 1)
    else Load(NewAvg(l.avg, l.len + Subframes(s), l.packets + 1), 0, 0)
  }

  datatype View = View(
    rates: seq<Stats>, groups: seq<GroupData>, lists: seq<seq<nat>>, tp: seq<nat>, prob: nat, slots: seq<Slot>,
    load: Load, budget: HtSampling.Budget)

  // New retry counts would be the same.
  predicate Settled(s: Stats) {
    s.retryUpdated || (s.probEwma < Percent(10) && s.retryCount == s.retryCountRtscts == 1)
  }

  class Station {
    const supported: Masks
    const table: seq<seq<nat>>
    const cckRates: seq<nat>
    const link: Retransmit.Link
    const maxRates: nat
    const overhead: nat
    const overheadRtscts: nat

    const rates: array<Stats>
    const groups: array<GroupData>
    const maxTp: array<nat>
    const rateTable: array<Slot>
    var maxProb: nat
    var ampduLen: nat
    var ampduPackets: nat
    var avgAmpduLen: nat
    var sampleWait: nat
    var sampleTries: nat
    var sampleCount: nat
    var sampleGroup: nat

    // What is fixed when the station is set up.
    ghost predicate Configured() {
      && rates.Length == CELLS && groups.Length == GROUPS && maxTp.Length == 4 && rateTable.Length == 4
      && Shaped(supported) && Caps(supported) && true in Flags(supported)
      && |cckRates| == 4
      && |table| == SampleTable.SAMPLE_COLUMNS && Fair(table, MCS_GROUP_RATES)
      && overhead <= overheadRtscts && 1000 * overhead < TWO32
    }

    function Air(): Airtime
      reads `avgAmpduLen
    {
      Airtime(overhead, avgAmpduLen)
    }

    // Probabilities are in range, supported cells are sound, others are untouched.
    ghost predicate StatsOk()
      reads rates
    {
      && Configured()
      && Estimable(rates[..])
      && forall c :: 0 <= c < CELLS ==>
                       if Has(supported, c) then Sound(rates[c]) else rates[c].probEwma == 0 && rates[c].tpAvg == 0
    }

    // The average aggregate length can be divided by, and the interval's counts fit.
    ghost predicate AirOk()
      reads `avgAmpduLen, `ampduLen, `ampduPackets
    {
      && Configured()
      && SCALE <= avgAmpduLen <= 255 * SCALE
      && ampduPackets <= ampduLen <= 255 * ampduPackets
    }

    function Lists(): (r: seq<seq<nat>>)
      reads groups
      ensures |r| == groups.Length
      ensures forall g :: 0 <= g < groups.Length ==> r[g] == groups[g].maxGroupTp
    {
      seq(groups.Length, g requires 0 <= g < groups.Length reads groups => groups[g].maxGroupTp)
    }

    // The sampling cursors of the groups.
    function Cursors(): (r: seq<Cursor>)
      reads groups
      ensures |r| == groups.Length
      ensures forall g :: 0 <= g < groups.Length ==> r[g] == Cursor(groups[g].index, groups[g].column)
    {
      seq(groups.Length, g requires 0 <= g < groups.Length reads groups => Cursor(groups[g].index, groups[g].column))
    }

    // Every stored rate index names a cell.
    ghost predicate NamesOk()
      reads `maxProb, maxTp, groups
    {
      && Configured()
      && (forall i :: 0 <= i < 4 ==> maxTp[i] < CELLS)
      && maxProb < CELLS
      && forall g :: 0 <= g < GROUPS ==> groups[g].maxGroupProb < CELLS
    }

    ghost predicate ListsOk()
      reads groups
    {
      Configured() && ListsDescend(supported, Lists())
    }

    // Every stored rate index has a duration.
    ghost predicate NamedOk()
      reads `maxProb, maxTp, groups
    {
      && Configured()
      && (forall i :: 0 <= i < 4 ==> Named(maxTp[i]))
      && Named(maxProb)
      && ListsNamed(Lists())
    }

    // The attempts of an interval are bounded by the subframes of its statuses.
    ghost predicate LoadOk()
      reads `ampduLen, rates
    {
      Configured() && forall c :: 0 <= c < CELLS && Has(supported, c) ==> rates[c].attempts <= 765 * ampduLen + 2
    }

    ghost predicate CursorsOk()
      reads `sampleGroup, groups
    {
      && Configured()
      && sampleGroup < GROUPS
      && forall g :: 0 <= g < GROUPS ==>
                       groups[g].index < MCS_GROUP_RATES && groups[g].column < SampleTable.SAMPLE_COLUMNS
    }

    ghost predicate Valid()
      reads this, rates, groups, maxTp
    {
      StatsOk() && AirOk() && NamesOk() && ListsOk() && CursorsOk() && NamedOk() && LoadOk()
    }

    // No interval counter of a supported rate is about to overflow.
    ghost predicate CountersFit(room: nat)
      requires Configured()
      reads rates
    {
      forall c :: 0 <= c < CELLS && Has(supported, c) ==> rates[c].attempts + room < TWO32
    }

    // The aggregate counters have room for a status of len subframes and, if it ends the
    // interval, leave an average that can be divided by.
    predicate AverageFits(len: nat, expired: bool)
      reads `avgAmpduLen, `ampduLen, `ampduPackets
    {
      && ampduLen + len < TWO32
      && (expired ==> KeepsAverage(avgAmpduLen, ampduLen + len, ampduPackets + 1))
    }

    // The subframes of the interval leave room for a status.
    lemma Roomy(len: nat, expired: bool)
      requires Valid() && len <= 255 && 765 * ampduLen + 2 + ROOM < TWO32
      requires expired ==> KeepsAverage(avgAmpduLen, ampduLen + len, ampduPackets + 1)
      ensures CountersFit(ROOM) && AverageFits(len, expired)
    {
      hide StatsOk, NamesOk, ListsOk, CursorsOk, NamedOk, Caps, Fair, KeepsAverage;
    }

    ghost function KeysNow(): (keys: seq<Key>)
      requires Configured() && Usable(Air()) && Estimable(rates[..])
      reads `avgAmpduLen, rates
      ensures |keys| == CELLS
    {
      Keys(Air(), rates[..])
    }

    // minstrel_ht_update_caps for a station with HT rates: everything is zero, then the
    // statistics are recomputed and the rate table written.
    constructor (supported: Masks, table: seq<seq<nat>>, cckRates: seq<nat>, link: Retransmit.Link, maxRates: nat,
        hasMrr: bool)
      requires Shaped(supported) && Caps(supported) && true in Flags(supported)
      requires |table| == SampleTable.SAMPLE_COLUMNS && Fair(table, MCS_GROUP_RATES) && |cckRates| == 4
      ensures fresh(rates) && fresh(groups) && fresh(maxTp) && fresh(rateTable)
      ensures this.supported == supported && this.table == table && this.cckRates == cckRates && this.link == link
      ensures Valid() && Robust(rates[..], maxTp[0], maxProb) && TableWritten()
      ensures avgAmpduLen == SCALE && ampduLen == ampduPackets == 0 && overhead == 108 && overheadRtscts == 228
      ensures this.maxRates == maxRates
      ensures BudgetNow() == HtSampling.Budget(if hasMrr then 0 else 8, 4, 10 * multiset(Flags(supported))[true])
      ensures SamplerNow() == Sampler(0, seq(GROUPS, g => Cursor(0, 0)))
    {
      hide OfdmDuration, Caps, Fair, Flags, Valid, Robust, TableWritten;
      OverheadFrames();
      this.supported, this.table, this.cckRates, this.link, this.maxRates := supported, table, cckRates, link, maxRates;
      var ackDur := OfdmDuration(10, 60);
      var frameDur := OfdmDuration(0, 60);
      overhead := frameDur + ackDur;
      overheadRtscts := frameDur + ackDur + 2 * ackDur;
      rates := new Stats[CELLS];
      groups := new GroupData[GROUPS];
      maxTp := new nat[4];
      rateTable := new Slot[4];
      maxProb := 0;
      ampduLen, ampduPackets, avgAmpduLen := 0, 0, SCALE;
      sampleCount, sampleWait := if hasMrr then 32 else 8, if hasMrr then 0 else 8;
      sampleTries, sampleGroup := 4, 0;
      new;
      Clear();
      FirstUpdate();
    }

    // The memset of minstrel_ht_update_caps.
    method Clear()
      requires Configured()
      modifies rates, groups, maxTp
      ensures forall c :: 0 <= c < CELLS ==> rates[c] == ZERO
      ensures forall g :: 0 <= g < GROUPS ==> groups[g] == GroupData(0, 0, ZEROS, 0)
      ensures forall i :: 0 <= i < 4 ==> maxTp[i] == 0
    {
      forall c | 0 <= c < CELLS {
        rates[c] := ZERO;
      }
      forall g | 0 <= g < GROUPS {
        groups[g] := GroupData(0, 0, ZEROS, 0);
      }
      forall i | 0 <= i < 4 {
        maxTp[i] := 0;
      }
    }

    // The last lines of minstrel_ht_update_caps.
    method FirstUpdate()
      requires Configured() && AirOk() && ampduLen == ampduPackets == 0
      requires forall c :: 0 <= c < CELLS ==> rates[c] == ZERO
      requires forall g :: 0 <= g < GROUPS ==> groups[g] == GroupData(0, 0, ZEROS, 0)
      requires (forall i :: 0 <= i < 4 ==> maxTp[i] == 0) && maxProb == 0 && sampleGroup == 0
      modifies this, rates, groups, maxTp, rateTable
      ensures Valid() && Robust(rates[..], maxTp[0], maxProb) && TableWritten() && exists top: seq<nat> :: Uses(top)
      ensures avgAmpduLen == old(avgAmpduLen) && ampduLen == ampduPackets == 0
      ensures BudgetNow() == old(BudgetNow()).(count := 10 * multiset(Flags(supported))[true])
      ensures SamplerNow() == Sampler(0, seq(GROUPS, g => Cursor(0, 0)))
    {
      Initial();
      hide Caps, Fair, Flags, ListsDescend, Sound, Estimable, Robust, TableWritten, Finals, AllButRetry, NamesOk,
           ListsOk, CursorsOk, NamedOk, LoadOk, KeepsAverage, Selected;
      Settle(false, true);
    }

    lemma Initial()
      requires Configured() && AirOk()
      requires forall c :: 0 <= c < CELLS ==> rates[c] == ZERO
      requires forall g :: 0 <= g < GROUPS ==> groups[g] == GroupData(0, 0, ZEROS, 0)
      requires (forall i :: 0 <= i < 4 ==> maxTp[i] == 0) && maxProb == 0 && sampleGroup == 0
      ensures Valid()
      ensures Cursors() == seq(GROUPS, g => Cursor(0, 0))
    {
      hide Caps, Fair, HasGroup;
      assert forall c :: 0 <= c < CELLS ==> rates[..][c] == ZERO;
    }

    // ----- Recomputing the statistics -----

    // The throughput and probability of a cell.
    method Estimate(c: nat) returns (tp: nat, prob: nat)
      requires Configured() && Usable(Air()) && Estimable(rates[..]) && c < CELLS
      ensures KeysNow()[c] == Key(tp, prob)
    {
      assert rates[c] == rates[..][c];
      prob := rates[c].probEwma;
      tp := TpAvg(Air(), c / MCS_GROUP_RATES, c % MCS_GROUP_RATES, prob);
    }

    // The scan of minstrel_ht_sort_best_tp_rates, from the back of the list.
    method FindPos(index: nat, curTp: nat, curProb: nat, tpList: array<nat>) returns (j: nat)
      requires Configured() && Usable(Air()) && Estimable(rates[..])
      requires tpList.Length == 4 && index < CELLS && InRange(tpList[..], KeysNow())
      requires KeysNow()[index] == Key(curTp, curProb)
      ensures j == InsertPos(tpList[..], index, KeysNow())
    {
      hide TpAvg, Caps, Keys, KeyOf, Estimable;
      ghost var list, keys := tpList[..], KeysNow();
      j := 4;
      assert list[..4] == list;
      while j > 0
        invariant 0 <= j <= 4
        invariant InsertPos(list, index, keys) == InsertPos(list[..j], index, keys)
      {
        assert tpList[j - 1] == list[j - 1] && list[..j][..j - 1] == list[..j - 1];
        var tmpTp, tmpProb := Estimate(tpList[j - 1]);
        if curTp < tmpTp || (curTp == tmpTp && curProb <= tmpProb) {
          return;
        }
        j := j - 1;
      }
    }

    // minstrel_ht_sort_best_tp_rates.
    method SortBest(index: nat, tpList: array<nat>)
      requires Configured() && Usable(Air()) && Estimable(rates[..])
      requires tpList.Length == 4 && tpList != maxTp && index < CELLS
      requires InRange(tpList[..], KeysNow())
      modifies rates, tpList
      ensures rates[..] == old(rates[..][index := rates[index].(tpAvg := KeysNow()[index].tp)])
      ensures tpList[..] == Insert(old(tpList[..]), index, old(KeysNow()))
    {
      hide TpAvg, Caps, Keys, KeyOf, Estimable, InsertPos;
      ghost var list := tpList[..];
      var curTp, curProb := Estimate(index);
      var j := FindPos(index, curTp, curProb, tpList);
      rates[index] := rates[index].(tpAvg := curTp);
      if j < 3 {
        forall k | j < k < 4 {
          tpList[k] := tpList[k - 1];
        }
      }
      if j < 4 {
        tpList[j] := index;
        assert tpList[..] == list[..j] + [index] + list[j..3];
      }
    }

    // minstrel_ht_set_best_prob_rate.
    method SetBestProb(index: nat)
      requires Configured() && Usable(Air()) && Estimable(rates[..]) && NamesOk() && index < CELLS
      modifies `maxProb, groups
      ensures var g := index / MCS_GROUP_RATES;
              var best := BestProb(old(KeysNow()), maxTp[0] / MCS_GROUP_RATES,
                                   old(maxProb), old(groups[g].maxGroupProb), index);
              && maxProb == best.0
              && groups[..] == old(groups[..][g := groups[g].(maxGroupProb := best.1)])
    {
      hide TpAvg, Caps, Keys, KeyOf, Estimable;
      var g := index / MCS_GROUP_RATES;
      var tmpTp, tmpProb := Estimate(maxProb);
      if g == CCK_GROUP && maxTp[0] / MCS_GROUP_RATES != CCK_GROUP {
        return;
      }
      var maxGprTp, maxGprProb := Estimate(groups[g].maxGroupProb);
      var curTp, curProb := Estimate(index);
      if curProb > Percent(75) {
        if curTp > tmpTp {
          maxProb := index;
        }
        if curTp > maxGprTp {
          groups[g] := groups[g].(maxGroupProb := index);
        }
      } else {
        if curProb > tmpProb {
          maxProb := index;
        }
        if curProb > maxGprProb {
          groups[g] := groups[g].(maxGroupProb := index);
        }
      }
    }

    // minstrel_ht_assign_best_tp_rates. The estimates it stores again are current.
    method AssignBest(mcs: array<nat>, cck: array<nat>)
      requires Configured() && Usable(Air()) && Estimable(rates[..])
      requires mcs.Length == cck.Length == 4 && mcs != cck && mcs != maxTp && cck != maxTp
      requires InRange(mcs[..], KeysNow()) && InRange(cck[..], KeysNow())
      requires forall i :: 0 <= i < 4 ==> rates[cck[i]].tpAvg == KeysNow()[cck[i]].tp
      modifies rates, mcs
      ensures rates[..] == old(rates[..])
      ensures mcs[..] == Assigned(old(mcs[..]), cck[..], KeysNow())
    {
      hide TpAvg, Caps, Keys, KeyOf, Estimable, Insert;
      ghost var keys, list, offers, was := KeysNow(), mcs[..], cck[..], rates[..];
      var cckTp, cckProb := Estimate(cck[0]);
      var mcsTp, mcsProb := Estimate(mcs[0]);
      assert cck[0] == offers[0] && mcs[0] == list[0];
      if cckTp > mcsTp {
        var i := 0;
        assert offers[..0] == [];
        while i < 4
          invariant 0 <= i <= 4
          invariant rates[..] == was && cck[..] == offers
          invariant mcs[..] == InsertAll(list, offers[..i], keys)
        {
          assert cck[i] == offers[i] && offers[..i + 1][..i] == offers[..i];
          assert was[offers[i]].tpAvg == keys[offers[i]].tp;
          SortBest(cck[i], mcs);
          i := i + 1;
        }
        assert offers[..4] == offers;
      }
    }

    // The pass over the cells has dealt with those below hi.
    ghost predicate Passed(was: seq<Stats>, hi: nat)
      reads `avgAmpduLen, rates
    {
      && Configured() && Usable(Air())
      && |was| == CELLS && Started(supported, was)
      && Halfway(Air(), supported, was, rates[..], hi)
    }

    // So have the three lists: the best MCS rates, the best CCK rates and the best of all.
    ghost predicate Ranked3(was: seq<Stats>, hi: nat, mcs: array<nat>, cck: array<nat>, grp: array<nat>)
      requires Configured() && Usable(Air()) && Started(supported, was) && hi <= CELLS
      reads `avgAmpduLen, mcs, cck, grp
    {
      var keys := FinalKeys(Air(), supported, was);
      && mcs != maxTp && cck != maxTp && grp != maxTp && mcs != cck && mcs != grp && cck != grp
      && mcs.Length == cck.Length == grp.Length == 4
      && Ranks(mcs[..], McsRates, supported, hi, keys)
      && Ranks(cck[..], CckRates, supported, hi, keys)
      && Ranks(grp[..], AllRates, supported, hi, keys)
    }

    // The most probable rate once the pass has dealt with the cells below hi.
    ghost function ProbPast(was: seq<Stats>, start: nat, hi: nat): (k: nat)
      requires Configured() && Usable(Air()) && Started(supported, was) && start < CELLS && hi <= CELLS
      reads `avgAmpduLen, maxTp
    {
      ProbAfter(Air(), supported, was, maxTp[0] / MCS_GROUP_RATES, start, hi)
    }

    // The more probable of the rate selected so far and cell c.
    ghost function Challenged(k: nat, c: nat): nat
      requires Configured() && Usable(Air()) && Estimable(rates[..]) && k < CELLS && c < CELLS
      reads `avgAmpduLen, rates, maxTp
    {
      BestProb(KeysNow(), maxTp[0] / MCS_GROUP_RATES, k, k, c).0
    }

    // The body of the inner loop of minstrel_ht_update_stats for a supported rate.
    method RefreshCell(g: nat, i: nat, mcs: array<nat>, cck: array<nat>, grp: array<nat>, ghost was: seq<Stats>)
      requires Configured() && NamesOk() && g < GROUPS && i < MCS_GROUP_RATES && supported[g][i]
      requires Passed(was, Cell(g, i)) && Ranked3(was, Cell(g, i), mcs, cck, grp)
      modifies `maxProb, rates, groups, mcs, cck, grp
      ensures NamesOk() && Passed(was, Cell(g, i) + 1) && Ranked3(was, Cell(g, i) + 1, mcs, cck, grp)
      ensures Estimable(rates[..]) && maxProb == Challenged(old(maxProb), Cell(g, i))
      ensures groups[..] == old(groups[..])[g := old(groups[g]).(maxGroupProb := groups[g].maxGroupProb)]
    {
      hide Caps, Started, Fair, Final, Keys, KeyOf, FinalKeys, Ranks, Insert, Halfway, BestProb, Estimable,
           Recalculated, Percent;
      ghost var a, c := Air(), Cell(g, i);
      ghost var keys, before := FinalKeys(a, supported, was), rates[..];
      var index := Cell(g, i);
      HalfwayAhead(a, supported, was, before, c);
      var mrs := CalcRateStats(rates[index].(retryUpdated := false));
      RecalculatedKeepsRetry(was[c]);
      RecomputedKeys(a, supported, was, before, c, 0);
      rates[index] := mrs;
      assert rates[..] == before[c := mrs];
      ghost var now := KeysNow();
      assert now == Keys(a, before[c := Recalculated(was[c]).(retryUpdated := false)]);
      RecomputedKeys(a, supported, was, before, c, now[c].tp);
      if g != CCK_GROUP {
        RanksNext(mcs[..], McsRates, supported, c, now, keys);
        SortBest(index, mcs);
        RanksSkip(cck[..], CckRates, supported, c, keys);
      } else {
        RanksNext(cck[..], CckRates, supported, c, now, keys);
        SortBest(index, cck);
        RanksSkip(mcs[..], McsRates, supported, c, keys);
      }
      HalfwayKeys(a, supported, was, rates[..], c + 1);
      ghost var after := rates[..];
      RanksNext(grp[..], AllRates, supported, c, KeysNow(), keys);
      SortBest(index, grp);
      assert rates[..] == after;
      ghost var groupProb := groups[g].maxGroupProb;
      SetBestProb(index);
      ProbIgnoresGroup(KeysNow(), maxTp[0] / MCS_GROUP_RATES, old(maxProb), groupProb, c);
    }

    lemma ChallengedNext(was: seq<Stats>, start: nat, c: nat)
      requires Configured() && start < CELLS && c < CELLS && Has(supported, c) && Passed(was, c + 1)
      ensures Estimable(rates[..])
      ensures Challenged(ProbPast(was, start, c), c) == ProbPast(was, start, c + 1)
    {
      hide BestProb, Estimable, Keys, Started, Halfway, Mid, ProbAfter;
      ProbNext(Air(), supported, was, maxTp[0] / MCS_GROUP_RATES, start, c);
      HalfwayIsMid(Air(), supported, was, rates[..], c + 1);
    }

    lemma UnchallengedNext(was: seq<Stats>, start: nat, lo: nat, hi: nat)
      requires Configured() && Usable(Air()) && Started(supported, was) && start < CELLS && lo <= hi <= CELLS
      requires forall c :: lo <= c < hi ==> !Has(supported, c)
      ensures ProbPast(was, start, hi) == ProbPast(was, start, lo)
    {
      hide ProbAfter, Started;
      ProbSkip(Air(), supported, was, maxTp[0] / MCS_GROUP_RATES, start, lo, hi);
    }

    lemma ProbPastStart(was: seq<Stats>, start: nat)
      requires Configured() && Usable(Air()) && Started(supported, was) && start < CELLS
      ensures ProbPast(was, start, 0) == start
    {
    }

    // The inner loop of minstrel_ht_update_stats, and the copy that follows it.
    method RefreshGroup(g: nat, mcs: array<nat>, cck: array<nat>, grp: array<nat>, ghost was: seq<Stats>,
        ghost start: nat)
      requires Configured() && NamesOk() && g < GROUPS && start < CELLS
      requires Passed(was, MCS_GROUP_RATES * g) && Ranked3(was, MCS_GROUP_RATES * g, mcs, cck, grp)
      requires maxProb == ProbPast(was, start, MCS_GROUP_RATES * g)
      modifies `maxProb, rates, groups, mcs, cck, grp
      ensures NamesOk()
      ensures Passed(was, MCS_GROUP_RATES * (g + 1)) && Ranked3(was, MCS_GROUP_RATES * (g + 1), mcs, cck, grp)
      ensures maxProb == ProbPast(was, start, MCS_GROUP_RATES * (g + 1))
      ensures groups[..] ==
              old(groups[..])[g := old(groups[g]).(maxGroupProb := groups[g].maxGroupProb, maxGroupTp := grp[..])]
    {
      hide Caps, Started, Fair, FinalKeys, Ranks, Halfway, TopOf, ProbPast, Challenged, Estimable, Flags;
      var i := 0;
      while i < MCS_GROUP_RATES
        invariant 0 <= i <= MCS_GROUP_RATES
        invariant NamesOk()
        invariant Passed(was, MCS_GROUP_RATES * g + i) && Ranked3(was, MCS_GROUP_RATES * g + i, mcs, cck, grp)
        invariant maxProb == ProbPast(was, start, MCS_GROUP_RATES * g + i)
        invariant groups[..] == old(groups[..])[g := old(groups[g]).(maxGroupProb := groups[g].maxGroupProb)]
      {
        ghost var c := Cell(g, i);
        if supported[g][i] {
          RefreshCell(g, i, mcs, cck, grp, was);
          ChallengedNext(was, start, c);
        } else {
          ghost var keys := FinalKeys(Air(), supported, was);
          HalfwaySkip(Air(), supported, was, rates[..], c, c + 1);
          UnchallengedNext(was, start, c, c + 1);
          RanksSkip(mcs[..], McsRates, supported, c, keys);
          RanksSkip(cck[..], CckRates, supported, c, keys);
          RanksSkip(grp[..], AllRates, supported, c, keys);
        }
        i := i + 1;
      }
      groups[g] := groups[g].(maxGroupTp := grp[..]);
    }

    // The outer loop of minstrel_ht_update_stats. It counts the groups with rates and
    // gives each of them the ranking of the cells up to its own.
    method RefreshAll(mcs: array<nat>, cck: array<nat>, grp: array<nat>, ghost was: seq<Stats>) returns (counted: nat)
      requires Configured() && NamesOk() && Passed(was, 0) && Ranked3(was, 0, mcs, cck, grp)
      modifies `maxProb, rates, groups, mcs, cck, grp
      ensures NamesOk() && Passed(was, CELLS) && Ranked3(was, CELLS, mcs, cck, grp)
      ensures maxProb == ProbPast(was, old(maxProb), CELLS)
      ensures counted == multiset(Flags(supported))[true]
      ensures GroupsRanked(supported, old(groups[..]), groups[..], GROUPS, FinalKeys(Air(), supported, was))
    {
      hide Caps, Started, Fair, FinalKeys, Ranks, Halfway, TopOf, Offered, HasGroup, GroupsRanked, ProbPast;
      ghost var keys, start := FinalKeys(Air(), supported, was), maxProb;
      ProbPastStart(was, start);
      counted := 0;
      var g := 0;
      CountStep(supported, 0);
      GroupsRankedStart(supported, groups[..], keys);
      while g < GROUPS
        invariant 0 <= g <= GROUPS
        invariant NamesOk()
        invariant Passed(was, MCS_GROUP_RATES * g) && Ranked3(was, MCS_GROUP_RATES * g, mcs, cck, grp)
        invariant maxProb == ProbPast(was, start, MCS_GROUP_RATES * g)
        invariant counted == multiset(Flags(supported)[..g])[true]
        invariant GroupsRanked(supported, old(groups[..]), groups[..], g, keys)
      {
        CountStep(supported, g);
        ghost var before := groups[..];
        if HasGroup(supported, g) {
          counted := counted + 1;
          RefreshGroup(g, mcs, cck, grp, was, start);
          GroupsRankedNext(supported, old(groups[..]), before, g, keys, grp[..], groups[g].maxGroupProb);
        } else {
          SkipGroup(g, mcs, cck, grp, was, old(groups[..]), start);
        }
        g := g + 1;
      }
      assert Flags(supported)[..GROUPS] == Flags(supported);
    }

    // A group without rates changes nothing.
    lemma SkipGroup(g: nat, mcs: array<nat>, cck: array<nat>, grp: array<nat>, was: seq<Stats>,
                    groupsWas: seq<GroupData>, start: nat)
      requires Configured() && g < GROUPS && !HasGroup(supported, g) && start < CELLS
      requires Passed(was, MCS_GROUP_RATES * g) && Ranked3(was, MCS_GROUP_RATES * g, mcs, cck, grp)
      requires GroupsRanked(supported, groupsWas, groups[..], g, FinalKeys(Air(), supported, was))
      ensures Passed(was, MCS_GROUP_RATES * (g + 1)) && Ranked3(was, MCS_GROUP_RATES * (g + 1), mcs, cck, grp)
      ensures ProbPast(was, start, MCS_GROUP_RATES * (g + 1)) == ProbPast(was, start, MCS_GROUP_RATES * g)
      ensures GroupsRanked(supported, groupsWas, groups[..], g + 1, FinalKeys(Air(), supported, was))
    {
      hide Caps, Started, Fair, FinalKeys, Ranks, Halfway, TopOf, Offered, HasGroup, GroupsRanked, ProbPast;
      var keys, lo, hi := FinalKeys(Air(), supported, was), MCS_GROUP_RATES * g, MCS_GROUP_RATES * (g + 1);
      NoneInGroup(supported, g);
      HalfwaySkip(Air(), supported, was, rates[..], lo, hi);
      UnchallengedNext(was, start, lo, hi);
      RanksSkipTo(mcs[..], McsRates, supported, lo, hi, keys);
      RanksSkipTo(cck[..], CckRates, supported, lo, hi, keys);
      RanksSkipTo(grp[..], AllRates, supported, lo, hi, keys);
      GroupsRankedSkip(supported, groupsWas, groups[..], g, keys);
    }

    // The first lines of minstrel_ht_update_stats.
    method UpdateAverage()
      requires AirOk() && KeepsAverage(avgAmpduLen, ampduLen, ampduPackets)
      modifies `avgAmpduLen, `ampduLen, `ampduPackets
      ensures AirOk() && ampduLen == ampduPackets == 0
      ensures avgAmpduLen ==
              if old(ampduPackets) > 0 then NewAvg(old(avgAmpduLen), old(ampduLen), old(ampduPackets))
              else old(avgAmpduLen)
    {
      hide NewAvg, Caps, Fair, KeepsAverage;
      if ampduPackets > 0 {
        AverageStays(avgAmpduLen, ampduLen, ampduPackets);
        avgAmpduLen := NewAvg(avgAmpduLen, ampduLen, ampduPackets);
        ampduLen := 0;
        ampduPackets := 0;
      }
    }

    // The station's lists rank exactly the rates that they should, by the estimates
    // of the statistics recomputed from was.
    ghost predicate Rated(was: seq<Stats>, groupsWas: seq<GroupData>)
      reads `avgAmpduLen, rates, groups, maxTp
    {
      && Passed(was, CELLS) && Estimable(rates[..])
      && TopOf(maxTp[..], Contenders(supported, KeysNow()), KeysNow())
      && GroupsRanked(supported, groupsWas, groups[..], GROUPS, KeysNow())
    }

    // Recomputes every supported rate and ranks them; the result is copied to the
    // station's list.
    method RankAll(ghost was: seq<Stats>) returns (counted: nat)
      requires Configured() && NamesOk() && Passed(was, 0)
      requires forall c :: 0 <= c < CELLS && !Has(supported, c) ==> was[c].probEwma == 0 && was[c].tpAvg == 0
      modifies `maxProb, rates, groups, maxTp
      ensures NamesOk() && StatsOk() && Rated(was, old(groups[..]))
      ensures counted == multiset(Flags(supported))[true]
      ensures maxProb == old(ProbPast(was, maxProb, CELLS))
    {
      hide *;
      var mcs := ZeroList();
      var cck := ZeroList();
      var grp := ZeroList();
      StartLists(was, mcs, cck, grp);
      counted := RankInto(mcs, cck, grp, was);
      Publish(was, old(groups[..]), mcs);
    }

    method RankInto(mcs: array<nat>, cck: array<nat>, grp: array<nat>, ghost was: seq<Stats>) returns (counted: nat)
      requires Configured() && NamesOk() && Passed(was, 0) && Ranked3(was, 0, mcs, cck, grp)
      requires forall c :: 0 <= c < CELLS && !Has(supported, c) ==> was[c].probEwma == 0 && was[c].tpAvg == 0
      modifies `maxProb, rates, groups, mcs, cck, grp
      ensures NamesOk() && StatsOk() && Passed(was, CELLS) && mcs.Length == 4
      ensures TopOf(mcs[..], Contenders(supported, KeysNow()), KeysNow())
      ensures GroupsRanked(supported, old(groups[..]), groups[..], GROUPS, KeysNow())
      ensures counted == multiset(Flags(supported))[true]
      ensures maxProb == old(ProbPast(was, maxProb, CELLS))
    {
      hide Caps, Fair, Ranks, Contenders, Assigned, Sound, TopOf, Started, Halfway, Flags, GroupsRanked, FinalKeys,
           Keys, Estimable;
      counted := RefreshAll(mcs, cck, grp, was);
      EndPass(was, mcs, cck, grp);
      AssignBest(mcs, cck);
    }

    method ZeroList() returns (list: array<nat>)
      ensures fresh(list) && list[..] == ZEROS
    {
      list := new nat[4](_ => 0);
    }

    method Publish(ghost was: seq<Stats>, ghost groupsWas: seq<GroupData>, mcs: array<nat>)
      requires Configured() && StatsOk() && NamesOk() && Passed(was, CELLS) && mcs.Length == 4 && mcs != maxTp
      requires TopOf(mcs[..], Contenders(supported, KeysNow()), KeysNow())
      requires GroupsRanked(supported, groupsWas, groups[..], GROUPS, KeysNow())
      modifies maxTp
      ensures NamesOk() && Rated(was, groupsWas)
    {
      hide Caps, Fair, Contenders, Started, Halfway, Flags, GroupsRanked, Keys, Estimable, Sorted;
      forall k | 0 <= k < 4 {
        maxTp[k] := mcs[k];
      }
      assert maxTp[..] == mcs[..] == old(mcs[..]);
      assert rates[..] == old(rates[..]) && groups[..] == old(groups[..]);
    }

    // Every supported cell was recomputed from was, the others are as they were.
    ghost predicate Recomputed(was: seq<Stats>)
      reads `avgAmpduLen, rates
    {
      Configured() && Usable(Air()) && |was| == CELLS && rates[..] == Finals(Air(), supported, was)
    }

    // The most probable rate is the one that the pass over was arrives at from start,
    // with tp0 still the top rate.
    ghost predicate MostProbable(was: seq<Stats>, tp0: nat, start: nat)
      reads `avgAmpduLen, `maxProb
    {
      && Configured() && Usable(Air()) && |was| == CELLS && Started(supported, was) && start < CELLS
      && maxProb == ProbAfter(Air(), supported, was, tp0 / MCS_GROUP_RATES, start, CELLS)
    }

    // minstrel_ht_update_stats.
    method UpdateStats()
      requires Valid() && KeepsAverage(avgAmpduLen, ampduLen, ampduPackets)
      modifies this, rates, groups, maxTp
      ensures Valid() && Rated(old(rates[..]), old(groups[..]))
      ensures ampduLen == ampduPackets == 0
      ensures avgAmpduLen ==
              if old(ampduPackets) > 0 then NewAvg(old(avgAmpduLen), old(ampduLen), old(ampduPackets))
              else old(avgAmpduLen)
      ensures sampleCount == 10 * multiset(Flags(supported))[true]
      ensures sampleWait == old(sampleWait) && sampleTries == old(sampleTries) && sampleGroup == old(sampleGroup)
      ensures Cursors() == old(Cursors())
      ensures Recomputed(old(rates[..])) && MostProbable(old(rates[..]), old(maxTp[0]), old(maxProb))
    {
      hide Fair, Ranks, Contenders, NewAvg, TopOf, Flags, Keys, ProbAfter, ProbPast, Finals, Started, Estimable, Sound,
           Rated, Passed, Recomputed, GroupsRanked, Caps, KeepsAverage, Named, ListsNamed, LoadOk;
      ghost var was, groupsWas, lists, cursors := rates[..], groups[..], Lists(), Cursors();
      UpdateAverage();
      StartPass(was);
      ProbPastIs(was, maxProb);
      hide *;
      sampleCount := 0;
      var counted := RankAll(was);
      sampleCount := counted * 10;
      EndLists(was, groupsWas, lists, cursors);
      EndNamed(was, groupsWas, lists);
      EndLoad(was);
    }

    lemma ProbPastIs(was: seq<Stats>, start: nat)
      requires Passed(was, 0) && Named(start)
      ensures Started(supported, was)
      ensures ProbPast(was, start, CELLS) == ProbAfter(Air(), supported, was, maxTp[0] / MCS_GROUP_RATES, start, CELLS)
      ensures Named(ProbPast(was, start, CELLS))
    {
      hide ProbAfter, Fair;
    }

    lemma StartPass(was: seq<Stats>)
      requires StatsOk() && AirOk() && was == rates[..]
      ensures Passed(was, 0)
    {
      hide TpAvg, Fair;
    }

    lemma StartLists(was: seq<Stats>, mcs: array<nat>, cck: array<nat>, grp: array<nat>)
      requires Passed(was, 0)
      requires mcs != maxTp && cck != maxTp && grp != maxTp && mcs != cck && mcs != grp && cck != grp
      requires mcs[..] == cck[..] == grp[..] == ZEROS
      ensures Ranked3(was, 0, mcs, cck, grp)
    {
      hide TpAvg, Fair;
      ZerosRanked(FinalKeys(Air(), supported, was));
    }

    lemma EndPass(was: seq<Stats>, mcs: array<nat>, cck: array<nat>, grp: array<nat>)
      requires Passed(was, CELLS) && Ranked3(was, CELLS, mcs, cck, grp)
      requires forall c :: 0 <= c < CELLS && !Has(supported, c) ==> was[c].probEwma == 0 && was[c].tpAvg == 0
      ensures StatsOk() && KeysNow() == FinalKeys(Air(), supported, was)
      ensures InRange(mcs[..], KeysNow()) && InRange(cck[..], KeysNow())
      ensures forall i :: 0 <= i < 4 ==> rates[cck[i]].tpAvg == KeysNow()[cck[i]].tp
      ensures TopOf(Assigned(mcs[..], cck[..], KeysNow()), Contenders(supported, KeysNow()), KeysNow())
    {
      hide Halfway, Started, Estimable, Keys, KeyOf, FinalKeys, Contenders, Assigned, Sound, Caps, Fair, Offers,
           TopOf, Pool, Has;
      var keys := FinalKeys(Air(), supported, was);
      PassEnds(Air(), supported, was, rates[..]);
      RanksInRange(mcs[..], McsRates, supported, CELLS, keys);
      RanksInRange(cck[..], CckRates, supported, CELLS, keys);
      AssignedIsTop(mcs[..], cck[..], supported, keys);
      assert forall i :: 0 <= i < 4 ==> rates[cck[i]] == rates[..][cck[i]];
    }

    lemma EndLists(stats: seq<Stats>, was: seq<GroupData>, lists: seq<seq<nat>>, cursors: seq<Cursor>)
      requires Configured() && |was| == GROUPS && Rated(stats, was)
      requires ListsDescend(supported, lists) && forall g :: 0 <= g < GROUPS ==> lists[g] == was[g].maxGroupTp
      requires |cursors| == GROUPS && forall g :: 0 <= g < GROUPS ==> cursors[g] == Cursor(was[g].index, was[g].column)
      requires sampleGroup < GROUPS
      requires forall g :: 0 <= g < GROUPS ==>
                             cursors[g].row < MCS_GROUP_RATES && cursors[g].column < SampleTable.SAMPLE_COLUMNS
      ensures ListsOk() && CursorsOk() && Cursors() == cursors && Recomputed(stats)
    {
      hide Ranks, HasGroup, Caps, Fair, Keys, Estimable, Halfway, TopOf, Contenders, Started;
      FullyPassed(Air(), supported, stats, rates[..]);
      assert forall g :: 0 <= g < GROUPS ==> Cursors()[g] == cursors[g] by {
        assert forall g :: 0 <= g < GROUPS ==> groups[g] == groups[..][g];
      }
      forall g | 0 <= g < GROUPS
        ensures |Lists()[g]| == 4
        ensures forall i :: 0 <= i < 4 ==> Lists()[g][i] < CELLS
        ensures forall i :: 0 <= i < 4 && HasGroup(supported, g) ==> Lists()[g][i] / MCS_GROUP_RATES <= g
      {
        assert groups[g] == groups[..][g];
        if HasGroup(supported, g) {
          RanksDescend(groups[g].maxGroupTp, supported, g, KeysNow());
        }
      }
    }

    lemma EndNamed(stats: seq<Stats>, was: seq<GroupData>, lists: seq<seq<nat>>)
      requires Configured() && NamesOk() && |was| == GROUPS && Rated(stats, was) && Named(maxProb)
      requires |lists| == GROUPS && ListsNamed(lists) && forall g :: 0 <= g < GROUPS ==> lists[g] == was[g].maxGroupTp
      ensures NamedOk()
    {
      hide Ranks, HasGroup, Fair, Keys, Estimable, Halfway, TopOf, Contenders, Started, Named, Caps;
      ContendersNamed(maxTp[..], supported, KeysNow());
      forall g | 0 <= g < GROUPS
        ensures |Lists()[g]| == 4 || !HasGroup(supported, g)
        ensures forall i :: 0 <= i < |Lists()[g]| ==> Named(Lists()[g][i])
      {
        assert groups[g] == groups[..][g];
        if HasGroup(supported, g) {
          RanksNamed(groups[g].maxGroupTp, supported, MCS_GROUP_RATES * (g + 1), KeysNow());
        } else {
          assert Lists()[g] == lists[g];
        }
      }
    }

    lemma EndLoad(was: seq<Stats>)
      requires Configured() && Recomputed(was)
      ensures LoadOk()
    {
      hide Caps, Fair, TpAvg, Recalculated, Listed;
      forall c | 0 <= c < CELLS && Has(supported, c)
        ensures rates[c].attempts == 0
      {
        RecalculatedClears(was[c]);
        assert rates[c] == rates[..][c] == Final(Air(), supported, was, c);
      }
    }

    // ----- Choosing the retry chain -----

    // minstrel_ht_modify_tp_rates.
    method ModifyTpRates()
      requires StatsOk() && AirOk() && NamesOk()
      modifies maxTp, `maxProb
      ensures NamesOk()
      ensures Modified(rates[..], KeysNow(), old(maxTp[0]), old(maxProb), maxTp[0], maxProb)
      ensures forall i :: 1 <= i < 4 ==> maxTp[i] == old(maxTp[i])
    {
      hide Caps, Fair, TpAvg, Keys, KeyOf, Estimable, Sound, Percent, BestUpTo, Beats;
      var tp0Group := maxTp[0] / MCS_GROUP_RATES;
      var rateIdx := FirstWorking(tp0Group, maxTp[0] % MCS_GROUP_RATES);
      maxTp[0] := Cell(tp0Group, rateIdx);
      assert rates[..] == old(rates[..]);
      if maxProb % MCS_GROUP_RATES >= rateIdx {
        var g := maxProb / MCS_GROUP_RATES;
        var best := BestBelow(g, if rateIdx != 0 then rateIdx - 1 else rateIdx);
        BestInRange(KeysNow(), g, if rateIdx != 0 then rateIdx - 1 else rateIdx, best);
        maxProb := Cell(g, best);
      }
    }

    lemma BestInRange(keys: seq<Key>, g: nat, top: nat, f: nat)
      requires |keys| == CELLS && g < GROUPS && top < MCS_GROUP_RATES && BestUpTo(keys, g, top, f)
      ensures f <= top
    {
    }

    // The first half of minstrel_ht_modify_tp_rates: the nearest rate at or below i that
    // works half the time, or the lowest rate of the group.
    method FirstWorking(g: nat, i: nat) returns (rateIdx: nat)
      requires Configured() && g < GROUPS && i < MCS_GROUP_RATES
      ensures rateIdx == StepDown(rates[..], g, i)
    {
      ghost var stats := rates[..];
      rateIdx := i;
      while rates[Cell(g, rateIdx)].probEwma < Percent(50) && rateIdx != 0
        invariant 0 <= rateIdx < MCS_GROUP_RATES
        invariant StepDown(stats, g, rateIdx) == StepDown(stats, g, i)
        decreases rateIdx
      {
        assert stats[Cell(g, rateIdx)] == rates[Cell(g, rateIdx)];
        rateIdx := rateIdx - 1;
      }
      assert stats[Cell(g, rateIdx)] == rates[Cell(g, rateIdx)];
    }

    // The second half of minstrel_ht_modify_tp_rates: the best rate of a group up to
    // top, the lowest of equals.
    method BestBelow(g: nat, top: nat) returns (finalIdx: nat)
      requires StatsOk() && AirOk() && g < GROUPS && top < MCS_GROUP_RATES
      ensures BestUpTo(KeysNow(), g, top, finalIdx)
    {
      hide Caps, Fair, TpAvg, Keys, KeyOf, Estimable, Sound;
      ghost var keys := KeysNow();
      finalIdx := top;
      var curTp, curProb := Estimate(Cell(g, top));
      var tmpIdx: int := top - 1;
      while tmpIdx >= 0
        invariant -1 <= tmpIdx < finalIdx <= top
        invariant keys[Cell(g, finalIdx)] == Key(curTp, curProb)
        invariant forall k :: tmpIdx < k <= top ==> !Beats(keys[Cell(g, k)], Key(curTp, curProb))
        invariant forall k :: tmpIdx < k < finalIdx ==> Beats(Key(curTp, curProb), keys[Cell(g, k)])
      {
        var tmpTp, tmpProb := Estimate(Cell(g, tmpIdx));
        if curTp < tmpTp || (curTp == tmpTp && curProb <= tmpProb) {
          curTp, curProb, finalIdx := tmpTp, tmpProb, tmpIdx;
        }
        tmpIdx := tmpIdx - 1;
      }
    }

    function OverheadOf(index: nat): nat {
      if index / MCS_GROUP_RATES != CCK_GROUP then overhead else 0
    }

    function OverheadRtsctsOf(index: nat): nat {
      if index / MCS_GROUP_RATES != CCK_GROUP then overheadRtscts else 0
    }

    // The product is unsigned 32-bit and may wrap for very long aggregates.
    function TxTimeData(index: nat): nat
      requires index < CELLS
      reads this
    {
      Wrap32(Duration(index / MCS_GROUP_RATES, index % MCS_GROUP_RATES) * Trunc(avgAmpduLen)) / 1000
    }

    // What a try costs: its data time, exact while the product fits 32 bits, and for MCS
    // and VHT rates an overhead. A rate of 10% or more gets the largest numbers of tries
    // that these costs allow, any other rate one.
    lemma RetriesFit(index: nat, d: nat)
      requires Configured() && index < CELLS
      requires Planned(link, rates[index], OverheadOf(index), OverheadRtsctsOf(index), TxTimeData(index))
      requires var nanos := CellDuration(index) * (avgAmpduLen / SCALE);
               nanos < TWO32 && 1000 * d <= nanos < 1000 * (d + 1)
      ensures var s, cck := rates[index], 40 <= index < 50;
              if s.probEwma < 409 then s.retryCount == 1 && s.retryCountRtscts == 1
              else
                && Retransmit.Largest(link, d + if cck then 0 else overhead,
                                      if link.maxRetry > 3 then link.maxRetry else 3, s.retryCount)
                && Retransmit.Largest(link, d + if cck then 0 else overheadRtscts, s.retryCount, s.retryCountRtscts)
    {
      hide Duration, Caps, Fair, Retransmit.Largest, Flags, Shaped;
      FitsUnwrapped(CellDuration(index) * (avgAmpduLen / SCALE));
      hide Wrap32;
    }

    // minstrel_calc_retransmit.
    method CalcRetransmit(index: nat)
      requires Configured() && index < CELLS
      modifies rates
      ensures forall c :: 0 <= c < CELLS && c != index ==> rates[c] == old(rates[c])
      ensures SameButRetry(old(rates[index]), rates[index])
      ensures Planned(link, rates[index], OverheadOf(index), OverheadRtsctsOf(index), TxTimeData(index))
      ensures rates[index].retryUpdated == (old(rates[index].retryUpdated) || rates[index].probEwma >= Percent(10))
    {
      hide Caps, Fair, Retransmit.Largest, Duration, Wrap32;
      if rates[index].probEwma < Percent(10) {
        rates[index] := rates[index].(retryCount := 1, retryCountRtscts := 1);
        return;
      }
      var data := TxTimeData(index);
      var retry, retryRtscts := Retransmit.Retries(link, OverheadOf(index), OverheadRtsctsOf(index), data);
      rates[index] := rates[index].(retryCount := retry, retryCountRtscts := retryRtscts, retryUpdated := true);
    }

    function IdxOf(c: nat): int
      requires Configured() && c < CELLS
    {
      EncodeIdx(c / MCS_GROUP_RATES, c % MCS_GROUP_RATES, cckRates)
    }

    // minstrel_ht_set_rate.
    method SetRate(offset: nat, index: nat)
      requires Configured() && index < CELLS && offset < 4
      modifies rates, rateTable
      ensures AllButRetry(old(rates[..]), rates[..])
      ensures forall c :: 0 <= c < CELLS && c != index ==> rates[c] == old(rates[c])
      ensures !old(rates[index].retryUpdated) ==>
                Planned(link, rates[index], OverheadOf(index), OverheadRtsctsOf(index), TxTimeData(index))
      ensures old(rates[index].retryUpdated) ==> rates[index] == old(rates[index])
      ensures Settled(rates[index]) && (Settled(old(rates[index])) ==> rates[index] == old(rates[index]))
      ensures rateTable[..] == old(rateTable[..])[offset := SlotFor(rates[index], offset, index, cckRates)]
    {
      hide Caps, Fair, Duration, Retransmit.Largest;
      if !rates[index].retryUpdated {
        CalcRetransmit(index);
      }
      var mrs, g := rates[index], index / MCS_GROUP_RATES;
      var slot: Slot;
      if mrs.probEwma < Percent(20) || mrs.retryCount == 0 {
        slot := Slot(0, 2, 2, 2, GroupFlags(g));
      } else {
        slot := Slot(0, mrs.retryCount, mrs.retryCount, mrs.retryCountRtscts, GroupFlags(g));
      }
      if offset > 0 {
        slot := slot.(count := slot.countRts, flags := slot.flags.(useRtsCts := true));
      }
      rateTable[offset] := slot.(idx := EncodeIdx(g, index % MCS_GROUP_RATES, cckRates));
    }

    // Slot offset of the table is the one that minstrel_ht_set_rate writes for cell c.
    ghost predicate Holds(offset: nat, c: nat)
      requires Configured() && offset < 4 && c < CELLS
      reads rates, rateTable
    {
      rateTable[offset] == SlotFor(rates[c], offset, c, cckRates)
    }

    // The table holds the top rate, then the second if the hardware takes three, then
    // the most probable one if it takes two, and ends with a marker.
    ghost predicate TableWritten()
      requires Configured() && NamesOk()
      reads this, rates, maxTp, groups, rateTable
    {
      && Holds(0, maxTp[0])
      && (maxRates >= 3 ==> Holds(1, maxTp[1]) && Holds(2, maxProb) && rateTable[3].idx == -1)
      && (maxRates == 2 ==> Holds(1, maxProb) && rateTable[2].idx == -1)
      && (maxRates < 2 ==> rateTable[1].idx == -1)
    }

    // Cell c has the retry counts planned for it: those it had, or new ones if a
    // recomputation has come between.
    ghost predicate Replanned(was: seq<Stats>, c: nat)
      requires Configured() && |was| == CELLS && c < CELLS
      reads this, rates
    {
      if was[c].retryUpdated then rates[c] == was[c]
      else Planned(link, rates[c], OverheadOf(c), OverheadRtsctsOf(c), TxTimeData(c))
    }

    // So do the cells that the table names.
    ghost predicate TablePlanned(was: seq<Stats>)
      requires NamesOk() && |was| == CELLS
      reads this, rates, groups, maxTp
    {
      && Replanned(was, maxTp[0])
      && (maxRates >= 3 ==> Replanned(was, maxTp[1]))
      && (maxRates >= 2 ==> Replanned(was, maxProb))
    }

    // The supported rates of the table have retry counts planned with the current average.
    ghost predicate FreshlyPlanned()
      requires NamesOk()
      reads this, rates, groups, maxTp
    {
      forall c :: (c == maxTp[0] || (maxRates >= 3 && c == maxTp[1]) || (maxRates >= 2 && c == maxProb))
                  && Has(supported, c) ==>
                    Planned(link, rates[c], OverheadOf(c), OverheadRtsctsOf(c), TxTimeData(c))
    }

    // A recomputation makes all retry counts outdated.
    lemma PlannedAnew(was: seq<Stats>, mid: seq<Stats>)
      requires NamesOk() && Usable(Air()) && |was| == CELLS && mid == Finals(Air(), supported, was)
      requires TablePlanned(mid)
      ensures FreshlyPlanned()
    {
      hide Planned, Caps, Fair, Flags, TpAvg, Recalculated, OverheadOf, OverheadRtsctsOf, TxTimeData;
      assert forall c :: 0 <= c < CELLS && Has(supported, c) ==> mid[c] == Final(Air(), supported, was, c);
    }

    // Since the cells were was, each was left alone or replanned.
    ghost predicate Planning(was: seq<Stats>)
      requires Configured()
      reads this, rates
    {
      && |was| == CELLS && AllButRetry(was, rates[..])
      && forall c :: 0 <= c < CELLS ==> rates[c] == was[c] || Replanned(was, c)
    }

    // One more slot of a table that is being written.
    method SetNext(offset: nat, index: nat, ghost was: seq<Stats>)
      requires Configured() && index < CELLS && offset < 4 && Planning(was)
      modifies rates, rateTable
      ensures Planning(was) && Replanned(was, index)
      ensures forall c :: 0 <= c < CELLS && old(Replanned(was, c)) ==> Replanned(was, c)
      ensures forall c :: 0 <= c < CELLS && c != index ==> rates[c] == old(rates[c])
      ensures Settled(rates[index]) && (Settled(old(rates[index])) ==> rates[index] == old(rates[index]))
      ensures rateTable[..] == old(rateTable[..])[offset := SlotFor(rates[index], offset, index, cckRates)]
    {
      hide Caps, Fair, Planned, SlotFor, Settled, TxTimeData, OverheadOf, OverheadRtsctsOf, Flags, AllButRetry;
      ghost var mid := rates[..];
      PlanningAt(was, index);
      SetRate(offset, index);
      ButRetry(was, mid, rates[..]);
    }

    lemma PlanningAt(was: seq<Stats>, c: nat)
      requires Configured() && Planning(was) && c < CELLS
      ensures rates[c].retryUpdated && was[c].retryUpdated ==> rates[c] == was[c]
      ensures SameButRetry(was[c], rates[..][c])
    {
      hide Caps, Fair, Planned, Flags;
    }

    // The part of minstrel_ht_update_rates after the rates were made robust.
    method WriteTable()
      requires Configured() && NamesOk()
      modifies rates, rateTable
      ensures NamesOk() && TableWritten()
      ensures AllButRetry(old(rates[..]), rates[..]) && TablePlanned(old(rates[..]))
    {
      hide Caps, Fair, Planned, EncodeIdx, Flags, SameButRetry, AllButRetry, SlotFor, IdxOf, Shaped, Settled, Replanned;
      ghost var was := rates[..];
      ButRetrySelf(was);
      var i := 0;
      SetNext(0, maxTp[0], was);
      i := i + 1;
      if maxRates >= 3 {
        SetNext(i, maxTp[1], was);
        i := i + 1;
      }
      if maxRates >= 2 {
        SetNext(i, maxProb, was);
        i := i + 1;
      }
      rateTable[i] := rateTable[i].(idx := -1);
    }

    // minstrel_ht_update_rates.
    method UpdateRates()
      requires StatsOk() && AirOk() && NamesOk()
      modifies maxTp, `maxProb, rates, rateTable
      ensures StatsOk() && NamesOk() && TableWritten()
      ensures Modified(old(rates[..]), old(KeysNow()), old(maxTp[0]), old(maxProb), maxTp[0], maxProb)
      ensures forall i :: 1 <= i < 4 ==> maxTp[i] == old(maxTp[i])
      ensures AllButRetry(old(rates[..]), rates[..]) && TablePlanned(old(rates[..]))
    {
      hide Caps, Fair, Modified, Keys, Estimable, Sound, EncodeIdx, Listed, Flags, AllButRetry;
      ghost var stats := rates[..];
      ModifyTpRates();
      WriteTable();
      SameKeepsStats(stats, rates[..]);
    }

    // Retry counts matter to no invariant of the statistics.
    lemma SameKeepsStats(was: seq<Stats>, now: seq<Stats>)
      requires Configured() && |was| == |now| == CELLS && Estimable(was) && AllButRetry(was, now)
      requires forall c :: 0 <= c < CELLS ==>
                             if Has(supported, c) then Sound(was[c]) else was[c].probEwma == 0 && was[c].tpAvg == 0
      ensures Estimable(now)
      ensures forall c :: 0 <= c < CELLS ==>
                            if Has(supported, c) then Sound(now[c]) else now[c].probEwma == 0 && now[c].tpAvg == 0
    {
    }

    // ----- Taking in a transmit status -----

    // minstrel_ht_get_stats.
    method GetStats(r: TxRate) returns (c: nat)
      requires Configured() && Decodable(r)
      ensures c == Target(r, cckRates, supported)
    {
      hide Caps, Fair, Flags;
      if r.flags.mcs {
        return Cell(DecodeGroup(r), r.idx % 8);
      } else if r.flags.vhtMcs {
        return Cell(DecodeGroup(r), r.idx % 16);
      }
      var idx := 0;
      while idx < 4 && r.idx != cckRates[idx]
        invariant 0 <= idx <= 4
        invariant CckPosition(cckRates, r.idx, idx) == CckPosition(cckRates, r.idx, 0)
      {
        idx := idx + 1;
      }
      // short preamble
      if !supported[CCK_GROUP][idx] {
        idx := idx + 4;
      }
      c := Cell(CCK_GROUP, idx);
    }

    // One turn of the loop over the retry chain in minstrel_ht_tx_status.
    method ReportEntry(s: Status, i: nat, ghost was: seq<Stats>) returns (last: bool)
      requires Configured() && WellFormed(s, cckRates, supported) && |was| == CELLS
      requires i < ChainLength(s.rates, cckRates) && rates[..] == Taken(s, cckRates, supported, was, i)
      modifies rates
      ensures rates[..] == Taken(s, cckRates, supported, was, i + 1)
      ensures last == !Used(s.rates[i + 1], cckRates)
      ensures last || i == 2 <==> i + 1 == ChainLength(s.rates, cckRates)
    {
      hide Caps, Fair, Flags, Target, Taken, Used, Decodable, Subframes, AckedSubframes, EntryEvent, Reported, Has;
      EntryByEntry(s, cckRates, i);
      TakenNext(s, cckRates, supported, was, i);
      last := !Used(s.rates[i + 1], cckRates);
      var c := GetStats(s.rates[i]);
      assert rates[c] == rates[..][c];
      var tries, acked := s.rates[i].count * Subframes(s), if last then AckedSubframes(s) else 0;
      rates[c] := Reported(rates[c], tries, acked);
    }

    // The loop over the retry chain in minstrel_ht_tx_status.
    method ReportChain(s: Status)
      requires Configured() && WellFormed(s, cckRates, supported)
      modifies rates
      ensures rates[..] == Taken(s, cckRates, supported, old(rates[..]), ChainLength(s.rates, cckRates))
    {
      hide Caps, Fair, Flags, Target, Taken, Used, Decodable, EntryEvent, ChainLength, Reported, Has;
      ghost var was, n := rates[..], ChainLength(s.rates, cckRates);
      var i := 0;
      var done := false;
      TakenNext(s, cckRates, supported, was, 0);
      while i < 3 && !done
        invariant 0 <= i <= n && (done ==> i == n) && (!done && i == n ==> n == 3)
        invariant rates[..] == Taken(s, cckRates, supported, was, i)
      {
        done := ReportEntry(s, i, was);
        i := i + 1;
      }
    }

    // minstrel_downgrade_rate, applied to one entry of the station's list.
    method DowngradeRate(slot: nat, primary: bool)
      requires NamesOk() && ListsOk() && slot < 4
      modifies maxTp
      ensures NamesOk()
      ensures maxTp[..] == old(maxTp[..])[slot := Downgraded(supported, Lists(), old(maxTp[slot]), primary)]
    {
      hide Caps, Fair, Flags, HasGroup, Streams;
      var orig := maxTp[slot] / MCS_GROUP_RATES;
      var group: int := orig;
      while group > 0
        invariant 0 <= group <= orig
        invariant LowerGroup(supported, orig, group) == LowerGroup(supported, orig, orig)
      {
        group := group - 1;
        if HasGroup(supported, group) && Streams(group) <= Streams(orig) {
          assert Lists()[group] == groups[group].maxGroupTp;
          maxTp[slot] := groups[group].maxGroupTp[if primary then 0 else 1];
          return;
        }
      }
    }

    function BudgetNow(): HtSampling.Budget
      reads this
    {
      HtSampling.Budget(sampleWait, sampleTries, sampleCount)
    }

    // The bookkeeping of aggregate lengths and of the sampling budget.
    method Account(s: Status)
      requires AirOk() && 1 <= Subframes(s) <= 255
      modifies `ampduPackets, `ampduLen, `sampleWait, `sampleTries, `sampleCount
      ensures AirOk() && ampduPackets == old(ampduPackets) + 1 && ampduLen == old(ampduLen) + Subframes(s)
      ensures BudgetNow() == HtSampling.Refilled(old(BudgetNow()))
    {
      ampduPackets := ampduPackets + 1;
      ampduLen := ampduLen + Subframes(s);
      if sampleWait == 0 && sampleTries == 0 && sampleCount > 0 {
        sampleWait := 10;
        sampleTries := 2;
        sampleCount := sampleCount - 1;
      }
    }

    // The two checks for sudden death.
    method CheckDeath() returns (update: bool)
      requires Configured() && NamesOk() && ListsOk()
      modifies maxTp
      ensures NamesOk() && (old(NamedOk()) ==> NamedOk())
      ensures maxTp[0] == AfterCheck(supported, Lists(), rates[..], old(maxTp[0]), true)
      ensures maxTp[1] == AfterCheck(supported, Lists(), rates[..], old(maxTp[1]), false)
      ensures maxTp[2] == old(maxTp[2]) && maxTp[3] == old(maxTp[3])
      ensures update == (Dying(rates[old(maxTp[0])]) || Dying(rates[old(maxTp[1])]))
    {
      hide Caps, Fair, Flags, Dying, Downgraded, ListsDescend, Named, ListsNamed;
      ghost var tp0, tp1 := maxTp[0], maxTp[1];
      assert rates[maxTp[0]] == rates[..][maxTp[0]] && rates[maxTp[1]] == rates[..][maxTp[1]];
      update := false;
      if Dying(rates[maxTp[0]]) {
        DowngradeRate(0, true);
        update := true;
      }
      assert maxTp[..][1] == old(maxTp[..])[1];
      if Dying(rates[maxTp[1]]) {
        DowngradeRate(1, false);
        update := true;
      }
      if old(NamedOk()) {
        DowngradeNamed(supported, Lists(), tp0, true);
        DowngradeNamed(supported, Lists(), tp1, false);
      }
    }

    // The station uses the ranking top: its first rate, brought down to one that works,
    // and then the other three as they are.
    ghost predicate Uses(top: seq<nat>)
      reads `avgAmpduLen, rates, maxTp
    {
      && Configured() && Usable(Air()) && Estimable(rates[..])
      && |top| == 4 && top[0] < CELLS
      && TopOf(top, Contenders(supported, KeysNow()), KeysNow())
      && maxTp[0] == SteppedDown(rates[..], top[0])
      && forall i :: 1 <= i < 4 ==> maxTp[i] == top[i]
    }

    lemma StillUses(was: seq<Stats>, top: seq<nat>)
      requires StatsOk() && AirOk() && Estimable(was) && AllButRetry(was, rates[..]) && |top| == 4 && top[0] < CELLS
      requires TopOf(top, Contenders(supported, Keys(Air(), was)), Keys(Air(), was))
      requires maxTp[0] == SteppedDown(was, top[0])
      requires forall i :: 1 <= i < 4 ==> maxTp[i] == top[i]
      ensures Uses(top)
    {
      hide TopOf, Contenders, Keys, Sound, Fair, Caps, Flags;
      KeysAfter(Air(), was, rates[..]);
      StepDownAfter(was, rates[..], top[0] / MCS_GROUP_RATES, top[0] % MCS_GROUP_RATES);
    }

    // The pass over was, with tp0 and start the rates in use before it, made the ranking
    // top, and the rates in use are those of top and of the pass, made robust.
    ghost predicate Selected(was: seq<Stats>, tp0: nat, start: nat, top: seq<nat>)
      reads `avgAmpduLen, `maxProb, rates, maxTp
    {
      && Uses(top)
      && |was| == CELLS && Started(supported, was)
      && tp0 < CELLS && start < CELLS && maxTp[0] < CELLS && maxProb < CELLS
      && var now := Finals(Air(), supported, was);
      && Estimable(now)
      && Modified(now, Keys(Air(), now), top[0], ProbAfter(Air(), supported, was, tp0 / MCS_GROUP_RATES, start, CELLS),
                  maxTp[0], maxProb)
    }

    // The end of minstrel_ht_tx_status: recompute when the interval has elapsed, then
    // rewrite the rate table if anything changed.
    method Settle(update: bool, expired: bool)
      requires Valid() && (expired ==> KeepsAverage(avgAmpduLen, ampduLen, ampduPackets))
      modifies this, rates, groups, maxTp, rateTable
      ensures Valid()
      ensures BudgetNow() ==
              if expired then old(BudgetNow()).(count := 10 * multiset(Flags(supported))[true]) else old(BudgetNow())
      ensures sampleGroup == old(sampleGroup) && Cursors() == old(Cursors())
      ensures expired ==> AllButRetry(Finals(Air(), supported, old(rates[..])), rates[..])
      ensures expired ==> ampduLen == ampduPackets == 0
      ensures expired && old(ampduPackets) > 0 ==>
                avgAmpduLen == NewAvg(old(avgAmpduLen), old(ampduLen), old(ampduPackets))
      ensures !expired || old(ampduPackets) == 0 ==> avgAmpduLen == old(avgAmpduLen)
      ensures !expired ==> AllButRetry(old(rates[..]), rates[..]) && groups[..] == old(groups[..])
      ensures !expired ==> ampduLen == old(ampduLen) && ampduPackets == old(ampduPackets)
      ensures !expired ==> forall i :: 1 <= i < 4 ==> maxTp[i] == old(maxTp[i])
      ensures !expired && !update ==>
                && rates[..] == old(rates[..]) && maxTp[0] == old(maxTp[0]) && maxProb == old(maxProb)
                && rateTable[..] == old(rateTable[..])
      ensures !expired && update ==>
                Modified(old(rates[..]), old(KeysNow()), old(maxTp[0]), old(maxProb), maxTp[0], maxProb)
      ensures update || expired ==> Robust(rates[..], maxTp[0], maxProb) && TableWritten()
      ensures expired ==> FreshlyPlanned()
      ensures expired ==> exists top: seq<nat> :: Selected(old(rates[..]), old(maxTp[0]), old(maxProb), top)
    {
      hide TablePlanned, FreshlyPlanned, Ranks, HasGroup, Caps, Fair, Keys, Estimable, Contenders, NewAvg, Sound,
           Modified, TopOf, Flags, AllButRetry,
           Started, GroupsRanked, TableWritten, Finals, Robust, Listed, ListsDescend, Uses, Passed, StepDown,
           KeepsAverage, Named, ListsNamed, LoadOk, ProbAfter, Lists, Cursors;
      if expired {
        UpdateStats();
      }
      ghost var mid, keys, tp0, mp, top := rates[..], KeysNow(), maxTp[0], maxProb, maxTp[..];
      ButRetrySelf(mid);
      LoadIs();
      if update || expired {
        UpdateRates();
        ModifiedIsRobust(mid, keys, tp0, mp, maxTp[0], maxProb);
        ModifiedNamed(mid, keys, tp0, mp, maxTp[0], maxProb);
        RobustAfter(mid, rates[..], maxTp[0], maxProb);
        LoadKept(mid);
        if expired {
          PlannedAnew(old(rates[..]), mid);
          ModifiedTop(mid, keys, tp0, mp, maxTp[0], maxProb);
          StillUses(mid, top);
          assert Selected(old(rates[..]), old(maxTp[0]), old(maxProb), top);
        }
      }
    }

    lemma LoadIs()
      requires LoadOk()
      ensures forall c :: 0 <= c < CELLS && Has(supported, c) ==> rates[..][c].attempts <= 765 * ampduLen + 2
    {
      hide Caps, Fair, Has;
    }

    lemma LoadKept(was: seq<Stats>)
      requires Configured() && |was| == CELLS && AllButRetry(was, rates[..])
      requires forall c :: 0 <= c < CELLS && Has(supported, c) ==> was[c].attempts <= 765 * ampduLen + 2
      ensures LoadOk()
    {
      hide Caps, Fair;
      forall c | 0 <= c < CELLS
        ensures rates[c].attempts == was[c].attempts
      {
        assert SameButRetry(was[c], rates[..][c]);
      }
    }

    // Counting a status and checking for sudden death.
    method TakeIn(s: Status) returns (update: bool)
      requires Valid() && WellFormed(s, cckRates, supported)
      requires CountersFit(ROOM) && AverageFits(Subframes(s), s.expired)
      modifies this, rates, maxTp
      ensures Valid() && (s.expired ==> KeepsAverage(avgAmpduLen, ampduLen, ampduPackets))
      ensures BudgetNow() == HtSampling.Refilled(old(BudgetNow()))
      ensures rates[..] == TakenAll(s, cckRates, supported, old(rates[..]))
      ensures maxTp[0] == AfterCheck(supported, Lists(), rates[..], old(maxTp[0]), true)
      ensures maxTp[1] == AfterCheck(supported, Lists(), rates[..], old(maxTp[1]), false)
      ensures maxTp[2] == old(maxTp[2]) && maxTp[3] == old(maxTp[3])
      ensures update == (Dying(rates[old(maxTp[0])]) || Dying(rates[old(maxTp[1])]))
      ensures sampleGroup == old(sampleGroup) && maxProb == old(maxProb) && avgAmpduLen == old(avgAmpduLen)
      ensures ampduLen == old(ampduLen) + Subframes(s) && ampduPackets == old(ampduPackets) + 1
    {
      hide Caps, Fair, Flags, Taken, WellFormed, ChainLength, Dying, Estimable, Sound, Named, ListsNamed, NamedOk,
           Subframes, ListsDescend, KeepsAverage, StatsOk, LoadOk, AfterCheck;
      ghost var was, len := rates[..], ampduLen;
      StatsAre();
      OneSubframe(s);
      Account(s);
      ReportChain(s);
      StillInOrder(s, was, len);
      update := CheckDeath();
    }

    // What StatsOk and LoadOk say, of the sequence of cells.
    lemma StatsAre()
      requires StatsOk() && LoadOk()
      ensures Estimable(rates[..])
      ensures forall c :: 0 <= c < CELLS ==>
                            if Has(supported, c) then Sound(rates[..][c]) && rates[..][c].attempts <= 765 * ampduLen + 2
                            else rates[..][c].probEwma == 0 && rates[..][c].tpAvg == 0
    {
      hide Caps, Fair, Has, Estimable, Sound;
    }

    lemma StillInOrder(s: Status, was: seq<Stats>, len: nat)
      requires Configured() && WellFormed(s, cckRates, supported) && Estimable(was)
      requires forall c :: 0 <= c < CELLS ==>
                             if Has(supported, c)
                             then Sound(was[c]) && was[c].attempts + ROOM < TWO32 && was[c].attempts <= 765 * len + 2
                             else was[c].probEwma == 0 && was[c].tpAvg == 0
      requires rates[..] == TakenAll(s, cckRates, supported, was)
      requires ampduLen == len + Subframes(s)
      ensures StatsOk() && LoadOk()
    {
      hide Caps, Fair, Has, Estimable, Sound, WellFormed, Taken, Started, ChainLength, Subframes;
      TakenInOrder(s, cckRates, supported, was, len);
      assert forall c :: 0 <= c < CELLS ==> rates[c] == rates[..][c];
    }

    // A status that does not end the interval changes the chosen rates exactly when one
    // of the two best rates is dying.
    ghost predicate Continues(taken: seq<Stats>, lists: seq<seq<nat>>, tp: seq<nat>, prob: nat, slots: seq<Slot>)
      requires |tp| == 4 && tp[0] < CELLS && tp[1] < CELLS && prob < CELLS
      reads this, rates, groups, maxTp, rateTable
    {
      && NamesOk() && Usable(Air()) && Estimable(taken) && ListsDescend(supported, lists)
      && maxTp[2] == tp[2] && maxTp[3] == tp[3]
      && if Dying(taken[tp[0]]) || Dying(taken[tp[1]])
         then
           && AllButRetry(taken, rates[..])
           && Modified(taken, Keys(Air(), taken),
                       AfterCheck(supported, lists, taken, tp[0], true), prob, maxTp[0], maxProb)
           && maxTp[1] == AfterCheck(supported, lists, taken, tp[1], false)
           && Robust(rates[..], maxTp[0], maxProb) && TableWritten()
         else rates[..] == taken && maxTp[..] == tp && maxProb == prob && rateTable[..] == slots
    }

    // One that does recomputes everything and chooses anew.
    ghost predicate Renews(taken: seq<Stats>, lists: seq<seq<nat>>, tp: seq<nat>, prob: nat)
      requires |tp| == 4 && tp[0] < CELLS && prob < CELLS
      reads this, rates, groups, maxTp, rateTable
    {
      && NamesOk() && Usable(Air()) && |taken| == CELLS && ListsDescend(supported, lists)
      && AllButRetry(Finals(Air(), supported, taken), rates[..])
      && Robust(rates[..], maxTp[0], maxProb) && TableWritten()
      && exists top: seq<nat> :: Selected(taken, AfterCheck(supported, lists, taken, tp[0], true), prob, top)
    }

    // The station's state, but for its sampling cursors.
    ghost function Now(): (v: View)
      requires Configured()
      reads this, rates, groups, maxTp, rateTable
      ensures |v.rates| == CELLS && |v.tp| == |v.slots| == 4
    {
      View(rates[..], groups[..], Lists(), maxTp[..], maxProb, rateTable[..],
           Load(avgAmpduLen, ampduLen, ampduPackets), BudgetNow())
    }

    // What a status does to a station in state v. A frame that was aggregated but carries
    // no status information is ignored; any other is counted, and ends the interval or
    // does not.
    ghost predicate Reacts(s: Status, v: View)
      requires Configured() && WellFormed(s, cckRates, supported)
      requires |v.rates| == CELLS && |v.tp| == 4 && v.tp[0] < CELLS && v.tp[1] < CELLS && v.prob < CELLS
      reads this, rates, groups, maxTp, rateTable
    {
      if Ignored(s) then Now() == v
      else
        var taken, refilled := TakenAll(s, cckRates, supported, v.rates), HtSampling.Refilled(v.budget);
        && CountsReported(s, cckRates, supported, v.rates, rates[..])
        && Now().load == LoadAfter(s, v.load)
        && if s.expired
           then
             && BudgetNow() == refilled.(count := 10 * multiset(Flags(supported))[true])
             && Renews(taken, v.lists, v.tp, v.prob)
           else
             && BudgetNow() == refilled && groups[..] == v.groups
             && Continues(taken, v.lists, v.tp, v.prob, v.slots)
    }

    // minstrel_ht_tx_status for an HT station.
    method TxStatus(s: Status)
      requires Valid() && WellFormed(s, cckRates, supported)
      requires !Ignored(s) ==> CountersFit(ROOM) && AverageFits(Subframes(s), s.expired)
      modifies this, rates, groups, maxTp, rateTable
      ensures Valid() && sampleGroup == old(sampleGroup) && Cursors() == old(Cursors())
      ensures Reacts(s, old(Now()))
      ensures old(TableWritten()) ==> TableWritten()
      ensures s.expired && !Ignored(s) ==> FreshlyPlanned()
    {
      hide FreshlyPlanned, Caps, Fair, Keys, Estimable, Flags, AllButRetry, Started, TableWritten, Robust,
           ListsDescend, TakenAll,
           Finals, WellFormed, CountsReported, AfterCheck, Selected, Dying, Modified, NewAvg, KeepsAverage, Subframes,
           Named, ListsNamed, LoadOk, Sound, Continues, Renews, Lists, Cursors, AllKeepSlots, WasWritten, Reacts, Now;
      ghost var v := Now();
      NowIs(v);
      if Ignored(s) {
        ReactsNot(s);
        return;
      }
      StatsAre();
      WrittenIs();
      var update := TakeIn(s);
      ghost var taken, mid := rates[..], maxTp[..];
      Settle(update, s.expired);
      StatusConserves(s, cckRates, supported, Air(), v.rates, rates[..]);
      if s.expired {
        RenewedBy(taken, v.lists, v.tp, v.prob, mid[0]);
      } else {
        ContinuedBy(update, taken, v.lists, v.tp, v.prob, v.slots, mid);
        if !update {
          TakenKeeps(s, v.rates);
          StillWritten(v.rates, v.tp, v.prob, v.slots);
        }
      }
      ReactsBy(s, v);
    }

    // In the station's fields: an aggregated frame without status information changes
    // nothing; any other status adds its subframes and itself to the running counters,
    // from which an expired interval takes the average.
    lemma StatusCounts(s: Status, v: View)
      requires Configured() && WellFormed(s, cckRates, supported)
      requires |v.rates| == CELLS && |v.tp| == 4 && v.tp[0] < CELLS && v.tp[1] < CELLS && v.prob < CELLS
      requires Reacts(s, v)
      ensures s.ctlAmpdu && !s.statAmpdu ==>
                && rates[..] == v.rates && groups[..] == v.groups && maxTp[..] == v.tp && maxProb == v.prob
                && rateTable[..] == v.slots && BudgetNow() == v.budget
                && Load(avgAmpduLen, ampduLen, ampduPackets) == v.load
      ensures var len := v.load.len + if s.statAmpdu then s.ampduLen else 1;
              s.statAmpdu || !s.ctlAmpdu ==>
                if s.expired
                then ampduLen == ampduPackets == 0 && avgAmpduLen == NewAvg(v.load.avg, len, v.load.packets + 1)
                else ampduLen == len && ampduPackets == v.load.packets + 1 && avgAmpduLen == v.load.avg
      ensures var taken := TakenAll(s, cckRates, supported, v.rates);
              (s.statAmpdu || !s.ctlAmpdu) && !s.expired && !Dying(taken[v.tp[0]]) && !Dying(taken[v.tp[1]]) ==>
                rates[..] == taken && maxTp[..] == v.tp && maxProb == v.prob && rateTable[..] == v.slots
    {
      hide Caps, Fair, Flags, WellFormed, Renews, CountsReported, TakenAll, Dying, NewAvg, Modified, AfterCheck, Robust,
           TableWritten, ListsDescend, Estimable, AllButRetry, Lists;
    }

    lemma NowIs(v: View)
      requires Configured() && v == Now()
      ensures v.rates == rates[..] && v.groups == groups[..] && v.lists == Lists() && v.tp == maxTp[..]
              && v.prob == maxProb
      ensures v.slots == rateTable[..] && v.load == Load(avgAmpduLen, ampduLen, ampduPackets) && v.budget == BudgetNow()
    {
    }

    lemma ReactsNot(s: Status)
      requires NamesOk() && WellFormed(s, cckRates, supported) && Ignored(s)
      ensures Reacts(s, Now())
    {
      hide Caps, Fair, Lists, WellFormed;
    }

    lemma ReactsBy(s: Status, v: View)
      requires Configured() && WellFormed(s, cckRates, supported) && !Ignored(s)
      requires |v.rates| == CELLS && |v.tp| == 4 && v.tp[0] < CELLS && v.tp[1] < CELLS && v.prob < CELLS
      requires CountsReported(s, cckRates, supported, v.rates, rates[..])
      requires Load(avgAmpduLen, ampduLen, ampduPackets) == LoadAfter(s, v.load)
      requires BudgetNow() ==
               if s.expired then HtSampling.Refilled(v.budget).(count := 10 * multiset(Flags(supported))[true])
               else HtSampling.Refilled(v.budget)
      requires var taken := TakenAll(s, cckRates, supported, v.rates);
               if s.expired then Renews(taken, v.lists, v.tp, v.prob)
               else groups[..] == v.groups && Continues(taken, v.lists, v.tp, v.prob, v.slots)
      ensures Reacts(s, v)
    {
      hide Caps, Fair, Lists, WellFormed, CountsReported, TakenAll, Renews, Continues, Flags, NewAvg;
    }

    // The table as it was for the given cells and rates in use.
    ghost predicate WasWritten(was: seq<Stats>, tp: seq<nat>, prob: nat, slots: seq<Slot>)
      requires Configured() && |was| == CELLS && |tp| == |slots| == 4 && tp[0] < CELLS && tp[1] < CELLS && prob < CELLS
    {
      && slots[0] == SlotFor(was[tp[0]], 0, tp[0], cckRates)
      && (maxRates >= 3 ==>
            && slots[1] == SlotFor(was[tp[1]], 1, tp[1], cckRates)
            && slots[2] == SlotFor(was[prob], 2, prob, cckRates)
            && slots[3].idx == -1)
      && (maxRates == 2 ==> slots[1] == SlotFor(was[prob], 1, prob, cckRates) && slots[2].idx == -1)
      && (maxRates < 2 ==> slots[1].idx == -1)
    }

    lemma WrittenIs()
      requires NamesOk()
      ensures TableWritten() <==> WasWritten(rates[..], maxTp[..], maxProb, rateTable[..])
    {
      hide Caps, Fair, SlotFor;
    }

    // Reports change nothing that a slot of the table depends on.
    lemma TakenKeeps(s: Status, was: seq<Stats>)
      requires WellFormed(s, cckRates, supported) && Configured() && |was| == CELLS
      requires forall c :: 0 <= c < CELLS && Has(supported, c) ==> Sound(was[c]) && was[c].attempts + ROOM < TWO32
      ensures AllKeepSlots(was, TakenAll(s, cckRates, supported, was))
    {
      hide Caps, Fair, WellFormed, Run, CellReports, Sound, Has;
      forall c | 0 <= c < CELLS
        ensures KeepsSlots(was[c], TakenAll(s, cckRates, supported, was)[c])
      {
        TakenSound(s, cckRates, supported, was, c);
      }
    }

    lemma StillWritten(was: seq<Stats>, tp: seq<nat>, prob: nat, slots: seq<Slot>)
      requires NamesOk() && |was| == CELLS && |tp| == |slots| == 4 && tp[0] < CELLS && tp[1] < CELLS && prob < CELLS
      requires AllKeepSlots(was, rates[..]) && maxTp[..] == tp && maxProb == prob && rateTable[..] == slots
      ensures WasWritten(was, tp, prob, slots) ==> TableWritten()
    {
      hide Caps, Fair, EncodeIdx;
      WrittenIs();
      assert KeepsSlots(was[tp[0]], rates[..][tp[0]]);
      assert KeepsSlots(was[tp[1]], rates[..][tp[1]]);
      assert KeepsSlots(was[prob], rates[..][prob]);
    }

    lemma ContinuedBy(update: bool, taken: seq<Stats>, lists: seq<seq<nat>>, tp: seq<nat>, prob: nat,
        slots: seq<Slot>, mid: seq<nat>)
      requires NamesOk() && Usable(Air()) && Estimable(taken) && ListsDescend(supported, lists)
      requires |tp| == |mid| == 4 && tp[0] < CELLS && tp[1] < CELLS && prob < CELLS
      requires update == (Dying(taken[tp[0]]) || Dying(taken[tp[1]]))
      requires mid[0] == AfterCheck(supported, lists, taken, tp[0], true)
      requires mid[1] == AfterCheck(supported, lists, taken, tp[1], false) && mid[2] == tp[2] && mid[3] == tp[3]
      requires AllButRetry(taken, rates[..]) && forall i :: 1 <= i < 4 ==> maxTp[i] == mid[i]
      requires !update ==> rates[..] == taken && maxTp[0] == mid[0] && maxProb == prob && rateTable[..] == slots
      requires update ==> Modified(taken, Keys(Air(), taken), mid[0], prob, maxTp[0], maxProb)
      requires update ==> Robust(rates[..], maxTp[0], maxProb) && TableWritten()
      ensures Continues(taken, lists, tp, prob, slots)
      ensures !update ==> maxTp[..] == tp
    {
      hide Caps, Fair, Keys, Estimable, AllButRetry, TableWritten, Robust, ListsDescend, Dying, Modified, Downgraded;
      if !update {
        assert maxTp[..] == tp;
      }
    }

    lemma RenewedBy(taken: seq<Stats>, lists: seq<seq<nat>>, tp: seq<nat>, prob: nat, tp0: nat)
      requires NamesOk() && Usable(Air()) && |taken| == CELLS && ListsDescend(supported, lists)
      requires |tp| == 4 && tp[0] < CELLS && prob < CELLS
      requires tp0 == AfterCheck(supported, lists, taken, tp[0], true)
      requires AllButRetry(Finals(Air(), supported, taken), rates[..])
      requires Robust(rates[..], maxTp[0], maxProb) && TableWritten()
      requires exists top: seq<nat> :: Selected(taken, tp0, prob, top)
      ensures Renews(taken, lists, tp, prob)
    {
      hide Caps, Fair, Finals, AllButRetry, TableWritten, Robust, ListsDescend, Selected, AfterCheck;
    }

    lemma OneSubframe(s: Status)
      requires WellFormed(s, cckRates, supported)
      ensures 1 <= Subframes(s) <= 255
    {
    }

    // ----- Sampling -----

    function Cfg(): Config
      requires Shaped(supported)
    {
      Config(Flags(supported), table, MCS_GROUP_RATES)
    }

    function SamplerNow(): Sampler
      reads this, groups
    {
      Sampler(sampleGroup, Cursors())
    }

    lemma SamplerReady()
      requires CursorsOk()
      ensures Ready(SamplerNow(), Cfg()) && HtSeek.Masks(supported, Cfg())
    {
      hide Caps, Fair;
    }

    // The ranked lists and probabilities of the groups, which sampling does not touch.
    ghost predicate ListsKept(was: seq<GroupData>, now: seq<GroupData>) {
      |was| == |now| && forall g :: 0 <= g < |was| ==> now[g] == was[g].(index := now[g].index, column := now[g].column)
    }

    // One turn of the loop of minstrel_set_next_sample_idx.
    method TickOnce() returns (found: bool)
      requires CursorsOk()
      modifies `sampleGroup, groups
      ensures CursorsOk() && ListsKept(old(groups[..]), groups[..])
      ensures Ready(old(SamplerNow()), Cfg())
      ensures SamplerNow() == Tick(old(SamplerNow()), Cfg())
      ensures found == HasGroup(supported, sampleGroup)
    {
      hide Caps, Fair, Flags, Ready, HasGroup;
      SamplerReady();
      ghost var was := Cursors();
      sampleGroup := (sampleGroup + 1) % GROUPS;
      found := HasGroup(supported, sampleGroup);
      if found {
        var mg := groups[sampleGroup];
        mg := mg.(index := mg.index + 1);
        if mg.index >= MCS_GROUP_RATES {
          mg := mg.(index := 0, column := mg.column + 1);
          if mg.column >= SampleTable.SAMPLE_COLUMNS {
            mg := mg.(column := 0);
          }
        }
        groups[sampleGroup] := mg;
        assert Cursors() == was[sampleGroup := Cursor(mg.index, mg.column)];
      }
      FlagIs(sampleGroup);
    }

    lemma FlagIs(g: nat)
      requires Configured() && g < GROUPS
      ensures Flags(supported)[g] == HasGroup(supported, g) && |Flags(supported)| == GROUPS
    {
    }

    // minstrel_set_next_sample_idx.
    method SetNextSampleIdx()
      requires CursorsOk()
      modifies `sampleGroup, groups
      ensures CursorsOk() && ListsKept(old(groups[..]), groups[..])
      ensures Ready(old(SamplerNow()), Cfg()) && SamplerNow() == Next(old(SamplerNow()), Cfg())
    {
      hide Caps, Fair, Flags, HasGroup, Next, Tick, Ready, SampleTable.Around, SomeFlag;
      ghost var s0, c := SamplerNow(), Cfg();
      SamplerReady();
      var found := false;
      GroupsAre();
      while !found
        invariant CursorsOk() && ListsKept(old(groups[..]), groups[..]) && Ready(SamplerNow(), c)
        invariant if found then SamplerNow() == Next(s0, c) else Next(SamplerNow(), c) == Next(s0, c)
        decreases !found, SearchLeft()
      {
        NextByTick(SamplerNow(), c);
        found := TickOnce();
        FlagIs(sampleGroup);
        SamplerReady();
      }
    }

    lemma GroupsAre()
      requires Configured()
      ensures |Cfg().flags| == GROUPS && true in Cfg().flags
    {
    }

    // The number of groups between the next one and one that is known to have rates.
    ghost function SearchLeft(): nat
      requires CursorsOk()
      reads this, groups
    {
      GroupsAre();
      SampleTable.Around(NextGroup(sampleGroup, GROUPS), SomeFlag(Cfg()), GROUPS)
    }

    // What the sampling table holds at the cursor of the current group.
    method ReadTable() returns (idx: nat)
      requires CursorsOk()
      ensures Ready(SamplerNow(), Cfg()) && idx == Value(SamplerNow(), Cfg()) < MCS_GROUP_RATES
    {
      SamplerReady();
      HtSeek.ValueInRange(SamplerNow(), Cfg());
      var mg := groups[sampleGroup];
      assert Cursors()[sampleGroup] == Cursor(mg.index, mg.column);
      idx := table[mg.column][mg.index];
    }

    // minstrel_check_sample_idx, including the open-ended search.
    method CheckSampleIdx(best: nat, group: nat, idx: nat) returns (g: nat, i: nat)
      requires CursorsOk() && best < CELLS && group < GROUPS && idx < MCS_GROUP_RATES
      modifies `sampleGroup, groups
      ensures CursorsOk() && ListsKept(old(groups[..]), groups[..]) && g < GROUPS && i < MCS_GROUP_RATES
      ensures Ready(old(SamplerNow()), Cfg()) && HtSeek.Masks(supported, Cfg())
      ensures if idx > best % MCS_GROUP_RATES && rates[best].probEwma < Percent(50)
              then
                var f := HtSeek.Seek(old(SamplerNow()), Cfg(), supported, best % MCS_GROUP_RATES);
                SamplerNow() == f.next && g == f.group && i == f.idx
              else SamplerNow() == old(SamplerNow()) && g == group && i == idx
    {
      hide Caps, Fair, Flags, HasGroup, Next, Value, Ready, HtSeek.Seek, HtSeek.Total, HtSeek.Masks;
      ghost var s0, c := SamplerNow(), Cfg();
      SamplerReady();
      g, i := group, idx;
      var limit := best % MCS_GROUP_RATES;
      if idx > limit && rates[best].probEwma < Percent(50) {
        ghost var f := HtSeek.Seek(s0, c, supported, limit);
        GroupsAre();
        while true
          invariant CursorsOk() && ListsKept(old(groups[..]), groups[..]) && Ready(SamplerNow(), c)
          invariant var r := HtSeek.Seek(SamplerNow(), c, supported, limit);
                    r.next == f.next && r.group == f.group && r.idx == f.idx
          decreases HtSeek.Total(SamplerNow(), c, GROUPS)
        {
          HtSeek.SeekStep(SamplerNow(), c, supported, limit);
          g := sampleGroup;
          i := ReadTable();
          SetNextSampleIdx();
          SamplerReady();
          if !supported[g][i] || i <= limit {
            return;
          }
        }
      }
    }

    // A sample carries the encoding of its cell, in one of the first two slots.
    ghost predicate Encoded(r: Sample)
      requires Configured() && r.Sampled?
    {
      r.slot < 2 && r.cell < CELLS && r.rate == TxRate(IdxOf(r.cell), GroupFlags(r.cell / MCS_GROUP_RATES), 1)
    }

    // minstrel_get_sample_rate.
    method GetSampleRate() returns (r: Sample)
      requires NamesOk() && CursorsOk()
      modifies `sampleWait, `sampleTries, `sampleGroup, groups
      ensures CursorsOk() && ListsKept(old(groups[..]), groups[..])
      ensures BudgetNow() == HtSampling.Asked(old(BudgetNow()), r.Sampled?)
      ensures r.Sampled? ==> HtSampling.Issues(old(BudgetNow()), true) && Encoded(r)
      ensures Ready(old(SamplerNow()), Cfg()) && HtSeek.Masks(supported, Cfg())
      ensures var s, c, best := old(SamplerNow()), Cfg(), Faster(maxTp[0], maxTp[1]);
              if old(sampleWait) > 0 || old(sampleTries) == 0 then r == NoSample && SamplerNow() == s
              else (
                HtSeek.ValueInRange(s, c);
                if !supported[s.group][Value(s, c)] then r == NoSample && SamplerNow() == Next(s, c)
                else
                  var d := HtSampling.Choose(s, c, supported, best % MCS_GROUP_RATES,
                                             rates[best].probEwma < Percent(50));
                  && SamplerNow() == d.next
                  && r == SampleOf(rates[..], maxTp[0], maxTp[1], maxProb, s.group, d.group, d.idx, cckRates))
    {
      hide Caps, Fair, Flags, HasGroup, Next, Value, Ready, HtSeek.Masks, HtSeek.Seek, Duration, EncodeIdx, Cell;
      SamplerReady();
      r := NoSample;
      if sampleWait > 0 {
        sampleWait := sampleWait - 1;
        return;
      }
      if sampleTries == 0 {
        return;
      }
      var first := sampleGroup;
      var idx := ReadTable();
      SetNextSampleIdx();
      if !supported[first][idx] {
        return;
      }
      var best := Faster(maxTp[0], maxTp[1]);
      var group, drawn := CheckSampleIdx(best, first, idx);
      r := MakeSample(best, first, group, drawn);
      if r.Sampled? {
        sampleTries := sampleTries - 1;
      }
    }

    // A sample of cell c drawn from a group goes to the second slot.
    predicate SecondSlot(drawnFrom: nat, c: nat)
      requires NamesOk() && drawnFrom < GROUPS && c < CELLS
      reads this, rates, groups, maxTp
    {
      Indirect(Faster(maxTp[0], maxTp[1]), Slower(maxTp[0], maxTp[1]), maxProb, c,
               rates[Cell(drawnFrom, c % MCS_GROUP_RATES)].probEwma)
    }

    // minstrel_ht_get_rate for a station with HT rates.
    method GetRate() returns (r: Sample)
      requires Valid()
      modifies `sampleWait, `sampleTries, `sampleGroup, groups
      ensures Valid() && Lists() == old(Lists())
      ensures BudgetNow() == HtSampling.Asked(old(BudgetNow()), r.Sampled?)
      ensures r.Sampled? ==> HtSampling.Issues(old(BudgetNow()), true) && Encoded(r)
      ensures r.Sampled? ==> r.cell != maxTp[0] && r.cell != maxProb
      ensures r.Sampled? ==> (r.slot == 1 <==> SecondSlot(old(sampleGroup), r.cell))
    {
      hide Caps, Fair, Flags, StatsOk, AirOk, LoadOk, Ready, HtSeek.Masks, Encoded, Next, Value, ListsDescend, Named,
           ListsNamed;
      ghost var was, lists := groups[..], Lists();
      r := GetSampleRate();
      forall g | 0 <= g < GROUPS
        ensures groups[g].maxGroupTp == was[g].maxGroupTp && groups[g].maxGroupProb == was[g].maxGroupProb
      {
        assert groups[g] == groups[..][g];
      }
      assert Lists() == lists;
    }

    // The part of minstrel_get_sample_rate that follows the draw.
    method MakeSample(best: nat, first: nat, group: nat, drawn: nat) returns (r: Sample)
      requires NamesOk() && best == Faster(maxTp[0], maxTp[1])
      requires first < GROUPS && group < GROUPS && drawn < MCS_GROUP_RATES
      ensures r == SampleOf(rates[..], maxTp[0], maxTp[1], maxProb, first, group, drawn, cckRates)
      ensures r.Sampled? ==> Encoded(r)
    {
      hide Caps, Fair, Flags, Duration, EncodeIdx;
      var prob := rates[Cell(first, drawn)].probEwma;
      var mcs := drawn;
      if mcs > best % MCS_GROUP_RATES + 1 {
        mcs := best % MCS_GROUP_RATES + best % 2 + 1;
      }
      var cell := Cell(group, mcs);
      if cell == maxTp[0] || cell == maxProb {
        return NoSample;
      }
      var slot := if Indirect(best, Slower(maxTp[0], maxTp[1]), maxProb, cell, prob) then 1 else 0;
      r := Sampled(cell, slot, TxRate(IdxOf(cell), GroupFlags(group), 1));
    }

    // ----- Resets -----

    // minstrel_clear_unfitable_rate_stats.
    method ClearUnfit(rateIndex: nat)
      requires Valid()
      modifies rates
      ensures Valid() && (old(TableWritten()) ==> TableWritten())
      ensures forall c :: 0 <= c < CELLS ==> rates[c] == Unfit(supported, rateIndex, old(rates[c]), c)
    {
      hide Caps, Fair, Flags, HasGroup, ListsDescend, Named, ListsNamed, TableWritten, WasWritten, AllKeepSlots;
      ghost var was := rates[..];
      WrittenIs();
      var g := 0;
      while g < GROUPS
        invariant 0 <= g <= GROUPS
        invariant forall c :: 0 <= c < CELLS ==>
                                rates[c] == if c < MCS_GROUP_RATES * g
                                  then Unfit(supported, rateIndex, old(rates[c]), c) else old(rates[c])
      {
        var i := rateIndex + 2;
        if i <= MCS_GROUP_RATES && HasGroup(supported, g) {
          while i < MCS_GROUP_RATES
            invariant rateIndex + 2 <= i <= MCS_GROUP_RATES
            invariant forall c :: 0 <= c < CELLS ==>
                                    rates[c] == if c < MCS_GROUP_RATES * g + i
                                      then Unfit(supported, rateIndex, old(rates[c]), c) else old(rates[c])
          {
            var c := Cell(g, i);
            if supported[g][i] && rates[c].succHist != 0 {
              rates[c] := rates[c].(attempts := 1, lastAttempts := 0, attHist := 0,
                                    success := 0, lastSuccess := 0, succHist := 0, tpAvg := 0);
            }
            i := i + 1;
          }
        } else if !HasGroup(supported, g) {
          NoneInGroup(supported, g);
        }
        g := g + 1;
      }
      UnfitInOrder(rateIndex, was);
      UnfitKeepsSlots(rateIndex, was);
      StillWritten(was, maxTp[..], maxProb, rateTable[..]);
    }

    lemma UnfitKeepsSlots(rateIndex: nat, was: seq<Stats>)
      requires Configured() && |was| == CELLS
      requires forall c :: 0 <= c < CELLS ==> rates[c] == Unfit(supported, rateIndex, was[c], c)
      ensures AllKeepSlots(was, rates[..])
    {
      hide Caps, Fair, Flags, HasGroup, Has;
      assert forall c :: 0 <= c < CELLS ==> rates[..][c] == rates[c];
    }

    lemma UnfitInOrder(rateIndex: nat, was: seq<Stats>)
      requires Configured() && |was| == CELLS && Estimable(was)
      requires forall c :: 0 <= c < CELLS ==>
                             if Has(supported, c) then Sound(was[c]) else was[c].probEwma == 0 && was[c].tpAvg == 0
      requires forall c :: 0 <= c < CELLS && Has(supported, c) ==> was[c].attempts <= 765 * ampduLen + 2
      requires forall c :: 0 <= c < CELLS ==> rates[c] == Unfit(supported, rateIndex, was[c], c)
      ensures StatsOk() && LoadOk()
    {
      hide Caps, Fair, Flags, HasGroup, Listed;
      assert forall c :: 0 <= c < CELLS ==> rates[..][c] == rates[c];
    }

    // The loop of minstrel_init_start_stats.
    method StartStats(maxRate: nat, bw: nat)
      requires StatsOk() && LoadOk() && maxRate < MCS_GROUP_RATES
      modifies rates
      ensures StatsOk() && LoadOk()
      ensures forall c :: 0 <= c < CELLS ==> rates[c] == Restarted(supported, bw, maxRate, old(rates[c]), c)
    {
      hide Caps, Fair, Flags, HasGroup, GroupBandwidth;
      ghost var was := rates[..];
      var g := 0;
      while g < GROUPS
        invariant 0 <= g <= GROUPS
        invariant forall c :: 0 <= c < CELLS ==>
                                rates[c] == if c < MCS_GROUP_RATES * g
                                  then Restarted(supported, bw, maxRate, was[c], c) else was[c]
      {
        if GroupBandwidth(g) == bw && supported[g][maxRate] {
          rates[Cell(g, maxRate)] := StartedTop(rates[Cell(g, maxRate)]);
          rates[Cell(g, 2)] := StartedLow(rates[Cell(g, 2)]);
        }
        g := g + 1;
      }
      RestartedInOrder(maxRate, bw, was);
    }

    lemma RestartedInOrder(maxRate: nat, bw: nat, was: seq<Stats>)
      requires Configured() && |was| == CELLS && Estimable(was) && maxRate < MCS_GROUP_RATES
      requires forall c :: 0 <= c < CELLS ==>
                             if Has(supported, c) then Sound(was[c])
                             else was[c].probEwma == 0 && was[c].tpAvg == 0
      requires forall c :: 0 <= c < CELLS && Has(supported, c) ==> was[c].attempts <= 765 * ampduLen + 2
      requires forall c :: 0 <= c < CELLS ==> rates[c] == Restarted(supported, bw, maxRate, was[c], c)
      ensures StatsOk() && LoadOk()
    {
      hide Caps, Fair, Flags, HasGroup, Listed, GroupBandwidth;
      assert forall c :: 0 <= c < CELLS ==> rates[..][c] == rates[c];
    }

    // minstrel_init_start_stats. It recomputes the statistics but does not write the rate
    // table.
    method InitStartStats(maxRate: nat, bw: nat)
      requires Valid() && KeepsAverage(avgAmpduLen, ampduLen, ampduPackets) && maxRate < MCS_GROUP_RATES
      modifies this, rates, groups, maxTp
      ensures Valid()
      ensures ampduLen == ampduPackets == 0
      ensures avgAmpduLen ==
              if old(ampduPackets) > 0 then NewAvg(old(avgAmpduLen), old(ampduLen), old(ampduPackets))
              else old(avgAmpduLen)
      ensures BudgetNow() == old(BudgetNow()).(count := 10 * multiset(Flags(supported))[true])
      ensures sampleGroup == old(sampleGroup) && Cursors() == old(Cursors())
      ensures exists start: seq<Stats> ::
                && |start| == CELLS
                && (forall c :: 0 <= c < CELLS ==> start[c] == Restarted(supported, bw, maxRate, old(rates[c]), c))
                && Rated(start, old(groups[..])) && Recomputed(start)
                && MostProbable(start, old(maxTp[0]), old(maxProb))
    {
      hide Caps, Fair, Flags, HasGroup, GroupBandwidth, Rated, Restarted, Estimable, Sound, ListsDescend, Named,
           ListsNamed, KeepsAverage, Recomputed, MostProbable, NewAvg, Lists, Cursors;
      StartStats(maxRate, bw);
      ghost var start := rates[..];
      UpdateStats();
      assert Rated(start, old(groups[..]));
    }
  }
}
