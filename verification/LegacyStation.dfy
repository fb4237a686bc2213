/** A station without HT rates: its rate table, the chain of rates in use and its
    sampling state, updated in place by every operation. */
module LegacyStation {
  import opened FixedPoint
  import opened RateStats
  import opened LegacyModel
  import opened SampleCursor
  import Retransmit
  import Sampling = LegacySampling
  import SampleTable

  // What a rate of the band brings to the table: its frame and acknowledgement times
  // and whether it is an ERP rate.
  datatype Setup = Setup(perfectTxTime: nat, ackTime: nat, erp: bool)

  datatype Slot = Slot(idx: int, count: nat, countCts: nat, countRts: nat)

  // The part of a rate that never changes.
  predicate SameSetup(a: Rate, b: Rate) {
    a.rix == b.rix && a.perfectTxTime == b.perfectTxTime && a.ackTime == b.ackTime && a.retryCountCts == b.retryCountCts
  }

  function RixsOf(rs: seq<Rate>): (s: seq<int>)
    ensures |s| == |rs| && forall k :: 0 <= k < |rs| ==> s[k] == rs[k].rix
  {
    seq(|rs|, k requires 0 <= k < |rs| => rs[k].rix)
  }

  function LimitsOf(rs: seq<Rate>): (s: seq<int>)
    ensures |s| == |rs| && forall k :: 0 <= k < |rs| ==> s[k] == rs[k].sampleLimit
  {
    seq(|rs|, k requires 0 <= k < |rs| => rs[k].sampleLimit)
  }

  function TimesOf(rs: seq<Rate>): (s: seq<nat>)
    ensures |s| == |rs| && forall k :: 0 <= k < |rs| ==> s[k] == rs[k].perfectTxTime
  {
    seq(|rs|, k requires 0 <= k < |rs| => rs[k].perfectTxTime)
  }

  lemma RixsKept(rs: seq<Rate>, k: nat, st: Stats)
    requires k < |rs|
    ensures RixsOf(rs[k := rs[k].(stats := st)]) == RixsOf(rs)
  {
  }

  predicate SameSetups(a: seq<Rate>, b: seq<Rate>) {
    |a| == |b| && forall k :: 0 <= k < |a| ==> SameSetup(a[k], b[k])
  }

  lemma SetupsKept(a: seq<Rate>, b: seq<Rate>, n: nat)
    requires SameSetups(a, b) && n <= |a|
    ensures RixsOf(a) == RixsOf(b) && TimesOf(a[..n]) == TimesOf(b[..n])
  {
    assert forall k :: 0 <= k < |a| ==> a[k].rix == b[k].rix && a[k].perfectTxTime == b[k].perfectTxTime;
  }

  // The entry that minstrel_rate_init writes for a supported rate of the band: its
  // statistics are zero but for its retry counts. Rates that are not ERP use the plain
  // count under CTS protection.
  ghost predicate IsNew(r: Rate, rix: int, x: Setup, spAck: nat, l: Retransmit.Link) {
    && r.rix == rix && r.perfectTxTime == x.perfectTxTime && r.ackTime == x.ackTime && r.sampleLimit == -1
    && r.stats == ZERO.(retryCount := r.stats.retryCount, retryCountRtscts := r.stats.retryCountRtscts)
    && r.adjustedRetryCount == r.stats.retryCount
    && exists cts: nat ::
         && Planned(l, x.perfectTxTime, x.ackTime, spAck, r.stats.retryCount, cts, r.stats.retryCountRtscts)
         && r.retryCountCts == if x.erp then cts else r.stats.retryCount
  }

  function RefreshTp(x: Rate): Rate {
    x.(stats := x.stats.(tpAvg := TpAvg(x.perfectTxTime, x.stats.probEwma)))
  }

  class Station {
    const supp: seq<bool>
    const nRates: nat
    const maxRates: nat
    const link: Retransmit.Link
    const lowestRix: nat
    const r: array<Rate>
    const table: array2<nat>
    const maxTp: array<nat>
    const rateTable: array<Slot>
    var maxProb: nat
    var totalPackets: nat
    var samplePackets: nat
    var sampleDeferred: nat
    var prevSample: bool
    var sampleRow: nat
    var sampleColumn: nat

    function Rixs(): (s: seq<int>)
      reads r
      ensures |s| == r.Length && forall k :: 0 <= k < r.Length ==> s[k] == r[k].rix
    {
      RixsOf(r[..])
    }

    ghost function Columns(): (s: seq<seq<nat>>)
      requires table.Length1 == SampleTable.SAMPLE_COLUMNS
      reads table
      ensures |s| == SampleTable.SAMPLE_COLUMNS
      ensures forall c :: 0 <= c < |s| ==> s[c] == SampleTable.LegacyColumn(table, c)
    {
      seq(SampleTable.SAMPLE_COLUMNS,
        c requires 0 <= c < SampleTable.SAMPLE_COLUMNS reads table => SampleTable.LegacyColumn(table, c))
    }

    ghost predicate Shaped() {
      && 0 < nRates <= r.Length == |supp| && nRates < SampleTable.EMPTY
      && maxTp.Length == 4 && rateTable.Length == 4
      && table.Length0 == nRates && table.Length1 == SampleTable.SAMPLE_COLUMNS
    }

    ghost predicate TableOk()
      reads r
    {
      Shaped() && TableFor(Rixs(), supp) && nRates == |Indices(supp, |supp|)|
    }

    ghost predicate StatsOk()
      reads r
    {
      Shaped() && forall k :: 0 <= k < nRates ==> Sound(r[k].stats)
    }

    ghost predicate SamplingOk()
      reads this, r, table, maxTp
    {
      && Shaped() && Fair(Columns(), nRates)
      && sampleRow < nRates && sampleColumn < SampleTable.SAMPLE_COLUMNS
      && (forall k :: 0 <= k < nRates ==> -1 <= r[k].sampleLimit <= Sampling.LIMIT)
      && (forall j :: 0 <= j < 4 ==> maxTp[j] < nRates)
      && maxProb < nRates
    }

    ghost predicate Valid()
      reads this, r, table, maxTp
    {
      TableOk() && StatsOk() && SamplingOk()
    }

    ghost predicate CountersFit(room: nat)
      requires Shaped()
      reads r
    {
      forall k :: 0 <= k < nRates ==> r[k].stats.attempts + room < TWO32
    }

    // The state and the constants of the sampling budget.
    ghost function SamplingNow(): Sampling.Sampling
      requires Shaped()
      reads this, r, maxTp
    {
      Sampling.Sampling(totalPackets, samplePackets, sampleDeferred, prevSample, Cursor(sampleRow, sampleColumn),
                        LimitsOf(r[..nRates]), maxTp[0])
    }

    ghost function PlanNow(): Sampling.Plan
      requires Shaped()
      reads r, table
    {
      Sampling.Plan(Columns(), nRates, TimesOf(r[..nRates]))
    }

    lemma SamplingFits()
      requires SamplingOk()
      ensures Sampling.Fit(SamplingNow(), PlanNow())
    {
      hide Fair;
    }

    // minstrel_rate_init for a station that supports at least one rate of its band.
    constructor (supp: seq<bool>, setups: seq<Setup>, spAck: nat, rnd: seq<seq<nat>>, maxRates: nat,
        link: Retransmit.Link)
      requires true in supp && |supp| < SampleTable.EMPTY && |setups| == |supp|
      requires |rnd| == SampleTable.SAMPLE_COLUMNS && forall c :: 0 <= c < |rnd| ==> |rnd[c]| == 8
      ensures fresh(r) && fresh(table) && fresh(maxTp) && fresh(rateTable)
      ensures Valid() && this.supp == supp && this.maxRates == maxRates && this.link == link
      ensures nRates == |Indices(supp, |supp|)|
      ensures forall k :: 0 <= k < nRates ==>
                            IsNew(r[k], Indices(supp, |supp|)[k], setups[Indices(supp, |supp|)[k]], spAck, link)
      ensures forall c :: 0 <= c < SampleTable.SAMPLE_COLUMNS ==>
                            Columns()[c] == SampleTable.Filled(nRates, SampleTable.Offsets(rnd[c], nRates), nRates)
      ensures lowestRix < |supp| && supp[lowestRix] && forall i :: 0 <= i < lowestRix ==> !supp[i]
      ensures TableWritten()
      ensures !prevSample && totalPackets == samplePackets == sampleDeferred == sampleRow == sampleColumn == 0
              && maxTp[0] == 0
    {
      SomeIndex(supp);
      var n := |Indices(supp, |supp|)|;
      this.supp, nRates, this.maxRates, this.link := supp, n, maxRates, link;
      lowestRix := Lowest(supp, 0);
      r := new Rate[|supp|];
      table := new nat[n, SampleTable.SAMPLE_COLUMNS];
      maxTp := new nat[4];
      rateTable := new Slot[4];
      maxProb, totalPackets, samplePackets, sampleDeferred, prevSample := 0, 0, 0, 0, false;
      sampleRow, sampleColumn := 0, 0;
      new;
      hide Indices, TableFor, Fair, IsNew, TableWritten, Columns, Sound;
      Fill(setups, spAck, rnd);
    }

    // The part of minstrel_rate_init that fills the station's tables.
    method Fill(setups: seq<Setup>, spAck: nat, rnd: seq<seq<nat>>)
      requires Shaped() && |setups| == |supp| && nRates == |Indices(supp, |supp|)|
      requires |rnd| == SampleTable.SAMPLE_COLUMNS && forall c :: 0 <= c < |rnd| ==> |rnd[c]| == 8
      modifies r, table, maxTp, rateTable
      ensures TableOk() && StatsOk() && Fair(Columns(), nRates)
      ensures forall k :: 0 <= k < nRates ==> r[k].sampleLimit == -1
      ensures forall j :: 0 <= j < 4 ==> maxTp[j] == 0
      ensures forall k :: 0 <= k < nRates ==>
                            IsNew(r[k], Indices(supp, |supp|)[k], setups[Indices(supp, |supp|)[k]], spAck, link)
      ensures forall c :: 0 <= c < SampleTable.SAMPLE_COLUMNS ==>
                            Columns()[c] == SampleTable.Filled(nRates, SampleTable.Offsets(rnd[c], nRates), nRates)
      ensures TableWritten()
    {
      hide Indices, TableFor, Fair, IsNew, TableWritten, Columns;
      BuildTable(setups, spAck);
      forall j | 0 <= j < 4 {
        maxTp[j] := 0;
      }
      SampleTable.InitLegacyTable(table, rnd);
      ColumnsFair(rnd);
      UpdateRates();
    }

    lemma ColumnsFair(rnd: seq<seq<nat>>)
      requires Shaped() && |rnd| == SampleTable.SAMPLE_COLUMNS
      requires forall c :: 0 <= c < |rnd| ==> |rnd[c]| == 8
      requires forall c :: 0 <= c < SampleTable.SAMPLE_COLUMNS ==>
                             SampleTable.LegacyColumn(table, c) ==
                             SampleTable.Filled(nRates, SampleTable.Offsets(rnd[c], nRates), nRates)
      ensures Fair(Columns(), nRates)
    {
      forall c | 0 <= c < SampleTable.SAMPLE_COLUMNS
        ensures SampleTable.Permutation(Columns()[c])
      {
        SampleTable.FilledIsPermutation(nRates, SampleTable.Offsets(rnd[c], nRates));
      }
    }

    // The loops of minstrel_rate_init over the rates of the band.
    method BuildTable(setups: seq<Setup>, spAck: nat)
      requires Shaped() && |setups| == |supp| && nRates == |Indices(supp, |supp|)|
      modifies r
      ensures TableOk() && StatsOk()
      ensures forall k :: 0 <= k < nRates ==> r[k].sampleLimit == -1
      ensures forall k :: 0 <= k < nRates ==>
                            IsNew(r[k], Indices(supp, |supp|)[k], setups[Indices(supp, |supp|)[k]], spAck, link)
    {
      hide Planned;
      var n, i := 0, 0;
      while i < |supp|
        invariant 0 <= i <= |supp| && n == |Indices(supp, i)|
        invariant forall k :: 0 <= k < n ==> IsNew(r[k], Indices(supp, i)[k], setups[Indices(supp, i)[k]], spAck, link)
      {
        if supp[i] {
          var x := setups[i];
          var retry, cts, rtscts := PlanRetries(link, x.perfectTxTime, x.ackTime, spAck);
          r[n] := Rate(i, if x.erp then cts else retry, retry, x.perfectTxTime, x.ackTime, -1,
                       ZERO.(retryCount := retry, retryCountRtscts := rtscts));
          assert IsNew(r[n], i, x, spAck, link);
          n := n + 1;
        }
        i := i + 1;
      }
      BlankRest(n);
    }

    // The last loop of minstrel_rate_init.
    method BlankRest(n: nat)
      requires n <= r.Length
      modifies r
      ensures forall k :: 0 <= k < r.Length ==> r[k] == if k < n then old(r[k]) else old(r[k]).(rix := -1)
    {
      forall k | n <= k < r.Length {
        r[k] := r[k].(rix := -1);
      }
    }

    // ----- The table of rates -----

    // rix_to_ndx.
    method RixToNdx(rix: int) returns (n: int)
      requires rix < r.Length
      ensures n == if rix < 0 then rix else Search(Rixs(), rix, rix)
    {
      var i := rix;
      while i >= 0 && r[i].rix != rix
        invariant i <= rix && (rix >= 0 ==> -1 <= i)
        invariant rix >= 0 ==> Search(Rixs(), rix, i) == Search(Rixs(), rix, rix)
        invariant rix < 0 ==> i == rix
      {
        i := i - 1;
      }
      n := i;
    }

    // ----- Recomputing the statistics -----

    ghost function Ps(): (s: seq<nat>)
      requires Shaped()
      reads r
      ensures |s| == nRates && forall k :: 0 <= k < nRates ==> s[k] == r[k].stats.probEwma
    {
      seq(nRates, k requires 0 <= k < nRates reads r requires nRates <= r.Length => r[k].stats.probEwma)
    }

    ghost function Tps(): (s: seq<nat>)
      requires Shaped()
      reads r
      ensures |s| == nRates && forall k :: 0 <= k < nRates ==> s[k] == r[k].stats.tpAvg
    {
      seq(nRates, k requires 0 <= k < nRates reads r requires nRates <= r.Length => r[k].stats.tpAvg)
    }

    // minstrel_sort_best_tp_rates. Its list is thrown away by the caller; what remains
    // are the estimates that it stores on the way.
    method SortBest(i: nat, tpList: array<nat>)
      requires Shaped() && i < nRates && tpList.Length == 4 && tpList != maxTp
      requires forall j :: 0 <= j < 4 ==> tpList[j] < nRates
      modifies r, tpList
      ensures forall k :: 0 <= k < r.Length ==>
                            r[k] == old(r[k]) || (r[k] == RefreshTp(old(r[k])) && (k == i || k in old(tpList[..])))
      ensures r[i] == RefreshTp(old(r[i]))
      ensures forall j :: 0 <= j < 4 ==> tpList[j] == i || tpList[j] in old(tpList[..])
    {
      hide TpAvg;
      ghost var list := tpList[..];
      var j := 4;
      r[i] := RefreshTp(r[i]);
      while j > 0
        invariant 0 <= j <= 4 && tpList[..] == list
        invariant forall k :: 0 <= k < r.Length ==>
                                r[k] == old(r[k]) || (r[k] == RefreshTp(old(r[k])) && (k == i || k in list))
        invariant r[i] == RefreshTp(old(r[i]))
      {
        var tmp := tpList[j - 1];
        assert tmp == list[j - 1];
        r[tmp] := RefreshTp(r[tmp]);
        if r[i].stats.tpAvg < r[tmp].stats.tpAvg {
          break;
        }
        j := j - 1;
      }
      if j < 3 {
        forall k | j < k < 4 {
          tpList[k] := tpList[k - 1];
        }
      }
      if j < 4 {
        tpList[j] := i;
      }
    }

    // The body of the first loop of minstrel_update_stats.
    method RefreshRate(i: nat, tpList: array<nat>, picked: nat) returns (k: nat)
      requires Shaped() && i < nRates && tpList.Length == 4 && tpList != maxTp
      requires forall j :: 0 <= j < 4 ==> tpList[j] <= i
      requires picked <= i && (forall j :: 0 <= j < i ==> r[j] == RefreshTp(r[j]))
      modifies r, tpList
      ensures forall j :: 0 <= j < r.Length && j != i ==> r[j] == old(r[j])
      ensures r[i] == Updated(old(r[i]))
      ensures forall j :: 0 <= j < 4 ==> tpList[j] <= i
      ensures k == if r[i].stats.probEwma >= Percent(95)
                   then (if r[i].stats.tpAvg >= r[picked].stats.tpAvg then i else picked)
                   else (if r[i].stats.probEwma >= r[picked].stats.probEwma then i else picked)
    {
      hide TpAvg, Recalculated;
      ghost var was := r[..];
      var mr := r[i];
      var mrs := CalcRateStats(mr.stats);
      mr := mr.(stats := mrs);
      if mrs.probEwma > Percent(95) || mrs.probEwma < Percent(10) {
        mr := mr.(adjustedRetryCount := mrs.retryCount / 2);
        if mr.adjustedRetryCount > 2 {
          mr := mr.(adjustedRetryCount := 2);
        }
        mr := mr.(sampleLimit := 100);
      } else {
        mr := mr.(sampleLimit := -1, adjustedRetryCount := mrs.retryCount);
      }
      if mr.adjustedRetryCount == 0 {
        mr := mr.(adjustedRetryCount := 2);
      }
      r[i] := mr;
      SortBest(i, tpList);
      k := picked;
      if mrs.probEwma >= Percent(95) {
        var curTp := TpAvg(mr.perfectTxTime, mrs.probEwma);
        var pickedTp := TpAvg(r[picked].perfectTxTime, r[picked].stats.probEwma);
        if curTp >= pickedTp {
          k := i;
        }
      } else if mrs.probEwma >= r[picked].stats.probEwma {
        k := i;
      }
    }

    // The first loop of minstrel_update_stats.
    method RefreshRates() returns (picked: nat)
      requires Shaped()
      modifies r
      ensures forall k :: 0 <= k < r.Length ==> r[k] == if k < nRates then Updated(old(r[k])) else old(r[k])
      ensures forall k :: 0 <= k < nRates ==> Adjusted(r[k])
      ensures picked == Pick(Ps(), Tps(), nRates)
    {
      hide Adjusted, TpAvg, Recalculated, Updated, Pick, RefreshTp, Percent;
      ghost var was := r[..];
      ghost var ps := seq(nRates, k requires 0 <= k < nRates => Updated(was[k]).stats.probEwma);
      ghost var tps := seq(nRates, k requires 0 <= k < nRates => Updated(was[k]).stats.tpAvg);
      var tpList := new nat[4](_ => 0);
      picked := 0;
      var i := 0;
      PickNext(ps, tps, 0);
      while i < nRates
        invariant 0 <= i <= nRates && picked == Pick(ps, tps, i)
        invariant forall j :: 0 <= j < 4 ==> tpList[j] <= i && (i == 0 ==> tpList[j] == 0)
        invariant forall k :: 0 <= k < r.Length ==> r[k] == if k < i then Updated(was[k]) else was[k]
        invariant forall k :: 0 <= k < i ==> Adjusted(r[k])
      {
        forall j | 0 <= j < i
          ensures r[j] == RefreshTp(r[j])
        {
          UpdatedIsFresh(was[j]);
        }
        picked := RefreshRate(i, tpList, picked);
        UpdatedIs(was[i]);
        PickNext(ps, tps, i);
        i := i + 1;
      }
      assert Ps() == ps && Tps() == tps;
    }

    lemma UpdatedIsFresh(x: Rate)
      ensures Updated(x) == RefreshTp(Updated(x))
    {
      hide TpAvg, Recalculated;
    }

    // One entry of the chain: the scan of the second loop of minstrel_update_stats.
    method ScanChain(tpRate: array<nat>, j: nat)
      requires Shaped() && tpRate.Length == 4 && j < 4 && tpRate != maxTp
      requires tpRate[j] == 0 && (j > 0 ==> tpRate[j - 1] < nRates)
      modifies tpRate
      ensures forall k :: 0 <= k < 4 && k != j ==> tpRate[k] == old(tpRate[k])
      ensures tpRate[j] < nRates
      ensures if j > 0 && tpRate[j - 1] == 0 then tpRate[j] == 0
              else Fastest(Tps(), if j > 0 then tpRate[j - 1] else nRates, tpRate[j])
    {
      ghost var tps := Tps();
      ghost var bound := if j > 0 then tpRate[j - 1] else nRates;
      var i := 0;
      while i < nRates
        invariant 0 <= i <= nRates && tpRate[j] < nRates
        invariant forall k :: 0 <= k < 4 && k != j ==> tpRate[k] == old(tpRate[k])
        invariant if i == 0 || bound == 0 then tpRate[j] == 0
                  else Fastest(tps, if i < bound then i else bound, tpRate[j])
      {
        if r[tpRate[j]].stats.tpAvg <= r[i].stats.tpAvg {
          if j == 0 {
            tpRate[j] := i;
          } else if tpRate[j - 1] > i {
            tpRate[j] := i;
          }
        }
        i := i + 1;
      }
    }

    // The second loop of minstrel_update_stats, and the copy that follows it.
    method RankChain()
      requires Shaped()
      modifies maxTp
      ensures IsChain(Tps(), maxTp[..])
      ensures forall j :: 0 <= j < 4 ==> maxTp[j] < nRates
    {
      hide Fastest;
      var tpRate := new nat[4](_ => 0);
      ghost var tps := Tps();
      var j := 0;
      while j < 4
        invariant 0 <= j <= 4
        invariant forall k :: j <= k < 4 ==> tpRate[k] == 0
        invariant forall k :: 0 <= k < j ==> tpRate[k] < nRates
        invariant j > 0 ==> Fastest(tps, nRates, tpRate[0])
        invariant forall k :: 1 <= k < j ==>
                                if tpRate[k - 1] == 0 then tpRate[k] == 0 else Fastest(tps, tpRate[k - 1], tpRate[k])
      {
        ScanChain(tpRate, j);
        j := j + 1;
      }
      forall k | 0 <= k < 4 {
        maxTp[k] := tpRate[k];
      }
      assert maxTp[..] == tpRate[..];
    }

    // The table holds the first rate of the chain, then the second and the third as far
    // as the hardware takes them, and the lowest rate as the last resort.
    ghost predicate TableWritten()
      requires Shaped() && forall j :: 0 <= j < 4 ==> maxTp[j] < nRates
      reads r, maxTp, rateTable
    {
      && rateTable[0] == SlotOf(maxTp[0])
      && (maxRates >= 3 ==> rateTable[1] == SlotOf(maxTp[1]) && rateTable[2] == SlotOf(maxTp[2]))
      && (maxRates == 2 ==> rateTable[1] == SlotOf(maxTp[2]))
      && rateTable[if maxRates >= 3 then 3 else if maxRates == 2 then 2 else 1] == LastResort()
    }

    // minstrel_update_rates: the fastest rate, the next one if the hardware takes
    // three, the third if it takes two, and the lowest rate as the last resort.
    method UpdateRates()
      requires Shaped() && forall j :: 0 <= j < 4 ==> maxTp[j] < nRates
      modifies rateTable
      ensures TableWritten()
      ensures var n := if maxRates >= 3 then 3 else if maxRates == 2 then 2 else 1;
              && (forall j :: 0 <= j < n ==>
                                var slot, x := rateTable[j], r[maxTp[if maxRates == 2 && j == 1 then 2 else j]];
                                && slot.idx == x.rix && slot.count == x.adjustedRetryCount
                                && slot.countCts == x.retryCountCts && slot.countRts == x.stats.retryCountRtscts)
              && rateTable[n].idx == lowestRix
              && rateTable[n].count == rateTable[n].countCts == rateTable[n].countRts == link.maxRetry
    {
      var i := 0;
      rateTable[i] := SlotOf(maxTp[0]);
      i := i + 1;
      if maxRates >= 3 {
        rateTable[i] := SlotOf(maxTp[1]);
        i := i + 1;
      }
      if maxRates >= 2 {
        rateTable[i] := SlotOf(maxTp[2]);
        i := i + 1;
      }
      rateTable[i] := LastResort();
    }

    function LastResort(): Slot {
      Slot(lowestRix, link.maxRetry, link.maxRetry, link.maxRetry)
    }

    function SlotOf(k: nat): Slot
      requires k < r.Length
      reads r
    {
      Slot(r[k].rix, r[k].adjustedRetryCount, r[k].retryCountCts, r[k].stats.retryCountRtscts)
    }

    // Publishing the new chain, the most probable rate and the rate table.
    method Publish(picked: nat)
      requires SamplingOk() && picked < nRates
      modifies `maxProb, maxTp, rateTable
      ensures SamplingOk() && IsChain(Tps(), maxTp[..]) && maxProb == picked && TableWritten()
      ensures SamplingNow() == old(SamplingNow()).(top := maxTp[0])
    {
      hide Fair, Fastest, Columns, LimitsOf, TableWritten;
      RankChain();
      maxProb := picked;
      UpdateRates();
      assert r[..] == old(r[..]);
    }

    // minstrel_update_stats.
    method UpdateStats()
      requires Valid()
      modifies this, r, maxTp, rateTable
      ensures Valid()
      ensures forall k :: 0 <= k < r.Length ==> r[k] == if k < nRates then Updated(old(r[k])) else old(r[k])
      ensures IsChain(Tps(), maxTp[..]) && TableWritten()
      ensures maxProb == Pick(Ps(), Tps(), nRates)
      ensures SamplingNow() == old(SamplingNow()).(limits := LimitsOf(r[..nRates]), top := maxTp[0])
      ensures Relimited(LimitsOf(r[..nRates])) && forall k :: 0 <= k < nRates ==> Adjusted(r[k])
      ensures PlanNow() == old(PlanNow())
    {
      hide Adjusted, Fair, TpAvg, Recalculated, Sound, Fastest, Updated, TableFor, IsChain, Pick, Columns, RixsOf,
           TimesOf,
           LimitsOf, SameSetups, Relimited, TableWritten;
      ghost var was := r[..];
      var picked := RefreshRates();
      UpdatedInOrder(was);
      SetupsKept(was, r[..], nRates);
      Publish(picked);
    }

    // A recomputation sets each limit to 100 or lifts it.
    ghost predicate Relimited(limits: seq<int>) {
      forall k :: 0 <= k < |limits| ==> limits[k] == -1 || limits[k] == Sampling.LIMIT
    }

    lemma UpdatedInOrder(was: seq<Rate>)
      requires Shaped() && |was| == r.Length
      requires forall k :: 0 <= k < r.Length ==> r[k] == if k < nRates then Updated(was[k]) else was[k]
      requires forall k :: 0 <= k < nRates ==> Sound(was[k].stats)
      ensures forall k :: 0 <= k < nRates ==> Sound(r[k].stats)
      ensures SameSetups(was, r[..])
      ensures Relimited(LimitsOf(r[..nRates]))
      ensures forall k :: 0 <= k < nRates ==> -1 <= r[k].sampleLimit <= Sampling.LIMIT && Adjusted(r[k])
    {
      hide TpAvg, Recalculated, Adjusted;
      forall k | 0 <= k < nRates
        ensures Sound(r[k].stats) && Adjusted(r[k])
      {
        UpdatedIs(was[k]);
        RecalculatedSound(was[k].stats);
      }
    }

    // ----- Taking in a transmit status -----

    // The loop over the retry chain in minstrel_tx_status.
    method ReportChain(s: Status)
      requires Shaped() && WellFormed(s, r.Length)
      modifies r
      ensures Rixs() == old(Rixs())
      ensures r[..] == Taken(s, old(Rixs()), old(r[..]), ChainLength(s, 0))
    {
      hide EntryEvent, Taken, Search, Reported, RixsOf;
      ghost var rixs, was := Rixs(), r[..];
      var i := 0;
      TakenNothing(s, rixs, was);
      while i < 4 && s.rates[i].idx >= 0
        invariant 0 <= i <= ChainLength(s, 0) && ChainLength(s, i) == ChainLength(s, 0)
        invariant r[..] == Taken(s, rixs, was, i) && Rixs() == rixs
      {
        var ndx := RixToNdx(s.rates[i].idx);
        TakenNext(s, rixs, was, i);
        EntryIs(s, i);
        if ndx >= 0 {
          var acked := if i != 3 && s.rates[i + 1].idx < 0 && s.ack then 1 else 0;
          RixsKept(r[..], ndx, Reported(r[ndx].stats, s.rates[i].count, acked));
          r[ndx] := r[ndx].(stats := Reported(r[ndx].stats, s.rates[i].count, acked));
        }
        i := i + 1;
      }
    }

    lemma TakenNothing(s: Status, rixs: seq<int>, was: seq<Rate>)
      requires WellFormed(s, |rixs|)
      ensures Taken(s, rixs, was, 0) == was
    {
    }

    lemma EntryIs(s: Status, i: nat)
      requires |s.rates| == 4 && i < 4
      ensures EntryEvent(s, i) == Report(s.rates[i].count, if i != 3 && s.rates[i + 1].idx < 0 && s.ack then 1 else 0)
    {
    }

    // minstrel_tx_status.
    method TxStatus(s: Status)
      requires Valid() && WellFormed(s, r.Length) && CountersFit(ROOM)
      modifies this, r, maxTp, rateTable
      ensures Valid()
      ensures var taken := Taken(s, old(Rixs()), old(r[..]), ChainLength(s, 0));
              forall k :: 0 <= k < r.Length ==> r[k] == if s.expired && k < nRates then Updated(taken[k]) else taken[k]
      ensures s.expired ==> IsChain(Tps(), maxTp[..]) && maxProb == Pick(Ps(), Tps(), nRates) && TableWritten()
      ensures !s.expired ==> maxTp[..] == old(maxTp[..]) && maxProb == old(maxProb)
      ensures !s.expired ==> rateTable[..] == old(rateTable[..])
      ensures var reported := Sampling.Reported(old(SamplingNow()), s.probe);
              SamplingNow() == if s.expired then reported.(limits := LimitsOf(r[..nRates]), top := maxTp[0])
                else reported
      ensures s.expired ==> Relimited(LimitsOf(r[..nRates])) && forall k :: 0 <= k < nRates ==> Adjusted(r[k])
      ensures PlanNow() == old(PlanNow())
      ensures totalPackets == old(totalPackets) && prevSample == old(prevSample)
      ensures samplePackets == old(samplePackets) + if s.probe then 1 else 0
      ensures sampleDeferred == if old(sampleDeferred) > 0 then old(sampleDeferred) - 1 else 0
    {
      hide Adjusted, Fair, TpAvg, Recalculated, Sound, Fastest, Taken, Updated, WellFormed, Pick, IsChain, TableFor,
           RixsOf, TimesOf, LimitsOf, SameSetups, Columns, Ps, Tps, Relimited, TableWritten;
      ghost var was := r[..];
      ReportChain(s);
      ReportedInOrder(s, RixsOf(was), was);
      SetupsKept(was, r[..], nRates);
      CountStatus(s.probe);
      if s.expired {
        UpdateStats();
      }
    }

    // The sampling counters of minstrel_tx_status.
    method CountStatus(probe: bool)
      requires Shaped()
      modifies `samplePackets, `sampleDeferred
      ensures samplePackets == old(samplePackets) + if probe then 1 else 0
      ensures sampleDeferred == if old(sampleDeferred) > 0 then old(sampleDeferred) - 1 else 0
      ensures SamplingNow() == Sampling.Reported(old(SamplingNow()), probe)
    {
      hide LimitsOf;
      if probe {
        samplePackets := samplePackets + 1;
      }
      if sampleDeferred > 0 {
        sampleDeferred := sampleDeferred - 1;
      }
    }

    lemma ReportedInOrder(s: Status, rixs: seq<int>, was: seq<Rate>)
      requires Shaped() && WellFormed(s, |rixs|) && |was| == |rixs| == r.Length
      requires r[..] == Taken(s, rixs, was, ChainLength(s, 0))
      requires forall k :: 0 <= k < nRates ==> Sound(was[k].stats) && was[k].stats.attempts + ROOM < TWO32
      ensures forall k :: 0 <= k < nRates ==> Sound(r[k].stats)
      ensures SameSetups(was, r[..]) && LimitsOf(r[..nRates]) == LimitsOf(was[..nRates])
      ensures forall k :: 0 <= k < nRates ==> r[k].sampleLimit == was[k].sampleLimit
    {
      hide Sound, Reports, WellFormed, Run;
      assert forall k :: 0 <= k < r.Length ==> r[k] == r[..][k];
      forall k | 0 <= k < nRates
        ensures Sound(r[k].stats)
      {
        TakenSound(s, rixs, was, k);
      }
    }

    // ----- Sampling -----

    // minstrel_get_next_sample.
    method GetNextSample() returns (ndx: nat)
      requires SamplingOk()
      modifies `sampleRow, `sampleColumn
      ensures SamplingOk()
      ensures var cur := Cursor(old(sampleRow), old(sampleColumn));
              && ndx == At(Columns(), nRates, cur) < nRates
              && Cursor(sampleRow, sampleColumn) == Advance(cur, SampleTable.SAMPLE_COLUMNS, nRates)
    {
      Sampling.ValueOn(PlanNow(), Cursor(sampleRow, sampleColumn));
      hide Fair;
      assert Columns()[sampleColumn][sampleRow] == table[sampleRow, sampleColumn];
      ndx := table[sampleRow, sampleColumn];
      sampleRow := sampleRow + 1;
      if sampleRow >= nRates {
        sampleRow := 0;
        sampleColumn := sampleColumn + 1;
        if sampleColumn >= SampleTable.SAMPLE_COLUMNS {
          sampleColumn := 0;
        }
      }
    }

    // The first half of minstrel_get_rate: whether this packet samples, and what that
    // costs.
    method Charge() returns (sample: bool)
      requires Shaped()
      modifies `totalPackets, `samplePackets, `sampleDeferred, `prevSample
      ensures sample == !Sampling.Skips(old(SamplingNow()))
      ensures SamplingNow() ==
              if sample then Sampling.Charged(old(SamplingNow()), nRates)
              else old(SamplingNow()).(total := old(totalPackets) + 1, prev := false)
    {
      hide LimitsOf;
      totalPackets := totalPackets + 1;
      var delta: int := totalPackets * Sampling.LOOKAROUND / 100 - (samplePackets + sampleDeferred / 2);
      var prev := prevSample;
      prevSample := false;
      if delta < 0 || prev {
        return false;
      }
      if totalPackets >= 10000 {
        sampleDeferred := 0;
        samplePackets := 0;
        totalPackets := 0;
      } else if delta > nRates * 2 {
        samplePackets := samplePackets + (delta - nRates * 2);
      }
      return true;
    }

    // Using up one sample of a limited rate.
    method CountDown(ndx: nat)
      requires Shaped() && ndx < nRates
      modifies r
      ensures forall k :: 0 <= k < r.Length ==> r[k] == old(r[k]).(sampleLimit := r[k].sampleLimit)
      ensures SameSetups(old(r[..]), r[..])
      ensures var limits := old(LimitsOf(r[..nRates]));
              LimitsOf(r[..nRates]) == if limits[ndx] > 0 then limits[ndx := limits[ndx] - 1] else limits
    {
      if r[ndx].sampleLimit > 0 {
        r[ndx] := r[ndx].(sampleLimit := r[ndx].sampleLimit - 1);
      }
    }

    // The decision of minstrel_get_rate: whether the packet samples, which rate and in
    // which slot.
    method Decide() returns (o: Sampling.Outcome)
      requires Valid()
      modifies this, r
      ensures Valid()
      ensures Sampling.Fit(old(SamplingNow()), old(PlanNow())) && PlanNow() == old(PlanNow())
      ensures (SamplingNow(), o) == Sampling.Ask(old(SamplingNow()), old(PlanNow()))
      ensures !o.None? ==> o.ndx < nRates
      ensures forall k :: 0 <= k < r.Length ==> r[k] == old(r[k]).(sampleLimit := r[k].sampleLimit)
      ensures maxProb == old(maxProb)
    {
      hide Fair, Sound, TableFor, Advance, Sampling.Charged, Sampling.Skips, Columns, RixsOf, TimesOf, LimitsOf,
           SameSetups, At;
      SamplingFits();
      var sample := Charge();
      if !sample {
        return Sampling.None;
      }
      var ndx := GetNextSample();
      TimeIs(ndx);
      TimeIs(maxTp[0]);
      if r[ndx].perfectTxTime > r[maxTp[0]].perfectTxTime {
        sampleDeferred := sampleDeferred + 1;
        prevSample := true;
        return Sampling.Deferred(ndx);
      }
      if r[ndx].sampleLimit == 0 {
        return Sampling.None;
      }
      ghost var was := r[..];
      samplePackets := samplePackets + 1;
      prevSample := true;
      CountDown(ndx);
      SetupsKept(was, r[..], nRates);
      LimitsInRange();
      o := Sampling.Direct(ndx);
    }

    // The entry of the retry chain that a sample fills in; frames may ask for protection.
    function Sampled(o: Sampling.Outcome, useRts: bool, useCts: bool): Entry
      requires o.None? || o.ndx < r.Length
      reads r
    {
      if o.None? then Entry(-1, 0) else Entry(r[o.ndx].rix, TriesFor(r[o.ndx], useRts, useCts))
    }

    // minstrel_get_rate: the decision, and what it writes to the chain.
    method GetRate(useRts: bool, useCts: bool) returns (o: Sampling.Outcome, e: Entry)
      requires Valid()
      modifies this, r
      ensures Valid()
      ensures Sampling.Fit(old(SamplingNow()), old(PlanNow())) && PlanNow() == old(PlanNow())
      ensures (SamplingNow(), o) == Sampling.Ask(old(SamplingNow()), old(PlanNow()))
      ensures (o.None? || o.ndx < nRates) && e == old(Sampled(o, useRts, useCts))
      ensures var n := At(old(Columns()), nRates, Cursor(old(sampleRow), old(sampleColumn)));
              var due := 10 * (old(totalPackets) + 1) / 100 >= old(samplePackets) + old(sampleDeferred) / 2;
              var samples := due && !old(prevSample);
              && n < nRates
              && (o == Sampling.Deferred(n) <==> samples && old(r[n].perfectTxTime > r[maxTp[0]].perfectTxTime))
              && (o == Sampling.Direct(n) <==>
                  samples && old(r[n].perfectTxTime <= r[maxTp[0]].perfectTxTime && r[n].sampleLimit != 0))
              && (o.None? || o.ndx == n)
      ensures forall k :: 0 <= k < nRates ==>
                            var limit := old(r[k].sampleLimit);
                            r[k].sampleLimit == if o == Sampling.Direct(k) && limit > 0 then limit - 1 else limit
      ensures forall k :: 0 <= k < r.Length ==> r[k] == old(r[k]).(sampleLimit := r[k].sampleLimit)
      ensures maxProb == old(maxProb)
    {
      hide Fair, Sound, TableFor, Columns, LimitsOf, StatsOk, TableOk, SamplingNow, PlanNow, At, Advance, Sampling.Ask,
           Sampling.Fit;
      DecisionIs();
      ghost var s, p := SamplingNow(), PlanNow();
      Sampling.AskIs(s, p);
      TimeIs(At(p.table, p.n, s.cur));
      TimeIs(maxTp[0]);
      LimitsAre();
      o := Decide();
      LimitsAre();
      e := Sampled(o, useRts, useCts);
    }

    // What the decision depends on, in the station's own terms.
    lemma DecisionIs()
      requires SamplingOk()
      ensures Sampling.Fit(SamplingNow(), PlanNow())
      ensures var s, p := SamplingNow(), PlanNow();
              && p.n == nRates && p.table == Columns() && s.cur == Cursor(sampleRow, sampleColumn)
              && s.total == totalPackets && s.packets == samplePackets && s.deferred == sampleDeferred
              && s.prev == prevSample && s.top == maxTp[0] < nRates
    {
      hide Fair, Columns, LimitsOf, TimesOf;
    }

    lemma LimitsAre()
      requires Shaped()
      ensures var limits := SamplingNow().limits;
              |limits| == nRates && forall k :: 0 <= k < nRates ==> limits[k] == r[k].sampleLimit
    {
    }

    lemma TimeIs(k: nat)
      requires Shaped() && k < nRates
      ensures PlanNow().times[k] == r[k].perfectTxTime && SamplingNow().limits[k] == r[k].sampleLimit
      ensures |PlanNow().times| == |SamplingNow().limits| == nRates
    {
    }

    lemma LimitsInRange()
      requires Shaped()
      ensures forall k :: 0 <= k < nRates ==> r[k].sampleLimit == LimitsOf(r[..nRates])[k]
      ensures |LimitsOf(r[..nRates])| == nRates
    {
    }
  }
}
