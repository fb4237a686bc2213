/** What a transmit status does to an HT station: which cells it reports for, when
    the top rates are downgraded, and how the rates in use are made robust. */
module HtFeedback {
  import opened FixedPoint
  import opened RateStats
  import opened Ranking
  import opened HtRates
  import opened HtModel

  // ----- Reports -----

  // A transmit status: the aggregation and acknowledgement flags, the aggregate's
  // length and acknowledged length, the four entries of the retry chain, and whether
  // the update interval has elapsed when it arrives.
  datatype Status = Status(
    ctlAmpdu: bool, statAmpdu: bool, ack: bool,
    ampduLen: nat, ampduAckLen: nat,
    rates: seq<TxRate>, expired: bool)

  // minstrel_ht_txstat_valid.
  predicate Used(r: TxRate, cckRates: seq<nat>) {
    && r.idx >= 0
    && r.count > 0
    && (r.flags.mcs || r.flags.vhtMcs || exists k :: 0 <= k < |cckRates| && cckRates[k] == r.idx)
  }

  // The entry names a cell of the station.
  predicate Decodable(r: TxRate) {
    && (r.flags.mcs || r.flags.vhtMcs ==> r.idx >= 0)
    && DecodeGroup(r) < GROUPS
    && (!r.flags.mcs && r.flags.vhtMcs ==> r.idx % 16 < MCS_GROUP_RATES)
  }

  function Target(r: TxRate, cckRates: seq<nat>, supported: Masks): (c: nat)
    requires Decodable(r) && |cckRates| == 4 && Shaped(supported)
    ensures c < CELLS
  {
    Cell(DecodeGroup(r), DecodeRate(r, cckRates, supported[CCK_GROUP]))
  }

  // The entries that count are the first one and those that follow while in use.
  function ChainLength(rates: seq<TxRate>, cckRates: seq<nat>): (n: nat)
    requires |rates| == 4
    ensures 1 <= n <= 3
  {
    if !Used(rates[1], cckRates) then 1 else if !Used(rates[2], cckRates) then 2 else 3
  }

  // A frame that was aggregated but carries no status information is ignored.
  predicate Ignored(s: Status) {
    s.ctlAmpdu && !s.statAmpdu
  }

  // Unaggregated frames count as one subframe.
  function Subframes(s: Status): nat {
    if s.statAmpdu then s.ampduLen else 1
  }

  function AckedSubframes(s: Status): nat {
    if s.statAmpdu then s.ampduAckLen else if s.ack then 1 else 0
  }

  // What the driver promises of a status: a chain of four decodable entries, whose
  // first entry was really tried if it names a supported rate, one to 255 subframes
  // of which no more were acknowledged, and 8-bit retry counts.
  predicate WellFormed(s: Status, cckRates: seq<nat>, supported: Masks) {
    && |s.rates| == 4 && |cckRates| == 4 && Shaped(supported)
    && (forall i :: 0 <= i < 3 ==> Decodable(s.rates[i]) && s.rates[i].count <= 255)
    && (s.rates[0].count > 0 || !Has(supported, Target(s.rates[0], cckRates, supported)))
    && 1 <= Subframes(s) <= 255
    && AckedSubframes(s) <= Subframes(s)
  }

  // Entry i of the chain as an event of the cell it names. Success is credited to the
  // last entry that counts, unless the chain is longer than three.
  function EntryEvent(s: Status, cckRates: seq<nat>, i: nat): (e: Event)
    requires |s.rates| == 4 && i < 3
    ensures e.Report?
  {
    var last := i + 1 == ChainLength(s.rates, cckRates) && !Used(s.rates[i + 1], cckRates);
    Report(s.rates[i].count * Subframes(s), if last then AckedSubframes(s) else 0)
  }

  // Read entry by entry: success goes to an entry whose successor is not in use, and
  // such an entry ends the chain. Without aggregation information a status counts as one
  // subframe that was acknowledged or not.
  lemma EntryByEntry(s: Status, cckRates: seq<nat>, i: nat)
    requires |s.rates| == 4 && i < ChainLength(s.rates, cckRates)
    ensures var last := !Used(s.rates[i + 1], cckRates);
            && EntryEvent(s, cckRates, i) ==
               Report(s.rates[i].count * Subframes(s), if last then AckedSubframes(s) else 0)
            && (last <==>
                var r := s.rates[i + 1];
                || r.idx < 0 || r.count == 0
                || (!r.flags.mcs && !r.flags.vhtMcs && forall k :: 0 <= k < |cckRates| ==> cckRates[k] != r.idx))
            && EntryEvent(s, cckRates, i) ==
               (if s.statAmpdu then Report(s.rates[i].count * s.ampduLen, if last then s.ampduAckLen else 0)
                else Report(s.rates[i].count, if last && s.ack then 1 else 0))
            && (last || i == 2 <==> i + 1 == ChainLength(s.rates, cckRates))
  {
  }

  // What the first n entries of the chain report for cell c.
  function Reports(s: Status, cckRates: seq<nat>, supported: Masks, c: nat, n: nat): (es: seq<Event>)
    requires WellFormed(s, cckRates, supported) && n <= 3
  {
    if n == 0 then [] else
      Reports(s, cckRates, supported, c, n - 1) +
      if Target(s.rates[n - 1], cckRates, supported) == c then [EntryEvent(s, cckRates, n - 1)] else []
  }

  function CellReports(s: Status, cckRates: seq<nat>, supported: Masks, c: nat): seq<Event>
    requires WellFormed(s, cckRates, supported)
  {
    Reports(s, cckRates, supported, c, ChainLength(s.rates, cckRates))
  }

  // Every report for a supported cell is honest and small.
  lemma {:induction false} ReportsHonest(s: Status, cckRates: seq<nat>, supported: Masks, c: nat, n: nat)
    requires WellFormed(s, cckRates, supported) && n <= ChainLength(s.rates, cckRates)
    requires c < CELLS && Has(supported, c)
    ensures forall e :: e in Reports(s, cckRates, supported, c, n) ==>
                          e.Report? && Honest(e) && e.tries <= 65025
    ensures |Reports(s, cckRates, supported, c, n)| <= n
    decreases n
  {
    if n > 0 {
      ReportsHonest(s, cckRates, supported, c, n - 1);
      var count, len := s.rates[n - 1].count, Subframes(s);
      if Target(s.rates[n - 1], cckRates, supported) == c {
        assert count > 0;
        ProductBetween(count, len);
      }
    }
  }

  lemma ProductBetween(count: nat, len: nat)
    requires 1 <= count <= 255 && 1 <= len <= 255
    ensures len <= count * len <= 65025
  {
    ScaleUp(len, 1, count);
    ScaleUp(len, count, 255);
  }

  // The cells after a status was taken in.
  function Taken(s: Status, cckRates: seq<nat>, supported: Masks, was: seq<Stats>, n: nat): (r: seq<Stats>)
    requires WellFormed(s, cckRates, supported) && |was| == CELLS && n <= 3
    ensures |r| == CELLS
    ensures forall c :: 0 <= c < CELLS ==> r[c] == Run(was[c], Reports(s, cckRates, supported, c, n))
  {
    seq(CELLS, c requires 0 <= c < CELLS => Run(was[c], Reports(s, cckRates, supported, c, n)))
  }

  // The cells after the whole chain was taken in.
  function TakenAll(s: Status, cckRates: seq<nat>, supported: Masks, was: seq<Stats>): (r: seq<Stats>)
    requires WellFormed(s, cckRates, supported) && |was| == CELLS
    ensures |r| == CELLS
    ensures forall c :: 0 <= c < CELLS ==> r[c] == Run(was[c], CellReports(s, cckRates, supported, c))
  {
    Taken(s, cckRates, supported, was, ChainLength(s.rates, cckRates))
  }

  const ROOM: nat := 3 * 65025

  // One more entry changes only the cell that it names.
  lemma TakenNext(s: Status, cckRates: seq<nat>, supported: Masks, was: seq<Stats>, n: nat)
    requires WellFormed(s, cckRates, supported) && |was| == CELLS && n < 3
    ensures var c, e := Target(s.rates[n], cckRates, supported), EntryEvent(s, cckRates, n);
            var now := Taken(s, cckRates, supported, was, n);
            Taken(s, cckRates, supported, was, n + 1) == now[c := Reported(now[c], e.tries, e.acked)]
    ensures Taken(s, cckRates, supported, was, 0) == was
  {
    hide Target, EntryEvent, Decodable, Has;
    var t := Target(s.rates[n], cckRates, supported);
    var now, next := Taken(s, cckRates, supported, was, n), Taken(s, cckRates, supported, was, n + 1);
    var e := EntryEvent(s, cckRates, n);
    forall c | 0 <= c < CELLS
      ensures next[c] == if c == t then Reported(now[c], e.tries, e.acked) else now[c]
    {
      RunNext(was[c], Reports(s, cckRates, supported, c, n), e);
    }
  }

  lemma RunNext(s: Stats, es: seq<Event>, e: Event)
    ensures Run(s, es + [e]) == Step(Run(s, es), e)
    ensures Run(s, es + []) == Run(s, es) && Run(s, []) == s
  {
    assert (es + [e])[..|es|] == es && es + [] == es;
  }

  lemma EntryAtMost(s: Status, cckRates: seq<nat>, supported: Masks, i: nat)
    requires WellFormed(s, cckRates, supported) && i < 3
    ensures EntryEvent(s, cckRates, i).tries <= 255 * Subframes(s)
  {
    hide Used, Decodable, Target;
    ScaleUp(Subframes(s), s.rates[i].count, 255);
  }

  // Each entry adds at most 255 tries.
  lemma {:induction false} TriedAtMost(s: Status, cckRates: seq<nat>, supported: Masks, c: nat, n: nat)
    requires WellFormed(s, cckRates, supported) && n <= 3
    ensures var most, tried := 255 * Subframes(s), Tried(Reports(s, cckRates, supported, c, n));
            tried <= if n == 0 then 0 else if n == 1 then most else if n == 2 then 2 * most else 3 * most
    decreases n
  {
    hide WellFormed, EntryEvent, Target, Subframes, Tried;
    FourRates(s, cckRates, supported);
    TriedMore([], Report(0, 0));
    if n > 0 {
      EntryAtMost(s, cckRates, supported, n - 1);
      TriedAtMost(s, cckRates, supported, c, n - 1);
      TriedMore(Reports(s, cckRates, supported, c, n - 1), EntryEvent(s, cckRates, n - 1));
    }
  }

  lemma TriedMore(es: seq<Event>, e: Event)
    requires e.Report?
    ensures Tried(es + [e]) == Tried(es) + e.tries && Acked(es + [e]) == Acked(es) + e.acked
    ensures es + [] == es && Tried([]) == 0 && Acked([]) == 0
  {
    assert (es + [e])[..|es|] == es;
  }

  // A chain counts at most three entries.
  lemma ChainTriedAtMost(s: Status, cckRates: seq<nat>, supported: Masks, c: nat)
    requires WellFormed(s, cckRates, supported)
    ensures Tried(CellReports(s, cckRates, supported, c)) <= 765 * Subframes(s)
  {
    FourRates(s, cckRates, supported);
    TriedAtMost(s, cckRates, supported, c, ChainLength(s.rates, cckRates));
    hide WellFormed, Reports, Tried, Subframes, ChainLength;
  }

  // Taking in a status keeps supported cells sound, counts exactly what it reports
  // for them, and touches no probability.
  lemma TakenSound(s: Status, cckRates: seq<nat>, supported: Masks, was: seq<Stats>, c: nat)
    requires WellFormed(s, cckRates, supported) && |was| == CELLS && c < CELLS
    requires Has(supported, c) ==> Sound(was[c]) && was[c].attempts + ROOM < TWO32
    ensures var es := CellReports(s, cckRates, supported, c);
            var t := Run(was[c], es);
            && t == was[c].(attempts := t.attempts, success := t.success)
            && (Has(supported, c) ==>
                  && Sound(t)
                  && t.attempts == was[c].attempts + Tried(es) <= was[c].attempts + 765 * Subframes(s)
                  && t.success == was[c].success + Acked(es))
  {
    FourRates(s, cckRates, supported);
    hide WellFormed, Reports, Sound, Run, Tried, Acked, Subframes;
    var n := ChainLength(s.rates, cckRates);
    var es := Reports(s, cckRates, supported, c, n);
    AllReports(s, cckRates, supported, c, n);
    ReportsOnlyCount(was[c], es);
    if Has(supported, c) {
      ReportsHonest(s, cckRates, supported, c, n);
      SmallReportsFit(was[c], es);
      ChainTriedAtMost(s, cckRates, supported, c);
    }
  }

  // The station's statistics stay in order, and ready for a recomputation.
  lemma TakenInOrder(s: Status, cckRates: seq<nat>, supported: Masks, was: seq<Stats>, len: nat)
    requires WellFormed(s, cckRates, supported) && Caps(supported) && Estimable(was)
    requires forall c :: 0 <= c < CELLS ==>
                           if Has(supported, c)
                           then Sound(was[c]) && was[c].attempts + ROOM < TWO32 && was[c].attempts <= 765 * len + 2
                           else was[c].probEwma == 0 && was[c].tpAvg == 0
    ensures var now := TakenAll(s, cckRates, supported, was);
            && Estimable(now) && Started(supported, now)
            && forall c :: 0 <= c < CELLS ==>
                             if Has(supported, c)
                             then Sound(now[c]) && now[c].attempts <= 765 * (len + Subframes(s)) + 2
                             else now[c].probEwma == 0 && now[c].tpAvg == 0
  {
    hide WellFormed, Sound, CellReports, Listed, Run, TakenAll, Subframes;
    var now := TakenAll(s, cckRates, supported, was);
    forall c | 0 <= c < CELLS
      ensures now[c].probEwma == was[c].probEwma && now[c].tpAvg == was[c].tpAvg
      ensures Has(supported, c) ==> Sound(now[c]) && now[c].attempts <= 765 * (len + Subframes(s)) + 2
    {
      TakenSound(s, cckRates, supported, was, c);
    }
  }

  lemma FourRates(s: Status, cckRates: seq<nat>, supported: Masks)
    requires WellFormed(s, cckRates, supported)
    ensures |s.rates| == 4 && |cckRates| == 4 && Shaped(supported)
  {
  }

  lemma {:induction false} AllReports(s: Status, cckRates: seq<nat>, supported: Masks, c: nat, n: nat)
    requires WellFormed(s, cckRates, supported) && n <= 3
    ensures forall e :: e in Reports(s, cckRates, supported, c, n) ==> e.Report?
    decreases n
  {
    if n > 0 {
      AllReports(s, cckRates, supported, c, n - 1);
    }
  }

  // The successes that a chain credits, over all cells.
  function Credits(s: Status, cckRates: seq<nat>, n: nat): nat
    requires |s.rates| == 4 && n <= 3
  {
    if n == 0 then 0 else Credits(s, cckRates, n - 1) + EntryEvent(s, cckRates, n - 1).acked
  }

  // A status credits its acknowledgements once, to the last rate of its chain, or not
  // at all when all four entries were in use.
  lemma CreditedOnce(s: Status, cckRates: seq<nat>)
    requires |s.rates| == 4
    ensures var n := ChainLength(s.rates, cckRates);
            && Credits(s, cckRates, n) == (if Used(s.rates[n], cckRates) then 0 else AckedSubframes(s))
            && (forall i :: 0 <= i < n - 1 ==> EntryEvent(s, cckRates, i).acked == 0)
            && (Used(s.rates[n], cckRates) <==> forall i :: 1 <= i <= 3 ==> Used(s.rates[i], cckRates))
  {
    var n := ChainLength(s.rates, cckRates);
    assert Credits(s, cckRates, 1) == EntryEvent(s, cckRates, 0).acked;
    assert Credits(s, cckRates, 2) == Credits(s, cckRates, 1) + EntryEvent(s, cckRates, 1).acked;
  }

  // ----- Downgrades -----

  // The nearest lower group with rates and no more streams.
  function LowerGroup(supported: Masks, orig: nat, g: nat): (r: int)
    requires Shaped(supported) && orig < GROUPS && g <= orig
    ensures -1 <= r < g
    ensures r >= 0 ==> HasGroup(supported, r) && Streams(r) <= Streams(orig)
    ensures forall h :: 0 <= h < g && h > r ==> !HasGroup(supported, h) || Streams(h) > Streams(orig)
  {
    if g == 0 then -1
    else if HasGroup(supported, g - 1) && Streams(g - 1) <= Streams(orig) then g - 1
    else LowerGroup(supported, orig, g - 1)
  }

  // Each group's list of fast rates stays within the group and those below it.
  predicate ListsDescend(supported: Masks, lists: seq<seq<nat>>) {
    && Shaped(supported)
    && |lists| == GROUPS
    && forall g :: 0 <= g < GROUPS ==>
                     && |lists[g]| == 4
                     && forall i :: 0 <= i < 4 ==>
                                      && lists[g][i] < CELLS
                                      && (HasGroup(supported, g) ==> lists[g][i] / MCS_GROUP_RATES <= g)
  }

  // minstrel_downgrade_rate: the primary rate takes the first entry of the lower
  // group's list, the secondary rate the second.
  function Downgraded(supported: Masks, lists: seq<seq<nat>>, idx: nat, primary: bool): (r: nat)
    requires ListsDescend(supported, lists) && idx < CELLS
    ensures r < CELLS
  {
    var g := LowerGroup(supported, idx / MCS_GROUP_RATES, idx / MCS_GROUP_RATES);
    if g < 0 then idx else lists[g][if primary then 0 else 1]
  }

  // A downgrade that finds a lower group strictly lowers the group of the rate.
  lemma DowngradeDescends(supported: Masks, lists: seq<seq<nat>>, idx: nat, primary: bool)
    requires ListsDescend(supported, lists) && idx < CELLS
    ensures var r := Downgraded(supported, lists, idx, primary);
            if LowerGroup(supported, idx / MCS_GROUP_RATES, idx / MCS_GROUP_RATES) >= 0
            then r / MCS_GROUP_RATES < idx / MCS_GROUP_RATES
            else r == idx
  {
  }

  // It takes the best rate of the nearest lower group with rates and no more streams for
  // the primary rate, the second best for the other one, and leaves a rate without such
  // a group alone.
  lemma DowngradeIs(supported: Masks, lists: seq<seq<nat>>, idx: nat, g: nat)
    requires ListsDescend(supported, lists) && idx < CELLS
    requires var orig := idx / MCS_GROUP_RATES;
             && g <= orig
             && forall h :: g <= h < orig ==> !HasGroup(supported, h) || Streams(h) > Streams(orig)
    ensures g == 0 ==> Downgraded(supported, lists, idx, true) == Downgraded(supported, lists, idx, false) == idx
    ensures g > 0 && HasGroup(supported, g - 1) && Streams(g - 1) <= Streams(idx / MCS_GROUP_RATES) ==>
              && Downgraded(supported, lists, idx, true) == lists[g - 1][0]
              && Downgraded(supported, lists, idx, false) == lists[g - 1][1]
  {
    hide HasGroup;
  }

  // The rate has a duration; every rate that a station stores does.
  predicate Named(c: nat) {
    c < CELLS && Listed(c / MCS_GROUP_RATES, c % MCS_GROUP_RATES)
  }

  predicate ListsNamed(lists: seq<seq<nat>>) {
    forall g, i :: 0 <= g < |lists| && 0 <= i < |lists[g]| ==> Named(lists[g][i])
  }

  lemma DowngradeNamed(supported: Masks, lists: seq<seq<nat>>, idx: nat, primary: bool)
    requires ListsDescend(supported, lists) && ListsNamed(lists) && Named(idx)
    ensures Named(Downgraded(supported, lists, idx, primary))
  {
    hide Listed, HasGroup;
  }

  // What a status that does not lead to a recomputation can make of a rate: it may be
  // downgraded, and may then step down within its group.
  predicate Moves(supported: Masks, lists: seq<seq<nat>>, primary: bool, from: nat, to: nat)
    requires ListsDescend(supported, lists)
  {
    from < CELLS && to < CELLS &&
    (StepsDown(from, to) || StepsDown(Downgraded(supported, lists, from, primary), to))
  }

  predicate StepsDown(from: nat, to: nat) {
    to / MCS_GROUP_RATES == from / MCS_GROUP_RATES && to <= from
  }

  predicate Descent(supported: Masks, lists: seq<seq<nat>>, primary: bool, run: seq<nat>)
    requires ListsDescend(supported, lists)
  {
    forall i :: 0 <= i < |run| - 1 ==> Moves(supported, lists, primary, run[i], run[i + 1])
  }

  function GroupChanges(run: seq<nat>): nat {
    if |run| < 2 then 0
    else (if run[0] / MCS_GROUP_RATES != run[1] / MCS_GROUP_RATES then 1 else 0) + GroupChanges(run[1..])
  }

  // However many statuses arrive before the next recomputation, effective downgrades
  // number no more than the groups below the first rate.
  lemma {:induction false} DowngradesRunOut(supported: Masks, lists: seq<seq<nat>>, primary: bool, run: seq<nat>)
    requires ListsDescend(supported, lists) && Descent(supported, lists, primary, run) && |run| > 0
    ensures GroupChanges(run) + run[|run| - 1] / MCS_GROUP_RATES <= run[0] / MCS_GROUP_RATES
    decreases |run|
  {
    hide Downgraded, ListsDescend;
    if |run| > 1 {
      assert Moves(supported, lists, primary, run[0], run[1]);
      DowngradeDescends(supported, lists, run[0], primary);
      var rest := run[1..];
      forall i | 0 <= i < |rest| - 1
        ensures Moves(supported, lists, primary, rest[i], rest[i + 1])
      {
        assert Moves(supported, lists, primary, run[i + 1], run[i + 1 + 1]);
      }
      DowngradesRunOut(supported, lists, primary, rest);
    }
  }

  // ----- Making the rates in use robust -----

  // The top rate steps down its group to the first rate that works half the time.
  function StepDown(stats: seq<Stats>, g: nat, i: nat): (r: nat)
    requires |stats| == CELLS && g < GROUPS && i < MCS_GROUP_RATES
    ensures r <= i
    ensures forall k :: r < k <= i ==> stats[Cell(g, k)].probEwma < Percent(50)
    ensures r == 0 || stats[Cell(g, r)].probEwma >= Percent(50)
  {
    if stats[Cell(g, i)].probEwma < Percent(50) && i > 0 then StepDown(stats, g, i - 1) else i
  }

  function SteppedDown(stats: seq<Stats>, c: nat): (r: nat)
    requires |stats| == CELLS && c < CELLS
    ensures r < CELLS
  {
    Cell(c / MCS_GROUP_RATES, StepDown(stats, c / MCS_GROUP_RATES, c % MCS_GROUP_RATES))
  }

  // f is the best rate of the group up to top, and the lowest of equals.
  ghost predicate BestUpTo(keys: seq<Key>, g: nat, top: nat, f: nat)
    requires |keys| == CELLS && g < GROUPS && top < MCS_GROUP_RATES
  {
    && f <= top
    && (forall k :: 0 <= k <= top ==> !Beats(keys[Cell(g, k)], keys[Cell(g, f)]))
    && (forall k :: 0 <= k < f ==> Beats(keys[Cell(g, f)], keys[Cell(g, k)]))
  }

  // The state that minstrel_ht_modify_tp_rates brings about.
  predicate Robust(stats: seq<Stats>, tp0: nat, maxProb: nat)
    requires |stats| == CELLS && tp0 < CELLS
  {
    && (tp0 % MCS_GROUP_RATES == 0 || stats[tp0].probEwma >= Percent(50))
    && (maxProb % MCS_GROUP_RATES < tp0 % MCS_GROUP_RATES ||
        (maxProb % MCS_GROUP_RATES == 0 && tp0 % MCS_GROUP_RATES == 0))
  }

  // The two rates after it, in terms of the two before it.
  ghost predicate Modified(stats: seq<Stats>, keys: seq<Key>, tp0: nat, maxProb: nat, tp0': nat, maxProb': nat)
    requires |stats| == |keys| == CELLS && tp0 < CELLS && maxProb < CELLS
  {
    var g, r := tp0 / MCS_GROUP_RATES, StepDown(stats, tp0 / MCS_GROUP_RATES, tp0 % MCS_GROUP_RATES);
    && tp0' == Cell(g, r)
    && maxProb' < CELLS
    && if maxProb % MCS_GROUP_RATES < r then maxProb' == maxProb
       else
         && maxProb' / MCS_GROUP_RATES == maxProb / MCS_GROUP_RATES
         && BestUpTo(keys, maxProb / MCS_GROUP_RATES, if r > 0 then r - 1 else 0, maxProb' % MCS_GROUP_RATES)
  }

  // It is a normaliser: both rates keep their group, the top rate works half the time
  // or is the lowest of its group, every rate it skipped fails more often than not,
  // the most probable rate ends below it, and doing it again changes nothing.
  lemma ModifiedIsRobust(stats: seq<Stats>, keys: seq<Key>, tp0: nat, maxProb: nat, tp0': nat, maxProb': nat)
    requires |stats| == |keys| == CELLS && tp0 < CELLS && maxProb < CELLS
    requires Modified(stats, keys, tp0, maxProb, tp0', maxProb')
    ensures tp0' < CELLS && Robust(stats, tp0', maxProb')
    ensures tp0' / MCS_GROUP_RATES == tp0 / MCS_GROUP_RATES
    ensures maxProb' / MCS_GROUP_RATES == maxProb / MCS_GROUP_RATES
    ensures tp0' <= tp0 && forall c :: tp0' < c <= tp0 ==> stats[c].probEwma < Percent(50)
  {
    hide Beats;
    var g, r := tp0 / MCS_GROUP_RATES, StepDown(stats, tp0 / MCS_GROUP_RATES, tp0 % MCS_GROUP_RATES);
    forall c | tp0' < c <= tp0
      ensures stats[c].probEwma < Percent(50)
    {
      assert c == Cell(g, c % MCS_GROUP_RATES);
    }
  }

  // Both rates keep a duration.
  lemma ModifiedNamed(stats: seq<Stats>, keys: seq<Key>, tp0: nat, maxProb: nat, tp0': nat, maxProb': nat)
    requires |stats| == |keys| == CELLS && tp0 < CELLS && maxProb < CELLS
    requires Modified(stats, keys, tp0, maxProb, tp0', maxProb') && Named(tp0) && Named(maxProb)
    ensures Named(tp0') && Named(maxProb')
  {
    hide StepDown;
  }

  lemma ModifiedTop(stats: seq<Stats>, keys: seq<Key>, tp0: nat, maxProb: nat, tp0': nat, maxProb': nat)
    requires |stats| == |keys| == CELLS && tp0 < CELLS && maxProb < CELLS
    requires Modified(stats, keys, tp0, maxProb, tp0', maxProb')
    ensures tp0' == SteppedDown(stats, tp0)
  {
  }

  lemma RobustIsFixed(stats: seq<Stats>, keys: seq<Key>, tp0: nat, maxProb: nat, tp0': nat, maxProb': nat)
    requires |stats| == |keys| == CELLS && tp0 < CELLS && maxProb < CELLS
    requires Robust(stats, tp0, maxProb) && Modified(stats, keys, tp0, maxProb, tp0', maxProb')
    ensures tp0' == tp0 && maxProb' == maxProb
  {
    var g, i := tp0 / MCS_GROUP_RATES, tp0 % MCS_GROUP_RATES;
    assert Cell(g, i) == tp0;
    assert StepDown(stats, g, i) == i;
  }
}
