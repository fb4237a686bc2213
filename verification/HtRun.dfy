/** Whole runs of transmit statuses on an HT station: the station stays valid, loses no
    counts, and downgrades its rates only a bounded number of times. */
module HtRun {
  import opened FixedPoint
  import opened RateStats
  import opened HtRates
  import opened HtModel
  import opened HtFeedback
  import HtSampling
  import opened HtStation

  // There is room for the status, and if it ends the interval the average stays usable.
  // The attempts of a rate are bounded by the subframes of the interval.
  predicate LoadFits(s: Status, l: Load) {
    Ignored(s) ||
    (765 * l.len + 2 + ROOM < TWO32 &&
     (s.expired ==> KeepsAverage(l.avg, l.len + Subframes(s), l.packets + 1)))
  }

  predicate Sustained(ss: seq<Status>, l: Load) {
    ss == [] || (LoadFits(ss[0], l) && Sustained(ss[1..], LoadAfter(ss[0], l)))
  }

  // Every interval carries fewer than 2^20 subframes, len of them before the run.
  predicate Paced(ss: seq<Status>, len: nat) {
    ss == [] ||
    if Ignored(ss[0]) then Paced(ss[1..], len)
    else
      var total := len + Subframes(ss[0]);
      total < 0x10_0000 && Paced(ss[1..], if ss[0].expired then 0 else total)
  }

  // That is always sustained.
  lemma {:induction false} PacedIsSustained(ss: seq<Status>, l: Load)
    requires SCALE <= l.avg <= 255 * SCALE && l.packets <= l.len <= 255 * l.packets
    requires Paced(ss, l.len) && forall s :: s in ss && !Ignored(s) ==> 1 <= Subframes(s) <= 255
    ensures Sustained(ss, l)
    decreases |ss|
  {
    hide KeepsAverage, NewAvg, Subframes;
    if ss != [] {
      if !Ignored(ss[0]) && ss[0].expired {
        FewSubframesKeep(l.avg, l.len + Subframes(ss[0]), l.packets + 1);
        AverageStays(l.avg, l.len + Subframes(ss[0]), l.packets + 1);
      }
      PacedIsSustained(ss[1..], LoadAfter(ss[0], l));
    }
  }

  // ----- What one status does -----

  // The two best rates and the lists they are downgraded by.
  datatype Choice = Choice(lists: seq<seq<nat>>, first: nat, second: nat)

  ghost function ChoiceOf(st: Station): Choice
    requires st.Configured()
    reads st, st.groups, st.maxTp
  {
    Choice(st.Lists(), st.maxTp[0], st.maxTp[1])
  }

  predicate Proper(supported: Masks, c: Choice) {
    ListsDescend(supported, c.lists) && c.first < CELLS && c.second < CELLS
  }

  // Until the next recomputation the lists stay and the rates only move down.
  ghost predicate Follows(supported: Masks, s: Status, from: Choice, to: Choice) {
    && Proper(supported, from) && Proper(supported, to)
    && (Ignored(s) ==> to == from)
    && (!Ignored(s) && !s.expired ==>
          && to.lists == from.lists
          && Moves(supported, from.lists, true, from.first, to.first)
          && Moves(supported, from.lists, false, from.second, to.second))
  }

  lemma ContinuesMoves(st: Station, taken: seq<Stats>, lists: seq<seq<nat>>, tp: seq<nat>, prob: nat, slots: seq<Slot>)
    requires |taken| == CELLS && |tp| == 4 && tp[0] < CELLS && tp[1] < CELLS && prob < CELLS
    requires st.Continues(taken, lists, tp, prob, slots)
    ensures ListsDescend(st.supported, lists)
    ensures Moves(st.supported, lists, true, tp[0], st.maxTp[0])
    ensures Moves(st.supported, lists, false, tp[1], st.maxTp[1])
    ensures st.NamesOk() && (st.rateTable[..] == slots || st.TableWritten())
  {
    hide Caps, Keys, Estimable, AllButRetry, Robust, ListsDescend, Dying, Modified, Downgraded, Station.TableWritten;
    if Dying(taken[tp[0]]) || Dying(taken[tp[1]]) {
      var checked := AfterCheck(st.supported, lists, taken, tp[0], true);
      ModifiedIsRobust(taken, Keys(st.Air(), taken), checked, prob, st.maxTp[0], st.maxProb);
      assert StepsDown(checked, st.maxTp[0]);
    } else {
      assert st.maxTp[..][0] == tp[0] && st.maxTp[..][1] == tp[1];
    }
  }

  // One status keeps the station valid as long as its load fits.
  method TakeOne(st: Station, s: Status)
    requires st.Valid() && WellFormed(s, st.cckRates, st.supported)
    requires LoadFits(s, LoadOf(st))
    modifies st, st.rates, st.groups, st.maxTp, st.rateTable
    ensures st.Valid()
    ensures LoadOf(st) == LoadAfter(s, old(LoadOf(st)))
    ensures Follows(st.supported, s, old(ChoiceOf(st)), ChoiceOf(st))
    ensures st.BudgetNow() == BudgetAfter(s, old(st.BudgetNow()), multiset(Flags(st.supported))[true])
    ensures old(st.TableWritten()) || (!Ignored(s) && s.expired) ==> st.TableWritten()
    ensures st.rateTable[..] == old(st.rateTable[..]) || st.TableWritten()
    ensures if Ignored(s) then st.rates[..] == old(st.rates[..])
            else CountsReported(s, st.cckRates, st.supported, old(st.rates[..]), st.rates[..])
  {
    hide Caps, Keys, Estimable, Listed, WellFormed, ListsDescend, CountsReported, TakenAll, Subframes, Named,
         ListsNamed, Sound, Moves, Station.Lists, Station.Cursors, Station.StatsOk, Station.AirOk, Station.LoadOk,
         Station.CursorsOk, Station.Continues, Station.Renews, Station.TableWritten, Station.Now,
         HtSampling.Refilled, NewAvg, Flags;
    ghost var v := st.Now();
    st.NowIs(v);
    if !Ignored(s) {
      st.OneSubframe(s);
      st.Roomy(Subframes(s), s.expired);
    }
    st.TxStatus(s);
    st.NowIs(st.Now());
    if !Ignored(s) && !s.expired {
      ContinuesMoves(st, TakenAll(s, st.cckRates, st.supported, v.rates), v.lists, v.tp, v.prob, v.slots);
    } else if !Ignored(s) {
      RenewsWrites(st, TakenAll(s, st.cckRates, st.supported, v.rates), v.lists, v.tp, v.prob);
    }
  }

  // The sampling budget after a status, for so many groups with rates.
  function BudgetAfter(s: Status, b: HtSampling.Budget, groups: nat): HtSampling.Budget {
    if Ignored(s) then b
    else if s.expired then HtSampling.Refilled(b).(count := 10 * groups)
    else HtSampling.Refilled(b)
  }

  lemma RenewsWrites(st: Station, taken: seq<Stats>, lists: seq<seq<nat>>, tp: seq<nat>, prob: nat)
    requires |tp| == 4 && tp[0] < CELLS && prob < CELLS && st.Renews(taken, lists, tp, prob)
    ensures st.NamesOk() && st.TableWritten()
  {
    hide Caps, AllButRetry, Robust, ListsDescend, Finals, Station.TableWritten, Station.Selected;
  }

  function LoadOf(st: Station): Load
    reads st
  {
    Load(st.avgAmpduLen, st.ampduLen, st.ampduPackets)
  }

  // ----- Runs -----

  // The choices before, between and after the statuses of a run.
  ghost predicate Follow(supported: Masks, ss: seq<Status>, trace: seq<Choice>) {
    && |trace| == |ss| + 1
    && (forall i :: 0 <= i < |trace| ==> Proper(supported, trace[i]))
    && forall i :: 0 <= i < |ss| ==> Follows(supported, ss[i], trace[i], trace[i + 1])
  }

  // What a run reports for one cell.
  function TriedBy(ss: seq<Status>, cckRates: seq<nat>, supported: Masks, c: nat): nat
    requires forall s :: s in ss ==> WellFormed(s, cckRates, supported)
    decreases |ss|
  {
    if ss == [] then 0
    else
      var s := ss[|ss| - 1];
      TriedBy(ss[..|ss| - 1], cckRates, supported, c) +
      if Ignored(s) then 0 else Tried(CellReports(s, cckRates, supported, c))
  }

  function AckedBy(ss: seq<Status>, cckRates: seq<nat>, supported: Masks, c: nat): nat
    requires forall s :: s in ss ==> WellFormed(s, cckRates, supported)
    decreases |ss|
  {
    if ss == [] then 0
    else
      var s := ss[|ss| - 1];
      AckedBy(ss[..|ss| - 1], cckRates, supported, c) +
      if Ignored(s) then 0 else Acked(CellReports(s, cckRates, supported, c))
  }

  // Every supported cell has counted exactly what the run reports for it.
  ghost predicate RunCounted(ss: seq<Status>, cckRates: seq<nat>, supported: Masks, was: seq<Stats>, now: seq<Stats>)
    requires Shaped(supported) && forall s :: s in ss ==> WellFormed(s, cckRates, supported)
  {
    && |was| == |now| == CELLS
    && forall c :: 0 <= c < CELLS && Has(supported, c) ==>
                     && Grew(Counted(was[c]), Counted(now[c]), TriedBy(ss, cckRates, supported, c))
                     && Grew(Succeeded(was[c]), Succeeded(now[c]), AckedBy(ss, cckRates, supported, c))
  }

  lemma NothingCounted(cckRates: seq<nat>, supported: Masks, was: seq<Stats>)
    requires Shaped(supported) && |was| == CELLS
    ensures RunCounted([], cckRates, supported, was, was)
  {
  }

  lemma OneMoreCounted(ss: seq<Status>, s: Status, cckRates: seq<nat>, supported: Masks,
                       was: seq<Stats>, mid: seq<Stats>, now: seq<Stats>)
    requires Shaped(supported) && WellFormed(s, cckRates, supported)
    requires forall t :: t in ss ==> WellFormed(t, cckRates, supported)
    requires RunCounted(ss, cckRates, supported, was, mid)
    requires if Ignored(s) then now == mid else CountsReported(s, cckRates, supported, mid, now)
    ensures RunCounted(ss + [s], cckRates, supported, was, now)
  {
    hide WellFormed, CellReports, Grew, Counted, Succeeded, Tried, Acked, Has, Ignored;
    var all := ss + [s];
    assert all[..|all| - 1] == ss && all[|all| - 1] == s;
    forall c | 0 <= c < CELLS && Has(supported, c)
      ensures Grew(Counted(was[c]), Counted(now[c]), TriedBy(all, cckRates, supported, c))
      ensures Grew(Succeeded(was[c]), Succeeded(now[c]), AckedBy(all, cckRates, supported, c))
    {
      if !Ignored(s) {
        var es := CellReports(s, cckRates, supported, c);
        GrewTwice(Counted(was[c]), Counted(mid[c]), Counted(now[c]), TriedBy(ss, cckRates, supported, c), Tried(es));
        GrewTwice(Succeeded(was[c]), Succeeded(mid[c]), Succeeded(now[c]),
                  AckedBy(ss, cckRates, supported, c), Acked(es));
      }
    }
  }

  lemma OneMoreFollows(supported: Masks, ss: seq<Status>, trace: seq<Choice>, s: Status, to: Choice)
    requires Follow(supported, ss, trace) && Follows(supported, s, trace[|ss|], to)
    ensures Follow(supported, ss + [s], trace + [to])
  {
    hide Follows, Proper;
    ToProper(supported, s, trace[|ss|], to);
  }

  lemma ToProper(supported: Masks, s: Status, from: Choice, to: Choice)
    requires Follows(supported, s, from, to)
    ensures Proper(supported, from) && Proper(supported, to)
  {
  }

  // Any run of statuses whose load is sustained leaves the station valid after each of
  // them, counts exactly what it reports, and gives a trace of choices in which every
  // status follows its predecessor.
  method TakeAll(st: Station, ss: seq<Status>) returns (ghost trace: seq<Choice>)
    requires st.Valid() && Sustained(ss, LoadOf(st))
    requires forall s :: s in ss ==> WellFormed(s, st.cckRates, st.supported)
    modifies st, st.rates, st.groups, st.maxTp, st.rateTable
    ensures st.Valid()
    ensures Follow(st.supported, ss, trace) && trace[0] == old(ChoiceOf(st)) && trace[|ss|] == ChoiceOf(st)
    ensures RunCounted(ss, st.cckRates, st.supported, old(st.rates[..]), st.rates[..])
  {
    hide Caps, WellFormed, Follows, Proper, RunCounted, CountsReported, Station.StatsOk, Station.AirOk, Station.NamesOk,
         Station.ListsOk, Station.CursorsOk, Station.NamedOk, Station.LoadOk, Station.Lists, LoadFits, LoadAfter;
    ghost var was := st.rates[..];
    ValidChoice(st);
    trace := [ChoiceOf(st)];
    NothingCounted(st.cckRates, st.supported, was);
    var i := 0;
    while i < |ss|
      invariant 0 <= i <= |ss| && st.Valid() && Sustained(ss[i..], LoadOf(st))
      invariant Follow(st.supported, ss[..i], trace) && trace[0] == old(ChoiceOf(st)) && trace[i] == ChoiceOf(st)
      invariant RunCounted(ss[..i], st.cckRates, st.supported, was, st.rates[..])
    {
      ghost var s, mid := ss[i], st.rates[..];
      assert ss[..i + 1] == ss[..i] + [s] && ss[i..][0] == s && ss[i..][1..] == ss[i + 1..];
      TakeOne(st, ss[i]);
      ValidChoice(st);
      OneMoreFollows(st.supported, ss[..i], trace, s, ChoiceOf(st));
      OneMoreCounted(ss[..i], s, st.cckRates, st.supported, was, mid, st.rates[..]);
      trace := trace + [ChoiceOf(st)];
      i := i + 1;
    }
    assert ss[..|ss|] == ss;
  }

  lemma ValidChoice(st: Station)
    requires st.Valid()
    ensures st.Configured() && Proper(st.supported, ChoiceOf(st)) && |st.rates[..]| == CELLS && Shaped(st.supported)
  {
    hide Caps, ListsDescend, Named, ListsNamed;
  }

  // ----- Downgrades over a run -----

  function Rate(c: Choice, primary: bool): nat {
    if primary then c.first else c.second
  }

  // The recomputations of a run.
  function Renewals(ss: seq<Status>): nat
    decreases |ss|
  {
    if ss == [] then 0
    else Renewals(ss[..|ss| - 1]) + if !Ignored(ss[|ss| - 1]) && ss[|ss| - 1].expired then 1 else 0
  }

  // The statuses that changed the group of a rate without a recomputation.
  function Downgrades(ss: seq<Status>, trace: seq<Choice>, primary: bool): nat
    requires |trace| == |ss| + 1
    decreases |ss|
  {
    if ss == [] then 0
    else
      var n, s := |ss|, ss[|ss| - 1];
      Downgrades(ss[..n - 1], trace[..n], primary) +
      if (Ignored(s) || !s.expired) && Group(trace[n - 1], primary) != Group(trace[n], primary) then 1 else 0
  }

  function Group(c: Choice, primary: bool): nat {
    Rate(c, primary) / MCS_GROUP_RATES
  }

  lemma MovesLower(supported: Masks, lists: seq<seq<nat>>, primary: bool, from: nat, to: nat)
    requires ListsDescend(supported, lists) && Moves(supported, lists, primary, from, to)
    ensures to / MCS_GROUP_RATES <= from / MCS_GROUP_RATES
  {
    hide ListsDescend, Downgraded;
    DowngradeDescends(supported, lists, from, primary);
  }

  // Over any run, downgrades of either rate are paid for by groups: those below the
  // rate at the start, and ten more for every recomputation. In particular a run
  // without a recomputation downgrades a rate at most as often as it has groups below.
  lemma {:induction false} DowngradesPaidFor(supported: Masks, ss: seq<Status>, trace: seq<Choice>, primary: bool)
    requires Follow(supported, ss, trace)
    ensures Downgrades(ss, trace, primary) + Group(trace[|ss|], primary) <= Group(trace[0], primary) + 10 * Renewals(ss)
    decreases |ss|
  {
    hide Moves, ListsDescend;
    if ss != [] {
      var n, s := |ss|, ss[|ss| - 1];
      var front, before := ss[..n - 1], trace[..n];
      assert forall i :: 0 <= i < n ==> before[i] == trace[i];
      assert forall i :: 0 <= i < n - 1 ==> Follows(supported, front[i], before[i], before[i + 1]);
      DowngradesPaidFor(supported, front, before, primary);
      assert Follows(supported, ss[n - 1], trace[n - 1], trace[n]);
      if !Ignored(s) && !s.expired {
        MovesLower(supported, trace[n - 1].lists, primary, Rate(trace[n - 1], primary), Rate(trace[n], primary));
      }
    }
  }

  function Rates(trace: seq<Choice>, primary: bool): (r: seq<nat>)
    ensures |r| == |trace| && forall i :: 0 <= i < |trace| ==> r[i] == Rate(trace[i], primary)
  {
    seq(|trace|, i requires 0 <= i < |trace| => Rate(trace[i], primary))
  }

  lemma FollowsMoves(supported: Masks, s: Status, from: Choice, to: Choice, primary: bool)
    requires Follows(supported, s, from, to) && (Ignored(s) || !s.expired)
    ensures to.lists == from.lists && ListsDescend(supported, from.lists)
    ensures Moves(supported, from.lists, primary, Rate(from, primary), Rate(to, primary))
  {
    hide ListsDescend, Downgraded;
  }

  lemma OneMoreMove(supported: Masks, lists: seq<seq<nat>>, primary: bool, prior: seq<nat>, run: seq<nat>)
    requires ListsDescend(supported, lists) && Descent(supported, lists, primary, prior)
    requires |prior| > 0 && |run| == |prior| + 1 && run[..|prior|] == prior
    requires Moves(supported, lists, primary, run[|prior| - 1], run[|prior|])
    ensures Descent(supported, lists, primary, run)
  {
    hide ListsDescend, Moves;
    forall i | 0 <= i < |run| - 1
      ensures Moves(supported, lists, primary, run[i], run[i + 1])
    {
      if i < |prior| - 1 {
        assert Moves(supported, lists, primary, prior[i], prior[i + 1]);
        assert prior[i] == run[i] && prior[i + 1] == run[i + 1];
      }
    }
  }

  // Between two recomputations the lists stay and each rate descends by them, so that
  // its group changes at most as often as there are groups below it.
  lemma {:induction false} IntervalDescends(supported: Masks, ss: seq<Status>, trace: seq<Choice>, primary: bool)
    requires Follow(supported, ss, trace) && forall s :: s in ss ==> Ignored(s) || !s.expired
    ensures trace[|ss|].lists == trace[0].lists && ListsDescend(supported, trace[0].lists)
    ensures Descent(supported, trace[0].lists, primary, Rates(trace, primary))
    ensures GroupChanges(Rates(trace, primary)) <= Group(trace[0], primary)
    decreases |ss|
  {
    hide ListsDescend, Downgraded, GroupChanges, StepsDown;
    if ss != [] {
      var n := |ss|;
      var front, before := ss[..n - 1], trace[..n];
      assert forall i :: 0 <= i < n ==> before[i] == trace[i];
      assert forall i :: 0 <= i < n - 1 ==> Follows(supported, front[i], before[i], before[i + 1]);
      IntervalDescends(supported, front, before, primary);
      assert Follows(supported, ss[n - 1], trace[n - 1], trace[n]);
      FollowsMoves(supported, ss[n - 1], trace[n - 1], trace[n], primary);
      OneMoreMove(supported, trace[0].lists, primary, Rates(before, primary), Rates(trace, primary));
    }
    assert Proper(supported, trace[0]);
    DowngradesRunOut(supported, trace[0].lists, primary, Rates(trace, primary));
  }
}
