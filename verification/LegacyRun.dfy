/** Whole runs of rate requests and transmit statuses on a legacy station: it stays valid,
    loses no counts and keeps to its sampling budget. */
module LegacyRun {
  import opened FixedPoint
  import opened RateStats
  import opened LegacyModel
  import opened LegacyStation
  import Sampling = LegacySampling

  datatype Event = Ask(useRts: bool, useCts: bool) | Answer(status: LegacyModel.Status)

  // The statuses since the last recomputation, n of them before the run.
  function InInterval(es: seq<Event>, n: nat): nat
    decreases |es|
  {
    if es == [] then n
    else
      var before := InInterval(es[..|es| - 1], n);
      match es[|es| - 1]
      case Ask(_, _) => before
      case Answer(s) => if s.expired then 0 else before + 1
  }

  // Statuses name rates of the band, and no interval has so many of them that an attempt
  // counter could overflow: at most 1020 tries come with each.
  predicate Playable(es: seq<Event>, bitrates: nat, n: nat) {
    forall i :: 0 <= i < |es| && es[i].Answer? ==>
                  WellFormed(es[i].status, bitrates) && 1020 * InInterval(es[..i], n) + ROOM < TWO32
  }

  // The attempts of an interval are bounded by its statuses.
  ghost predicate Loaded(st: Station, n: nat)
    reads st.r
  {
    st.nRates <= st.r.Length && forall k :: 0 <= k < st.nRates ==> st.r[k].stats.attempts <= 1020 * n
  }

  predicate Renewed(es: seq<Event>) {
    exists i :: 0 <= i < |es| && es[i].Answer? && es[i].status.expired
  }

  // A rate is limited exactly if its stored probability is above 95% or below 10%.
  predicate Banded(x: Rate) {
    x.sampleLimit >= 0 <==> x.stats.probEwma > 3891 || x.stats.probEwma < 409
  }

  // This holds from the first recomputation on; a fresh rate has no limit yet.
  ghost predicate AllBanded(st: Station)
    reads st.r
  {
    st.nRates <= st.r.Length && forall k :: 0 <= k < st.nRates ==> Banded(st.r[k])
  }

  // ----- Counts -----

  lemma {:induction false} TriedAtMost(s: LegacyModel.Status, rixs: seq<int>, k: nat, n: nat)
    requires WellFormed(s, |rixs|) && n <= LegacyModel.ChainLength(s, 0)
    ensures Tried(LegacyModel.Reports(s, rixs, k, n)) <= 255 * n
    decreases n
  {
    if n > 0 {
      TriedAtMost(s, rixs, k, n - 1);
      var es, e := LegacyModel.Reports(s, rixs, k, n - 1), LegacyModel.EntryEvent(s, n - 1);
      assert (es + [e])[..|es|] == es && es + [] == es;
    }
  }

  function StatusReports(s: LegacyModel.Status, rixs: seq<int>, k: nat): seq<RateStats.Event>
    requires WellFormed(s, |rixs|)
  {
    LegacyModel.Reports(s, rixs, k, LegacyModel.ChainLength(s, 0))
  }

  // Rate k after a status, before and after a possible recomputation.
  lemma CountedOnce(s: LegacyModel.Status, rixs: seq<int>, was: seq<Rate>, k: nat)
    requires WellFormed(s, |rixs|) && k < |was|
    requires Sound(was[k].stats) && was[k].stats.attempts + ROOM < TWO32
    ensures var es, taken := StatusReports(s, rixs, k), LegacyModel.Taken(s, rixs, was,
            LegacyModel.ChainLength(s, 0))[k];
            var now := if s.expired then Updated(taken) else taken;
            && Grew(Counted(was[k].stats), Counted(now.stats), Tried(es))
            && Grew(Succeeded(was[k].stats), Succeeded(now.stats), Acked(es))
            && taken.stats.attempts <= was[k].stats.attempts + 1020
            && now.rix == was[k].rix && (s.expired ==> now.stats.attempts == 0)
  {
    hide Grew, LegacyModel.Reports, Tried, Acked, Run, TpAvg;
    var es, taken := StatusReports(s, rixs, k), LegacyModel.Taken(s, rixs, was, LegacyModel.ChainLength(s, 0))[k];
    LegacyModel.TakenSound(s, rixs, was, k);
    TriedAtMost(s, rixs, k, LegacyModel.ChainLength(s, 0));
    ExactlyGrows(Counted(was[k].stats), Tried(es));
    ExactlyGrows(Succeeded(was[k].stats), Acked(es));
    if s.expired {
      UpdatedCounts(taken);
      GrewTwice(Counted(was[k].stats), Counted(taken.stats), Counted(Updated(taken).stats), Tried(es), 0);
      GrewTwice(Succeeded(was[k].stats), Succeeded(taken.stats), Succeeded(Updated(taken).stats), Acked(es), 0);
    }
  }

  lemma UpdatedCounts(x: Rate)
    requires Sound(x.stats)
    ensures Grew(Counted(x.stats), Counted(Updated(x).stats), 0)
    ensures Grew(Succeeded(x.stats), Succeeded(Updated(x).stats), 0)
    ensures Updated(x).stats.attempts == 0 && Updated(x).rix == x.rix
  {
    hide Grew, TpAvg, Recalculated;
    StepConserves(x.stats, Recalculate);
    assert Tried([Recalculate]) == 0 && Acked([Recalculate]) == 0;
    RecalculatedClears(x.stats);
  }

  // What a run reports for rate k.
  function TriedBy(es: seq<Event>, rixs: seq<int>, k: nat): nat
    requires forall e :: e in es && e.Answer? ==> WellFormed(e.status, |rixs|)
    decreases |es|
  {
    if es == [] then 0
    else
      var e := es[|es| - 1];
      TriedBy(es[..|es| - 1], rixs, k) + if e.Answer? then Tried(StatusReports(e.status, rixs, k)) else 0
  }

  function AckedBy(es: seq<Event>, rixs: seq<int>, k: nat): nat
    requires forall e :: e in es && e.Answer? ==> WellFormed(e.status, |rixs|)
    decreases |es|
  {
    if es == [] then 0
    else
      var e := es[|es| - 1];
      AckedBy(es[..|es| - 1], rixs, k) + if e.Answer? then Acked(StatusReports(e.status, rixs, k)) else 0
  }

  // Every rate has counted exactly what the run reports for it.
  ghost predicate RunCounted(es: seq<Event>, rixs: seq<int>, n: nat, was: seq<Rate>, now: seq<Rate>)
    requires forall e :: e in es && e.Answer? ==> WellFormed(e.status, |rixs|)
  {
    && |was| == |now| && n <= |was|
    && forall k :: 0 <= k < n ==>
                     && Grew(Counted(was[k].stats), Counted(now[k].stats), TriedBy(es, rixs, k))
                     && Grew(Succeeded(was[k].stats), Succeeded(now[k].stats), AckedBy(es, rixs, k))
  }

  lemma NothingCounted(rixs: seq<int>, n: nat, was: seq<Rate>)
    requires n <= |was|
    ensures RunCounted([], rixs, n, was, was)
  {
  }

  // The counts that one event adds.
  ghost predicate EventCounted(e: Event, rixs: seq<int>, n: nat, was: seq<Rate>, now: seq<Rate>)
    requires e.Answer? ==> WellFormed(e.status, |rixs|)
  {
    && |was| == |now| && n <= |was|
    && forall k :: 0 <= k < n ==>
                     if e.Answer?
                     then
                       var es := StatusReports(e.status, rixs, k);
                       && Grew(Counted(was[k].stats), Counted(now[k].stats), Tried(es))
                       && Grew(Succeeded(was[k].stats), Succeeded(now[k].stats), Acked(es))
                     else now[k].stats == was[k].stats
  }

  lemma OneMoreCounted(es: seq<Event>, e: Event, rixs: seq<int>, n: nat, was: seq<Rate>, mid: seq<Rate>, now: seq<Rate>)
    requires forall f :: f in es + [e] && f.Answer? ==> WellFormed(f.status, |rixs|)
    requires forall f :: f in es && f.Answer? ==> WellFormed(f.status, |rixs|)
    requires e.Answer? ==> WellFormed(e.status, |rixs|)
    requires RunCounted(es, rixs, n, was, mid) && EventCounted(e, rixs, n, mid, now)
    ensures RunCounted(es + [e], rixs, n, was, now)
  {
    hide Grew, Counted, Succeeded, Tried, Acked, StatusReports, WellFormed;
    var all := es + [e];
    assert all[..|all| - 1] == es && all[|all| - 1] == e;
    forall k | 0 <= k < n
      ensures Grew(Counted(was[k].stats), Counted(now[k].stats), TriedBy(all, rixs, k))
      ensures Grew(Succeeded(was[k].stats), Succeeded(now[k].stats), AckedBy(all, rixs, k))
    {
      if e.Answer? {
        var rs := StatusReports(e.status, rixs, k);
        GrewTwice(Counted(was[k].stats), Counted(mid[k].stats), Counted(now[k].stats), TriedBy(es, rixs, k), Tried(rs));
        GrewTwice(Succeeded(was[k].stats), Succeeded(mid[k].stats), Succeeded(now[k].stats),
                  AckedBy(es, rixs, k), Acked(rs));
      }
    }
  }

  // ----- Sampling -----

  // The sampling events that the events of the station amount to.
  predicate Mirrors(es: seq<Event>, ss: seq<Sampling.Event>)
    decreases |es|
  {
    if es == [] then ss == []
    else
      var front, n := es[..|es| - 1], |ss|;
      match es[|es| - 1]
      case Ask(_, _) => n > 0 && ss[n - 1] == Sampling.Request && Mirrors(front, ss[..n - 1])
      case Answer(s) =>
        if s.expired
        then n > 1 && ss[n - 1].Recompute? && ss[n - 2] == Sampling.Status(s.probe) && Mirrors(front, ss[..n - 2])
        else n > 0 && ss[n - 1] == Sampling.Status(s.probe) && Mirrors(front, ss[..n - 1])
  }

  // The tally is what the sampling events make of it.
  ghost predicate Tallied(t: Sampling.Tally, p: Sampling.Plan, ss: seq<Sampling.Event>, now: Sampling.Sampling)
  {
    && Sampling.Fit(t.s, p) && |t.perRate| == p.n
    && (forall e :: e in ss ==> Sampling.Proper(e, p.n))
    && Sampling.Run(t, p, ss).s == now
  }

  // The decisions of the station's requests are those of the mirrored run.
  ghost predicate Decided(t: Sampling.Tally, p: Sampling.Plan, ss: seq<Sampling.Event>, outs: seq<Sampling.Outcome>) {
    && Sampling.Fit(t.s, p) && |t.perRate| == p.n
    && (forall e :: e in ss ==> Sampling.Proper(e, p.n))
    && |outs| == |Sampling.Outcomes(t, p, ss)|
    && forall j :: 0 <= j < |outs| ==> outs[j] == Sampling.Outcomes(t, p, ss)[j].1
  }

  lemma OneMoreDecided(t: Sampling.Tally, p: Sampling.Plan, ss: seq<Sampling.Event>, s: Sampling.Sampling,
                       e: Sampling.Event, outs: seq<Sampling.Outcome>, o: Sampling.Outcome)
    requires Tallied(t, p, ss, s) && Decided(t, p, ss, outs) && Sampling.Proper(e, p.n) && Sampling.Fit(s, p)
    requires e.Request? ==> o == Sampling.Ask(s, p).1
    ensures Decided(t, p, ss + [e], if e.Request? then outs + [o] else outs)
  {
    hide Sampling.Ask, Sampling.Fit;
    assert (ss + [e])[..|ss|] == ss;
  }

  lemma OneMoreTallied(t: Sampling.Tally, p: Sampling.Plan, ss: seq<Sampling.Event>, s: Sampling.Sampling,
                       e: Sampling.Event, now: Sampling.Sampling)
    requires Tallied(t, p, ss, s) && Sampling.Proper(e, p.n) && Sampling.Fit(s, p)
    requires match e
             case Request => now == Sampling.Ask(s, p).0
             case Status(probe) => now == Sampling.Reported(s, probe)
             case Recompute(limits, top) => now == s.(limits := limits, top := top)
    ensures Tallied(t, p, ss + [e], now)
  {
    hide Sampling.Ask, Sampling.Reported, Sampling.Fit;
    assert (ss + [e])[..|ss|] == ss;
  }

  lemma OneMoreMirrors(es: seq<Event>, e: Event, ss: seq<Sampling.Event>, more: seq<Sampling.Event>)
    requires Mirrors(es, ss)
    requires match e
             case Ask(_, _) => more == [Sampling.Request]
             case Answer(s) =>
               if s.expired then |more| == 2 && more[0] == Sampling.Status(s.probe) && more[1].Recompute?
               else more == [Sampling.Status(s.probe)]
    ensures Mirrors(es + [e], ss + more)
  {
    var es', ss' := es + [e], ss + more;
    assert es'[..|es'| - 1] == es && ss'[..|ss|] == ss && es'[|es|] == e;
    if e.Answer? && e.status.expired {
      assert ss'[|ss'| - 1] == more[1] && ss'[|ss'| - 2] == more[0];
    } else {
      assert ss'[|ss'| - 1] == more[0];
    }
  }

  // ----- The run -----

  method PlayAsk(st: Station, useRts: bool, useCts: bool, ghost n: nat) returns (o: Sampling.Outcome)
    requires st.Valid() && Loaded(st, n)
    modifies st, st.r
    ensures st.Valid() && Loaded(st, n) && st.Rixs() == old(st.Rixs()) && st.PlanNow() == old(st.PlanNow())
    ensures EventCounted(Ask(useRts, useCts), st.Rixs(), st.nRates, old(st.r[..]), st.r[..])
    ensures Sampling.Fit(old(st.SamplingNow()), old(st.PlanNow()))
    ensures (st.SamplingNow(), o) == Sampling.Ask(old(st.SamplingNow()), old(st.PlanNow()))
    ensures old(AllBanded(st)) ==> AllBanded(st)
  {
    hide Sampling.Ask, Sampling.Fit, Station.StatsOk, Station.TableOk, Station.SamplingOk, RixsOf, LimitsOf, TimesOf;
    ghost var was := st.r[..];
    ShapedIs(st);
    var entry;
    o, entry := st.GetRate(useRts, useCts);
    ShapedIs(st);
    forall k | 0 <= k < |was|
      ensures st.r[..][k].stats == was[k].stats && st.r[k].rix == was[k].rix
    {
      assert st.r[k] == was[k].(sampleLimit := st.r[k].sampleLimit);
    }
    SameRixs(was, st.r[..]);
  }

  lemma ShapedIs(st: Station)
    requires st.Valid()
    ensures st.Shaped()
  {
  }

  lemma SameRixs(was: seq<Rate>, now: seq<Rate>)
    requires |was| == |now| && forall k :: 0 <= k < |was| ==> now[k].rix == was[k].rix
    ensures RixsOf(was) == RixsOf(now)
  {
  }

  method PlayAnswer(st: Station, s: LegacyModel.Status, ghost n: nat)
    requires st.Valid() && Loaded(st, n) && WellFormed(s, st.r.Length) && 1020 * n + ROOM < TWO32
    modifies st, st.r, st.maxTp, st.rateTable
    ensures st.Valid() && Loaded(st, if s.expired then 0 else n + 1)
    ensures st.Rixs() == old(st.Rixs()) && st.PlanNow() == old(st.PlanNow())
    ensures EventCounted(Answer(s), st.Rixs(), st.nRates, old(st.r[..]), st.r[..])
    ensures var reported := Sampling.Reported(old(st.SamplingNow()), s.probe);
            st.SamplingNow() == if s.expired then reported.(limits := LimitsOf(st.r[..st.nRates]), top := st.maxTp[0])
                                else reported
    ensures s.expired ==> Sampling.Proper(Sampling.Recompute(LimitsOf(st.r[..st.nRates]), st.maxTp[0]), st.nRates)
    ensures old(AllBanded(st)) || s.expired ==> AllBanded(st)
  {
    hide Sampling.Reported, Station.TableOk, RixsOf, TimesOf, WellFormed, Updated, Station.Ps, Station.Tps, IsChain,
         Station.TableWritten, LegacyModel.Taken, StatusReports, Grew, Counted, Succeeded;
    ghost var was, rixs := st.r[..], st.Rixs();
    assert st.CountersFit(ROOM);
    SoundIs(st);
    st.TxStatus(s);
    forall k | 0 <= k < |was|
      ensures k < st.nRates ==>
                && Grew(Counted(was[k].stats), Counted(st.r[..][k].stats), Tried(StatusReports(s, rixs, k)))
                && Grew(Succeeded(was[k].stats), Succeeded(st.r[..][k].stats), Acked(StatusReports(s, rixs, k)))
                && st.r[k].stats.attempts <= 1020 * (if s.expired then 0 else n + 1)
      ensures st.r[k].rix == was[k].rix
      ensures k < st.nRates && (Banded(was[k]) || s.expired) ==> Banded(st.r[k])
    {
      TakenRix(s, rixs, was, k);
      if k < st.nRates {
        CountedOnce(s, rixs, was, k);
      }
    }
    SameRixs(was, st.r[..]);
  }

  lemma SoundIs(st: Station)
    requires st.Valid()
    ensures st.Shaped() && forall k :: 0 <= k < st.nRates ==> Sound(st.r[..][k].stats)
  {
    hide Sound;
  }

  lemma TakenRix(s: LegacyModel.Status, rixs: seq<int>, was: seq<Rate>, k: nat)
    requires WellFormed(s, |rixs|) && k < |was|
    ensures var taken := LegacyModel.Taken(s, rixs, was, LegacyModel.ChainLength(s, 0));
            && taken[k].rix == was[k].rix && Updated(taken[k]).rix == was[k].rix
            && (Banded(was[k]) ==> Banded(taken[k]))
  {
    ReportsOnlyCount(was[k].stats, StatusReports(s, rixs, k));
    hide TpAvg, Recalculated, Run;
  }

  // Over every run of requests and statuses the station stays valid, every rate counts
  // exactly what is reported for it, and the sampling state and the decisions are those
  // that the budget's theorems are about: between resets the first-slot samples number at
  // most a tenth of the packets and one. From the first recomputation on a rate whose
  // stored probability is above 95% or below 10% has at most 100 of them in an interval.
  method PlayAll(st: Station, es: seq<Event>, ghost n: nat, ghost start: Sampling.Tally)
    returns (ghost ss: seq<Sampling.Event>, ghost outs: seq<Sampling.Outcome>)
    requires st.Valid() && Loaded(st, n) && Playable(es, st.r.Length, n)
    requires start.s == st.SamplingNow() && |start.perRate| == st.nRates && Sampling.WithinBudget(start)
    modifies st, st.r, st.maxTp, st.rateTable
    ensures st.Valid() && Loaded(st, InInterval(es, n)) && st.Rixs() == old(st.Rixs())
    ensures st.PlanNow() == old(st.PlanNow()) && Mirrors(es, ss)
    ensures forall e :: e in es && e.Answer? ==> WellFormed(e.status, |st.Rixs()|)
    ensures RunCounted(es, st.Rixs(), st.nRates, old(st.r[..]), st.r[..])
    ensures Tallied(start, st.PlanNow(), ss, st.SamplingNow())
    ensures Sampling.WithinBudget(Sampling.Run(start, st.PlanNow(), ss))
    ensures Decided(start, st.PlanNow(), ss, outs)
    ensures old(AllBanded(st)) || Renewed(es) ==> AllBanded(st) && BandSampled(st, start, ss)
  {
    hide Playable, Loaded, AllBanded, BandSampled, Decided, Renewed, RunCounted, EventCounted, Tallied, Mirrors,
         Sampling.WithinBudget, Sampling.Ask,
         Sampling.Reported, Sampling.Fit, Sampling.Proper, WellFormed, Station.StatsOk, Station.TableOk,
         Station.SamplingOk, RixsOf, TimesOf, LimitsOf, InInterval;
    ShapedIs(st);
    ghost var was, rixs, plan := st.r[..], st.Rixs(), st.PlanNow();
    ghost var banded := AllBanded(st);
    ss, outs := [], [];
    Begin(st, start, n);
    FormedAll(es, st.r.Length, n);
    var i := 0;
    assert es[..0] == [];
    while i < |es|
      invariant 0 <= i <= |es| && st.Valid() && st.Shaped() && Loaded(st, InInterval(es[..i], n))
      invariant st.Rixs() == rixs && st.PlanNow() == plan && Mirrors(es[..i], ss)
      invariant RunCounted(es[..i], rixs, st.nRates, was, st.r[..])
      invariant Tallied(start, plan, ss, st.SamplingNow()) && Decided(start, plan, ss, outs)
      invariant banded || Renewed(es[..i]) ==> AllBanded(st)
    {
      ghost var past, mid, s0 := es[..i], st.r[..], st.SamplingNow();
      assert es[..i + 1] == past + [es[i]];
      IntervalNext(past, es[i], n);
      RenewedNext(past, es[i]);
      FitIs(st);
      match es[i] {
        case Ask(useRts, useCts) =>
          var o := PlayAsk(st, useRts, useCts, InInterval(past, n));
          ProperPlain(plan.n);
          OneMoreDecided(start, plan, ss, s0, Sampling.Request, outs, o);
          outs := outs + [o];
          OneMoreTallied(start, plan, ss, s0, Sampling.Request, st.SamplingNow());
          OneMoreMirrors(past, es[i], ss, [Sampling.Request]);
          ss := ss + [Sampling.Request];
        case Answer(s) =>
          FormedAt(es, i, st.r.Length, n);
          PlayAnswer(st, s, InInterval(past, n));
          ProperPlain(plan.n);
          ghost var reported := Sampling.Reported(s0, s.probe);
          OneMoreTallied(start, plan, ss, s0, Sampling.Status(s.probe), reported);
          OneMoreDecided(start, plan, ss, s0, Sampling.Status(s.probe), outs, Sampling.None);
          if s.expired {
            ghost var e := Sampling.Recompute(LimitsOf(st.r[..st.nRates]), st.maxTp[0]);
            ReportedFit(s0, s.probe, plan);
            OneMoreTallied(start, plan, ss + [Sampling.Status(s.probe)], reported, e, st.SamplingNow());
            OneMoreDecided(start, plan, ss + [Sampling.Status(s.probe)], reported, e, outs, Sampling.None);
            assert ss + [Sampling.Status(s.probe)] + [e] == ss + [Sampling.Status(s.probe), e];
            OneMoreMirrors(past, es[i], ss, [Sampling.Status(s.probe), e]);
            ss := ss + [Sampling.Status(s.probe), e];
          } else {
            OneMoreMirrors(past, es[i], ss, [Sampling.Status(s.probe)]);
            ss := ss + [Sampling.Status(s.probe)];
          }
      }
      OneMoreCounted(past, es[i], rixs, st.nRates, was, mid, st.r[..]);
      ShapedIs(st);
      i := i + 1;
    }
    assert es[..|es|] == es;
    InBudget(start, plan, ss, st.SamplingNow());
    if AllBanded(st) {
      BandIsSampled(st, start, ss);
    }
  }

  // A rate whose stored probability is outside the band was sampled in the first slot at
  // most 100 times since the last recomputation.
  ghost predicate BandSampled(st: Station, start: Sampling.Tally, ss: seq<Sampling.Event>)
    requires st.Shaped()
    reads st, st.r, st.maxTp, st.table
  {
    && Tallied(start, st.PlanNow(), ss, st.SamplingNow())
    && forall k :: 0 <= k < st.nRates && (st.r[k].stats.probEwma > 3891 || st.r[k].stats.probEwma < 409) ==>
                     var direct := Sampling.Run(start, st.PlanNow(), ss).perRate;
                     k < |direct| && direct[k] <= 100
  }

  lemma BandIsSampled(st: Station, start: Sampling.Tally, ss: seq<Sampling.Event>)
    requires st.Shaped() && AllBanded(st) && Tallied(start, st.PlanNow(), ss, st.SamplingNow())
    requires Sampling.WithinBudget(Sampling.Run(start, st.PlanNow(), ss))
    ensures BandSampled(st, start, ss)
  {
    st.LimitsAre();
    hide Sampling.Fit, Sampling.Proper, Sampling.Run, LimitsOf, TimesOf;
  }

  lemma RenewedNext(es: seq<Event>, e: Event)
    ensures Renewed(es + [e]) <==> Renewed(es) || (e.Answer? && e.status.expired)
  {
    var es' := es + [e];
    assert es'[|es|] == e && forall i :: 0 <= i < |es| ==> es'[i] == es[i];
  }

  lemma Begin(st: Station, start: Sampling.Tally, n: nat)
    requires st.Valid() && Loaded(st, n)
    requires start.s == st.SamplingNow() && |start.perRate| == st.nRates
    ensures Tallied(start, st.PlanNow(), [], st.SamplingNow()) && Mirrors([], []) && !Renewed([])
    ensures Decided(start, st.PlanNow(), [], [])
    ensures RunCounted([], st.Rixs(), st.nRates, st.r[..], st.r[..]) && InInterval([], n) == n
  {
    hide Station.TableOk, Station.StatsOk, Sampling.Fit;
    st.SamplingFits();
  }

  lemma FitIs(st: Station)
    requires st.Valid()
    ensures st.Shaped() && Sampling.Fit(st.SamplingNow(), st.PlanNow()) && st.PlanNow().n == st.nRates
  {
    hide Station.TableOk, Station.StatsOk, Sampling.Fit;
    st.SamplingFits();
  }

  lemma ReportedFit(s: Sampling.Sampling, probe: bool, p: Sampling.Plan)
    requires Sampling.Fit(s, p)
    ensures Sampling.Fit(Sampling.Reported(s, probe), p)
  {
  }

  lemma ProperPlain(n: nat)
    ensures Sampling.Proper(Sampling.Request, n)
    ensures forall probe :: Sampling.Proper(Sampling.Status(probe), n)
  {
  }

  lemma InBudget(t: Sampling.Tally, p: Sampling.Plan, ss: seq<Sampling.Event>, now: Sampling.Sampling)
    requires Tallied(t, p, ss, now) && Sampling.WithinBudget(t)
    ensures Tallied(t, p, ss, now) && Sampling.WithinBudget(Sampling.Run(t, p, ss))
  {
    hide Sampling.WithinBudget, Sampling.Fit, Sampling.Proper;
    Sampling.EveryRunWithinBudget(t, p, ss);
  }

  lemma IntervalNext(es: seq<Event>, e: Event, n: nat)
    ensures InInterval(es + [e], n) ==
            match e
            case Ask(_, _) => InInterval(es, n)
            case Answer(s) => if s.expired then 0 else InInterval(es, n) + 1
  {
    assert (es + [e])[..|es|] == es;
  }

  lemma FormedAt(es: seq<Event>, i: nat, bitrates: nat, n: nat)
    requires Playable(es, bitrates, n) && i < |es| && es[i].Answer?
    ensures WellFormed(es[i].status, bitrates) && 1020 * InInterval(es[..i], n) + ROOM < TWO32
  {
  }

  lemma FormedAll(es: seq<Event>, bitrates: nat, n: nat)
    requires Playable(es, bitrates, n)
    ensures forall e :: e in es && e.Answer? ==> WellFormed(e.status, bitrates)
  {
    hide WellFormed, InInterval;
  }
}
