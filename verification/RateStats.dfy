/** The per-rate statistics cell (struct minstrel_rate_stats) and what every run of
    reports, recomputations and resets does to it. Counters are unsigned 32-bit. */
module RateStats {
  import opened FixedPoint

  datatype Stats = Stats(
    attempts: nat, lastAttempts: nat,
    success: nat, lastSuccess: nat,
    attHist: nat, succHist: nat,
    probEwma: nat, probEwmv: nat,
    retryCount: nat, retryCountRtscts: nat, retryUpdated: bool,
    tpAvg: nat)

  const ZERO: Stats := Stats(0, 0, 0, 0, 0, 0, 0, 0, 0, 0, false, 0)

  // What holds of a cell in every reachable state.
  predicate Sound(s: Stats) {
    && s.success <= s.attempts < TWO32
    && s.attHist < TWO32 && s.succHist < TWO32
    && s.probEwma <= SCALE
    && s.probEwmv <= EWMV_MAX
  }

  // The lifetime counters are never reset in normal operation, so they may wrap; until
  // they do, past successes stay within past attempts.
  predicate Historic(s: Stats) {
    s.succHist <= s.attHist
  }

  // The new average and variance of an interval with at least one attempt.
  function Measured(s: Stats): (r: Stats)
    requires s.attempts > 0
  {
    var curProb := Frac(s.success, s.attempts);
    if s.attHist == 0 then s.(probEwma := Wrap16(curProb))
    else s.(probEwmv := Wrap16(Ewmv(s.probEwmv, curProb, s.probEwma)),
            probEwma := Wrap16(Ewma(s.probEwma, curProb)))
  }

  // The averages are stored in unsigned 16-bit fields.
  function Wrap16(x: int): nat {
    x % 0x1_0000
  }

  function Recalculated(s: Stats): Stats {
    (if s.attempts > 0
     then Measured(s).(attHist := Wrap32(s.attHist + s.attempts), succHist := Wrap32(s.succHist + s.success))
     else s).(lastSuccess := s.success, lastAttempts := s.attempts, success := 0, attempts := 0)
  }

  // minstrel_calc_rate_stats works on the cell it is given, field by field.
  method CalcRateStats(cell: Stats) returns (mrs: Stats)
    ensures mrs == Recalculated(cell)
  {
    mrs := cell;
    if mrs.attempts > 0 {
      var curProb := Frac(mrs.success, mrs.attempts);
      if mrs.attHist == 0 {
        mrs := mrs.(probEwma := Wrap16(curProb));
      } else {
        mrs := mrs.(probEwmv := Wrap16(Ewmv(mrs.probEwmv, curProb, mrs.probEwma)));
        mrs := mrs.(probEwma := Wrap16(Ewma(mrs.probEwma, curProb)));
      }
      mrs := mrs.(attHist := Wrap32(mrs.attHist + mrs.attempts));
      mrs := mrs.(succHist := Wrap32(mrs.succHist + mrs.success));
    }
    mrs := mrs.(lastSuccess := mrs.success);
    mrs := mrs.(lastAttempts := mrs.attempts);
    mrs := mrs.(success := 0);
    mrs := mrs.(attempts := 0);
  }

  // ----- Everything that can happen to a cell -----

  datatype Event =
    | Report(tries: nat, acked: nat)
    | Recalculate
    | ClearUnfit
    | StartTop
    | StartLow

  function Reported(s: Stats, tries: nat, acked: nat): Stats {
    s.(attempts := Wrap32(s.attempts + tries), success := Wrap32(s.success + acked))
  }

  // minstrel_clear_unfitable_rate_stats: one attempt, none of it successful.
  function Cleared(s: Stats): Stats {
    if s.succHist == 0 then s
    else s.(attempts := 1, lastAttempts := 0, attHist := 0,
            success := 0, lastSuccess := 0, succHist := 0, tpAvg := 0)
  }

  // The two starting points written by minstrel_init_start_stats.
  function StartedTop(s: Stats): Stats {
    s.(attempts := 2, attHist := 3, success := 2, succHist := 3)
  }

  function StartedLow(s: Stats): Stats {
    s.(attempts := 1, attHist := 1, success := 1, succHist := 1)
  }

  function Step(s: Stats, e: Event): Stats {
    match e
    case Report(tries, acked) => Reported(s, tries, acked)
    case Recalculate => Recalculated(s)
    case ClearUnfit => Cleared(s)
    case StartTop => StartedTop(s)
    case StartLow => StartedLow(s)
  }

  function Run(s: Stats, es: seq<Event>): Stats
    decreases |es|
  {
    if es == [] then s else Step(Run(s, es[..|es| - 1]), es[|es| - 1])
  }

  // A report never acknowledges more subframes than were tried.
  predicate Honest(e: Event) {
    e.Report? ==> e.acked <= e.tries
  }

  // The event does not overflow the counter of the running interval.
  predicate Fits(s: Stats, e: Event) {
    e.Report? ==> s.attempts + e.tries < TWO32
  }

  predicate RunFits(s: Stats, es: seq<Event>)
    decreases |es|
  {
    es == [] ||
    (RunFits(s, es[..|es| - 1]) && Fits(Run(s, es[..|es| - 1]), es[|es| - 1]))
  }

  // The new average and variance fit their fields.
  lemma MeasuredInRange(s: Stats)
    requires Sound(s) && s.attempts > 0
    ensures var m, curProb := Measured(s), Frac(s.success, s.attempts);
            && m.probEwma == (if s.attHist == 0 then curProb else Ewma(s.probEwma, curProb)) <= SCALE
            && m.probEwmv == (if s.attHist == 0 then s.probEwmv else Ewmv(s.probEwmv, curProb, s.probEwma)) <= EWMV_MAX
            && m == s.(probEwma := m.probEwma, probEwmv := m.probEwmv)
  {
    hide Frac, Ewma, Ewmv;
    var curProb := Frac(s.success, s.attempts);
    FracWithin(s.success, s.attempts);
    EwmvRange(s.probEwmv, curProb, s.probEwma);
    EwmaMoves(s.probEwma, curProb);
  }

  // A recomputation never leaves the bounds, whatever the lifetime counters hold.
  lemma RecalculatedSound(s: Stats)
    requires Sound(s)
    ensures Sound(Recalculated(s))
    ensures s.attempts > 0 && s.attHist == 0 ==> Recalculated(s).probEwma == Frac(s.success, s.attempts)
    ensures s.attempts > 0 && s.attHist > 0 ==>
              Recalculated(s).probEwma == Ewma(s.probEwma, Frac(s.success, s.attempts))
    ensures s.attempts == 0 ==> Recalculated(s).probEwma == s.probEwma && Recalculated(s).probEwmv == s.probEwmv
    ensures s.attempts > 0 && s.attHist > 0 ==>
              Recalculated(s).probEwmv == Ewmv(s.probEwmv, Frac(s.success, s.attempts), s.probEwma)
  {
    hide Frac, Ewma, Ewmv, Measured;
    if s.attempts > 0 {
      MeasuredInRange(s);
    }
  }

  lemma RecalculatedClears(s: Stats)
    ensures Recalculated(s).attempts == 0 && Recalculated(s).success == 0
    ensures Recalculated(s).lastAttempts == s.attempts && Recalculated(s).lastSuccess == s.success
  {
  }

  lemma StepSound(s: Stats, e: Event)
    requires Sound(s) && Honest(e) && Fits(s, e)
    ensures Sound(Step(s, e))
  {
    if e.Recalculate? {
      RecalculatedSound(s);
    }
  }

  // In every reachable state successes stay within attempts, the probability within
  // 0 .. 4096 and its variance within 0 .. 3072, whatever the order of reports,
  // recomputations, clears and fresh starts, and however long the run.
  lemma {:induction false} EveryRunSound(s: Stats, es: seq<Event>)
    requires Sound(s) && RunFits(s, es)
    requires forall e :: e in es ==> Honest(e)
    ensures Sound(Run(s, es))
    decreases |es|
  {
    if es != [] {
      EveryRunSound(s, es[..|es| - 1]);
      StepSound(Run(s, es[..|es| - 1]), es[|es| - 1]);
    }
  }

  // The bound on the counters is needed: with the attempt counter about to wrap, one
  // honest report of two tries leaves more successes than attempts, and the next
  // recomputation then stores a probability of 5, five times certainty.
  lemma WrapBreaksSoundness(s: Stats)
    requires s == ZERO.(attempts := TWO32 - 1, success := 4)
    ensures Sound(s) && !Fits(s, Report(2, 1))
    ensures Recalculated(Step(s, Report(2, 1))).probEwma == 5 * SCALE
  {
  }

  // Exactly when one honest report keeps a cell sound: the attempt counter does not
  // wrap, or both counters wrap, or it wraps to a value still above the successes.
  lemma ReportSoundIff(s: Stats, tries: nat, acked: nat)
    requires Sound(s) && acked <= tries < TWO32
    ensures Sound(Step(s, Report(tries, acked))) <==>
            || s.attempts + tries < TWO32
            || s.success + acked >= TWO32
            || s.success + acked + TWO32 <= s.attempts + tries
  {
  }

  // The lifetime counters survive a recomputation in order: their sums do not wrap, or
  // both do, or only the attempts do and still end above the successes.
  predicate HistoryFits(s: Stats, e: Event) {
    e.Recalculate? ==>
      || s.attHist + s.attempts < TWO32
      || s.succHist + s.success >= TWO32
      || s.succHist + s.success + TWO32 <= s.attHist + s.attempts
  }

  // Exactly when an event keeps past successes within past attempts.
  lemma StepHistoricIff(s: Stats, e: Event)
    requires Sound(s) && Historic(s)
    ensures Historic(Step(s, e)) <==> HistoryFits(s, e)
  {
    hide Frac, Ewma, Ewmv;
  }

  // So over every run: past successes stay within past attempts throughout exactly
  // when every recomputation of the run meets that condition.
  lemma {:induction false} EveryRunHistoricIff(s: Stats, es: seq<Event>)
    requires Sound(s) && Historic(s) && RunFits(s, es)
    requires forall e :: e in es ==> Honest(e)
    ensures (forall k :: 0 <= k <= |es| ==> Historic(Run(s, es[..k]))) <==>
            (forall k :: 0 <= k < |es| ==> HistoryFits(Run(s, es[..k]), es[k]))
    decreases |es|
  {
    hide Historic, HistoryFits, Sound, Step;
    assert es[..|es|] == es;
    if es == [] {
      assert Run(s, es[..0]) == s;
    } else {
      var front := es[..|es| - 1];
      assert forall k :: 0 <= k <= |front| ==> front[..k] == es[..k];
      assert forall k :: 0 <= k < |front| ==> front[k] == es[k];
      EveryRunHistoricIff(s, front);
      EveryRunSound(s, front);
      if Historic(Run(s, front)) {
        StepHistoricIff(Run(s, front), es[|es| - 1]);
      }
    }
  }

  // A lifetime of attempts that wraps while the successes do not leaves more past
  // successes than past attempts.
  lemma HistoryWraps(s: Stats)
    requires s == ZERO.(attempts := 1, attHist := TWO32 - 1, succHist := 5)
    ensures Sound(s) && Historic(s)
    ensures Sound(Recalculated(s)) && !Historic(Recalculated(s))
  {
    RecalculatedSound(s);
  }

  function Tried(es: seq<Event>): nat {
    if es == [] then 0
    else Tried(es[..|es| - 1]) + (if es[|es| - 1].Report? then es[|es| - 1].tries else 0)
  }

  function Acked(es: seq<Event>): nat {
    if es == [] then 0
    else Acked(es[..|es| - 1]) + (if es[|es| - 1].Report? then es[|es| - 1].acked else 0)
  }

  // Everything a cell has counted since it was last reset.
  function Counted(s: Stats): nat {
    s.attHist + s.attempts
  }

  function Succeeded(s: Stats): nat {
    s.succHist + s.success
  }

  // A counter grew by what was added to it: exactly while the sum fits 32 bits, and up
  // to whole wraps of the lifetime counter beyond that.
  predicate Grew(was: nat, now: nat, added: nat) {
    && (now - was - added) % TWO32 == 0
    && (was + added < TWO32 ==> now == was + added)
  }

  lemma GrewTwice(was: nat, mid: nat, now: nat, added: nat, more: nat)
    requires Grew(was, mid, added) && Grew(mid, now, more)
    ensures Grew(was, now, added + more)
  {
    assert now - was - (added + more) == (now - mid - more) + (mid - was - added);
  }

  lemma WrapGrew(x: nat, y: nat)
    ensures Grew(x + y, Wrap32(x + y), 0)
  {
  }

  lemma StepConserves(s: Stats, e: Event)
    requires Sound(s) && Honest(e) && Fits(s, e) && (e.Report? || e.Recalculate?)
    ensures Grew(Counted(s), Counted(Step(s, e)), Tried([e]))
    ensures Grew(Succeeded(s), Succeeded(Step(s, e)), Acked([e]))
  {
    hide Frac, Ewma, Ewmv, Grew, Wrap32, Measured;
    assert Tried([e]) == if e.Report? then e.tries else 0;
    assert Acked([e]) == if e.Report? then e.acked else 0;
    if e.Report? {
      ReportAdds(s, e);
      ExactlyGrows(Counted(s), e.tries);
      ExactlyGrows(Succeeded(s), e.acked);
    } else {
      MeasuredKeeps(s);
      ExactlyGrows(Counted(s), 0);
      ExactlyGrows(Succeeded(s), 0);
      WrapGrew(s.attHist, s.attempts);
      WrapGrew(s.succHist, s.success);
    }
  }

  lemma ExactlyGrows(was: nat, added: nat)
    ensures Grew(was, was + added, added)
  {
  }

  lemma MeasuredKeeps(s: Stats)
    ensures s.attempts > 0 ==>
              Measured(s).(probEwma := s.probEwma, probEwmv := s.probEwmv) == s
  {
    hide Frac, Ewma, Ewmv;
  }

  lemma LastEvent(s: Stats, es: seq<Event>)
    requires es != []
    ensures var before, e := es[..|es| - 1], es[|es| - 1];
            && Run(s, es) == Step(Run(s, before), e)
            && Tried(es) == Tried(before) + Tried([e]) && Acked(es) == Acked(before) + Acked([e])
  {
    hide Step;
    var e := es[|es| - 1];
    assert [e][..0] == [] && [e][|[e]| - 1] == e;
    assert Tried([e]) == Tried([]) + (if e.Report? then e.tries else 0);
    assert Acked([e]) == Acked([]) + (if e.Report? then e.acked else 0);
  }

  // Over any run without resets, what a cell has counted grows by exactly what was
  // reported for it: nothing is lost or counted twice by moving counts to the history,
  // and when the lifetime counters wrap, whole wraps are all that is lost.
  lemma {:induction false} EveryRunConserves(s: Stats, es: seq<Event>)
    requires Sound(s) && RunFits(s, es)
    requires forall e :: e in es ==> Honest(e) && (e.Report? || e.Recalculate?)
    ensures Grew(Counted(s), Counted(Run(s, es)), Tried(es))
    ensures Grew(Succeeded(s), Succeeded(Run(s, es)), Acked(es))
    decreases |es|
  {
    if es != [] {
      hide Step, Fits, Sound, Grew, Counted, Succeeded, Honest;
      var before, e := es[..|es| - 1], es[|es| - 1];
      EveryRunConserves(s, before);
      EveryRunSound(s, before);
      var mid, last := Run(s, before), Run(s, es);
      LastEvent(s, es);
      StepConserves(mid, e);
      GrewTwice(Counted(s), Counted(mid), Counted(last), Tried(before), Tried([e]));
      GrewTwice(Succeeded(s), Succeeded(mid), Succeeded(last), Acked(before), Acked([e]));
    }
  }

  // Reports alone change nothing but the two interval counters.
  lemma {:induction false} ReportsOnlyCount(s: Stats, es: seq<Event>)
    requires forall e :: e in es ==> e.Report?
    ensures Run(s, es) == s.(attempts := Run(s, es).attempts, success := Run(s, es).success)
    decreases |es|
  {
    if es != [] {
      ReportsOnlyCount(s, es[..|es| - 1]);
    }
  }

  lemma ReportAdds(s: Stats, e: Event)
    requires Sound(s) && e.Report? && Honest(e) && s.attempts + e.tries < TWO32
    ensures Sound(Step(s, e)) && Fits(s, e)
    ensures Step(s, e).attempts == s.attempts + e.tries && Step(s, e).success == s.success + e.acked
  {
  }

  // A few small honest reports fit into a cell that has room for them.
  lemma {:induction false} SmallReportsFit(s: Stats, es: seq<Event>)
    requires Sound(s) && s.attempts + 65025 * |es| < TWO32
    requires forall e :: e in es ==> e.Report? && Honest(e) && e.tries <= 65025
    ensures RunFits(s, es) && Sound(Run(s, es))
    ensures Run(s, es).attempts == s.attempts + Tried(es) <= s.attempts + 65025 * |es|
    ensures Run(s, es).success == s.success + Acked(es)
    decreases |es|
  {
    hide Sound, Step;
    if es != [] {
      var before, e := es[..|es| - 1], es[|es| - 1];
      SmallReportsFit(s, before);
      ReportAdds(Run(s, before), e);
    }
  }

  // ----- Convergence of the stored probability -----

  // One interval: what was tried and acknowledged in it, then a recomputation.
  datatype Interval = Interval(tries: nat, acked: nat)

  function AfterInterval(s: Stats, v: Interval): Stats {
    Recalculated(Reported(s, v.tries, v.acked))
  }

  function AfterIntervals(s: Stats, vs: seq<Interval>): Stats
    decreases |vs|
  {
    if vs == [] then s else AfterInterval(AfterIntervals(s, vs[..|vs| - 1]), vs[|vs| - 1])
  }

  // The intervals in which the rate was used.
  function Active(vs: seq<Interval>): nat
    decreases |vs|
  {
    if vs == [] then 0 else Active(vs[..|vs| - 1]) + if vs[|vs| - 1].tries > 0 then 1 else 0
  }

  // An interval is idle, or measures the ratio.
  predicate Measures(v: Interval, ratio: nat) {
    v.acked <= v.tries < TWO32 && (v.tries > 0 ==> Frac(v.acked, v.tries) == ratio)
  }

  // Between intervals.
  predicate Resting(s: Stats) {
    Sound(s) && s.attempts == s.success == 0
  }

  lemma IntervalStep(s: Stats, v: Interval, ratio: nat)
    requires Resting(s) && Measures(v, ratio)
    ensures var t := AfterInterval(s, v);
            && Resting(t)
            && t.probEwma ==
               if v.tries == 0 then s.probEwma else if s.attHist == 0 then ratio else Ewma(s.probEwma, ratio)
  {
    hide Frac, Ewma, Ewmv, Measured;
    RecalculatedSound(Reported(s, v.tries, v.acked));
  }

  // Intervals that all measure the same ratio, however often the rate was tried in
  // each and with idle ones in between, leave the average where as many averaging steps
  // lead, or at the ratio itself once the cell's lifetime counter stood at zero.
  lemma {:induction false} IntervalsSettle(s: Stats, vs: seq<Interval>, ratio: nat)
    requires Resting(s) && ratio <= SCALE
    requires forall v :: v in vs ==> Measures(v, ratio)
    ensures Resting(AfterIntervals(s, vs))
    ensures AfterIntervals(s, vs).probEwma in {ratio, Settle(s.probEwma, ratio, Active(vs))}
    decreases |vs|
  {
    hide Ewma, AfterInterval, Resting, Measures;
    if vs != [] {
      var before := AfterIntervals(s, vs[..|vs| - 1]);
      IntervalsSettle(s, vs[..|vs| - 1], ratio);
      IntervalStep(before, vs[|vs| - 1], ratio);
      EwmaMoves(ratio, ratio);
    }
  }

  // However the same ratio comes about, after 27 intervals with attempts the stored
  // probability is within 3/4096 of it, and a further interval either leaves it alone
  // or makes it the ratio exactly.
  lemma SteadyRatioIsLearned(s: Stats, vs: seq<Interval>, next: Interval, ratio: nat)
    requires Resting(s) && ratio <= SCALE && Active(vs) >= 27
    requires forall v :: v in vs ==> Measures(v, ratio)
    requires Measures(next, ratio)
    ensures var t := AfterIntervals(s, vs);
            && Abs(t.probEwma - ratio) <= 3
            && AfterInterval(t, next).probEwma in {ratio, t.probEwma}
  {
    hide Frac, Settle, AfterInterval, Ewma;
    var t := AfterIntervals(s, vs);
    IntervalsSettle(s, vs, ratio);
    SettlesIn27(s.probEwma, ratio, Active(vs));
    IntervalStep(t, next, ratio);
    EwmaMoves(t.probEwma, ratio);
  }
}
