/** The sampling budget of a legacy station, over every run of rate requests, transmit
    statuses and recomputations. */
module LegacySampling {
  import opened SampleCursor

  const LOOKAROUND: nat := 10
  const LIMIT: nat := 100

  // The sampling fields of struct minstrel_sta_info, with the rates' sample limits
  // (-1 for none) and the current fastest rate.
  datatype Sampling = Sampling(
    total: nat, packets: nat, deferred: nat, prev: bool,
    cur: Cursor, limits: seq<int>, top: nat)

  // The station's sampling table, its number of rates and their frame times.
  datatype Plan = Plan(table: seq<seq<nat>>, n: nat, times: seq<nat>)

  ghost predicate Fit(s: Sampling, p: Plan) {
    && Fair(p.table, p.n) && |p.times| == p.n
    && On(s.cur, |p.table|, p.n)
    && |s.limits| == p.n && s.top < p.n
    && forall i :: 0 <= i < p.n ==> -1 <= s.limits[i] <= LIMIT
  }

  // No sample, a sample in the first slot of the retry chain, or one in the second.
  datatype Outcome = None | Direct(ndx: nat) | Deferred(ndx: nat)

  // How far sampling is behind its share of the packets.
  function Delta(s: Sampling): int {
    s.total * LOOKAROUND / 100 - (s.packets + s.deferred / 2)
  }

  predicate Skips(s: Sampling) {
    Delta(s.(total := s.total + 1)) < 0 || s.prev
  }

  predicate Resets(s: Sampling) {
    !Skips(s) && s.total + 1 >= 10_000
  }

  // The counters once a request has decided to sample.
  function Charged(s: Sampling, n: nat): Sampling
    requires !Skips(s)
  {
    var t := s.(total := s.total + 1, prev := false);
    if t.total >= 10_000 then t.(total := 0, packets := 0, deferred := 0)
    else if Delta(t) > 2 * n then t.(packets := t.packets + (Delta(t) - 2 * n))
    else t
  }

  lemma ValueOn(p: Plan, cur: Cursor)
    requires Fair(p.table, p.n) && On(cur, |p.table|, p.n)
    ensures At(p.table, p.n, cur) < p.n
  {
  }

  // minstrel_get_rate.
  ghost function Ask(s: Sampling, p: Plan): (r: (Sampling, Outcome))
    requires Fit(s, p)
    ensures Fit(r.0, p)
  {
    if Skips(s) then (s.(total := s.total + 1, prev := false), None)
    else
      ValueOn(p, s.cur);
      var ndx := At(p.table, p.n, s.cur);
      var t := Charged(s, p.n).(cur := Advance(s.cur, |p.table|, p.n));
      if p.times[ndx] > p.times[s.top] then (t.(deferred := t.deferred + 1, prev := true), Deferred(ndx))
      else if s.limits[ndx] == 0 then (t, None)
      else
        (t.(packets := t.packets + 1, prev := true,
            limits := if s.limits[ndx] > 0 then s.limits[ndx := s.limits[ndx] - 1] else s.limits),
         Direct(ndx))
  }

  // A request in full. It samples when at least as many samples are due, a tenth of the
  // packets, as were taken, and the request before did not sample. Rate n at the cursor
  // goes to the second slot if its frames are longer than those of the fastest rate, and
  // otherwise to the first unless its limit is used up.
  lemma AskIs(s: Sampling, p: Plan)
    requires Fit(s, p)
    ensures var (t, o), n := Ask(s, p), At(p.table, p.n, s.cur);
            var owed: int := 10 * (s.total + 1) / 100 - (s.packets + s.deferred / 2);
            var samples := owed >= 0 && !s.prev;
            var resets := samples && s.total >= 9999;
            && n < p.n
            && (o == Deferred(n) <==> samples && p.times[n] > p.times[s.top])
            && (o == Direct(n) <==> samples && p.times[n] <= p.times[s.top] && s.limits[n] != 0)
            && (o == Deferred(n) || o == Direct(n) || o == None)
            && t.total == (if resets then 0 else s.total + 1)
            && t.packets == (if o.Direct? then 1 else 0) +
               (if resets then 0 else if samples && owed > 2 * p.n then s.packets + (owed - 2 * p.n) else s.packets)
            && t.deferred == (if resets then 0 else s.deferred) + (if o.Deferred? then 1 else 0)
            && t.prev == !o.None? && t.top == s.top
            && t.cur == (if samples then Advance(s.cur, |p.table|, p.n) else s.cur)
            && |t.limits| == p.n
            && forall i :: 0 <= i < p.n ==>
                             t.limits[i] == if o == Direct(i) && s.limits[i] > 0 then s.limits[i] - 1 else s.limits[i]
  {
    hide Fair, Advance, At;
    ValueOn(p, s.cur);
  }

  // However far sampling had fallen behind, a request that samples leaves at most two
  // samples per rate owed.
  lemma BacklogCapped(s: Sampling, p: Plan)
    requires Fit(s, p) && !Ask(s, p).1.None?
    ensures var t := Ask(s, p).0;
            (10 * t.total / 100) as int - (t.packets + t.deferred / 2) <= 2 * p.n
  {
    AskIs(s, p);
    hide Ask, Fair, Advance, At;
  }

  // The sampling part of minstrel_tx_status; probe says that the frame was a probe.
  function Reported(s: Sampling, probe: bool): Sampling {
    s.(packets := if probe then s.packets + 1 else s.packets,
       deferred := if s.deferred > 0 then s.deferred - 1 else 0)
  }

  // ----- Runs -----

  datatype Event =
    | Request
    | Status(probe: bool)
    | Recompute(limits: seq<int>, top: nat)

  // A recomputation sets the limit of each rate to 100 or lifts it.
  predicate Proper(e: Event, n: nat) {
    e.Recompute? ==>
      && |e.limits| == n && e.top < n
      && forall i :: 0 <= i < n ==> e.limits[i] == -1 || e.limits[i] == LIMIT
  }

  // The state with what has happened since the counters were last reset and, rate by
  // rate, since the last recomputation.
  datatype Tally = Tally(s: Sampling, direct: nat, perRate: seq<nat>)

  ghost function Next(t: Tally, p: Plan, e: Event): (r: Tally)
    requires Fit(t.s, p) && |t.perRate| == p.n && Proper(e, p.n)
    ensures Fit(r.s, p) && |r.perRate| == p.n
  {
    match e
    case Request =>
      var (s, o) := Ask(t.s, p);
      var before := if Resets(t.s) then 0 else t.direct;
      if o.Direct? then (
        ValueOn(p, t.s.cur);
        Tally(s, before + 1, t.perRate[o.ndx := t.perRate[o.ndx] + 1]))
      else Tally(s, before, t.perRate)
    case Status(probe) => t.(s := Reported(t.s, probe))
    case Recompute(limits, top) => Tally(t.s.(limits := limits, top := top), t.direct, seq(p.n, i => 0))
  }

  ghost function Run(t: Tally, p: Plan, es: seq<Event>): (r: Tally)
    requires Fit(t.s, p) && |t.perRate| == p.n
    requires forall e :: e in es ==> Proper(e, p.n)
    ensures Fit(r.s, p) && |r.perRate| == p.n
    decreases |es|
  {
    if es == [] then t else Next(Run(t, p, es[..|es| - 1]), p, es[|es| - 1])
  }

  // What holds of a tally in every reachable state: direct samples stay within their
  // share of the packets, and each limited rate within its limit.
  predicate WithinBudget(t: Tally) {
    && t.direct <= t.s.packets
    && t.direct <= t.s.total * LOOKAROUND / 100 + 1
    && |t.perRate| == |t.s.limits|
    && forall i :: 0 <= i < |t.perRate| ==> t.s.limits[i] == -1 || t.perRate[i] + t.s.limits[i] == LIMIT
  }

  lemma NextWithinBudget(t: Tally, p: Plan, e: Event)
    requires Fit(t.s, p) && |t.perRate| == p.n && Proper(e, p.n) && WithinBudget(t)
    ensures WithinBudget(Next(t, p, e))
  {
    hide Fair, At, Advance, On;
  }

  // Over every run from a fresh start: between counter resets the first-slot samples
  // number at most a tenth of the packets and one, and between recomputations a limited
  // rate is sampled in the first slot at most 100 times.
  lemma {:induction false} EveryRunWithinBudget(t: Tally, p: Plan, es: seq<Event>)
    requires Fit(t.s, p) && WithinBudget(t) && |t.perRate| == p.n
    requires forall e :: e in es ==> Proper(e, p.n)
    ensures WithinBudget(Run(t, p, es))
    ensures var r := Run(t, p, es);
            && r.direct <= r.s.total / 10 + 1
            && forall i :: 0 <= i < p.n && r.s.limits[i] != -1 ==> r.perRate[i] <= LIMIT
    decreases |es|
  {
    hide Fair, Next, On;
    if es != [] {
      EveryRunWithinBudget(t, p, es[..|es| - 1]);
      NextWithinBudget(Run(t, p, es[..|es| - 1]), p, es[|es| - 1]);
    }
  }

  // The decisions that the requests of a run come to, in order.
  ghost function Outcomes(t: Tally, p: Plan, es: seq<Event>): (r: seq<(Sampling, Outcome)>)
    requires Fit(t.s, p) && |t.perRate| == p.n
    requires forall e :: e in es ==> Proper(e, p.n)
    decreases |es|
  {
    if es == [] then []
    else
      var front := es[..|es| - 1];
      var s := Run(t, p, front).s;
      Outcomes(t, p, front) + if es[|es| - 1].Request? then [(s, Ask(s, p).1)] else []
  }

  // Over every run a sample in the first slot never takes longer than the fastest rate of
  // the moment, and one in the second slot always does.
  lemma {:induction false} EveryRunSlots(t: Tally, p: Plan, es: seq<Event>, j: nat)
    requires Fit(t.s, p) && |t.perRate| == p.n
    requires forall e :: e in es ==> Proper(e, p.n)
    requires j < |Outcomes(t, p, es)|
    ensures var (s, o) := Outcomes(t, p, es)[j];
            && s.top < p.n == |p.times|
            && (o.Direct? ==> o.ndx < p.n && p.times[o.ndx] <= p.times[s.top])
            && (o.Deferred? ==> o.ndx < p.n && p.times[o.ndx] > p.times[s.top])
    decreases |es|
  {
    hide Fair, Next, Ask, Advance, At;
    var front := es[..|es| - 1];
    if j < |Outcomes(t, p, front)| {
      EveryRunSlots(t, p, front, j);
    } else {
      AskIs(Run(t, p, front).s, p);
    }
  }

  // After a request that sampled, the next request does not, whatever happens in
  // between.
  lemma {:induction false} NeverTwiceInARow(t: Tally, p: Plan, es: seq<Event>)
    requires Fit(t.s, p) && |t.perRate| == p.n && !Ask(t.s, p).1.None?
    requires forall e :: e in es ==> Proper(e, p.n) && !e.Request?
    ensures var u := Run(Next(t, p, Request), p, es);
            u.s.prev && Ask(u.s, p).1 == None && !Ask(u.s, p).0.prev
    decreases |es|
  {
    hide Fair, On, At, Advance, Charged;
    if es != [] {
      NeverTwiceInARow(t, p, es[..|es| - 1]);
    }
  }

  // ----- The counters cannot wrap -----

  // The driver's statuses never carry the probe flag. The samples then stay within
  // one of their share, so a reset is never overdue.
  predicate Bounded(s: Sampling) {
    && s.packets + s.deferred / 2 <= s.total / 10 + 1
    && s.total <= 10_000
    && (s.total == 10_000 ==> !s.prev && s.packets + s.deferred / 2 <= 1000)
  }

  lemma NextBounded(t: Tally, p: Plan, e: Event)
    requires Fit(t.s, p) && |t.perRate| == p.n && Proper(e, p.n) && Bounded(t.s)
    requires e.Status? ==> !e.probe
    ensures Bounded(Next(t, p, e).s)
  {
    hide Fair, At, Advance, On;
  }

  // Over every run of driver-made statuses the packet counter never exceeds 10000, so
  // no 32-bit counter of the sampling budget ever wraps.
  lemma {:induction false} EveryRunBounded(t: Tally, p: Plan, es: seq<Event>)
    requires Fit(t.s, p) && |t.perRate| == p.n && Bounded(t.s)
    requires forall e :: e in es ==> Proper(e, p.n) && (e.Status? ==> !e.probe)
    ensures Bounded(Run(t, p, es).s)
    ensures var s := Run(t, p, es).s; s.total <= 10_000 && s.packets <= 1001 && s.deferred <= 2003
    decreases |es|
  {
    hide Fair, Next, On;
    if es != [] {
      EveryRunBounded(t, p, es[..|es| - 1]);
      NextBounded(Run(t, p, es[..|es| - 1]), p, es[|es| - 1]);
    }
  }
}
