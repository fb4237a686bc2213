/** How many samples an HT station may take, and which rate a sample tries. */
module HtSampling {
  import opened HtSampler
  import opened HtSeek
  import opened HtRates

  // ----- The budget -----

  // Requests to skip, samples left in the current batch, and batches left.
  datatype Budget = Budget(wait: nat, tries: nat, count: nat)

  // A request for a rate; hit says whether it found a rate worth sampling.
  datatype Event = Ask(hit: bool) | Status

  const BATCH: nat := 2
  const PAUSE: nat := 10

  predicate Issues(b: Budget, hit: bool) {
    b.wait == 0 && b.tries > 0 && hit
  }

  function Asked(b: Budget, hit: bool): Budget {
    if b.wait > 0 then b.(wait := b.wait - 1)
    else if Issues(b, hit) then b.(tries := b.tries - 1)
    else b
  }

  function Refilled(b: Budget): Budget {
    if b.wait == 0 && b.tries == 0 && b.count > 0 then Budget(PAUSE, BATCH, b.count - 1) else b
  }

  function After(b: Budget, es: seq<Event>): Budget
    decreases |es|
  {
    if es == [] then b
    else
      var t := After(b, es[..|es| - 1]);
      match es[|es| - 1]
      case Ask(hit) => Asked(t, hit)
      case Status => Refilled(t)
  }

  function Issued(b: Budget, es: seq<Event>): nat
    decreases |es|
  {
    if es == [] then 0
    else
      var t := After(b, es[..|es| - 1]);
      Issued(b, es[..|es| - 1]) + if es[|es| - 1].Ask? && Issues(t, es[|es| - 1].hit) then 1 else 0
  }

  function Requests(es: seq<Event>): nat
    decreases |es|
  {
    if es == [] then 0 else Requests(es[..|es| - 1]) + if es[|es| - 1].Ask? then 1 else 0
  }

  // Between recomputations every sample is paid for: what was issued, what is left of
  // the batch and what the remaining batches hold add up to the same total.
  lemma {:induction false} SamplesArePaidFor(b: Budget, es: seq<Event>)
    ensures var t := After(b, es);
            Issued(b, es) + t.tries + BATCH * t.count == b.tries + BATCH * b.count
    decreases |es|
  {
    if es != [] {
      SamplesArePaidFor(b, es[..|es| - 1]);
    }
  }

  // After a recomputation found the given number of groups with rates, an interval
  // issues at most the samples left over and twenty more for each of them.
  lemma IntervalBound(b: Budget, es: seq<Event>, groups: nat)
    requires b.count == 10 * groups
    ensures Issued(b, es) <= b.tries + 20 * groups
  {
    SamplesArePaidFor(b, es);
  }

  // While w requests are to be skipped, no run with at most w requests samples,
  // whatever statuses arrive in between.
  lemma {:induction false} PauseHolds(b: Budget, es: seq<Event>)
    requires Requests(es) <= b.wait
    ensures Issued(b, es) == 0
    ensures Requests(es) < b.wait ==> After(b, es) == b.(wait := b.wait - Requests(es))
    decreases |es|
  {
    if es != [] {
      var front := es[..|es| - 1];
      PauseHolds(b, front);
    }
  }

  // So every refill is followed by ten requests that do not sample, and after the tenth
  // the two samples of the batch can be issued.
  lemma RefillPauses(b: Budget, es: seq<Event>)
    requires b.wait == 0 && b.tries == 0 && b.count > 0 && Requests(es) <= 10
    ensures Issued(Refilled(b), es) == 0
    ensures After(Refilled(b), es).tries == 2 && After(Refilled(b), es).wait == 10 - Requests(es)
  {
    PauseHolds(Refilled(b), es);
    PauseCounts(Refilled(b), es);
  }

  lemma {:induction false} PauseCounts(b: Budget, es: seq<Event>)
    requires Requests(es) <= b.wait && b.tries > 0
    ensures After(b, es) == b.(wait := b.wait - Requests(es))
    decreases |es|
  {
    if es != [] {
      PauseCounts(b, es[..|es| - 1]);
    }
  }

  // ----- The choice -----

  // The rate that one look at the table, or the search that follows it when the
  // current best rate struggles, comes up with.
  ghost function Choose(s: Sampler, c: Config, supported: seq<seq<bool>>, limit: nat, struggling: bool): (r: Found)
    requires Ready(s, c) && Masks(supported, c)
    ensures Ready(r.next, c) && r.group < |supported| && r.idx < c.n
  {
    ValueInRange(s, c);
    if Value(s, c) > limit && struggling then Seek(Next(s, c), c, supported, limit)
    else Found(Next(s, c), s.group, Value(s, c), true, 0)
  }

  // A rate more than one step above the current best is brought down to one or two
  // steps above it.
  function Clipped(best: nat, idx: nat): nat {
    if idx > best % MCS_GROUP_RATES + 1 then best % MCS_GROUP_RATES + best % 2 + 1 else idx
  }

  // However the draw comes out, a sample climbs at most two steps, and when the best
  // rate struggles a successful search does not climb at all.
  lemma ClimbsSlowly(s: Sampler, c: Config, supported: seq<seq<bool>>, best: nat, struggling: bool)
    requires Ready(s, c) && Masks(supported, c) && c.n == MCS_GROUP_RATES
    requires supported[s.group][Value(s, c)]
    ensures var limit := best % MCS_GROUP_RATES;
            var d := Choose(s, c, supported, limit, struggling);
            && Clipped(best, d.idx) < MCS_GROUP_RATES
            && Clipped(best, d.idx) <= limit + 1 + best % 2
            && (struggling && d.ok ==> Clipped(best, d.idx) == d.idx <= limit && supported[d.group][d.idx])
  {
    hide Seek, Next, Value;
    ValueInRange(s, c);
    if Value(s, c) > best % MCS_GROUP_RATES && struggling {
      SeekEnds(Next(s, c), c, supported, best % MCS_GROUP_RATES);
    }
  }
}
