/** Which rate an HT station samples next: the groups with any supported rate take
    turns, and each group walks the sampling table with its own cursor. */
module HtSampler {
  import opened SampleTable
  import opened SampleCursor

  datatype Sampler = Sampler(group: nat, cursors: seq<Cursor>)

  // The part of a station's configuration that sampling depends on: flags[g] says
  // whether group g has a supported rate; the table has columns of n rates each.
  datatype Config = Config(flags: seq<bool>, table: seq<seq<nat>>, n: nat)

  ghost predicate Ready(s: Sampler, c: Config) {
    && Fair(c.table, c.n)
    && true in c.flags
    && |s.cursors| == |c.flags|
    && s.group < |c.flags|
    && forall g :: 0 <= g < |s.cursors| ==> On(s.cursors[g], |c.table|, c.n)
  }

  function NextGroup(g: nat, groups: nat): nat {
    if g + 1 < groups then g + 1 else 0
  }

  // One turn of the search loop: the next group, its cursor moved on if it has rates.
  ghost function Tick(s: Sampler, c: Config): (r: Sampler)
    requires Ready(s, c)
    ensures Ready(r, c)
  {
    var h := NextGroup(s.group, |c.flags|);
    Sampler(h, if c.flags[h] then s.cursors[h := Advance(s.cursors[h], |c.table|, c.n)] else s.cursors)
  }

  ghost function SomeFlag(c: Config): (t: nat)
    requires true in c.flags
    ensures t < |c.flags| && c.flags[t]
  {
    var t: nat :| t < |c.flags| && c.flags[t];
    t
  }

  // The rest of the search: it ends because some group ahead has rates.
  ghost function Rest(s: Sampler, c: Config): (r: Sampler)
    requires Ready(s, c)
    ensures Ready(r, c) && c.flags[r.group]
    decreases Around(s.group, SomeFlag(c), |c.flags|)
  {
    if c.flags[s.group] then s else Rest(Tick(s, c), c)
  }

  // minstrel_set_next_sample_idx.
  ghost function Next(s: Sampler, c: Config): (r: Sampler)
    requires Ready(s, c)
    ensures Ready(r, c) && c.flags[r.group]
  {
    Rest(Tick(s, c), c)
  }

  // Only the cursor of the group that comes next moves, and by one place.
  lemma NextShape(s: Sampler, c: Config)
    requires Ready(s, c)
    ensures var h := Next(s, c).group;
            Next(s, c) == Sampler(h, s.cursors[h := Advance(s.cursors[h], |c.table|, c.n)])
  {
    RestShape(Tick(s, c), c);
  }

  lemma {:induction false} RestShape(s: Sampler, c: Config)
    requires Ready(s, c)
    ensures c.flags[s.group] ==> Rest(s, c) == s
    ensures !c.flags[s.group] ==>
              var h := Rest(s, c).group;
              Rest(s, c) == Sampler(h, s.cursors[h := Advance(s.cursors[h], |c.table|, c.n)])
    decreases Around(s.group, SomeFlag(c), |c.flags|)
  {
    if !c.flags[s.group] {
      RestShape(Tick(s, c), c);
    }
  }

  // One more tick either ends the search or leaves it one group closer to its end.
  lemma NextByTick(s: Sampler, c: Config)
    requires Ready(s, c)
    ensures var t := Tick(s, c);
            if c.flags[t.group] then Next(s, c) == t
            else
              && Next(s, c) == Next(t, c)
              && Around(NextGroup(t.group, |c.flags|), SomeFlag(c), |c.flags|)
                 < Around(NextGroup(s.group, |c.flags|), SomeFlag(c), |c.flags|)
  {
  }

  ghost function Value(s: Sampler, c: Config): nat
    requires Ready(s, c)
  {
    At(c.table, c.n, s.cursors[s.group])
  }

  ghost function AfterVisits(s: Sampler, c: Config, k: nat): (r: Sampler)
    requires Ready(s, c)
    ensures Ready(r, c)
    decreases k
  {
    if k == 0 then s else Next(AfterVisits(s, c, k - 1), c)
  }

  // What group g draws during the next k visits.
  ghost function DrawnBy(s: Sampler, c: Config, g: nat, k: nat): seq<nat>
    requires Ready(s, c)
    decreases k
  {
    if k == 0 then [] else
      var t := AfterVisits(s, c, k);
      DrawnBy(s, c, g, k - 1) + (if t.group == g then [Value(t, c)] else [])
  }

  // ----- One round: as many visits as there are groups with rates -----

  // The flags in the order in which the search meets them from group g on.
  ghost function Ahead(flags: seq<bool>, g: nat): (r: seq<bool>)
    requires g < |flags|
    ensures |r| == |flags|
    ensures multiset(r) == multiset(flags)
  {
    assert flags == flags[..g + 1] + flags[g + 1..];
    flags[g + 1..] + flags[..g + 1]
  }

  // The number of visits made during the first t ticks.
  ghost function VisitsIn(flags: seq<bool>, g: nat, t: nat): nat
    requires g < |flags| && t <= |flags|
  {
    multiset(Ahead(flags, g)[..t])[true]
  }

  function Shift(g: nat, t: nat, groups: nat): (r: nat)
    requires g < groups && t <= groups
    ensures r < groups
  {
    if g + t < groups then g + t else g + t - groups
  }

  // The number of ticks after which group h is met, between 1 and the group count.
  function MetAt(g: nat, h: nat, groups: nat): (t: nat)
    requires g < groups && h < groups
    ensures 1 <= t <= groups && Shift(g, t, groups) == h
  {
    if h > g then h - g else h + groups - g
  }

  ghost function Moved(s: Sampler, c: Config, h: nat): Cursor
    requires Ready(s, c) && h < |c.flags|
  {
    Advance(s.cursors[h], |c.table|, c.n)
  }

  // The state after t ticks in closed form: the groups met so far have moved on.
  ghost function Spun(s: Sampler, c: Config, t: nat): (r: Sampler)
    requires Ready(s, c) && t <= |c.flags|
    ensures Ready(r, c)
  {
    var groups := |c.flags|;
    Sampler(Shift(s.group, t, groups),
            seq(groups, h requires 0 <= h < groups =>
              if c.flags[h] && MetAt(s.group, h, groups) <= t then Moved(s, c, h) else s.cursors[h]))
  }

  lemma SpunTick(s: Sampler, c: Config, t: nat)
    requires Ready(s, c) && t < |c.flags|
    ensures Tick(Spun(s, c, t), c) == Spun(s, c, t + 1)
    ensures Spun(s, c, 0) == s
    ensures c.flags[Spun(s, c, t + 1).group] ==>
              Value(Spun(s, c, t + 1), c) == At(c.table, c.n, Moved(s, c, Spun(s, c, t + 1).group))
  {
    assert Tick(Spun(s, c, t), c).cursors == Spun(s, c, t + 1).cursors;
    assert Spun(s, c, 0).cursors == s.cursors;
  }

  lemma SpunGroup(s: Sampler, c: Config, t: nat)
    requires Ready(s, c) && t <= |c.flags|
    ensures Spun(s, c, t).group == Shift(s.group, t, |c.flags|)
    ensures t > 0 ==> MetAt(s.group, Spun(s, c, t).group, |c.flags|) == t
  {
  }

  lemma VisitsStep(flags: seq<bool>, g: nat, t: nat)
    requires g < |flags| && t < |flags|
    ensures VisitsIn(flags, g, 0) == 0
    ensures VisitsIn(flags, g, t + 1) ==
            VisitsIn(flags, g, t) + if flags[Shift(g, t + 1, |flags|)] then 1 else 0
  {
    var a := Ahead(flags, g);
    assert a[..t + 1] == a[..t] + [a[t]];
    assert a[t] == flags[Shift(g, t + 1, |flags|)];
  }

  // What group h has drawn after t ticks: one value if it was met, else nothing.
  ghost function MetDraw(s: Sampler, c: Config, h: nat, t: nat): seq<nat>
    requires Ready(s, c) && h < |c.flags|
  {
    if c.flags[h] && MetAt(s.group, h, |c.flags|) <= t then [At(c.table, c.n, Moved(s, c, h))] else []
  }

  // Ticks and visits keep pace.
  lemma {:induction false} TicksMakeVisits(s: Sampler, c: Config, t: nat)
    requires Ready(s, c) && c.flags[s.group] && t <= |c.flags|
    ensures var k := VisitsIn(c.flags, s.group, t);
            && (c.flags[Spun(s, c, t).group] ==> AfterVisits(s, c, k) == Spun(s, c, t))
            && Next(AfterVisits(s, c, k), c) == Rest(Tick(Spun(s, c, t), c), c)
    decreases t
  {
    hide Spun, VisitsIn, Tick, Fair;
    SpunTick(s, c, 0);
    VisitsStep(c.flags, s.group, 0);
    if t > 0 {
      TicksMakeVisits(s, c, t - 1);
      SpunTick(s, c, t - 1);
      SpunGroup(s, c, t);
      VisitsStep(c.flags, s.group, t - 1);
    }
  }

  // What tick t adds to the draws of group h.
  ghost function TickDraw(s: Sampler, c: Config, h: nat, t: nat): seq<nat>
    requires Ready(s, c) && h < |c.flags| && t <= |c.flags|
  {
    if Shift(s.group, t, |c.flags|) == h && c.flags[h] then [At(c.table, c.n, Moved(s, c, h))] else []
  }

  lemma TickDraws(s: Sampler, c: Config, h: nat, t: nat)
    requires Ready(s, c) && c.flags[s.group] && h < |c.flags| && 0 < t <= |c.flags|
    ensures DrawnBy(s, c, h, VisitsIn(c.flags, s.group, t)) ==
            DrawnBy(s, c, h, VisitsIn(c.flags, s.group, t - 1)) + TickDraw(s, c, h, t)
  {
    hide Spun, VisitsIn, Tick, Value, Moved, Fair, AfterVisits, Next, Rest, At;
    TicksMakeVisits(s, c, t);
    SpunTick(s, c, t - 1);
    SpunGroup(s, c, t);
    VisitsStep(c.flags, s.group, t - 1);
  }

  lemma MetStep(s: Sampler, c: Config, h: nat, t: nat)
    requires Ready(s, c) && h < |c.flags| && 0 < t <= |c.flags|
    ensures MetDraw(s, c, h, t) == MetDraw(s, c, h, t - 1) + TickDraw(s, c, h, t)
  {
    hide Moved, Fair, At;
  }

  lemma NothingMet(s: Sampler, c: Config, h: nat)
    requires Ready(s, c) && h < |c.flags|
    ensures DrawnBy(s, c, h, VisitsIn(c.flags, s.group, 0)) == MetDraw(s, c, h, 0)
  {
    hide Moved, Fair, At;
    VisitsStep(c.flags, s.group, 0);
  }

  // Each visit draws for the group that was just met.
  lemma {:induction false} TicksMakeDraws(s: Sampler, c: Config, h: nat, t: nat)
    requires Ready(s, c) && c.flags[s.group] && h < |c.flags| && t <= |c.flags|
    ensures DrawnBy(s, c, h, VisitsIn(c.flags, s.group, t)) == MetDraw(s, c, h, t)
    decreases t
  {
    hide *;
    if t == 0 {
      NothingMet(s, c, h);
    } else {
      TicksMakeDraws(s, c, h, t - 1);
      TickDraws(s, c, h, t);
      MetStep(s, c, h, t);
    }
  }

  // ----- Where a round starts -----

  function PreviousGroup(g: nat, groups: nat): (r: nat)
    requires g < groups
    ensures r < groups && NextGroup(r, groups) == g
  {
    if g > 0 then g - 1 else groups - 1
  }

  // The nearest group with rates at or before the current one, with the cursors as they
  // are. A station may start in a group without rates.
  ghost function Origin(s: Sampler, c: Config): (r: Sampler)
    requires Ready(s, c)
    ensures Ready(r, c) && c.flags[r.group] && r.cursors == s.cursors
    ensures c.flags[s.group] ==> r == s
    decreases Around(SomeFlag(c), s.group, |c.flags|)
  {
    if c.flags[s.group] then s else Origin(s.(group := PreviousGroup(s.group, |c.flags|)), c)
  }

  // The search goes the same way from there.
  lemma {:induction false} OriginNext(s: Sampler, c: Config)
    requires Ready(s, c)
    ensures Next(Origin(s, c), c) == Next(s, c)
    decreases Around(SomeFlag(c), s.group, |c.flags|)
  {
    hide Fair;
    if !c.flags[s.group] {
      var p := s.(group := PreviousGroup(s.group, |c.flags|));
      assert Tick(p, c) == s;
      OriginNext(p, c);
    }
  }

  lemma {:induction false} OriginVisits(s: Sampler, c: Config, h: nat, k: nat)
    requires Ready(s, c)
    ensures k > 0 ==> AfterVisits(Origin(s, c), c, k) == AfterVisits(s, c, k)
    ensures DrawnBy(Origin(s, c), c, h, k) == DrawnBy(s, c, h, k)
    decreases k
  {
    hide Fair, Next, Value, Origin;
    if k == 1 {
      OriginNext(s, c);
      assert AfterVisits(s, c, 0) == s && AfterVisits(Origin(s, c), c, 0) == Origin(s, c);
    }
    if k > 0 {
      OriginVisits(s, c, h, k - 1);
    }
  }

  // From s to t group h was visited m times if it has rates and never otherwise, in
  // that time it drew drawn, and the turn is back where the round began.
  ghost predicate Visited(s: Sampler, c: Config, h: nat, m: nat, t: Sampler, drawn: seq<nat>)
    requires Ready(s, c) && h < |c.flags|
  {
    && Ready(t, c)
    && Origin(t, c).group == Origin(s, c).group
    && (m > 0 ==> t.group == Origin(s, c).group)
    && (c.flags[h] ==>
          && t.cursors[h] == After(s.cursors[h], |c.table|, c.n, m)
          && drawn == Draws(c.table, c.n, Moved(s, c, h), m))
    && (!c.flags[h] ==> t.cursors[h] == s.cursors[h] && drawn == [])
  }

  lemma RoundFromOrigin(s: Sampler, c: Config, h: nat)
    requires Ready(s, c) && c.flags[s.group] && h < |c.flags|
    ensures var k := multiset(c.flags)[true];
            Visited(s, c, h, 1, AfterVisits(s, c, k), DrawnBy(s, c, h, k))
  {
    TicksMakeVisits(s, c, |c.flags|);
    TicksMakeDraws(s, c, h, |c.flags|);
    assert Ahead(c.flags, s.group)[..|c.flags|] == Ahead(c.flags, s.group);
  }

  // In one round, from any state, every group with rates is visited exactly once, the
  // others never, and the turn ends where the round began, or at the group with rates
  // before it if it began at a group without.
  lemma OneRound(s: Sampler, c: Config, h: nat)
    requires Ready(s, c) && h < |c.flags|
    ensures var k := multiset(c.flags)[true];
            && k > 0 && AfterVisits(s, c, k).group == Origin(s, c).group
            && Visited(s, c, h, 1, AfterVisits(s, c, k), DrawnBy(s, c, h, k))
  {
    var k, o := multiset(c.flags)[true], Origin(s, c);
    assert true in c.flags && k > 0;
    hide Fair, AfterVisits, DrawnBy;
    RoundFromOrigin(o, c, h);
    OriginVisits(s, c, h, k);
  }

  lemma VisitedAgain(s: Sampler, c: Config, h: nat, t: Sampler, drawn: seq<nat>, m: nat, u: Sampler, more: seq<nat>)
    requires Ready(s, c) && h < |c.flags| && Ready(t, c)
    requires Visited(s, c, h, 1, t, drawn) && Visited(t, c, h, m, u, more)
    requires m == 0 ==> u == t
    ensures Visited(s, c, h, m + 1, u, drawn + more)
  {
    hide Fair;
  }

  lemma {:induction false} VisitsSplit(s: Sampler, c: Config, h: nat, j: nat, k: nat)
    requires Ready(s, c)
    ensures AfterVisits(s, c, j + k) == AfterVisits(AfterVisits(s, c, j), c, k)
    ensures DrawnBy(s, c, h, j + k) == DrawnBy(s, c, h, j) + DrawnBy(AfterVisits(s, c, j), c, h, k)
    decreases k
  {
    hide Next, Value, Ready;
    if k > 0 {
      VisitsSplit(s, c, h, j, k - 1);
    }
  }

  lemma NoRounds(s: Sampler, c: Config, h: nat)
    requires Ready(s, c) && h < |c.flags|
    ensures AfterVisits(s, c, 0) == s && Visited(s, c, h, 0, s, DrawnBy(s, c, h, 0))
  {
    hide Fair, Origin;
  }

  // m rounds visit every group with rates m times.
  lemma {:induction false} ManyRounds(s: Sampler, c: Config, h: nat, m: nat, turn: nat, k: nat)
    requires Ready(s, c) && h < |c.flags|
    requires turn == multiset(c.flags)[true] && k == Times(m, turn)
    ensures Visited(s, c, h, m, AfterVisits(s, c, k), DrawnBy(s, c, h, k))
    decreases m
  {
    hide AfterVisits, DrawnBy, Visited, Ready;
    if m == 0 {
      NoRounds(s, c, h);
    } else {
      OneRound(s, c, h);
      var t := AfterVisits(s, c, turn);
      VisitsSplit(s, c, h, turn, k - turn);
      ManyRounds(t, c, h, m - 1, turn, k - turn);
      if m == 1 {
        NoRounds(t, c, h);
      }
      VisitedAgain(s, c, h, t, DrawnBy(s, c, h, turn), m - 1,
                   AfterVisits(t, c, k - turn), DrawnBy(t, c, h, k - turn));
    }
  }

  lemma VisitedShows(s: Sampler, c: Config, h: nat, m: nat, t: Sampler, drawn: seq<nat>)
    requires Ready(s, c) && h < |c.flags| && m > 0 && Visited(s, c, h, m, t, drawn)
    ensures Ready(t, c) && t.group == Origin(s, c).group && |t.cursors| == |s.cursors|
    ensures c.flags[h] ==> t.cursors[h] == After(s.cursors[h], |c.table|, c.n, m)
    ensures c.flags[h] ==> drawn == Draws(c.table, c.n, Moved(s, c, h), m)
    ensures !c.flags[h] ==> t.cursors[h] == s.cursors[h] && drawn == []
  {
    hide Fair;
  }

  // Over as many rounds as the table has entries, from any state, every group with rates
  // draws each of the n rates exactly once per column, the others draw nothing, and every
  // cursor is back where it started; so is the turn, if it started at a group with rates.
  lemma EveryRateEquallyOften(s: Sampler, c: Config, h: nat, x: nat)
    requires Ready(s, c) && h < |c.flags| && x < c.n
    ensures var k := Times(|c.table| * c.n, multiset(c.flags)[true]);
            && AfterVisits(s, c, k) == Origin(s, c)
            && multiset(DrawnBy(s, c, h, k))[x] == if c.flags[h] then |c.table| else 0
  {
    var m, turn := |c.table| * c.n, multiset(c.flags)[true];
    assert m > 0;
    var k := Times(m, turn);
    var t := AfterVisits(s, c, k);
    hide AfterVisits, DrawnBy, Visited, Origin, After, Draws, Times;
    forall g | 0 <= g < |c.flags|
      ensures t.cursors[g] == s.cursors[g] && t.group == Origin(s, c).group
    {
      ManyRounds(s, c, g, m, turn, k);
      VisitedShows(s, c, g, m, t, DrawnBy(s, c, g, k));
      FullTurn(c.table, c.n, s.cursors[g], x);
    }
    ManyRounds(s, c, h, m, turn, k);
    VisitedShows(s, c, h, m, t, DrawnBy(s, c, h, k));
    assert t.cursors == s.cursors;
    if c.flags[h] {
      FullTurn(c.table, c.n, Moved(s, c, h), x);
    }
  }
}
