/** The search for a sample no faster than the current best rate, and why it ends:
    every column of the table holds rate 0, which always stops the search. */
module HtSeek {
  import opened SampleCursor
  import opened HtSampler

  // One mask of n bits per group; the flag of a group says that its mask is not zero.
  ghost predicate Masks(supported: seq<seq<bool>>, c: Config) {
    && |supported| == |c.flags|
    && forall g :: 0 <= g < |supported| ==> |supported[g]| == c.n && c.flags[g] == (true in supported[g])
  }

  // The cursor that the next visit to group g will read: the current group's has not
  // been read yet, every other one is moved on first.
  ghost function Unread(s: Sampler, c: Config, g: nat): (r: Cursor)
    requires Ready(s, c) && g < |c.flags|
    ensures On(r, |c.table|, c.n)
  {
    if g == s.group then s.cursors[g] else Moved(s, c, g)
  }

  ghost function Distance(s: Sampler, c: Config, g: nat): (d: nat)
    requires Ready(s, c) && g < |c.flags|
    ensures d <= 2 * (c.n - 1)
  {
    ToZero(c.table, c.n, Unread(s, c, g))
  }

  // The visits that can be made before every group has reached a rate 0.
  ghost function Total(s: Sampler, c: Config, upto: nat): nat
    requires Ready(s, c) && upto <= |c.flags|
    decreases upto
  {
    if upto == 0 then 0
    else Total(s, c, upto - 1) + if c.flags[upto - 1] then Distance(s, c, upto - 1) else 0
  }

  // A visit that does not read rate 0 uses up one step of the visited group and none
  // of the others.
  lemma DistanceAfter(s: Sampler, c: Config, g: nat)
    requires Ready(s, c) && g < |c.flags| && Value(s, c) != 0
    ensures Distance(Next(s, c), c, g) == if g == s.group then Distance(s, c, g) - 1 else Distance(s, c, g)
  {
    hide ToZero;
    NextShape(s, c);
    ToZeroDecreases(c.table, c.n, s.cursors[s.group]);
  }

  lemma {:induction false} TotalAfter(s: Sampler, c: Config, upto: nat)
    requires Ready(s, c) && upto <= |c.flags| && Value(s, c) != 0 && c.flags[s.group]
    ensures Total(Next(s, c), c, upto) == if s.group < upto then Total(s, c, upto) - 1 else Total(s, c, upto)
    decreases upto
  {
    hide Distance, Value;
    if upto > 0 {
      TotalAfter(s, c, upto - 1);
      DistanceAfter(s, c, upto - 1);
    }
  }

  lemma {:induction false} TotalBound(s: Sampler, c: Config, upto: nat)
    requires Ready(s, c) && upto <= |c.flags|
    ensures Total(s, c, upto) <= Times(multiset(c.flags[..upto])[true], 2 * (c.n - 1))
    decreases upto
  {
    hide Distance;
    if upto > 0 {
      TotalBound(s, c, upto - 1);
      assert c.flags[..upto] == c.flags[..upto - 1] + [c.flags[upto - 1]];
    }
  }

  // Where the search ends: the state it leaves, the group and rate it settled on,
  // whether that rate is acceptable or else unsupported, and how many looks it took.
  datatype Found = Found(next: Sampler, group: nat, idx: nat, ok: bool, looks: nat)

  lemma ValueInRange(s: Sampler, c: Config)
    requires Ready(s, c)
    ensures Value(s, c) < c.n
  {
  }

  // The loop of minstrel_check_sample_idx.
  ghost function Seek(s: Sampler, c: Config, supported: seq<seq<bool>>, limit: nat): (r: Found)
    requires Ready(s, c) && Masks(supported, c)
    ensures Ready(r.next, c) && r.group < |supported| && r.idx < c.n
    decreases Total(s, c, |c.flags|)
  {
    ValueInRange(s, c);
    var g, v, next := s.group, Value(s, c), Next(s, c);
    if !supported[g][v] then Found(next, g, v, false, 1)
    else if v <= limit then Found(next, g, v, true, 1)
    else
      TotalAfter(s, c, |c.flags|);
      var r := Seek(next, c, supported, limit);
      r.(looks := r.looks + 1)
  }

  // One look either ends the search or leaves it with less to go.
  lemma SeekStep(s: Sampler, c: Config, supported: seq<seq<bool>>, limit: nat)
    requires Ready(s, c) && Masks(supported, c)
    ensures Value(s, c) < c.n && s.group < |supported| && |supported[s.group]| == c.n
    ensures var r, rest := Seek(s, c, supported, limit), Seek(Next(s, c), c, supported, limit);
            if !supported[s.group][Value(s, c)] || Value(s, c) <= limit
            then r.next == Next(s, c) && r.group == s.group && r.idx == Value(s, c)
            else
              && r.next == rest.next && r.group == rest.group && r.idx == rest.idx
              && Total(Next(s, c), c, |c.flags|) < Total(s, c, |c.flags|)
  {
    hide Next, Value, Fair;
    ValueInRange(s, c);
    if supported[s.group][Value(s, c)] && Value(s, c) > limit {
      TotalAfter(s, c, |c.flags|);
    }
  }

  // For every state and every limit the search ends after at most 2(n-1) looks per
  // group with rates and one more, on a supported rate within the limit or on a rate
  // that its group does not support.
  lemma {:induction false} SeekEnds(s: Sampler, c: Config, supported: seq<seq<bool>>, limit: nat)
    requires Ready(s, c) && Masks(supported, c)
    ensures var r := Seek(s, c, supported, limit);
            && 1 <= r.looks <= Total(s, c, |c.flags|) + 1
            && r.looks <= Times(multiset(c.flags)[true], 2 * (c.n - 1)) + 1
            && (r.ok ==> supported[r.group][r.idx] && r.idx <= limit)
            && (!r.ok ==> !supported[r.group][r.idx])
    decreases Total(s, c, |c.flags|)
  {
    hide Value, Next, Distance;
    ValueInRange(s, c);
    TotalBound(s, c, |c.flags|);
    assert c.flags[..|c.flags|] == c.flags;
    if supported[s.group][Value(s, c)] && Value(s, c) > limit {
      TotalAfter(s, c, |c.flags|);
      SeekEnds(Next(s, c), c, supported, limit);
    }
  }

  lemma {:induction false} LaterVisit(s: Sampler, c: Config, k: nat)
    requires Ready(s, c)
    ensures AfterVisits(Next(s, c), c, k) == AfterVisits(s, c, k + 1)
    decreases k
  {
    hide Next;
    if k > 0 {
      LaterVisit(s, c, k - 1);
    }
  }

  // What a search passes over: visit by visit, every look but the last found a supported
  // rate above the limit, and the last one found what the search ends with.
  lemma {:induction false} SeekPasses(s: Sampler, c: Config, supported: seq<seq<bool>>, limit: nat, k: nat)
    requires Ready(s, c) && Masks(supported, c) && k < Seek(s, c, supported, limit).looks
    ensures var r, t := Seek(s, c, supported, limit), AfterVisits(s, c, k);
            && t.group < |supported| && Value(t, c) < c.n
            && (k < r.looks - 1 ==> supported[t.group][Value(t, c)] && Value(t, c) > limit)
            && (k == r.looks - 1 ==> r.group == t.group && r.idx == Value(t, c) && r.next == Next(t, c))
    decreases k
  {
    hide Value, Next;
    ValueInRange(AfterVisits(s, c, k), c);
    ValueInRange(s, c);
    if supported[s.group][Value(s, c)] && Value(s, c) > limit {
      TotalAfter(s, c, |c.flags|);
      if k > 0 {
        LaterVisit(s, c, k - 1);
        SeekPasses(Next(s, c), c, supported, limit, k - 1);
      } else {
        SeekLooks(Next(s, c), c, supported, limit);
      }
    }
  }

  lemma SeekLooks(s: Sampler, c: Config, supported: seq<seq<bool>>, limit: nat)
    requires Ready(s, c) && Masks(supported, c)
    ensures Seek(s, c, supported, limit).looks >= 1
  {
    SeekEnds(s, c, supported, limit);
  }
}
