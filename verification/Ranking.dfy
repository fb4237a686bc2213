/** The bounded ranked list behind max_tp_rate: candidates are inserted one by one
    from the back of a list of fixed length, ranked by throughput and then by
    success probability, and whatever falls off the end is forgotten. */
module Ranking {

  datatype Key = Key(tp: nat, prob: nat)

  predicate Beats(a: Key, b: Key) {
    a.tp > b.tp || (a.tp == b.tp && a.prob > b.prob)
  }

  predicate InRange(list: seq<nat>, keys: seq<Key>) {
    forall i :: 0 <= i < |list| ==> list[i] < |keys|
  }

  // The scan from the back stops at the first entry the candidate does not beat.
  function InsertPos(list: seq<nat>, x: nat, keys: seq<Key>): (p: nat)
    requires InRange(list, keys) && x < |keys|
    ensures p <= |list|
    ensures forall i :: p <= i < |list| ==> Beats(keys[x], keys[list[i]])
    ensures p > 0 ==> !Beats(keys[x], keys[list[p - 1]])
  {
    if list == [] || !Beats(keys[x], keys[list[|list| - 1]]) then |list|
    else InsertPos(list[..|list| - 1], x, keys)
  }

  function Insert(list: seq<nat>, x: nat, keys: seq<Key>): (r: seq<nat>)
    requires InRange(list, keys) && x < |keys|
    ensures |r| == |list| && InRange(r, keys)
    ensures forall e :: e in r ==> e in list || e == x
  {
    var p := InsertPos(list, x, keys);
    if p == |list| then list else list[..p] + [x] + list[p..|list| - 1]
  }

  function InsertAll(list: seq<nat>, xs: seq<nat>, keys: seq<Key>): (r: seq<nat>)
    requires InRange(list, keys) && InRange(xs, keys)
    ensures |r| == |list| && InRange(r, keys)
    ensures forall e :: e in r ==> e in list || e in xs
    decreases |xs|
  {
    if xs == [] then list
    else Insert(InsertAll(list, xs[..|xs| - 1], keys), xs[|xs| - 1], keys)
  }

  ghost predicate Sorted(list: seq<nat>, keys: seq<Key>)
    requires InRange(list, keys)
  {
    forall i, j :: 0 <= i < j < |list| ==> !Beats(keys[list[j]], keys[list[i]])
  }

  ghost function Dropped(list: seq<nat>, all: multiset<nat>): multiset<nat> {
    all - multiset(list)
  }

  // d ranks no higher than the last entry of the list.
  ghost predicate RanksBelow(d: nat, list: seq<nat>, keys: seq<Key>)
    requires |list| > 0 && InRange(list, keys)
  {
    d < |keys| && !Beats(keys[d], keys[list[|list| - 1]])
  }

  // list is a ranking of the best |list| members of all: it is sorted, it is part of
  // all, and no member left out beats the last member kept.
  ghost predicate TopOf(list: seq<nat>, all: multiset<nat>, keys: seq<Key>) {
    && |list| > 0
    && InRange(list, keys)
    && Sorted(list, keys)
    && multiset(list) <= all
    && forall d :: d in Dropped(list, all) ==> RanksBelow(d, list, keys)
  }

  // What a ranking promises, entry by entry: throughput never rises along it, and among
  // equals the probability does not; nothing that was left out is faster than an entry, or
  // as fast and more probable.
  lemma TopIs(list: seq<nat>, all: multiset<nat>, keys: seq<Key>, i: nat)
    requires TopOf(list, all, keys) && i < |list|
    ensures list[i] in all && list[i] < |keys|
    ensures forall j :: i < j < |list| ==>
                          var a, b := keys[list[i]], keys[list[j]]; a.tp > b.tp || (a.tp == b.tp && a.prob >= b.prob)
    ensures forall d :: d in all && d !in list ==>
                          && d < |keys|
                          && var a, b := keys[list[i]], keys[d]; a.tp > b.tp || (a.tp == b.tp && a.prob >= b.prob)
  {
    assert list[i] in multiset(list);
    forall d | d in all && d !in list
      ensures d < |keys|
      ensures var a, b := keys[list[i]], keys[d]; a.tp > b.tp || (a.tp == b.tp && a.prob >= b.prob)
    {
      assert d in Dropped(list, all);
      assert RanksBelow(d, list, keys);
      assert i < |list| - 1 ==> !Beats(keys[list[|list| - 1]], keys[list[i]]);
    }
  }

  lemma InsertSplits(list: seq<nat>, x: nat, keys: seq<Key>) returns (evicted: nat)
    requires InRange(list, keys) && x < |keys| && |list| > 0
    ensures multiset(list) + multiset{x} == multiset(Insert(list, x, keys)) + multiset{evicted}
    ensures evicted == if InsertPos(list, x, keys) == |list| then x else list[|list| - 1]
  {
    hide Beats;
    var p, n := InsertPos(list, x, keys), |list|;
    if p == n {
      evicted := x;
    } else {
      evicted := list[n - 1];
      var front, back := list[..p], list[p..n - 1];
      assert list == front + back + [evicted];
      assert multiset(list) == multiset(front) + multiset(back) + multiset{evicted};
      assert multiset(front + [x] + back) == multiset(front) + multiset{x} + multiset(back);
    }
  }

  lemma InsertSorted(list: seq<nat>, x: nat, keys: seq<Key>)
    requires InRange(list, keys) && x < |keys| && |list| > 0 && Sorted(list, keys)
    ensures Sorted(Insert(list, x, keys), keys)
    ensures forall d :: RanksBelow(d, list, keys) ==> RanksBelow(d, Insert(list, x, keys), keys)
  {
    var r, p := Insert(list, x, keys), InsertPos(list, x, keys);
    assert forall i :: 0 <= i < |r| ==>
      r[i] == if p == |list| || i < p then list[i] else if i == p then x else list[i - 1];
    hide Insert, InsertPos;
  }

  lemma Exchange(m: multiset<nat>, r: multiset<nat>, all: multiset<nat>, x: nat, evicted: nat)
    requires m <= all && m + multiset{x} == r + multiset{evicted}
    ensures r <= all + multiset{x}
    ensures all + multiset{x} - r == all - m + multiset{evicted}
  {
    assert r <= r + multiset{evicted} <= all + multiset{x};
    assert all == m + (all - m);
    assert all + multiset{x} == r + (all - m + multiset{evicted});
  }

  // One insertion keeps the list a ranking of everything offered so far.
  lemma InsertKeepsTop(list: seq<nat>, x: nat, all: multiset<nat>, keys: seq<Key>)
    requires TopOf(list, all, keys) && x < |keys|
    ensures TopOf(Insert(list, x, keys), all + multiset{x}, keys)
  {
    var r := Insert(list, x, keys);
    InsertSorted(list, x, keys);
    var evicted := InsertSplits(list, x, keys);
    assert RanksBelow(evicted, r, keys) by {
      var n := |list|;
      if InsertPos(list, x, keys) < n - 1 { assert !Beats(keys[list[n - 1]], keys[list[n - 2]]); }
    }
    hide Beats, Insert, Sorted, RanksBelow;
    Exchange(multiset(list), multiset(r), all, x, evicted);
    assert forall d :: d in Dropped(r, all + multiset{x}) ==> d in Dropped(list, all) || d == evicted;
  }

  // Offering a whole list, in any order, is offering each of its members.
  lemma {:induction false} InsertAllKeepsTop(list: seq<nat>, xs: seq<nat>, all: multiset<nat>, keys: seq<Key>)
    requires TopOf(list, all, keys) && InRange(xs, keys)
    ensures TopOf(InsertAll(list, xs, keys), all + multiset(xs), keys)
    decreases |xs|
  {
    hide Sorted, RanksBelow, Beats, Insert;
    if xs == [] {
      assert all + multiset(xs) == all;
    } else {
      var front, x := xs[..|xs| - 1], xs[|xs| - 1];
      InsertAllKeepsTop(list, front, all, keys);
      InsertKeepsTop(InsertAll(list, front, keys), x, all + multiset(front), keys);
      assert xs == front + [x];
      assert all + multiset(xs) == all + multiset(front) + multiset{x};
    }
  }

  // What the last entry of a sorted list beats, every entry beats.
  lemma LastBeats(list: seq<nat>, keys: seq<Key>, bar: nat)
    requires InRange(list, keys) && Sorted(list, keys) && |list| > 0 && bar < |keys|
    requires Beats(keys[list[|list| - 1]], keys[bar])
    ensures forall i :: 0 <= i < |list| ==> Beats(keys[list[i]], keys[bar])
  {
    forall i | 0 <= i < |list|
      ensures Beats(keys[list[i]], keys[bar])
    {
      assert i == |list| - 1 || !Beats(keys[list[|list| - 1]], keys[list[i]]);
    }
  }

  // The last entry of a full ranking is at least as good as the last entry of any
  // list of the same length drawn from the same candidates.
  lemma LastOfPart(r: seq<nat>, part: seq<nat>, all: multiset<nat>, keys: seq<Key>)
    requires TopOf(r, all, keys) && InRange(part, keys) && Sorted(part, keys)
    requires multiset(part) <= all && |part| == |r|
    ensures RanksBelow(part[|part| - 1], r, keys)
  {
    var n := |r|;
    if !RanksBelow(part[n - 1], r, keys) {
      var last, few, rest := r[n - 1], r[..n - 1], r[n - 1..];
      SuffixBelow(r, all, keys, n - 1, few, rest);
      LastBeats(part, keys, last);
      hide Beats, Sorted, TopOf, Dropped;
      MoreThanFit(part, few, rest, all, keys, last);
    }
  }

  // If every member of ups beats some key, and everything outside few does not, then
  // ups fits inside few.
  lemma MoreThanFit(ups: seq<nat>, few: seq<nat>, rest: seq<nat>, all: multiset<nat>, keys: seq<Key>, bar: nat)
    requires InRange(ups, keys) && bar < |keys|
    requires multiset(few + rest) <= all && multiset(ups) <= all
    requires forall i :: 0 <= i < |ups| ==> Beats(keys[ups[i]], keys[bar])
    requires forall i :: 0 <= i < |rest| ==> rest[i] < |keys| && !Beats(keys[rest[i]], keys[bar])
    requires forall d :: d in Dropped(few + rest, all) ==> d < |keys| && !Beats(keys[d], keys[bar])
    ensures |ups| <= |few|
  {
    assert multiset(few + rest) == multiset(few) + multiset(rest);
    forall e | e in ups
      ensures multiset(ups)[e] <= multiset(few)[e]
    {
      assert Beats(keys[e], keys[bar]);
      assert e !in multiset(rest) && e !in Dropped(few + rest, all);
    }
    assert multiset(ups) <= multiset(few);
    assert multiset(few) == multiset(ups) + (multiset(few) - multiset(ups));
  }

  // Merging two rankings of the same length ranks the union of what they were chosen
  // from: a candidate dropped by the second list cannot belong in the merged one.
  lemma MergeIsTop(left: seq<nat>, right: seq<nat>, allLeft: multiset<nat>, allRight: multiset<nat>, keys: seq<Key>)
    requires TopOf(left, allLeft, keys) && TopOf(right, allRight, keys)
    requires |left| == |right|
    ensures TopOf(InsertAll(left, right, keys), allLeft + allRight, keys)
  {
    hide InsertAll, Sorted;
    var r := InsertAll(left, right, keys);
    var offered := allLeft + multiset(right);
    InsertAllKeepsTop(left, right, allLeft, keys);
    LastOfPart(r, right, offered, keys);
    assert Dropped(r, allLeft + allRight) == Dropped(r, offered) + Dropped(right, allRight);
    forall d | d in Dropped(r, allLeft + allRight)
      ensures RanksBelow(d, r, keys)
    {
    }
  }

  // A ranking is determined up to ties: two rankings of the same candidates show the
  // same keys in the same places.
  lemma TopIsUnique(r: seq<nat>, s: seq<nat>, all: multiset<nat>, keys: seq<Key>, i: nat)
    requires TopOf(r, all, keys) && TopOf(s, all, keys)
    requires |r| == |s| && i < |r|
    ensures keys[r[i]] == keys[s[i]]
  {
    NotBeaten(r, s, all, keys, i);
    NotBeaten(s, r, all, keys, i);
  }

  // The front of a ranking beats whatever its last entry beats.
  lemma PrefixBeats(r: seq<nat>, all: multiset<nat>, keys: seq<Key>, i: nat, bar: nat, up: seq<nat>)
    requires TopOf(r, all, keys) && i < |r| && bar < |keys| && Beats(keys[r[i]], keys[bar]) && up == r[..i + 1]
    ensures InRange(up, keys) && multiset(up) <= all
    ensures forall j :: 0 <= j < |up| ==> Beats(keys[up[j]], keys[bar])
  {
    assert r == up + r[i + 1..];
  }

  // Nothing from entry i on, and nothing left out, beats entry i.
  lemma SuffixBelow(s: seq<nat>, all: multiset<nat>, keys: seq<Key>, i: nat, few: seq<nat>, rest: seq<nat>)
    requires TopOf(s, all, keys) && i < |s| && few == s[..i] && rest == s[i..]
    ensures few + rest == s
    ensures forall j :: 0 <= j < |rest| ==> rest[j] < |keys| && !Beats(keys[rest[j]], keys[s[i]])
    ensures forall d :: d in Dropped(s, all) ==> d < |keys| && !Beats(keys[d], keys[s[i]])
  {
    assert i == |s| - 1 || !Beats(keys[s[|s| - 1]], keys[s[i]]);
  }

  lemma NotBeaten(r: seq<nat>, s: seq<nat>, all: multiset<nat>, keys: seq<Key>, i: nat)
    requires TopOf(r, all, keys) && TopOf(s, all, keys)
    requires |r| == |s| && i < |r|
    ensures !Beats(keys[r[i]], keys[s[i]])
  {
    hide Sorted, RanksBelow, Beats, Dropped;
    if Beats(keys[r[i]], keys[s[i]]) {
      var up, few, rest := r[..i + 1], s[..i], s[i..];
      PrefixBeats(r, all, keys, i, s[i], up);
      SuffixBelow(s, all, keys, i, few, rest);
      MoreThanFit(up, few, rest, all, keys, s[i]);
    }
  }

  // Further copies of a candidate that already fills the list change nothing.
  lemma SpareCopies(list: seq<nat>, x: nat, all: multiset<nat>, spare: multiset<nat>, keys: seq<Key>)
    requires TopOf(list, all + spare, keys)
    requires forall e :: e in spare ==> e == x
    requires all[x] >= |list|
    ensures TopOf(list, all, keys)
  {
    assert multiset(list)[x] <= |list| by {
      assert multiset(list) == (multiset(list) - multiset{x}) + multiset(list) * multiset{x};
    }
    assert multiset(list) <= all;
    assert forall d :: d in Dropped(list, all) ==> d in Dropped(list, all + spare);
  }
}
