/** The randomised sampling tables. Each column is filled by open addressing: rate i
    goes to the first free slot at or after (i + random byte) modulo the column size. */
module SampleTable {

  const EMPTY: nat := 0xff
  const SAMPLE_COLUMNS: nat := 10

  // A column that holds every rate exactly once and nothing else.
  ghost predicate Permutation(col: seq<nat>) {
    && (forall s :: 0 <= s < |col| ==> col[s] < |col|)
    && (forall v :: 0 <= v < |col| ==> multiset(col)[v] == 1)
  }

  // A column in which exactly the rates below i have been placed.
  ghost predicate Partial(col: seq<nat>, i: nat) {
    && i <= |col| <= EMPTY
    && (forall s :: 0 <= s < |col| ==> col[s] == EMPTY || col[s] < i)
    && (forall v :: 0 <= v < i ==> multiset(col)[v] == 1)
    && multiset(col)[EMPTY] == |col| - i
  }

  lemma {:induction false} EmptyCount(col: seq<nat>)
    requires forall s :: 0 <= s < |col| ==> col[s] == EMPTY
    ensures multiset(col)[EMPTY] == |col|
  {
    if col != [] {
      assert col == col[..|col| - 1] + [EMPTY];
      EmptyCount(col[..|col| - 1]);
    }
  }

  // Linear probing cannot run out of slots: fewer rates than slots have been placed.
  lemma FreeSlot(col: seq<nat>, i: nat)
    requires Partial(col, i) && i < |col|
    ensures exists p :: 0 <= p < |col| && col[p] == EMPTY
  {
    assert EMPTY in multiset(col);
  }

  lemma Place(col: seq<nat>, i: nat, p: nat)
    requires Partial(col, i) && p < |col| && col[p] == EMPTY && i < |col|
    ensures Partial(col[p := i], i + 1)
  {
    assert i !in multiset(col) by {
      assert forall s :: 0 <= s < |col| ==> col[s] != i;
    }
    assert multiset(col[p := i]) == multiset(col) - multiset{EMPTY} + multiset{i};
  }

  lemma Complete(col: seq<nat>)
    requires Partial(col, |col|)
    ensures Permutation(col)
  {
    assert forall s :: 0 <= s < |col| ==> col[s] in multiset(col);
  }

  // Steps forward, around the column, from slot s to slot t.
  function Around(s: nat, t: nat, n: nat): (d: nat)
    requires s < n && t < n
    ensures d < n
  {
    if s <= t then t - s else t + n - s
  }

  lemma NextSlot(s: nat, t: nat, n: nat)
    requires s < n && t < n && s != t
    ensures (s + 1) % n < n
    ensures Around((s + 1) % n, t, n) + 1 == Around(s, t, n)
  {
    if s + 1 < n {
      assert (s + 1) % n == s + 1;
    } else {
      assert (s + 1) % n == 0;
    }
  }

  // The slot that linear probing from s ends in, when slot t is free.
  ghost function FirstFree(col: seq<nat>, s: nat, t: nat): (p: nat)
    requires s < |col| && t < |col| && col[t] == EMPTY
    ensures p < |col| && col[p] == EMPTY
    decreases Around(s, t, |col|)
  {
    if col[s] == EMPTY then s else
      NextSlot(s, t, |col|);
      FirstFree(col, (s + 1) % |col|, t)
  }

  lemma FirstFreeStep(col: seq<nat>, s: nat, t: nat)
    requires s < |col| && t < |col| && col[t] == EMPTY
    ensures (s + 1) % |col| < |col|
    ensures FirstFree(col, s, t) == if col[s] == EMPTY then s else FirstFree(col, (s + 1) % |col|, t)
  {
    if s != t {
      NextSlot(s, t, |col|);
    } else {
      assert |col| > 0;
    }
  }

  // The end of the probe does not depend on which free slot shows that it has one.
  lemma {:induction false} FirstFreeUnique(col: seq<nat>, s: nat, t: nat, u: nat)
    requires s < |col| && t < |col| && col[t] == EMPTY && u < |col| && col[u] == EMPTY
    ensures FirstFree(col, s, t) == FirstFree(col, s, u)
    decreases Around(s, t, |col|)
  {
    if col[s] != EMPTY {
      NextSlot(s, t, |col|);
      NextSlot(s, u, |col|);
      FirstFreeUnique(col, (s + 1) % |col|, t, u);
    }
  }

  // The column of n slots after the rates below i were placed with these offsets.
  ghost function Filled(n: nat, offsets: seq<nat>, i: nat): (col: seq<nat>)
    requires i <= n <= EMPTY && n <= |offsets|
    ensures |col| == n && Partial(col, i)
  {
    if i == 0 then
      EmptyCount(seq(n, k => EMPTY));
      seq(n, k => EMPTY)
    else
      var before := Filled(n, offsets, i - 1);
      var free := SomeFree(before, i - 1);
      var p := FirstFree(before, (i - 1 + offsets[i - 1]) % n, free);
      Place(before, i - 1, p);
      before[p := i - 1]
  }

  ghost function SomeFree(col: seq<nat>, i: nat): (p: nat)
    requires Partial(col, i) && i < |col|
    ensures p < |col| && col[p] == EMPTY
  {
    FreeSlot(col, i);
    var p: nat :| p < |col| && col[p] == EMPTY;
    p
  }

  // The slot d places after slot s, around the column.
  function Onward(s: nat, d: nat, n: nat): (p: nat)
    requires s < n && d < n
    ensures p < n
  {
    if s + d < n then s + d else s + d - n
  }

  // A probe passes over taken slots only.
  lemma {:induction false} ProbeEnds(col: seq<nat>, s: nat, t: nat) returns (d: nat)
    requires s < |col| && t < |col| && col[t] == EMPTY
    ensures d <= Around(s, t, |col|) && FirstFree(col, s, t) == Onward(s, d, |col|)
    ensures forall e :: 0 <= e < d ==> col[Onward(s, e, |col|)] != EMPTY
    decreases Around(s, t, |col|)
  {
    d := 0;
    if col[s] != EMPTY {
      NextSlot(s, t, |col|);
      var next := (s + 1) % |col|;
      assert next == if s + 1 < |col| then s + 1 else 0;
      d := ProbeEnds(col, next, t);
      d := d + 1;
      forall e | 0 <= e < d
        ensures col[Onward(s, e, |col|)] != EMPTY
      {
        assert e > 0 ==> Onward(s, e, |col|) == Onward(next, e - 1, |col|);
      }
    }
  }

  // One more rate takes the slot that its probe ends in, past slots of lower rates.
  lemma FilledNext(n: nat, offsets: seq<nat>, i: nat) returns (d: nat)
    requires i < n <= EMPTY && n <= |offsets|
    ensures d < n && (i + offsets[i]) % n < n
    ensures var before, s := Filled(n, offsets, i), (i + offsets[i]) % n;
            && Filled(n, offsets, i + 1) == before[Onward(s, d, n) := i]
            && before[Onward(s, d, n)] == EMPTY
            && forall e :: 0 <= e < d ==> before[Onward(s, e, n)] < i
  {
    hide Onward, FirstFree, Permutation;
    var before, s := Filled(n, offsets, i), (i + offsets[i]) % n;
    d := ProbeEnds(before, s, SomeFree(before, i));
  }

  // Where every rate v ends up: at the first slot, from the one that its random byte names
  // on, that no lower rate took.
  lemma {:induction false} EachWhereItProbed(n: nat, offsets: seq<nat>, i: nat, v: nat) returns (d: nat)
    requires v < i <= n <= EMPTY && n <= |offsets|
    ensures d < n && (v + offsets[v]) % n < n
    ensures var col, s := Filled(n, offsets, i), (v + offsets[v]) % n;
            && col[Onward(s, d, n)] == v
            && forall e :: 0 <= e < d ==> col[Onward(s, e, n)] < v
    decreases i
  {
    hide Onward, Filled, Partial;
    var next := FilledNext(n, offsets, i - 1);
    d := next;
    if v < i - 1 {
      d := EachWhereItProbed(n, offsets, i - 1, v);
    }
  }

  // Whatever the random bytes, the filled column holds every rate exactly once and
  // no empty marker is left.
  lemma FilledIsPermutation(n: nat, offsets: seq<nat>)
    requires n <= EMPTY && n <= |offsets|
    ensures Permutation(Filled(n, offsets, n)) && EMPTY !in Filled(n, offsets, n)
  {
    Complete(Filled(n, offsets, n));
  }

  // ----- The table shared by all HT stations: sample_table[column][index] -----

  ghost function HtColumn(table: array2<nat>, c: nat): (col: seq<nat>)
    requires c < table.Length0
    reads table
    ensures |col| == table.Length1
  {
    seq(table.Length1, k requires 0 <= k < table.Length1 reads table => table[c, k])
  }

  method FillHtColumn(table: array2<nat>, c: nat, rnd: seq<nat>)
    requires c < table.Length0 && 0 < table.Length1 <= EMPTY && |rnd| == table.Length1
    requires forall k :: 0 <= k < table.Length1 ==> table[c, k] == EMPTY
    modifies table
    ensures HtColumn(table, c) == Filled(table.Length1, rnd, table.Length1)
    ensures forall d, k :: 0 <= d < table.Length0 && d != c && 0 <= k < table.Length1 ==>
                             table[d, k] == old(table[d, k])
  {
    hide Partial, Permutation, Around, FirstFree, SomeFree;
    var n := table.Length1;
    var i := 0;
    while i < n
      invariant 0 <= i <= n && HtColumn(table, c) == Filled(n, rnd, i)
      invariant forall d, k :: 0 <= d < table.Length0 && d != c && 0 <= k < n ==>
                                 table[d, k] == old(table[d, k])
    {
      var newIdx := (i + rnd[i]) % n;
      ghost var before, start := HtColumn(table, c), newIdx;
      ghost var free := SomeFree(before, i);
      while table[c, newIdx] != EMPTY
        invariant 0 <= newIdx < n
        invariant FirstFree(before, newIdx, free) == FirstFree(before, start, free)
        modifies {}
        decreases Around(newIdx, free, n)
      {
        assert before[newIdx] == table[c, newIdx];
        NextSlot(newIdx, free, n);
        FirstFreeStep(before, newIdx, free);
        newIdx := (newIdx + 1) % n;
      }
      assert before[newIdx] == EMPTY;
      FirstFreeStep(before, newIdx, free);
      table[c, newIdx] := i;
      assert HtColumn(table, c) == before[newIdx := i];
      i := i + 1;
    }
  }

  method InitHtTable(table: array2<nat>, rnd: seq<seq<nat>>)
    requires 0 < table.Length1 <= EMPTY && |rnd| == table.Length0
    requires forall c :: 0 <= c < |rnd| ==> |rnd[c]| == table.Length1
    modifies table
    ensures forall c :: 0 <= c < table.Length0 ==>
                          HtColumn(table, c) == Filled(table.Length1, rnd[c], table.Length1)
  {
    hide Filled;
    forall c, k | 0 <= c < table.Length0 && 0 <= k < table.Length1 {
      table[c, k] := EMPTY;
    }
    var col := 0;
    while col < table.Length0
      invariant 0 <= col <= table.Length0
      invariant forall c :: 0 <= c < col ==>
                              HtColumn(table, c) == Filled(table.Length1, rnd[c], table.Length1)
      invariant forall c, k :: col <= c < table.Length0 && 0 <= k < table.Length1 ==> table[c, k] == EMPTY
    {
      label Before:
      FillHtColumn(table, col, rnd[col]);
      assert forall c :: 0 <= c < col ==> HtColumn(table, c) == old@Before(HtColumn(table, c));
      col := col + 1;
    }
  }

  // ----- The table of one legacy station: sample_table[index * columns + column] -----

  ghost function LegacyColumn(table: array2<nat>, c: nat): (col: seq<nat>)
    requires c < table.Length1
    reads table
    ensures |col| == table.Length0
  {
    seq(table.Length0, k requires 0 <= k < table.Length0 reads table => table[k, c])
  }

  function Offsets(rnd: seq<nat>, n: nat): (r: seq<nat>)
    requires |rnd| == 8
  {
    seq(n, i => rnd[i % 8])
  }

  // Every rate of a legacy column starts its probe from the byte of its number modulo 8.
  lemma LegacyWhereItProbed(n: nat, rnd: seq<nat>, v: nat) returns (d: nat)
    requires v < n <= EMPTY && |rnd| == 8
    ensures d < n && (v + rnd[v % 8]) % n < n
    ensures var col, s := Filled(n, Offsets(rnd, n), n), (v + rnd[v % 8]) % n;
            && col[Onward(s, d, n)] == v
            && forall e :: 0 <= e < d ==> col[Onward(s, e, n)] < v
  {
    hide Onward, Filled;
    d := EachWhereItProbed(n, Offsets(rnd, n), n, v);
  }

  // Eight random bytes serve a whole column, so byte i & 7 is used for rate i.
  method FillLegacyColumn(table: array2<nat>, c: nat, rnd: seq<nat>)
    requires c < table.Length1 && 0 < table.Length0 <= EMPTY && |rnd| == 8
    requires forall k :: 0 <= k < table.Length0 ==> table[k, c] == EMPTY
    modifies table
    ensures LegacyColumn(table, c) == Filled(table.Length0, Offsets(rnd, table.Length0), table.Length0)
    ensures forall d, k :: 0 <= d < table.Length1 && d != c && 0 <= k < table.Length0 ==>
                             table[k, d] == old(table[k, d])
  {
    hide Partial, Permutation, Around, FirstFree, SomeFree;
    var n := table.Length0;
    var i := 0;
    while i < n
      invariant 0 <= i <= n && LegacyColumn(table, c) == Filled(n, Offsets(rnd, table.Length0), i)
      invariant forall d, k :: 0 <= d < table.Length1 && d != c && 0 <= k < n ==>
                                 table[k, d] == old(table[k, d])
    {
      var newIdx := (i + rnd[i % 8]) % n;
      ghost var before, start := LegacyColumn(table, c), newIdx;
      ghost var free := SomeFree(before, i);
      while table[newIdx, c] != EMPTY
        invariant 0 <= newIdx < n
        invariant FirstFree(before, newIdx, free) == FirstFree(before, start, free)
        modifies {}
        decreases Around(newIdx, free, n)
      {
        assert before[newIdx] == table[newIdx, c];
        NextSlot(newIdx, free, n);
        FirstFreeStep(before, newIdx, free);
        newIdx := (newIdx + 1) % n;
      }
      assert before[newIdx] == EMPTY;
      FirstFreeStep(before, newIdx, free);
      table[newIdx, c] := i;
      assert LegacyColumn(table, c) == before[newIdx := i];
      i := i + 1;
    }
  }

  method InitLegacyTable(table: array2<nat>, rnd: seq<seq<nat>>)
    requires table.Length0 <= EMPTY && |rnd| == table.Length1
    requires forall c :: 0 <= c < |rnd| ==> |rnd[c]| == 8
    modifies table
    ensures forall c :: 0 <= c < table.Length1 ==>
                          LegacyColumn(table, c) == Filled(table.Length0, Offsets(rnd[c], table.Length0), table.Length0)
  {
    hide Filled;
    forall k, c | 0 <= k < table.Length0 && 0 <= c < table.Length1 {
      table[k, c] := EMPTY;
    }
    if table.Length0 == 0 {
      assert forall c :: 0 <= c < table.Length1 ==> LegacyColumn(table, c) == Filled(0, Offsets(rnd[c], 0), 0);
      return;
    }
    var col := 0;
    while col < table.Length1
      invariant 0 <= col <= table.Length1
      invariant forall c :: 0 <= c < col ==>
                              LegacyColumn(table, c) ==
                              Filled(table.Length0, Offsets(rnd[c], table.Length0), table.Length0)
      invariant forall c, k :: col <= c < table.Length1 && 0 <= k < table.Length0 ==> table[k, c] == EMPTY
    {
      label Before:
      FillLegacyColumn(table, col, rnd[col]);
      assert forall c :: 0 <= c < col ==> LegacyColumn(table, c) == old@Before(LegacyColumn(table, c));
      col := col + 1;
    }
  }
}
