/** The cursor that walks a sampling table column by column. */
module SampleCursor {
  import opened SampleTable

  datatype Cursor = Cursor(row: nat, column: nat)

  // A table is a sequence of columns of n rates each.
  ghost predicate Fair(table: seq<seq<nat>>, n: nat) {
    && |table| > 0 && n > 0
    && forall c :: 0 <= c < |table| ==> |table[c]| == n && Permutation(table[c])
  }

  // Whatever the random bytes, filling every column makes a fair table.
  lemma FilledTableFair(rnd: seq<seq<nat>>, n: nat)
    requires |rnd| > 0 && 0 < n <= EMPTY && forall c :: 0 <= c < |rnd| ==> |rnd[c]| >= n
    ensures Fair(seq(|rnd|, c requires 0 <= c < |rnd| => Filled(n, rnd[c], n)), n)
  {
    hide Permutation;
    forall c | 0 <= c < |rnd|
      ensures Permutation(Filled(n, rnd[c], n))
    {
      FilledIsPermutation(n, rnd[c]);
    }
  }

  predicate On(cur: Cursor, columns: nat, n: nat) {
    cur.row < n && cur.column < columns
  }

  function NextColumn(column: nat, columns: nat): (r: nat)
    ensures column < columns ==> r < columns
  {
    if column + 1 >= columns then 0 else column + 1
  }

  function Advance(cur: Cursor, columns: nat, n: nat): (r: Cursor)
    requires n > 0 && columns > 0
    ensures On(cur, columns, n) ==> On(r, columns, n)
  {
    if cur.row + 1 >= n then Cursor(0, NextColumn(cur.column, columns))
    else Cursor(cur.row + 1, cur.column)
  }

  function At(table: seq<seq<nat>>, n: nat, cur: Cursor): nat
    requires On(cur, |table|, n) && forall c :: 0 <= c < |table| ==> |table[c]| == n
  {
    table[cur.column][cur.row]
  }

  // Where the cursor is after k draws, and what those draws returned.
  function After(cur: Cursor, columns: nat, n: nat, k: nat): (r: Cursor)
    requires On(cur, columns, n)
    ensures On(r, columns, n)
    decreases k
  {
    if k == 0 then cur else After(Advance(cur, columns, n), columns, n, k - 1)
  }

  function Draws(table: seq<seq<nat>>, n: nat, cur: Cursor, k: nat): (r: seq<nat>)
    requires On(cur, |table|, n) && forall c :: 0 <= c < |table| ==> |table[c]| == n
    ensures |r| == k
    decreases k
  {
    if k == 0 then [] else
      [At(table, n, cur)] + Draws(table, n, Advance(cur, |table|, n), k - 1)
  }

  lemma {:induction false} DrawsSplit(table: seq<seq<nat>>, n: nat, cur: Cursor, j: nat, k: nat)
    requires On(cur, |table|, n) && forall c :: 0 <= c < |table| ==> |table[c]| == n
    ensures After(cur, |table|, n, j + k) == After(After(cur, |table|, n, j), |table|, n, k)
    ensures Draws(table, n, cur, j + k) ==
            Draws(table, n, cur, j) + Draws(table, n, After(cur, |table|, n, j), k)
    decreases j
  {
    if j > 0 {
      DrawsSplit(table, n, Advance(cur, |table|, n), j - 1, k);
    }
  }

  lemma NoDraws(table: seq<seq<nat>>, n: nat, cur: Cursor)
    requires On(cur, |table|, n) && forall c :: 0 <= c < |table| ==> |table[c]| == n
    ensures Draws(table, n, cur, 0) == [] && After(cur, |table|, n, 0) == cur
  {
  }

  // Draws that stay inside a column read a slice of it.
  lemma {:induction false} Slice(table: seq<seq<nat>>, n: nat, cur: Cursor, k: nat)
    requires On(cur, |table|, n) && forall c :: 0 <= c < |table| ==> |table[c]| == n
    requires cur.row + k <= n
    ensures Draws(table, n, cur, k) == table[cur.column][cur.row..cur.row + k]
    ensures After(cur, |table|, n, k) ==
            if cur.row + k < n then Cursor(cur.row + k, cur.column)
            else Cursor(0, NextColumn(cur.column, |table|))
    decreases k
  {
    if k > 0 {
      if cur.row + 1 < n {
        Slice(table, n, Advance(cur, |table|, n), k - 1);
      }
      assert table[cur.column][cur.row..cur.row + k] ==
        [At(table, n, cur)] + table[cur.column][cur.row + 1..cur.row + k];
    }
  }

  // The column reached after m more columns.
  function ColumnAfter(c: nat, columns: nat, m: nat): nat
    decreases m
  {
    if m == 0 then c else ColumnAfter(NextColumn(c, columns), columns, m - 1)
  }

  lemma {:induction false} ColumnAround(c: nat, columns: nat, m: nat)
    requires c < columns && m <= columns
    ensures ColumnAfter(c, columns, m) == if c + m < columns then c + m else c + m - columns
    decreases m
  {
    if m > 0 {
      ColumnAround(NextColumn(c, columns), columns, m - 1);
    }
  }

  lemma OnceEach(table: seq<seq<nat>>, n: nat, c: nat, x: nat)
    requires Fair(table, n) && c < |table| && x < n
    ensures multiset(table[c])[x] == 1 && table[c][0..n] == table[c]
  {
  }

  // m * n as repeated addition.
  function Times(m: nat, n: nat): nat {
    if m == 0 then 0 else n + Times(m - 1, n)
  }

  lemma {:induction false} TimesIsProduct(m: nat, n: nat)
    ensures Times(m, n) == m * n
  {
    if m > 0 {
      TimesIsProduct(m - 1, n);
      assert m * n == n + (m - 1) * n;
    }
  }

  lemma ColumnThenRest(table: seq<seq<nat>>, n: nat, c: nat, rest: nat)
    requires Fair(table, n) && c < |table|
    ensures Draws(table, n, Cursor(0, c), n + rest) ==
            table[c] + Draws(table, n, Cursor(0, NextColumn(c, |table|)), rest)
    ensures After(Cursor(0, c), |table|, n, n + rest) ==
            After(Cursor(0, NextColumn(c, |table|)), |table|, n, rest)
  {
    hide Draws, After, Permutation, Advance;
    DrawsSplit(table, n, Cursor(0, c), n, rest);
    Slice(table, n, Cursor(0, c), n);
    assert table[c][0..n] == table[c];
  }

  lemma {:induction false} AfterColumns(table: seq<seq<nat>>, n: nat, c: nat, m: nat, k: nat)
    requires Fair(table, n) && c < |table| && k == Times(m, n)
    ensures After(Cursor(0, c), |table|, n, k) == Cursor(0, ColumnAfter(c, |table|, m))
    decreases m
  {
    NoDraws(table, n, Cursor(0, c));
    hide Draws, After, Permutation, Advance, NextColumn;
    if m > 0 {
      ColumnThenRest(table, n, c, k - n);
      AfterColumns(table, n, NextColumn(c, |table|), m - 1, k - n);
    }
  }

  lemma CountThenRest(table: seq<seq<nat>>, n: nat, c: nat, rest: nat, x: nat)
    requires Fair(table, n) && c < |table| && x < n
    ensures NextColumn(c, |table|) < |table|
    ensures multiset(Draws(table, n, Cursor(0, c), n + rest))[x] ==
            1 + multiset(Draws(table, n, Cursor(0, NextColumn(c, |table|)), rest))[x]
  {
    hide Draws, Permutation;
    OnceEach(table, n, c, x);
    ColumnThenRest(table, n, c, rest);
  }

  lemma OneMoreTime(m: nat, n: nat)
    ensures if m == 0 then Times(m, n) == 0 else Times(m, n) == n + Times(m - 1, n)
  {
  }

  // m whole columns return every rate m times.
  lemma {:induction false} WholeColumns(table: seq<seq<nat>>, n: nat, c: nat, m: nat, k: nat, x: nat)
    requires Fair(table, n) && c < |table| && x < n && k == Times(m, n)
    ensures multiset(Draws(table, n, Cursor(0, c), k))[x] == m
    decreases m
  {
    hide Draws, NextColumn, Permutation, Times;
    OneMoreTime(m, n);
    if m == 0 {
      NoDraws(table, n, Cursor(0, c));
    } else {
      CountThenRest(table, n, c, k - n, x);
      WholeColumns(table, n, NextColumn(c, |table|), m - 1, k - n, x);
    }
  }

  // From row 0, n draws return each of the n rates exactly once.
  lemma OneColumnIsPermutation(table: seq<seq<nat>>, n: nat, c: nat)
    requires Fair(table, n) && c < |table|
    ensures Permutation(Draws(table, n, Cursor(0, c), n))
  {
    Slice(table, n, Cursor(0, c), n);
    assert table[c][0..n] == table[c];
  }

  // A turn reads the rest of the current column, all others, and the column's start.
  lemma TurnSplits(table: seq<seq<nat>>, n: nat, cur: Cursor, turn: nat)
    requires Fair(table, n) && On(cur, |table|, n) && turn == Times(|table|, n)
    ensures var c, whole, col := NextColumn(cur.column, |table|), Times(|table| - 1, n), table[cur.column];
            && Draws(table, n, cur, turn) ==
               col[cur.row..n] + (Draws(table, n, Cursor(0, c), whole) + col[0..cur.row])
            && After(cur, |table|, n, turn) == cur
  {
    hide Draws, After, ColumnAfter, Advance, Permutation, Times;
    var columns, tail, c := |table|, n - cur.row, NextColumn(cur.column, |table|);
    var whole := Times(columns - 1, n);
    OneMoreTime(columns, n);
    DrawsSplit(table, n, cur, tail, whole + cur.row);
    Slice(table, n, cur, tail);
    DrawsSplit(table, n, Cursor(0, c), whole, cur.row);
    AfterColumns(table, n, c, columns - 1, whole);
    ColumnAround(c, columns, columns - 1);
    Slice(table, n, Cursor(0, cur.column), cur.row);
  }

  lemma Rotated(col: seq<nat>, row: nat, rest: seq<nat>, x: nat)
    requires row <= |col|
    ensures multiset(col[row..|col|] + (rest + col[0..row]))[x] == multiset(col)[x] + multiset(rest)[x]
  {
    assert col == col[0..row] + col[row..|col|];
  }

  lemma TurnCounts(table: seq<seq<nat>>, n: nat, cur: Cursor, x: nat, turn: nat)
    requires Fair(table, n) && On(cur, |table|, n) && x < n && turn == Times(|table|, n)
    ensures multiset(Draws(table, n, cur, turn))[x] == |table|
  {
    var c, whole := NextColumn(cur.column, |table|), Times(|table| - 1, n);
    hide Draws, After, NextColumn, Permutation, Times;
    OnceEach(table, n, cur.column, x);
    TurnSplits(table, n, cur, turn);
    WholeColumns(table, n, c, |table| - 1, whole, x);
    Rotated(table[cur.column], cur.row, Draws(table, n, Cursor(0, c), whole), x);
  }

  // From any position, one full turn of the table returns every rate exactly once per
  // column and leads back to the same position.
  lemma FullTurn(table: seq<seq<nat>>, n: nat, cur: Cursor, x: nat)
    requires Fair(table, n) && On(cur, |table|, n) && x < n
    ensures multiset(Draws(table, n, cur, |table| * n))[x] == |table|
    ensures After(cur, |table|, n, |table| * n) == cur
  {
    hide Draws, After, Times, Permutation;
    TimesIsProduct(|table|, n);
    TurnSplits(table, n, cur, |table| * n);
    TurnCounts(table, n, cur, x, |table| * n);
  }

  // ----- How far the cursor is from rate 0 -----

  // Every column contains rate 0.
  ghost function ZeroRow(col: seq<nat>): (r: nat)
    requires |col| > 0 && Permutation(col)
    ensures r < |col| && col[r] == 0
  {
    assert 0 in multiset(col);
    var r: nat :| r < |col| && col[r] == 0;
    r
  }

  lemma Twice(col: seq<nat>, lo: nat, hi: nat)
    requires lo < hi < |col| && col[lo] == col[hi]
    ensures multiset(col)[col[lo]] >= 2
  {
    assert col == col[..hi] + col[hi..];
    assert col[..hi][lo] == col[lo] && col[hi..][0] == col[lo];
  }

  lemma ZeroRowUnique(col: seq<nat>, r: nat)
    requires |col| > 0 && Permutation(col) && r < |col| && col[r] == 0
    ensures r == ZeroRow(col)
  {
    var z := ZeroRow(col);
    if r < z {
      Twice(col, r, z);
      assert false;
    } else if z < r {
      Twice(col, z, r);
      assert false;
    }
  }

  // The number of draws that precede the first draw of rate 0.
  ghost function ToZero(table: seq<seq<nat>>, n: nat, cur: Cursor): (d: nat)
    requires Fair(table, n) && On(cur, |table|, n)
    ensures d <= 2 * (n - 1)
  {
    var z := ZeroRow(table[cur.column]);
    if cur.row <= z then z - cur.row
    else n - cur.row + ZeroRow(table[NextColumn(cur.column, |table|)])
  }

  lemma ToZeroDecreases(table: seq<seq<nat>>, n: nat, cur: Cursor)
    requires Fair(table, n) && On(cur, |table|, n)
    ensures At(table, n, cur) == 0 <==> ToZero(table, n, cur) == 0
    ensures At(table, n, cur) != 0 ==>
              ToZero(table, n, Advance(cur, |table|, n)) == ToZero(table, n, cur) - 1
  {
    if At(table, n, cur) == 0 {
      ZeroRowUnique(table[cur.column], cur.row);
    }
  }
}
