/** Sparse matrices in coordinate (COO) format, as scipy.sparse.coo_matrix
    holds them: a shape and three parallel sequences (values, row indices,
    column indices). A coordinate may be stored more than once; reading the
    matrix sums every value stored at a coordinate. */
module Coo {

  datatype Matrix = Matrix(nrows: nat, ncols: nat, data: seq<real>, row: seq<nat>, col: seq<nat>)

  /** One value, one row index and one column index per stored entry. */
  predicate WellFormed(m: Matrix)
  {
    |m.data| == |m.row| == |m.col|
  }

  /** Every stored entry lies inside the shape. */
  predicate Valid(m: Matrix)
  {
    && WellFormed(m)
    && (forall k :: 0 <= k < |m.row| ==> m.row[k] < m.nrows)
    && (forall k :: 0 <= k < |m.col| ==> m.col[k] < m.ncols)
  }

  /** No two stored entries share a coordinate. */
  predicate DistinctCoordinates(m: Matrix)
    requires WellFormed(m)
  {
    forall p, q :: 0 <= p < q < |m.row| ==> m.row[p] != m.row[q] || m.col[p] != m.col[q]
  }

  /** The sum of the values stored at (i, j). */
  function SumAt(data: seq<real>, row: seq<nat>, col: seq<nat>, i: nat, j: nat): real
    requires |data| == |row| == |col|
  {
    SumTo(data, row, col, |data|, i, j)
  }

  /** The sum of the values stored at (i, j) among the first n entries. */
  function SumTo(data: seq<real>, row: seq<nat>, col: seq<nat>, n: nat, i: nat, j: nat): real
    requires n <= |data| == |row| == |col|
  {
    if n == 0 then 0.0
    else SumTo(data, row, col, n - 1, i, j) + (if row[n - 1] == i && col[n - 1] == j then data[n - 1] else 0.0)
  }

  /** The entry (i, j) of the dense matrix that m stands for. */
  function Value(m: Matrix, i: nat, j: nat): real
    requires WellFormed(m)
  {
    SumAt(m.data, m.row, m.col, i, j)
  }

  function Ones(n: nat): seq<real>
  {
    seq(n, _ => 1.0)
  }

  /** How many stored entries sit at (i, j). */
  function Multiplicity(m: Matrix, i: nat, j: nat): real
    requires WellFormed(m)
  {
    SumAt(Ones(|m.row|), m.row, m.col, i, j)
  }

  /** An index vector plus a scalar, as numpy broadcasts `row + off`. */
  function Offset(s: seq<nat>, off: nat): seq<nat>
  {
    seq(|s|, k requires 0 <= k < |s| => s[k] + off)
  }

  /** The first index of block a when blocks are m wide. */
  function Times(a: nat, m: nat): nat
  {
    a * m
  }

  /** k copies of the index vector s, copy i shifted by (first + i) * m. */
  function Stack(s: seq<nat>, k: nat, first: nat, m: nat): seq<nat>
  {
    if k == 0 then [] else Stack(s, k - 1, first, m) + Offset(s, Times(first + k - 1, m))
  }

  /** k copies of the value vector s. */
  function Repeat(s: seq<real>, k: nat): seq<real>
  {
    if k == 0 then [] else Repeat(s, k - 1) + s
  }

  // ---------------------------------------------------------------------
  // Arithmetic on block coordinates

  /** A later block starts at least one block further on. */
  lemma {:induction false} TimesGap(a: nat, b: nat, m: nat)
    requires a < b
    ensures Times(a, m) + m <= Times(b, m)
  {
    if a < b - 1 {
      TimesGap(a, b - 1, m);
    }
    assert (b - 1) * m + m == b * m;
  }

  /** A coordinate Times(a, m) + x with x < m lies in block a and in no other. */
  lemma BlockApart(a: nat, b: nat, m: nat, x: nat)
    requires x < m
    ensures a != b ==> Times(a, m) + x < Times(b, m) || Times(a, m) + x >= Times(b, m) + m
  {
    if a < b {
      TimesGap(a, b, m);
    } else if b < a {
      TimesGap(b, a, m);
    }
  }

  /** Every index splits into its block and its place inside the block. */
  lemma BlockOf(i: nat, m: nat)
    requires m > 0
    ensures i % m < m && i == Times(i / m, m) + i % m
  {
  }

  // ---------------------------------------------------------------------
  // Lengths and bounds of stacked copies

  lemma {:induction false} StackLength(s: seq<nat>, k: nat, first: nat, m: nat)
    ensures |Stack(s, k, first, m)| == Times(k, |s|)
  {
    if k > 0 {
      StackLength(s, k - 1, first, m);
    }
  }

  lemma {:induction false} RepeatLength(s: seq<real>, k: nat)
    ensures |Repeat(s, k)| == Times(k, |s|)
  {
    if k > 0 {
      RepeatLength(s, k - 1);
    }
  }

  /** The first copy of a stack that starts at block 0 is not shifted. */
  lemma StackFirst(s: seq<nat>, m: nat)
    ensures Stack(s, 1, 0, m) == s
  {
    assert Offset(s, Times(0, m)) == s;
    assert Stack(s, 1, 0, m) == [] + Offset(s, Times(0, m));
  }

  lemma RepeatFirst(s: seq<real>)
    ensures Repeat(s, 1) == s
  {
    assert Repeat(s, 1) == [] + s;
  }

  /** One more shifted copy appended at the end. */
  lemma StackGrow(s: seq<nat>, k: nat, first: nat, m: nat)
    ensures Stack(s, k + 1, first, m) == Stack(s, k, first, m) + Offset(s, Times(first + k, m))
  {
  }

  lemma RepeatGrow(s: seq<real>, k: nat)
    ensures Repeat(s, k + 1) == Repeat(s, k) + s
  {
  }

  /** One more shifted copy appended after an arbitrary prefix. */
  lemma StackNext(prefix: seq<nat>, s: seq<nat>, k: nat, first: nat, m: nat)
    ensures prefix + Stack(s, k + 1, first, m) == prefix + Stack(s, k, first, m) + Offset(s, Times(first + k, m))
  {
  }

  /** One more copy appended after an arbitrary prefix. */
  lemma RepeatNext(prefix: seq<real>, s: seq<real>, k: nat)
    ensures prefix + Repeat(s, k + 1) == prefix + Repeat(s, k) + s
  {
  }

  /** Every index in s is below n. */
  predicate Below(s: seq<nat>, n: nat)
  {
    forall p :: 0 <= p < |s| ==> s[p] < n
  }

  lemma BelowAppend(a: seq<nat>, b: seq<nat>, c: seq<nat>, n: nat)
    requires Below(a, n) && Below(b, n) && Below(c, n)
    ensures Below(a + b + c, n)
  {
    forall p | 0 <= p < |a + b + c|
      ensures (a + b + c)[p] < n
    {
      if p >= |a| + |b| {
        assert (a + b + c)[p] == c[p - |a| - |b|];
      } else if p >= |a| {
        assert (a + b + c)[p] == b[p - |a|];
      }
    }
  }

  /** Every copy i < k of an index vector below m lands below (first + k) * m. */
  lemma {:induction false} StackBound(s: seq<nat>, k: nat, first: nat, m: nat)
    requires Below(s, m)
    ensures Below(Stack(s, k, first, m), Times(first + k, m))
  {
    if k > 0 {
      StackBound(s, k - 1, first, m);
      TimesGap(first + k - 1, first + k, m);
      var prev := Stack(s, k - 1, first, m);
      var last := Offset(s, Times(first + k - 1, m));
      forall p | 0 <= p < |prev + last|
        ensures (prev + last)[p] < Times(first + k, m)
      {
        if p >= |prev| {
          assert (prev + last)[p] == s[p - |prev|] + Times(first + k - 1, m);
        }
      }
    }
  }

  lemma OnesAppend(a: nat, b: nat)
    ensures Ones(a) + Ones(b) == Ones(a + b)
  {
  }

  lemma {:induction false} RepeatOnes(n: nat, k: nat)
    ensures Repeat(Ones(n), k) == Ones(Times(k, n))
  {
    if k > 0 {
      RepeatOnes(n, k - 1);
      OnesAppend(Times(k - 1, n), n);
    }
  }

  // ---------------------------------------------------------------------
  // Reading a sum at a coordinate

  /** Entries appended after the first n do not change the first n's sum. */
  lemma {:induction false} SumToPrefix(d1: seq<real>, r1: seq<nat>, c1: seq<nat>,
                                       d2: seq<real>, r2: seq<nat>, c2: seq<nat>, n: nat, i: nat, j: nat)
    requires |d1| == |r1| == |c1| && |d2| == |r2| == |c2| && n <= |d1|
    ensures SumTo(d1 + d2, r1 + r2, c1 + c2, n, i, j) == SumTo(d1, r1, c1, n, i, j)
  {
    if n > 0 {
      SumToPrefix(d1, r1, c1, d2, r2, c2, n - 1, i, j);
    }
  }

  lemma {:induction false} SumToAppend(d1: seq<real>, r1: seq<nat>, c1: seq<nat>,
                                       d2: seq<real>, r2: seq<nat>, c2: seq<nat>, n: nat, i: nat, j: nat)
    requires |d1| == |r1| == |c1| && |d2| == |r2| == |c2| && n <= |d2|
    ensures SumTo(d1 + d2, r1 + r2, c1 + c2, |d1| + n, i, j) == SumAt(d1, r1, c1, i, j) + SumTo(d2, r2, c2, n, i, j)
  {
    if n == 0 {
      SumToPrefix(d1, r1, c1, d2, r2, c2, |d1|, i, j);
    } else {
      SumToAppend(d1, r1, c1, d2, r2, c2, n - 1, i, j);
    }
  }

  lemma SumAtAppend(d1: seq<real>, r1: seq<nat>, c1: seq<nat>,
                    d2: seq<real>, r2: seq<nat>, c2: seq<nat>, i: nat, j: nat)
    requires |d1| == |r1| == |c1| && |d2| == |r2| == |c2|
    ensures SumAt(d1 + d2, r1 + r2, c1 + c2, i, j) == SumAt(d1, r1, c1, i, j) + SumAt(d2, r2, c2, i, j)
  {
    SumToAppend(d1, r1, c1, d2, r2, c2, |d2|, i, j);
  }

  /** Summation over three listings laid end to end. */
  lemma SumOfThree(d1: seq<real>, r1: seq<nat>, c1: seq<nat>, d2: seq<real>, r2: seq<nat>, c2: seq<nat>,
                   d3: seq<real>, r3: seq<nat>, c3: seq<nat>, i: nat, j: nat)
    requires |d1| == |r1| == |c1| && |d2| == |r2| == |c2| && |d3| == |r3| == |c3|
    ensures SumAt(d1 + d2 + d3, r1 + r2 + r3, c1 + c2 + c3, i, j)
         == SumAt(d1, r1, c1, i, j) + SumAt(d2, r2, c2, i, j) + SumAt(d3, r3, c3, i, j)
  {
    SumAtAppend(d1, r1, c1, d2, r2, c2, i, j);
    SumAtAppend(d1 + d2, r1 + r2, c1 + c2, d3, r3, c3, i, j);
  }

  lemma {:induction false} SumToAbsent(data: seq<real>, row: seq<nat>, col: seq<nat>, n: nat, i: nat, j: nat)
    requires n <= |data| == |row| == |col|
    requires forall k :: 0 <= k < n ==> row[k] != i || col[k] != j
    ensures SumTo(data, row, col, n, i, j) == 0.0
  {
    if n > 0 {
      SumToAbsent(data, row, col, n - 1, i, j);
    }
  }

  /** Nothing stored at (i, j) reads as zero. */
  lemma SumAtAbsent(data: seq<real>, row: seq<nat>, col: seq<nat>, i: nat, j: nat)
    requires |data| == |row| == |col|
    requires forall k :: 0 <= k < |row| ==> row[k] != i || col[k] != j
    ensures SumAt(data, row, col, i, j) == 0.0
  {
    SumToAbsent(data, row, col, |data|, i, j);
  }

  lemma {:induction false} SumToUnique(data: seq<real>, row: seq<nat>, col: seq<nat>, n: nat, k: nat)
    requires n <= |data| == |row| == |col| && k < n
    requires forall p, q :: 0 <= p < q < |row| ==> row[p] != row[q] || col[p] != col[q]
    ensures SumTo(data, row, col, n, row[k], col[k]) == data[k]
  {
    if k == n - 1 {
      SumToAbsent(data, row, col, n - 1, row[k], col[k]);
    } else {
      SumToUnique(data, row, col, n - 1, k);
    }
  }

  /** With distinct coordinates, (row[k], col[k]) reads as exactly data[k]. */
  lemma SumAtUnique(data: seq<real>, row: seq<nat>, col: seq<nat>, k: nat)
    requires |data| == |row| == |col| && k < |data|
    requires forall p, q :: 0 <= p < q < |row| ==> row[p] != row[q] || col[p] != col[q]
    ensures SumAt(data, row, col, row[k], col[k]) == data[k]
  {
    SumToUnique(data, row, col, |data|, k);
  }

  lemma {:induction false} SumToOffset(data: seq<real>, row: seq<nat>, col: seq<nat>, dr: nat, dc: nat,
                                       n: nat, i: nat, j: nat)
    requires n <= |data| == |row| == |col|
    ensures SumTo(data, Offset(row, dr), Offset(col, dc), n, i, j)
         == if i >= dr && j >= dc then SumTo(data, row, col, n, i - dr, j - dc) else 0.0
  {
    if n > 0 {
      SumToOffset(data, row, col, dr, dc, n - 1, i, j);
    }
  }

  /** Shifting every index shifts the coordinate that is read. */
  lemma SumAtOffset(data: seq<real>, row: seq<nat>, col: seq<nat>, dr: nat, dc: nat, i: nat, j: nat)
    requires |data| == |row| == |col|
    ensures SumAt(data, Offset(row, dr), Offset(col, dc), i, j)
         == if i >= dr && j >= dc then SumAt(data, row, col, i - dr, j - dc) else 0.0
  {
    SumToOffset(data, row, col, dr, dc, |data|, i, j);
  }

  /** Reading a block shifted by (dr, dc) at (i, j), where i - dr and j - dc
      either fall on (li, lj) or lie outside the block in some direction. */
  lemma ShiftedBlockSum(data: seq<real>, row: seq<nat>, col: seq<nat>, m: nat, dr: nat, dc: nat,
                        i: nat, j: nat, li: nat, lj: nat, here: bool)
    requires |data| == |row| == |col|
    requires forall k :: 0 <= k < |row| ==> row[k] < m && col[k] < m
    requires here ==> i == dr + li && j == dc + lj
    requires !here ==> i < dr || j < dc || i >= dr + m || j >= dc + m
    ensures SumAt(data, Offset(row, dr), Offset(col, dc), i, j)
         == if here then SumAt(data, row, col, li, lj) else 0.0
  {
    SumAtOffset(data, row, col, dr, dc, i, j);
    if !here && i >= dr && j >= dc {
      SumAtAbsent(data, row, col, i - dr, j - dc);
    }
  }

  /** A copy of an m-by-m block placed at block position (ob, oc) contributes
      to the coordinate (bi*m + li, bj*m + lj) only when (bi, bj) == (ob, oc). */
  lemma CopySum(data: seq<real>, row: seq<nat>, col: seq<nat>, m: nat, ob: nat, oc: nat,
                bi: nat, bj: nat, li: nat, lj: nat)
    requires |data| == |row| == |col|
    requires forall k :: 0 <= k < |row| ==> row[k] < m && col[k] < m
    requires li < m && lj < m
    ensures SumAt(data, Offset(row, Times(ob, m)), Offset(col, Times(oc, m)), Times(bi, m) + li, Times(bj, m) + lj)
         == if bi == ob && bj == oc then SumAt(data, row, col, li, lj) else 0.0
  {
    var here := bi == ob && bj == oc;
    var dr, dc, i, j := Times(ob, m), Times(oc, m), Times(bi, m) + li, Times(bj, m) + lj;
    assert !here ==> i < dr || j < dc || i >= dr + m || j >= dc + m by {
      BlockApart(bi, ob, m, li);
      BlockApart(bj, oc, m, lj);
    }
    ShiftedBlockSum(data, row, col, m, dr, dc, i, j, li, lj, here);
  }

  /** The k stacked copies of a block, copy i at block position (fr + i, fc + i),
      read at (bi*m + li, bj*m + lj): the block's own (li, lj) when that block
      position is one of the copies, zero otherwise. */
  lemma {:induction false} StackSum(data: seq<real>, row: seq<nat>, col: seq<nat>, k: nat, fr: nat, fc: nat, m: nat,
                                    bi: nat, bj: nat, li: nat, lj: nat)
    requires |data| == |row| == |col|
    requires forall t :: 0 <= t < |row| ==> row[t] < m && col[t] < m
    requires li < m && lj < m
    ensures |Repeat(data, k)| == |Stack(row, k, fr, m)| == |Stack(col, k, fc, m)|
    ensures SumAt(Repeat(data, k), Stack(row, k, fr, m), Stack(col, k, fc, m), Times(bi, m) + li, Times(bj, m) + lj)
         == if fr <= bi < fr + k && fc <= bj && bi - fr == bj - fc then SumAt(data, row, col, li, lj) else 0.0
  {
    var R, C := Times(bi, m) + li, Times(bj, m) + lj;
    RepeatLength(data, k);
    StackLength(row, k, fr, m);
    StackLength(col, k, fc, m);
    if k > 0 {
      var d0, r0, c0 := Repeat(data, k - 1), Stack(row, k - 1, fr, m), Stack(col, k - 1, fc, m);
      var r1, c1 := Offset(row, Times(fr + k - 1, m)), Offset(col, Times(fc + k - 1, m));
      var here := SumAt(data, row, col, li, lj);
      assert |d0| == |r0| == |c0| by {
        RepeatLength(data, k - 1);
        StackLength(row, k - 1, fr, m);
        StackLength(col, k - 1, fc, m);
      }
      var before := SumAt(d0, r0, c0, R, C);
      var last := SumAt(data, r1, c1, R, C);
      assert before == if fr <= bi < fr + k - 1 && fc <= bj && bi - fr == bj - fc then here else 0.0 by {
        StackSum(data, row, col, k - 1, fr, fc, m, bi, bj, li, lj);
      }
      assert last == if bi == fr + k - 1 && bj == fc + k - 1 then here else 0.0 by {
        CopySum(data, row, col, m, fr + k - 1, fc + k - 1, bi, bj, li, lj);
      }
      assert SumAt(Repeat(data, k), Stack(row, k, fr, m), Stack(col, k, fc, m), R, C) == before + last by {
        assert Repeat(data, k) == d0 + data;
        assert Stack(row, k, fr, m) == r0 + r1;
        assert Stack(col, k, fc, m) == c0 + c1;
        SumAtAppend(d0, r0, c0, data, r1, c1, R, C);
      }
      CombineCopies(bi, bj, fr, fc, k, before, last, here);
    }
  }

  lemma CombineCopies(bi: nat, bj: nat, fr: nat, fc: nat, k: nat, before: real, last: real, here: real)
    requires k > 0
    requires before == if fr <= bi < fr + k - 1 && fc <= bj && bi - fr == bj - fc then here else 0.0
    requires last == if bi == fr + k - 1 && bj == fc + k - 1 then here else 0.0
    ensures before + last == if fr <= bi < fr + k && fc <= bj && bi - fr == bj - fc then here else 0.0
  {
  }

  // ---------------------------------------------------------------------
  // Multiplicity and distinct coordinates

  lemma {:induction false} AtMostOnce(row: seq<nat>, col: seq<nat>, n: nat, i: nat, j: nat)
    requires n <= |row| == |col|
    requires forall p, q :: 0 <= p < q < |row| ==> row[p] != row[q] || col[p] != col[q]
    ensures SumTo(Ones(|row|), row, col, n, i, j) <= 1.0
  {
    if n > 0 {
      if row[n - 1] == i && col[n - 1] == j {
        SumToAbsent(Ones(|row|), row, col, n - 1, i, j);
      } else {
        AtMostOnce(row, col, n - 1, i, j);
      }
    }
  }

  /** Two entries p < q at the same coordinate are both counted. */
  lemma {:induction false} CountsBoth(row: seq<nat>, col: seq<nat>, p: nat, q: nat, n: nat)
    requires n <= |row| == |col| && p < q < |row|
    ensures row[p] == row[q] && col[p] == col[q] ==>
      SumTo(Ones(|row|), row, col, n, row[p], col[p]) >= (if p < n then 1.0 else 0.0) + (if q < n then 1.0 else 0.0)
  {
    if n > 0 {
      CountsBoth(row, col, p, q, n - 1);
    }
  }

  /** Distinct coordinates is the same as every coordinate stored at most once. */
  lemma DistinctIffAtMostOnce(m: Matrix)
    requires WellFormed(m)
    ensures DistinctCoordinates(m) <==> forall i: nat, j: nat :: Multiplicity(m, i, j) <= 1.0
  {
    if DistinctCoordinates(m) {
      forall i: nat, j: nat ensures Multiplicity(m, i, j) <= 1.0 {
        AtMostOnce(m.row, m.col, |m.row|, i, j);
      }
    }
    if forall i: nat, j: nat :: Multiplicity(m, i, j) <= 1.0 {
      forall p, q | 0 <= p < q < |m.row| ensures m.row[p] != m.row[q] || m.col[p] != m.col[q] {
        CountsBoth(m.row, m.col, p, q, |m.row|);
        assert Multiplicity(m, m.row[p], m.col[p]) <= 1.0;
      }
    }
  }

  /** In a valid matrix nothing is read outside the shape. */
  lemma OutsideIsZero(m: Matrix, i: nat, j: nat)
    requires Valid(m) && (i >= m.nrows || j >= m.ncols)
    ensures Value(m, i, j) == 0.0 && Multiplicity(m, i, j) == 0.0
  {
    SumAtAbsent(m.data, m.row, m.col, i, j);
    SumAtAbsent(Ones(|m.row|), m.row, m.col, i, j);
  }

  /** A matrix of one stored entry reads that value there and zero elsewhere. */
  lemma SingleEntry(nr: nat, nc: nat, v: real, a: nat, b: nat, i: nat, j: nat)
    ensures Value(Matrix(nr, nc, [v], [a], [b]), i, j) == if i == a && j == b then v else 0.0
  {
    assert SumTo([v], [a], [b], 1, i, j) == SumTo([v], [a], [b], 0, i, j) + (if a == i && b == j then v else 0.0);
  }
}
