/** State-space model of a transmission line as a cascade of pi-sections, with
    the frequency dependence of the series impedance represented by M
    parallel RL rungs. The state equation is X' = A X + B u, u being the
    voltage at the sending end; the receiving end is open.

    One section contributes M + 1 states: the first rung current, the
    currents of rungs 1 .. M-1, and the shunt capacitor voltage. A section's
    A is (M+1)x(M+1) and is nonzero only on row 0, column 0 and the diagonal;
    the full A tiles it block-tridiagonally over the N sections. */
module PiCascade {
  import opened Coo

  /** Why a line cannot be constructed. */
  datatype LineError =
    | NonIntegerSectionCount   // TypeError: the section count is not a whole number
    | NonPositiveSectionCount  // ValueError: the section count is zero or negative
    | RungCountMismatch        // ValueError: resistance and inductance arrays differ in size

  datatype Result<T> = Ok(value: T) | Err(error: LineError)

  function Sum(s: seq<real>): real
  {
    if s == [] then 0.0 else Sum(s[..|s| - 1]) + s[|s| - 1]
  }

  /** Every element of s times f, as numpy multiplies an array by a scalar. */
  function Scaled(s: seq<real>, f: real): seq<real>
  {
    seq(|s|, k requires 0 <= k < |s| => s[k] * f)
  }

  predicate IsWhole(x: real)
  {
    x == x.Floor as real
  }

  /** What the rungs of a section need: at least one, as many inductances as
      resistances, and no inductance that is zero. */
  predicate RungParams(r: seq<real>, l: seq<real>)
  {
    && |r| >= 1 && |l| == |r|
    && forall i :: 0 <= i < |l| ==> l[i] != 0.0
  }

  /** What building the matrices of a section assumes of the lumped
      parameters: the rungs as above, and no division by zero in the shunt. */
  predicate SectionParams(g: real, c: real, r: seq<real>, l: seq<real>)
  {
    RungParams(r, l) && g != 0.0 && c != 0.0
  }

  // ---------------------------------------------------------------------
  // One pi-section

  /** The main diagonal of a section's A, top to bottom. */
  function DiagonalValues(g: real, c: real, r: seq<real>, l: seq<real>): seq<real>
    requires SectionParams(g, c, r, l)
  {
    [-Sum(r) / l[0]] + seq(|r| - 1, k requires 0 <= k < |r| - 1 => -(r[k + 1] / l[k + 1])) + [-c / g]
  }

  /** Column 0 of a section's A below the diagonal. */
  function FirstColumnValues(c: real, r: seq<real>, l: seq<real>): seq<real>
    requires RungParams(r, l) && c != 0.0
  {
    seq(|r| - 1, k requires 0 <= k < |r| - 1 => r[k + 1] / l[k + 1]) + [2.0 / c]
  }

  /** Row 0 of a section's A right of the diagonal. */
  function FirstRowValues(r: seq<real>, l: seq<real>): seq<real>
    requires RungParams(r, l)
  {
    seq(|r| - 1, k requires 0 <= k < |r| - 1 => r[k + 1] / l[0]) + [-1.0 / l[0]]
  }

  /** Row indices of a section's entries: the diagonal, then column 0, then row 0. */
  function SectionRows(rungs: nat): seq<nat>
  {
    seq(3 * rungs + 1, k requires 0 <= k < 3 * rungs + 1 =>
      if k <= rungs then k else if k <= 2 * rungs then k - rungs else 0)
  }

  /** Column indices of a section's entries, in the same order. */
  function SectionCols(rungs: nat): seq<nat>
  {
    seq(3 * rungs + 1, k requires 0 <= k < 3 * rungs + 1 =>
      if k <= rungs then k else if k <= 2 * rungs then 0 else k - 2 * rungs)
  }

  /** The state matrix of one section. */
  function SectionA(g: real, c: real, r: seq<real>, l: seq<real>): (a: Matrix)
    requires SectionParams(g, c, r, l)
    ensures Valid(a) && a.nrows == a.ncols == |r| + 1
    ensures |a.data| == 3 * |r| + 1
  {
    Matrix(|r| + 1, |r| + 1,
           DiagonalValues(g, c, r, l) + FirstColumnValues(c, r, l) + FirstRowValues(r, l),
           SectionRows(|r|), SectionCols(|r|))
  }

  /** The input matrix of one section: the last value of row 0, negated. */
  function SectionB(r: seq<real>, l: seq<real>): (b: Matrix)
    requires RungParams(r, l)
    ensures Valid(b) && b.nrows == |r| + 1 && b.ncols == 1 && |b.data| == 1
  {
    Matrix(|r| + 1, 1, [-FirstRowValues(r, l)[|r| - 1]], [0], [0])
  }

  // ---------------------------------------------------------------------
  // Block-tridiagonal tiling and the whole line

  /** count copies of ad on the block diagonal, count - 1 copies of up just
      above it and count - 1 copies of lo just below it, listed in that order;
      a single block is returned as it is. */
  function BlockTridiagonal(ad: Matrix, up: Matrix, lo: Matrix, count: nat): (t: Matrix)
    requires WellFormed(ad) && WellFormed(up) && WellFormed(lo) && count >= 1
    ensures WellFormed(t)
  {
    if count == 1 then ad
    else
      var m := ad.nrows;
      RepeatLength(ad.data, count); RepeatLength(up.data, count - 1); RepeatLength(lo.data, count - 1);
      StackLength(ad.row, count, 0, m); StackLength(up.row, count - 1, 0, m); StackLength(lo.row, count - 1, 1, m);
      StackLength(ad.col, count, 0, m); StackLength(up.col, count - 1, 1, m); StackLength(lo.col, count - 1, 0, m);
      Matrix(count * m, count * m,
             Repeat(ad.data, count) + Repeat(up.data, count - 1) + Repeat(lo.data, count - 1),
             Stack(ad.row, count, 0, m) + Stack(up.row, count - 1, 0, m) + Stack(lo.row, count - 1, 1, m),
             Stack(ad.col, count, 0, m) + Stack(up.col, count - 1, 1, m) + Stack(lo.col, count - 1, 0, m))
  }

  /** The block coupling a section's capacitor voltage into the next section:
      -1/C at (last row, column 0). */
  function UpperCoupling(c: real, dim: nat): Matrix
    requires c != 0.0 && dim >= 1
  {
    Matrix(dim, dim, [-1.0 / c], [dim - 1], [0])
  }

  /** The block coupling a section's first rung current into the previous
      section: 1/L[0] at (row 0, last column). */
  function LowerCoupling(l0: real, dim: nat): Matrix
    requires l0 != 0.0 && dim >= 1
  {
    Matrix(dim, dim, [1.0 / l0], [0], [dim - 1])
  }

  /** The state matrix of a line of n sections. */
  function LineA(g: real, c: real, r: seq<real>, l: seq<real>, n: nat): (a: Matrix)
    requires SectionParams(g, c, r, l) && n >= 1
    ensures WellFormed(a)
  {
    BlockTridiagonal(SectionA(g, c, r, l), UpperCoupling(c, |r| + 1), LowerCoupling(l[0], |r| + 1), n)
  }

  /** The input matrix of a line: the section's single entry, in a column as
      tall as the line's A. */
  function LineB(g: real, c: real, r: seq<real>, l: seq<real>, n: nat): Matrix
    requires SectionParams(g, c, r, l) && n >= 1
  {
    var b := SectionB(r, l);
    Matrix(LineA(g, c, r, l, n).nrows, 1, b.data, b.row, b.col)
  }

  // ---------------------------------------------------------------------
  // What a section's matrices hold

  /** Entry (i, j) of a section's A read off the state equations: the rung
      currents decay through their own R/L and all feed back into the first
      rung's equation; the capacitor voltage is driven by the first rung
      current (2/C) and drives it back (-1/L[0]). */
  function SectionEntry(g: real, c: real, r: seq<real>, l: seq<real>, i: nat, j: nat): real
    requires SectionParams(g, c, r, l)
  {
    var m := |r|;
    if i > m || j > m then 0.0
    else if i == 0 && j == 0 then -Sum(r) / l[0]
    else if i == j then (if i < m then -r[i] / l[i] else -c / g)
    else if j == 0 then (if i < m then r[i] / l[i] else 2.0 / c)
    else if i == 0 then (if j < m then r[j] / l[0] else -1.0 / l[0])
    else 0.0
  }

  /** A section stores each coordinate once, and only on row 0, column 0 or
      the diagonal. */
  lemma SectionPattern(g: real, c: real, r: seq<real>, l: seq<real>)
    requires SectionParams(g, c, r, l)
    ensures DistinctCoordinates(SectionA(g, c, r, l))
    ensures var a := SectionA(g, c, r, l);
      forall k :: 0 <= k < |a.row| ==> a.row[k] == 0 || a.col[k] == 0 || a.row[k] == a.col[k]
  {
    var rows, cols := SectionRows(|r|), SectionCols(|r|);
    forall p, q | 0 <= p < q < |rows|
      ensures rows[p] != rows[q] || cols[p] != cols[q]
    {
    }
  }

  /** The sparse A of a section stands for exactly the dense matrix of its
      state equations. */
  lemma SectionValue(g: real, c: real, r: seq<real>, l: seq<real>, i: nat, j: nat)
    requires SectionParams(g, c, r, l)
    ensures Value(SectionA(g, c, r, l), i, j) == SectionEntry(g, c, r, l, i, j)
  {
    SectionPattern(g, c, r, l);
    var a := SectionA(g, c, r, l);
    var m := |r|;
    if i <= m && j <= m && (i == j || i == 0 || j == 0) {
      var k: nat := if i == j then i else if j == 0 then m + i else 2 * m + j;
      assert a.row[k] == i && a.col[k] == j;
      SumAtUnique(a.data, a.row, a.col, k);
    } else {
      SumAtAbsent(a.data, a.row, a.col, i, j);
    }
  }

  /** The sending-end voltage enters only the first rung's equation, with
      weight 1/L[0]. */
  lemma SectionInputValue(r: seq<real>, l: seq<real>, i: nat, j: nat)
    requires RungParams(r, l)
    ensures Value(SectionB(r, l), i, j) == if i == 0 && j == 0 then 1.0 / l[0] else 0.0
  {
    SingleEntry(|r| + 1, 1, -FirstRowValues(r, l)[|r| - 1], 0, 0, i, j);
  }

  // ---------------------------------------------------------------------
  // What the tiling holds

  /** Three valid square blocks of one common size. */
  predicate SquareBlocks(ad: Matrix, up: Matrix, lo: Matrix)
  {
    && Valid(ad) && Valid(up) && Valid(lo) && ad.nrows >= 1
    && ad.ncols == ad.nrows
    && up.nrows == ad.nrows && up.ncols == ad.nrows
    && lo.nrows == ad.nrows && lo.ncols == ad.nrows
  }

  /** The entry lists of the tiling: the diagonal copies, then the upper
      ones, then the lower ones. */
  function TiledRows(ad: Matrix, up: Matrix, lo: Matrix, count: nat): seq<nat>
    requires count >= 1
  {
    var m := ad.nrows;
    Stack(ad.row, count, 0, m) + Stack(up.row, count - 1, 0, m) + Stack(lo.row, count - 1, 1, m)
  }

  function TiledCols(ad: Matrix, up: Matrix, lo: Matrix, count: nat): seq<nat>
    requires count >= 1
  {
    var m := ad.nrows;
    Stack(ad.col, count, 0, m) + Stack(up.col, count - 1, 1, m) + Stack(lo.col, count - 1, 0, m)
  }

  lemma TiledLayout(ad: Matrix, up: Matrix, lo: Matrix, count: nat)
    requires WellFormed(ad) && WellFormed(up) && WellFormed(lo) && count > 1
    ensures var t := BlockTridiagonal(ad, up, lo, count);
      && t.nrows == t.ncols == count * ad.nrows
      && t.data == Repeat(ad.data, count) + Repeat(up.data, count - 1) + Repeat(lo.data, count - 1)
      && t.row == TiledRows(ad, up, lo, count) && t.col == TiledCols(ad, up, lo, count)
  {
  }

  /** Every stored entry of b lies in the top-left m-by-m block. */
  predicate InBlock(b: Matrix, m: nat)
  {
    forall t :: 0 <= t < |b.row| && t < |b.col| ==> b.row[t] < m && b.col[t] < m
  }

  /** The copies of the diagonal block contribute only on diagonal blocks. */
  lemma DiagonalCopies(data: seq<real>, row: seq<nat>, col: seq<nat>, count: nat, m: nat,
                       bi: nat, bj: nat, li: nat, lj: nat)
    requires |data| == |row| == |col|
    requires forall t :: 0 <= t < |row| ==> row[t] < m && col[t] < m
    requires li < m && lj < m
    ensures |Repeat(data, count)| == |Stack(row, count, 0, m)| == |Stack(col, count, 0, m)|
    ensures SumAt(Repeat(data, count), Stack(row, count, 0, m), Stack(col, count, 0, m),
                  Times(bi, m) + li, Times(bj, m) + lj)
         == if bi == bj && bi < count then SumAt(data, row, col, li, lj) else 0.0
  {
    StackSum(data, row, col, count, 0, 0, m, bi, bj, li, lj);
  }

  /** The copies of the upper block contribute only just above the diagonal. */
  lemma UpperCopies(data: seq<real>, row: seq<nat>, col: seq<nat>, count: nat, m: nat,
                    bi: nat, bj: nat, li: nat, lj: nat)
    requires |data| == |row| == |col| && count >= 1
    requires forall t :: 0 <= t < |row| ==> row[t] < m && col[t] < m
    requires li < m && lj < m
    ensures |Repeat(data, count - 1)| == |Stack(row, count - 1, 0, m)| == |Stack(col, count - 1, 1, m)|
    ensures SumAt(Repeat(data, count - 1), Stack(row, count - 1, 0, m), Stack(col, count - 1, 1, m),
                  Times(bi, m) + li, Times(bj, m) + lj)
         == if bj == bi + 1 && bj < count then SumAt(data, row, col, li, lj) else 0.0
  {
    StackSum(data, row, col, count - 1, 0, 1, m, bi, bj, li, lj);
  }

  /** The copies of the lower block contribute only just below the diagonal. */
  lemma LowerCopies(data: seq<real>, row: seq<nat>, col: seq<nat>, count: nat, m: nat,
                    bi: nat, bj: nat, li: nat, lj: nat)
    requires |data| == |row| == |col| && count >= 1
    requires forall t :: 0 <= t < |row| ==> row[t] < m && col[t] < m
    requires li < m && lj < m
    ensures |Repeat(data, count - 1)| == |Stack(row, count - 1, 1, m)| == |Stack(col, count - 1, 0, m)|
    ensures SumAt(Repeat(data, count - 1), Stack(row, count - 1, 1, m), Stack(col, count - 1, 0, m),
                  Times(bi, m) + li, Times(bj, m) + lj)
         == if bi == bj + 1 && bi < count then SumAt(data, row, col, li, lj) else 0.0
  {
    StackSum(data, row, col, count - 1, 1, 0, m, bi, bj, li, lj);
  }

  /** Any vector laid out like the tiling's values, read at block (bi, bj),
      offset (li, lj): the diagonal part when bi == bj, the upper part when
      bj == bi + 1, the lower part when bi == bj + 1. */
  lemma TiledSum(ad: Matrix, up: Matrix, lo: Matrix, count: nat, dA: seq<real>, dU: seq<real>, dL: seq<real>,
                 bi: nat, bj: nat, li: nat, lj: nat)
    requires WellFormed(ad) && WellFormed(up) && WellFormed(lo) && count > 1
    requires InBlock(ad, ad.nrows) && InBlock(up, ad.nrows) && InBlock(lo, ad.nrows)
    requires li < ad.nrows && lj < ad.nrows
    requires |dA| == |ad.data| && |dU| == |up.data| && |dL| == |lo.data|
    ensures var d, rows, cols := Repeat(dA, count) + Repeat(dU, count - 1) + Repeat(dL, count - 1),
                                 TiledRows(ad, up, lo, count), TiledCols(ad, up, lo, count);
      && |d| == |rows| == |cols|
      && SumAt(d, rows, cols, Times(bi, ad.nrows) + li, Times(bj, ad.nrows) + lj)
         == (if bi == bj && bi < count then SumAt(dA, ad.row, ad.col, li, lj) else 0.0)
          + (if bj == bi + 1 && bj < count then SumAt(dU, up.row, up.col, li, lj) else 0.0)
          + (if bi == bj + 1 && bi < count then SumAt(dL, lo.row, lo.col, li, lj) else 0.0)
  {
    var m := ad.nrows;
    DiagonalCopies(dA, ad.row, ad.col, count, m, bi, bj, li, lj);
    UpperCopies(dU, up.row, up.col, count, m, bi, bj, li, lj);
    LowerCopies(dL, lo.row, lo.col, count, m, bi, bj, li, lj);
    SumOfThree(Repeat(dA, count), Stack(ad.row, count, 0, m), Stack(ad.col, count, 0, m),
               Repeat(dU, count - 1), Stack(up.row, count - 1, 0, m), Stack(up.col, count - 1, 1, m),
               Repeat(dL, count - 1), Stack(lo.row, count - 1, 1, m), Stack(lo.col, count - 1, 0, m),
               Times(bi, m) + li, Times(bj, m) + lj);
  }


  /** Every entry of the tiling lies inside count*m by count*m. */
  lemma TiledBelow(ad: Matrix, up: Matrix, lo: Matrix, count: nat)
    requires SquareBlocks(ad, up, lo) && count > 1
    ensures Below(TiledRows(ad, up, lo, count), Times(count, ad.nrows))
    ensures Below(TiledCols(ad, up, lo, count), Times(count, ad.nrows))
  {
    var m := ad.nrows;
    assert Below(ad.row, m) && Below(up.row, m) && Below(lo.row, m);
    assert Below(ad.col, m) && Below(up.col, m) && Below(lo.col, m);
    StackBound(ad.row, count, 0, m); StackBound(up.row, count - 1, 0, m); StackBound(lo.row, count - 1, 1, m);
    StackBound(ad.col, count, 0, m); StackBound(up.col, count - 1, 1, m); StackBound(lo.col, count - 1, 0, m);
    TimesGap(count - 1, count, m);
    BelowAppend(Stack(ad.row, count, 0, m), Stack(up.row, count - 1, 0, m), Stack(lo.row, count - 1, 1, m), Times(count, m));
    BelowAppend(Stack(ad.col, count, 0, m), Stack(up.col, count - 1, 1, m), Stack(lo.col, count - 1, 0, m), Times(count, m));
  }

  /** The tiling is a valid count*m square matrix holding count copies of
      the diagonal block's entries and count - 1 of each coupling block's. */
  lemma TiledShape(ad: Matrix, up: Matrix, lo: Matrix, count: nat)
    requires SquareBlocks(ad, up, lo) && count >= 1
    ensures var t := BlockTridiagonal(ad, up, lo, count);
      Valid(t) && t.nrows == t.ncols == count * ad.nrows
  {
    if count > 1 {
      TiledLayout(ad, up, lo, count);
      TiledBelow(ad, up, lo, count);
    }
  }

  /** The tiling stores count copies of the diagonal block and count - 1 of each coupling block. */
  lemma TiledSize(ad: Matrix, up: Matrix, lo: Matrix, count: nat)
    requires WellFormed(ad) && WellFormed(up) && WellFormed(lo) && count >= 1
    ensures |BlockTridiagonal(ad, up, lo, count).data|
         == count * |ad.data| + (count - 1) * |up.data| + (count - 1) * |lo.data|
  {
    if count > 1 {
      TiledLayout(ad, up, lo, count);
      RepeatLength(ad.data, count); RepeatLength(up.data, count - 1); RepeatLength(lo.data, count - 1);
    }
  }


  /** Reading the tiling at block (bi, bj), offset (li, lj): the diagonal
      block on the diagonal, the upper block just above it, the lower block
      just below it, zero elsewhere. */
  lemma TiledValue(ad: Matrix, up: Matrix, lo: Matrix, count: nat, bi: nat, bj: nat, li: nat, lj: nat)
    requires SquareBlocks(ad, up, lo) && count >= 1
    requires li < ad.nrows && lj < ad.nrows
    ensures Value(BlockTridiagonal(ad, up, lo, count), Times(bi, ad.nrows) + li, Times(bj, ad.nrows) + lj)
         == (if bi == bj && bi < count then Value(ad, li, lj) else 0.0)
          + (if bj == bi + 1 && bj < count then Value(up, li, lj) else 0.0)
          + (if bi == bj + 1 && bi < count then Value(lo, li, lj) else 0.0)
  {
    var m := ad.nrows;
    if count == 1 {
      if bi != 0 || bj != 0 {
        assert Times(bi, m) + li >= m || Times(bj, m) + lj >= m by {
          if bi != 0 { TimesGap(0, bi, m); } else { TimesGap(0, bj, m); }
        }
        OutsideIsZero(ad, Times(bi, m) + li, Times(bj, m) + lj);
      }
    } else {
      TiledSum(ad, up, lo, count, ad.data, up.data, lo.data, bi, bj, li, lj);
    }
  }

  /** The multiplicity of every coordinate of the tiling, in the form TiledSum states it. */
  lemma TiledOnes(ad: Matrix, up: Matrix, lo: Matrix, count: nat)
    requires WellFormed(ad) && WellFormed(up) && WellFormed(lo) && count > 1
    ensures var t := BlockTridiagonal(ad, up, lo, count);
      && t.row == TiledRows(ad, up, lo, count) && t.col == TiledCols(ad, up, lo, count)
      && Ones(|t.row|) == Repeat(Ones(|ad.data|), count) + Repeat(Ones(|up.data|), count - 1)
                          + Repeat(Ones(|lo.data|), count - 1)
  {
    var na, nu, nl := Times(count, |ad.data|), Times(count - 1, |up.data|), Times(count - 1, |lo.data|);
    TiledLayout(ad, up, lo, count);
    RepeatLength(ad.data, count); RepeatLength(up.data, count - 1); RepeatLength(lo.data, count - 1);
    RepeatOnes(|ad.data|, count);
    RepeatOnes(|up.data|, count - 1);
    RepeatOnes(|lo.data|, count - 1);
    OnesAppend(na, nu);
    OnesAppend(na + nu, nl);
  }

  /** One coordinate of a tiling of distinct blocks is stored at most once. */
  lemma TiledMultiplicity(ad: Matrix, up: Matrix, lo: Matrix, count: nat, i: nat, j: nat)
    requires SquareBlocks(ad, up, lo) && count > 1
    requires DistinctCoordinates(ad) && DistinctCoordinates(up) && DistinctCoordinates(lo)
    ensures Multiplicity(BlockTridiagonal(ad, up, lo, count), i, j) <= 1.0
  {
    var m := ad.nrows;
    var bi, li, bj, lj := i / m, i % m, j / m, j % m;
    BlockOf(i, m);
    BlockOf(j, m);
    TiledOnes(ad, up, lo, count);
    TiledSum(ad, up, lo, count, Ones(|ad.data|), Ones(|up.data|), Ones(|lo.data|), bi, bj, li, lj);
    assert Multiplicity(ad, li, lj) <= 1.0 by { DistinctIffAtMostOnce(ad); }
    assert Multiplicity(up, li, lj) <= 1.0 by { DistinctIffAtMostOnce(up); }
    assert Multiplicity(lo, li, lj) <= 1.0 by { DistinctIffAtMostOnce(lo); }
  }

  /** Distinct coordinates in every block give distinct coordinates in the
      tiling. */
  lemma TiledDistinct(ad: Matrix, up: Matrix, lo: Matrix, count: nat)
    requires SquareBlocks(ad, up, lo) && count >= 1
    requires DistinctCoordinates(ad) && DistinctCoordinates(up) && DistinctCoordinates(lo)
    ensures DistinctCoordinates(BlockTridiagonal(ad, up, lo, count))
  {
    if count > 1 {
      forall i: nat, j: nat
        ensures Multiplicity(BlockTridiagonal(ad, up, lo, count), i, j) <= 1.0
      {
        TiledMultiplicity(ad, up, lo, count, i, j);
      }
      DistinctIffAtMostOnce(BlockTridiagonal(ad, up, lo, count));
    }
  }


  // ---------------------------------------------------------------------
  // What the line's matrices hold

  /** Entry (i, j) of the line's A: state i is state i % (M+1) of section
      i / (M+1). Sections couple only to their neighbours: the first rung
      current of the next section discharges this section's capacitor
      (-1/C), and this section's capacitor voltage drives the previous
      section's first rung (1/L[0]). */
  function LineEntry(g: real, c: real, r: seq<real>, l: seq<real>, n: nat, i: nat, j: nat): real
    requires SectionParams(g, c, r, l)
  {
    var d := |r| + 1;
    var bi, li, bj, lj := i / d, i % d, j / d, j % d;
    (if bi == bj && bi < n then SectionEntry(g, c, r, l, li, lj) else 0.0)
    + (if bj == bi + 1 && bj < n && li == |r| && lj == 0 then -1.0 / c else 0.0)
    + (if bi == bj + 1 && bi < n && li == 0 && lj == |r| then 1.0 / l[0] else 0.0)
  }


  /** The line's matrices are valid, A square of the line's order with
      N(3M+1) + 2(N-1) stored entries, B one entry in a column as tall. */
  lemma LineShape(g: real, c: real, r: seq<real>, l: seq<real>, n: nat)
    requires SectionParams(g, c, r, l) && n >= 1
    ensures var a, b := LineA(g, c, r, l, n), LineB(g, c, r, l, n);
      && Valid(a) && a.nrows == a.ncols == n * (|r| + 1)
      && |a.data| == n * (3 * |r| + 1) + 2 * (n - 1)
      && Valid(b) && b.nrows == a.nrows && b.ncols == 1 && |b.data| == 1
  {
    var d := |r| + 1;
    TiledShape(SectionA(g, c, r, l), UpperCoupling(c, d), LowerCoupling(l[0], d), n);
    TiledSize(SectionA(g, c, r, l), UpperCoupling(c, d), LowerCoupling(l[0], d), n);
  }

  /** No coordinate of the line's A is stored twice. */
  lemma LineDistinct(g: real, c: real, r: seq<real>, l: seq<real>, n: nat)
    requires SectionParams(g, c, r, l) && n >= 1
    ensures DistinctCoordinates(LineA(g, c, r, l, n))
  {
    SectionPattern(g, c, r, l);
    TiledDistinct(SectionA(g, c, r, l), UpperCoupling(c, |r| + 1), LowerCoupling(l[0], |r| + 1), n);
  }

  /** The sparse A of the line stands for exactly the dense matrix of the
      cascaded state equations. */
  lemma LineValue(g: real, c: real, r: seq<real>, l: seq<real>, n: nat, i: nat, j: nat)
    requires SectionParams(g, c, r, l) && n >= 1
    ensures Value(LineA(g, c, r, l, n), i, j) == LineEntry(g, c, r, l, n, i, j)
  {
    var d := |r| + 1;
    var ad, up, lo := SectionA(g, c, r, l), UpperCoupling(c, d), LowerCoupling(l[0], d);
    var bi, li, bj, lj := i / d, i % d, j / d, j % d;
    assert i == Times(bi, d) + li && j == Times(bj, d) + lj && li < d && lj < d by {
      BlockOf(i, d);
      BlockOf(j, d);
    }
    TiledValue(ad, up, lo, n, bi, bj, li, lj);
    SectionValue(g, c, r, l, li, lj);
    UpperCouplingValue(c, d, li, lj);
    LowerCouplingValue(l[0], d, li, lj);
  }

  lemma UpperCouplingValue(c: real, d: nat, i: nat, j: nat)
    requires c != 0.0 && d >= 1
    ensures Value(UpperCoupling(c, d), i, j) == if i == d - 1 && j == 0 then -1.0 / c else 0.0
  {
    SingleEntry(d, d, -1.0 / c, d - 1, 0, i, j);
  }

  lemma LowerCouplingValue(l0: real, d: nat, i: nat, j: nat)
    requires l0 != 0.0 && d >= 1
    ensures Value(LowerCoupling(l0, d), i, j) == if i == 0 && j == d - 1 then 1.0 / l0 else 0.0
  {
    SingleEntry(d, d, 1.0 / l0, 0, d - 1, i, j);
  }


  /** The sending-end voltage drives only the first section's first rung. */
  lemma LineInputValue(g: real, c: real, r: seq<real>, l: seq<real>, n: nat, i: nat, j: nat)
    requires SectionParams(g, c, r, l) && n >= 1
    ensures Value(LineB(g, c, r, l, n), i, j) == if i == 0 && j == 0 then 1.0 / l[0] else 0.0
  {
    var b := SectionB(r, l);
    SingleEntry(LineA(g, c, r, l, n).nrows, 1, b.data[0], 0, 0, i, j);
  }

  // ---------------------------------------------------------------------
  // The line object

  class Line {
    const sections: nat           // number of pi-sections N
    const order: nat              // dimension of the state vector
    const sectionLength: real     // length of one section
    const conductance: real       // lumped shunt conductance G of a section
    const capacitance: real       // lumped shunt capacitance C of a section
    const resistance: seq<real>   // lumped rung resistances R[0 .. M-1]
    const inductance: seq<real>   // lumped rung inductances L[0 .. M-1]

    /** What every constructed line satisfies. */
    predicate Valid()
    {
      sections >= 1 && |inductance| == |resistance| && order == (|resistance| + 1) * sections
    }

    /** What assembling the matrices further assumes: at least one rung and
        no zero divisor. */
    predicate WellPosed()
    {
      Valid() && SectionParams(conductance, capacitance, resistance, inductance)
    }

    /** Stores the lumped parameters of an already validated specification. */
    constructor (n: nat, length: real, gd: real, cd: real, rd: seq<real>, ld: seq<real>)
      requires n >= 1 && |rd| == |ld|
      ensures Valid()
      ensures sections == n && order == (|rd| + 1) * n
      ensures sectionLength == length / n as real
      ensures conductance == gd * sectionLength && capacitance == cd * sectionLength
      ensures resistance == Scaled(rd, sectionLength) && inductance == Scaled(ld, sectionLength)
    {
      order := (|rd| + 1) * n;
      sections := n;
      sectionLength := length / n as real;
      conductance := gd * (length / n as real);
      capacitance := cd * (length / n as real);
      resistance := Scaled(rd, length / n as real);
      inductance := Scaled(ld, length / n as real);
    }

    /** Validates the section count and the rung arrays, in that order, and
        builds the line from distributed parameters. */
    static method Create(n: real, length: real, gd: real, cd: real, rd: seq<real>, ld: seq<real>)
      returns (res: Result<Line>)
      ensures !IsWhole(n) ==> res == Err(NonIntegerSectionCount)
      ensures IsWhole(n) && n <= 0.0 ==> res == Err(NonPositiveSectionCount)
      ensures IsWhole(n) && n > 0.0 && |rd| != |ld| ==> res == Err(RungCountMismatch)
      ensures res.Ok? <==> IsWhole(n) && n > 0.0 && |rd| == |ld|
      ensures res.Ok? ==>
        && res.value.Valid()
        && res.value.sections as real == n
        && res.value.order == (|rd| + 1) * res.value.sections
        && res.value.sectionLength == length / n
        && res.value.conductance == gd * (length / n)
        && res.value.capacitance == cd * (length / n)
        && |res.value.resistance| == |rd|
        && (forall i :: 0 <= i < |rd| ==> res.value.resistance[i] == rd[i] * (length / n))
        && (forall i :: 0 <= i < |ld| ==> res.value.inductance[i] == ld[i] * (length / n))
    {
      if !IsWhole(n) {
        return Err(NonIntegerSectionCount);
      }
      if n <= 0.0 {
        return Err(NonPositiveSectionCount);
      }
      if |rd| != |ld| {
        return Err(RungCountMismatch);
      }
      var line := new Line(n.Floor as nat, length, gd, cd, rd, ld);
      return Ok(line);
    }

    /** The (A, B) pair of one pi-section. */
    method SectionSystem() returns (a: Matrix, b: Matrix)
      requires WellPosed()
      ensures a == SectionA(conductance, capacitance, resistance, inductance)
      ensures b == SectionB(resistance, inductance)
    {
      // the value vectors, as numpy computes them element-wise
      var diagonal := DiagonalValues(conductance, capacitance, resistance, inductance);
      var firstColumn := FirstColumnValues(capacitance, resistance, inductance);
      var firstRow := FirstRowValues(resistance, inductance);
      var values := diagonal + firstColumn + firstRow;

      var rowIdx := new nat[|values|];
      var colIdx := new nat[|values|];
      ghost var rowSpec, colSpec := SectionRows(|resistance|), SectionCols(|resistance|);
      assert |diagonal| == |resistance| + 1 && |firstColumn| == |firstRow| == |resistance|;
      var s := |diagonal|;
      for n := 0 to s
        invariant forall k :: 0 <= k < n ==> rowIdx[k] == rowSpec[k] && colIdx[k] == colSpec[k]
      {
        rowIdx[n] := n;
        colIdx[n] := n;
      }
      for n := 0 to |firstColumn|
        invariant forall k :: 0 <= k < s + n ==> rowIdx[k] == rowSpec[k] && colIdx[k] == colSpec[k]
      {
        rowIdx[n + s] := n + 1;
        colIdx[n + s] := 0;
      }
      s := s + |firstColumn|;
      for n := 0 to |firstRow|
        invariant forall k :: 0 <= k < s + n ==> rowIdx[k] == rowSpec[k] && colIdx[k] == colSpec[k]
      {
        rowIdx[n + s] := 0;
        colIdx[n + s] := n + 1;
      }
      var dim := |resistance| + 1;
      assert rowIdx[..] == rowSpec;
      assert colIdx[..] == colSpec;
      a := Matrix(dim, dim, values, rowIdx[..], colIdx[..]);
      b := Matrix(dim, 1, [-firstRow[|firstRow| - 1]], [0], [0]);
    }

    /** Tiles ad into a block-tridiagonal matrix of count x count blocks, with
        up above and lo below the block diagonal, appending shifted copies of
        the index vectors block by block. */
    static method Tridiagonal(ad: Matrix, up: Matrix, lo: Matrix, count: nat) returns (t: Matrix)
      requires WellFormed(ad) && WellFormed(up) && WellFormed(lo) && count >= 1
      ensures t == BlockTridiagonal(ad, up, lo, count)
    {
      if count == 1 {
        return ad;
      }
      var values := ad.data;
      var rows := ad.row;
      var cols := ad.col;
      var m1 := ad.nrows;
      StackFirst(ad.row, m1);
      StackFirst(ad.col, m1);
      RepeatFirst(ad.data);

      // block diagonal
      for n := 1 to count
        invariant values == Repeat(ad.data, n)
        invariant rows == Stack(ad.row, n, 0, m1) && cols == Stack(ad.col, n, 0, m1)
      {
        RepeatGrow(ad.data, n);
        StackGrow(ad.row, n, 0, m1);
        StackGrow(ad.col, n, 0, m1);
        values := values + ad.data;
        var off := Times(n, m1);
        rows := rows + Offset(ad.row, off);
        cols := cols + Offset(ad.col, off);
      }
      ghost var values0, rows0, cols0 := values, rows, cols;

      // blocks above the diagonal
      for n := 1 to count
        invariant values == values0 + Repeat(up.data, n - 1)
        invariant rows == rows0 + Stack(up.row, n - 1, 0, m1)
        invariant cols == cols0 + Stack(up.col, n - 1, 1, m1)
      {
        RepeatNext(values0, up.data, n - 1);
        StackNext(rows0, up.row, n - 1, 0, m1);
        StackNext(cols0, up.col, n - 1, 1, m1);
        values := values + up.data;
        var off1 := Times(n - 1, m1);
        var off2 := Times(n, m1);
        rows := rows + Offset(up.row, off1);
        cols := cols + Offset(up.col, off2);
      }
      ghost var values1, rows1, cols1 := values, rows, cols;

      // blocks below the diagonal
      for n := 1 to count
        invariant values == values1 + Repeat(lo.data, n - 1)
        invariant rows == rows1 + Stack(lo.row, n - 1, 1, m1)
        invariant cols == cols1 + Stack(lo.col, n - 1, 0, m1)
      {
        RepeatNext(values1, lo.data, n - 1);
        StackNext(rows1, lo.row, n - 1, 1, m1);
        StackNext(cols1, lo.col, n - 1, 0, m1);
        values := values + lo.data;
        var off1 := Times(n, m1);
        var off2 := Times(n - 1, m1);
        rows := rows + Offset(lo.row, off1);
        cols := cols + Offset(lo.col, off2);
      }
      t := Matrix(count * m1, count * m1, values, rows, cols);
      TiledLayout(ad, up, lo, count);
    }

    /** The (A, B) pair of the whole line. */
    method StateSpace() returns (a: Matrix, b: Matrix)
      requires WellPosed()
      ensures a == LineA(conductance, capacitance, resistance, inductance, sections)
      ensures b == LineB(conductance, capacitance, resistance, inductance, sections)
      ensures a.nrows == a.ncols == order && b.nrows == order && b.ncols == 1
    {
      var ad, bd := SectionSystem();
      var up := Matrix(ad.nrows, ad.ncols, [-1.0 / capacitance], [ad.nrows - 1], [0]);
      var lo := Matrix(ad.nrows, ad.ncols, [1.0 / inductance[0]], [0], [ad.nrows - 1]);
      var count := sections;
      a := Tridiagonal(ad, up, lo, count);
      b := Matrix(a.nrows, 1, bd.data, bd.row, bd.col);
      LineShape(conductance, capacitance, resistance, inductance, sections);
    }
  }
}
