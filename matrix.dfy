/**
 * Square matrices of reals (src/core/matrix.rs): an N-by-N grid, zero when
 * created, read and written cell by cell in place, and compared cell by cell
 * at the loose tier. `Matrix2`, `Matrix3` and `Matrix4` are `Matrix(2)`,
 * `Matrix(3)` and `Matrix(4)`.
 */
module Matrices {
  import opened Float

  class Matrix {
    /** The size, a type parameter in the source. */
    const N: nat
    /** The cells, indexed `[row, col]`. */
    const data: array2<real>

    ghost predicate Valid() {
      data.Length0 == N && data.Length1 == N
    }

    /** The cells as the source stores them, `[[f64; N]; N]`: `N` rows of `N` values. */
    ghost function Cells(): (rows: seq<seq<real>>)
      reads data
      requires Valid()
      ensures |rows| == N && forall i :: 0 <= i < N ==> |rows[i]| == N
    {
      seq(N, i requires 0 <= i < N reads data => seq(N, j requires 0 <= j < N reads data => data[i, j]))
    }

    /** `new`: every cell 0. */
    constructor (n: nat)
      ensures Valid() && N == n && fresh(data)
      ensures Cells() == Zeros(n)
    {
      N := n;
      data := new real[n, n]((r, c) => 0.0);
      new;
      forall i | 0 <= i < n
        ensures Cells()[i] == Zeros(n)[i]
      {
        assert forall j :: 0 <= j < n ==> Cells()[i][j] == Zeros(n)[i][j];
      }
    }

    /** `Index`: the cell at `(r, c)`; outside the grid the source panics. */
    function At(r: nat, c: nat): (v: real)
      reads data
      requires Valid() && r < N && c < N
      ensures v == Cells()[r][c]
    {
      data[r, c]
    }

    /** `IndexMut` followed by an assignment: cell `(r, c)` becomes `v`, no other cell changes. */
    method Set(r: nat, c: nat, v: real)
      requires Valid() && r < N && c < N
      modifies data
      ensures Cells() == old(Cells())[r := old(Cells())[r][c := v]]
      ensures At(r, c) == v
      ensures forall i, j :: 0 <= i < N && 0 <= j < N && (i != r || j != c) ==> At(i, j) == old(At(i, j))
    {
      ghost var before := Cells();
      data[r, c] := v;
      forall i | 0 <= i < N
        ensures Cells()[i] == before[r := before[r][c := v]][i]
      {
        assert forall j :: 0 <= j < N ==> Cells()[i][j] == before[r := before[r][c := v]][i][j];
      }
    }

    /** Cell `(r, c)` of this matrix and of `other` agree at the loose tier. */
    predicate CellsClose(other: Matrix, r: nat, c: nat)
      reads data, other.data
      requires Valid() && other.Valid() && other.N == N && r < N && c < N
    {
      ApproxEqLowPrecision(At(r, c), other.At(r, c))
    }

    /** What `PartialEq` decides: every pair of corresponding cells is close. */
    predicate ApproxEquals(other: Matrix)
      reads data, other.data
      requires Valid() && other.Valid() && other.N == N
      ensures ApproxEquals(other) <==>
        forall r, c :: 0 <= r < N && 0 <= c < N ==> -EpsilonLow < Cells()[r][c] - other.Cells()[r][c] < EpsilonLow
    {
      assert forall r, c :: 0 <= r < N && 0 <= c < N ==>
        (CellsClose(other, r, c) <==> -EpsilonLow < Cells()[r][c] - other.Cells()[r][c] < EpsilonLow);
      forall r, c :: 0 <= r < N && 0 <= c < N ==> CellsClose(other, r, c)
    }

    /**
     * `PartialEq::eq`: scans the rows in order, each row column by column, and
     * answers false at the first cell that is not close. When it answers false,
     * `(row, col)` is that cell: it is not close, and every cell before it in
     * row-major order is.
     */
    method Equals(other: Matrix) returns (eq: bool, ghost row: nat, ghost col: nat)
      requires Valid() && other.Valid() && other.N == N
      ensures eq <==> ApproxEquals(other)
      ensures !eq ==> row < N && col < N && !CellsClose(other, row, col)
      ensures !eq ==> forall r, c :: 0 <= r < N && 0 <= c < N && (r < row || (r == row && c < col)) ==> CellsClose(other, r, c)
    {
      var x := 0;
      while x < N
        invariant 0 <= x <= N
        invariant forall r, c :: 0 <= r < x && 0 <= c < N ==> CellsClose(other, r, c)
      {
        var y := 0;
        while y < N
          invariant 0 <= y <= N
          invariant forall c :: 0 <= c < y ==> CellsClose(other, x, c)
        {
          if !ApproxEqLowPrecision(data[x, y], other.data[x, y]) {
            assert !CellsClose(other, x, y);
            return false, x, y;
          }
          y := y + 1;
        }
        x := x + 1;
      }
      return true, 0, 0;
    }
  }

  /** The contents of `Matrix::new()` at size `n`. */
  function Zeros(n: nat): (rows: seq<seq<real>>)
    ensures |rows| == n && forall i :: 0 <= i < n ==> rows[i] == seq(n, _ => 0.0)
  {
    seq(n, _ => seq(n, _ => 0.0))
  }

  /** Matrix equality is reflexive. */
  lemma ApproxEqualsReflexive(m: Matrix)
    requires m.Valid()
    ensures m.ApproxEquals(m)
  {
  }

  /** Matrix equality is symmetric, as the scalar relation is. */
  lemma ApproxEqualsSymmetric(m: Matrix, n: Matrix)
    requires m.Valid() && n.Valid() && m.N == n.N
    ensures m.ApproxEquals(n) <==> n.ApproxEquals(m)
  {
    forall r, c | 0 <= r < m.N && 0 <= c < m.N
      ensures m.CellsClose(n, r, c) <==> n.CellsClose(m, r, c)
    {
      ApproxEqSymmetric(m.At(r, c), n.At(r, c));
    }
  }

  /** The test `create_matrix_2`: every cell is written and reads back. */
  method CreateMatrix2() returns (m: Matrix)
    ensures m.Valid() && m.N == 2
    ensures m.At(0, 0) == -3.0 && m.At(0, 1) == 5.0 && m.At(1, 0) == 1.0 && m.At(1, 1) == -2.0
  {
    m := new Matrix(2);
    m.Set(0, 0, -3.0);
    m.Set(0, 1, 5.0);
    m.Set(1, 0, 1.0);
    m.Set(1, 1, -2.0);
  }

  /** The cells `create_matrix_3` never writes. */
  predicate Unwritten3(r: nat, c: nat) {
    (r == 0 && c == 2) || (r == 2 && c == 0)
  }

  /** The test `create_matrix_3`: the written cells read back, the cells never written stay 0. */
  method CreateMatrix3() returns (m: Matrix)
    ensures m.Valid() && m.N == 3
    ensures m.At(0, 0) == -3.0 && m.At(0, 1) == 5.0 && m.At(1, 0) == 1.0 && m.At(1, 1) == -2.0
    ensures m.At(1, 2) == -7.0 && m.At(2, 1) == 1.0 && m.At(2, 2) == 1.0
    ensures forall r, c :: 0 <= r < 3 && 0 <= c < 3 && Unwritten3(r, c) ==> m.At(r, c) == 0.0
  {
    m := new Matrix(3);
    m.Set(0, 0, -3.0);
    m.Set(0, 1, 5.0);
    m.Set(1, 0, 1.0);
    m.Set(1, 1, -2.0);
    m.Set(1, 2, -7.0);
    m.Set(2, 1, 1.0);
    m.Set(2, 2, 1.0);
  }

  /** The cells `create_matrix_4` never writes: (0,1), (0,2), (1,1), (1,3), (2,0), (2,1), (2,3), (3,1) and (3,3). */
  predicate Unwritten4(r: nat, c: nat) {
    (r == 0 && (c == 1 || c == 2)) || (r == 1 && (c == 1 || c == 3)) || (r == 2 && c != 2) || (r == 3 && (c == 1 || c == 3))
  }

  /** The test `create_matrix_4`: the written cells read back, the nine cells never written stay 0. */
  method CreateMatrix4() returns (m: Matrix)
    ensures m.Valid() && m.N == 4
    ensures m.At(0, 0) == 1.0 && m.At(0, 3) == 4.0 && m.At(1, 0) == 5.5 && m.At(1, 2) == 7.5
    ensures m.At(2, 2) == 11.0 && m.At(3, 0) == 13.5 && m.At(3, 2) == 15.5
    ensures forall r, c :: 0 <= r < 4 && 0 <= c < 4 && Unwritten4(r, c) ==> m.At(r, c) == 0.0
  {
    m := new Matrix(4);
    m.Set(0, 0, 1.0);
    m.Set(0, 3, 4.0);
    m.Set(1, 0, 5.5);
    m.Set(1, 2, 7.5);
    m.Set(2, 2, 11.0);
    m.Set(3, 0, 13.5);
    m.Set(3, 2, 15.5);
  }
}
