/** The two-dimensional kernels the engine borrows from its array library,
    restated over row-major sequences: element access, matrix product and
    transpose (`reversed_axes` of a 2-D array). */
module Matrices {

  lemma MulMono(a: int, b: int, c: int)
    requires a <= b && 0 <= c
    ensures a * c <= b * c
  {
    assert b * c - a * c == (b - a) * c;
  }

  /** Euclidean division is determined by quotient and remainder. */
  lemma DivUnique(x: int, d: int, q: int, r: int)
    requires 0 < d && 0 <= r < d && x == q * d + r
    ensures x / d == q && x % d == r
  {
    var q', r' := x / d, x % d;
    assert q' * d + r' == x;
    assert (q - q') * d == r' - r;
    if q > q' {
      MulMono(1, q - q', d);
    } else if q < q' {
      MulMono(1, q' - q, d);
    }
  }

  /** Row `i`, column `j` of a `rows` x `cols` matrix sits at `i * cols + j`. */
  lemma FlatIndex(i: int, j: int, rows: int, cols: int)
    requires 0 <= i < rows && 0 <= j < cols
    ensures 0 <= i * cols + j < rows * cols
    ensures (i * cols + j) / cols == i && (i * cols + j) % cols == j
  {
    MulMono(0, i, cols);
    MulMono(i + 1, rows, cols);
    DivUnique(i * cols + j, cols, i, j);
  }

  /** Every flat position of a `rows` x `cols` matrix names one row and column. */
  lemma FlatSplit(idx: int, rows: nat, cols: nat)
    requires 0 <= idx < rows * cols
    ensures 0 < cols && 0 <= idx / cols < rows && 0 <= idx % cols < cols
    ensures idx == (idx / cols) * cols + idx % cols
  {
    if cols == 0 {
      assert false;
    }
    if idx / cols >= rows {
      MulMono(rows, idx / cols, cols);
    }
    if idx / cols < 0 {
      MulMono(idx / cols, -1, cols);
    }
  }

  /** Element (i, j) of a row-major `rows` x `cols` matrix. */
  function At(a: seq<int>, rows: nat, cols: nat, i: nat, j: nat): (v: int)
    requires |a| == rows * cols && i < rows && j < cols
  {
    FlatIndex(i, j, rows, cols);
    a[i * cols + j]
  }

  function Dot(u: seq<int>, v: seq<int>): (d: int)
    requires |u| == |v|
  {
    if |u| == 0 then 0 else u[0] * v[0] + Dot(u[1..], v[1..])
  }

  function RowOf(a: seq<int>, rows: nat, cols: nat, i: nat): (r: seq<int>)
    requires |a| == rows * cols && i < rows
    ensures |r| == cols
  {
    seq(cols, q requires 0 <= q < cols => At(a, rows, cols, i, q))
  }

  function ColOf(a: seq<int>, rows: nat, cols: nat, j: nat): (r: seq<int>)
    requires |a| == rows * cols && j < cols
    ensures |r| == rows
  {
    seq(rows, p requires 0 <= p < rows => At(a, rows, cols, p, j))
  }

  /** Product of an `m` x `k` matrix and a `k` x `n` matrix. */
  function MatMul(a: seq<int>, b: seq<int>, m: nat, k: nat, n: nat): (c: seq<int>)
    requires |a| == m * k && |b| == k * n
    ensures |c| == m * n
  {
    seq(m * n, idx requires 0 <= idx < m * n =>
      FlatSplit(idx, m, n);
      Dot(RowOf(a, m, k, idx / n), ColOf(b, k, n, idx % n)))
  }

  /** Transpose of a `rows` x `cols` matrix, a `cols` x `rows` matrix. */
  function Transpose(a: seq<int>, rows: nat, cols: nat): (r: seq<int>)
    requires |a| == rows * cols
    ensures |r| == cols * rows
  {
    seq(cols * rows, idx requires 0 <= idx < cols * rows =>
      FlatSplit(idx, cols, rows);
      At(a, rows, cols, idx % rows, idx / rows))
  }

  /** Entry (i, j) of a product is row i of the left factor dotted with
      column j of the right factor. */
  lemma MatMulAt(a: seq<int>, b: seq<int>, m: nat, k: nat, n: nat, i: nat, j: nat)
    requires |a| == m * k && |b| == k * n && i < m && j < n
    ensures At(MatMul(a, b, m, k, n), m, n, i, j) == Dot(RowOf(a, m, k, i), ColOf(b, k, n, j))
  {
    FlatIndex(i, j, m, n);
  }

  lemma TransposeAt(a: seq<int>, rows: nat, cols: nat, i: nat, j: nat)
    requires |a| == rows * cols && i < rows && j < cols
    ensures At(Transpose(a, rows, cols), cols, rows, j, i) == At(a, rows, cols, i, j)
  {
    FlatIndex(j, i, cols, rows);
  }

  /** Transposing twice gives back the matrix. */
  lemma TransposeTwice(a: seq<int>, rows: nat, cols: nat)
    requires |a| == rows * cols
    ensures Transpose(Transpose(a, rows, cols), cols, rows) == a
  {
    var t := Transpose(a, rows, cols);
    var tt := Transpose(t, cols, rows);
    forall idx | 0 <= idx < |a|
      ensures tt[idx] == a[idx]
    {
      FlatSplit(idx, rows, cols);
      var i, j := idx / cols, idx % cols;
      FlatIndex(i, j, rows, cols);
      TransposeAt(t, cols, rows, j, i);
      TransposeAt(a, rows, cols, i, j);
    }
  }

  /** A row of the transpose is a column of the matrix. */
  lemma RowOfTranspose(a: seq<int>, rows: nat, cols: nat, j: nat)
    requires |a| == rows * cols && j < cols
    ensures RowOf(Transpose(a, rows, cols), cols, rows, j) == ColOf(a, rows, cols, j)
  {
    forall p | 0 <= p < rows
      ensures RowOf(Transpose(a, rows, cols), cols, rows, j)[p] == ColOf(a, rows, cols, j)[p]
    {
      TransposeAt(a, rows, cols, p, j);
    }
  }

  /** A column of the transpose is a row of the matrix. */
  lemma ColOfTranspose(a: seq<int>, rows: nat, cols: nat, i: nat)
    requires |a| == rows * cols && i < rows
    ensures ColOf(Transpose(a, rows, cols), cols, rows, i) == RowOf(a, rows, cols, i)
  {
    forall q | 0 <= q < cols
      ensures ColOf(Transpose(a, rows, cols), cols, rows, i)[q] == RowOf(a, rows, cols, i)[q]
    {
      TransposeAt(a, rows, cols, i, q);
    }
  }

  lemma {:induction false} DotComm(u: seq<int>, v: seq<int>)
    requires |u| == |v|
    ensures Dot(u, v) == Dot(v, u)
  {
    if |u| > 0 {
      DotComm(u[1..], v[1..]);
    }
  }

  /** (a b)^T == b^T a^T. */
  lemma MatMulTranspose(a: seq<int>, b: seq<int>, m: nat, k: nat, n: nat)
    requires |a| == m * k && |b| == k * n
    ensures Transpose(MatMul(a, b, m, k, n), m, n)
         == MatMul(Transpose(b, k, n), Transpose(a, m, k), n, k, m)
  {
    var c := MatMul(a, b, m, k, n);
    var lhs := Transpose(c, m, n);
    var rhs := MatMul(Transpose(b, k, n), Transpose(a, m, k), n, k, m);
    forall idx | 0 <= idx < n * m
      ensures lhs[idx] == rhs[idx]
    {
      FlatSplit(idx, n, m);
      var j, i := idx / m, idx % m;
      FlatIndex(j, i, n, m);
      TransposeAt(c, m, n, i, j);
      MatMulAt(a, b, m, k, n, i, j);
      MatMulAt(Transpose(b, k, n), Transpose(a, m, k), n, k, m, j, i);
      RowOfTranspose(b, k, n, j);
      ColOfTranspose(a, m, k, i);
      DotComm(RowOf(a, m, k, i), ColOf(b, k, n, j));
    }
  }
}
