/** Row-major flattening, dot products and one-hot rows: the array algebra the modules rely on. */
module Sequences {

  /** True when every row has exactly `n` entries (a matrix with `n` columns). */
  predicate Rectangular<T>(rows: seq<seq<T>>, n: nat)
  {
    forall i :: 0 <= i < |rows| ==> |rows[i]| == n
  }

  /** Row-major concatenation of rows (numpy's `flatten` / `np.concatenate`). */
  function Concat<T>(rows: seq<seq<T>>): seq<T>
  {
    if rows == [] then [] else rows[0] + Concat(rows[1..])
  }

  lemma {:induction false} ConcatLength<T>(rows: seq<seq<T>>, n: nat)
    requires Rectangular(rows, n)
    ensures |Concat(rows)| == |rows| * n
  {
    if rows != [] {
      ConcatLength(rows[1..], n);
      assert |rows| * n == n + (|rows| - 1) * n;
    }
  }

  /** Entry `j` of row `i` sits at flat index `i * n + j`. */
  lemma {:induction false} ConcatAt<T>(rows: seq<seq<T>>, n: nat, i: nat, j: nat)
    requires Rectangular(rows, n)
    requires i < |rows| && j < n
    ensures |Concat(rows)| == |rows| * n
    ensures i * n + j < |rows| * n
    ensures Concat(rows)[i * n + j] == rows[i][j]
  {
    ConcatLength(rows, n);
    IndexBound(i, j, n, |rows|);
    if i > 0 {
      ConcatAt(rows[1..], n, i - 1, j);
      assert i * n + j == n + ((i - 1) * n + j);
    }
  }

  lemma IndexBound(i: nat, j: nat, n: nat, m: nat)
    requires i < m && j < n
    ensures i * n + j < m * n
  {
    assert (i + 1) * n == i * n + n;
    MulMonotone(i + 1, m, n);
  }

  lemma {:induction false} MulMonotone(a: nat, b: nat, n: nat)
    requires a <= b
    ensures a * n <= b * n
  {
    if a < b {
      MulMonotone(a, b - 1, n);
      assert b * n == (b - 1) * n + n;
    }
  }

  lemma {:induction false} ConcatAppend<T>(a: seq<seq<T>>, b: seq<seq<T>>)
    ensures Concat(a + b) == Concat(a) + Concat(b)
  {
    if a == [] {
      assert a + b == b;
    } else {
      assert (a + b)[1..] == a[1..] + b;
      ConcatAppend(a[1..], b);
    }
  }

  /** Growing a prefix of rows by one row appends that row to the flat vector. */
  lemma ConcatPrefixStep<T>(rows: seq<seq<T>>, i: nat)
    requires i < |rows|
    ensures Concat(rows[..i + 1]) == Concat(rows[..i]) + rows[i]
  {
    assert rows[..i + 1] == rows[..i] + [rows[i]];
    ConcatAppend(rows[..i], [rows[i]]);
    assert Concat([rows[i]]) == rows[i] + Concat([]);
  }

  /** A vector of `n` zeros (numpy's `np.zeros(n)`). */
  function Zeros(n: nat): (r: seq<real>)
    ensures |r| == n
    ensures forall i :: 0 <= i < n ==> r[i] == 0.0
  {
    seq(n, _ => 0.0)
  }

  /** Elementwise sum of two vectors of equal length. */
  function Add(a: seq<real>, b: seq<real>): (r: seq<real>)
    requires |a| == |b|
    ensures |r| == |a|
    ensures forall i :: 0 <= i < |r| ==> r[i] == a[i] + b[i]
  {
    seq(|a|, i requires 0 <= i < |a| => a[i] + b[i])
  }

  function Dot(u: seq<real>, v: seq<real>): real
    requires |u| == |v|
    decreases |u|
  {
    if |u| == 0 then 0.0 else u[0] * v[0] + Dot(u[1..], v[1..])
  }

  /** The row with a single 1 at column `c` and zeros elsewhere. */
  predicate IsOneHot(u: seq<real>, c: nat)
  {
    c < |u| && forall j :: 0 <= j < |u| ==> u[j] == (if j == c then 1.0 else 0.0)
  }

  lemma {:induction false} DotZeros(u: seq<real>, v: seq<real>)
    requires |u| == |v|
    requires forall j :: 0 <= j < |u| ==> u[j] == 0.0
    ensures Dot(u, v) == 0.0
  {
    if |u| > 0 {
      DotZeros(u[1..], v[1..]);
    }
  }

  /** A one-hot row picks out exactly one entry of the vector it multiplies. */
  lemma {:induction false} DotOneHot(u: seq<real>, v: seq<real>, c: nat)
    requires |u| == |v|
    requires IsOneHot(u, c)
    ensures Dot(u, v) == v[c]
  {
    if c == 0 {
      DotZeros(u[1..], v[1..]);
    } else {
      DotOneHot(u[1..], v[1..], c - 1);
    }
  }

  /** Column `c` of a matrix given by its rows. */
  function Column(m: seq<seq<real>>, w: nat, c: nat): (col: seq<real>)
    requires Rectangular(m, w) && c < w
    ensures |col| == |m|
    ensures forall i :: 0 <= i < |m| ==> col[i] == m[i][c]
  {
    seq(|m|, i requires 0 <= i < |m| => m[i][c])
  }

  /** Matrix product `a * b` of an `|a| x |b|` matrix and a `|b| x w` matrix (numpy's `np.matmul`). */
  function MatMul(a: seq<seq<real>>, b: seq<seq<real>>, w: nat): (p: seq<seq<real>>)
    requires Rectangular(a, |b|) && Rectangular(b, w)
    ensures |p| == |a| && Rectangular(p, w)
  {
    seq(|a|, i requires 0 <= i < |a| =>
      seq(w, c requires 0 <= c < w => Dot(a[i], Column(b, w, c))))
  }

  /** Matrix-vector product `a * v`. */
  function MatVec(a: seq<seq<real>>, v: seq<real>): (p: seq<real>)
    requires Rectangular(a, |v|)
    ensures |p| == |a|
  {
    seq(|a|, i requires 0 <= i < |a| => Dot(a[i], v))
  }
}
