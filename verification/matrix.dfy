/** The minimal matrix the network is built from. src/matrix.ts is not part of this model:
    this module gives the few operations the network and the crossover use, on a value
    type with the same three fields (`rows`, `cols`, `data`). */
module Matrices {

  datatype Matrix = Matrix(rows: nat, cols: nat, data: seq<seq<real>>)

  /** `d` has exactly `rows` rows of exactly `cols` entries each. */
  predicate IsGrid(d: seq<seq<real>>, rows: nat, cols: nat)
  {
    |d| == rows && forall i :: 0 <= i < |d| ==> |d[i]| == cols
  }

  /** The data agrees with the declared shape. */
  predicate Valid(m: Matrix)
  {
    IsGrid(m.data, m.rows, m.cols)
  }

  predicate SameShape(a: Matrix, b: Matrix)
  {
    a.rows == b.rows && a.cols == b.cols
  }

  /** `new Matrix(rows, cols)`: every entry 0. */
  function Zero(rows: nat, cols: nat): (m: Matrix)
    ensures Valid(m) && m.rows == rows && m.cols == cols
  {
    Matrix(rows, cols, seq(rows, _ => seq(cols, _ => 0.0)))
  }

  /** `m.set(v)`: every entry becomes v. */
  function Fill(m: Matrix, v: real): (r: Matrix)
    ensures Valid(r) && SameShape(r, m)
  {
    Matrix(m.rows, m.cols, seq(m.rows, _ => seq(m.cols, _ => v)))
  }

  /** `a.add(b)` for a matrix b: elementwise sum. */
  function Add(a: Matrix, b: Matrix): (r: Matrix)
    requires Valid(a) && Valid(b) && SameShape(a, b)
    ensures Valid(r) && SameShape(r, a)
  {
    Matrix(a.rows, a.cols, seq(a.rows, i requires 0 <= i < a.rows =>
      seq(a.cols, j requires 0 <= j < a.cols => a.data[i][j] + b.data[i][j])))
  }

  /** `m.multiply(k)` for a number k: every entry scaled by k. */
  function Scale(m: Matrix, k: real): (r: Matrix)
    requires Valid(m)
    ensures Valid(r) && SameShape(r, m)
  {
    Matrix(m.rows, m.cols, seq(m.rows, i requires 0 <= i < m.rows =>
      seq(m.cols, j requires 0 <= j < m.cols => m.data[i][j] * k)))
  }

  /** `m.map(f)`: f applied to every entry. */
  function Map(m: Matrix, f: real -> real): (r: Matrix)
    requires Valid(m)
    ensures Valid(r) && SameShape(r, m)
  {
    Matrix(m.rows, m.cols, seq(m.rows, i requires 0 <= i < m.rows =>
      seq(m.cols, j requires 0 <= j < m.cols => f(m.data[i][j]))))
  }

  /** The dot product of two equally long vectors. */
  function Dot(u: seq<real>, v: seq<real>): real
    requires |u| == |v|
  {
    if |u| == 0 then 0.0 else u[0] * v[0] + Dot(u[1..], v[1..])
  }

  function Column(m: Matrix, j: nat): (c: seq<real>)
    requires Valid(m) && j < m.cols
    ensures |c| == m.rows
  {
    seq(m.rows, k requires 0 <= k < m.rows => m.data[k][j])
  }

  /** `Matrix.multiply(a, b)`: the matrix product, a fresh rows(a) x cols(b) matrix. */
  function Product(a: Matrix, b: Matrix): (r: Matrix)
    requires Valid(a) && Valid(b) && a.cols == b.rows
    ensures Valid(r) && r.rows == a.rows && r.cols == b.cols
  {
    Matrix(a.rows, b.cols, seq(a.rows, i requires 0 <= i < a.rows =>
      seq(b.cols, j requires 0 <= j < b.cols => Dot(a.data[i], Column(b, j)))))
  }

  /** `Matrix.fromArray(v)`: v as a column vector. */
  function FromArray(v: seq<real>): (m: Matrix)
    ensures Valid(m) && m.rows == |v| && m.cols == 1
  {
    Matrix(|v|, 1, seq(|v|, i requires 0 <= i < |v| => [v[i]]))
  }

  /** The rows of a grid laid end to end. */
  function Flatten(d: seq<seq<real>>): seq<real>
  {
    if |d| == 0 then [] else d[0] + Flatten(d[1..])
  }

  /** `m.toArray()`: the entries in row-major order. */
  function ToArray(m: Matrix): seq<real>
  {
    Flatten(m.data)
  }

  /** Reading a column vector back gives its only column. */
  lemma {:induction false} FlattenColumn(d: seq<seq<real>>)
    requires IsGrid(d, |d|, 1)
    ensures |Flatten(d)| == |d|
    ensures forall i :: 0 <= i < |d| ==> Flatten(d)[i] == d[i][0]
  {
    if |d| > 0 {
      assert IsGrid(d[1..], |d[1..]|, 1) by {
        forall i | 0 <= i < |d[1..]| ensures |d[1..][i]| == 1 {
          assert d[1..][i] == d[i + 1];
        }
      }
      FlattenColumn(d[1..]);
      assert d[0] == [d[0][0]];
    }
  }

  /** fromArray and toArray are inverse on vectors. */
  lemma ToArrayFromArray(v: seq<real>)
    ensures ToArray(FromArray(v)) == v
  {
    FlattenColumn(FromArray(v).data);
  }

  /** Elementwise addition is commutative. */
  lemma AddCommutes(a: Matrix, b: Matrix)
    requires Valid(a) && Valid(b) && SameShape(a, b)
    ensures Add(a, b) == Add(b, a)
  {
    assert Add(a, b).data == Add(b, a).data by {
      forall i | 0 <= i < a.rows ensures Add(a, b).data[i] == Add(b, a).data[i] {
      }
    }
  }
}
