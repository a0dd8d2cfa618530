/**
Row-major matrices in flat buffers, sums over real sequences, and the one
property of the exponential the kernels rely on. Reals stand for the source's
floating-point numbers.
 */
module Matrices {

  /** Positive and strictly increasing; nothing else about exp is used. */
  ghost predicate IsExp(exp: real -> real) {
    && (forall x :: exp(x) > 0.0)
    && (forall x, y | x < y :: exp(x) < exp(y))
  }

  function Sum(s: seq<real>): real {
    if s == [] then 0.0 else Sum(s[..|s| - 1]) + s[|s| - 1]
  }

  lemma {:induction false} SumPush(s: seq<real>, x: real)
    ensures Sum(s + [x]) == Sum(s) + x
  {
    assert (s + [x])[..|s|] == s;
  }

  lemma {:induction false} SumAppend(s: seq<real>, t: seq<real>)
    ensures Sum(s + t) == Sum(s) + Sum(t)
  {
    if t == [] {
      assert s + t == s;
    } else {
      SumAppend(s, t[..|t| - 1]);
      assert (s + t)[..|s + t| - 1] == s + t[..|t| - 1];
    }
  }

  lemma {:induction false} SumPositive(s: seq<real>)
    requires forall i | 0 <= i < |s| :: s[i] >= 0.0
    ensures Sum(s) >= 0.0
    ensures forall i | 0 <= i < |s| :: s[i] <= Sum(s)
  {
    if s != [] {
      SumPositive(s[..|s| - 1]);
      assert forall i | 0 <= i < |s| - 1 :: s[i] == s[..|s| - 1][i];
    }
  }

  /** Every entry divided by the same number. */
  function Scaled(s: seq<real>, d: real): (r: seq<real>)
    requires d != 0.0
    ensures |r| == |s|
  {
    seq(|s|, i requires 0 <= i < |s| => s[i] / d)
  }

  lemma {:induction false} SumScaled(s: seq<real>, d: real)
    requires d != 0.0
    ensures Sum(Scaled(s, d)) == Sum(s) / d
  {
    if s != [] {
      SumScaled(s[..|s| - 1], d);
      assert Scaled(s, d)[..|s| - 1] == Scaled(s[..|s| - 1], d);
    }
  }

  /** The cell of row r and column h lies inside the buffer. */
  lemma {:induction false} CellBound(rows: nat, width: nat, r: nat, h: nat)
    requires r < rows && h < width
    ensures 0 <= r * width + h < rows * width
  {
    assert (r + 1) * width <= rows * width;
  }

  /** Different cells have different places. */
  lemma {:induction false} CellsDiffer(width: nat, r: nat, h: nat, r': nat, h': nat)
    requires h < width && h' < width
    requires r * width + h == r' * width + h'
    ensures r == r' && h == h'
  {
    assert r + 1 <= r' ==> (r + 1) * width <= r' * width;
    assert r' + 1 <= r ==> (r' + 1) * width <= r * width;
  }

  function Cell(values: seq<real>, rows: nat, width: nat, r: nat, h: nat): real
    requires |values| == rows * width && r < rows && h < width
  {
    CellBound(rows, width, r, h);
    values[r * width + h]
  }

  function Row(values: seq<real>, rows: nat, width: nat, r: nat): (row: seq<real>)
    requires |values| == rows * width && r < rows
    ensures |row| == width
  {
    seq(width, h requires 0 <= h < width => Cell(values, rows, width, r, h))
  }

  function Column(values: seq<real>, rows: nat, width: nat, h: nat): (column: seq<real>)
    requires |values| == rows * width && h < width
    ensures |column| == rows
  {
    seq(rows, r requires 0 <= r < rows => Cell(values, rows, width, r, h))
  }

  function Dot(x: seq<real>, y: seq<real>, n: nat): real
    requires n <= |x| && n <= |y|
  {
    if n == 0 then 0.0 else Dot(x, y, n - 1) + x[n - 1] * y[n - 1]
  }

  /** A row times a matrix: the inner loops of the router and of the experts. */
  function Product(x: seq<real>, matrix: seq<real>, width: nat): (r: seq<real>)
    requires |matrix| == |x| * width
    ensures |r| == width
  {
    seq(width, h requires 0 <= h < width => Dot(x, Column(matrix, |x|, width, h), |x|))
  }

  method DotColumn(x: seq<real>, matrix: seq<real>, width: nat, h: nat) returns (dot: real)
    requires |matrix| == |x| * width && h < width
    ensures dot == Product(x, matrix, width)[h]
  {
    dot := 0.0;
    for i := 0 to |x|
      invariant dot == Dot(x, Column(matrix, |x|, width, h), i)
    {
      CellBound(|x|, width, i, h);
      dot := dot + x[i] * matrix[i * width + h];
    }
  }
}
