/** The dense matrix of src/Matrix.cpp: rows x cols doubles.
    A Matrix is a value, as in the C++ code (it is copied on assignment and
    on return). Its entries are held row by row; the C++ class keeps them
    in one row-major buffer, which Data gives back and FromData reads, and
    which is what the binary format and the single-index accessor see.
    The arithmetic operations fill a fresh result entry by entry, which the
    methods below do with the same nested loops. */
module Matrices {
  import opened Base

  datatype Mat = Mat(rows: nat, cols: nat, cells: seq<seq<real>>)

  /** The class invariant: rows rows of cols entries each. */
  type Matrix = m: Mat | |m.cells| == m.rows && (forall i :: 0 <= i < m.rows ==> |m.cells[i]| == m.cols)
    witness Mat(0, 0, [])

  // ---------------------------------------------------------------------
  // Element access
  // ---------------------------------------------------------------------

  /** operator()(row, col) const */
  function At(m: Matrix, i: nat, j: nat): real
    requires i < m.rows && j < m.cols
  {
    m.cells[i][j]
  }

  /** operator()(row, col) used as an lvalue: entry (i, j) becomes v and
      every other entry keeps its value. */
  function Set(m: Matrix, i: nat, j: nat, v: real): (r: Matrix)
    requires i < m.rows && j < m.cols
    ensures r.rows == m.rows && r.cols == m.cols
    ensures forall a: nat, b: nat :: a < m.rows && b < m.cols ==>
              At(r, a, b) == if a == i && b == j then v else At(m, a, b)
  {
    Mat(m.rows, m.cols, m.cells[i := m.cells[i][j := v]])
  }

  /** Row i, as a sequence of its entries. */
  function Row(m: Matrix, i: nat): (r: seq<real>)
    requires i < m.rows
    ensures |r| == m.cols && forall j :: 0 <= j < m.cols ==> r[j] == At(m, i, j)
  {
    m.cells[i]
  }

  /** Two matrices of one shape that agree at every (row, col) are equal. */
  lemma Extensionality(a: Matrix, b: Matrix)
    requires a.rows == b.rows && a.cols == b.cols
    requires forall i: nat, j: nat :: i < a.rows && j < a.cols ==> At(a, i, j) == At(b, i, j)
    ensures a == b
  {
    forall i | 0 <= i < a.rows
      ensures a.cells[i] == b.cells[i]
    {
      forall j | 0 <= j < a.cols
        ensures a.cells[i][j] == b.cells[i][j]
      {
        assert At(a, i, j) == At(b, i, j);
      }
    }
  }

  // ---------------------------------------------------------------------
  // Row-major storage
  // ---------------------------------------------------------------------

  lemma MulMonotone(a: nat, b: nat, c: nat)
    requires a <= b
    ensures a * c <= b * c
  {}

  /** The rows laid end to end. */
  function Flatten(rs: seq<seq<real>>): seq<real>
  {
    if |rs| == 0 then [] else Flatten(rs[..|rs| - 1]) + rs[|rs| - 1]
  }

  lemma {:induction false} FlattenLength(rs: seq<seq<real>>, cols: nat)
    requires forall x :: 0 <= x < |rs| ==> |rs[x]| == cols
    ensures |Flatten(rs)| == |rs| * cols
  {
    if |rs| > 0 {
      FlattenLength(rs[..|rs| - 1], cols);
    }
  }

  /** Entry (a, b) sits at position a * cols + b of the flattened rows. */
  lemma {:induction false} FlattenAt(rs: seq<seq<real>>, cols: nat, a: nat, b: nat)
    requires forall x :: 0 <= x < |rs| ==> |rs[x]| == cols
    requires a < |rs| && b < cols
    ensures |Flatten(rs)| == |rs| * cols
    ensures a * cols + b < |Flatten(rs)| && Flatten(rs)[a * cols + b] == rs[a][b]
  {
    var n := |rs| - 1;
    FlattenLength(rs[..n], cols);
    assert |Flatten(rs)| == n * cols + cols;
    if a < n {
      FlattenAt(rs[..n], cols, a, b);
    } else {
      assert a * cols + b == |Flatten(rs[..n])| + b;
    }
  }

  /** Row and column can be recovered from a row-major position. */
  lemma FlatIndexSplit(k: nat, rows: nat, cols: nat)
    requires k < rows * cols
    ensures cols > 0 && k / cols < rows && k % cols < cols
    ensures k == (k / cols) * cols + k % cols
  {
    if k / cols >= rows {
      MulMonotone(rows, k / cols, cols);
    }
  }

  /** data(): the row-major buffer of the C++ class. */
  function Data(m: Matrix): (d: seq<real>)
    ensures |d| == m.rows * m.cols
  {
    FlattenLength(m.cells, m.cols);
    Flatten(m.cells)
  }

  /** Entry (i, j) is element i * cols + j of the buffer. */
  lemma DataAt(m: Matrix, i: nat, j: nat)
    requires i < m.rows && j < m.cols
    ensures i * m.cols + j < |Data(m)| && Data(m)[i * m.cols + j] == At(m, i, j)
  {
    FlattenAt(m.cells, m.cols, i, j);
  }

  /** The buffer of a row vector is its only row. */
  lemma SingleRowData(m: Matrix)
    requires m.rows == 1
    ensures Data(m) == Row(m, 0)
  {
    assert m.cells[..0] == [];
  }

  function RowSlice(rows: nat, cols: nat, data: seq<real>, i: nat): (r: seq<real>)
    requires |data| == rows * cols && i < rows
    ensures |r| == cols
  {
    MulMonotone(i + 1, rows, cols);
    data[i * cols .. i * cols + cols]
  }

  /** A rows x cols matrix whose row-major buffer is data, as filling
      data() of a fresh Matrix(rows, cols) does. */
  function FromData(rows: nat, cols: nat, data: seq<real>): (m: Matrix)
    requires |data| == rows * cols
    ensures m.rows == rows && m.cols == cols
    ensures Data(m) == data
  {
    var m: Matrix := Mat(rows, cols, seq(rows, i requires 0 <= i < rows => RowSlice(rows, cols, data, i)));
    DataOfRows(m, data);
    m
  }

  lemma DataOfRows(m: Matrix, data: seq<real>)
    requires |data| == m.rows * m.cols
    requires forall i :: 0 <= i < m.rows ==> m.cells[i] == RowSlice(m.rows, m.cols, data, i)
    ensures Data(m) == data
  {
    forall k | 0 <= k < |data|
      ensures Data(m)[k] == data[k]
    {
      FlatIndexSplit(k, m.rows, m.cols);
      DataOfRowsAt(m, data, k / m.cols, k % m.cols);
    }
  }

  lemma DataOfRowsAt(m: Matrix, data: seq<real>, q: nat, r: nat)
    requires |data| == m.rows * m.cols && q < m.rows && r < m.cols
    requires m.cells[q] == RowSlice(m.rows, m.cols, data, q)
    ensures q * m.cols + r < |data| && Data(m)[q * m.cols + r] == data[q * m.cols + r]
  {
    DataAt(m, q, r);
    var start := q * m.cols;
    assert RowSlice(m.rows, m.cols, data, q) == data[start .. start + m.cols];
  }

  /** Reading the buffer back gives the same matrix. */
  lemma FromDataOfData(m: Matrix)
    ensures FromData(m.rows, m.cols, Data(m)) == m
  {
    var back := FromData(m.rows, m.cols, Data(m));
    forall i: nat, j: nat | i < m.rows && j < m.cols
      ensures At(back, i, j) == At(m, i, j)
    {
      DataAt(back, i, j);
      DataAt(m, i, j);
    }
    Extensionality(back, m);
  }

  // ---------------------------------------------------------------------
  // Construction
  // ---------------------------------------------------------------------

  /** Matrix(rows, cols): every entry is 0.0. */
  function Zeros(rows: nat, cols: nat): (z: Matrix)
    ensures z.rows == rows && z.cols == cols
    ensures forall i: nat, j: nat :: i < rows && j < cols ==> At(z, i, j) == 0.0
  {
    Mat(rows, cols, seq(rows, _ => seq(cols, _ => 0.0)))
  }

  /** Matrix(const std::vector<double>&): a 1 x N row vector. */
  function FromVector(values: seq<real>): (m: Matrix)
    ensures m.rows == 1 && m.cols == |values|
    ensures forall j: nat :: j < |values| ==> At(m, 0, j) == values[j]
    ensures Data(m) == values
  {
    FromData(1, |values|, values)
  }

  /** Matrix(const std::vector<std::vector<double>>&): the values are
      pushed onto the row-major buffer one at a time. The C++ code reads
      values[0] without checking that there is one and never checks that
      the rows have equal length, so both are preconditions here. */
  method FromRows(values: seq<seq<real>>) returns (m: Matrix)
    requires |values| > 0
    requires forall i :: 0 <= i < |values| ==> |values[i]| == |values[0]|
    ensures m.rows == |values| && m.cols == |values[0]|
    ensures forall i: nat, j: nat :: i < m.rows && j < m.cols ==> At(m, i, j) == values[i][j]
  {
    var rows, cols := |values|, |values[0]|;
    var data: seq<real> := [];
    for i := 0 to rows
      invariant data == Flatten(values[..i])
    {
      for j := 0 to cols
        invariant data == Flatten(values[..i]) + values[i][..j]
      {
        assert values[i][..j + 1] == values[i][..j] + [values[i][j]];
        data := data + [values[i][j]];
      }
      assert values[..i + 1][..i] == values[..i];
    }
    assert values[..rows] == values;
    FlattenLength(values, cols);
    m := FromData(rows, cols, data);
    forall i: nat, j: nat | i < m.rows && j < m.cols
      ensures At(m, i, j) == values[i][j]
    {
      DataAt(m, i, j);
      FlattenAt(values, cols, i, j);
    }
  }

  /** operator()(col) const: legal only when the matrix has at most one
      row; reads data[col]. The C++ code does not bound-check col. */
  function Get(m: Matrix, col: nat): (r: Result<real>)
    requires m.rows > 1 || col < |Data(m)|
    ensures r.Err? <==> m.rows > 1
    ensures r.Err? ==> r.error == InvalidShape
    ensures r.Ok? ==> m.rows == 1 && col < m.cols && r.value == At(m, 0, col)
  {
    if m.rows > 1 then Err(InvalidShape)
    else
      SingleRowData(m);
      Ok(Data(m)[col])
  }

  /** operator()(col) used as an lvalue: the same as writing entry (0, col). */
  function Put(m: Matrix, col: nat, v: real): (r: Result<Matrix>)
    requires m.rows > 1 || col < |Data(m)|
    ensures r.Err? <==> m.rows > 1
    ensures r.Err? ==> r.error == InvalidShape
    ensures r.Ok? ==> m.rows == 1 && col < m.cols && Data(r.value) == Data(m)[col := v]
    ensures r.Ok? ==> r.value.rows == m.rows && r.value.cols == m.cols
  {
    if m.rows > 1 then Err(InvalidShape)
    else
      var written := Set(m, 0, col, v);
      SingleRowData(m);
      SingleRowData(written);
      Ok(written)
  }

  // ---------------------------------------------------------------------
  // Matrix product
  // ---------------------------------------------------------------------

  /** Sum over k < n of lhs(i, k) * rhs(k, j), accumulated left to right. */
  function Dot(lhs: Matrix, rhs: Matrix, i: nat, j: nat, n: nat): real
    requires lhs.cols == rhs.rows && i < lhs.rows && j < rhs.cols && n <= lhs.cols
  {
    if n == 0 then 0.0 else Dot(lhs, rhs, i, j, n - 1) + At(lhs, i, n - 1) * At(rhs, n - 1, j)
  }

  /** The matrix product, as a value. */
  function Product(lhs: Matrix, rhs: Matrix): (p: Matrix)
    requires lhs.cols == rhs.rows
    ensures p.rows == lhs.rows && p.cols == rhs.cols
  {
    Mat(lhs.rows, rhs.cols,
        seq(lhs.rows, i requires 0 <= i < lhs.rows =>
          seq(rhs.cols, j requires 0 <= j < rhs.cols => Dot(lhs, rhs, i, j, lhs.cols))))
  }

  /** Matrix::dotProduct (also operator*): fails exactly when the inner
      dimensions differ; otherwise result(i, j) = sum_k lhs(i, k) * rhs(k, j). */
  method DotProduct(lhs: Matrix, rhs: Matrix) returns (r: Result<Matrix>)
    ensures r.Err? <==> lhs.cols != rhs.rows
    ensures r.Err? ==> r.error == ShapeMismatch
    ensures r.Ok? ==> r.value.rows == lhs.rows && r.value.cols == rhs.cols
    ensures r.Ok? ==> forall i: nat, j: nat :: i < lhs.rows && j < rhs.cols ==>
                        At(r.value, i, j) == Dot(lhs, rhs, i, j, lhs.cols)
    ensures r.Ok? ==> r.value == Product(lhs, rhs)
  {
    if lhs.cols != rhs.rows {
      return Err(ShapeMismatch);
    }
    var resultRows, resultCols := lhs.rows, rhs.cols;
    var result := Zeros(resultRows, resultCols);
    for i := 0 to resultRows
      invariant result.rows == resultRows && result.cols == resultCols
      invariant forall a: nat, b: nat :: a < i && b < resultCols ==>
                  At(result, a, b) == Dot(lhs, rhs, a, b, lhs.cols)
    {
      for j := 0 to resultCols
        invariant result.rows == resultRows && result.cols == resultCols
        invariant forall a: nat, b: nat :: (a < i || (a == i && b < j)) && b < resultCols ==>
                    At(result, a, b) == Dot(lhs, rhs, a, b, lhs.cols)
      {
        var dotProduct := 0.0;
        for k := 0 to lhs.cols
          invariant dotProduct == Dot(lhs, rhs, i, j, k)
        {
          dotProduct := dotProduct + At(lhs, i, k) * At(rhs, k, j);
        }
        result := Set(result, i, j, dotProduct);
      }
    }
    Extensionality(result, Product(lhs, rhs));
    return Ok(result);
  }

  /** Entry by entry, the product of transposes is the transposed product. */
  lemma {:induction false} DotTransposed(lhs: Matrix, rhs: Matrix, i: nat, j: nat, n: nat)
    requires lhs.cols == rhs.rows && i < lhs.rows && j < rhs.cols && n <= lhs.cols
    ensures Dot(Transposed(rhs), Transposed(lhs), j, i, n) == Dot(lhs, rhs, i, j, n)
  {
    if n > 0 {
      DotTransposed(lhs, rhs, i, j, n - 1);
    }
  }

  /** (A B)^T = B^T A^T */
  lemma ProductTransposed(lhs: Matrix, rhs: Matrix)
    requires lhs.cols == rhs.rows
    ensures Transposed(Product(lhs, rhs)) == Product(Transposed(rhs), Transposed(lhs))
  {
    var p := Transposed(Product(lhs, rhs));
    var q := Product(Transposed(rhs), Transposed(lhs));
    forall a: nat, b: nat | a < rhs.cols && b < lhs.rows
      ensures At(p, a, b) == At(q, a, b)
    {
      DotTransposed(lhs, rhs, b, a, lhs.cols);
    }
    Extensionality(p, q);
  }

  // ---------------------------------------------------------------------
  // Addition with row broadcast
  // ---------------------------------------------------------------------

  /** The row of rhs that Matrix::add reads for result row i. */
  function BroadcastRow(rhs: Matrix, i: nat): nat
  {
    if rhs.rows > 1 then i else 0
  }

  /** Shapes for which Matrix::add neither throws nor reads past rhs. */
  predicate Addable(lhs: Matrix, rhs: Matrix)
  {
    && (rhs.rows == 1 || (lhs.rows == rhs.rows && lhs.cols == rhs.cols))
    && (rhs.rows == 1 && lhs.rows > 0 ==> lhs.cols <= rhs.cols)
  }

  /** Matrix::add as a value: ShapeMismatch when rhs is not a single row
      and the shapes differ; UndefinedRead when a single-row rhs is
      narrower than a non-empty lhs (the C++ code reads past its buffer);
      otherwise the lhs-shaped sum. */
  function Sum(lhs: Matrix, rhs: Matrix): (r: Result<Matrix>)
    ensures r.Ok? <==> Addable(lhs, rhs)
    ensures r.Ok? ==> r.value.rows == lhs.rows && r.value.cols == lhs.cols
  {
    if rhs.rows != 1 && (lhs.rows != rhs.rows || lhs.cols != rhs.cols) then Err(ShapeMismatch)
    else if rhs.rows == 1 && lhs.rows > 0 && rhs.cols < lhs.cols then Err(UndefinedRead)
    else
      var sum: Matrix := Mat(lhs.rows, lhs.cols,
        seq(lhs.rows, i requires 0 <= i < lhs.rows =>
          seq(lhs.cols, j requires 0 <= j < lhs.cols => At(lhs, i, j) + At(rhs, BroadcastRow(rhs, i), j))));
      Ok(sum)
  }

  /** Matrix::add (also operator+). Throws only when rhs has a row count
      other than 1 and the shapes differ; otherwise
      result(i, j) = lhs(i, j) + rhs(rhs.rows > 1 ? i : 0, j). */
  method Add(lhs: Matrix, rhs: Matrix) returns (r: Result<Matrix>)
    ensures r.Err? <==> !Addable(lhs, rhs)
    ensures r.Err? ==> r.error == (if rhs.rows != 1 then ShapeMismatch else UndefinedRead)
    ensures r.Ok? ==> r.value.rows == lhs.rows && r.value.cols == lhs.cols
    ensures r.Ok? ==> forall i: nat, j: nat :: i < lhs.rows && j < lhs.cols ==>
                        BroadcastRow(rhs, i) < rhs.rows && j < rhs.cols &&
                        At(r.value, i, j) == At(lhs, i, j) + At(rhs, BroadcastRow(rhs, i), j)
    ensures r == Sum(lhs, rhs)
  {
    if rhs.rows != 1 && (lhs.rows != rhs.rows || lhs.cols != rhs.cols) {
      return Err(ShapeMismatch);
    }
    if rhs.rows == 1 && lhs.rows > 0 && rhs.cols < lhs.cols {
      return Err(UndefinedRead);
    }
    var rows, cols := lhs.rows, lhs.cols;
    var result := Zeros(rows, cols);
    for i := 0 to rows
      invariant result.rows == rows && result.cols == cols
      invariant forall a: nat, b: nat :: a < i && b < cols ==>
                  At(result, a, b) == At(lhs, a, b) + At(rhs, BroadcastRow(rhs, a), b)
    {
      for j := 0 to cols
        invariant result.rows == rows && result.cols == cols
        invariant forall a: nat, b: nat :: (a < i || (a == i && b < j)) && b < cols ==>
                    At(result, a, b) == At(lhs, a, b) + At(rhs, BroadcastRow(rhs, a), b)
      {
        result := Set(result, i, j, At(lhs, i, j) + At(rhs, if rhs.rows > 1 then i else 0, j));
      }
    }
    assert rows > 0 ==> cols <= rhs.cols;
    forall a: nat | a < rows
      ensures BroadcastRow(rhs, a) < rhs.rows
    {}
    Extensionality(result, Sum(lhs, rhs).value);
    return Ok(result);
  }

  // ---------------------------------------------------------------------
  // Transpose
  // ---------------------------------------------------------------------

  /** The transpose, as a value. */
  function Transposed(m: Matrix): (t: Matrix)
    ensures t.rows == m.cols && t.cols == m.rows
  {
    Mat(m.cols, m.rows,
        seq(m.cols, j requires 0 <= j < m.cols =>
          seq(m.rows, i requires 0 <= i < m.rows => At(m, i, j))))
  }

  /** Transposing twice gives back the original matrix. */
  lemma TransposeInvolution(m: Matrix)
    ensures Transposed(Transposed(m)) == m
  {
    Extensionality(Transposed(Transposed(m)), m);
  }

  /** Matrix::transpose: a cols x rows matrix with result(j, i) = m(i, j). */
  method Transpose(m: Matrix) returns (t: Matrix)
    ensures t.rows == m.cols && t.cols == m.rows
    ensures forall i: nat, j: nat :: i < m.rows && j < m.cols ==> At(t, j, i) == At(m, i, j)
    ensures t == Transposed(m)
  {
    var result := Zeros(m.cols, m.rows);
    for i := 0 to m.rows
      invariant result.rows == m.cols && result.cols == m.rows
      invariant forall a: nat, b: nat :: a < i && b < m.cols ==> At(result, b, a) == At(m, a, b)
    {
      for j := 0 to m.cols
        invariant result.rows == m.cols && result.cols == m.rows
        invariant forall a: nat, b: nat :: (a < i || (a == i && b < j)) && b < m.cols ==>
                    At(result, b, a) == At(m, a, b)
      {
        result := Set(result, j, i, At(m, i, j));
      }
    }
    Extensionality(result, Transposed(m));
    t := result;
  }
}
