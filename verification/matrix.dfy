/**
 * Model of examples/matrix_task/matrix.py: integer matrices stored as a
 * list of rows, with size-checked addition, subtraction, multiplication,
 * transposition and exponentiation by repeated squaring. Every raised
 * exception becomes an `Err`.
 */
module MatrixTask {
  import opened Common

  /** The two exceptions the class raises. */
  datatype MatrixError = DifferentSizeException | ValueError

  /** The `Size` named tuple. */
  datatype MatrixSize = MatrixSize(rowsNum: nat, columnsNum: nat)

  /** Every row of `data` has `columns` entries. */
  predicate Rectangular(data: seq<seq<int>>, columns: nat)
  {
    forall i :: 0 <= i < |data| ==> |data[i]| == columns
  }

  datatype Matrix = Matrix(data: seq<seq<int>>)
  {
    /** What a successfully constructed matrix satisfies. */
    predicate Valid()
    {
      |data| > 0 && Rectangular(data, |data[0]|)
    }

    function RowsNum(): nat
    {
      |data|
    }

    function ColumnsNum(): nat
      requires |data| > 0
    {
      |data[0]|
    }

    function Size(): (s: MatrixSize)
      requires Valid()
      ensures s.rowsNum == |data|
      ensures forall i :: 0 <= i < |data| ==> |data[i]| == s.columnsNum
    {
      MatrixSize(RowsNum(), ColumnsNum())
    }

    predicate IsSquare()
      requires |data| > 0
    {
      RowsNum() == ColumnsNum()
    }

    /** Entry (i, j), and 0 outside the matrix, so that sums over an index
        range can be written with total functions. */
    function At(i: nat, j: nat): int
    {
      if i < |data| && j < |data[i]| then data[i][j] else 0
    }
  }

  /** The set of row lengths, as `set(map(len, data))`. */
  function RowLengths(data: seq<seq<int>>): (lengths: set<nat>)
    ensures forall i :: 0 <= i < |data| ==> |data[i]| in lengths
    ensures data == [] <==> lengths == {}
  {
    if data == [] then {} else {|data[0]|} + RowLengths(data[1..])
  }

  /** Only rectangular data has exactly one row length. */
  lemma {:induction false} RowLengthsOfRectangular(data: seq<seq<int>>, columns: nat)
    requires Rectangular(data, columns)
    ensures data != [] ==> RowLengths(data) == {columns}
  {
    if |data| > 1 {
      RowLengthsOfRectangular(data[1..], columns);
    }
  }

  /** Exactly one row length means non-empty and rectangular. */
  lemma OneRowLength(data: seq<seq<int>>)
    ensures |RowLengths(data)| == 1 <==> |data| > 0 && Rectangular(data, |data[0]|)
  {
    if data != [] && Rectangular(data, |data[0]|) {
      RowLengthsOfRectangular(data, |data[0]|);
    } else if data != [] {
      var i :| 0 <= i < |data| && |data[i]| != |data[0]|;
      CardOfPair(RowLengths(data), |data[0]|, |data[i]|);
    }
  }

  /** `Matrix.__init__`: the data is accepted exactly when it has at least one
      row and all rows have the same length. */
  function NewMatrix(data: seq<seq<int>>): (r: Result<Matrix, MatrixError>)
    ensures r.Ok? <==> |data| > 0 && Rectangular(data, |data[0]|)
    ensures r.Ok? ==> r.value.data == data && r.value.Valid()
    ensures r.Err? ==> r.error == DifferentSizeException
  {
    OneRowLength(data);
    if |RowLengths(data)| != 1 then Err(DifferentSizeException) else Ok(Matrix(data))
  }

  lemma CardOfPair(s: set<nat>, a: nat, b: nat)
    requires a != b && a in s && b in s
    ensures |s| >= 2
  {
    assert {a, b} <= s;
    assert |{a, b}| == 2;
    SubsetCard({a, b}, s);
  }

  lemma {:induction false} SubsetCard(small: set<nat>, big: set<nat>)
    requires small <= big
    ensures |small| <= |big|
  {
    if small != {} {
      var x :| x in small;
      SubsetCard(small - {x}, big - {x});
    }
  }

  /** `T()`: square matrices only; the result mirrors the entries. */
  function Transpose(m: Matrix): (r: Result<Matrix, MatrixError>)
    requires m.Valid()
    ensures r.Err? <==> !m.IsSquare()
    ensures r.Err? ==> r.error == DifferentSizeException
    ensures r.Ok? ==> r.value.Valid() && r.value.Size() == m.Size()
    ensures r.Ok? ==> forall i, j :: 0 <= i < m.RowsNum() && 0 <= j < m.RowsNum() ==>
              r.value.data[i][j] == m.data[j][i]
  {
    if m.RowsNum() != m.ColumnsNum() then Err(DifferentSizeException)
    else
      var n := m.RowsNum();
      Ok(Matrix(seq(n, col requires 0 <= col < n => seq(n, row requires 0 <= row < n => m.data[row][col]))))
  }

  /** Matrices of the same size with the same entries are equal. */
  lemma SameEntries(p: Matrix, q: Matrix)
    requires p.Valid() && q.Valid() && p.Size() == q.Size()
    requires forall i, j :: 0 <= i < p.RowsNum() && 0 <= j < p.ColumnsNum() ==> p.data[i][j] == q.data[i][j]
    ensures p == q
  {
    forall i | 0 <= i < |p.data|
      ensures p.data[i] == q.data[i]
    {
      assert |p.data[i]| == |q.data[i]|;
    }
  }

  /** Transposing twice gives the matrix back. */
  lemma TransposeTwice(m: Matrix)
    requires m.Valid() && m.IsSquare()
    ensures Transpose(Transpose(m).value) == Ok(m)
  {
    SameEntries(Transpose(Transpose(m).value).value, m);
  }

  /** `sum` of `f(0)`, ..., `f(n-1)`. */
  function Sum(n: nat, f: nat -> int): int
  {
    if n == 0 then 0 else Sum(n - 1, f) + f(n - 1)
  }

  /** The dot product of row i of `a` and column j of `b`, as
      `sum(row_elem * column_elem for ... in zip(row, column))`. */
  function Dot(a: Matrix, b: Matrix, i: nat, j: nat): int
    requires |a.data| > 0
  {
    Sum(a.ColumnsNum(), (k: nat) => a.At(i, k) * b.At(k, j))
  }

  /** The product of two matrices whose sizes fit. */
  function Product(a: Matrix, b: Matrix): (p: Matrix)
    requires a.Valid() && b.Valid() && a.ColumnsNum() == b.RowsNum()
    ensures p.Valid() && p.Size() == MatrixSize(a.RowsNum(), b.ColumnsNum())
    ensures forall i, j :: 0 <= i < a.RowsNum() && 0 <= j < b.ColumnsNum() ==>
              p.data[i][j] == Dot(a, b, i, j)
  {
    Matrix(seq(a.RowsNum(), i requires 0 <= i < a.RowsNum() =>
      seq(b.ColumnsNum(), j requires 0 <= j < b.ColumnsNum() => Dot(a, b, i, j))))
  }

  /** `__matmul__`: the columns of the first matrix must match the rows of
      the second. */
  function MatMul(a: Matrix, b: Matrix): (r: Result<Matrix, MatrixError>)
    requires a.Valid() && b.Valid()
    ensures r.Err? <==> b.RowsNum() != a.ColumnsNum()
    ensures r.Err? ==> r.error == DifferentSizeException
    ensures r.Ok? ==> r.value == Product(a, b)
  {
    if b.RowsNum() != a.ColumnsNum() then Err(DifferentSizeException) else Ok(Product(a, b))
  }

  /** `__mul__`: every entry multiplied by `number`. */
  function Scale(m: Matrix, number: int): (r: Matrix)
    requires m.Valid()
    ensures r.Valid() && r.Size() == m.Size()
    ensures forall i, j :: 0 <= i < m.RowsNum() && 0 <= j < m.ColumnsNum() ==>
              r.data[i][j] == m.data[i][j] * number
  {
    Matrix(seq(m.RowsNum(), i requires 0 <= i < m.RowsNum() =>
      seq(m.ColumnsNum(), j requires 0 <= j < m.ColumnsNum() => m.data[i][j] * number)))
  }

  /** `__rmul__`: `number * m`, delegated to `m * number`. */
  function RMul(number: int, m: Matrix): (r: Matrix)
    requires m.Valid()
    ensures r.Valid() && r.Size() == m.Size()
    ensures forall i, j :: 0 <= i < m.RowsNum() && 0 <= j < m.ColumnsNum() ==>
              r.data[i][j] == number * m.data[i][j]
  {
    Scale(m, number)
  }

  /** `__neg__`: `-1 * m`, i.e. every entry negated. */
  function Neg(m: Matrix): (r: Matrix)
    requires m.Valid()
    ensures r.Valid() && r.Size() == m.Size()
    ensures forall i, j :: 0 <= i < m.RowsNum() && 0 <= j < m.ColumnsNum() ==>
              r.data[i][j] == -m.data[i][j]
  {
    RMul(-1, m)
  }

  /** `__add__`: sizes must be equal; the result holds entrywise sums. */
  function Add(m: Matrix, n: Matrix): (r: Result<Matrix, MatrixError>)
    requires m.Valid() && n.Valid()
    ensures r.Err? <==> m.Size() != n.Size()
    ensures r.Err? ==> r.error == DifferentSizeException
    ensures r.Ok? ==> r.value.Valid() && r.value.Size() == m.Size()
    ensures r.Ok? ==> forall i, j :: 0 <= i < m.RowsNum() && 0 <= j < m.ColumnsNum() ==>
              r.value.data[i][j] == m.data[i][j] + n.data[i][j]
  {
    if m.Size() != n.Size() then Err(DifferentSizeException)
    else Ok(Matrix(seq(m.RowsNum(), i requires 0 <= i < m.RowsNum() =>
      seq(m.ColumnsNum(), j requires 0 <= j < m.ColumnsNum() => m.data[i][j] + n.data[i][j]))))
  }

  /** `__sub__`: `-n + m`, so the same size check as addition and entrywise
      differences. */
  function Sub(m: Matrix, n: Matrix): (r: Result<Matrix, MatrixError>)
    requires m.Valid() && n.Valid()
    ensures r.Err? <==> m.Size() != n.Size()
    ensures r.Err? ==> r.error == DifferentSizeException
    ensures r.Ok? ==> r.value.Valid() && r.value.Size() == m.Size()
    ensures r.Ok? ==> forall i, j :: 0 <= i < m.RowsNum() && 0 <= j < m.ColumnsNum() ==>
              r.value.data[i][j] == m.data[i][j] - n.data[i][j]
  {
    Add(Neg(n), m)
  }

  /** Subtraction undoes addition. */
  lemma AddThenSub(m: Matrix, n: Matrix)
    requires m.Valid() && n.Valid() && m.Size() == n.Size()
    ensures Add(m, n).Ok? && Sub(Add(m, n).value, n) == Ok(m)
  {
    SameEntries(Sub(Add(m, n).value, n).value, m);
  }

  lemma {:induction false} SumExt(n: nat, f: nat -> int, g: nat -> int)
    requires forall k: nat :: k < n ==> f(k) == g(k)
    ensures Sum(n, f) == Sum(n, g)
  {
    if n > 0 {
      SumExt(n - 1, f, g);
    }
  }

  lemma {:induction false} SumScale(n: nat, c: int, f: nat -> int, g: nat -> int)
    requires forall k: nat :: k < n ==> g(k) == c * f(k)
    ensures Sum(n, g) == c * Sum(n, f)
  {
    if n > 0 {
      SumScale(n - 1, c, f, g);
      assert c * Sum(n, f) == c * Sum(n - 1, f) + c * f(n - 1);
    }
  }

  lemma {:induction false} SumAdd(n: nat, f: nat -> int, g: nat -> int, h: nat -> int)
    requires forall k: nat :: k < n ==> h(k) == f(k) + g(k)
    ensures Sum(n, h) == Sum(n, f) + Sum(n, g)
  {
    if n > 0 {
      SumAdd(n - 1, f, g, h);
    }
  }

  /** A double sum may be taken in either order. */
  lemma {:induction false} SumSwap(n: nat, m: nat, F: (nat, nat) -> int)
    ensures Sum(n, (k: nat) => Sum(m, (l: nat) => F(k, l)))
         == Sum(m, (l: nat) => Sum(n, (k: nat) => F(k, l)))
  {
    if n == 0 {
      SumScale(m, 0, (l: nat) => 0, (l: nat) => Sum(n, (k: nat) => F(k, l)));
    } else {
      SumSwap(n - 1, m, F);
      SumAdd(m, (l: nat) => Sum(n - 1, (k: nat) => F(k, l)), (l: nat) => F(n - 1, l),
             (l: nat) => Sum(n, (k: nat) => F(k, l)));
    }
  }

  /** One entry of `(a @ b) @ c` equals the same entry of `a @ (b @ c)`. */
  lemma ProductAssocAt(a: Matrix, b: Matrix, c: Matrix, i: nat, j: nat)
    requires a.Valid() && b.Valid() && c.Valid()
    requires a.ColumnsNum() == b.RowsNum() && b.ColumnsNum() == c.RowsNum()
    requires i < a.RowsNum() && j < c.ColumnsNum()
    ensures Dot(Product(a, b), c, i, j) == Dot(a, Product(b, c), i, j)
  {
    var ab := Product(a, b);
    var bc := Product(b, c);
    var F := (k: nat, l: nat) => a.At(i, k) * (b.At(k, l) * c.At(l, j));
    forall l: nat | l < b.ColumnsNum()
      ensures ab.At(i, l) * c.At(l, j) == Sum(a.ColumnsNum(), (k: nat) => F(k, l))
    {
      SumScale(a.ColumnsNum(), c.At(l, j), (k: nat) => a.At(i, k) * b.At(k, l), (k: nat) => F(k, l));
    }
    SumExt(b.ColumnsNum(), (l: nat) => ab.At(i, l) * c.At(l, j),
           (l: nat) => Sum(a.ColumnsNum(), (k: nat) => F(k, l)));
    SumSwap(a.ColumnsNum(), b.ColumnsNum(), F);
    forall k: nat | k < a.ColumnsNum()
      ensures Sum(b.ColumnsNum(), (l: nat) => F(k, l)) == a.At(i, k) * bc.At(k, j)
    {
      SumScale(b.ColumnsNum(), a.At(i, k), (l: nat) => b.At(k, l) * c.At(l, j), (l: nat) => F(k, l));
    }
    SumExt(a.ColumnsNum(), (k: nat) => Sum(b.ColumnsNum(), (l: nat) => F(k, l)),
           (k: nat) => a.At(i, k) * bc.At(k, j));
  }

  /** Matrix multiplication is associative. */
  lemma ProductAssoc(a: Matrix, b: Matrix, c: Matrix)
    requires a.Valid() && b.Valid() && c.Valid()
    requires a.ColumnsNum() == b.RowsNum() && b.ColumnsNum() == c.RowsNum()
    ensures Product(Product(a, b), c) == Product(a, Product(b, c))
  {
    forall i, j | 0 <= i < a.RowsNum() && 0 <= j < c.ColumnsNum()
      ensures Product(Product(a, b), c).data[i][j] == Product(a, Product(b, c)).data[i][j]
    {
      ProductAssocAt(a, b, c, i, j);
    }
    SameEntries(Product(Product(a, b), c), Product(a, Product(b, c)));
  }

  /** `m` multiplied by itself `p` times. */
  function Power(m: Matrix, p: nat): (r: Matrix)
    requires m.Valid() && m.IsSquare() && p >= 1
    ensures r.Valid() && r.Size() == m.Size()
  {
    if p == 1 then m else Product(m, Power(m, p - 1))
  }

  /** `m^x @ m^y == m^(x+y)`. */
  lemma {:induction false} PowerAdd(m: Matrix, x: nat, y: nat)
    requires m.Valid() && m.IsSquare() && x >= 1 && y >= 1
    ensures Product(Power(m, x), Power(m, y)) == Power(m, x + y)
  {
    if x > 1 {
      PowerAdd(m, x - 1, y);
      PowerAddStep(m, x, y);
    } else {
      assert Power(m, x + y) == Product(m, Power(m, y));
    }
  }

  /** The induction step of `PowerAdd`: one more factor on the left. */
  lemma PowerAddStep(m: Matrix, x: nat, y: nat)
    requires m.Valid() && m.IsSquare() && x > 1 && y >= 1
    requires Product(Power(m, x - 1), Power(m, y)) == Power(m, x - 1 + y)
    ensures Product(Power(m, x), Power(m, y)) == Power(m, x + y)
  {
    var rest := Power(m, x - 1);
    var py := Power(m, y);
    ProductAssoc(m, rest, py);
    assert Power(m, x) == Product(m, rest);
    assert Power(m, x + y) == Product(m, Power(m, x - 1 + y));
  }

  /** The exponent bookkeeping of one round of repeated squaring: an odd
      `p` moves `b` into `a`, then `b` doubles and `p` halves. */
  lemma HalvingStep(power: int, p: nat, a: nat, b: nat, a': nat)
    requires a + b * p == power
    requires p % 2 == 1 ==> a' == a + b
    requires p % 2 == 0 ==> a' == a
    ensures a' + (2 * b) * (p / 2) == power
  {
    var h := p / 2;
    assert p == 2 * h + p % 2;
    assert b * p == b * (2 * h) + b * (p % 2);
  }

  /** `m^x @ m^y`, for matrices known to be those powers. */
  lemma PowerTimes(m: Matrix, x: nat, y: nat, mx: Matrix, my: Matrix)
    requires m.Valid() && m.IsSquare() && x >= 1 && y >= 1
    requires mx == Power(m, x) && my == Power(m, y)
    ensures mx.Valid() && my.Valid() && mx.ColumnsNum() == my.RowsNum()
    ensures Product(mx, my) == Power(m, x + y)
  {
    PowerAdd(m, x, y);
  }

  /** One round of repeated squaring keeps `result == m^a`,
      `lastMatrix == m^b` and `a + b * p == power`: `result` takes in
      `lastMatrix` when `p` is odd, and `lastMatrix` is squared. */
  lemma PowerRound(m: Matrix, power: int, p: nat, a: nat, b: nat, result: Matrix, last: Matrix,
                   a': nat, result': Matrix, last': Matrix)
    requires m.Valid() && m.IsSquare() && a >= 1 && b >= 1
    requires result == Power(m, a) && last == Power(m, b) && a + b * p == power
    requires p % 2 == 1 ==> a' == a + b && result' == Product(result, last)
    requires p % 2 == 0 ==> a' == a && result' == result
    requires last' == Product(last, last)
    ensures result' == Power(m, a') && last' == Power(m, 2 * b) && a' + (2 * b) * (p / 2) == power
  {
    if p % 2 == 1 {
      PowerTimes(m, a, b, result, last);
    }
    RoundSquare(m, b, last, last');
    HalvingStep(power, p, a, b, a');
  }

  /** `lastMatrix` after one round: it is squared. */
  lemma RoundSquare(m: Matrix, b: nat, last: Matrix, last': Matrix)
    requires m.Valid() && m.IsSquare() && b >= 1
    requires last == Power(m, b) && last' == Product(last, last)
    ensures last' == Power(m, 2 * b)
  {
    PowerTimes(m, b, b, last, last);
  }

  /** `__pow__`: exponentiation by repeated squaring. A non-positive power
      raises `ValueError`; power 1 returns the matrix itself; any larger
      power of a non-square matrix fails in the first multiplication. */
  method Pow(m: Matrix, power: int) returns (r: Result<Matrix, MatrixError>)
    requires m.Valid()
    ensures power <= 0 ==> r == Err(ValueError)
    ensures power == 1 ==> r == Ok(m)
    ensures power >= 2 && !m.IsSquare() ==> r == Err(DifferentSizeException)
    ensures power >= 1 && m.IsSquare() ==> r == Ok(Power(m, power))
  {
    if power <= 0 {
      return Err(ValueError);
    }
    var result := m;
    var lastMatrix := m;
    var p := power - 1;
    ghost var a: nat := 1;
    ghost var b: nat := 1;
    while p > 0
      invariant p >= 0 && a >= 1 && b >= 1
      invariant result.Valid() && lastMatrix.Valid()
      invariant m.IsSquare() ==> result == Power(m, a) && lastMatrix == Power(m, b) && a + b * p == power
      invariant !m.IsSquare() ==> result == m && lastMatrix == m && p == power - 1
    {
      ghost var a0, result0 := a, result;
      if p % 2 == 1 {
        var product := MatMul(result, lastMatrix);
        if product.Err? {
          return Err(product.error);
        }
        result := product.value;
        a := a + b;
      }
      var square := MatMul(lastMatrix, lastMatrix);
      if square.Err? {
        return Err(square.error);
      }
      if m.IsSquare() {
        PowerRound(m, power, p, a0, b, result0, lastMatrix, a, result, square.value);
      }
      lastMatrix := square.value;
      b := 2 * b;
      p := p / 2;
    }
    r := Ok(result);
  }

  /** Construction accepts a single empty row but not an empty list, and
      rejects ragged rows. */
  lemma ConstructionEdgeCases()
    ensures NewMatrix([]) == Err(DifferentSizeException)
    ensures NewMatrix([[]]) == Ok(Matrix([[]]))
    ensures NewMatrix([[1, 2], [3]]) == Err(DifferentSizeException)
  {
    assert |[[1, 2], [3]][1]| != |[[1, 2], [3]][0]|;
  }

  /** The matrix `[[1, x], [0, 1]]`. */
  function Shear(x: int): (m: Matrix)
    ensures m.Valid() && m.IsSquare() && m.RowsNum() == 2
  {
    Matrix([[1, x], [0, 1]])
  }

  /** Powers of `[[1, 1], [0, 1]]`, as in the power test:
      `[[1, 1], [0, 1]] ** p == [[1, p], [0, 1]]`. */
  lemma {:induction false} ShearPower(p: nat)
    requires p >= 1
    ensures Power(Shear(1), p) == Shear(p)
  {
    if p > 1 {
      ShearPower(p - 1);
      ShearProduct(p - 1);
    }
  }

  lemma ShearProduct(x: int)
    ensures Product(Shear(1), Shear(x)) == Shear(x + 1)
  {
    var a, b := Shear(1), Shear(x);
    var q := Product(a, b);
    forall i, j | 0 <= i < 2 && 0 <= j < 2
      ensures q.data[i][j] == Shear(x + 1).data[i][j]
    {
      assert q.data[i][j] == Sum(2, (k: nat) => a.At(i, k) * b.At(k, j));
      assert q.data[i][j] == a.At(i, 0) * b.At(0, j) + a.At(i, 1) * b.At(1, j);
    }
    SameEntries(q, Shear(x + 1));
  }
}
