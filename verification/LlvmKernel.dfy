/** The optimised LLVM IR of matmul.c against the C loops it was compiled from.  The `fast`
    flags of the IR allow reassociation, so elements are reals here. */
module LlvmKernel {
  import opened Matrix
  import opened NaiveGemm

  const REAL: Ops<real> := Ops(0.0, (x: real, y: real) => x * y, (x: real, y: real) => x + y)

  // ----- the product over the reals -----

  /** Row r of a times column c of b, the first n terms. */
  function Dot(a: Mat<real>, b: Mat<real>, r: nat, c: nat, n: nat): real
    requires r < |a| && n <= |a[r]| && n <= |b| && forall k :: 0 <= k < n ==> c < |b[k]|
  {
    if n == 0 then 0.0 else Dot(a, b, r, c, n - 1) + a[r][n - 1] * b[n - 1][c]
  }

  /** What the naive loop leaves in a cell is the cell plus the product. */
  lemma {:induction false} AccIsDot(a: Mat<real>, b: Mat<real>, r: nat, c: nat, init: real, n: nat)
    requires r < |a| && n <= |a[r]| && n <= |b| && forall k :: 0 <= k < n ==> c < |b[k]|
    ensures Acc(REAL, a, b, r, c, init, n) == init + Dot(a, b, r, c, n)
  {
    if n != 0 { AccIsDot(a, b, r, c, init, n - 1); }
  }

  /** The product is linear in the row, and a row with a single one picks an element of the column:
      this determines it. */
  lemma {:induction false} DotIsLinear(a: Mat<real>, a': Mat<real>, sum: Mat<real>, s: real, b: Mat<real>,
                                       r: nat, c: nat, n: nat)
    requires r < |a| && n <= |a[r]| && r < |a'| && n <= |a'[r]| && r < |sum| && n <= |sum[r]|
    requires n <= |b| && forall k :: 0 <= k < n ==> c < |b[k]|
    requires forall k :: 0 <= k < n ==> sum[r][k] == s * a[r][k] + a'[r][k]
    ensures Dot(sum, b, r, c, n) == s * Dot(a, b, r, c, n) + Dot(a', b, r, c, n)
  {
    if n != 0 {
      DotIsLinear(a, a', sum, s, b, r, c, n - 1);
      Distribute(s, a[r][n - 1], a'[r][n - 1], b[n - 1][c], Dot(a, b, r, c, n - 1));
    }
  }

  lemma Distribute(s: real, x: real, x': real, y: real, d: real)
    ensures (s * x + x') * y == s * (x * y) + x' * y && s * (d + x * y) == s * d + s * (x * y)
  {
  }

  lemma {:induction false} DotPicks(a: Mat<real>, b: Mat<real>, r: nat, c: nat, n: nat, p: nat)
    requires r < |a| && n <= |a[r]| && n <= |b| && forall k :: 0 <= k < n ==> c < |b[k]|
    requires forall k :: 0 <= k < n ==> a[r][k] == if k == p then 1.0 else 0.0
    ensures Dot(a, b, r, c, n) == if p < n then b[p][c] else 0.0
  {
    if n != 0 { DotPicks(a, b, r, c, n - 1, p); }
  }

  // ----- matmul.c -----

  const ALPHA := 1.0
  const BETA := 1.0

  lemma AccStep(a: Mat<real>, b: Mat<real>, r: nat, c: nat, init: real, k: nat)
    requires r < |a| && k < |a[r]| && k < |b| && forall l :: 0 <= l <= k ==> c < |b[l]|
    ensures Acc(REAL, a, b, r, c, init, k + 1) == BETA * Acc(REAL, a, b, r, c, init, k) + ALPHA * a[r][k] * b[k][c]
  {
  }

  lemma AccZero(a: Mat<real>, b: Mat<real>, i: nat, j: nat, c: real)
    requires i < |a|
    ensures Acc(REAL, a, b, i, j, c, 0) == c
  {
  }

  /** The `scop` loop nest. */
  method Scop(n: nat, A: array2<real>, B: array2<real>, C: array2<real>)
    requires A != C && B != C && Square(A, n) && Square(B, n) && Square(C, n)
    modifies C
    ensures Contents(C) == Product(REAL, Contents(A), Contents(B), old(Contents(C)), n, n, n)
    ensures forall r, q :: 0 <= r < n && 0 <= q < n ==> C[r, q] == old(C[r, q]) + Dot(Contents(A), Contents(B), r, q, n)
  {
    hide Acc, Dot, ALPHA, BETA;
    ghost var a, b, c := Contents(A), Contents(B), Contents(C);
    for i := 0 to n
      invariant forall r, q :: 0 <= r < n && 0 <= q < n ==>
        C[r, q] == if r < i then Acc(REAL, a, b, r, q, c[r][q], n) else c[r][q]
    {
      for j := 0 to n
        invariant forall r, q :: 0 <= r < n && 0 <= q < n ==>
          C[r, q] == if r < i || (r == i && q < j) then Acc(REAL, a, b, r, q, c[r][q], n) else c[r][q]
      {
        AccZero(a, b, i, j, c[i][j]);
        for k := 0 to n
          invariant C[i, j] == Acc(REAL, a, b, i, j, c[i][j], k)
          invariant forall r, q :: 0 <= r < n && 0 <= q < n && (r != i || q != j) ==>
            C[r, q] == if r < i || (r == i && q < j) then Acc(REAL, a, b, r, q, c[r][q], n) else c[r][q]
        {
          AccStep(a, b, i, j, c[i][j], k);
          C[i, j] := BETA * C[i, j] + ALPHA * A[i, k] * B[k, j];
        }
      }
    }
    MatEqual(Contents(C), Product(REAL, a, b, c, n, n, n), n, n);
    ProductIsDot(a, b, c, n);
  }

  lemma ProductIsDot(a: Mat<real>, b: Mat<real>, c: Mat<real>, n: nat)
    requires Conform(a, b, c, n, n, n)
    ensures forall r, q :: 0 <= r < n && 0 <= q < n ==>
      Product(REAL, a, b, c, n, n, n)[r][q] == c[r][q] + Dot(a, b, r, q, n)
  {
    forall r, q | 0 <= r < n && 0 <= q < n
      ensures Product(REAL, a, b, c, n, n, n)[r][q] == c[r][q] + Dot(a, b, r, q, n)
    {
      AccIsDot(a, b, r, q, c[r][q], n);
    }
  }

  ghost predicate Square(a: array2<real>, n: nat) { a.Length0 == n && a.Length1 == n }

  // ----- the IR: blocks 27 to 70 of @main -----

  /** Bitwise or of unsigned integers, lowest bit first. */
  function Or(x: nat, y: nat): nat
    decreases x + y
  {
    if x == 0 && y == 0 then 0
    else (if x % 2 == 1 || y % 2 == 1 then 1 else 0) + 2 * Or(x / 2, y / 2)
  }

  lemma {:induction false} OrZero(x: nat)
    ensures Or(x, 0) == x
  {
    if x != 0 { OrZero(x / 2); }
  }

  /** On a multiple of four, `or` with 1, 2 or 3 is addition. */
  lemma OrIsAdd(k: nat)
    requires k % 4 == 0
    ensures Or(k, 1) == k + 1 && Or(k, 2) == k + 2 && Or(k, 3) == k + 3
  {
    OrZero(k / 2);
    OrZero(k / 4);
    assert k / 2 / 2 == k / 4 && k / 2 % 2 == 0;
    assert Or(k / 2, 1) == k / 2 + 1;
  }

  lemma OrOneOnEven(k: nat)
    requires k % 2 == 0
    ensures Or(k, 1) == k + 1
  {
    OrZero(k / 2);
  }

  /** <2 x double> */
  datatype Vec2 = Vec2(lane0: real, lane1: real)

  function FMul(x: Vec2, y: Vec2): Vec2 { Vec2(x.lane0 * y.lane0, x.lane1 * y.lane1) }
  function FAdd(x: Vec2, y: Vec2): Vec2 { Vec2(x.lane0 + y.lane0, x.lane1 + y.lane1) }
  function ReduceFAdd(start: real, x: Vec2): real { start + x.lane0 + x.lane1 }

  method LoadVec2(A: array2<real>, i: nat, k: nat) returns (v: Vec2)
    requires i < A.Length0 && k + 1 < A.Length1
    ensures v == Vec2(A[i, k], A[i, k + 1])
  {
    v := Vec2(A[i, k], A[i, k + 1]);
  }

  lemma FourSteps(a: Mat<real>, b: Mat<real>, i: nat, j: nat, c: real, k: nat)
    requires i < |a| && k + 4 <= |a[i]| && k + 4 <= |b| && forall l :: 0 <= l < k + 4 ==> j < |b[l]|
    ensures Acc(REAL, a, b, i, j, c, k + 4) == Acc(REAL, a, b, i, j, c, k)
      + a[i][k] * b[k][j] + a[i][k + 1] * b[k + 1][j]
      + a[i][k + 2] * b[k + 2][j] + a[i][k + 3] * b[k + 3][j]
  {
    assert Acc(REAL, a, b, i, j, c, k + 1) == Acc(REAL, a, b, i, j, c, k) + a[i][k] * b[k][j];
    assert Acc(REAL, a, b, i, j, c, k + 2) == Acc(REAL, a, b, i, j, c, k + 1) + a[i][k + 1] * b[k + 1][j];
    assert Acc(REAL, a, b, i, j, c, k + 3) == Acc(REAL, a, b, i, j, c, k + 2) + a[i][k + 2] * b[k + 2][j];
  }

  /** Blocks 29, 34 and 65: one cell of C, four products an iteration in two accumulators. */
  method Cell(n: nat, A: array2<real>, B: array2<real>, C: array2<real>, i: nat, j: nat) returns (sum: real)
    requires Square(A, n) && Square(B, n) && Square(C, n) && i < n && j < n && n % 4 == 0
    ensures sum == Acc(REAL, Contents(A), Contents(B), i, j, C[i, j], n)
    ensures sum == C[i, j] + Dot(Contents(A), Contents(B), i, j, n)
  {
    hide Acc, Or, Dot;
    ghost var a, b := Contents(A), Contents(B);
    AccIsDot(a, b, i, j, C[i, j], n);
    var acc0, acc1 := Vec2(C[i, j], 0.0), Vec2(0.0, 0.0);
    var k := 0;
    assert Acc(REAL, a, b, i, j, C[i, j], 0) == C[i, j] by { AccZero(a, b, i, j, C[i, j]); }
    while true
      invariant 0 <= k < n && k % 4 == 0
      invariant acc0.lane0 + acc0.lane1 + acc1.lane0 + acc1.lane1 == Acc(REAL, a, b, i, j, C[i, j], k)
      decreases n - k
    {
      OrIsAdd(k);
      FourSteps(a, b, i, j, C[i, j], k);
      var k1, k2, k3 := Or(k, 1), Or(k, 2), Or(k, 3);
      var a01 := LoadVec2(A, i, k);
      var a23 := LoadVec2(A, i, k + 2);
      var b01 := Vec2(B[k, j], B[k1, j]);
      var b23 := Vec2(B[k2, j], B[k3, j]);
      acc0 := FAdd(FMul(b01, a01), acc0);
      acc1 := FAdd(FMul(b23, a23), acc1);
      k := k + 4;
      if k == n { break; }
    }
    sum := ReduceFAdd(0.0, FAdd(acc1, acc0));
  }

  method Kernel(n: nat, A: array2<real>, B: array2<real>, C: array2<real>)
    requires A != C && B != C && Square(A, n) && Square(B, n) && Square(C, n) && 0 < n && n % 4 == 0
    modifies C
    ensures Contents(C) == Product(REAL, Contents(A), Contents(B), old(Contents(C)), n, n, n)
    ensures forall r, q :: 0 <= r < n && 0 <= q < n ==> C[r, q] == old(C[r, q]) + Dot(Contents(A), Contents(B), r, q, n)
  {
    hide Acc, Dot;
    ghost var a, b, c := Contents(A), Contents(B), Contents(C);
    var i := 0;
    while true
      invariant 0 <= i < n
      invariant forall r, q :: 0 <= r < n && 0 <= q < n ==>
        C[r, q] == if r < i then Acc(REAL, a, b, r, q, c[r][q], n) else c[r][q]
      decreases n - i
    {
      var j := 0;
      while true
        invariant 0 <= j < n
        invariant forall r, q :: 0 <= r < n && 0 <= q < n ==>
          C[r, q] == if r < i || (r == i && q < j) then Acc(REAL, a, b, r, q, c[r][q], n) else c[r][q]
        decreases n - j
      {
        var sum := Cell(n, A, B, C, i, j);
        C[i, j] := sum;
        j := j + 1;
        if j == n { break; }
      }
      i := i + 1;
      if i == n { break; }
    }
    MatEqual(Contents(C), Product(REAL, a, b, c, n, n, n), n, n);
    ProductIsDot(a, b, c, n);
  }

  // ----- initialisation -----

  /** `trunc i64 to i32` read as signed, the operand of `sitofp`. */
  function Trunc32(x: nat): int {
    var low := x % 0x1_0000_0000;
    if low < 0x8000_0000 then low else low - 0x1_0000_0000
  }

  ghost predicate Initialised(n: nat, A: array2<real>, B: array2<real>, rows: nat, cols: nat)
    requires Square(A, n) && Square(B, n)
    reads A, B
  {
    forall r, q :: 0 <= r < n && 0 <= q < n && (r < rows || (r == rows && q < cols)) ==>
      A[r, q] == (r + q) as real && B[r, q] == Prod(r, q) as real
  }

  function Prod(i: nat, j: nat): nat { i * j }

  /** `init_array` of matmul.c; its `int` arithmetic must not overflow. */
  method InitArray(n: nat, A: array2<real>, B: array2<real>, C: array2<real>)
    requires A != B && A != C && B != C && Square(A, n) && Square(B, n) && Square(C, n)
    requires n * n <= 0x8000_0000
    modifies A, B, C
    ensures Initialised(n, A, B, n, 0)
    ensures forall r, q :: 0 <= r < n && 0 <= q < n ==>
      A[r, q] == (r + q) as real && B[r, q] == (r * q) as real && C[r, q] == 0.0
  {
    for i := 0 to n
      invariant Initialised(n, A, B, i, 0)
      invariant forall r, q :: 0 <= r < i && 0 <= q < n ==> C[r, q] == 0.0
    {
      for j := 0 to n
        invariant Initialised(n, A, B, i, j)
        invariant forall r, q :: 0 <= r < n && 0 <= q < n && (r < i || (r == i && q < j)) ==> C[r, q] == 0.0
      {
        A[i, j] := (i + j) as real;
        B[i, j] := Prod(i, j) as real;
        C[i, j] := 0.0;
      }
    }
  }

  lemma Monotone(x: nat, y: nat, z: nat)
    requires x <= y
    ensures x * z <= y * z && z * x <= z * y
  {
  }

  lemma SmallEnough(n: nat, i: nat, j: nat)
    requires n * n <= 0x8000_0000 && i < n && j < n
    ensures Trunc32(j + i) == i + j && Trunc32(Prod(j, i)) == Prod(i, j)
  {
    assert Prod(j, i) == Prod(i, j) <= Prod(i, n) by { Monotone(j, n, i); }
    assert Prod(i, n) <= Prod(n - 1, n) by { Monotone(i, n - 1, n); }
    assert Prod(n - 1, n) == n * n - n;
    assert 2 * n <= n * n || n == 1 by { if 1 < n { Monotone(2, n, n); } }
    hide Prod;
  }

  /** The two stores of column j of row i. */
  method StoreColumn(n: nat, A: array2<real>, B: array2<real>, i: nat, j: nat)
    requires A != B && Square(A, n) && Square(B, n)
    requires i < n && j < n && n * n <= 0x8000_0000
    requires Initialised(n, A, B, i, j)
    modifies A, B
    ensures Initialised(n, A, B, i, j + 1)
  {
    SmallEnough(n, i, j);
    hide Prod, Trunc32;
    A[i, j] := Trunc32(j + i) as real;
    B[i, j] := Trunc32(Prod(j, i)) as real;
  }

  /** Block 3 of @main: columns j and j | 1 of row i. */
  method Block3(n: nat, A: array2<real>, B: array2<real>, i: nat, j: nat)
    requires A != B && Square(A, n) && Square(B, n)
    requires i < n && j < n && n % 2 == 0 && j % 2 == 0 && n * n <= 0x8000_0000
    requires Initialised(n, A, B, i, j)
    modifies A, B
    ensures Initialised(n, A, B, i, j + 2)
  {
    OrOneOnEven(j);
    hide Or, Initialised;
    StoreColumn(n, A, B, i, j);
    StoreColumn(n, A, B, i, Or(j, 1));
  }

  /** The memset and blocks 1 to 24 of @main: two columns an iteration. */
  method InitUnrolled(n: nat, A: array2<real>, B: array2<real>, C: array2<real>)
    requires A != B && A != C && B != C && Square(A, n) && Square(B, n) && Square(C, n)
    requires 0 < n && n % 2 == 0 && n * n <= 0x8000_0000
    modifies A, B, C
    ensures Initialised(n, A, B, n, 0)
    ensures forall r, q :: 0 <= r < n && 0 <= q < n ==>
      A[r, q] == (r + q) as real && B[r, q] == (r * q) as real && C[r, q] == 0.0
  {
    hide Prod;
    forall r, q | 0 <= r < n && 0 <= q < n { C[r, q] := 0.0; }
    var i := 0;
    while true
      invariant 0 <= i < n
      invariant Initialised(n, A, B, i, 0)
      invariant forall r, q :: 0 <= r < n && 0 <= q < n ==> C[r, q] == 0.0
      decreases n - i
    {
      var j := 0;
      while true
        invariant 0 <= j < n && j % 2 == 0
        invariant Initialised(n, A, B, i, j)
        invariant forall r, q :: 0 <= r < n && 0 <= q < n ==> C[r, q] == 0.0
        decreases n - j
      {
        Block3(n, A, B, i, j);
        j := j + 2;
        if j == n { break; }
      }
      i := i + 1;
      if i == n { break; }
    }
    InitialValues(n, A, B);
  }

  lemma InitialValues(n: nat, A: array2<real>, B: array2<real>)
    requires Square(A, n) && Square(B, n) && Initialised(n, A, B, n, 0)
    ensures forall r, q :: 0 <= r < n && 0 <= q < n ==> A[r, q] == (r + q) as real && B[r, q] == (r * q) as real
  {
  }

  // ----- the two whole programs -----

  ghost function MatrixA(n: nat): (m: Mat<real>)
    ensures IsMat(m, n, n)
    ensures forall i, j :: 0 <= i < n && 0 <= j < n ==> m[i][j] == (i + j) as real
  {
    seq(n, i => seq(n, j => (i + j) as real))
  }

  ghost function MatrixB(n: nat): (m: Mat<real>)
    ensures IsMat(m, n, n)
    ensures forall i, j :: 0 <= i < n && 0 <= j < n ==> m[i][j] == (i * j) as real
  {
    seq(n, i requires 0 <= i < n => seq(n, j requires 0 <= j < n => Prod(i, j) as real))
  }

  lemma InitialContents(n: nat, A: array2<real>, B: array2<real>, C: array2<real>)
    requires Square(A, n) && Square(B, n) && Square(C, n) && Initialised(n, A, B, n, 0)
    requires forall r, q :: 0 <= r < n && 0 <= q < n ==> C[r, q] == 0.0
    ensures Contents(A) == MatrixA(n) && Contents(B) == MatrixB(n) && Contents(C) == Zeros(REAL, n, n)
  {
    hide Prod;
    MatEqual(Contents(A), MatrixA(n), n, n);
    MatEqual(Contents(B), MatrixB(n), n, n);
    MatEqual(Contents(C), Zeros(REAL, n, n), n, n);
  }

  /** `main` of matmul.c up to the output. */
  method SourceMain(n: nat, A: array2<real>, B: array2<real>, C: array2<real>)
    requires A != B && A != C && B != C && Square(A, n) && Square(B, n) && Square(C, n)
    requires n * n <= 0x8000_0000
    modifies A, B, C
    ensures Contents(C) == Product(REAL, MatrixA(n), MatrixB(n), Zeros(REAL, n, n), n, n, n)
    ensures forall r, q :: 0 <= r < n && 0 <= q < n ==> C[r, q] == Dot(MatrixA(n), MatrixB(n), r, q, n)
  {
    InitArray(n, A, B, C);
    InitialContents(n, A, B, C);
    Scop(n, A, B, C);
  }

  /** @main of the IR up to block 73. */
  method CompiledMain(n: nat, A: array2<real>, B: array2<real>, C: array2<real>)
    requires A != B && A != C && B != C && Square(A, n) && Square(B, n) && Square(C, n)
    requires 0 < n && n % 4 == 0 && n * n <= 0x8000_0000
    modifies A, B, C
    ensures Contents(C) == Product(REAL, MatrixA(n), MatrixB(n), Zeros(REAL, n, n), n, n, n)
    ensures forall r, q :: 0 <= r < n && 0 <= q < n ==> C[r, q] == Dot(MatrixA(n), MatrixB(n), r, q, n)
  {
    InitUnrolled(n, A, B, C);
    InitialContents(n, A, B, C);
    Kernel(n, A, B, C);
  }
}
