/** The naive in-place matrix product, C += A * B, and its value. */
module NaiveGemm {
  import opened Matrix

  /** What cell (r, c) holds after the contributions of A[r][0..n] * B[0..n][c], taken in
      ascending order, have been added on the right of the accumulator. */
  function Acc<T>(o: Ops<T>, a: Mat<T>, b: Mat<T>, r: nat, c: nat, init: T, n: nat): T
    requires r < |a| && n <= |a[r]| && n <= |b| && forall k :: 0 <= k < n ==> c < |b[k]|
  {
    if n == 0 then init
    else o.add(Acc(o, a, b, r, c, init, n - 1), o.mul(a[r][n - 1], b[n - 1][c]))
  }

  /** ((init + xs[0]) + xs[1]) + ... */
  function FoldLeft<T>(add: (T, T) -> T, init: T, xs: seq<T>): T {
    if xs == [] then init else FoldLeft(add, add(init, xs[0]), xs[1..])
  }

  lemma {:induction false} FoldSnoc<T>(add: (T, T) -> T, init: T, xs: seq<T>, x: T)
    ensures FoldLeft(add, init, xs + [x]) == add(FoldLeft(add, init, xs), x)
    decreases |xs|
  {
    if xs == [] {
      assert ([] + [x])[1..] == [];
    } else {
      assert (xs + [x])[0] == xs[0] && (xs + [x])[1..] == xs[1..] + [x];
      FoldSnoc(add, add(init, xs[0]), xs[1..], x);
    }
  }

  /** The contributions in order. */
  function Products<T>(o: Ops<T>, a: Mat<T>, b: Mat<T>, r: nat, c: nat, n: nat): (xs: seq<T>)
    requires r < |a| && n <= |a[r]| && n <= |b| && forall k :: 0 <= k < n ==> c < |b[k]|
    ensures |xs| == n && forall k :: 0 <= k < n ==> xs[k] == o.mul(a[r][k], b[k][c])
  {
    seq(n, k requires 0 <= k < n => o.mul(a[r][k], b[k][c]))
  }

  lemma {:induction false} AccIsFold<T>(o: Ops<T>, a: Mat<T>, b: Mat<T>, r: nat, c: nat, init: T, n: nat)
    requires r < |a| && n <= |a[r]| && n <= |b| && forall k :: 0 <= k < n ==> c < |b[k]|
    ensures Acc(o, a, b, r, c, init, n) == FoldLeft(o.add, init, Products(o, a, b, r, c, n))
  {
    if n != 0 {
      AccIsFold(o, a, b, r, c, init, n - 1);
      var before, last := Products(o, a, b, r, c, n - 1), o.mul(a[r][n - 1], b[n - 1][c]);
      assert Products(o, a, b, r, c, n) == before + [last];
      FoldSnoc(o.add, init, before, last);
    }
  }

  ghost predicate Conform<T>(a: Mat<T>, b: Mat<T>, c: Mat<T>, m: nat, k: nat, n: nat) {
    IsMat(a, m, k) && IsMat(b, k, n) && IsMat(c, m, n)
  }

  /** The matrix C + A * B. */
  ghost function Product<T>(o: Ops<T>, a: Mat<T>, b: Mat<T>, c: Mat<T>, m: nat, k: nat, n: nat): (p: Mat<T>)
    requires Conform(a, b, c, m, k, n)
    ensures IsMat(p, m, n)
    ensures forall r, j :: 0 <= r < m && 0 <= j < n ==> p[r][j] == Acc(o, a, b, r, j, c[r][j], k)
  {
    seq(m, r requires 0 <= r < m =>
      seq(n, j requires 0 <= j < n => Acc(o, a, b, r, j, c[r][j], k)))
  }

  /** `@matmul` of affine_gemm.mlir. */
  method Matmul<T>(o: Ops<T>, A: array2<T>, B: array2<T>, C: array2<T>)
    requires A != C && B != C
    requires A.Length0 == C.Length0 && A.Length1 == B.Length0 && B.Length1 == C.Length1
    modifies C
    ensures Contents(C) == Product(o, Contents(A), Contents(B), old(Contents(C)), C.Length0, A.Length1, C.Length1)
  {
    var m, k, n := C.Length0, A.Length1, C.Length1;
    ghost var a, b, c := Contents(A), Contents(B), Contents(C);
    for i := 0 to m
      invariant forall r, j :: 0 <= r < m && 0 <= j < n ==>
        C[r, j] == if r < i then Acc(o, a, b, r, j, c[r][j], k) else c[r][j]
    {
      for j := 0 to n
        invariant forall r, q :: 0 <= r < m && 0 <= q < n ==>
          C[r, q] == if r < i || (r == i && q < j) then Acc(o, a, b, r, q, c[r][q], k) else c[r][q]
      {
        for l := 0 to k
          invariant C[i, j] == Acc(o, a, b, i, j, c[i][j], l)
          invariant forall r, q :: 0 <= r < m && 0 <= q < n && (r != i || q != j) ==>
            C[r, q] == if r < i || (r == i && q < j) then Acc(o, a, b, r, q, c[r][q], k) else c[r][q]
        {
          C[i, j] := o.add(C[i, j], o.mul(A[i, l], B[l, j]));
        }
      }
    }
    MatEqual(Contents(C), Product(o, a, b, c, m, k, n), m, n);
  }
}
