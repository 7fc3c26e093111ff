/** `gemm` of vanilla_gemm.cpp: matrices flattened row by row into vectors. */
module VanillaGemm {
  import opened Division
  import opened Matrix
  import opened NaiveGemm
  import opened TiledGemm

  /** Offset of cell (i, j) in a flattened rows x cols matrix. */
  function At(i: nat, j: nat, rows: nat, cols: nat): (x: nat)
    requires i < rows && j < cols
    ensures x < rows * cols
  {
    Fits(i, rows, j, cols);
    i * cols + j
  }

  /** Distinct cells have distinct offsets, the later row or column the larger one. */
  lemma AtIncreases(i: nat, j: nat, p: nat, q: nat, rows: nat, cols: nat)
    requires i < rows && j < cols && p < rows && q < cols
    ensures At(i, j, rows, cols) < At(p, q, rows, cols) <==> i < p || (i == p && j < q)
  {
    if i < p {
      Scale(i + 1, p, cols);
      assert i * cols + cols <= p * cols;
    } else if p < i {
      Scale(p + 1, i, cols);
      assert p * cols + cols <= i * cols;
    }
  }

  /** The matrix a vector holds. */
  ghost function Rows<T>(v: seq<T>, rows: nat, cols: nat): (m: Mat<T>)
    requires |v| == rows * cols
    ensures IsMat(m, rows, cols)
    ensures forall i, j :: 0 <= i < rows && 0 <= j < cols ==> m[i][j] == v[At(i, j, rows, cols)]
  {
    seq(rows, i requires 0 <= i < rows => seq(cols, j requires 0 <= j < cols => v[At(i, j, rows, cols)]))
  }

  method Gemm<T>(o: Ops<T>, M: nat, N: nat, K: nat, A: array<T>, B: array<T>, C: array<T>)
    requires A != C && B != C
    requires A.Length == M * K && B.Length == K * N && C.Length == M * N
    modifies C
    ensures Rows(C[..], M, N) == Product(o, Rows(A[..], M, K), Rows(B[..], K, N), Zeros(o, M, N), M, K, N)
  {
    hide At;
    ghost var a, b, z := Rows(A[..], M, K), Rows(B[..], K, N), Zeros(o, M, N);
    ghost var p := Product(o, a, b, z, M, K, N);
    for i := 0 to M
      invariant forall r, q :: 0 <= r < M && 0 <= q < N && r < i ==> C[At(r, q, M, N)] == p[r][q]
    {
      for j := 0 to N
        invariant forall r, q :: 0 <= r < M && 0 <= q < N && (r < i || (r == i && q < j)) ==>
          C[At(r, q, M, N)] == p[r][q]
      {
        var c := o.zero;
        for k := 0 to K
          invariant c == Acc(o, a, b, i, j, o.zero, k)
        {
          c := o.add(c, o.mul(A[At(i, k, M, K)], B[At(k, j, K, N)]));
        }
        forall r, q | 0 <= r < M && 0 <= q < N && (r < i || (r == i && q < j))
          ensures At(r, q, M, N) != At(i, j, M, N)
        {
          AtIncreases(r, q, i, j, M, N);
        }
        C[At(i, j, M, N)] := c;
      }
    }
    MatEqual(Rows(C[..], M, N), p, M, N);
  }

  /** `gemm` on the flattened matrices and the tiled nest from a zero matrix compute the same. */
  method GemmAndTiled<T(!new)>(o: Ops<T>, b: Blocking, A: array2<T>, B: array2<T>, C: array2<T>,
                               FlatA: array<T>, FlatB: array<T>, FlatC: array<T>)
    requires A != C && B != C && FlatA != FlatC && FlatB != FlatC
    requires b.Covers() && A.Length0 == b.Rows() && A.Length1 == b.depth
    requires B.Length0 == b.depth && B.Length1 == b.Cols() && C.Length0 == b.Rows() && C.Length1 == b.Cols()
    requires FlatA.Length == b.Rows() * b.depth && FlatB.Length == b.depth * b.Cols()
    requires FlatC.Length == b.Rows() * b.Cols()
    requires Contents(A) == Rows(FlatA[..], b.Rows(), b.depth) && Contents(B) == Rows(FlatB[..], b.depth, b.Cols())
    requires Contents(C) == Zeros(o, b.Rows(), b.Cols())
    modifies C, FlatC
    ensures ProductsCommute(o) ==> Rows(FlatC[..], b.Rows(), b.Cols()) == Contents(C)
  {
    hide Rows, Zeros;
    ghost var c := Contents(C);
    MatmulDragonpie(o, b, A, B, C);
    Gemm(o, b.Rows(), b.Cols(), b.depth, FlatA, FlatB, FlatC);
    if ProductsCommute(o) {
      FlippedProduct(o, Contents(A), Contents(B), c, b.Rows(), b.depth, b.Cols());
    }
  }
}
