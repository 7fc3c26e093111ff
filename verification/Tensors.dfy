/** Tensors as values, and the two operations the importer emits on them. */
module Tensors {
  import opened Division
  import opened Matrix
  import opened NaiveGemm
  import V = VanillaGemm
  import opened Options
  import opened TensorShape

  /** A tensor's elements in row-major order. */
  datatype Tensor<T> = Tensor(shape: Shape, data: seq<T>)
  {
    ghost predicate Valid() { |data| == Size(shape) }
  }

  /** Elementwise sum; only for equal shapes. */
  function Add<T>(o: Ops<T>, a: Tensor<T>, b: Tensor<T>): (r: Option<Tensor<T>>)
  {
    if a.shape == b.shape && |a.data| == |b.data| then
      Some(Tensor(a.shape, seq(|a.data|, x requires 0 <= x < |a.data| => o.add(a.data[x], b.data[x]))))
    else None
  }

  /** torch.add on equal shapes: every element is the sum of the two at its place. */
  ghost predicate IsSum<T>(o: Ops<T>, a: Tensor<T>, b: Tensor<T>, r: Tensor<T>) {
    && a.shape == b.shape == r.shape && |a.data| == |b.data| == |r.data|
    && forall x :: 0 <= x < |r.data| ==> r.data[x] == o.add(a.data[x], b.data[x])
  }

  lemma AddIsSum<T>(o: Ops<T>, a: Tensor<T>, b: Tensor<T>)
    requires a.shape == b.shape && |a.data| == |b.data|
    ensures Add(o, a, b).Some? && IsSum(o, a, b, Add(o, a, b).value)
    ensures forall r :: IsSum(o, a, b, r) ==> r == Add(o, a, b).value
  {
    var s := Add(o, a, b).value;
    forall r | IsSum(o, a, b, r) ensures r == s {
      assert r.data == s.data;
    }
  }

  ghost function TorchAdd<T>(o: Ops<T>, a: Tensor<T>, b: Tensor<T>): (r: Option<Tensor<T>>)
    requires a.Valid() && b.Valid()
    ensures r == Add(o, a, b) && (r.Some? ==> r.value.Valid())
  {
    if a.shape == b.shape then
      AddIsSum(o, a, b);
      var r :| IsSum(o, a, b, r);
      Some(r)
    else None
  }

  predicate Multipliable(s: Shape, t: Shape) { |s| == 2 && |t| == 2 && s[1] == t[0] }

  /** acc + a[i][0] * b[0][j] + ... + a[i][l-1] * b[l-1][j], on flattened matrices. */
  function Dot<T>(o: Ops<T>, a: Tensor<T>, b: Tensor<T>, i: nat, j: nat, l: nat, acc: T): T
    requires a.Valid() && b.Valid() && Multipliable(a.shape, b.shape)
    requires i < a.shape[0] && j < b.shape[1] && l <= a.shape[1]
    decreases l
  {
    if l == 0 then acc
    else
      var k, n := a.shape[1], b.shape[1];
      Size2(a.shape[0], k); Size2(k, n);
      assert a.shape == [a.shape[0], k] && b.shape == [k, n];
      Fits(i, a.shape[0], l - 1, k);
      Fits(l - 1, k, j, n);
      o.add(Dot(o, a, b, i, j, l - 1, acc), o.mul(a.data[i * k + (l - 1)], b.data[(l - 1) * n + j]))
  }

  /** linalg.matmul: the product is added to what `outs` holds. */
  function MatmulInto<T>(o: Ops<T>, a: Tensor<T>, b: Tensor<T>, outs: Tensor<T>): Option<Tensor<T>>
    requires a.Valid() && b.Valid() && outs.Valid()
  {
    if Multipliable(a.shape, b.shape) && outs.shape == [a.shape[0], b.shape[1]] then
      Size2(a.shape[0], b.shape[1]);
      Some(Tensor(outs.shape, seq(|outs.data|, x requires 0 <= x < |outs.data| =>
        Split(x, b.shape[1], a.shape[0]);
        Dot(o, a, b, x / b.shape[1], x % b.shape[1], a.shape[1], outs.data[x]))))
    else None
  }

  /** torch.matmul on matrices: cell (i, j) is the sum of the products. */
  ghost predicate IsMatmul<T>(o: Ops<T>, a: Tensor<T>, b: Tensor<T>, r: Tensor<T>)
    requires a.Valid() && b.Valid() && Multipliable(a.shape, b.shape)
  {
    && r.shape == [a.shape[0], b.shape[1]] && r.Valid()
    && forall i: nat, j: nat :: i < a.shape[0] && j < b.shape[1] ==>
         Cell(r, i, j) == Some(Dot(o, a, b, i, j, a.shape[1], o.zero))
  }

  function Cell<T>(t: Tensor<T>, i: nat, j: nat): Option<T> {
    if |t.shape| == 2 && i * t.shape[1] + j < |t.data| then Some(t.data[i * t.shape[1] + j]) else None
  }

  function Splat<T>(shape: Shape, x: T): (t: Tensor<T>)
    ensures t.Valid()
  {
    Tensor(shape, seq(Size(shape), _ => x))
  }

  /** With zero-filled outs, linalg.matmul is torch.matmul. */
  lemma ZeroOuts<T>(o: Ops<T>, a: Tensor<T>, b: Tensor<T>)
    requires a.Valid() && b.Valid() && Multipliable(a.shape, b.shape)
    ensures var r := MatmulInto(o, a, b, Splat([a.shape[0], b.shape[1]], o.zero));
      r.Some? && IsMatmul(o, a, b, r.value)
  {
    var m, n := a.shape[0], b.shape[1];
    var r := MatmulInto(o, a, b, Splat([m, n], o.zero)).value;
    Size2(m, n);
    forall i: nat, j: nat | i < m && j < n
      ensures Cell(r, i, j) == Some(Dot(o, a, b, i, j, a.shape[1], o.zero))
    {
      Fits(i, m, j, n);
      Join(n, i, j, i * n + j);
    }
  }

  lemma MatmulUnique<T>(o: Ops<T>, a: Tensor<T>, b: Tensor<T>, r: Tensor<T>, q: Tensor<T>)
    requires a.Valid() && b.Valid() && Multipliable(a.shape, b.shape)
    requires IsMatmul(o, a, b, r) && IsMatmul(o, a, b, q)
    ensures r == q
  {
    var m, n := a.shape[0], b.shape[1];
    Size2(m, n);
    forall x | 0 <= x < |r.data| ensures r.data[x] == q.data[x] {
      Split(x, n, m);
      assert Cell(r, x / n, x % n) == Some(r.data[x]) && Cell(q, x / n, x % n) == Some(q.data[x]);
    }
  }

  ghost function TorchMatmul<T>(o: Ops<T>, a: Tensor<T>, b: Tensor<T>): (r: Option<Tensor<T>>)
    requires a.Valid() && b.Valid()
    ensures r.Some? ==> r.value.Valid()
  {
    if Multipliable(a.shape, b.shape) then
      ZeroOuts(o, a, b);
      var r :| IsMatmul(o, a, b, r);
      Some(r)
    else None
  }

  // ----- matrices -----

  /** The matrix a tensor of rank two holds. */
  ghost function Matrix2<T>(t: Tensor<T>): (m: Mat<T>)
    requires t.Valid() && |t.shape| == 2
    ensures IsMat(m, t.shape[0], t.shape[1])
  {
    assert t.shape == [t.shape[0], t.shape[1]];
    Size2(t.shape[0], t.shape[1]);
    V.Rows(t.data, t.shape[0], t.shape[1])
  }

  lemma {:induction false} DotIsAcc<T>(o: Ops<T>, a: Tensor<T>, b: Tensor<T>, i: nat, j: nat, l: nat, acc: T)
    requires a.Valid() && b.Valid() && Multipliable(a.shape, b.shape)
    requires i < a.shape[0] && j < b.shape[1] && l <= a.shape[1]
    ensures Dot(o, a, b, i, j, l, acc) == Acc(o, Matrix2(a), Matrix2(b), i, j, acc, l)
  {
    if l != 0 {
      DotIsAcc(o, a, b, i, j, l - 1, acc);
      assert a.shape == [a.shape[0], a.shape[1]] && b.shape == [b.shape[0], b.shape[1]];
      Size2(a.shape[0], a.shape[1]);
      Size2(b.shape[0], b.shape[1]);
    }
  }

  /** torch.matmul is the naive product from a zero matrix. */
  lemma MatmulIsProduct<T>(o: Ops<T>, a: Tensor<T>, b: Tensor<T>, r: Tensor<T>)
    requires a.Valid() && b.Valid() && Multipliable(a.shape, b.shape) && IsMatmul(o, a, b, r)
    ensures Matrix2(r) == Product(o, Matrix2(a), Matrix2(b), Zeros(o, a.shape[0], b.shape[1]),
                                  a.shape[0], a.shape[1], b.shape[1])
  {
    var m, k, n := a.shape[0], a.shape[1], b.shape[1];
    var p := Product(o, Matrix2(a), Matrix2(b), Zeros(o, m, n), m, k, n);
    assert r.shape == [m, n];
    Size2(m, n);
    forall i, j | 0 <= i < m && 0 <= j < n ensures Matrix2(r)[i][j] == p[i][j] {
      DotIsAcc(o, a, b, i, j, k, o.zero);
      assert Cell(r, i, j) == Some(Dot(o, a, b, i, j, k, o.zero));
      Fits(i, m, j, n);
    }
    MatEqual(Matrix2(r), p, m, n);
  }
}
