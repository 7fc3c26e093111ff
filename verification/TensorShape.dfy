/** Shapes of tensors: one extent per dimension. */
module TensorShape {

  type Shape = seq<nat>

  /** How many elements a tensor of this shape has. */
  function Size(shape: Shape): nat {
    if shape == [] then 1 else shape[0] * Size(shape[1..])
  }

  lemma Size1(n: nat)
    ensures Size([n]) == n
  {
    assert Size([n]) == n * Size([n][1..]);
  }

  lemma Size2(m: nat, n: nat)
    ensures Size([m, n]) == m * n
  {
    Size1(n);
    assert [m, n][1..] == [n];
  }
}
