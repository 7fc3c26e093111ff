/** Matrices as values, and the element operations every loop schedule is written over. */
module Matrix {

  /** The operations a kernel applies to its elements.  Nothing is assumed about them
      unless a lemma says so: neither associativity nor commutativity. */
  datatype Ops<!T> = Ops(zero: T, mul: (T, T) -> T, add: (T, T) -> T)

  type Mat<T> = seq<seq<T>>

  ghost predicate IsMat<T>(m: Mat<T>, rows: nat, cols: nat) {
    |m| == rows && forall i :: 0 <= i < rows ==> |m[i]| == cols
  }

  /** The contents of a two-dimensional buffer. */
  ghost function Contents<T>(a: array2<T>): (m: Mat<T>)
    reads a
    ensures IsMat(m, a.Length0, a.Length1)
    ensures forall i, j :: 0 <= i < a.Length0 && 0 <= j < a.Length1 ==> m[i][j] == a[i, j]
  {
    seq(a.Length0, i requires 0 <= i < a.Length0 reads a =>
      seq(a.Length1, j requires 0 <= j < a.Length1 reads a => a[i, j]))
  }

  lemma MatEqual<T>(m: Mat<T>, n: Mat<T>, rows: nat, cols: nat)
    requires IsMat(m, rows, cols) && IsMat(n, rows, cols)
    requires forall i, j :: 0 <= i < rows && 0 <= j < cols ==> m[i][j] == n[i][j]
    ensures m == n
  {
    forall i | 0 <= i < rows ensures m[i] == n[i] {}
  }

  ghost function Zeros<T>(o: Ops<T>, rows: nat, cols: nat): (m: Mat<T>)
    ensures IsMat(m, rows, cols) && forall i, j :: 0 <= i < rows && 0 <= j < cols ==> m[i][j] == o.zero
  {
    seq(rows, _ => seq(cols, _ => o.zero))
  }
}
