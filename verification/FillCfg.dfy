/** `@main` of log.mlir up to ^bb18: three fill loops as a control-flow graph, against the
    structured loops of affine_lower_noop.mlir they were lowered from. */
module FillCfg {
  import opened Matrix

  /** The current block, the live block arguments of the outer and the inner loop header, and the
      three buffers. */
  datatype State<T> = State(block: nat, i: nat, j: nat, alloc: Mat<T>, alloc0: Mat<T>, alloc1: Mat<T>)

  /** Stores happen in ^bb4, ^bb10 and ^bb16, at (i, j). */
  predicate Stores(block: nat) { block == 4 || block == 10 || block == 16 }

  function Put<T>(m: Mat<T>, i: nat, j: nat, x: T): Mat<T>
    requires i < |m| && j < |m[i]|
  {
    m[i := m[i][j := x]]
  }

  ghost predicate Safe<T>(n: nat, s: State<T>) {
    && IsMat(s.alloc, n, n) && IsMat(s.alloc0, n, n) && IsMat(s.alloc1, n, n)
    && (Stores(s.block) ==> s.i < n && s.j < n)
  }

  /** Execute the current block and take its branch; ^bb18 is where the fills are over. */
  function Step<T>(n: nat, cst: T, s: State<T>): State<T>
    requires Safe(n, s)
  {
    match s.block
    case 0 => s.(block := 1, i := 0)
    case 1 => s.(block := if s.i < n then 2 else 6)
    case 2 => s.(block := 3, j := 0)
    case 3 => s.(block := if s.j < n then 4 else 5)
    case 4 => s.(block := 3, j := s.j + 1, alloc := Put(s.alloc, s.i, s.j, cst))
    case 5 => s.(block := 1, i := s.i + 1)
    case 6 => s.(block := 7, i := 0)
    case 7 => s.(block := if s.i < n then 8 else 12)
    case 8 => s.(block := 9, j := 0)
    case 9 => s.(block := if s.j < n then 10 else 11)
    case 10 => s.(block := 9, j := s.j + 1, alloc0 := Put(s.alloc0, s.i, s.j, cst))
    case 11 => s.(block := 7, i := s.i + 1)
    case 12 => s.(block := 13, i := 0)
    case 13 => s.(block := if s.i < n then 14 else 18)
    case 14 => s.(block := 15, j := 0)
    case 15 => s.(block := if s.j < n then 16 else 17)
    case 16 => s.(block := 15, j := s.j + 1, alloc1 := Put(s.alloc1, s.i, s.j, cst))
    case 17 => s.(block := 13, i := s.i + 1)
    case _ => s
  }

  // ----- what holds in every reachable state -----

  /** Which of the three loops the block belongs to, and its place there: outer header, outer body,
      inner header, store, outer increment, exit. */
  function Loop(block: nat): nat { if block == 0 then 0 else (block - 1) / 6 }
  function Place(block: nat): nat { if block == 0 then 6 else (block - 1) % 6 }

  /** The cells before (i, j) in row-major order hold the constant. */
  ghost predicate Filled<T>(m: Mat<T>, n: nat, cst: T, i: nat, j: nat)
    requires IsMat(m, n, n)
  {
    forall r, c :: 0 <= r < n && 0 <= c < n && (r < i || (r == i && c < j)) ==> m[r][c] == cst
  }

  /** How far the k-th buffer has been filled in state s: rows and columns. */
  function RowsDone<T>(n: nat, s: State<T>, k: nat): nat {
    if s.block == 0 || Loop(s.block) < k then 0 else if k < Loop(s.block) then n else s.i
  }
  function ColsDone<T>(n: nat, s: State<T>, k: nat): nat {
    if Loop(s.block) == k && 2 <= Place(s.block) <= 4 then s.j else 0
  }

  ghost predicate Reached<T>(n: nat, cst: T, s: State<T>) {
    && s.block <= 18 && Safe(n, s)
    && Filled(s.alloc, n, cst, RowsDone(n, s, 0), ColsDone(n, s, 0))
    && Filled(s.alloc0, n, cst, RowsDone(n, s, 1), ColsDone(n, s, 1))
    && Filled(s.alloc1, n, cst, RowsDone(n, s, 2), ColsDone(n, s, 2))
    && match Place(s.block)
       case 0 => s.i <= n
       case 1 => s.i < n
       case 2 => s.i < n && s.j <= n
       case 3 => s.i < n && s.j < n
       case 4 => s.i < n && s.j == n
       case 5 => s.i == n
       case _ => true
  }

  lemma StepReaches<T>(n: nat, cst: T, s: State<T>)
    requires Reached(n, cst, s)
    ensures Reached(n, cst, Step(n, cst, s))
  {
    if Stores(s.block) {
      StoreFills(if s.block == 4 then s.alloc else if s.block == 10 then s.alloc0 else s.alloc1, n, cst, s.i, s.j);
    } else if Place(s.block) == 4 {
      RowEnds(if s.block == 5 then s.alloc else if s.block == 11 then s.alloc0 else s.alloc1, n, cst, s.i);
    }
    hide Filled, IsMat, Put;
  }

  lemma StoreFills<T>(m: Mat<T>, n: nat, cst: T, i: nat, j: nat)
    requires IsMat(m, n, n) && i < n && j < n && Filled(m, n, cst, i, j)
    ensures IsMat(Put(m, i, j, cst), n, n) && Filled(Put(m, i, j, cst), n, cst, i, j + 1)
  {
  }

  lemma RowEnds<T>(m: Mat<T>, n: nat, cst: T, i: nat)
    requires IsMat(m, n, n) && Filled(m, n, cst, i, n)
    ensures Filled(m, n, cst, i + 1, 0)
  {
  }

  /** The state after k steps. */
  ghost function After<T>(n: nat, cst: T, s: State<T>, k: nat): (r: State<T>)
    requires Reached(n, cst, s)
    ensures Reached(n, cst, r)
  {
    if k == 0 then s
    else
      StepReaches(n, cst, After(n, cst, s, k - 1));
      Step(n, cst, After(n, cst, s, k - 1))
  }

  // ----- every run ends -----

  function Stage(place: nat): nat {
    match place
    case 6 => 4
    case 0 => 3
    case 1 => 2
    case 5 => 2
    case 4 => 0
    case _ => 1
  }

  function Inner<T>(n: nat, s: State<T>): int {
    if Place(s.block) == 2 || Place(s.block) == 3 then n - s.j else 0
  }

  /** The number of steps to ^bb18: loops left, rows left, stage of the row, columns left, and the
      header before the store, in lexicographic order, decrease. */
  ghost function StepsToEnd<T>(n: nat, cst: T, s: State<T>): nat
    requires Reached(n, cst, s)
    decreases 3 - Loop(s.block), if s.block == 0 then n + 1 else n - s.i, Stage(Place(s.block)), Inner(n, s),
              if Place(s.block) == 2 then 1 else 0
  {
    if s.block == 18 then 0
    else
      StepReaches(n, cst, s);
      1 + StepsToEnd(n, cst, Step(n, cst, s))
  }

  lemma {:induction false} EndIsReached<T>(n: nat, cst: T, s: State<T>)
    requires Reached(n, cst, s)
    ensures After(n, cst, s, StepsToEnd(n, cst, s)).block == 18
    decreases StepsToEnd(n, cst, s)
  {
    assert Safe(n, s);
    OneStepLess(n, cst, s);
    hide Step, Reached, StepsToEnd, After, Loop, Place, Stage, Inner, Safe;
    if s.block == 18 {
      NoSteps(n, cst, s);
    } else {
      EndIsReached(n, cst, Step(n, cst, s));
      Shift(n, cst, s, StepsToEnd(n, cst, Step(n, cst, s)));
    }
  }

  lemma NoSteps<T>(n: nat, cst: T, s: State<T>)
    requires Reached(n, cst, s)
    ensures After(n, cst, s, 0) == s
  {
  }

  lemma OneStepLess<T>(n: nat, cst: T, s: State<T>)
    requires Reached(n, cst, s)
    ensures Reached(n, cst, Step(n, cst, s))
    ensures StepsToEnd(n, cst, s) == if s.block == 18 then 0 else 1 + StepsToEnd(n, cst, Step(n, cst, s))
  {
    StepReaches(n, cst, s);
    hide Step, Reached;
  }

  lemma {:induction false} Shift<T>(n: nat, cst: T, s: State<T>, k: nat)
    requires Reached(n, cst, s) && Reached(n, cst, Step(n, cst, s))
    ensures After(n, cst, s, k + 1) == After(n, cst, Step(n, cst, s), k)
  {
    hide Step, Reached;
    if k == 0 {
      assert After(n, cst, s, 0) == s;
    } else {
      Shift(n, cst, s, k - 1);
    }
  }

  ghost function Full<T>(n: nat, cst: T): (m: Mat<T>)
    ensures IsMat(m, n, n)
  {
    seq(n, _ => seq(n, _ => cst))
  }

  /** From any initial contents and for any bound, the program reaches ^bb18, and there all three
      buffers are full. */
  lemma RunFills<T>(n: nat, cst: T, i: nat, j: nat, a: Mat<T>, b: Mat<T>, c: Mat<T>)
    requires IsMat(a, n, n) && IsMat(b, n, n) && IsMat(c, n, n)
    ensures var s := State(0, i, j, a, b, c);
      && Reached(n, cst, s)
      && var e := After(n, cst, s, StepsToEnd(n, cst, s));
         e.block == 18 && e.alloc == e.alloc0 == e.alloc1 == Full(n, cst)
  {
    var s := State(0, i, j, a, b, c);
    EndIsReached(n, cst, s);
    var e := After(n, cst, s, StepsToEnd(n, cst, s));
    hide StepsToEnd, After;
    MatEqual(e.alloc, Full(n, cst), n, n);
    MatEqual(e.alloc0, Full(n, cst), n, n);
    MatEqual(e.alloc1, Full(n, cst), n, n);
  }

  // ----- the structured loops -----

  method Fill<T>(n: nat, cst: T, m: array2<T>)
    requires m.Length0 == n && m.Length1 == n
    modifies m
    ensures Contents(m) == Full(n, cst)
  {
    for i := 0 to n
      invariant Filled(Contents(m), n, cst, i, 0)
    {
      for j := 0 to n
        invariant Filled(Contents(m), n, cst, i, j)
      {
        m[i, j] := cst;
      }
    }
    MatEqual(Contents(m), Full(n, cst), n, n);
  }

  /** The three scf.for nests leave the buffers as the control-flow graph does, whatever they held. */
  method FillStructured<T>(n: nat, cst: T, alloc: array2<T>, alloc0: array2<T>, alloc1: array2<T>)
    requires alloc != alloc0 && alloc != alloc1 && alloc0 != alloc1
    requires alloc.Length0 == alloc0.Length0 == alloc1.Length0 == n
    requires alloc.Length1 == alloc0.Length1 == alloc1.Length1 == n
    modifies alloc, alloc0, alloc1
    ensures var s := State(0, 0, 0, old(Contents(alloc)), old(Contents(alloc0)), old(Contents(alloc1)));
      && Reached(n, cst, s)
      && var e := After(n, cst, s, StepsToEnd(n, cst, s));
         Contents(alloc) == e.alloc && Contents(alloc0) == e.alloc0 && Contents(alloc1) == e.alloc1
  {
    RunFills(n, cst, 0, 0, Contents(alloc), Contents(alloc0), Contents(alloc1));
    Fill(n, cst, alloc);
    Fill(n, cst, alloc0);
    Fill(n, cst, alloc1);
  }
}
