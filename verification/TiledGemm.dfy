/** `@matmul_dragonpie`: the seven-deep BLIS-style schedule, with its block sizes as parameters. */
module TiledGemm {
  import opened Division
  import opened Matrix
  import opened NaiveGemm

  function Min(x: int, y: int): int { if x < y then x else y }

  /** The constants of the nest.  `DGEMM` and `SGEMM` below give the two checked-in choices. */
  datatype Blocking = Blocking(
    depth: nat,      // extent of the reduction dimension
    kTrips: nat,     // trip count of %k
    kC: nat,         // depth of a reduction panel
    iTrips: nat,     // trip count of %i
    iB: nat,         // row tiles in a row panel
    rowTiles: nat,   // clip of #I_UB: row tiles in all
    mR: nat,         // rows of a micro-tile
    jTrips: nat,     // trip count of %jj
    nR: nat)         // columns of a micro-tile
  {
    /** The trip counts of %k and %i reach the clipped ends of the ranges they tile. */
    ghost predicate Covers() {
      && 0 < kC && 0 < iB && 0 < mR && 0 < nR
      && depth <= kTrips * kC && rowTiles <= iTrips * iB
    }

    function Rows(): nat { rowTiles * mR }
    function Cols(): nat { jTrips * nR }
  }

  /** First reduction index of panel k. */
  function KStart(b: Blocking, k: int): int { k * b.kC }
  /** #K_UB */
  function KUpper(b: Blocking, k: int): int { Min(b.kC, b.depth - KStart(b, k)) }
  /** #I_LB */
  function ILower(b: Blocking, i: int): int { i * b.iB }
  /** #I_UB */
  function IUpper(b: Blocking, i: int): int { Min(b.rowTiles, ILower(b, i) + b.iB) }

  /** The micro-tile row r lies in and its place there; the same for column c. */
  function Tile(b: Blocking, r: nat): int requires b.Covers() { r / b.mR }
  function Lane(b: Blocking, r: nat): int requires b.Covers() { r % b.mR }
  function Strip(b: Blocking, c: nat): int requires b.Covers() { c / b.nR }
  function Place(b: Blocking, c: nat): int requires b.Covers() { c % b.nR }

  const DGEMM := Blocking(2048, 5, 480, 7, 110, 696, 3, 128, 16)
  const SGEMM := Blocking(2048, 5, 480, 7, 110, 696, 3, 64, 32)

  /** A point of the schedule: the values of the seven loop counters, outermost first. */
  datatype Point = Point(k: int, i: int, jj: int, ii: int, kk: int, jjR: int, iiR: int)

  /** How many contributions cell (r, c) has received when the schedule reaches point p. */
  function Done(b: Blocking, p: Point, r: nat, c: nat): (d: int)
    requires b.Covers()
  {
    var (tile, lane) := (Tile(b, r), Lane(b, r));
    var (strip, place) := (Strip(b, c), Place(b, c));
    var before := Min(b.depth, KStart(b, p.k));
    var after := Min(b.depth, KStart(b, p.k) + b.kC);
    if tile < ILower(b, p.i) then after
    else if ILower(b, p.i) + b.iB <= tile then before
    else if strip != p.jj then (if strip < p.jj then after else before)
    else if tile != p.ii then (if tile < p.ii then after else before)
    else before + p.kk + if place < p.jjR || (place == p.jjR && lane < p.iiR) then 1 else 0
  }

  /** The nest adds each product on the left of the accumulator, the naive loop on the right. */
  function Flipped<T>(o: Ops<T>): Ops<T> {
    o.(add := (x, y) => o.add(y, x))
  }

  // ----- how the schedule point moves and what that does to the progress of a cell -----

  lemma KStarts(b: Blocking, k: int)
    requires b.Covers()
    ensures KStart(b, 0) == 0 && KStart(b, k + 1) == KStart(b, k) + b.kC && b.depth <= KStart(b, b.kTrips)
    ensures 0 <= k ==> 0 <= KStart(b, k)
  {
    Scale(0, if k < 0 then 0 else k, b.kC);
  }

  lemma ILowers(b: Blocking, i: int)
    requires b.Covers()
    ensures ILower(b, 0) == 0 && ILower(b, i + 1) == ILower(b, i) + b.iB && b.rowTiles <= ILower(b, b.iTrips)
    ensures 0 <= i ==> 0 <= ILower(b, i)
  {
    Scale(0, if i < 0 then 0 else i, b.iB);
  }

  lemma Tiles(b: Blocking, r: nat)
    requires b.Covers() && r < b.Rows()
    ensures 0 <= Tile(b, r) < b.rowTiles && 0 <= Lane(b, r) < b.mR
  {
    Split(r, b.mR, b.rowTiles);
  }

  lemma Strips(b: Blocking, c: nat)
    requires b.Covers() && c < b.Cols()
    ensures 0 <= Strip(b, c) < b.jTrips && 0 <= Place(b, c) < b.nR
  {
    Split(c, b.nR, b.jTrips);
  }

  ghost predicate Same(b: Blocking, p: Point, q: Point)
    requires b.Covers()
  {
    forall r, c :: 0 <= r < b.Rows() && 0 <= c < b.Cols() ==> Done(b, p, r, c) == Done(b, q, r, c)
  }

  lemma AfterRows(b: Blocking, p: Point)
    requires b.Covers() && p.iiR == b.mR
    ensures Same(b, p, p.(jjR := p.jjR + 1, iiR := 0))
  {
    hide KStart, ILower, Tile, Lane, Strip, Place;
    forall r: nat, c: nat | r < b.Rows() && c < b.Cols()
      ensures Done(b, p, r, c) == Done(b, p.(jjR := p.jjR + 1, iiR := 0), r, c)
    {
      Tiles(b, r);
    }
  }

  lemma AfterColumns(b: Blocking, p: Point)
    requires b.Covers() && p.jjR == b.nR && p.iiR == 0
    ensures Same(b, p, p.(kk := p.kk + 1, jjR := 0))
  {
    hide KStart, ILower, Tile, Lane, Strip, Place;
    forall r: nat, c: nat | r < b.Rows() && c < b.Cols()
      ensures Done(b, p, r, c) == Done(b, p.(kk := p.kk + 1, jjR := 0), r, c)
    {
      Tiles(b, r);
      Strips(b, c);
    }
  }

  lemma AfterDepth(b: Blocking, p: Point)
    requires b.Covers() && 0 <= p.kk && KUpper(b, p.k) <= p.kk && (p.kk == 0 || p.kk == KUpper(b, p.k))
    requires p.jjR == 0 && p.iiR == 0
    ensures Same(b, p, p.(ii := p.ii + 1, kk := 0))
  {
    hide KStart, ILower, Tile, Lane, Strip, Place;
    forall r: nat, c: nat | r < b.Rows() && c < b.Cols()
      ensures Done(b, p, r, c) == Done(b, p.(ii := p.ii + 1, kk := 0), r, c)
    {
      Tiles(b, r);
      Strips(b, c);
    }
  }

  lemma AfterTiles(b: Blocking, p: Point)
    requires b.Covers() && ILower(b, p.i) <= p.ii && IUpper(b, p.i) <= p.ii
    requires p.kk == 0 && p.jjR == 0 && p.iiR == 0
    ensures Same(b, p, p.(jj := p.jj + 1, ii := ILower(b, p.i)))
  {
    hide KStart, ILower, Tile, Lane, Strip, Place;
    forall r: nat, c: nat | r < b.Rows() && c < b.Cols()
      ensures Done(b, p, r, c) == Done(b, p.(jj := p.jj + 1, ii := ILower(b, p.i)), r, c)
    {
      Tiles(b, r);
      Strips(b, c);
    }
  }

  lemma AfterStrips(b: Blocking, p: Point)
    requires b.Covers() && p.jj == b.jTrips && p.ii == ILower(b, p.i)
    requires p.kk == 0 && p.jjR == 0 && p.iiR == 0
    ensures Same(b, p, p.(i := p.i + 1, jj := 0, ii := ILower(b, p.i + 1)))
  {
    hide KStart, ILower, Tile, Lane, Strip, Place;
    ILowers(b, p.i);
    forall r: nat, c: nat | r < b.Rows() && c < b.Cols()
      ensures Done(b, p, r, c) == Done(b, p.(i := p.i + 1, jj := 0, ii := ILower(b, p.i + 1)), r, c)
    {
      Tiles(b, r);
      Strips(b, c);
    }
  }

  lemma AfterPanels(b: Blocking, p: Point)
    requires b.Covers() && p.i == b.iTrips && p.jj == 0 && p.ii == ILower(b, p.i)
    requires p.kk == 0 && p.jjR == 0 && p.iiR == 0
    ensures Same(b, p, Point(p.k + 1, 0, 0, 0, 0, 0, 0))
  {
    hide KStart, ILower, Tile, Lane, Strip, Place;
    KStarts(b, p.k);
    ILowers(b, 0);
    forall r: nat, c: nat | r < b.Rows() && c < b.Cols()
      ensures Done(b, p, r, c) == Done(b, Point(p.k + 1, 0, 0, 0, 0, 0, 0), r, c)
    {
      Tiles(b, r);
      Strips(b, c);
    }
  }

  lemma Ends(b: Blocking, r: nat, c: nat)
    requires b.Covers() && r < b.Rows() && c < b.Cols()
    ensures Done(b, Point(0, 0, 0, 0, 0, 0, 0), r, c) == 0
    ensures Done(b, Point(b.kTrips, 0, 0, 0, 0, 0, 0), r, c) == b.depth
  {
    hide KStart, ILower, Tile, Lane, Strip, Place;
    KStarts(b, 0);
    ILowers(b, 0);
    Tiles(b, r);
    Strips(b, c);
  }

  /** The point lies inside all seven loops. */
  ghost predicate Inside(b: Blocking, p: Point) {
    && 0 <= p.k < b.kTrips && 0 <= p.i < b.iTrips && 0 <= p.jj < b.jTrips
    && ILower(b, p.i) <= p.ii < IUpper(b, p.i)
    && 0 <= p.kk < KUpper(b, p.k) && 0 <= p.jjR < b.nR && 0 <= p.iiR < b.mR
  }

  /** The row, reduction index and column touched by the innermost body. */
  function Row(b: Blocking, p: Point): int { p.ii * b.mR + p.iiR }
  function Depth(b: Blocking, p: Point): int { KStart(b, p.k) + p.kk }
  function Col(b: Blocking, p: Point): int { p.jj * b.nR + p.jjR }

  lemma InBounds(b: Blocking, p: Point)
    requires b.Covers() && Inside(b, p)
    ensures 0 <= Row(b, p) < b.Rows() && 0 <= Depth(b, p) < b.depth && 0 <= Col(b, p) < b.Cols()
  {
    hide KStart, ILower;
    KStarts(b, p.k);
    ILowers(b, p.i);
    Fits(p.ii, b.rowTiles, p.iiR, b.mR);
    Fits(p.jj, b.jTrips, p.jjR, b.nR);
  }

  lemma OneCell(b: Blocking, p: Point, r: nat, c: nat)
    requires b.Covers() && Inside(b, p)
    ensures r == Row(b, p) <==> Tile(b, r) == p.ii && Lane(b, r) == p.iiR
    ensures c == Col(b, p) <==> Strip(b, c) == p.jj && Place(b, c) == p.jjR
  {
    hide KStart, ILower;
    Join(b.mR, p.ii, p.iiR, r);
    Join(b.nR, p.jj, p.jjR, c);
  }

  /** One execution of the body adds contribution Depth(p) to cell (Row(p), Col(p)), which has
      received exactly the ones before it, and to no other cell. */
  lemma BodyStep(b: Blocking, p: Point, r: nat, c: nat)
    requires b.Covers() && Inside(b, p) && r < b.Rows() && c < b.Cols()
    ensures if r == Row(b, p) && c == Col(b, p)
            then Done(b, p, r, c) == Depth(b, p) && Done(b, p.(iiR := p.iiR + 1), r, c) == Depth(b, p) + 1
            else Done(b, p.(iiR := p.iiR + 1), r, c) == Done(b, p, r, c)
  {
    hide KStart, ILower, Tile, Lane, Strip, Place, Row, Col;
    OneCell(b, p, r, c);
  }

  /** The point at which the body visits the triple (r, d, c). */
  function Visit(b: Blocking, r: nat, d: nat, c: nat): Point
    requires b.Covers()
  {
    Point(d / b.kC, Tile(b, r) / b.iB, Strip(b, c), Tile(b, r), d % b.kC, Place(b, c), Lane(b, r))
  }

  lemma VisitIsInside(b: Blocking, r: nat, d: nat, c: nat)
    requires b.Covers() && r < b.Rows() && d < b.depth && c < b.Cols()
    ensures var p := Visit(b, r, d, c);
      Inside(b, p) && Row(b, p) == r && Depth(b, p) == d && Col(b, p) == c
  {
    hide Tile, Lane, Strip, Place, Row, Col;
    Tiles(b, r);
    Strips(b, c);
    Split(d, b.kC, b.kTrips);
    Split(Tile(b, r), b.iB, b.iTrips);
    OneCell(b, Visit(b, r, d, c), r, c);
  }

  lemma VisitIsUnique(b: Blocking, p: Point)
    requires b.Covers() && Inside(b, p)
    ensures 0 <= Row(b, p) && 0 <= Depth(b, p) && 0 <= Col(b, p)
    ensures p == Visit(b, Row(b, p), Depth(b, p), Col(b, p))
  {
    hide Tile, Lane, Strip, Place, Row, Col;
    InBounds(b, p);
    OneCell(b, p, Row(b, p), Col(b, p));
    Join(b.kC, p.k, p.kk, Depth(b, p));
    ILowers(b, p.i);
    Join(b.iB, p.i, p.ii - ILower(b, p.i), p.ii);
  }

  /** Every triple of the M x K x N space is visited, and by no other point. */
  lemma VisitedExactlyOnce(b: Blocking, r: nat, d: nat, c: nat, p: Point)
    requires b.Covers() && r < b.Rows() && d < b.depth && c < b.Cols()
    ensures Inside(b, p) && Row(b, p) == r && Depth(b, p) == d && Col(b, p) == c <==> p == Visit(b, r, d, c)
  {
    hide Visit, Inside, Row, Depth, Col;
    if Inside(b, p) && Row(b, p) == r && Depth(b, p) == d && Col(b, p) == c {
      VisitIsUnique(b, p);
    }
    VisitIsInside(b, r, d, c);
  }

  /** Every cell holds the contributions it should have received at point p. */
  ghost predicate Progress<T>(o: Ops<T>, b: Blocking, a: Mat<T>, m: Mat<T>, c: Mat<T>, C: array2<T>, p: Point)
    requires b.Covers() && Conform(a, m, c, b.Rows(), b.depth, b.Cols())
    requires C.Length0 == b.Rows() && C.Length1 == b.Cols()
    reads C
  {
    forall r, j :: 0 <= r < b.Rows() && 0 <= j < b.Cols() ==>
      var d := Done(b, p, r, j);
      0 <= d <= b.depth && C[r, j] == Acc(Flipped(o), a, m, r, j, c[r][j], d)
  }

  lemma Begin<T>(o: Ops<T>, b: Blocking, a: Mat<T>, m: Mat<T>, c: Mat<T>, C: array2<T>)
    requires b.Covers() && Conform(a, m, c, b.Rows(), b.depth, b.Cols())
    requires C.Length0 == b.Rows() && C.Length1 == b.Cols() && c == Contents(C)
    ensures Progress(o, b, a, m, c, C, Point(0, 0, 0, 0, 0, 0, 0))
  {
    forall r: nat, j: nat | r < b.Rows() && j < b.Cols()
      ensures Done(b, Point(0, 0, 0, 0, 0, 0, 0), r, j) == 0
    {
      Ends(b, r, j);
    }
  }

  lemma Finish<T>(o: Ops<T>, b: Blocking, a: Mat<T>, m: Mat<T>, c: Mat<T>, C: array2<T>)
    requires b.Covers() && Conform(a, m, c, b.Rows(), b.depth, b.Cols())
    requires C.Length0 == b.Rows() && C.Length1 == b.Cols()
    requires Progress(o, b, a, m, c, C, Point(b.kTrips, 0, 0, 0, 0, 0, 0))
    ensures Contents(C) == Product(Flipped(o), a, m, c, b.Rows(), b.depth, b.Cols())
  {
    forall r: nat, j: nat | r < b.Rows() && j < b.Cols()
      ensures Done(b, Point(b.kTrips, 0, 0, 0, 0, 0, 0), r, j) == b.depth
    {
      Ends(b, r, j);
    }
    MatEqual(Contents(C), Product(Flipped(o), a, m, c, b.Rows(), b.depth, b.Cols()), b.Rows(), b.Cols());
  }

  lemma Move<T>(o: Ops<T>, b: Blocking, a: Mat<T>, m: Mat<T>, c: Mat<T>, C: array2<T>, p: Point, q: Point)
    requires b.Covers() && Conform(a, m, c, b.Rows(), b.depth, b.Cols())
    requires C.Length0 == b.Rows() && C.Length1 == b.Cols()
    requires Progress(o, b, a, m, c, C, p) && Same(b, p, q)
    ensures Progress(o, b, a, m, c, C, q)
  {
  }

  /** The innermost body of the nest. */
  method Body<T>(o: Ops<T>, b: Blocking, A: array2<T>, B: array2<T>, C: array2<T>, p: Point, ghost c0: Mat<T>)
    requires A != C && B != C
    requires b.Covers() && Inside(b, p)
    requires A.Length0 == b.Rows() && A.Length1 == b.depth
    requires B.Length0 == b.depth && B.Length1 == b.Cols()
    requires C.Length0 == b.Rows() && C.Length1 == b.Cols()
    requires IsMat(c0, b.Rows(), b.Cols())
    requires Progress(o, b, Contents(A), Contents(B), c0, C, p)
    modifies C
    ensures Progress(o, b, Contents(A), Contents(B), c0, C, p.(iiR := p.iiR + 1))
  {
    InBounds(b, p);
    ghost var a, m := Contents(A), Contents(B);
    forall r: nat, c: nat | r < b.Rows() && c < b.Cols()
      ensures if r == Row(b, p) && c == Col(b, p)
              then Done(b, p, r, c) == Depth(b, p) && Done(b, p.(iiR := p.iiR + 1), r, c) == Depth(b, p) + 1
              else Done(b, p.(iiR := p.iiR + 1), r, c) == Done(b, p, r, c)
    {
      BodyStep(b, p, r, c);
    }
    hide Done, Row, Depth, Col;
    var v0 := A[Row(b, p), Depth(b, p)];
    var v1 := B[Depth(b, p), Col(b, p)];
    var v2 := C[Row(b, p), Col(b, p)];
    var v3 := o.mul(v0, v1);
    var v4 := o.add(v3, v2);
    C[Row(b, p), Col(b, p)] := v4;
    assert a == Contents(A) && m == Contents(B);
  }

  method MatmulDragonpie<T>(o: Ops<T>, b: Blocking, A: array2<T>, B: array2<T>, C: array2<T>)
    requires A != C && B != C
    requires b.Covers()
    requires A.Length0 == b.Rows() && A.Length1 == b.depth
    requires B.Length0 == b.depth && B.Length1 == b.Cols()
    requires C.Length0 == b.Rows() && C.Length1 == b.Cols()
    modifies C
    ensures Contents(C) ==
      Product(Flipped(o), Contents(A), Contents(B), old(Contents(C)), b.Rows(), b.depth, b.Cols())
  {
    hide Done, Progress, Same, Acc, ILower, KStart;
    ghost var a, m, c0 := Contents(A), Contents(B), Contents(C);
    Begin(o, b, a, m, c0, C);
    ILowers(b, 0);
    var k := 0;
    while k < b.kTrips
      invariant 0 <= k <= b.kTrips
      invariant Progress(o, b, a, m, c0, C, Point(k, 0, 0, 0, 0, 0, 0))
    {
      var i := 0;
      while i < b.iTrips
        invariant 0 <= i <= b.iTrips
        invariant Progress(o, b, a, m, c0, C, Point(k, i, 0, ILower(b, i), 0, 0, 0))
      {
        var jj := 0;
        while jj < b.jTrips
          invariant 0 <= jj <= b.jTrips
          invariant Progress(o, b, a, m, c0, C, Point(k, i, jj, ILower(b, i), 0, 0, 0))
        {
          var ii := ILower(b, i);
          while ii < IUpper(b, i)
            invariant ILower(b, i) <= ii
            invariant Progress(o, b, a, m, c0, C, Point(k, i, jj, ii, 0, 0, 0))
          {
            var kk := 0;
            while kk < KUpper(b, k)
              invariant 0 <= kk && (kk == 0 || kk <= KUpper(b, k))
              invariant Progress(o, b, a, m, c0, C, Point(k, i, jj, ii, kk, 0, 0))
            {
              var jjR := 0;
              while jjR < b.nR
                invariant 0 <= jjR <= b.nR
                invariant Progress(o, b, a, m, c0, C, Point(k, i, jj, ii, kk, jjR, 0))
              {
                var iiR := 0;
                while iiR < b.mR
                  invariant 0 <= iiR <= b.mR
                  invariant Progress(o, b, a, m, c0, C, Point(k, i, jj, ii, kk, jjR, iiR))
                {
                  Body(o, b, A, B, C, Point(k, i, jj, ii, kk, jjR, iiR), c0);
                  iiR := iiR + 1;
                }
                AfterRows(b, Point(k, i, jj, ii, kk, jjR, iiR));
                Move(o, b, a, m, c0, C, Point(k, i, jj, ii, kk, jjR, iiR), Point(k, i, jj, ii, kk, jjR + 1, 0));
                jjR := jjR + 1;
              }
              AfterColumns(b, Point(k, i, jj, ii, kk, jjR, 0));
              Move(o, b, a, m, c0, C, Point(k, i, jj, ii, kk, jjR, 0), Point(k, i, jj, ii, kk + 1, 0, 0));
              kk := kk + 1;
            }
            AfterDepth(b, Point(k, i, jj, ii, kk, 0, 0));
            Move(o, b, a, m, c0, C, Point(k, i, jj, ii, kk, 0, 0), Point(k, i, jj, ii + 1, 0, 0, 0));
            ii := ii + 1;
          }
          AfterTiles(b, Point(k, i, jj, ii, 0, 0, 0));
          Move(o, b, a, m, c0, C, Point(k, i, jj, ii, 0, 0, 0), Point(k, i, jj + 1, ILower(b, i), 0, 0, 0));
          jj := jj + 1;
        }
        AfterStrips(b, Point(k, i, jj, ILower(b, i), 0, 0, 0));
        Move(o, b, a, m, c0, C, Point(k, i, jj, ILower(b, i), 0, 0, 0), Point(k, i + 1, 0, ILower(b, i + 1), 0, 0, 0));
        i := i + 1;
      }
      AfterPanels(b, Point(k, i, 0, ILower(b, i), 0, 0, 0));
      Move(o, b, a, m, c0, C, Point(k, i, 0, ILower(b, i), 0, 0, 0), Point(k + 1, 0, 0, 0, 0, 0, 0));
      k := k + 1;
    }
    Finish(o, b, a, m, c0, C);
  }

  // ----- the tiled schedule against the naive loop -----

  /** Adding a product on either side of an accumulator is the same. */
  ghost predicate ProductsCommute<T(!new)>(o: Ops<T>) {
    forall x, y, z :: o.add(o.mul(x, y), z) == o.add(z, o.mul(x, y))
  }

  lemma {:induction false} FlippedAcc<T(!new)>(o: Ops<T>, a: Mat<T>, b: Mat<T>, r: nat, c: nat, init: T, n: nat)
    requires r < |a| && n <= |a[r]| && n <= |b| && forall k :: 0 <= k < n ==> c < |b[k]|
    requires ProductsCommute(o)
    ensures Acc(Flipped(o), a, b, r, c, init, n) == Acc(o, a, b, r, c, init, n)
  {
    if n != 0 {
      FlippedAcc(o, a, b, r, c, init, n - 1);
    }
  }

  lemma FlippedProduct<T(!new)>(o: Ops<T>, a: Mat<T>, b: Mat<T>, c: Mat<T>, m: nat, k: nat, n: nat)
    requires Conform(a, b, c, m, k, n) && ProductsCommute(o)
    ensures Product(Flipped(o), a, b, c, m, k, n) == Product(o, a, b, c, m, k, n)
  {
    forall r, j | 0 <= r < m && 0 <= j < n
      ensures Acc(Flipped(o), a, b, r, j, c[r][j], k) == Acc(o, a, b, r, j, c[r][j], k)
    {
      FlippedAcc(o, a, b, r, j, c[r][j], k);
    }
    MatEqual(Product(Flipped(o), a, b, c, m, k, n), Product(o, a, b, c, m, k, n), m, n);
  }

  /** The tiled nest computes the naive product on every input exactly when products commute
      with accumulators; nothing about associativity, distributivity or zero is needed. */
  lemma TiledIsNaive<T(!new)>(o: Ops<T>)
    ensures ProductsCommute(o) <==>
      forall a: Mat<T>, b: Mat<T>, c: Mat<T>, m: nat, k: nat, n: nat | Conform(a, b, c, m, k, n) ::
        Product(Flipped(o), a, b, c, m, k, n) == Product(o, a, b, c, m, k, n)
  {
    if ProductsCommute(o) {
      forall a: Mat<T>, b: Mat<T>, c: Mat<T>, m: nat, k: nat, n: nat | Conform(a, b, c, m, k, n)
        ensures Product(Flipped(o), a, b, c, m, k, n) == Product(o, a, b, c, m, k, n)
      {
        FlippedProduct(o, a, b, c, m, k, n);
      }
    } else {
      var x, y, z :| o.add(o.mul(x, y), z) != o.add(z, o.mul(x, y));
      assert Conform([[x]], [[y]], [[z]], 1, 1, 1);
      assert Acc(o, [[x]], [[y]], 0, 0, z, 0) == z == Acc(Flipped(o), [[x]], [[y]], 0, 0, z, 0);
      assert Product(Flipped(o), [[x]], [[y]], [[z]], 1, 1, 1)[0][0] == o.add(o.mul(x, y), z);
      assert Product(o, [[x]], [[y]], [[z]], 1, 1, 1)[0][0] == o.add(z, o.mul(x, y));
    }
  }

  /** Two blockings of the same product, such as DGEMM and SGEMM, leave the same matrix. */
  method TwoBlockings<T>(o: Ops<T>, b: Blocking, d: Blocking, A: array2<T>, B: array2<T>, C: array2<T>, D: array2<T>)
    requires A != C && B != C && A != D && B != D && C != D
    requires b.Covers() && d.Covers() && b.Rows() == d.Rows() && b.depth == d.depth && b.Cols() == d.Cols()
    requires A.Length0 == b.Rows() && A.Length1 == b.depth
    requires B.Length0 == b.depth && B.Length1 == b.Cols()
    requires C.Length0 == D.Length0 == b.Rows() && C.Length1 == D.Length1 == b.Cols()
    requires Contents(C) == Contents(D)
    modifies C, D
    ensures Contents(C) == Contents(D)
  {
    MatmulDragonpie(o, b, A, B, C);
    MatmulDragonpie(o, d, A, B, D);
  }

  /** Run on equal matrices, the tiled nest and the naive loop leave the same one. */
  method TiledAndNaive<T(!new)>(o: Ops<T>, b: Blocking, A: array2<T>, B: array2<T>, C: array2<T>, D: array2<T>)
    requires A != C && B != C && A != D && B != D && C != D
    requires b.Covers() && A.Length0 == b.Rows() && A.Length1 == b.depth
    requires B.Length0 == b.depth && B.Length1 == b.Cols()
    requires C.Length0 == D.Length0 == b.Rows() && C.Length1 == D.Length1 == b.Cols()
    requires Contents(C) == Contents(D)
    modifies C, D
    ensures ProductsCommute(o) ==> Contents(C) == Contents(D)
  {
    ghost var c := Contents(C);
    MatmulDragonpie(o, b, A, B, C);
    Matmul(o, A, B, D);
    if ProductsCommute(o) {
      FlippedProduct(o, Contents(A), Contents(B), c, b.Rows(), b.depth, b.Cols());
    }
  }

  /** The checked-in constants tile a 2088 x 2048 x 2048 product, in both element widths.  The last
      reduction panel is 128 deep instead of 480, the last row panel has 36 row tiles instead of 110, of
      three rows each, and the column tiles are 16 and 32 wide. */
  lemma CheckedInBlockings()
    ensures KUpper(DGEMM, 0) == 480 && KStart(DGEMM, 4) == 1920 && KUpper(DGEMM, 4) == 128 && DGEMM.kTrips == 5
    ensures IUpper(DGEMM, 0) == 110 && ILower(DGEMM, 6) == 660 && IUpper(DGEMM, 6) == 696 && DGEMM.iTrips == 7
    ensures DGEMM.mR == 3 && DGEMM.nR == 16 && SGEMM == DGEMM.(jTrips := 64, nR := 32)
    ensures DGEMM.Covers() && DGEMM.Rows() == 2088 && DGEMM.depth == 2048 && DGEMM.Cols() == 2048
    ensures SGEMM.Covers() && SGEMM.Rows() == 2088 && SGEMM.depth == 2048 && SGEMM.Cols() == 2048
  {
  }
}
