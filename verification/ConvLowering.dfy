/** The coefficients-broadcasting lowerings of conv_2d: the strip-mined nest with a masked tail
    and a test for zero coefficients, and the two-dimensional tile. */
module ConvLowering {
  import opened Division
  import opened Matrix

  /** Element operations.  `fma(x, w, acc)` is the fused multiply-add of one tap. */
  datatype VecOps<!T> = VecOps(zero: T, fma: (T, T, T) -> T)

  /** Extents of input, kernel and output. */
  datatype Shape = Shape(ih: nat, iw: nat, kh: nat, kw: nat, oh: nat, ow: nat)
  {
    /** Some product is computed at all. */
    predicate Nonempty() { 0 < oh && 0 < ow && 0 < kh && 0 < kw }

    /** Every window of the output lies inside the input. */
    predicate Sized() { Nonempty() ==> oh + kh <= ih + 1 && ow + kw <= iw + 1 }
  }

  ghost predicate Data<T>(s: Shape, input: Mat<T>, kernel: Mat<T>, output: Mat<T>) {
    && s.Sized()
    && IsMat(input, s.ih, s.iw) && IsMat(kernel, s.kh, s.kw) && IsMat(output, s.oh, s.ow)
  }

  /** conv_2d at output cell (i, j): the taps before (ki, kj) in row-major order, folded into acc. */
  function Conv<T>(tap: (T, T, T) -> T, s: Shape, input: Mat<T>, kernel: Mat<T>,
                   i: nat, j: nat, acc: T, ki: nat, kj: nat): T
    requires s.Sized() && IsMat(input, s.ih, s.iw) && IsMat(kernel, s.kh, s.kw)
    requires i < s.oh && j < s.ow && kj <= s.kw && (if kj == 0 then ki <= s.kh else ki < s.kh)
    decreases ki, kj
  {
    if 0 < kj then
      tap(input[i + ki][j + kj - 1], kernel[ki][kj - 1], Conv(tap, s, input, kernel, i, j, acc, ki, kj - 1))
    else if 0 < ki then Conv(tap, s, input, kernel, i, j, acc, ki - 1, s.kw)
    else acc
  }

  /** The whole of conv_2d. */
  ghost function ConvMat<T>(tap: (T, T, T) -> T, s: Shape, input: Mat<T>, kernel: Mat<T>, out: Mat<T>): (r: Mat<T>)
    requires Data(s, input, kernel, out)
    ensures IsMat(r, s.oh, s.ow)
    ensures forall i, j :: 0 <= i < s.oh && 0 <= j < s.ow ==>
      r[i][j] == Conv(tap, s, input, kernel, i, j, out[i][j], s.kh, 0)
  {
    seq(s.oh, i requires 0 <= i < s.oh =>
      seq(s.ow, j requires 0 <= j < s.ow => Conv(tap, s, input, kernel, i, j, out[i][j], s.kh, 0)))
  }

  // ----- vector dialect: vectors are sequences of lanes -----

  function CeilDiv(x: nat, y: nat): nat
    requires 0 < y
  {
    (x + y - 1) / y
  }

  function Broadcast<T>(lanes: nat, w: T): (v: seq<T>)
    ensures |v| == lanes
  {
    seq(lanes, _ => w)
  }

  function Fma<T>(o: VecOps<T>, x: seq<T>, w: seq<T>, acc: seq<T>): (v: seq<T>)
    requires |x| == |w| == |acc|
    ensures |v| == |x|
  {
    seq(|x|, l requires 0 <= l < |x| => o.fma(x[l], w[l], acc[l]))
  }

  function CreateMask(lanes: nat, n: int): (m: seq<bool>)
    ensures |m| == lanes
  {
    seq(lanes, l => l < n)
  }

  method VectorLoad<T>(m: array2<T>, r: nat, c: nat, lanes: nat) returns (v: seq<T>)
    requires r < m.Length0 && c + lanes <= m.Length1
    ensures |v| == lanes && forall l :: 0 <= l < lanes ==> v[l] == m[r, c + l]
  {
    v := seq(lanes, l requires 0 <= l < lanes reads m => m[r, c + l]);
  }

  method VectorStore<T>(v: seq<T>, m: array2<T>, r: nat, c: nat)
    requires r < m.Length0 && c + |v| <= m.Length1
    modifies m
    ensures forall i, j :: 0 <= i < m.Length0 && 0 <= j < m.Length1 ==>
      m[i, j] == if i == r && c <= j < c + |v| then v[j - c] else old(m[i, j])
  {
    forall l | 0 <= l < |v| { m[r, c + l] := v[l]; }
  }

  /** Only the active lanes are accessed; they must be in bounds. */
  ghost predicate ActiveInBounds<T>(m: array2<T>, r: nat, c: nat, mask: seq<bool>) {
    r < m.Length0 && forall l :: 0 <= l < |mask| && mask[l] ==> c + l < m.Length1
  }

  method MaskedLoad<T>(m: array2<T>, r: nat, c: nat, mask: seq<bool>, pass: seq<T>) returns (v: seq<T>)
    requires |pass| == |mask| && ActiveInBounds(m, r, c, mask)
    ensures |v| == |mask| && forall l :: 0 <= l < |mask| ==> v[l] == if mask[l] then m[r, c + l] else pass[l]
  {
    v := seq(|mask|, l requires 0 <= l < |mask| reads m => if mask[l] then m[r, c + l] else pass[l]);
  }

  method MaskedStore<T>(m: array2<T>, r: nat, c: nat, mask: seq<bool>, v: seq<T>)
    requires |v| == |mask| && ActiveInBounds(m, r, c, mask)
    modifies m
    ensures forall i, j :: 0 <= i < m.Length0 && 0 <= j < m.Length1 ==>
      m[i, j] == if i == r && c <= j < c + |v| && mask[j - c] then v[j - c] else old(m[i, j])
  {
    forall l | 0 <= l < |v| && mask[l] { m[r, c + l] := v[l]; }
  }

  // ----- populateCBSplitingPattern -----

  /** A tap as the strip-mined nest performs it: not at all for a zero coefficient. */
  function Skipping<T(==)>(o: VecOps<T>): (T, T, T) -> T {
    (x, w, acc) => if w == o.zero then acc else o.fma(x, w, acc)
  }

  /** Row i has received the taps before (ki, kj), and its first `cols` columns also tap (ki, kj);
      the rows above are finished, the rows below untouched. */
  ghost predicate Progress<T>(tap: (T, T, T) -> T, s: Shape, input: Mat<T>, kernel: Mat<T>, out: Mat<T>,
                              output: array2<T>, i: nat, ki: nat, kj: nat, cols: int)
    requires Data(s, input, kernel, out) && output.Length0 == s.oh && output.Length1 == s.ow
    requires i < s.oh
    requires if 0 < cols then ki < s.kh && kj < s.kw
             else kj <= s.kw && (if kj == 0 then ki <= s.kh else ki < s.kh)
    reads output
  {
    forall r, c :: 0 <= r < s.oh && 0 <= c < s.ow ==>
      output[r, c] ==
      if r < i then Conv(tap, s, input, kernel, r, c, out[r][c], s.kh, 0)
      else if r > i then out[r][c]
      else if c < cols then Conv(tap, s, input, kernel, r, c, out[r][c], ki, kj + 1)
      else Conv(tap, s, input, kernel, r, c, out[r][c], ki, kj)
  }

  /** The vector code of one strip: every column of the strip that exists gets one tap. */
  method VectorTap<T>(o: VecOps<T>, stride: nat, input: array2<T>, output: array2<T>,
                      i: nat, ki: nat, kj: nat, col: nat, w: T)
    requires input != output && i < output.Length0 && col < output.Length1
    requires i + ki < input.Length0 && kj + output.Length1 <= input.Length1
    modifies output
    ensures forall r, c :: 0 <= r < output.Length0 && 0 <= c < output.Length1 ==>
      output[r, c] ==
        if r == i && col <= c < col + stride then o.fma(input[i + ki, kj + c], w, old(output[r, c]))
        else old(output[r, c])
  {
    var kernelVector := Broadcast(stride, w);
    var tail := output.Length1 - col;
    if tail >= stride {
      var inputVector := VectorLoad(input, i + ki, kj + col, stride);
      var outputVector := VectorLoad(output, i, col, stride);
      VectorStore(Fma(o, inputVector, kernelVector, outputVector), output, i, col);
    } else {
      var passThrough := Broadcast(stride, o.zero);
      var tailMask := CreateMask(stride, tail);
      var maskedInput := MaskedLoad(input, i + ki, kj + col, tailMask, passThrough);
      var maskedOutput := MaskedLoad(output, i, col, tailMask, passThrough);
      MaskedStore(output, i, col, tailMask, Fma(o, maskedInput, kernelVector, maskedOutput));
    }
  }

  /** One iteration of the strip-mining loop, at column col == iv * stride. */
  method Strip<T(==)>(o: VecOps<T>, stride: nat, s: Shape, input: array2<T>, kernel: array2<T>, output: array2<T>,
                      i: nat, ki: nat, kj: nat, col: nat, ghost out: Mat<T>)
    requires input != output && kernel != output && 0 < stride
    requires Data(s, Contents(input), Contents(kernel), out) && output.Length0 == s.oh && output.Length1 == s.ow
    requires input.Length0 == s.ih && input.Length1 == s.iw && kernel.Length0 == s.kh && kernel.Length1 == s.kw
    requires i < s.oh && ki < s.kh && kj < s.kw && col < s.ow
    requires Progress(Skipping(o), s, Contents(input), Contents(kernel), out, output, i, ki, kj, col)
    modifies output
    ensures Progress(Skipping(o), s, Contents(input), Contents(kernel), out, output, i, ki, kj, col + stride)
  {
    ghost var a, k := Contents(input), Contents(kernel);
    var kernelValue := kernel[ki, kj];
    if kernelValue != o.zero {
      VectorTap(o, stride, input, output, i, ki, kj, col, kernelValue);
    }
    assert a == Contents(input) && k == Contents(kernel);
  }

  lemma Strips(cols: nat, stride: nat, iv: nat)
    requires 0 < stride
    ensures iv < CeilDiv(cols, stride) <==> iv * stride < cols
  {
    var q := CeilDiv(cols, stride);
    assert q * stride <= cols + stride - 1 < q * stride + stride by {
      Join(stride, q, (cols + stride - 1) % stride, cols + stride - 1);
    }
    hide CeilDiv;
    if iv < q {
      Scale(iv + 1, q, stride);
    } else {
      Scale(q, iv, stride);
    }
  }

  method StripMined<T(==)>(o: VecOps<T>, stride: nat, s: Shape,
                           input: array2<T>, kernel: array2<T>, output: array2<T>)
    requires input != output && kernel != output && 0 < stride
    requires s == Shape(input.Length0, input.Length1, kernel.Length0, kernel.Length1, output.Length0, output.Length1)
    requires s.Sized()
    modifies output
    ensures Contents(output) == ConvMat(Skipping(o), s, Contents(input), Contents(kernel), old(Contents(output)))
  {
    ghost var a, k, out := Contents(input), Contents(kernel), Contents(output);
    for i := 0 to output.Length0
      invariant forall r, c :: 0 <= r < s.oh && 0 <= c < s.ow ==>
        output[r, c] ==
        if r < i then Conv(Skipping(o), s, a, k, r, c, out[r][c], s.kh, 0) else out[r][c]
    {
      for ki := 0 to kernel.Length0
        invariant Progress(Skipping(o), s, a, k, out, output, i, ki, 0, 0)
      {
        for kj := 0 to kernel.Length1
          invariant Progress(Skipping(o), s, a, k, out, output, i, ki, kj, 0)
        {
          for iv := 0 to CeilDiv(output.Length1, stride)
            invariant Progress(Skipping(o), s, a, k, out, output, i, ki, kj, iv * stride)
          {
            Strips(output.Length1, stride, iv);
            Strip(o, stride, s, input, kernel, output, i, ki, kj, iv * stride, out);
            assert iv * stride + stride == (iv + 1) * stride;
          }
          Strips(output.Length1, stride, CeilDiv(output.Length1, stride));
        }
      }
    }
    MatEqual(Contents(output), ConvMat(Skipping(o), s, a, k, out), s.oh, s.ow);
  }

  /** Lane l of strip iv is active: a full vector, or below the tail mask's length. */
  predicate Active(cols: nat, stride: nat, iv: nat, l: nat)
    requires 0 < stride
  {
    iv < CeilDiv(cols, stride) && l < stride &&
    var tail := cols - iv * stride;
    (tail >= stride || CreateMask(stride, tail)[l])
  }

  /** Each output column lies in exactly one active lane of exactly one strip. */
  lemma OneActiveLane(cols: nat, stride: nat, c: nat, iv: nat, l: nat)
    requires 0 < stride && c < cols
    ensures Active(cols, stride, iv, l) && iv * stride + l == c <==> iv == c / stride && l == c % stride
  {
    hide CeilDiv;
    Strips(cols, stride, iv);
    if l < stride { Join(stride, iv, l, c); }
    assert c == c / stride * stride + c % stride;
  }

  // ----- skipping zero coefficients -----

  /** A tap with coefficient zero leaves the accumulator alone. */
  ghost predicate ZeroIsInert<T(!new)>(o: VecOps<T>) {
    forall x, acc :: o.fma(x, o.zero, acc) == acc
  }

  lemma {:induction false} SkippingConv<T(!new)>(o: VecOps<T>, s: Shape, input: Mat<T>, kernel: Mat<T>,
                                                   i: nat, j: nat, acc: T, ki: nat, kj: nat)
    requires s.Sized() && IsMat(input, s.ih, s.iw) && IsMat(kernel, s.kh, s.kw)
    requires i < s.oh && j < s.ow && kj <= s.kw && (if kj == 0 then ki <= s.kh else ki < s.kh)
    requires ZeroIsInert(o)
    ensures Conv(Skipping(o), s, input, kernel, i, j, acc, ki, kj) == Conv(o.fma, s, input, kernel, i, j, acc, ki, kj)
    decreases ki, kj
  {
    if 0 < kj {
      SkippingConv(o, s, input, kernel, i, j, acc, ki, kj - 1);
    } else if 0 < ki {
      SkippingConv(o, s, input, kernel, i, j, acc, ki - 1, s.kw);
    }
  }

  lemma SkippingConvMat<T(!new)>(o: VecOps<T>, s: Shape, input: Mat<T>, kernel: Mat<T>, out: Mat<T>)
    requires Data(s, input, kernel, out) && ZeroIsInert(o)
    ensures ConvMat(Skipping(o), s, input, kernel, out) == ConvMat(o.fma, s, input, kernel, out)
  {
    var r, d := ConvMat(Skipping(o), s, input, kernel, out), ConvMat(o.fma, s, input, kernel, out);
    forall i, j | 0 <= i < s.oh && 0 <= j < s.ow ensures r[i][j] == d[i][j] {
      SkippingConv(o, s, input, kernel, i, j, out[i][j], s.kh, 0);
    }
    MatEqual(r, d, s.oh, s.ow);
  }

  /** The strip-mined nest computes conv_2d on every input exactly when zero coefficients are inert. */
  lemma StripMinedIsConv<T(!new)>(o: VecOps<T>)
    ensures ZeroIsInert(o) <==>
      forall s: Shape, input: Mat<T>, kernel: Mat<T>, out: Mat<T> | Data(s, input, kernel, out) ::
        ConvMat(Skipping(o), s, input, kernel, out) == ConvMat(o.fma, s, input, kernel, out)
  {
    if ZeroIsInert(o) {
      forall s: Shape, input: Mat<T>, kernel: Mat<T>, out: Mat<T> | Data(s, input, kernel, out)
        ensures ConvMat(Skipping(o), s, input, kernel, out) == ConvMat(o.fma, s, input, kernel, out)
      {
        SkippingConvMat(o, s, input, kernel, out);
      }
    } else {
      var x, acc :| o.fma(x, o.zero, acc) != acc;
      var s := Shape(1, 1, 1, 1, 1, 1);
      assert Data(s, [[x]], [[o.zero]], [[acc]]);
      OneTap(Skipping(o), x, o.zero, acc);
      OneTap(o.fma, x, o.zero, acc);
    }
  }

  lemma OneTap<T>(tap: (T, T, T) -> T, x: T, w: T, acc: T)
    ensures ConvMat(tap, Shape(1, 1, 1, 1, 1, 1), [[x]], [[w]], [[acc]])[0][0] == tap(x, w, acc)
  {
    var s := Shape(1, 1, 1, 1, 1, 1);
    assert Conv(tap, s, [[x]], [[w]], 0, 0, acc, 0, 0) == acc;
    assert Conv(tap, s, [[x]], [[w]], 0, 0, acc, 0, 1) == tap(x, w, acc);
    assert Conv(tap, s, [[x]], [[w]], 0, 0, acc, 1, 0) == Conv(tap, s, [[x]], [[w]], 0, 0, acc, 0, 1);
  }

  // ----- populateCBTilingPattern -----

  /** vector.transfer_read: lanes outside the buffer read the padding value. */
  method TransferRead<T>(m: array2<T>, r: nat, c: nat, th: nat, tw: nat, pad: T) returns (v: Mat<T>)
    ensures IsMat(v, th, tw)
    ensures forall y, x :: 0 <= y < th && 0 <= x < tw ==>
      v[y][x] == if r + y < m.Length0 && c + x < m.Length1 then m[r + y, c + x] else pad
  {
    v := seq(th, y requires 0 <= y < th reads m => seq(tw, x requires 0 <= x < tw reads m =>
      if r + y < m.Length0 && c + x < m.Length1 then m[r + y, c + x] else pad));
  }

  /** vector.transfer_write at (0, 0): lanes outside the buffer are dropped. */
  method TransferWrite<T>(v: Mat<T>, m: array2<T>, th: nat, tw: nat)
    requires IsMat(v, th, tw)
    modifies m
    ensures forall i, j :: 0 <= i < m.Length0 && 0 <= j < m.Length1 ==>
      m[i, j] == if i < th && j < tw then v[i][j] else old(m[i, j])
  {
    forall i, j | 0 <= i < m.Length0 && 0 <= j < m.Length1 && i < th && j < tw { m[i, j] := v[i][j]; }
  }

  function Fma2D<T>(o: VecOps<T>, x: Mat<T>, w: T, acc: Mat<T>, th: nat, tw: nat): (v: Mat<T>)
    requires IsMat(x, th, tw) && IsMat(acc, th, tw)
    ensures IsMat(v, th, tw)
    ensures forall i, j :: 0 <= i < th && 0 <= j < tw ==> v[i][j] == o.fma(x[i][j], w, acc[i][j])
  {
    seq(th, i requires 0 <= i < th => seq(tw, j requires 0 <= j < tw => o.fma(x[i][j], w, acc[i][j])))
  }

  /** One iteration of the tile nest: every output cell in the tile gets one tap.  Cells outside the
      output are neither read from memory nor written, whatever the padding value. */
  method TileTap<T>(o: VecOps<T>, th: nat, tw: nat, input: array2<T>, output: array2<T>, ki: nat, kj: nat, w: T)
    requires input != output
    requires output.Length0 == 0 || output.Length1 == 0 ||
      (ki + output.Length0 <= input.Length0 && kj + output.Length1 <= input.Length1)
    modifies output
    ensures forall r, c :: 0 <= r < output.Length0 && 0 <= c < output.Length1 ==>
      output[r, c] ==
        if r < th && c < tw then o.fma(input[ki + r, kj + c], w, old(output[r, c])) else old(output[r, c])
  {
    var inputVector := TransferRead(input, ki, kj, th, tw, o.zero);
    var outputVector := TransferRead(output, 0, 0, th, tw, o.zero);
    var resultVector := Fma2D(o, inputVector, w, outputVector, th, tw);
    assert forall r, c :: 0 <= r < output.Length0 && 0 <= c < output.Length1 && r < th && c < tw ==>
      resultVector[r][c] == o.fma(input[ki + r, kj + c], w, output[r, c]);
    hide Fma2D;
    TransferWrite(resultVector, output, th, tw);
  }

  /** conv_2d inside the top-left th x tw tile, the old output elsewhere. */
  ghost function TileMat<T>(tap: (T, T, T) -> T, s: Shape, th: nat, tw: nat,
                            input: Mat<T>, kernel: Mat<T>, out: Mat<T>): (r: Mat<T>)
    requires Data(s, input, kernel, out)
    ensures IsMat(r, s.oh, s.ow)
    ensures forall i, j :: 0 <= i < s.oh && 0 <= j < s.ow ==>
      r[i][j] == if i < th && j < tw then ConvMat(tap, s, input, kernel, out)[i][j] else out[i][j]
  {
    var c := ConvMat(tap, s, input, kernel, out);
    seq(s.oh, i requires 0 <= i < s.oh =>
      seq(s.ow, j requires 0 <= j < s.ow => if i < th && j < tw then c[i][j] else out[i][j]))
  }

  ghost predicate TileProgress<T>(tap: (T, T, T) -> T, s: Shape, th: nat, tw: nat,
                                  input: Mat<T>, kernel: Mat<T>, out: Mat<T>,
                                  output: array2<T>, ki: nat, kj: nat)
    requires Data(s, input, kernel, out) && output.Length0 == s.oh && output.Length1 == s.ow
    requires kj <= s.kw && (if kj == 0 then ki <= s.kh else ki < s.kh)
    reads output
  {
    forall r, c :: 0 <= r < s.oh && 0 <= c < s.ow ==>
      output[r, c] == if r < th && c < tw then Conv(tap, s, input, kernel, r, c, out[r][c], ki, kj) else out[r][c]
  }

  /** At the end of a kernel row. */
  lemma TileNextRow<T>(tap: (T, T, T) -> T, s: Shape, th: nat, tw: nat, input: Mat<T>, kernel: Mat<T>, out: Mat<T>,
                       output: array2<T>, ki: nat)
    requires Data(s, input, kernel, out) && output.Length0 == s.oh && output.Length1 == s.ow && ki < s.kh
    requires TileProgress(tap, s, th, tw, input, kernel, out, output, ki, s.kw)
    ensures TileProgress(tap, s, th, tw, input, kernel, out, output, ki + 1, 0)
  {
    forall r, c | 0 <= r < s.oh && 0 <= c < s.ow
      ensures Conv(tap, s, input, kernel, r, c, out[r][c], ki + 1, 0)
        == Conv(tap, s, input, kernel, r, c, out[r][c], ki, s.kw) {}
  }

  method Tiled<T>(o: VecOps<T>, th: nat, tw: nat, s: Shape, input: array2<T>, kernel: array2<T>, output: array2<T>)
    requires input != output && kernel != output
    requires s == Shape(input.Length0, input.Length1, kernel.Length0, kernel.Length1, output.Length0, output.Length1)
    requires s.Sized()
    modifies output
    ensures Contents(output) == TileMat(o.fma, s, th, tw, Contents(input), Contents(kernel), old(Contents(output)))
  {
    ghost var a, k, out := Contents(input), Contents(kernel), Contents(output);
    for ki := 0 to kernel.Length0
      invariant TileProgress(o.fma, s, th, tw, a, k, out, output, ki, 0)
    {
      for kj := 0 to kernel.Length1
        invariant TileProgress(o.fma, s, th, tw, a, k, out, output, ki, kj)
      {
        var kernelValue := kernel[ki, kj];
        TileTap(o, th, tw, input, output, ki, kj, kernelValue);
      }
      TileNextRow(o.fma, s, th, tw, a, k, out, output, ki);
    }
    MatEqual(Contents(output), TileMat(o.fma, s, th, tw, a, k, out), s.oh, s.ow);
  }

  /** The tile reaches every output cell. */
  predicate TileCovers(s: Shape, th: nat, tw: nat) { s.oh <= th && s.ow <= tw }

  lemma CoveringTile<T>(tap: (T, T, T) -> T, s: Shape, th: nat, tw: nat, input: Mat<T>, kernel: Mat<T>, out: Mat<T>)
    requires Data(s, input, kernel, out) && (TileCovers(s, th, tw) || !s.Nonempty())
    ensures TileMat(tap, s, th, tw, input, kernel, out) == ConvMat(tap, s, input, kernel, out)
  {
    var t, c := TileMat(tap, s, th, tw, input, kernel, out), ConvMat(tap, s, input, kernel, out);
    forall i, j | 0 <= i < s.oh && 0 <= j < s.ow ensures t[i][j] == c[i][j] {
      if !s.Nonempty() { NoTaps(tap, s, input, kernel, i, j, out[i][j], s.kh); }
    }
    MatEqual(t, c, s.oh, s.ow);
  }

  lemma {:induction false} NoTaps<T>(tap: (T, T, T) -> T, s: Shape, input: Mat<T>, kernel: Mat<T>,
                                   i: nat, j: nat, acc: T, ki: nat)
    requires s.Sized() && IsMat(input, s.ih, s.iw) && IsMat(kernel, s.kh, s.kw)
    requires i < s.oh && j < s.ow && ki <= s.kh && (s.kh == 0 || s.kw == 0)
    ensures Conv(tap, s, input, kernel, i, j, acc, ki, 0) == acc
  {
    if 0 < ki { NoTaps(tap, s, input, kernel, i, j, acc, ki - 1); }
  }

  /** Some tap changes some accumulator. */
  ghost predicate Effective<T(!new)>(o: VecOps<T>) {
    exists x, w, acc :: o.fma(x, w, acc) != acc
  }

  /** Some tap changes some accumulator, and the changed one survives a zero coefficient. */
  ghost predicate Lasting<T(!new)>(o: VecOps<T>) {
    exists x, w, acc :: o.fma(x, w, acc) != acc && o.fma(x, o.zero, o.fma(x, w, acc)) == o.fma(x, w, acc)
  }

  lemma InertIsLasting<T(!new)>(o: VecOps<T>)
    requires ZeroIsInert(o) && Effective(o)
    ensures Lasting(o)
  {
    var x, w, acc :| o.fma(x, w, acc) != acc;
    assert o.fma(x, o.zero, o.fma(x, w, acc)) == o.fma(x, w, acc);
  }

  function Constant<T>(rows: nat, cols: nat, x: T): (m: Mat<T>)
    ensures IsMat(m, rows, cols) && forall i, j :: 0 <= i < rows && 0 <= j < cols ==> m[i][j] == x
  {
    seq(rows, _ => seq(cols, _ => x))
  }

  /** A kernel whose first coefficient is w and whose others are zero. */
  function Corner<T>(o: VecOps<T>, rows: nat, cols: nat, w: T): (m: Mat<T>)
    ensures IsMat(m, rows, cols)
    ensures forall i, j :: 0 <= i < rows && 0 <= j < cols ==> m[i][j] == if i == 0 && j == 0 then w else o.zero
  {
    seq(rows, i => seq(cols, j => if i == 0 && j == 0 then w else o.zero))
  }

  lemma {:induction false} CornerTap<T(!new)>(o: VecOps<T>, s: Shape, x: T, w: T, acc: T, i: nat, j: nat, ki: nat,
                                       kj: nat)
    requires s.Sized() && i < s.oh && j < s.ow && kj <= s.kw && (if kj == 0 then ki <= s.kh else ki < s.kh)
    requires o.fma(x, o.zero, o.fma(x, w, acc)) == o.fma(x, w, acc)
    ensures Conv(o.fma, s, Constant(s.ih, s.iw, x), Corner(o, s.kh, s.kw, w), i, j, acc, ki, kj)
      == if 0 < kj || (0 < ki && 0 < s.kw) then o.fma(x, w, acc) else acc
    decreases ki, kj
  {
    hide Constant, Corner;
    if 0 < kj {
      CornerTap(o, s, x, w, acc, i, j, ki, kj - 1);
    } else if 0 < ki {
      CornerTap(o, s, x, w, acc, i, j, ki - 1, s.kw);
    }
  }

  lemma {:induction false} NoEffect<T(!new)>(o: VecOps<T>, s: Shape, input: Mat<T>, kernel: Mat<T>,
                                              i: nat, j: nat, acc: T, ki: nat, kj: nat)
    requires s.Sized() && IsMat(input, s.ih, s.iw) && IsMat(kernel, s.kh, s.kw)
    requires i < s.oh && j < s.ow && kj <= s.kw && (if kj == 0 then ki <= s.kh else ki < s.kh)
    requires !Effective(o)
    ensures Conv(o.fma, s, input, kernel, i, j, acc, ki, kj) == acc
    decreases ki, kj
  {
    if 0 < kj {
      NoEffect(o, s, input, kernel, i, j, acc, ki, kj - 1);
    } else if 0 < ki {
      NoEffect(o, s, input, kernel, i, j, acc, ki - 1, s.kw);
    }
  }

  lemma IneffectiveTile<T(!new)>(o: VecOps<T>, s: Shape, th: nat, tw: nat, input: Mat<T>, kernel: Mat<T>, out: Mat<T>)
    requires Data(s, input, kernel, out) && !Effective(o)
    ensures TileMat(o.fma, s, th, tw, input, kernel, out) == ConvMat(o.fma, s, input, kernel, out)
  {
    var t, c := TileMat(o.fma, s, th, tw, input, kernel, out), ConvMat(o.fma, s, input, kernel, out);
    forall i, j | 0 <= i < s.oh && 0 <= j < s.ow ensures t[i][j] == c[i][j] {
      NoEffect(o, s, input, kernel, i, j, out[i][j], s.kh, 0);
    }
    MatEqual(t, c, s.oh, s.ow);
  }

  /** For a given shape, the tile lowering is conv_2d on all data exactly when the tile covers the
      output, or nothing is computed, or the element operations never change anything.  Of operations
      that do, some change has to last through zero coefficients: in floating point, where not every
      zero coefficient is inert, 1 * 1 + 0 does. */
  lemma TiledIsConv<T(!new)>(o: VecOps<T>, s: Shape, th: nat, tw: nat)
    requires s.Sized() && (Effective(o) ==> Lasting(o))
    ensures TileCovers(s, th, tw) || !s.Nonempty() || !Effective(o) <==>
      forall input: Mat<T>, kernel: Mat<T>, out: Mat<T> | Data(s, input, kernel, out) ::
        TileMat(o.fma, s, th, tw, input, kernel, out) == ConvMat(o.fma, s, input, kernel, out)
  {
    if TileCovers(s, th, tw) || !s.Nonempty() || !Effective(o) {
      forall input: Mat<T>, kernel: Mat<T>, out: Mat<T> | Data(s, input, kernel, out)
        ensures TileMat(o.fma, s, th, tw, input, kernel, out) == ConvMat(o.fma, s, input, kernel, out)
      {
        if Effective(o) {
          CoveringTile(o.fma, s, th, tw, input, kernel, out);
        } else {
          IneffectiveTile(o, s, th, tw, input, kernel, out);
        }
      }
    } else {
      var x, w, acc :| o.fma(x, w, acc) != acc && o.fma(x, o.zero, o.fma(x, w, acc)) == o.fma(x, w, acc);
      var input, kernel, out := Constant(s.ih, s.iw, x), Corner(o, s.kh, s.kw, w), Constant(s.oh, s.ow, acc);
      var i, j := s.oh - 1, s.ow - 1;
      CornerTap(o, s, x, w, acc, i, j, s.kh, 0);
      assert TileMat(o.fma, s, th, tw, input, kernel, out)[i][j] == acc;
      assert ConvMat(o.fma, s, input, kernel, out)[i][j] == o.fma(x, w, acc);
    }
  }

  // ----- matchAndRewrite -----

  /** The choice between the two lowerings. */
  method Lowered<T(==, !new)>(o: VecOps<T>, stride: nat, tileSizes: seq<nat>, s: Shape,
                        input: array2<T>, kernel: array2<T>, output: array2<T>)
    requires input != output && kernel != output && 0 < stride && |tileSizes| in {0, 2}
    requires s == Shape(input.Length0, input.Length1, kernel.Length0, kernel.Length1, output.Length0, output.Length1)
    requires s.Sized()
    modifies output
    ensures Contents(output) ==
      if tileSizes == [] then ConvMat(Skipping(o), s, Contents(input), Contents(kernel), old(Contents(output)))
      else TileMat(o.fma, s, tileSizes[0], tileSizes[1], Contents(input), Contents(kernel), old(Contents(output)))
    ensures (if tileSizes == [] then ZeroIsInert(o) else TileCovers(s, tileSizes[0], tileSizes[1])) ==>
      Contents(output) == ConvMat(o.fma, s, Contents(input), Contents(kernel), old(Contents(output)))
  {
    ghost var a, k, out := Contents(input), Contents(kernel), Contents(output);
    if tileSizes == [] {
      StripMined(o, stride, s, input, kernel, output);
      if ZeroIsInert(o) { SkippingConvMat(o, s, a, k, out); }
    } else {
      Tiled(o, tileSizes[0], tileSizes[1], s, input, kernel, output);
      if TileCovers(s, tileSizes[0], tileSizes[1]) {
        CoveringTile(o.fma, s, tileSizes[0], tileSizes[1], a, k, out);
      }
    }
  }
}
