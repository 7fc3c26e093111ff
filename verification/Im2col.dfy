/** CB_exam.py: convolution as a matrix product over rearranged windows. */
module Im2col {
  import opened ConvLowering
  import opened Division
  import opened Matrix
  import opened Options

  /** A multiply and an add per tap. */
  function Tap<T>(o: Ops<T>): (T, T, T) -> T { (x, w, acc) => o.add(acc, o.mul(x, w)) }

  /** np.pad with constant zeros. */
  ghost function Padded<T>(o: Ops<T>, m: Mat<T>, h: nat, w: nat, p: nat): (r: Mat<T>)
    requires IsMat(m, h, w)
    ensures IsMat(r, h + 2 * p, w + 2 * p)
    ensures forall i, j :: 0 <= i < h + 2 * p && 0 <= j < w + 2 * p ==>
      r[i][j] == if p <= i < p + h && p <= j < p + w then m[i - p][j - p] else o.zero
  {
    seq(h + 2 * p, i requires 0 <= i => seq(w + 2 * p, j requires 0 <= j =>
      if p <= i < p + h && p <= j < p + w then m[i - p][j - p] else o.zero))
  }

  /** m[i:i+kh, j:j+kw].flatten() */
  function Window<T>(m: Mat<T>, i: nat, j: nat, kh: nat, kw: nat): (v: seq<T>)
    requires i + kh <= |m| && forall r :: i <= r < i + kh ==> j + kw <= |m[r]|
    ensures |v| == kh * kw
  {
    seq(kh * kw, t requires 0 <= t < kh * kw =>
      Split(t, kw, kh);
      m[i + t / kw][j + t % kw])
  }

  lemma WindowAt<T>(m: Mat<T>, i: nat, j: nat, kh: nat, kw: nat, ki: nat, kj: nat)
    requires i + kh <= |m| && forall r :: i <= r < i + kh ==> j + kw <= |m[r]|
    requires ki < kh && kj < kw
    ensures 0 <= ki * kw + kj < kh * kw && Window(m, i, j, kh, kw)[ki * kw + kj] == m[i + ki][j + kj]
  {
    Fits(ki, kh, kj, kw);
    Join(kw, ki, kj, ki * kw + kj);
  }

  /** The product of a row with a vector, from zero and left to right. */
  function Dot<T>(o: Ops<T>, x: seq<T>, w: seq<T>, n: nat): T
    requires n <= |x| && n <= |w|
  {
    if n == 0 then o.zero else o.add(Dot(o, x, w, n - 1), o.mul(x[n - 1], w[n - 1]))
  }

  /** A flattened window times the flattened kernel is the row-major fold over the kernel. */
  lemma {:induction false} DotIsConv<T>(o: Ops<T>, s: Shape, input: Mat<T>, kernel: Mat<T>, i: nat, j: nat,
                                        ki: nat, kj: nat)
    requires s.Sized() && 0 < s.kh && 0 < s.kw && IsMat(input, s.ih, s.iw) && IsMat(kernel, s.kh, s.kw)
    requires i < s.oh && j < s.ow && kj <= s.kw && (if kj == 0 then ki <= s.kh else ki < s.kh)
    ensures 0 <= ki * s.kw + kj <= s.kh * s.kw
    ensures Dot(o, Window(input, i, j, s.kh, s.kw), Window(kernel, 0, 0, s.kh, s.kw), ki * s.kw + kj)
      == Conv(Tap(o), s, input, kernel, i, j, o.zero, ki, kj)
    decreases ki, kj
  {
    if 0 < kj {
      WindowAt(input, i, j, s.kh, s.kw, ki, kj - 1);
      WindowAt(kernel, 0, 0, s.kh, s.kw, ki, kj - 1);
      DotIsConv(o, s, input, kernel, i, j, ki, kj - 1);
    } else if 0 < ki {
      Scale(ki, s.kh, s.kw);
      assert (ki - 1) * s.kw + s.kw == ki * s.kw;
      DotIsConv(o, s, input, kernel, i, j, ki - 1, s.kw);
    }
  }

  /** An extent of the output. */
  function OutExtent(extent: nat, k: nat, stride: nat, p: nat): int
    requires 0 < stride
  {
    (extent - k + 2 * p) / stride + 1
  }

  /** The last of the strided windows fits and one more would not: the extent counts them. */
  lemma ExtentCounts(h: nat, k: nat, stride: nat, p: nat)
    requires 0 < stride
    ensures (OutExtent(h, k, stride, p) - 1) * stride + k <= h + 2 * p < OutExtent(h, k, stride, p) * stride + k
  {
    var d := h - k + 2 * p;
    assert d == d / stride * stride + d % stride;
    assert (d / stride + 1) * stride == d / stride * stride + stride;
  }

  /** Every window lies inside the padded input. */
  lemma WindowsFit(h: nat, k: nat, stride: nat, p: nat)
    requires 0 < stride && 0 < OutExtent(h, k, stride, p)
    ensures OutExtent(h, k, stride, p) + k <= h + 2 * p + 1
  {
    var d := h - k + 2 * p;
    assert d / stride >= 0 && d >= 0;
    assert d / stride * stride <= d;
    Scale(1, stride, d / stride);
  }

  lemma PaddedIs<T>(o: Ops<T>, r: Mat<T>, m: Mat<T>, h: nat, w: nat, p: nat)
    requires IsMat(m, h, w) && IsMat(r, h + 2 * p, w + 2 * p)
    requires forall i, j :: 0 <= i < h + 2 * p && 0 <= j < w + 2 * p ==>
      r[i][j] == if p <= i < p + h && p <= j < p + w then m[i - p][j - p] else o.zero
    ensures r == Padded(o, m, h, w, p)
  {
    MatEqual(r, Padded(o, m, h, w, p), h + 2 * p, w + 2 * p);
  }

  method Pad<T>(o: Ops<T>, input: array2<T>, p: nat) returns (r: array2<T>)
    ensures r.Length0 == input.Length0 + 2 * p && r.Length1 == input.Length1 + 2 * p
    ensures Contents(r) == Padded(o, Contents(input), input.Length0, input.Length1, p)
  {
    if p > 0 {
      r := new T[input.Length0 + 2 * p, input.Length1 + 2 * p]((i, j) => o.zero);
      forall i, j | p <= i < p + input.Length0 && p <= j < p + input.Length1 { r[i, j] := input[i - p, j - p]; }
    } else {
      r := input;
    }
    hide Padded, Contents;
    assert forall i, j :: 0 <= i < r.Length0 && 0 <= j < r.Length1 ==>
      r[i, j] == if p <= i < p + input.Length0 && p <= j < p + input.Length1 then input[i - p, j - p] else o.zero;
    PaddedIs(o, Contents(r), Contents(input), input.Length0, input.Length1, p);
  }

  /** One window against the flattened kernel, taps in row-major order. */
  method WindowProduct<T>(o: Ops<T>, x: seq<T>, w: seq<T>) returns (sum: T)
    requires |x| == |w|
    ensures sum == Dot(o, x, w, |w|)
  {
    sum := o.zero;
    for t := 0 to |w|
      invariant sum == Dot(o, x, w, t)
    {
      sum := o.add(sum, o.mul(x[t], w[t]));
    }
  }

  method Flatten<T>(m: array2<T>, i: nat, j: nat, kh: nat, kw: nat) returns (v: seq<T>)
    requires i + kh <= m.Length0 && j + kw <= m.Length1
    ensures v == Window(Contents(m), i, j, kh, kw)
  {
    v := [];
    ghost var c := Contents(m);
    for ki := 0 to kh
      invariant |v| == ki * kw
      invariant forall r, q :: 0 <= r < ki && 0 <= q < kw ==> Entry(v, r, q, kw) == Some(c[i + r][j + q])
    {
      for kj := 0 to kw
        invariant |v| == ki * kw + kj
        invariant forall r, q :: 0 <= r < ki && 0 <= q < kw ==> Entry(v, r, q, kw) == Some(c[i + r][j + q])
        invariant forall q :: 0 <= q < kj ==> Entry(v, ki, q, kw) == Some(c[i + ki][j + q])
      {
        ghost var before := v;
        v := v + [m[i + ki, j + kj]];
        assert forall r, q | 0 <= r && 0 <= q ::
          Entry(before, r, q, kw).Some? ==> Entry(v, r, q, kw) == Entry(before, r, q, kw);
      }
      assert (ki + 1) * kw == ki * kw + kw;
    }
    forall t | 0 <= t < kh * kw ensures v[t] == Window(c, i, j, kh, kw)[t] {
      Split(t, kw, kh);
      assert Entry(v, t / kw, t % kw, kw) == Some(c[i + t / kw][j + t % kw]);
    }
  }

  function Entry<T>(v: seq<T>, r: nat, q: nat, cols: nat): Option<T> {
    if r * cols + q < |v| then Some(v[r * cols + q]) else None
  }

  /** The shape the call works on, when numpy accepts its extents. */
  function CallShape(h: nat, w: nat, kh: nat, kw: nat, stride: nat, p: nat): Option<Shape>
    requires 0 < stride
  {
    var oh, ow := OutExtent(h, kh, stride, p), OutExtent(w, kw, stride, p);
    if oh < 0 || ow < 0 then None else Some(Shape(h + 2 * p, w + 2 * p, kh, kw, oh, ow))
  }

  lemma CallShapeSized(h: nat, w: nat, kh: nat, kw: nat, stride: nat, p: nat)
    requires 0 < stride && CallShape(h, w, kh, kw, stride, p).Some?
    ensures var s := CallShape(h, w, kh, kw, stride, p).value;
      && s.ih == h + 2 * p && s.iw == w + 2 * p && s.kh == kh && s.kw == kw
      && (0 < s.oh ==> s.oh + kh <= s.ih + 1) && (0 < s.ow ==> s.ow + kw <= s.iw + 1) && s.Sized()
  {
    if 0 < OutExtent(h, kh, stride, p) { WindowsFit(h, kh, stride, p); }
    if 0 < OutExtent(w, kw, stride, p) { WindowsFit(w, kw, stride, p); }
  }

  lemma CellIsConv<T>(o: Ops<T>, s: Shape, input: Mat<T>, kernel: Mat<T>, i: nat, j: nat)
    requires s.Sized() && IsMat(input, s.ih, s.iw) && IsMat(kernel, s.kh, s.kw) && i < s.oh && j < s.ow
    requires i + s.kh <= s.ih && j + s.kw <= s.iw
    ensures Dot(o, Window(input, i, j, s.kh, s.kw), Window(kernel, 0, 0, s.kh, s.kw), s.kh * s.kw)
      == Conv(Tap(o), s, input, kernel, i, j, o.zero, s.kh, 0)
  {
    if 0 < s.kh && 0 < s.kw {
      DotIsConv(o, s, input, kernel, i, j, s.kh, 0);
    } else {
      NoTaps(Tap(o), s, input, kernel, i, j, o.zero, s.kh);
    }
  }

  /** The loop that fills input_tensor_reshaped. */
  method Rearrange<T>(input: array2<T>, s: Shape) returns (reshaped: array2<seq<T>>)
    requires s.ih == input.Length0 && s.iw == input.Length1
    requires (0 < s.oh ==> s.oh + s.kh <= s.ih + 1) && (0 < s.ow ==> s.ow + s.kw <= s.iw + 1)
    ensures fresh(reshaped) && reshaped.Length0 == s.oh && reshaped.Length1 == s.ow
    ensures forall r, q :: 0 <= r < s.oh && 0 <= q < s.ow ==>
      reshaped[r, q] == Window(Contents(input), r, q, s.kh, s.kw)
  {
    ghost var a := Contents(input);
    hide Window;
    reshaped := new seq<T>[s.oh, s.ow]((i, j) => []);
    for i := 0 to s.oh
      invariant forall r, q :: 0 <= r < i && 0 <= q < s.ow ==> reshaped[r, q] == Window(a, r, q, s.kh, s.kw)
    {
      for j := 0 to s.ow
        invariant forall r, q :: 0 <= r < i && 0 <= q < s.ow ==> reshaped[r, q] == Window(a, r, q, s.kh, s.kw)
        invariant forall q :: 0 <= q < j ==> reshaped[i, q] == Window(a, i, q, s.kh, s.kw)
      {
        var window := Flatten(input, i, j, s.kh, s.kw);
        reshaped[i, j] := window;
      }
    }
  }

  /** The product of the rearranged input with the flattened kernel. */
  method Multiply<T(0)>(o: Ops<T>, s: Shape, input: array2<T>, kernel: array2<T>,
                        reshaped: array2<seq<T>>, vector: seq<T>) returns (out: array2<T>)
    requires s.Sized() && s.ih == input.Length0 && s.iw == input.Length1
    requires s.kh == kernel.Length0 && s.kw == kernel.Length1
    requires (0 < s.oh ==> s.oh + s.kh <= s.ih + 1) && (0 < s.ow ==> s.ow + s.kw <= s.iw + 1)
    requires reshaped.Length0 == s.oh && reshaped.Length1 == s.ow
    requires vector == Window(Contents(kernel), 0, 0, s.kh, s.kw)
    requires forall r, q :: 0 <= r < s.oh && 0 <= q < s.ow ==>
      reshaped[r, q] == Window(Contents(input), r, q, s.kh, s.kw)
    ensures fresh(out) && out.Length0 == s.oh && out.Length1 == s.ow
    ensures Contents(out) == ConvMat(Tap(o), s, Contents(input), Contents(kernel), Zeros(o, s.oh, s.ow))
  {
    ghost var a, k := Contents(input), Contents(kernel);
    hide Window, Conv, Dot;
    out := new T[s.oh, s.ow];
    for i := 0 to s.oh
      invariant forall r, q :: 0 <= r < i && 0 <= q < s.ow ==> out[r, q] == Conv(Tap(o), s, a, k, r, q, o.zero, s.kh, 0)
    {
      for j := 0 to s.ow
        invariant forall r, q :: 0 <= r < i && 0 <= q < s.ow ==>
          out[r, q] == Conv(Tap(o), s, a, k, r, q, o.zero, s.kh, 0)
        invariant forall q :: 0 <= q < j ==> out[i, q] == Conv(Tap(o), s, a, k, i, q, o.zero, s.kh, 0)
      {
        var sum := WindowProduct(o, reshaped[i, j], vector);
        CellIsConv(o, s, a, k, i, j);
        out[i, j] := sum;
      }
    }
    MatEqual(Contents(out), ConvMat(Tap(o), s, a, k, Zeros(o, s.oh, s.ow)), s.oh, s.ow);
  }

  /** What the call returns, as a value. */
  ghost function Result<T>(o: Ops<T>, h: nat, w: nat, kh: nat, kw: nat, stride: nat, p: nat, input: Mat<T>,
                           kernel: Mat<T>): (r: Option<Mat<T>>)
    requires 0 < stride && IsMat(input, h, w) && IsMat(kernel, kh, kw)
    ensures r.Some? <==> 0 <= OutExtent(h, kh, stride, p) && 0 <= OutExtent(w, kw, stride, p)
    ensures r.Some? ==> IsMat(r.value, OutExtent(h, kh, stride, p), OutExtent(w, kw, stride, p))
  {
    if CallShape(h, w, kh, kw, stride, p).None? then None
    else
      var s := CallShape(h, w, kh, kw, stride, p).value;
      CallShapeSized(h, w, kh, kw, stride, p);
      Some(ConvMat(Tap(o), s, Padded(o, input, h, w, p), kernel, Zeros(o, s.oh, s.ow)))
  }

  /** coefficients_broadcasting_convolution.  It fails exactly when an output extent is negative;
      otherwise cell (i, j) is the window at (i, j) of the zero-padded input against the kernel,
      whatever the stride. */
  method Convolution<T(0)>(o: Ops<T>, input: array2<T>, kernel: array2<T>, stride: nat, padding: nat)
    returns (result: Option<array2<T>>)
    requires 0 < stride
    ensures var r := Result(o, input.Length0, input.Length1, kernel.Length0, kernel.Length1, stride, padding,
                            Contents(input), Contents(kernel));
      && result.Some? == r.Some?
      && (result.Some? ==>
            && result.value.Length0 == OutExtent(input.Length0, kernel.Length0, stride, padding)
            && result.value.Length1 == OutExtent(input.Length1, kernel.Length1, stride, padding)
            && Contents(result.value) == r.value)
  {
    hide Padded, Window, ConvMat, OutExtent;
    var shape := CallShape(input.Length0, input.Length1, kernel.Length0, kernel.Length1, stride, padding);
    if shape.None? { return None; }
    var s := shape.value;
    CallShapeSized(input.Length0, input.Length1, kernel.Length0, kernel.Length1, stride, padding);
    var padded := Pad(o, input, padding);
    var reshaped := Rearrange(padded, s);
    var vector := Flatten(kernel, 0, 0, s.kh, s.kw);
    var out := Multiply(o, s, padded, kernel, reshaped, vector);
    result := Some(out);
  }

  // ----- the stride argument -----

  const INT_OPS: Ops<int> := Ops(0, (x, y) => x * y, (x: int, y: int) => x + y)

  /** All windows of an input of this extent, one apart. */
  function Starts(extent: nat, k: nat): nat { if k <= extent then extent - k + 1 else 0 }

  /** All windows of the padded input, one apart. */
  function DenseShape(h: nat, w: nat, kh: nat, kw: nat, p: nat): (s: Shape)
    ensures s.Sized()
  {
    Shape(h + 2 * p, w + 2 * p, kh, kw, Starts(h + 2 * p, kh), Starts(w + 2 * p, kw))
  }

  /** An output index of the call. */
  predicate Out(i: nat, extent: nat, k: nat, stride: nat, p: nat)
    requires 0 < stride
  {
    i < OutExtent(extent, k, stride, p)
  }

  lemma InRange(h: nat, k: nat, stride: nat, p: nat, i: nat)
    requires 0 < stride && Out(i, h, k, stride, p)
    ensures i <= i * stride < Starts(h + 2 * p, k)
  {
    var d := h + 2 * p - k;
    assert d / stride >= 0 && d >= 0;
    assert d / stride * stride <= d;
    Scale(i, d / stride, stride);
    Scale(1, stride, i);
  }

  /** The window at (i, j) of the padded input. */
  ghost function WindowConv(h: nat, w: nat, kh: nat, kw: nat, p: nat, input: Mat<int>, kernel: Mat<int>, i: nat,
                            j: nat): int
    requires IsMat(input, h, w) && IsMat(kernel, kh, kw) && i < Starts(h + 2 * p, kh) && j < Starts(w + 2 * p, kw)
  {
    Conv(Tap(INT_OPS), DenseShape(h, w, kh, kw, p), Padded(INT_OPS, input, h, w, p), kernel, i, j, 0, kh, 0)
  }

  /** The result of the call is the convolution with its stride: cell (i, j) holds the value of the
      window at (i * stride, j * stride). */
  ghost predicate HonoursStride(h: nat, w: nat, kh: nat, kw: nat, stride: nat, p: nat, input: Mat<int>,
                                kernel: Mat<int>)
    requires 0 < stride && IsMat(input, h, w) && IsMat(kernel, kh, kw)
  {
    forall i: nat, j: nat :: Out(i, h, kh, stride, p) && Out(j, w, kw, stride, p) ==>
      (InRange(h, kh, stride, p, i); InRange(w, kw, stride, p, j);
       Result(INT_OPS, h, w, kh, kw, stride, p, input, kernel).value[i][j]
         == WindowConv(h, w, kh, kw, p, input, kernel, i * stride, j * stride))
  }

  /** How many windows there are does not matter to one of them. */
  lemma {:induction false} SameWindow<T>(tap: (T, T, T) -> T, s: Shape, t: Shape, input: Mat<T>, kernel: Mat<T>,
                                         i: nat, j: nat, acc: T, ki: nat, kj: nat)
    requires s.Sized() && t.Sized() && s.(oh := t.oh, ow := t.ow) == t
    requires IsMat(input, s.ih, s.iw) && IsMat(kernel, s.kh, s.kw)
    requires i < s.oh && j < s.ow && i < t.oh && j < t.ow
    requires kj <= s.kw && (if kj == 0 then ki <= s.kh else ki < s.kh)
    ensures Conv(tap, s, input, kernel, i, j, acc, ki, kj) == Conv(tap, t, input, kernel, i, j, acc, ki, kj)
    decreases ki, kj
  {
    if 0 < kj {
      SameWindow(tap, s, t, input, kernel, i, j, acc, ki, kj - 1);
    } else if 0 < ki {
      SameWindow(tap, s, t, input, kernel, i, j, acc, ki - 1, s.kw);
    }
  }

  /** Cell (i, j) of the result is the window at (i, j), whatever the stride. */
  lemma CellOfCall(h: nat, w: nat, kh: nat, kw: nat, stride: nat, p: nat, input: Mat<int>, kernel: Mat<int>,
                   i: nat, j: nat)
    requires 0 < stride && IsMat(input, h, w) && IsMat(kernel, kh, kw)
    requires Out(i, h, kh, stride, p) && Out(j, w, kw, stride, p)
    ensures i < Starts(h + 2 * p, kh) && j < Starts(w + 2 * p, kw)
    ensures var r := Result(INT_OPS, h, w, kh, kw, stride, p, input, kernel);
      r.Some? && r.value[i][j] == WindowConv(h, w, kh, kw, p, input, kernel, i, j)
  {
    var s, padded := CallShape(h, w, kh, kw, stride, p).value, Padded(INT_OPS, input, h, w, p);
    CallShapeSized(h, w, kh, kw, stride, p);
    InRange(h, kh, stride, p, i);
    InRange(w, kw, stride, p, j);
    hide Padded, Conv;
    SameWindow(Tap(INT_OPS), s, DenseShape(h, w, kh, kw, p), padded, kernel, i, j, 0, kh, 0);
  }

  /** A window of extent k at i has a place r in common with the unpadded input. */
  predicate Meets(i: nat, k: nat, p: nat, h: nat, r: nat) { i <= r < i + k && p <= r < p + h }

  ghost predicate Touches(i: nat, k: nat, p: nat, h: nat) { exists r: nat :: Meets(i, k, p, h, r) }

  ghost predicate TouchesBoth(h: nat, w: nat, kh: nat, kw: nat, p: nat, i: nat, j: nat) {
    Touches(i, kh, p, h) && Touches(j, kw, p, w)
  }

  /** The window the call takes is the right one, or both see padding only. */
  ghost predicate RightWindow(h: nat, w: nat, kh: nat, kw: nat, stride: nat, p: nat, i: nat, j: nat) {
    || (i * stride == i && j * stride == j)
    || (!TouchesBoth(h, w, kh, kw, p, i, j) && !TouchesBoth(h, w, kh, kw, p, i * stride, j * stride))
  }

  /** A matrix that is one in row r and column c only. */
  function Spot(h: nat, w: nat, r: int, c: int): (m: Mat<int>)
    ensures IsMat(m, h, w) && forall i, j :: 0 <= i < h && 0 <= j < w ==> m[i][j] == if i == r && j == c then 1 else 0
  {
    seq(h, i => seq(w, j => if i == r && j == c then 1 else 0))
  }

  /** A kernel with one coefficient picks one cell of the window. */
  lemma {:induction false} SpotPicks(s: Shape, input: Mat<int>, r: nat, c: nat, i: nat, j: nat, ki: nat, kj: nat)
    requires s.Sized() && IsMat(input, s.ih, s.iw) && i < s.oh && j < s.ow && r < s.kh && c < s.kw
    requires kj <= s.kw && (if kj == 0 then ki <= s.kh else ki < s.kh)
    ensures Conv(Tap(INT_OPS), s, input, Spot(s.kh, s.kw, r, c), i, j, 0, ki, kj)
      == if r < ki || (r == ki && c < kj) then input[i + r][j + c] else 0
    decreases ki, kj
  {
    hide Spot;
    if 0 < kj {
      SpotPicks(s, input, r, c, i, j, ki, kj - 1);
    } else if 0 < ki {
      SpotPicks(s, input, r, c, i, j, ki - 1, s.kw);
    }
  }

  /** A window of zeros gives zero. */
  lemma {:induction false} ZeroWindow(s: Shape, input: Mat<int>, kernel: Mat<int>, i: nat, j: nat, ki: nat, kj: nat)
    requires s.Sized() && IsMat(input, s.ih, s.iw) && IsMat(kernel, s.kh, s.kw) && i < s.oh && j < s.ow
    requires kj <= s.kw && (if kj == 0 then ki <= s.kh else ki < s.kh)
    requires forall r, c :: i <= r < i + s.kh && j <= c < j + s.kw && r < s.ih && c < s.iw ==> input[r][c] == 0
    ensures Conv(Tap(INT_OPS), s, input, kernel, i, j, 0, ki, kj) == 0
    decreases ki, kj
  {
    if 0 < kj {
      ZeroWindow(s, input, kernel, i, j, ki, kj - 1);
      assert input[i + ki][j + kj - 1] == 0;
    } else if 0 < ki {
      ZeroWindow(s, input, kernel, i, j, ki - 1, s.kw);
    }
  }

  /** A window that sees padding only gives zero. */
  lemma PaddingOnly(h: nat, w: nat, kh: nat, kw: nat, p: nat, input: Mat<int>, kernel: Mat<int>, i: nat, j: nat)
    requires IsMat(input, h, w) && IsMat(kernel, kh, kw) && i < Starts(h + 2 * p, kh) && j < Starts(w + 2 * p, kw)
    requires !TouchesBoth(h, w, kh, kw, p, i, j)
    ensures WindowConv(h, w, kh, kw, p, input, kernel, i, j) == 0
  {
    var padded := Padded(INT_OPS, input, h, w, p);
    forall r, c | i <= r < i + kh && j <= c < j + kw && r < h + 2 * p && c < w + 2 * p ensures padded[r][c] == 0 {
      assert !Meets(i, kh, p, h, r) || !Meets(j, kw, p, w, c);
    }
    hide Padded;
    ZeroWindow(DenseShape(h, w, kh, kw, p), padded, kernel, i, j, kh, 0);
  }

  lemma PaddedSpot(h: nat, w: nat, p: nat, r: nat, c: nat, x: nat, y: nat)
    requires p <= r < p + h && p <= c < p + w && x < h + 2 * p && y < w + 2 * p
    ensures Padded(INT_OPS, Spot(h, w, r - p, c - p), h, w, p)[x][y] == if x == r && y == c then 1 else 0
  {
  }

  /** A kernel with one coefficient over a spot tells a window at (i, j) that sees it from any other. */
  lemma SpotTells(h: nat, w: nat, kh: nat, kw: nat, p: nat, i: nat, j: nat, i': nat, j': nat, r: nat, c: nat)
    requires i < Starts(h + 2 * p, kh) && j < Starts(w + 2 * p, kw)
    requires i' < Starts(h + 2 * p, kh) && j' < Starts(w + 2 * p, kw)
    requires Meets(i, kh, p, h, r) && Meets(j, kw, p, w, c) && (i != i' || j != j')
    ensures var input, kernel := Spot(h, w, r - p, c - p), Spot(kh, kw, r - i, c - j);
      WindowConv(h, w, kh, kw, p, input, kernel, i, j) == 1 && WindowConv(h, w, kh, kw, p, input, kernel, i', j') == 0
  {
    PaddedSpot(h, w, p, r, c, r, c);
    PaddedSpot(h, w, p, r, c, i' + (r - i), j' + (c - j));
    var s, padded := DenseShape(h, w, kh, kw, p), Padded(INT_OPS, Spot(h, w, r - p, c - p), h, w, p);
    hide Padded, Spot, Conv;
    SpotPicks(s, padded, r - i, c - j, i, j, kh, 0);
    SpotPicks(s, padded, r - i, c - j, i', j', kh, 0);
  }

  /** Two windows, one of which sees some of the input, differ on some input and kernel. */
  lemma TellsApart(h: nat, w: nat, kh: nat, kw: nat, p: nat, i: nat, j: nat, i': nat, j': nat)
    returns (input: Mat<int>, kernel: Mat<int>)
    requires i < Starts(h + 2 * p, kh) && j < Starts(w + 2 * p, kw)
    requires i' < Starts(h + 2 * p, kh) && j' < Starts(w + 2 * p, kw)
    requires TouchesBoth(h, w, kh, kw, p, i, j) && (i != i' || j != j')
    ensures IsMat(input, h, w) && IsMat(kernel, kh, kw)
    ensures WindowConv(h, w, kh, kw, p, input, kernel, i, j) != WindowConv(h, w, kh, kw, p, input, kernel, i', j')
  {
    var r: nat :| Meets(i, kh, p, h, r);
    var c: nat :| Meets(j, kw, p, w, c);
    hide WindowConv, Spot;
    SpotTells(h, w, kh, kw, p, i, j, i', j', r, c);
    input, kernel := Spot(h, w, r - p, c - p), Spot(kh, kw, r - i, c - j);
  }

  lemma RightWindowsSuffice(h: nat, w: nat, kh: nat, kw: nat, stride: nat, p: nat, input: Mat<int>, kernel: Mat<int>)
    requires 0 < stride && IsMat(input, h, w) && IsMat(kernel, kh, kw)
    requires forall i: nat, j: nat :: Out(i, h, kh, stride, p) && Out(j, w, kw, stride, p) ==>
      RightWindow(h, w, kh, kw, stride, p, i, j)
    ensures HonoursStride(h, w, kh, kw, stride, p, input, kernel)
  {
    hide WindowConv, TouchesBoth, Result, OutExtent;
    forall i: nat, j: nat | Out(i, h, kh, stride, p) && Out(j, w, kw, stride, p)
      ensures (InRange(h, kh, stride, p, i); InRange(w, kw, stride, p, j);
               Result(INT_OPS, h, w, kh, kw, stride, p, input, kernel).value[i][j]
                 == WindowConv(h, w, kh, kw, p, input, kernel, i * stride, j * stride))
    {
      CellOfCall(h, w, kh, kw, stride, p, input, kernel, i, j);
      InRange(h, kh, stride, p, i);
      InRange(w, kw, stride, p, j);
      assert RightWindow(h, w, kh, kw, stride, p, i, j);
      if !(i * stride == i && j * stride == j) {
        PaddingOnly(h, w, kh, kw, p, input, kernel, i, j);
        PaddingOnly(h, w, kh, kw, p, input, kernel, i * stride, j * stride);
      }
    }
  }

  lemma WrongWindowShows(h: nat, w: nat, kh: nat, kw: nat, stride: nat, p: nat, i: nat, j: nat)
    returns (input: Mat<int>, kernel: Mat<int>)
    requires 0 < stride && Out(i, h, kh, stride, p) && Out(j, w, kw, stride, p)
    requires !RightWindow(h, w, kh, kw, stride, p, i, j)
    ensures IsMat(input, h, w) && IsMat(kernel, kh, kw)
    ensures !HonoursStride(h, w, kh, kw, stride, p, input, kernel)
  {
    hide WindowConv, TouchesBoth, Result, OutExtent;
    InRange(h, kh, stride, p, i);
    InRange(w, kw, stride, p, j);
    if TouchesBoth(h, w, kh, kw, p, i, j) {
      input, kernel := TellsApart(h, w, kh, kw, p, i, j, i * stride, j * stride);
    } else {
      input, kernel := TellsApart(h, w, kh, kw, p, i * stride, j * stride, i, j);
    }
    CellOfCall(h, w, kh, kw, stride, p, input, kernel, i, j);
  }

  /** The result of the call honours its stride on every input of a given shape exactly when for every
      output cell the window taken is the right one, or both see padding only. */
  lemma StrideIsIgnored(h: nat, w: nat, kh: nat, kw: nat, stride: nat, p: nat)
    requires 0 < stride
    ensures
      (forall i: nat, j: nat :: Out(i, h, kh, stride, p) && Out(j, w, kw, stride, p) ==>
        RightWindow(h, w, kh, kw, stride, p, i, j))
      <==>
      forall input: Mat<int>, kernel: Mat<int> | IsMat(input, h, w) && IsMat(kernel, kh, kw) ::
        HonoursStride(h, w, kh, kw, stride, p, input, kernel)
  {
    hide HonoursStride, RightWindow, Out;
    if forall i: nat, j: nat :: Out(i, h, kh, stride, p) && Out(j, w, kw, stride, p) ==>
         RightWindow(h, w, kh, kw, stride, p, i, j)
    {
      forall input: Mat<int>, kernel: Mat<int> | IsMat(input, h, w) && IsMat(kernel, kh, kw)
        ensures HonoursStride(h, w, kh, kw, stride, p, input, kernel)
      {
        RightWindowsSuffice(h, w, kh, kw, stride, p, input, kernel);
      }
    } else {
      var i: nat, j: nat :|
        Out(i, h, kh, stride, p) && Out(j, w, kw, stride, p) && !RightWindow(h, w, kh, kw, stride, p, i, j);
      var input, kernel := WrongWindowShows(h, w, kh, kw, stride, p, i, j);
    }
  }

  lemma Unpadded(h: nat, k: nat, stride: nat, i: nat)
    requires 0 < stride && 0 < k <= h && Out(i, h, k, stride, 0)
    ensures Touches(i, k, 0, h) && (i * stride == i <==> stride == 1 || i == 0)
  {
    InRange(h, k, stride, 0, i);
    assert Meets(i, k, 0, h, i);
    if 1 < stride { Scale(2, stride, i); }
  }

  /** Without padding every window sees the input, and what remains is a stride of one or an output
      of a single cell. */
  lemma StrideWithoutPadding(h: nat, w: nat, kh: nat, kw: nat, stride: nat)
    requires 0 < stride && 0 < kh <= h && 0 < kw <= w
    ensures stride == 1 || (OutExtent(h, kh, stride, 0) == 1 && OutExtent(w, kw, stride, 0) == 1) <==>
      forall input: Mat<int>, kernel: Mat<int> | IsMat(input, h, w) && IsMat(kernel, kh, kw) ::
        HonoursStride(h, w, kh, kw, stride, 0, input, kernel)
  {
    StrideIsIgnored(h, w, kh, kw, stride, 0);
    hide HonoursStride;
    assert 1 <= OutExtent(h, kh, stride, 0) && 1 <= OutExtent(w, kw, stride, 0);
    forall i: nat, j: nat | Out(i, h, kh, stride, 0) && Out(j, w, kw, stride, 0)
      ensures RightWindow(h, w, kh, kw, stride, 0, i, j) <==> stride == 1 || (i == 0 && j == 0)
    {
      Unpadded(h, kh, stride, i);
      Unpadded(w, kw, stride, j);
    }
    hide RightWindow;
    if stride != 1 && OutExtent(h, kh, stride, 0) > 1 {
      assert Out(1, h, kh, stride, 0) && Out(0, w, kw, stride, 0);
      assert !RightWindow(h, w, kh, kw, stride, 0, 1, 0);
    } else if stride != 1 && OutExtent(w, kw, stride, 0) > 1 {
      assert Out(0, h, kh, stride, 0) && Out(1, w, kw, stride, 0);
      assert !RightWindow(h, w, kh, kw, stride, 0, 0, 1);
    }
  }
}
