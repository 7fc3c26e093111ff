/** Quotients and remainders by a variable width, in the multiplied-out form the solver needs. */
module Division {

  lemma Scale(x: int, y: int, width: nat)
    requires x <= y
    ensures x * width <= y * width
  {
  }

  lemma Fits(q: int, count: nat, r: int, width: nat)
    requires 0 <= q < count && 0 <= r < width
    ensures 0 <= q * width + r < count * width
  {
    Scale(0, q, width);
    Scale(q + 1, count, width);
  }

  lemma Split(x: nat, width: nat, count: nat)
    requires 0 < width && x < count * width
    ensures 0 <= x / width < count && 0 <= x % width < width && x == x / width * width + x % width
  {
    if count <= x / width {
      Scale(count, x / width, width);
    }
  }

  lemma Join(width: nat, q: int, r: int, x: nat)
    requires 0 <= r < width
    ensures x == q * width + r <==> x / width == q && x % width == r
  {
    assert x == x / width * width + x % width;
    if x == q * width + r {
      assert (q - x / width) * width == x % width - r;
      if q < x / width {
        Scale(q - x / width, -1, width);
      } else if x / width < q {
        Scale(1, q - x / width, width);
      }
    }
  }
}
