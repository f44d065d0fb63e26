/** Facts about remainders that the ring indices need. */
module ModArith {

  lemma MulBounds(d: int, c: nat)
    ensures d >= 1 ==> d * c >= c
    ensures d <= -1 ==> d * c <= 0 - c
  {
    if d >= 1 {
      assert d * c == c + (d - 1) * c;
    } else if d <= -1 {
      assert d * c == -(c + (-d - 1) * c);
    }
  }

  lemma ModUnique(x: nat, c: nat, q: nat, r: nat)
    requires c > 0 && x == q * c + r && r < c
    ensures x % c == r
  {
    var d := q - x / c;
    assert x == (x / c) * c + x % c;
    assert d * c == q * c - (x / c) * c;
    MulBounds(d, c);
  }

  lemma ModSmall(x: nat, c: nat)
    requires x < c
    ensures x % c == x
  {
    ModUnique(x, c, 0, x);
  }

  lemma ModAdd(x: nat, j: nat, c: nat)
    requires c > 0
    ensures (x % c + j) % c == (x + j) % c
  {
    var y := x % c + j;
    assert x == (x / c) * c + x % c;
    assert y == (y / c) * c + y % c;
    assert (x / c + y / c) * c == (x / c) * c + (y / c) * c;
    ModUnique(x + j, c, x / c + y / c, y % c);
  }

  lemma ModShift(h: nat, c: nat)
    requires c > 0
    ensures (h + c) % c == h % c
  {
    assert h == (h / c) * c + h % c;
    assert (h / c + 1) * c == (h / c) * c + c;
    ModUnique(h + c, c, h / c + 1, h % c);
  }

  lemma ModDistinct(a: nat, b: nat, c: nat)
    requires c > 0 && a < b < a + c
    ensures a % c != b % c
  {
    var d := b / c - a / c;
    assert a == (a / c) * c + a % c && b == (b / c) * c + b % c;
    assert d * c == (b / c) * c - (a / c) * c;
    MulBounds(d, c);
  }

  /** The distance from one remainder up to another, around the ring. */
  lemma RingDistance(h: nat, t: nat, c: nat)
    requires c > 0 && h <= t < h + c
    ensures (t % c + c - h % c) % c == t - h
  {
    var q := t / c - h / c;
    assert h == (h / c) * c + h % c && t == (t / c) * c + t % c;
    assert q * c == (t / c) * c - (h / c) * c;
    MulBounds(q, c);
    MulBounds(q - 1, c);
    assert (q - 1) * c == q * c - c;
    if q == 0 {
      ModShift(t - h, c);
    }
    ModSmall(t - h, c);
  }
}
