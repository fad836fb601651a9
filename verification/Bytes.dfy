/** Network-order loads and stores, and the fixed-width integers of the wire format. */
module Bytes {

  type byte = x: int | 0 <= x < 0x100
  type Text = seq<byte>
  type u32 = x: int | 0 <= x < 0x1_0000_0000
  type u64 = x: int | 0 <= x < 0x1_0000_0000_0000_0000
  type i8 = x: int | -0x80 <= x < 0x80
  type i64 = x: int | -0x8000_0000_0000_0000 <= x < 0x8000_0000_0000_0000

  function Pow256(n: nat): (p: nat)
    ensures p >= 1
  {
    if n == 0 then 1 else 256 * Pow256(n - 1)
  }

  /** The four widths the wire format uses. */
  lemma Widths()
    ensures Pow256(0) == 1 && Pow256(1) == 0x100 && Pow256(2) == 0x1_0000
    ensures Pow256(4) == 0x1_0000_0000
    ensures Pow256(8) == 0x1_0000_0000_0000_0000
  {
    assert Pow256(3) == 0x100_0000;
    assert Pow256(5) == 0x100_0000_0000;
    assert Pow256(6) == 0x1_0000_0000_0000;
    assert Pow256(7) == 0x100_0000_0000_0000;
  }

  /** Big-endian load of all of `s`: each byte shifted in below the earlier ones. */
  function Load(s: seq<byte>): (v: nat)
    ensures v < Pow256(|s|)
  {
    if s == [] then 0 else Load(s[..|s| - 1]) * 256 + s[|s| - 1]
  }

  /** Big-endian store of the low `8 * width` bits of `v`. */
  function Store(v: nat, width: nat): (s: seq<byte>)
    ensures |s| == width
    decreases width
  {
    if width == 0 then [] else Store(v / 256, width - 1) + [v % 256]
  }

  lemma {:induction false} LoadStore(v: nat, width: nat)
    requires v < Pow256(width)
    ensures Load(Store(v, width)) == v
    decreases width
  {
    if width > 0 {
      LoadStore(v / 256, width - 1);
      assert Store(v, width)[..width - 1] == Store(v / 256, width - 1);
    }
  }

  /** Network order: the first byte is the most significant. */
  lemma {:induction false} FirstByteIsHighest(s: seq<byte>)
    requires s != []
    ensures Load(s) == s[0] * Pow256(|s| - 1) + Load(s[1..])
  {
    var n := |s| - 1;
    if n > 0 {
      var front := s[..n];
      FirstByteIsHighest(front);
      assert front[1..] == s[1..][..n - 1];
      Distribute(s[0], Pow256(n - 1), Load(front[1..]), s[n]);
    }
  }

  lemma Distribute(a: int, p: int, l: int, b: int)
    ensures (a * p + l) * 256 + b == a * (256 * p) + (l * 256 + b)
  {
  }

  lemma StoredHighestFirst(v: nat, width: nat)
    requires width > 0 && v < Pow256(width)
    ensures var s := Store(v, width);
            s[0] == v / Pow256(width - 1) && Load(s[1..]) == v % Pow256(width - 1)
  {
    hide Load, Store;
    LoadStore(v, width);
    FirstByteIsHighest(Store(v, width));
    Quotient(Pow256(width - 1), Store(v, width)[0], Load(Store(v, width)[1..]));
  }

  lemma Quotient(d: nat, q: nat, r: nat)
    requires r < d
    ensures (q * d + r) / d == q && (q * d + r) % d == r
  {
    var v := q * d + r;
    var k := v / d - q;
    assert d * k == r - v % d;
    Multiple(d, k);
  }

  lemma Multiple(d: nat, k: int)
    ensures k >= 1 ==> d * k >= d
    ensures k <= -1 ==> d * k + d <= 0
  {
  }

  /** Two's complement reading of `v` at `width` bytes. */
  function Signed(v: nat, width: nat): (i: int)
    requires v < Pow256(width)
  {
    if 2 * v >= Pow256(width) then v - Pow256(width) else v
  }

  /** The cast of a signed value to the unsigned type of `width` bytes. */
  function Unsigned(i: int, width: nat): (v: nat)
    requires 0 <= 2 * i + Pow256(width) < 2 * Pow256(width)
    ensures v < Pow256(width) && Signed(v, width) == i
  {
    if i < 0 then i + Pow256(width) else i
  }

  /** The reading is the one number of that many bits with a sign that is congruent to `v`. */
  lemma SignedIsCongruent(v: nat, width: nat, i: int)
    requires v < Pow256(width)
    ensures i == Signed(v, width) <==>
              0 <= 2 * i + Pow256(width) < 2 * Pow256(width) && (i == v || i == v - Pow256(width))
  {
  }
}
