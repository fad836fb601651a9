/** What the format looks like in bytes, and in which order tags compare: laws that name neither the table of
    layouts nor the writers. */
module FormatTable {
  import opened Bytes
  import opened Format
  import opened Grammar
  import opened Wrappers

  function Power2(k: nat): nat {
    if k == 0 then 1 else 2 * Power2(k - 1)
  }

  lemma SmallPowers()
    ensures Power2(0) == 1 && Power2(1) == 2 && Power2(2) == 4 && Power2(3) == 8 && Power2(4) == 16
  {
    assert Power2(2) == 4 && Power2(3) == 8;
  }

  /** A number of 2^k bytes: the code for k, then the bytes, highest first. */
  lemma NumberForms(k: nat, p: seq<byte>, rest: seq<byte>)
    requires k < 4 && |p| == Power2(k)
    ensures Pow256(|p|) <= 0x1_0000_0000_0000_0000
    ensures Header([0xcc + k] + p + rest) == Some(Head(UInt(Load(p)), 1 + |p|))
    ensures Header([0xd0 + k] + p + rest) == Some(Head(Int(Signed(Load(p), |p|)), 1 + |p|))
    ensures k == 2 ==> Header([0xca] + p + rest) == Some(Head(Float(Load(p)), 5))
    ensures k == 3 ==> Header([0xcb] + p + rest) == Some(Head(Double(Load(p)), 9))
  {
    hide Header, Load, Pow256, Power2;
    SmallPowers();
    Widths();
    HeaderOf(0xcc + k, p, rest);
    HeaderOf(0xd0 + k, p, rest);
    if k == 2 { HeaderOf(0xca, p, rest); }
    if k == 3 { HeaderOf(0xcb, p, rest); }
  }

  /** A length of 2^k bytes. Arrays and maps have no length of one byte. */
  lemma LengthForms(k: nat, p: seq<byte>, rest: seq<byte>)
    requires k < 3 && |p| == Power2(k)
    ensures Load(p) < 0x1_0000_0000
    ensures Header([0xd9 + k] + p + rest) == Some(Head(Str(Load(p)), 1 + |p|))
    ensures Header([0xc4 + k] + p + rest) == Some(Head(Bin(Load(p)), 1 + |p|))
    ensures k > 0 ==> Header([0xdb + k] + p + rest) == Some(Head(Array(Load(p)), 1 + |p|))
    ensures k > 0 ==> Header([0xdd + k] + p + rest) == Some(Head(Map(Load(p)), 1 + |p|))
  {
    hide Header, Load, Pow256, Power2;
    SmallPowers();
    Widths();
    HeaderOf(0xd9 + k, p, rest);
    HeaderOf(0xc4 + k, p, rest);
    if k > 0 { HeaderOf(0xdb + k, p, rest); HeaderOf(0xdd + k, p, rest); }
  }

  /** An ext: its length, in 2^k bytes or as the power of two in the code, and then its type. */
  lemma ExtForms(k: nat, p: seq<byte>, b: byte, rest: seq<byte>)
    requires k < 5
    ensures Pow256(1) == 0x100 && Power2(k) <= 16
    ensures Header([0xd4 + k, b] + rest) == Some(Head(Ext(Signed(b, 1), Power2(k)), 2))
    ensures k < 3 && |p| == Power2(k) ==>
              Load(p) < 0x1_0000_0000 &&
              Header([0xc7 + k] + (p + [b]) + rest) == Some(Head(Ext(Signed(b, 1), Load(p)), 2 + |p|))
  {
    hide Header, Pow256, Power2;
    SmallPowers();
    Widths();
    OneByte(b);
    HeaderOf(0xd4 + k, [b], rest);
    assert [0xd4 + k] + [b] + rest == [0xd4 + k, b] + rest;
    if k < 3 && |p| == Power2(k) {
      HeaderOf(0xc7 + k, p + [b], rest);
      assert (p + [b])[|p|..] == [b] && (p + [b])[..|p|] == p;
    }
  }

  lemma OneByte(b: byte)
    ensures Load([b]) == b
  {
    assert [b][..0] == [];
  }

  /** A number of two bytes: 0xcd 0x01 0x00 is 256. */
  lemma TwoBytes(a: byte, b: byte, rest: seq<byte>)
    ensures Header([0xcd, a, b] + rest) == Some(Head(UInt(256 * a + b), 3))
  {
    hide Header;
    assert Load([a, b]) == 256 * a + b by {
      assert [a, b][..1] == [a];
      OneByte(a);
    }
    HeaderOf(0xcd, [a, b], rest);
    assert [0xcd] + [a, b] + rest == [0xcd, a, b] + rest;
  }

  /** What fits in one byte: small numbers of either sign, nil, the truth values, and short strings, arrays and
      maps. One byte announces nothing. */
  lemma OneByteForms(n: nat, rest: seq<byte>)
    ensures n < 128 ==> Header([n] + rest) == Some(Head(UInt(n), 1))
    ensures 1 <= n <= 32 ==> Header([0x100 - n] + rest) == Some(Head(Int(0 - n), 1))
    ensures n < 16 ==> Header([0x80 + n] + rest) == Some(Head(Map(n), 1))
    ensures n < 16 ==> Header([0x90 + n] + rest) == Some(Head(Array(n), 1))
    ensures n < 32 ==> Header([0xa0 + n] + rest) == Some(Head(Str(n), 1))
    ensures Header([0xc0] + rest) == Some(Head(Nil, 1)) && Header([0xc1] + rest).None?
    ensures Header([0xc2] + rest) == Some(Head(Bool(false), 1)) && Header([0xc3] + rest) == Some(Head(Bool(true), 1))
  {
  }

  /** A map is as many pairs as it says. */
  lemma MapDocument(n: nat, s: seq<byte>)
    requires n < 16
    ensures Decode([0x80 + n] + s) ==
              match DecodeSeq(s, 2 * n)
              case None => None
              case Some(d) => Some(Decoded(MapOf(d.values), 1 + d.size))
  {
    hide DecodeSeq, Header;
    OneByteForms(n, s);
    assert ([0x80 + n] + s)[1..] == s;
  }

  /** An array is as many objects. */
  lemma ArrayDocument(n: nat, s: seq<byte>)
    requires n < 16
    ensures Decode([0x90 + n] + s) ==
              match DecodeSeq(s, n)
              case None => None
              case Some(d) => Some(Decoded(ArrayOf(d.values), 1 + d.size))
  {
    hide DecodeSeq, Header;
    OneByteForms(n, s);
    assert ([0x90 + n] + s)[1..] == s;
  }

  /** A string is as many bytes. */
  lemma StrDocument(n: nat, s: seq<byte>)
    requires n < 32
    ensures Decode([0xa0 + n] + s) == if n <= |s| then Some(Decoded(StrOf(s[..n]), 1 + n)) else None
  {
    hide Decode, Header;
    OneByteForms(n, s);
    var t := [0xa0 + n] + s;
    StrDecoded(t, n);
    if n <= |s| { assert t[1..1 + n] == s[..n]; }
  }

  lemma StrDecoded(t: seq<byte>, n: u32)
    requires Header(t) == Some(Head(Str(n), 1))
    ensures Decode(t) == if 1 + n <= |t| then Some(Decoded(StrOf(t[1..1 + n]), 1 + n)) else None
  {
    hide DecodeSeq, Header;
    if 1 + n <= |t| { DecodeSeqNone(t[1 + n..]); }
  }

  // ---- mpack_tag_cmp ----

  /** Within one type the smaller number, or the shorter length, comes first; an ext by its type before its length;
      false before true. */
  lemma TagCmpOrders(host: Host, l: Tag, r: Tag)
    ensures l.UInt? && r.UInt? ==> (TagCmp(host, l, r) < 0 <==> l.u < r.u)
    ensures l.Int? && r.Int? && l.i < 0 && r.i < 0 ==> (TagCmp(host, l, r) < 0 <==> l.i < r.i)
    ensures (l.Str? && r.Str?) || (l.Bin? && r.Bin?) ==> (TagCmp(host, l, r) < 0 <==> l.len < r.len)
    ensures (l.Array? && r.Array?) || (l.Map? && r.Map?) ==> (TagCmp(host, l, r) < 0 <==> l.n < r.n)
    ensures l.Bool? && r.Bool? ==> (TagCmp(host, l, r) < 0 <==> !l.b && r.b)
    ensures l.Ext? && r.Ext? ==>
              (TagCmp(host, l, r) < 0 <==> l.exttype < r.exttype || (l.exttype == r.exttype && l.len < r.len))
  {
    hide Image;
  }

  /** Any tags of the eleven types, in the order of the types. */
  function OfEachType(b: bool, f: u32, d: u64, i: i64, u: u64, n: u32, e: i8): seq<Tag> {
    [Nil, Bool(b), Float(f), Double(d), Int(i), UInt(u), Str(n), Bin(n), Ext(e, n), Array(n), Map(n)]
  }

  lemma TypesOrdered(host: Host, b: bool, f: u32, d: u64, i: i64, u: u64, n: u32, e: i8)
    requires i < 0
    ensures var ts := OfEachType(b, f, d, i, u, n, e);
            forall j, k :: 0 <= j < k < |ts| ==> TagCmp(host, ts[j], ts[k]) < 0
  {
    hide Image;
    var ts := OfEachType(b, f, d, i, u, n, e);
    assert forall j :: 0 <= j < |ts| ==> Normal(ts[j]) == ts[j] && TypeRank(ts[j]) == j + 1;
    forall j, k | 0 <= j < k < |ts| ensures TagCmp(host, ts[j], ts[k]) < 0 { DifferentTypes(host, ts[j], ts[k]); }
  }

  lemma DifferentTypes(host: Host, l: Tag, r: Tag)
    requires TypeRank(Normal(l)) != TypeRank(Normal(r))
    ensures TagCmp(host, l, r) == TypeRank(Normal(l)) - TypeRank(Normal(r))
  {
  }

  /** Bytes compare as the numbers they are, highest first. */
  lemma {:induction false} BytesCompare(a: seq<byte>, b: seq<byte>)
    requires |a| == |b|
    ensures Lexicographic(a, b) < 0 <==> Load(a) < Load(b)
  {
    hide Load;
    if a != [] {
      BytesCompare(a[1..], b[1..]);
      FirstByteIsHighest(a);
      FirstByteIsHighest(b);
      DigitsCompare(Pow256(|a| - 1), a[0], Load(a[1..]), b[0], Load(b[1..]));
    } else {
      assert a == b;
    }
  }

  lemma DigitsCompare(p: nat, a: nat, l: nat, b: nat, r: nat)
    requires l < p && r < p
    ensures a * p + l < b * p + r <==> a < b || (a == b && l < r)
  {
    if a < b { assert (a + 1) * p <= b * p; } else if b < a { assert (b + 1) * p <= a * p; }
  }

  /** Floats compare as their bit patterns do where memory has the highest byte first, and from the other end where it
      has the lowest first; memcmp goes by the first byte that differs. */
  lemma FloatsCompare(l: Tag, r: Tag)
    ensures Pow256(4) == 0x1_0000_0000 && Pow256(8) == 0x1_0000_0000_0000_0000
    ensures l.Float? && r.Float? ==> (TagCmp(Host(false, Lexicographic), l, r) < 0 <==> l.f < r.f)
    ensures l.Double? && r.Double? ==> (TagCmp(Host(false, Lexicographic), l, r) < 0 <==> l.d < r.d)
    ensures l.Float? && r.Float? ==>
              (TagCmp(Host(true, Lexicographic), l, r) < 0 <==>
               Load(Reversed(Store(l.f, 4))) < Load(Reversed(Store(r.f, 4))))
  {
    hide Load, Store, Lexicographic, Pow256;
    Widths();
    if l.Float? && r.Float? {
      LoadStore(l.f, 4);
      LoadStore(r.f, 4);
      BytesCompare(Store(l.f, 4), Store(r.f, 4));
      BytesCompare(Reversed(Store(l.f, 4)), Reversed(Store(r.f, 4)));
    }
    if l.Double? && r.Double? {
      LoadStore(l.d, 8);
      LoadStore(r.d, 8);
      BytesCompare(Store(l.d, 8), Store(r.d, 8));
    }
  }
}
