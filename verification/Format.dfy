/** MessagePack headers ("tags"): the format table of the MessagePack specification, section
    "Formats", and the header writers of mpack. */
module Format {
  import opened Bytes
  import opened Wrappers

  /** An object header. Floats are kept as their bit patterns. */
  datatype Tag =
    | Nil
    | Bool(b: bool)
    | Float(f: u32)
    | Double(d: u64)
    | Int(i: i64)
    | UInt(u: u64)
    | Str(len: u32)
    | Bin(len: u32)
    | Ext(exttype: i8, len: u32)
    | Array(n: u32)
    | Map(n: u32)

  datatype Kind = StrKind | BinKind | ArrayKind | MapKind

  function Counted(kind: Kind, n: u32): Tag {
    match kind
    case StrKind => Str(n)
    case BinKind => Bin(n)
    case ArrayKind => Array(n)
    case MapKind => Map(n)
  }

  /** What the first byte of a header announces; widths are in bytes. */
  datatype Layout =
    | Whole(tag: Tag)
    | Unsigned_(width: nat)
    | Signed_(width: nat)
    | Float32
    | Float64
    | Sized(kind: Kind, width: nat)
    | SizedExt(width: nat)
    | FixExt(count: u32)
    | Reserved

  function LayoutOf(b: byte): (l: Layout)
    ensures l.Unsigned_? || l.Signed_? ==> l.width in {1, 2, 4, 8}
    ensures l.Sized? || l.SizedExt? ==> l.width in {1, 2, 4}
  {
    if b <= 0x7f then Whole(UInt(b))
    else if b <= 0x8f then Whole(Map(b - 0x80))
    else if b <= 0x9f then Whole(Array(b - 0x90))
    else if b <= 0xbf then Whole(Str(b - 0xa0))
    else if b >= 0xe0 then Whole(Int(b - 0x100))
    else match b
      case 0xc0 => Whole(Nil)
      case 0xc1 => Reserved
      case 0xc2 => Whole(Bool(false))
      case 0xc3 => Whole(Bool(true))
      case 0xc4 => Sized(BinKind, 1)
      case 0xc5 => Sized(BinKind, 2)
      case 0xc6 => Sized(BinKind, 4)
      case 0xc7 => SizedExt(1)
      case 0xc8 => SizedExt(2)
      case 0xc9 => SizedExt(4)
      case 0xca => Float32
      case 0xcb => Float64
      case 0xcc => Unsigned_(1)
      case 0xcd => Unsigned_(2)
      case 0xce => Unsigned_(4)
      case 0xcf => Unsigned_(8)
      case 0xd0 => Signed_(1)
      case 0xd1 => Signed_(2)
      case 0xd2 => Signed_(4)
      case 0xd3 => Signed_(8)
      case 0xd4 => FixExt(1)
      case 0xd5 => FixExt(2)
      case 0xd6 => FixExt(4)
      case 0xd7 => FixExt(8)
      case 0xd8 => FixExt(16)
      case 0xd9 => Sized(StrKind, 1)
      case 0xda => Sized(StrKind, 2)
      case 0xdb => Sized(StrKind, 4)
      case 0xdc => Sized(ArrayKind, 2)
      case 0xdd => Sized(ArrayKind, 4)
      case 0xde => Sized(MapKind, 2)
      case _ => Sized(MapKind, 4)
  }

  /** Bytes after the first one that belong to the header. */
  function Extra(l: Layout): nat {
    match l
    case Whole(_) => 0
    case Unsigned_(w) => w
    case Signed_(w) => w
    case Float32 => 4
    case Float64 => 8
    case Sized(_, w) => w
    case SizedExt(w) => w + 1
    case FixExt(_) => 1
    case Reserved => 0
  }

  datatype Head = Head(tag: Tag, size: nat)

  /** The tag announced by first byte `b` followed by the extra bytes `p`. */
  function TagOf(b: byte, p: seq<byte>): Tag
    requires !LayoutOf(b).Reserved? && |p| == Extra(LayoutOf(b))
  {
    Widths();
    match LayoutOf(b)
    case Whole(tag) => tag
    case Unsigned_(w) => UInt(Load(p))
    case Signed_(w) => Int(Signed(Load(p), w))
    case Float32 => Float(Load(p))
    case Float64 => Double(Load(p))
    case Sized(kind, w) => Counted(kind, Load(p))
    case SizedExt(w) => Ext(Signed(Load(p[w..]), 1), Load(p[..w]))
    case FixExt(count) => Ext(Signed(Load(p), 1), count)
  }

  /** The header at the start of `s`, if there is a complete one. */
  function Header(s: seq<byte>): (h: Option<Head>)
    ensures h.Some? ==> 1 <= h.value.size <= |s|
  {
    if s == [] || LayoutOf(s[0]).Reserved? || |s| < 1 + Extra(LayoutOf(s[0])) then None
    else
      var size := 1 + Extra(LayoutOf(s[0]));
      Some(Head(TagOf(s[0], s[1..size]), size))
  }

  /** A header depends only on its own bytes. */
  lemma HeaderLocal(s: seq<byte>, t: seq<byte>)
    requires Header(s).Some? && Header(s).value.size <= |t| && s[..Header(s).value.size] == t[..Header(s).value.size]
    ensures Header(t) == Header(s)
  {
    var size := Header(s).value.size;
    assert s[0] == s[..size][0] == t[..size][0] == t[0];
    assert s[1..size] == s[..size][1..] == t[..size][1..] == t[1..size];
  }

  /** The canonical form of a tag: a non-negative signed integer is its unsigned counterpart. */
  function Normal(t: Tag): Tag {
    if t.Int? && t.i >= 0 then UInt(t.i) else t
  }

  /** Position in the type enumeration. */
  function TypeRank(t: Tag): int {
    match t
    case Nil => 1
    case Bool(_) => 2
    case Float(_) => 3
    case Double(_) => 4
    case Int(_) => 5
    case UInt(_) => 6
    case Str(_) => 7
    case Bin(_) => 8
    case Ext(_, _) => 9
    case Array(_) => 10
    case Map(_) => 11
  }

  function Order(l: int, r: int): int {
    if l == r then 0 else if l < r then -1 else 1
  }

  function Reversed(s: seq<byte>): (r: seq<byte>)
    ensures |r| == |s|
  {
    if s == [] then [] else Reversed(s[1..]) + [s[0]]
  }

  /** A host: the order in which it stores the bytes of a number, and its memcmp. */
  datatype Host = Host(lowFirst: bool, memcmp: (seq<byte>, seq<byte>) -> int)

  /** What C promises of memcmp: zero exactly on equal bytes, and the sign turns with the arguments. */
  ghost predicate Sound(host: Host) {
    forall a, b :: |a| == |b| ==>
      (host.memcmp(a, b) == 0 <==> a == b) && (host.memcmp(a, b) < 0 <==> host.memcmp(b, a) > 0)
  }

  /** memcmp by the first byte that differs. */
  function Lexicographic(a: seq<byte>, b: seq<byte>): int {
    if a == [] || b == [] then |a| - |b|
    else if a[0] != b[0] then a[0] - b[0]
    else Lexicographic(a[1..], b[1..])
  }

  lemma {:induction false} LexicographicLaws(a: seq<byte>, b: seq<byte>)
    requires |a| == |b|
    ensures Lexicographic(a, b) == 0 <==> a == b
    ensures Lexicographic(b, a) == -Lexicographic(a, b)
  {
    if a != [] {
      LexicographicLaws(a[1..], b[1..]);
      assert a == [a[0]] + a[1..] && b == [b[0]] + b[1..];
    }
  }

  /** So there are sound hosts, of either byte order. */
  lemma LexicographicIsSound(lowFirst: bool)
    ensures Sound(Host(lowFirst, Lexicographic))
  {
    forall a: seq<byte>, b: seq<byte> | |a| == |b|
      ensures (Lexicographic(a, b) == 0 <==> a == b) && (Lexicographic(a, b) < 0 <==> Lexicographic(b, a) > 0)
    {
      LexicographicLaws(a, b);
    }
  }

  /** A number of `width` bytes as it is in memory. */
  function Image(host: Host, v: nat, width: nat): seq<byte>
    requires v < Pow256(width)
  {
    if host.lowFirst then Reversed(Store(v, width)) else Store(v, width)
  }

  /** mpack_tag_cmp. */
  function TagCmp(host: Host, left: Tag, right: Tag): int {
    Widths();
    var l, r := Normal(left), Normal(right);
    if TypeRank(l) != TypeRank(r) then TypeRank(l) - TypeRank(r)
    else match l
      case Nil => 0
      case Bool(b) => (if b then 1 else 0) - (if r.b then 1 else 0)
      case Float(f) => host.memcmp(Image(host, f, 4), Image(host, r.f, 4))
      case Double(d) => host.memcmp(Image(host, d, 8), Image(host, r.d, 8))
      case Int(i) => Order(i, r.i)
      case UInt(u) => Order(u, r.u)
      case Str(n) => Order(n, r.len)
      case Bin(n) => Order(n, r.len)
      case Ext(e, n) => if e == r.exttype then Order(n, r.len) else e - r.exttype
      case Array(n) => Order(n, r.n)
      case Map(n) => Order(n, r.n)
  }

  /** mpack_tag_equal. */
  predicate TagEqual(host: Host, l: Tag, r: Tag) {
    TagCmp(host, l, r) == 0
  }

  lemma {:induction false} ReversedEqual(a: seq<byte>, b: seq<byte>)
    requires |a| == |b|
    ensures Reversed(a) == Reversed(b) <==> a == b
  {
    if a != [] {
      ReversedEqual(a[1..], b[1..]);
      var (ra, rb) := (Reversed(a), Reversed(b));
      assert ra[..|a| - 1] == Reversed(a[1..]) && rb[..|a| - 1] == Reversed(b[1..]);
      assert ra[|a| - 1] == a[0] && rb[|a| - 1] == b[0];
      assert a == [a[0]] + a[1..] && b == [b[0]] + b[1..];
    }
  }

  lemma ImageEqual(host: Host, l: nat, r: nat, width: nat)
    requires l < Pow256(width) && r < Pow256(width)
    ensures Image(host, l, width) == Image(host, r, width) <==> l == r
    ensures |Image(host, l, width)| == width
  {
    LoadStore(l, width);
    LoadStore(r, width);
    ReversedEqual(Store(l, width), Store(r, width));
  }

  function Sign(i: int): int {
    if i < 0 then -1 else if i > 0 then 1 else 0
  }

  /** On every host, the comparison is zero exactly on tags with one canonical form, and swapping its
      arguments turns its sign. LexicographicIsSound names a host of either byte order. */
  lemma TagCmpLaws(host: Host, l: Tag, r: Tag)
    requires Sound(host)
    ensures TagEqual(host, l, r) <==> Normal(l) == Normal(r)
    ensures Sign(TagCmp(host, r, l)) == -Sign(TagCmp(host, l, r))
  {
    hide Image;
    Widths();
    if l.Float? && r.Float? { ImageEqual(host, l.f, r.f, 4); ImageEqual(host, r.f, l.f, 4); }
    if l.Double? && r.Double? { ImageEqual(host, l.d, r.d, 8); ImageEqual(host, r.d, l.d, 8); }
  }

  // ---- mpack_write_* and mpack_start_* ----

  function WriteUInt(v: u64): seq<byte> {
    if v <= 0x7f then [v]
    else if v <= 0xff then [0xcc] + Store(v, 1)
    else if v <= 0xffff then [0xcd] + Store(v, 2)
    else if v <= 0xffff_ffff then [0xce] + Store(v, 4)
    else [0xcf] + Store(v, 8)
  }

  function WriteInt(v: i64): seq<byte> {
    Widths();
    if v >= -32 then
      if v <= 0x7f then Store(Unsigned(v, 1), 1)
      else if v <= 0xff then [0xcc] + Store(v, 1)
      else if v <= 0xffff then [0xcd] + Store(v, 2)
      else if v <= 0xffff_ffff then [0xce] + Store(v, 4)
      else [0xcf] + Store(v, 8)
    else if v >= -0x80 then [0xd0] + Store(Unsigned(v, 1), 1)
    else if v >= -0x8000 then [0xd1] + Store(Unsigned(v, 2), 2)
    else if v >= -0x8000_0000 then [0xd2] + Store(Unsigned(v, 4), 4)
    else [0xd3] + Store(Unsigned(v, 8), 8)
  }

  function WriteExt(exttype: i8, count: u32): seq<byte> {
    Widths();
    var t := Store(Unsigned(exttype, 1), 1);
    if count == 1 then [0xd4] + t
    else if count == 2 then [0xd5] + t
    else if count == 4 then [0xd6] + t
    else if count == 8 then [0xd7] + t
    else if count == 16 then [0xd8] + t
    else if count <= 0xff then [0xc7] + Store(count, 1) + t
    else if count <= 0xffff then [0xc8] + Store(count, 2) + t
    else [0xc9] + Store(count, 4) + t
  }

  /** mpack_write_tag: dispatches to the writer of the tag's type. */
  function WriteTag(t: Tag): seq<byte> {
    match t
    case Nil => [0xc0]
    case Bool(b) => [if b then 0xc3 else 0xc2]
    case Float(f) => [0xca] + Store(f, 4)
    case Double(d) => [0xcb] + Store(d, 8)
    case Int(i) => WriteInt(i)
    case UInt(u) => WriteUInt(u)
    case Str(n) =>
      if n <= 31 then [0xa0 + n]
      else if n <= 0xff then [0xd9] + Store(n, 1)
      else if n <= 0xffff then [0xda] + Store(n, 2)
      else [0xdb] + Store(n, 4)
    case Bin(n) =>
      if n <= 0xff then [0xc4] + Store(n, 1)
      else if n <= 0xffff then [0xc5] + Store(n, 2)
      else [0xc6] + Store(n, 4)
    case Ext(e, n) => WriteExt(e, n)
    case Array(n) =>
      if n <= 15 then [0x90 + n]
      else if n <= 0xffff then [0xdc] + Store(n, 2)
      else [0xdd] + Store(n, 4)
    case Map(n) =>
      if n <= 15 then [0x80 + n]
      else if n <= 0xffff then [0xde] + Store(n, 2)
      else [0xdf] + Store(n, 4)
  }

  /** Reading back a header whose extra bytes are `p`. */
  lemma HeaderOf(b: byte, p: seq<byte>, rest: seq<byte>)
    requires !LayoutOf(b).Reserved? && |p| == Extra(LayoutOf(b))
    ensures Header([b] + p + rest) == Some(Head(TagOf(b, p), 1 + |p|))
  {
    assert ([b] + p + rest)[1..1 + |p|] == p;
  }

  /** A header with one stored field of `w` bytes. */
  lemma HeaderOfStore(b: byte, v: nat, w: nat, rest: seq<byte>)
    requires !LayoutOf(b).Reserved? && w == Extra(LayoutOf(b)) && v < Pow256(w)
    ensures Header([b] + Store(v, w) + rest) == Some(Head(TagOf(b, Store(v, w)), 1 + w))
    ensures Load(Store(v, w)) == v
  {
    HeaderOf(b, Store(v, w), rest);
    LoadStore(v, w);
  }

  lemma UIntRoundTrip(v: u64, rest: seq<byte>)
    ensures Header(WriteUInt(v) + rest) == Some(Head(UInt(v), |WriteUInt(v)|))
  {
    Widths();
    if v <= 0x7f { HeaderOf(v, [], rest); assert [v] + [] + rest == [v] + rest; }
    else if v <= 0xff { HeaderOfStore(0xcc, v, 1, rest); }
    else if v <= 0xffff { HeaderOfStore(0xcd, v, 2, rest); }
    else if v <= 0xffff_ffff { HeaderOfStore(0xce, v, 4, rest); }
    else { HeaderOfStore(0xcf, v, 8, rest); }
  }

  lemma SignedRoundTrip(b: byte, v: int, w: nat, rest: seq<byte>)
    requires LayoutOf(b) == Signed_(w) && 0 <= 2 * v + Pow256(w) < 2 * Pow256(w)
    ensures Header([b] + Store(Unsigned(v, w), w) + rest) == Some(Head(Int(v), 1 + |Store(Unsigned(v, w), w)|))
  {
    hide LayoutOf, Header, Store, Load;
    HeaderOfStore(b, Unsigned(v, w), w, rest);
  }

  lemma NegativeRoundTrip(v: i64, rest: seq<byte>)
    requires v < -32
    ensures Header(WriteInt(v) + rest) == Some(Head(Int(v), |WriteInt(v)|))
  {
    hide Header, Store, Load, Pow256;
    Widths();
    if v >= -0x80 { SignedRoundTrip(0xd0, v, 1, rest); }
    else if v >= -0x8000 { SignedRoundTrip(0xd1, v, 2, rest); }
    else if v >= -0x8000_0000 { SignedRoundTrip(0xd2, v, 4, rest); }
    else { SignedRoundTrip(0xd3, v, 8, rest); }
  }

  /** Signed and unsigned writers agree on the values they share. */
  lemma NonNegative(v: i64)
    requires v >= 0
    ensures WriteInt(v) == WriteUInt(v)
  {
    Widths();
    assert v <= 0x7f ==> Store(v, 1) == [v];
  }

  lemma IntRoundTrip(v: i64, rest: seq<byte>)
    ensures Header(WriteInt(v) + rest) == Some(Head(Normal(Int(v)), |WriteInt(v)|))
  {
    hide WriteInt, WriteUInt, Header;
    if v >= 0 {
      NonNegative(v);
      UIntRoundTrip(v, rest);
    } else if v < -32 {
      NegativeRoundTrip(v, rest);
    } else {
      NegativeFixint(v, rest);
    }
  }

  lemma NegativeFixint(v: i64, rest: seq<byte>)
    requires -32 <= v < 0
    ensures Header(WriteInt(v) + rest) == Some(Head(Int(v), |WriteInt(v)|))
  {
    hide Header;
    var b := v + 0x100;
    Widths();
    assert Store(b, 1) == [b] == WriteInt(v);
    HeaderOf(b, [], rest);
    assert [b] + [] + rest == [b] + rest;
  }

  lemma ExtHeader(b: byte, count: u32, w: nat, exttype: i8, rest: seq<byte>)
    requires LayoutOf(b) == SizedExt(w) && count < Pow256(w)
    ensures Pow256(1) == 0x100
    ensures var p := Store(count, w) + Store(Unsigned(exttype, 1), 1);
            Header([b] + p + rest) == Some(Head(Ext(exttype, count), 2 + w))
  {
    hide Header, LayoutOf, Load, Store;
    Widths();
    var t := Store(Unsigned(exttype, 1), 1);
    var p := Store(count, w) + t;
    HeaderOf(b, p, rest);
    assert p[w..] == t && p[..w] == Store(count, w);
    LoadStore(count, w);
    LoadStore(Unsigned(exttype, 1), 1);
  }

  lemma FixExtHeader(b: byte, count: u32, exttype: i8, rest: seq<byte>)
    requires LayoutOf(b) == FixExt(count)
    ensures Pow256(1) == 0x100
    ensures Header([b] + Store(Unsigned(exttype, 1), 1) + rest) == Some(Head(Ext(exttype, count), 2))
  {
    hide Header, LayoutOf, Load, Store;
    Widths();
    HeaderOfStore(b, Unsigned(exttype, 1), 1, rest);
  }

  lemma ExtRoundTrip(exttype: i8, count: u32, rest: seq<byte>)
    ensures Header(WriteExt(exttype, count) + rest) == Some(Head(Ext(exttype, count), |WriteExt(exttype, count)|))
  {
    hide Header, Load, Store;
    Widths();
    var t := Store(Unsigned(exttype, 1), 1);
    if count == 1 { FixExtHeader(0xd4, count, exttype, rest); }
    else if count == 2 { FixExtHeader(0xd5, count, exttype, rest); }
    else if count == 4 { FixExtHeader(0xd6, count, exttype, rest); }
    else if count == 8 { FixExtHeader(0xd7, count, exttype, rest); }
    else if count == 16 { FixExtHeader(0xd8, count, exttype, rest); }
    else if count <= 0xff {
      ExtHeader(0xc7, count, 1, exttype, rest);
      assert WriteExt(exttype, count) == [0xc7] + (Store(count, 1) + t);
    } else if count <= 0xffff {
      ExtHeader(0xc8, count, 2, exttype, rest);
      assert WriteExt(exttype, count) == [0xc8] + (Store(count, 2) + t);
    } else {
      ExtHeader(0xc9, count, 4, exttype, rest);
      assert WriteExt(exttype, count) == [0xc9] + (Store(count, 4) + t);
    }
  }

  lemma PlainRoundTrip(t: Tag, rest: seq<byte>)
    requires t.Nil? || t.Bool? || t.Float? || t.Double?
    ensures Header(WriteTag(t) + rest) == Some(Head(t, |WriteTag(t)|))
  {
    hide Header, Store, Load;
    Widths();
    match t
    case Nil => HeaderOf(0xc0, [], rest); assert [0xc0] + [] + rest == [0xc0] + rest;
    case Bool(b) =>
      var x: byte := if b then 0xc3 else 0xc2;
      HeaderOf(x, [], rest); assert [x] + [] + rest == [x] + rest;
    case Float(f) => HeaderOfStore(0xca, f, 4, rest);
    case Double(d) => HeaderOfStore(0xcb, d, 8, rest);
  }

  /** Every header written, whatever follows it, is parsed back to an equal tag, consuming exactly
      the written bytes. */
  lemma TagRoundTrip(t: Tag, rest: seq<byte>)
    ensures Header(WriteTag(t) + rest) == Some(Head(Normal(t), |WriteTag(t)|))
  {
    hide Header;
    match t
    case Nil => PlainRoundTrip(t, rest);
    case Bool(_) => PlainRoundTrip(t, rest);
    case Float(_) => PlainRoundTrip(t, rest);
    case Double(_) => PlainRoundTrip(t, rest);
    case Int(i) => IntRoundTrip(i, rest);
    case UInt(u) => UIntRoundTrip(u, rest);
    case Ext(e, n) => ExtRoundTrip(e, n, rest);
    case Str(n) => StrRoundTrip(n, rest);
    case Bin(n) => BinRoundTrip(n, rest);
    case Array(n) => ArrayRoundTrip(n, rest);
    case Map(n) => MapRoundTrip(n, rest);
  }

  lemma SizedHeader(b: byte, kind: Kind, w: nat, n: u32, rest: seq<byte>)
    requires LayoutOf(b) == Sized(kind, w) && n < Pow256(w)
    ensures Header([b] + Store(n, w) + rest) == Some(Head(Counted(kind, n), 1 + w))
  {
    HeaderOfStore(b, n, w, rest);
  }

  lemma StrRoundTrip(n: u32, rest: seq<byte>)
    ensures Header(WriteTag(Str(n)) + rest) == Some(Head(Str(n), |WriteTag(Str(n))|))
  {
    Widths();
    var w := WriteTag(Str(n));
    if n <= 31 { HeaderOf(w[0], [], rest); assert [w[0]] + [] + rest == w + rest; }
    else if n <= 0xff { SizedHeader(0xd9, StrKind, 1, n, rest); }
    else if n <= 0xffff { SizedHeader(0xda, StrKind, 2, n, rest); }
    else { SizedHeader(0xdb, StrKind, 4, n, rest); }
  }

  lemma BinRoundTrip(n: u32, rest: seq<byte>)
    ensures Header(WriteTag(Bin(n)) + rest) == Some(Head(Bin(n), |WriteTag(Bin(n))|))
  {
    Widths();
    var w := WriteTag(Bin(n));
    if n <= 0xff { SizedHeader(0xc4, BinKind, 1, n, rest); }
    else if n <= 0xffff { SizedHeader(0xc5, BinKind, 2, n, rest); }
    else { SizedHeader(0xc6, BinKind, 4, n, rest); }
  }

  lemma ArrayRoundTrip(n: u32, rest: seq<byte>)
    ensures Header(WriteTag(Array(n)) + rest) == Some(Head(Array(n), |WriteTag(Array(n))|))
  {
    Widths();
    var w := WriteTag(Array(n));
    if n <= 15 { HeaderOf(w[0], [], rest); assert [w[0]] + [] + rest == w + rest; }
    else if n <= 0xffff { SizedHeader(0xdc, ArrayKind, 2, n, rest); }
    else { SizedHeader(0xdd, ArrayKind, 4, n, rest); }
  }

  lemma MapRoundTrip(n: u32, rest: seq<byte>)
    ensures Header(WriteTag(Map(n)) + rest) == Some(Head(Map(n), |WriteTag(Map(n))|))
  {
    Widths();
    var w := WriteTag(Map(n));
    if n <= 15 { HeaderOf(w[0], [], rest); assert [w[0]] + [] + rest == w + rest; }
    else if n <= 0xffff { SizedHeader(0xde, MapKind, 2, n, rest); }
    else { SizedHeader(0xdf, MapKind, 4, n, rest); }
  }

  /** What a layout can announce is never cheaper than what the writer spends on it. */
  lemma WrittenFits(b: byte, p: seq<byte>)
    requires !LayoutOf(b).Reserved? && |p| == Extra(LayoutOf(b))
    ensures |WriteTag(Normal(TagOf(b, p)))| <= 1 + |p|
  {
    hide LayoutOf, Load, WriteTag, WriteUInt, WriteInt, WriteExt, Store;
    Widths();
    match LayoutOf(b)
    case Whole(_) => WholeFits(b);
    case Unsigned_(w) => NumberFits(Load(p), w);
    case Signed_(w) => NumberFits(Load(p), w);
    case Float32 => OtherFits(Float(Load(p)), 4);
    case Float64 => OtherFits(Double(Load(p)), 8);
    case Sized(kind, w) => KindFits(b); SizedFits(kind, Load(p), w);
    case SizedExt(w) => OtherFits(TagOf(b, p), w + 1);
    case FixExt(count) => FixExtSizes(b); OtherFits(TagOf(b, p), 1);
  }

  lemma NumberFits(v: nat, width: nat)
    requires width in {1, 2, 4, 8} && v < Pow256(width)
    ensures |WriteTag(UInt(v))| <= 1 + width && |WriteTag(Normal(Int(Signed(v, width))))| <= 1 + width
  {
    hide Store;
    Widths();
  }

  lemma SizedFits(kind: Kind, n: u32, width: nat)
    requires width in {1, 2, 4} && n < Pow256(width) && (kind.ArrayKind? || kind.MapKind? ==> width >= 2)
    ensures |WriteTag(Counted(kind, n))| <= 1 + width
  {
    hide Store;
    Widths();
  }

  /** Floats, and ext by the width of its length. */
  lemma OtherFits(t: Tag, width: nat)
    requires t.Float? || t.Double? || t.Ext?
    requires width >= (if t.Float? then 4 else if t.Double? then 8 else 1)
    requires t.Ext? ==> t.len in {1, 2, 4, 8, 16} || (width in {2, 3, 5} && t.len < Pow256(width - 1))
    ensures |WriteTag(t)| <= 1 + width
  {
    hide Store;
    Widths();
  }

  lemma WholeFits(b: byte)
    requires LayoutOf(b).Whole?
    ensures |WriteTag(Normal(LayoutOf(b).tag))| == 1
  {
    hide Store;
  }

  lemma FixExtSizes(b: byte)
    requires LayoutOf(b).FixExt?
    ensures LayoutOf(b).count in {1, 2, 4, 8, 16}
  {
  }

  /** Lengths of containers have two bytes at least. */
  lemma KindFits(b: byte)
    requires LayoutOf(b).Sized?
    ensures LayoutOf(b).kind.ArrayKind? || LayoutOf(b).kind.MapKind? ==> LayoutOf(b).width >= 2
  {
  }

  /** No shorter byte string parses to an equal tag. */
  lemma TagShortest(host: Host, t: Tag, s: seq<byte>)
    requires Sound(host) && Header(s).Some? && TagEqual(host, Header(s).value.tag, t)
    ensures Header(s).value.size >= |WriteTag(t)|
  {
    var h := Header(s).value;
    TagCmpLaws(host, h.tag, t);
    if t.Int? && t.i >= 0 { NonNegative(t.i); }
    assert |WriteTag(t)| == |WriteTag(Normal(h.tag))|;
    WrittenFits(s[0], s[1..h.size]);
  }
}
