/** The encoding of RFC 3629 in other words: the byte ranges of its section 4, and the order of its section 1. */
module Utf8Forms {
  import opened Bytes
  import opened Utf8

  predicate Tail(b: byte) {
    0x80 <= b <= 0xbf
  }

  /** UTF8-char: the four rules of section 4. */
  predicate IsChar(e: seq<byte>) {
    if |e| == 1 then e[0] <= 0x7f
    else if |e| == 2 then 0xc2 <= e[0] <= 0xdf && Tail(e[1])
    else if |e| == 3 then
      Tail(e[2]) &&
      (|| (e[0] == 0xe0 && 0xa0 <= e[1] <= 0xbf)
       || (0xe1 <= e[0] <= 0xec && Tail(e[1]))
       || (e[0] == 0xed && 0x80 <= e[1] <= 0x9f)
       || (0xee <= e[0] <= 0xef && Tail(e[1])))
    else
      |e| == 4 && Tail(e[2]) && Tail(e[3]) &&
      (|| (e[0] == 0xf0 && 0x90 <= e[1] <= 0xbf)
       || (0xf1 <= e[0] <= 0xf3 && Tail(e[1]))
       || (e[0] == 0xf4 && 0x80 <= e[1] <= 0x8f))
  }

  /** The tests of the checker on a sequence as long as its lead byte says are those ranges. */
  lemma AcceptedIsChar(e: seq<byte>)
    requires e != [] && |e| == Length(e[0])
    ensures Accepted(e) <==> IsChar(e)
  {
  }

  lemma CharLength(e: seq<byte>)
    requires IsChar(e)
    ensures e != [] && |e| == Length(e[0])
  {
  }

  /** The encodings of scalar values are exactly the sequences in the ranges. */
  lemma CharExactly(e: seq<byte>)
    ensures (exists z :: IsScalar(z) && Encode(z) == e) <==> IsChar(e)
  {
    hide Encode, Accepted, IsChar;
    if z :| IsScalar(z) && Encode(z) == e {
      assert Spells(e, z);
      SpelledIsAccepted(e, z);
      EncodedLength(z);
      AcceptedIsChar(e);
    }
    if IsChar(e) {
      CharLength(e);
      AcceptedIsChar(e);
      var z := AcceptedSpells(e);
      assert Encode(z) == e;
    }
  }

  lemma EncodedLength(z: nat)
    requires z <= 0x10ffff
    ensures |Encode(z)| == Length(Encode(z)[0])
  {
    hide Encode;
    Lead(z);
  }

  /** Byte by byte, the first that differs decides. */
  predicate Before(a: seq<byte>, b: seq<byte>) {
    a != [] && b != [] && (a[0] < b[0] || (a[0] == b[0] && Before(a[1..], b[1..])))
  }

  /** Encodings sort as their code points do. */
  lemma EncodingsSorted(y: nat, z: nat)
    requires y < z <= 0x10ffff
    ensures Before(Encode(y), Encode(z))
  {
    if |Encode(y)| == |Encode(z)| { SameLengthSorted(y, z); } else { Leads(y, z); }
  }

  lemma SameLengthSorted(y: nat, z: nat)
    requires y < z <= 0x10ffff && |Encode(y)| == |Encode(z)|
    ensures Before(Encode(y), Encode(z))
  {
    Digits(y, z);
    var (p, q) := (y / 64, z / 64);
    Digits(p, q);
    Digits(p / 64, q / 64);
    if z < 0x80 {
      SortedAt(Encode(y), Encode(z), 0);
    } else if z < 0x800 {
      SortedAt(Encode(y), Encode(z), if p == q then 1 else 0);
    } else if z < 0x10000 {
      SortedAt(Encode(y), Encode(z), if p == q then 2 else if p / 64 == q / 64 then 1 else 0);
    } else {
      SortedAt(Encode(y), Encode(z),
               if p == q then 3 else if p / 64 == q / 64 then 2 else if p / 64 / 64 == q / 64 / 64 then 1 else 0);
    }
  }

  /** A longer encoding has the larger lead byte. */
  lemma Leads(y: nat, z: nat)
    requires y < z <= 0x10ffff && |Encode(y)| != |Encode(z)|
    ensures Encode(y)[0] < Encode(z)[0]
  {
  }

  lemma Digits(y: nat, z: nat)
    requires y <= z
    ensures y / 64 < z / 64 || (y / 64 == z / 64 && y % 64 <= z % 64)
    ensures y < z ==> y / 64 < z / 64 || y % 64 < z % 64
  {
  }

  /** Equal up to some byte, and smaller there. */
  lemma {:induction false} SortedAt(e: seq<byte>, f: seq<byte>, k: nat)
    requires k < |e| == |f| && e[k] < f[k] && forall i :: 0 <= i < k ==> e[i] == f[i]
    ensures Before(e, f)
    decreases k
  {
    if k > 0 { SortedAt(e[1..], f[1..], k - 1); }
  }
}
