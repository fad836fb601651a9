/** mpack's UTF-8 checker, against the encoding of RFC 3629, sections 3 and 4. */
module Utf8 {
  import opened Bytes

  /** A Unicode scalar value. */
  predicate IsScalar(z: nat) {
    z <= 0x10ffff && !(0xd800 <= z <= 0xdfff)
  }

  /** The UTF-8 encoding of a code point. */
  function Encode(z: nat): (e: seq<byte>)
    requires z <= 0x10ffff
    ensures 1 <= |e| <= 4
  {
    if z < 0x80 then [z]
    else if z < 0x800 then [0xc0 + z / 64, 0x80 + z % 64]
    else if z < 0x10000 then [0xe0 + z / 64 / 64, 0x80 + z / 64 % 64, 0x80 + z % 64]
    else [0xf0 + z / 64 / 64 / 64, 0x80 + z / 64 / 64 % 64, 0x80 + z / 64 % 64, 0x80 + z % 64]
  }

  predicate AllScalar(zs: seq<nat>) {
    forall z :: z in zs ==> IsScalar(z)
  }

  function EncodeAll(zs: seq<nat>): seq<byte>
    requires AllScalar(zs)
  {
    if zs == [] then [] else
      assert IsScalar(zs[0]);
      Encode(zs[0]) + EncodeAll(zs[1..])
  }

  ghost predicate Encodes(zs: seq<nat>, s: seq<byte>) {
    AllScalar(zs) && EncodeAll(zs) == s
  }

  /** `s` is the encoding of a sequence of scalar values, without U+0000 unless that is allowed. */
  ghost predicate IsText(s: seq<byte>, allowNull: bool) {
    exists zs :: Encodes(zs, s) && (allowNull || 0 !in zs)
  }

  /** The code point the front of `s` spells, if it is a scalar value in its own encoding. */
  ghost predicate Spells(s: seq<byte>, z: nat) {
    IsScalar(z) && Encode(z) <= s
  }

  predicate IsContinuation(b: byte) {
    b / 64 == 2
  }

  /** The numbers the checker computes from a sequence of two, three or four bytes. */
  function Code2(a: int, b: int): nat {
    a % 32 * 64 + b % 64
  }

  function Code3(a: int, b: int, c: int): nat {
    a % 16 * 4096 + b % 64 * 64 + c % 64
  }

  function Code4(a: int, b: int, c: int, d: int): nat {
    a % 8 * 262144 + b % 64 * 4096 + c % 64 * 64 + d % 64
  }

  /** The lead byte of an encoding says how long it is. */
  lemma Lead(z: nat)
    requires z <= 0x10ffff
    ensures var e := Encode(z);
            && (|e| == 1 <==> e[0] <= 0x7f) && (|e| == 2 <==> e[0] / 32 == 6)
            && (|e| == 3 <==> e[0] / 16 == 14) && (|e| == 4 <==> e[0] / 8 == 30)
  {
  }

  /** The bytes of an encoding give back the code point. */
  lemma Recover(z: nat)
    requires z <= 0x10ffff
    ensures var e := Encode(z);
            && (|e| == 1 ==> z == e[0])
            && (|e| == 2 ==> IsContinuation(e[1]) && z == Code2(e[0], e[1]) >= 0x80)
            && (|e| == 3 ==> IsContinuation(e[1]) && IsContinuation(e[2]) && z == Code3(e[0], e[1], e[2]) >= 0x800)
            && (|e| == 4 ==> && IsContinuation(e[1]) && IsContinuation(e[2]) && IsContinuation(e[3])
                             && z == Code4(e[0], e[1], e[2], e[3]) >= 0x10000)
  {
    if z < 0x80 {
    } else if z < 0x800 {
      Continued(z);
    } else if z < 0x10000 {
      Recover3(z);
    } else {
      Recover4(z);
    }
  }

  lemma Recover3(z: nat)
    requires 0x800 <= z < 0x10000
    ensures var (a, b, c) := (0xe0 + z / 64 / 64, 0x80 + z / 64 % 64, 0x80 + z % 64);
            IsContinuation(b) && IsContinuation(c) && z == Code3(a, b, c)
  {
    Continued(z);
    Continued(z / 64);
    assert (0xe0 + z / 64 / 64) % 16 == z / 64 / 64;
  }

  lemma Recover4(z: nat)
    requires 0x10000 <= z <= 0x10ffff
    ensures var (a, b, c, d) := (0xf0 + z / 64 / 64 / 64, 0x80 + z / 64 / 64 % 64, 0x80 + z / 64 % 64, 0x80 + z % 64);
            IsContinuation(b) && IsContinuation(c) && IsContinuation(d) && z == Code4(a, b, c, d)
  {
    Continued(z);
    Continued(z / 64);
    Continued(z / 64 / 64);
    assert (0xf0 + z / 64 / 64 / 64) % 8 == z / 64 / 64 / 64;
  }

  lemma Continued(x: nat)
    ensures IsContinuation(0x80 + x % 64) && (0x80 + x % 64) % 64 == x % 64 && x == x / 64 * 64 + x % 64
  {
  }

  lemma OneSpelling(s: seq<byte>, y: nat, z: nat)
    requires Spells(s, y) && Spells(s, z)
    ensures y == z
  {
    hide Encode;
    Lead(y);
    Lead(z);
    Recover(y);
    Recover(z);
    var (e, f) := (Encode(y), Encode(z));
    assert e == s[..|e|] && f == s[..|f|] && e[0] == f[0];
  }

  /** Text that begins with a spelled code point is that code point followed by text. */
  lemma TextStep(s: seq<byte>, z: nat, allowNull: bool)
    requires Spells(s, z)
    ensures IsText(s, allowNull) <==> (allowNull || z != 0) && IsText(s[|Encode(z)|..], allowNull)
  {
    hide Encode;
    var rest := s[|Encode(z)|..];
    assert s == Encode(z) + rest;
    if IsText(s, allowNull) {
      var zs :| Encodes(zs, s) && (allowNull || 0 !in zs);
      TextHead(zs, s);
      OneSpelling(s, zs[0], z);
      assert Encodes(zs[1..], rest);
    }
    if (allowNull || z != 0) && IsText(rest, allowNull) {
      var zs :| Encodes(zs, rest) && (allowNull || 0 !in zs);
      var all := [z] + zs;
      assert all[1..] == zs;
      assert Encodes(all, s);
    }
  }

  lemma TextHead(zs: seq<nat>, s: seq<byte>)
    requires Encodes(zs, s) && s != []
    ensures zs != [] && Spells(s, zs[0]) && s[|Encode(zs[0])|..] == EncodeAll(zs[1..])
  {
    hide Encode;
  }

  lemma TextEnd(allowNull: bool)
    ensures IsText([], allowNull)
  {
    assert Encodes([], []);
  }

  /** Text that is not empty begins with some code point. */
  lemma TextBegins(s: seq<byte>, allowNull: bool)
    requires s != [] && IsText(s, allowNull)
    ensures exists z :: Spells(s, z)
  {
    hide Encode;
    var zs :| Encodes(zs, s) && (allowNull || 0 !in zs);
    TextHead(zs, s);
  }

  /** Where the arithmetic of the checker accepts two, three or four bytes, they spell its result. */
  lemma Spell2(a: byte, b: byte)
    requires a / 32 == 6 && IsContinuation(b) && Code2(a, b) >= 0x80
    ensures IsScalar(Code2(a, b)) && Encode(Code2(a, b)) == [a, b]
  {
  }

  lemma Digit(x: nat, y: nat)
    requires y < 64
    ensures (x * 64 + y) / 64 == x && (x * 64 + y) % 64 == y
  {
  }

  lemma Spell3(a: byte, b: byte, c: byte)
    requires a / 16 == 14 && IsContinuation(b) && IsContinuation(c) && Code3(a, b, c) >= 0x800
    ensures Code3(a, b, c) < 0x10000 && Encode(Code3(a, b, c)) == [a, b, c]
  {
    var (z, y) := (Code3(a, b, c), a % 16 * 64 + b % 64);
    assert z == y * 64 + c % 64;
    Digit(y, c % 64);
    Digit(a % 16, b % 64);
  }

  lemma Encode4(p: nat, q: nat, r: nat, t: nat)
    requires p < 8 && q < 64 && r < 64 && t < 64
    requires 0x10000 <= ((p * 64 + q) * 64 + r) * 64 + t <= 0x10ffff
    ensures Encode(((p * 64 + q) * 64 + r) * 64 + t) == [0xf0 + p, 0x80 + q, 0x80 + r, 0x80 + t]
  {
    Digit((p * 64 + q) * 64 + r, t);
    Digit(p * 64 + q, r);
    Digit(p, q);
  }

  lemma Spell4(a: byte, b: byte, c: byte, d: byte)
    requires a / 8 == 30 && IsContinuation(b) && IsContinuation(c) && IsContinuation(d)
    requires 0x10000 <= Code4(a, b, c, d) <= 0x10ffff
    ensures Encode(Code4(a, b, c, d)) == [a, b, c, d]
  {
    hide Encode;
    Encode4(a % 8, b % 64, c % 64, d % 64);
  }

  /** The tests the checker makes on the front of a string. */
  predicate Accepted(s: seq<byte>)
    requires s != []
  {
    || s[0] <= 0x7f
    || (s[0] / 32 == 6 && |s| >= 2 && IsContinuation(s[1]) && Code2(s[0], s[1]) >= 0x80)
    || (s[0] / 16 == 14 && |s| >= 3 && IsContinuation(s[1]) && IsContinuation(s[2])
        && Code3(s[0], s[1], s[2]) >= 0x800 && !(0xd800 <= Code3(s[0], s[1], s[2]) <= 0xdfff))
    || (s[0] / 8 == 30 && |s| >= 4 && IsContinuation(s[1]) && IsContinuation(s[2]) && IsContinuation(s[3])
        && 0x10000 <= Code4(s[0], s[1], s[2], s[3]) <= 0x10ffff)
  }

  /** A string that spells a code point passes the tests. */
  lemma SpelledIsAccepted(s: seq<byte>, z: nat)
    requires Spells(s, z)
    ensures s != [] && Accepted(s)
  {
    hide Encode;
    Lead(z);
    Recover(z);
    var e := Encode(z);
    assert e == s[..|e|];
    assert s[0] == e[0] && (|e| > 1 ==> s[1] == e[1]) && (|e| > 2 ==> s[2] == e[2]) && (|e| > 3 ==> s[3] == e[3]);
  }

  /** A front that fails the tests is not text. */
  lemma NoText(s: seq<byte>, allowNull: bool)
    requires s != [] && !Accepted(s)
    ensures !IsText(s, allowNull)
  {
    hide Encode, Accepted;
    if IsText(s, allowNull) {
      TextBegins(s, allowNull);
      var z :| Spells(s, z);
      SpelledIsAccepted(s, z);
    }
  }

  lemma SpellsFront(s: seq<byte>, z: nat, e: seq<byte>)
    requires IsScalar(z) && Encode(z) == e && |e| <= |s| && s[..|e|] == e
    ensures Spells(s, z)
  {
  }

  /** Length of the sequence a lead byte announces. */
  function Length(lead: byte): nat {
    if lead <= 0x7f then 1 else if lead / 32 == 6 then 2 else if lead / 16 == 14 then 3 else 4
  }

  /** An accepted front spells a code point, which is U+0000 only as a zero byte. */
  lemma AcceptedSpells(s: seq<byte>) returns (z: nat)
    requires s != [] && Accepted(s)
    ensures Spells(s, z) && |Encode(z)| == Length(s[0]) && (z == 0 <==> s[0] == 0)
  {
    if s[0] <= 0x7f {
      z := s[0];
      SpellsFront(s, z, s[..1]);
    } else if s[0] / 32 == 6 {
      hide Encode;
      z := Code2(s[0], s[1]);
      Spell2(s[0], s[1]);
      SpellsFront(s, z, s[..2]);
    } else if s[0] / 16 == 14 {
      hide Encode;
      z := Code3(s[0], s[1], s[2]);
      Spell3(s[0], s[1], s[2]);
      SpellsFront(s, z, s[..3]);
    } else {
      hide Encode;
      z := Code4(s[0], s[1], s[2], s[3]);
      Spell4(s[0], s[1], s[2], s[3]);
      SpellsFront(s, z, s[..4]);
    }
  }

  lemma ZeroIsAccepted(s: seq<byte>)
    requires s != [] && s[0] == 0
    ensures Accepted(s)
  {
  }

  /** One turn of the loop of mpack_utf8_check_impl: the length of the sequence at `i`, or zero if
      it is refused. Bit masks are written as divisions and remainders. */
  method Sequence(str: seq<byte>, i: nat) returns (n: nat)
    requires i < |str|
    ensures n == if Accepted(str[i..]) then Length(str[i]) else 0
  {
    var (lead, count) := (str[i], |str| - i);
    if lead <= 0x7f { return 1; }
    if lead / 32 == 6 {
      if count < 2 { return 0; }
      var cont := str[i + 1];
      if !IsContinuation(cont) { return 0; }
      if Code2(lead, cont) < 0x80 { return 0; }
      return 2;
    }
    if lead / 16 == 14 {
      if count < 3 { return 0; }
      var cont1 := str[i + 1];
      if !IsContinuation(cont1) { return 0; }
      var cont2 := str[i + 2];
      if !IsContinuation(cont2) { return 0; }
      var z := Code3(lead, cont1, cont2);
      if z < 0x800 { return 0; }
      if z >= 0xd800 && z <= 0xdfff { return 0; }
      return 3;
    }
    if lead / 8 == 30 {
      if count < 4 { return 0; }
      var cont1 := str[i + 1];
      if !IsContinuation(cont1) { return 0; }
      var cont2 := str[i + 2];
      if !IsContinuation(cont2) { return 0; }
      var cont3 := str[i + 3];
      if !IsContinuation(cont3) { return 0; }
      var z := Code4(lead, cont1, cont2, cont3);
      if z < 0x10000 { return 0; }
      if z > 0x10ffff { return 0; }
      return 4;
    }
    return 0;
  }

  /** mpack_utf8_check_impl, and so mpack_utf8_check and mpack_utf8_check_no_null. */
  method Check(str: seq<byte>, allowNull: bool) returns (ok: bool)
    ensures ok <==> IsText(str, allowNull)
  {
    hide IsText, Encode, Accepted;
    var i := 0;
    assert str[0..] == str;
    while i < |str|
      invariant i <= |str|
      invariant IsText(str, allowNull) <==> IsText(str[i..], allowNull)
    {
      ghost var s := str[i..];
      if !allowNull && str[i] == 0 {
        ZeroIsAccepted(s);
        ghost var zero := AcceptedSpells(s);
        TextStep(s, zero, allowNull);
        return false;
      }
      var n := Sequence(str, i);
      if n == 0 {
        NoText(s, allowNull);
        return false;
      }
      ghost var z := AcceptedSpells(s);
      TextStep(s, z, allowNull);
      i := i + n;
      assert s[n..] == str[i..];
    }
    assert str[i..] == [];
    TextEnd(allowNull);
    return true;
  }
}
