/** A recursive decoder for the MessagePack grammar: the reference the fast decoders are held to. */
module Grammar {
  import opened Bytes
  import opened Format
  import opened Wrappers

  /** A map keeps its keys and values alternating, as they follow each other on the wire. */
  datatype Value =
    | Scalar(tag: Tag)
    | StrOf(bytes: seq<byte>)
    | BinOf(bytes: seq<byte>)
    | ExtOf(exttype: i8, bytes: seq<byte>)
    | ArrayOf(elems: seq<Value>)
    | MapOf(elems: seq<Value>)

  datatype Decoded = Decoded(value: Value, size: nat)
  datatype DecodedSeq = DecodedSeq(values: seq<Value>, size: nat)

  /** Bytes of payload that follow the header. */
  function PayloadBytes(t: Tag): nat {
    if t.Str? || t.Bin? || t.Ext? then t.len else 0
  }

  /** Objects that follow the header. */
  function PayloadObjects(t: Tag): nat {
    if t.Array? then t.n else if t.Map? then 2 * t.n else 0
  }

  /** The value with header `t`, payload bytes `bytes` and payload objects `elems`. */
  function Build(t: Tag, bytes: seq<byte>, elems: seq<Value>): Value {
    match t
    case Str(_) => StrOf(bytes)
    case Bin(_) => BinOf(bytes)
    case Ext(e, _) => ExtOf(e, bytes)
    case Array(_) => ArrayOf(elems)
    case Map(_) => MapOf(elems)
    case _ => Scalar(t)
  }

  /** Decodes one object from the front of `s`. */
  function Decode(s: seq<byte>): (r: Option<Decoded>)
    ensures r.Some? ==> 1 <= r.value.size <= |s|
    decreases |s|, 0
  {
    match Header(s)
    case None => None
    case Some(h) =>
      var body := h.size + PayloadBytes(h.tag);
      if body > |s| then None
      else match DecodeSeq(s[body..], PayloadObjects(h.tag))
        case None => None
        case Some(d) => Some(Decoded(Build(h.tag, s[h.size..body], d.values), body + d.size))
  }

  /** Decodes `n` objects in a row; each takes at least one byte. */
  function DecodeSeq(s: seq<byte>, n: nat): (r: Option<DecodedSeq>)
    ensures r.Some? ==> n <= r.value.size <= |s| && |r.value.values| == n
    decreases |s|, 1, n
  {
    if n == 0 then Some(DecodedSeq([], 0))
    else match Decode(s)
      case None => None
      case Some(d) =>
        match DecodeSeq(s[d.size..], n - 1)
        case None => None
        case Some(ds) => Some(DecodedSeq([d.value] + ds.values, d.size + ds.size))
  }

  function Append(l: DecodedSeq, r: Option<DecodedSeq>): Option<DecodedSeq> {
    if r.None? then None else Some(DecodedSeq(l.values + r.value.values, l.size + r.value.size))
  }

  lemma AppendAssoc(k: DecodedSeq, l: DecodedSeq, r: Option<DecodedSeq>)
    ensures Append(k, Append(l, r)) == Append(Append(k, Some(l)).value, r)
  {
    if r.Some? { assert k.values + (l.values + r.value.values) == k.values + l.values + r.value.values; }
  }

  lemma DecodeSeqNone(s: seq<byte>)
    ensures DecodeSeq(s, 0) == Some(DecodedSeq([], 0))
  {
  }

  lemma DecodeSeqCons(s: seq<byte>, n: nat)
    requires n > 0
    ensures Decode(s).None? ==> DecodeSeq(s, n).None?
    ensures Decode(s).Some? ==>
              var d := Decode(s).value;
              DecodeSeq(s, n) == Append(DecodedSeq([d.value], d.size), DecodeSeq(s[d.size..], n - 1))
  {
    hide Decode;
  }

  /** Decoding `a + b` objects is decoding `a` and then `b`. */
  lemma {:induction false} DecodeSeqSplit(s: seq<byte>, a: nat, b: nat)
    ensures DecodeSeq(s, a).None? ==> DecodeSeq(s, a + b).None?
    ensures DecodeSeq(s, a).Some? ==>
              var l := DecodeSeq(s, a).value;
              DecodeSeq(s, a + b) == Append(l, DecodeSeq(s[l.size..], b))
    decreases a
  {
    hide Decode, DecodeSeq;
    if a == 0 {
      DecodeSeqNone(s);
      assert s[0..] == s;
      var r := DecodeSeq(s, b);
      if r.Some? { assert [] + r.value.values == r.value.values; }
    } else {
      DecodeSeqCons(s, a);
      DecodeSeqCons(s, a + b);
      if Decode(s).Some? {
        var d := Decode(s).value;
        var t := s[d.size..];
        DecodeSeqSplit(t, a - 1, b);
        if DecodeSeq(t, a - 1).Some? {
          var l := DecodeSeq(t, a - 1).value;
          assert s[d.size + l.size..] == t[l.size..];
          AppendAssoc(DecodedSeq([d.value], d.size), l, DecodeSeq(t[l.size..], b));
        }
      }
    }
  }

  /** Decoding is reading the header, skipping the payload bytes and decoding the payload objects. */
  lemma DecodeByHeader(s: seq<byte>)
    ensures Header(s).None? ==> Decode(s).None?
    ensures Header(s).Some? ==>
              var h := Header(s).value;
              var rest := s[h.size..];
              && (PayloadBytes(h.tag) > |rest| ==> Decode(s).None?)
              && (PayloadBytes(h.tag) <= |rest| ==>
                    DecodedAs(s, rest[PayloadBytes(h.tag)..], PayloadObjects(h.tag)))
  {
    hide Header, DecodeSeq;
    if Header(s).Some? {
      var h := Header(s).value;
      if PayloadBytes(h.tag) <= |s[h.size..]| {
        assert s[h.size..][PayloadBytes(h.tag)..] == s[h.size + PayloadBytes(h.tag)..];
        DecodeSeqNone(s[h.size + PayloadBytes(h.tag)..]);
      }
    }
  }

  /** Decoding `s` comes to decoding `n` objects of its suffix `rest`. */
  ghost predicate DecodedAs(s: seq<byte>, rest: seq<byte>, n: nat) {
    var (d, ds) := (Decode(s), DecodeSeq(rest, n));
    && (d.Some? <==> ds.Some?)
    && (d.Some? ==> s[d.value.size..] == rest[ds.value.size..])
    && (n == 0 ==> ds == Some(DecodedSeq([], 0)))
  }
}
