/** mpack's reader: a buffer refilled from a source, read and skipped in several ways. What callers
    see does not depend on where the refills fall. */
module Reader {
  import opened Bytes
  import opened Format
  import opened Grammar
  import opened Wrappers

  datatype Error = Ok | Invalid | Io | TooBig

  const MINIMUM_BUFFER_SIZE: nat := 32

  lemma Assoc(a: seq<byte>, b: seq<byte>, c: seq<byte>)
    ensures (a + b) + c == a + (b + c)
  {
  }

  /** The first `n` bytes of `src` went into the array behind `head`; `rest` are the others. */
  lemma Refilled(a: array<byte>, m: nat, n: nat, head: seq<byte>, src: seq<byte>, rest: seq<byte>)
    requires m + n <= a.Length && a[..m] == head && n <= |src| && a[m..m + n] == src[..n] && rest == src[n..]
    ensures a[0..m + n] + rest == head + src
  {
    assert a[0..m + n] == a[..m] + a[m..m + n];
    assert src == src[..n] + rest;
    Assoc(head, src[..n], rest);
  }

  class Reader {
    /** Without a fill function, `buffer` is the whole message and `size` is zero. */
    const buffer: array<byte>
    const size: nat
    const hasFill: bool

    /** The fill function returns less than asked only at the end of the source. */
    const promptFill: bool

    var pos: nat
    var left: nat
    var error: Error

    /** What the fill function has not delivered yet. */
    var source: seq<byte>

    ghost predicate Valid()
      reads this
    {
      && pos + left <= buffer.Length
      && (if hasFill then size == buffer.Length >= MINIMUM_BUFFER_SIZE else source == [] && promptFill)
    }

    /** Everything the reader has yet to deliver. */
    ghost function Remaining(): seq<byte>
      requires Valid()
      reads this, buffer
    {
      buffer[pos..pos + left] + source
    }

    /** What is flagged when bytes run out. */
    ghost predicate Refusal(e: Error)
    {
      e == if hasFill then Io else Invalid
    }

    lemma BufferedOnly()
      requires Valid() && source == []
      ensures |Remaining()| == left
    {
    }

    lemma InBuffer(from: nat, to: nat)
      requires Valid() && from <= to <= left
      ensures to <= |Remaining()| && buffer[pos + from..pos + to] == Remaining()[from..to]
    {
      var part, all := buffer[pos + from..pos + to], Remaining();
      forall i | 0 <= i < to - from ensures part[i] == all[from..to][i] {
        assert part[i] == buffer[pos + (from + i)];
        assert all[from..to][i] == all[from + i] == buffer[pos..pos + left][from + i];
      }
    }

    /** mpack_reader_init_data. */
    constructor InMemory(data: seq<byte>)
      ensures Valid() && !hasFill && promptFill && error == Ok && Remaining() == data && fresh(buffer)
    {
      var n := |data|;
      buffer := new byte[n](i requires 0 <= i < n => data[i]);
      size, hasFill, promptFill := 0, false, true;
      pos, left, error, source := 0, n, Ok, [];
      new;
      assert buffer[0..n] == data;
    }

    /** mpack_reader_init with a fill function over `stream`; `ready` is in the buffer from the start. */
    constructor Streaming(ready: seq<byte>, stream: seq<byte>, size: nat, prompt: bool)
      requires size >= MINIMUM_BUFFER_SIZE && |ready| <= size
      ensures Valid() && hasFill && promptFill == prompt && this.size == size && error == Ok && fresh(buffer)
      ensures Remaining() == ready + stream
    {
      buffer := new byte[size](i => if 0 <= i < |ready| then ready[i] else 0);
      this.size, hasFill, promptFill := size, true, prompt;
      pos, left, error, source := 0, |ready|, Ok, stream;
      new;
      assert buffer[0..|ready|] == ready;
    }

    method FlagError(e: Error)
      requires e != Ok
      modifies this`error, this`left
      ensures error == if old(error) == Ok then e else old(error)
      ensures left == if old(error) == Ok then 0 else old(left)
    {
      if error == Ok {
        error := e;
        left := 0;
      }
    }

    /** mpack_fill: any number of bytes up to `count` may arrive, including none. */
    method Fill(dst: array<byte>, off: nat, count: nat) returns (n: nat)
      requires off + count <= dst.Length
      modifies this`source, dst
      ensures n <= count && n <= |old(source)| && source == old(source)[n..]
      ensures promptFill ==> n == count || source == []
      ensures dst[off..off + n] == old(source)[..n]
      ensures dst[..off] == old(dst[..off]) && dst[off + count..] == old(dst[off + count..])
    {
      if promptFill {
        n := if count <= |source| then count else |source|;
      } else {
        n :| 0 <= n <= count && n <= |source|;
      }
      forall i | 0 <= i < n { dst[off + i] := source[i]; }
      source := source[n..];
    }

    /** Moves what is left to the start of the buffer. */
    method Compact()
      requires Valid()
      modifies this`pos, buffer
      ensures Valid() && pos == 0 && Remaining() == old(Remaining())
    {
      ghost var head := buffer[pos..pos + left];
      forall i | 0 <= i < left { buffer[i] := buffer[pos + i]; }
      pos := 0;
      assert buffer[0..left] == head;
    }

    /** Fills the rest of the buffer behind what is left. */
    method FillRest()
      requires Valid() && hasFill && pos == 0
      modifies this`left, this`source, buffer
      ensures Valid() && left >= old(left) && Remaining() == old(Remaining())
      ensures promptFill ==> left == size || left == |Remaining()|
    {
      ghost var head, src := buffer[0..left], source;
      var n := Fill(buffer, left, size - left);
      Refilled(buffer, left, n, head, src, source);
      left := left + n;
    }

    /** mpack_partial_fill. */
    method PartialFill()
      requires Valid() && hasFill
      modifies this`pos, this`left, this`source, buffer
      ensures Valid() && pos == 0 && left >= old(left) && Remaining() == old(Remaining())
      ensures promptFill ==> left == size || left == |Remaining()|
    {
      hide Remaining;
      Compact();
      FillRest();
    }

    /** mpack_reader_ensure with mpack_reader_ensure_straddle. */
    method Ensure(count: nat) returns (ok: bool)
      requires Valid() && error == Ok && 0 < count <= MINIMUM_BUFFER_SIZE
      modifies this, buffer
      ensures Valid() && (ok <==> error == Ok)
      ensures ok ==> left >= count && Remaining() == old(Remaining())
      ensures !ok ==> Refusal(error) && (promptFill ==> |old(Remaining())| < count)
    {
      if count <= left { return true; }
      if !hasFill {
        FlagError(Invalid);
        return false;
      }
      PartialFill();
      if left < count {
        FlagError(Io);
        return false;
      }
      ok := true;
    }

    /** Passes `count` bytes of the buffer. */
    method Advance(count: nat)
      requires Valid() && count <= left
      modifies this`pos, this`left
      ensures Valid() && pos == old(pos) + count && left == old(left) - count
      ensures buffer[old(pos)..pos] + Remaining() == old(Remaining())
    {
      assert buffer[pos..pos + left] == buffer[pos..pos + count] + buffer[pos + count..pos + left];
      Assoc(buffer[pos..pos + count], buffer[pos + count..pos + left], source);
      pos := pos + count;
      left := left - count;
    }

    /** Copies `count` bytes that are in the buffer. */
    method CopyOut(p: array<byte>, at: nat, count: nat)
      requires Valid() && count <= left && at + count <= p.Length && p != buffer
      modifies p
      ensures p[..at + count] == old(p[..at]) + buffer[pos..pos + count]
      ensures forall i :: at + count <= i < p.Length ==> p[i] == old(p[i])
    {
      ghost var before := p[..at];
      forall i | 0 <= i < count { p[at + i] := buffer[pos + i]; }
      assert p[..at + count] == before + buffer[pos..pos + count];
    }

    /** Delivers `count` bytes that are in the buffer to `p`. */
    method Serve(p: array<byte>, at: nat, count: nat)
      requires Valid() && count <= left && at + count <= p.Length && p != buffer
      modifies this`pos, this`left, p
      ensures Valid() && pos == old(pos) + count && left == old(left) - count
      ensures p[..at + count] + Remaining() == old(p[..at] + Remaining())
      ensures forall i :: at + count <= i < p.Length ==> p[i] == old(p[i])
    {
      ghost var before, chunk, all := p[..at], buffer[pos..pos + count], Remaining();
      CopyOut(p, at, count);
      assert Remaining() == all;
      hide Remaining;
      Advance(count);
      Assoc(before, chunk, Remaining());
    }

    /** Fills `p` directly from the source; the buffer is empty. */
    method FillDirect(p: array<byte>, at: nat, count: nat) returns (ok: bool)
      requires Valid() && hasFill && left == 0 && at + count <= p.Length && p != buffer
      modifies this`source, p
      ensures Valid()
      ensures promptFill && !ok ==> |old(Remaining())| < count
      ensures ok ==> p[..at + count] + Remaining() == old(p[..at] + Remaining())
      ensures p[..at] == old(p[..at])
      ensures forall i :: at + count <= i < p.Length ==> p[i] == old(p[i])
    {
      ghost var before, src := p[..at], source;
      var got := Fill(p, at, count);
      ok := got == count;
      if ok {
        assert p[..at + count] == before + src[..count];
        assert src == src[..count] + src[count..];
      }
    }

    ghost predicate ZeroFrom(p: array<byte>, from: nat, to: nat)
      reads p
    {
      forall i :: from <= i < to && i < p.Length ==> p[i] == 0
    }

    /** How much of `count` bytes is delivered at most before a read fails: what is in the buffer, and whole buffers
        after it. Only a reader with a fill function delivers anything. */
    function Delivered(have: nat, count: nat): nat
      requires Valid()
      reads this
    {
      if hasFill && have <= count then count - (count - have) % size else 0
    }

    /** mpack_memset to zero. */
    method Zero(p: array<byte>, off: nat, count: nat)
      requires off + count <= p.Length
      modifies p
      ensures forall i :: 0 <= i < p.Length ==> p[i] == if off <= i < off + count then 0 else old(p[i])
    {
      forall i | 0 <= i < count { p[off + i] := 0; }
    }

    /** mpack_read_native: the bytes already in the buffer, or mpack_read_native_big. On an error
        the bytes not read are zeroed: all of them, but for what the buffer still had and whole buffers read. */
    method ReadNative(p: array<byte>, off: nat, count: nat)
      requires Valid() && off + count <= p.Length && p != buffer
      modifies this, buffer, p
      ensures Valid() && (old(error) != Ok ==> error == old(error))
      ensures old(error) == Ok && error != Ok ==> Refusal(error) && (promptFill ==> |old(Remaining())| < count)
      ensures error == Ok ==> p[..off + count] + Remaining() == old(p[..off] + Remaining())
      ensures old(error) == Ok && error != Ok ==> ZeroFrom(p, off + Delivered(old(left), count), off + count)
      ensures old(error) != Ok && count > old(left) ==> ZeroFrom(p, off, off + count)
      ensures forall i :: off + count <= i < p.Length ==> p[i] == old(p[i])
    {
      hide Remaining;
      if count > left {
        ReadNativeBig(p, off, count);
      } else {
        Serve(p, off, count);
      }
    }

    /** The part of mpack_read_native_big past the bytes in the buffer: whole buffers directly, then the rest. */
    method ReadPastBuffer(p: array<byte>, off: nat, count: nat)
      requires Valid() && error == Ok && hasFill && left == 0 && 0 < count && off + count <= p.Length && p != buffer
      modifies this, buffer, p
      ensures Valid() && (error != Ok ==> Refusal(error) && (promptFill ==> |old(Remaining())| < count))
      ensures error == Ok ==> p[..off + count] + Remaining() == old(p[..off] + Remaining())
      ensures error != Ok ==> ZeroFrom(p, off + Delivered(0, count), off + count)
      ensures forall i :: off + count <= i < p.Length ==> p[i] == old(p[i])
    {
      hide Remaining;
      var at, n := off, count;
      var middle := n - n % size;
      if middle > 0 {
        var ok := FillDirect(p, at, middle);
        if !ok {
          FlagError(Io);
          Zero(p, at, n);
          return;
        }
        n := n - middle;
        at := at + middle;
        if n == 0 { return; }
      }
      PartialFill();
      if left < n {
        FlagError(Io);
        Zero(p, at, n);
        return;
      }
      Serve(p, at, n);
    }

    method ReadNativeBig(p: array<byte>, off: nat, count: nat)
      requires Valid() && count > left && off + count <= p.Length && p != buffer
      modifies this, buffer, p
      ensures Valid() && (old(error) != Ok ==> error == old(error))
      ensures old(error) == Ok && error != Ok ==> Refusal(error) && (promptFill ==> |old(Remaining())| < count)
      ensures error == Ok ==> p[..off + count] + Remaining() == old(p[..off] + Remaining())
      ensures old(error) == Ok && error != Ok ==> ZeroFrom(p, off + Delivered(old(left), count), off + count)
      ensures old(error) != Ok ==> ZeroFrom(p, off, off + count)
      ensures forall i :: off + count <= i < p.Length ==> p[i] == old(p[i])
    {
      hide Remaining;
      if error != Ok {
        Zero(p, off, count);
        return;
      }
      if !hasFill {
        BufferedOnly();
        FlagError(Invalid);
        Zero(p, off, count);
        return;
      }
      var at, n := off, count;
      if left > 0 {
        n := n - left;
        at := at + left;
        Serve(p, off, left);
      }
      ReadPastBuffer(p, at, n);
    }

    lemma EmptyBuffer()
      requires Valid() && left == 0
      ensures Remaining() == source
    {
      assert buffer[pos..pos] == [];
    }

    /** The loop of mpack_reader_skip_using_fill: whole buffers are filled and discarded. */
    method SkipBuffers(count: nat) returns (n: nat)
      requires Valid() && hasFill && left == 0 && error == Ok
      modifies this`source, this`error, this`left, buffer
      ensures Valid() && left == 0
      ensures error == Ok ==>
                n <= count && n <= size && count - n <= |old(source)| && source == old(source)[count - n..]
      ensures error != Ok ==> Refusal(error) && (promptFill ==> |old(source)| < count)
    {
      n := count;
      while n > size
        invariant Valid() && left == 0 && error == Ok && n <= count && count - n <= |old(source)|
        invariant source == old(source)[count - n..]
      {
        var got := Fill(buffer, 0, size);
        if got < size {
          FlagError(Io);
          return;
        }
        n := n - size;
      }
    }

    /** mpack_reader_skip_using_fill. */
    method SkipUsingFill(count: nat)
      requires Valid() && hasFill && left == 0 && error == Ok
      modifies this, buffer
      ensures Valid()
      ensures error == Ok ==> count <= |old(Remaining())| && Remaining() == old(Remaining())[count..]
      ensures error != Ok ==> Refusal(error) && (promptFill ==> |old(Remaining())| < count)
    {
      hide Remaining;
      EmptyBuffer();
      var n := SkipBuffers(count);
      if error != Ok { return; }
      EmptyBuffer();
      PartialFill();
      if left < n {
        FlagError(Io);
        return;
      }
      ghost var rest := Remaining();
      Advance(n);
      Taken(rest, buffer[0..n], Remaining());
    }

    /** mpack_skip_bytes. */
    method SkipBytes(count: nat)
      requires Valid()
      modifies this, buffer
      ensures Valid() && (old(error) != Ok ==> error == old(error))
      ensures error == Ok ==> count <= |old(Remaining())| && Remaining() == old(Remaining())[count..]
      ensures old(error) == Ok && error != Ok ==> Refusal(error) && (promptFill ==> |old(Remaining())| < count)
    {
      hide Remaining;
      if error != Ok { return; }
      ghost var input := Remaining();
      if left >= count {
        Advance(count);
        Taken(input, buffer[old(pos)..pos], Remaining());
        return;
      }
      if !hasFill {
        BufferedOnly();
        FlagError(Invalid);
        return;
      }
      var have := left;
      Advance(have);
      Taken(input, buffer[old(pos)..pos], Remaining());
      ghost var ahead := Remaining();
      SkipUsingFill(count - have);
      if error == Ok { DropTwice(input, ahead, have, count - have); }
    }

    /** mpack_read_bytes_inplace: the bytes stay in the buffer, from index `at`. */
    method ReadInPlace(count: nat) returns (at: nat)
      requires Valid()
      modifies this, buffer
      ensures Valid() && (old(error) != Ok ==> error == old(error))
      ensures error == Ok ==> at + count <= buffer.Length && buffer[at..at + count] + Remaining() == old(Remaining())
      ensures old(error) == Ok && error != Ok ==>
                if hasFill && count > size then error == TooBig
                else Refusal(error) && (promptFill ==> |old(Remaining())| < count)
    {
      hide Remaining;
      at := pos;
      if error != Ok { return; }
      if left < count {
        if !hasFill {
          BufferedOnly();
          FlagError(Invalid);
          return;
        }
        if count > size {
          FlagError(TooBig);
          return;
        }
        PartialFill();
        if left < count {
          FlagError(Io);
          return;
        }
        at := 0;
      }
      Advance(count);
    }

    /** mpack_parse_tag: the header in front of the reader, without passing it. A size of zero
        reports a failure. */
    method ParseTag() returns (tag: Tag, tagSize: nat)
      requires Valid() && error == Ok
      modifies this, buffer
      ensures Valid() && (tagSize != 0 <==> error == Ok)
      ensures error == Ok ==>
                && Header(old(Remaining())) == Some(Head(tag, tagSize))
                && tagSize <= left && Remaining() == old(Remaining())
      ensures error != Ok ==> Failed(old(Header(Remaining()).None?))
    {
      hide Header, LayoutOf, TagOf, Remaining;
      tag, tagSize := Nil, 0;
      ghost var input := Remaining();
      var ok := Ensure(1);
      if !ok {
        if promptFill { HeaderShort(input); }
        return;
      }
      var first := buffer[pos];
      InBuffer(0, 1);
      assert first == input[0..1][0];
      var layout := LayoutOf(first);
      if layout.Reserved? {
        FlagError(Invalid);
        HeaderReserved(input);
        return;
      }
      var extra := Extra(layout);
      if extra > 0 {
        ok := Ensure(1 + extra);
        if !ok {
          if promptFill { HeaderShort(input); }
          return;
        }
      }
      InBuffer(1, 1 + extra);
      tag, tagSize := TagOf(first, buffer[pos + 1..pos + 1 + extra]), 1 + extra;
      HeaderWhole(input);
    }

    /** A failure is of the stream, unless a fill function that may return early returned early. */
    ghost predicate Failed(malformed: bool)
      reads this
    {
      (error == Invalid || (error == Io && promptFill) ==> malformed) && (error == Invalid || (error == Io && hasFill))
    }

    /** mpack_read_tag. */
    method ReadTag() returns (tag: Tag)
      requires Valid()
      modifies this, buffer
      ensures Valid() && (old(error) != Ok ==> error == old(error))
      ensures error == Ok ==>
                var h := Header(old(Remaining()));
                h.Some? && h.value.tag == tag && Remaining() == old(Remaining())[h.value.size..]
      ensures old(error) == Ok && error != Ok ==> Failed(old(Header(Remaining()).None?))
    {
      hide Header, Remaining;
      if error != Ok { return Nil; }
      var size;
      tag, size := ParseTag();
      if size == 0 { return Nil; }
      ghost var input, from := Remaining(), pos;
      Advance(size);
      assert input == buffer[from..pos] + Remaining();
    }

    /** The loop of mpack_discard over the elements of an array. */
    method DiscardElements(n: nat)
      requires Valid() && error == Ok
      modifies this, buffer
      ensures Valid()
      ensures error == Ok ==>
                var d := DecodeSeq(old(Remaining()), n);
                d.Some? && Remaining() == old(Remaining())[d.value.size..]
      ensures error != Ok ==> Failed(old(DecodeSeq(Remaining(), n).None?))
      decreases 1 + |Remaining()|, 1
    {
      hide Decode, DecodeSeq, Remaining;
      ghost var input := Remaining();
      DecodeSeqNone(input);
      var k: nat := n;
      while k > 0
        invariant Valid() && error == Ok && k <= n && DecodeSeq(input, n - k).Some?
        invariant Remaining() == input[DecodeSeq(input, n - k).value.size..]
      {
        ghost var rest := Remaining();
        DecodeSeqSplit(input, n - k, 1);
        DecodeSeqCons(rest, 1);
        Discard();
        if error != Ok {
          DecodeSeqSplit(input, n - k + 1, k - 1);
          return;
        }
        DecodeSeqNone(Remaining());
        k := k - 1;
      }
    }

    /** One turn of the loop over the pairs of a map: the second discard runs even if the first one
        failed, and then changes nothing. */
    method DiscardPair()
      requires Valid() && error == Ok
      modifies this, buffer
      ensures Valid()
      ensures error == Ok ==>
                var d := DecodeSeq(old(Remaining()), 2);
                d.Some? && Remaining() == old(Remaining())[d.value.size..]
      ensures error != Ok ==> Failed(old(DecodeSeq(Remaining(), 2).None?))
      decreases 1 + |Remaining()|, 1
    {
      hide Decode, DecodeSeq, Remaining;
      DecodeSeqCons(Remaining(), 2);
      Discard();
      if error == Ok { DecodeSeqCons(Remaining(), 1); }
      Discard();
      if error == Ok { DecodeSeqNone(Remaining()); }
    }

    /** The loop of mpack_discard over the pairs of a map. */
    method DiscardPairs(n: nat)
      requires Valid() && error == Ok
      modifies this, buffer
      ensures Valid()
      ensures error == Ok ==>
                var d := DecodeSeq(old(Remaining()), 2 * n);
                d.Some? && Remaining() == old(Remaining())[d.value.size..]
      ensures error != Ok ==> Failed(old(DecodeSeq(Remaining(), 2 * n).None?))
      decreases 1 + |Remaining()|, 2
    {
      hide Decode, DecodeSeq, Remaining;
      ghost var input := Remaining();
      DecodeSeqNone(input);
      var k: nat := n;
      while k > 0
        invariant Valid() && error == Ok && k <= n && DecodeSeq(input, 2 * (n - k)).Some?
        invariant Remaining() == input[DecodeSeq(input, 2 * (n - k)).value.size..]
      {
        DecodeSeqSplit(input, 2 * (n - k), 2);
        DiscardPair();
        if error != Ok {
          DecodeSeqSplit(input, 2 * (n - k) + 2, 2 * (k - 1));
          return;
        }
        k := k - 1;
      }
    }

    /** mpack_discard. */
    method Discard()
      requires Valid()
      modifies this, buffer
      ensures Valid() && (old(error) != Ok ==> error == old(error))
      ensures error == Ok ==>
                var d := Decode(old(Remaining()));
                d.Some? && Remaining() == old(Remaining())[d.value.size..]
      ensures old(error) == Ok && error != Ok ==> Failed(old(Decode(Remaining()).None?))
      decreases if error == Ok then 1 + |Remaining()| else 0, 0
    {
      hide Header, Decode, DecodeSeq, Remaining;
      ghost var input := Remaining();
      DecodeByHeader(input);
      var tag := ReadTag();
      if error != Ok { return; }
      if tag.Str? || tag.Bin? || tag.Ext? {
        SkipBytes(tag.len);
      } else if tag.Array? {
        DiscardElements(tag.n);
      } else if tag.Map? {
        DiscardPairs(tag.n);
      }
    }
  }

  lemma HeaderShort(s: seq<byte>)
    requires s == [] || |s| < 1 + Extra(LayoutOf(s[0]))
    ensures Header(s).None?
  {
  }

  lemma HeaderReserved(s: seq<byte>)
    requires s != [] && LayoutOf(s[0]).Reserved?
    ensures Header(s).None?
  {
  }

  lemma HeaderWhole(s: seq<byte>)
    requires s != [] && !LayoutOf(s[0]).Reserved? && |s| >= 1 + Extra(LayoutOf(s[0]))
    ensures Header(s) == Some(Head(TagOf(s[0], s[1..1 + Extra(LayoutOf(s[0]))]), 1 + Extra(LayoutOf(s[0]))))
  {
  }

  /** What a program asks of a reader. */
  datatype Request = Read(n: nat) | InPlace(n: nat) | Skip(n: nat) | NextTag

  datatype Response = Got(bytes: seq<byte>) | Skipped | Tagged(tag: Tag)

  /** One request answered from a plain byte string, with the bytes that follow. */
  function Answer(s: seq<byte>, q: Request): Option<(Response, seq<byte>)> {
    if q.NextTag? then
      match Header(s)
      case None => None
      case Some(h) => Some((Tagged(h.tag), s[h.size..]))
    else if q.n > |s| then None
    else Some((if q.Skip? then Skipped else Got(s[..q.n]), s[q.n..]))
  }

  function AnswerAll(s: seq<byte>, requests: seq<Request>): Option<(seq<Response>, seq<byte>)>
    decreases |requests|
  {
    if requests == [] then Some(([], s))
    else match Answer(s, requests[0])
      case None => None
      case Some((response, rest)) =>
        match AnswerAll(rest, requests[1..])
        case None => None
        case Some((responses, end)) => Some(([response] + responses, end))
  }

  /** One request of a reader: the answer is that of the plain byte string. */
  method ServeRequest(reader: Reader, q: Request) returns (response: Response)
    requires reader.Valid() && reader.error == Ok
    modifies reader, reader.buffer
    ensures reader.Valid()
    ensures reader.error == Ok ==> Answer(old(reader.Remaining()), q) == Some((response, reader.Remaining()))
    ensures reader.error == Invalid || (reader.error == Io && reader.promptFill) ==>
              Answer(old(reader.Remaining()), q).None?
    ensures reader.error == TooBig ==> q.InPlace? && reader.hasFill && q.n > reader.size
  {
    hide Header, Reader.Remaining;
    ghost var input := reader.Remaining();
    response := Skipped;
    match q
    case Read(n) =>
      var p := new byte[n](_ => 0);
      reader.ReadNative(p, 0, n);
      response := Got(p[..n]);
      if reader.error == Ok { Taken(input, p[..n], reader.Remaining()); }
    case InPlace(n) =>
      var at := reader.ReadInPlace(n);
      if reader.error == Ok {
        response := Got(reader.buffer[at..at + n]);
        Taken(input, response.bytes, reader.Remaining());
      }
    case Skip(n) => reader.SkipBytes(n);
    case NextTag =>
      var tag := reader.ReadTag();
      response := Tagged(tag);
  }

  lemma DropTwice(s: seq<byte>, t: seq<byte>, a: nat, b: nat)
    requires a <= |s| && t == s[a..] && b <= |t|
    ensures t[b..] == s[a + b..]
  {
  }

  lemma Taken(s: seq<byte>, front: seq<byte>, rest: seq<byte>)
    requires front + rest == s
    ensures |front| <= |s| && s[..|front|] == front && s[|front|..] == rest
  {
  }

  /** Buffering is invisible: whatever mixture of reads, in-place reads, skips and tags is asked for, the
      responses are those of the plain byte string, and so is what remains; a prompt source fails only
      where the byte string does, or on an in-place read larger than the buffer. */
  method Session(reader: Reader, requests: seq<Request>) returns (responses: seq<Response>)
    requires reader.Valid() && reader.error == Ok
    modifies reader, reader.buffer
    ensures reader.Valid()
    ensures reader.error == Ok ==> AnswerAll(old(reader.Remaining()), requests) == Some((responses, reader.Remaining()))
    ensures reader.error == Invalid || (reader.error == Io && reader.promptFill) ==>
              AnswerAll(old(reader.Remaining()), requests).None?
    ensures reader.error == TooBig ==>
              exists i :: 0 <= i < |requests| && requests[i].InPlace? && reader.hasFill && requests[i].n > reader.size
    decreases |requests|
  {
    hide Answer, Reader.Remaining;
    responses := [];
    if requests != [] {
      var first := ServeRequest(reader, requests[0]);
      if reader.error == Ok {
        var rest := Session(reader, requests[1..]);
        responses := [first] + rest;
      }
    }
  }
}
