/** mpack's growable writer: a buffer that is replaced by a larger one whenever it is flushed. */
module Writer {
  import opened Bytes

  /** `Bug` is flagged by write tracking. */
  datatype Error = Ok | Memory | Bug

  const BUFFER_SIZE: nat := 4096
  const MINIMUM_BUFFER_SIZE: nat := 32

  function Concat(chunks: seq<seq<byte>>): seq<byte> {
    if chunks == [] then [] else Concat(chunks[..|chunks| - 1]) + chunks[|chunks| - 1]
  }

  /** How a flush grows the buffer: at least double, and enough for `need` bytes. */
  method GrownSize(size: nat, need: nat) returns (r: nat)
    requires size > 0
    ensures r >= 2 * size && r >= need
    ensures r == 2 * size || r < 2 * need
  {
    r := size * 2;
    while r < need
      invariant r >= 2 * size && (r == 2 * size || r < 2 * need)
    {
      r := r * 2;
    }
  }

  class Writer {
    var buffer: array<byte>
    var used: nat
    var error: Error

    ghost predicate Valid()
      reads this
    {
      used <= buffer.Length && buffer.Length >= BUFFER_SIZE
    }

    ghost function Contents(): seq<byte>
      requires Valid()
      reads this, buffer
    {
      buffer[..used]
    }

    /** The buffer is the initial one or has less than twice the bytes written. */
    ghost predicate Tight()
      reads this
    {
      buffer.Length == BUFFER_SIZE || buffer.Length < 2 * used
    }

    /** mpack_writer_init_growable. */
    constructor ()
      ensures Valid() && Tight() && error == Ok && Contents() == [] && fresh(buffer)
    {
      buffer := new byte[BUFFER_SIZE](_ => 0);
      used := 0;
      error := Ok;
    }

    /** mpack_realloc, keeping the used bytes. */
    method Reallocate(size: nat)
      requires used <= buffer.Length && used <= size
      modifies this`buffer
      ensures fresh(buffer) && buffer.Length == size && buffer[..used] == old(buffer[..used])
    {
      var (old_, n) := (buffer, used);
      buffer := new byte[size](i reads old_ => if 0 <= i < old_.Length then old_[i] else 0);
    }

    /** Copies `count` bytes of `p` behind the used ones. */
    method Append(p: array<byte>, count: nat)
      requires used + count <= buffer.Length && count <= p.Length && p != buffer
      modifies this`used, buffer
      ensures used == old(used) + count && buffer[..used] == old(buffer[..used]) + p[..count]
    {
      ghost var before := buffer[..used];
      forall i | 0 <= i < count { buffer[used + i] := p[i]; }
      used := used + count;
      assert buffer[..used] == before + p[..count];
    }

    /** mpack_growable_writer_flush. The buffer is told from other data by its address, and a flush of
        the buffer with all its bytes still in use is taken for the one at teardown. */
    method Flush(data: array<byte>, count: nat)
      requires used <= buffer.Length && buffer.Length > 0 && count <= data.Length
      requires data == buffer ==> used == 0 || used == count
      modifies this, buffer
      ensures error == old(error) && (fresh(buffer) || buffer == old(buffer)) && used <= buffer.Length
      ensures data == old(buffer) && old(used) == count ==>
                buffer == old(buffer) && used == count && buffer[..used] == old(buffer[..used])
      ensures data == old(buffer) && old(used) != count ==>
                buffer[..used] == old(data[..count]) && buffer.Length == 2 * old(buffer).Length
      ensures data != old(buffer) ==> buffer[..used] == old(buffer[..used] + data[..count])
      ensures data != old(buffer) && old(used) + count > old(buffer).Length ==> buffer.Length < 2 * used
      ensures buffer.Length >= old(buffer).Length
    {
      var n := count;
      if data == buffer {
        if used == n { return; }
        used := n;
        n := 0;
      }
      ghost var kept := buffer[..used];
      var size := GrownSize(buffer.Length, used + n);
      Reallocate(size);
      if n > 0 { Append(data, n); }
    }

    /** mpack_writer_flush_unchecked. */
    method FlushUnchecked()
      requires Valid()
      modifies this, buffer
      ensures Valid() && error == old(error) && Contents() == old(Contents())
      ensures fresh(buffer) || buffer == old(buffer)
      ensures buffer.Length == if old(used) == 0 then old(buffer).Length else 2 * old(buffer).Length
    {
      var n := used;
      used := 0;
      Flush(buffer, n);
    }

    /** mpack_writer_ensure: a flush always makes enough room. */
    method Ensure(count: nat) returns (ok: bool)
      requires Valid() && buffer.Length - used < count <= MINIMUM_BUFFER_SIZE
      modifies this, buffer
      ensures Valid() && error == old(error) && Contents() == old(Contents()) && (ok <==> error == Ok)
      ensures fresh(buffer) || buffer == old(buffer)
      ensures ok ==> count <= buffer.Length - used && buffer.Length < 2 * (used + count)
      ensures !ok ==> buffer.Length == old(buffer.Length)
    {
      if error != Ok { return false; }
      FlushUnchecked();
      // mpack_error_io is never flagged
      if buffer.Length - used < count { assert false; }
      return true;
    }

    /** A header of `bytes` encoded in place, as MPACK_WRITE_ENCODED does. */
    method WriteEncoded(bytes: seq<byte>)
      requires Valid() && Tight() && 0 < |bytes| <= MINIMUM_BUFFER_SIZE
      modifies this, buffer
      ensures Valid() && Tight() && error == old(error) && (fresh(buffer) || buffer == old(buffer))
      ensures old(error) == Ok ==> Contents() == old(Contents()) + bytes
    {
      var room := buffer.Length - used >= |bytes|;
      if !room { room := Ensure(|bytes|); }
      if room {
        ghost var before := buffer[..used];
        forall i | 0 <= i < |bytes| { buffer[used + i] := bytes[i]; }
        used := used + |bytes|;
        assert buffer[..used] == before + bytes;
      }
    }

    /** mpack_write_native_straddle. */
    method WriteStraddle(p: array<byte>, count: nat)
      requires Valid() && Tight() && p != buffer && count <= p.Length && count > buffer.Length - used
      modifies this, buffer
      ensures Valid() && Tight() && error == old(error) && (fresh(buffer) || buffer == old(buffer))
      ensures old(error) == Ok ==> Contents() == old(Contents()) + old(p[..count])
    {
      if error != Ok { return; }
      FlushUnchecked();
      if count > buffer.Length - used {
        Flush(p, count);
      } else {
        Append(p, count);
      }
    }

    /** mpack_write_native. */
    method WriteNative(p: array<byte>, count: nat)
      requires Valid() && Tight() && p != buffer && count <= p.Length
      modifies this, buffer
      ensures Valid() && Tight() && error == old(error) && (fresh(buffer) || buffer == old(buffer))
      ensures old(error) == Ok ==> Contents() == old(Contents()) + old(p[..count])
    {
      if buffer.Length - used < count {
        WriteStraddle(p, count);
      } else {
        Append(p, count);
      }
    }

    /** mpack_writer_destroy with mpack_growable_writer_teardown. Shrinking to nothing is reported as
        a failed allocation, so a writer that was given no bytes hands over none; nor does one with an error. */
    method Destroy() returns (data: array?<byte>, size: nat)
      requires Valid() && Tight()
      modifies this, buffer
      ensures error == if old(error) == Ok && old(used) == 0 then Memory else old(error)
      ensures data != null <==> error == Ok
      ensures data != null ==>
                && size == old(used) <= data.Length && data[..size] == old(Contents())
                && data.Length <= 2 * size + 1
    {
      data, size := null, 0;
      if error == Ok && used != 0 { Flush(buffer, used); }
      if error != Ok { return; }
      if used < buffer.Length / 2 {
        if used == 0 {
          error := Memory;
          return;
        }
        Reallocate(used);
      }
      data, size := buffer, used;
    }
  }

  /** A whole run: whatever mixture of in-place headers and copied data is written, the bytes handed
      over are their concatenation, wherever the flushes fell. */
  method Store(chunks: seq<seq<byte>>, header: nat -> bool) returns (data: array?<byte>, size: nat)
    requires forall i :: 0 <= i < |chunks| && header(i) ==> 0 < |chunks[i]| <= MINIMUM_BUFFER_SIZE
    ensures data != null <==> Concat(chunks) != []
    ensures data != null ==> size <= data.Length && data[..size] == Concat(chunks)
  {
    var writer := new Writer();
    var i := 0;
    while i < |chunks|
      invariant i <= |chunks| && fresh(writer) && fresh(writer.buffer)
      invariant writer.Valid() && writer.Tight() && writer.error == Ok && writer.Contents() == Concat(chunks[..i])
    {
      assert chunks[..i + 1][..i] == chunks[..i];
      var chunk := chunks[i];
      if header(i) {
        writer.WriteEncoded(chunk);
      } else {
        var p := new byte[|chunk|](j requires 0 <= j < |chunk| => chunk[j]);
        assert p[..|chunk|] == chunk;
        writer.WriteNative(p, |chunk|);
      }
      i := i + 1;
    }
    assert chunks[..i] == chunks;
    data, size := writer.Destroy();
  }
}
