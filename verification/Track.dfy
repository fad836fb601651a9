/** mpack's write tracking: a stack of what is open and how much of it is still to come. */
module Track {
  import opened Bytes
  import opened Format
  import opened Grammar
  import W = Writer
  import opened Wrappers

  datatype Open = OpenStr | OpenBin | OpenExt | OpenArray | OpenMap

  datatype Element = Element(open: Open, left: nat)

  const INITIAL_CAPACITY: nat := 8

  predicate IsContainer(o: Open) {
    o.OpenArray? || o.OpenMap?
  }

  function OpenFor(t: Tag): Option<Element> {
    match t
    case Str(n) => Some(Element(OpenStr, n))
    case Bin(n) => Some(Element(OpenBin, n))
    case Ext(_, n) => Some(Element(OpenExt, n))
    case Array(n) => Some(Element(OpenArray, n))
    case Map(n) => Some(Element(OpenMap, 2 * n))
    case _ => None
  }

  /** The stack with `n` units of the innermost open element used up. */
  function Use(stack: seq<Element>, n: nat): seq<Element>
    requires stack != [] && n <= stack[|stack| - 1].left
  {
    var top := stack[|stack| - 1];
    stack[..|stack| - 1] + [Element(top.open, top.left - n)]
  }

  /** The stack after one more element, if one may be written. */
  function AfterElement(stack: seq<Element>): Option<seq<Element>> {
    if stack == [] then Some(stack)
    else
      var top := stack[|stack| - 1];
      if IsContainer(top.open) && top.left > 0 then Some(Use(stack, 1)) else None
  }

  function AfterBytes(stack: seq<Element>, n: nat): Option<seq<Element>> {
    if stack == [] then None
    else
      var top := stack[|stack| - 1];
      if !IsContainer(top.open) && n <= top.left then Some(Use(stack, n)) else None
  }

  function AfterFinish(stack: seq<Element>, o: Open): Option<seq<Element>> {
    if stack != [] && stack[|stack| - 1] == Element(o, 0) then Some(stack[..|stack| - 1]) else None
  }

  /** `s` is `n` complete objects and nothing else. */
  ghost predicate Whole(s: seq<byte>, n: nat) {
    DecodeSeq(s, n).Some? && DecodeSeq(s, n).value.size == |s|
  }

  /** `s` is a concatenation of complete objects. */
  ghost predicate Complete(s: seq<byte>) {
    exists n: nat :: Whole(s, n)
  }

  /** `c` supplies exactly what the open elements lack, innermost first, and then complete objects. */
  ghost predicate Closes(stack: seq<Element>, c: seq<byte>)
    decreases |stack|
  {
    if stack == [] then Complete(c)
    else
      var top, rest := stack[|stack| - 1], stack[..|stack| - 1];
      if IsContainer(top.open) then
        DecodeSeq(c, top.left).Some? && Closes(rest, c[DecodeSeq(c, top.left).value.size..])
      else
        top.left <= |c| && Closes(rest, c[top.left..])
  }

  /** Whatever closes the stack completes the output. */
  ghost predicate Promise(stack: seq<Element>, out: seq<byte>) {
    forall c :: Closes(stack, c) ==> Complete(out + c)
  }

  /** One complete object, on its own or as an element of the open container. */
  lemma ObjectCloses(stack: seq<Element>, s: seq<byte>)
    requires AfterElement(stack).Some? && Decode(s).Some?
    requires Closes(AfterElement(stack).value, s[Decode(s).value.size..])
    ensures Closes(stack, s)
  {
    hide Decode, DecodeSeq;
    var d := Decode(s).value;
    var rest := s[d.size..];
    if stack == [] {
      var n: nat :| Whole(rest, n);
      DecodeSeqCons(s, n + 1);
      assert Whole(s, n + 1);
    } else {
      var top := stack[|stack| - 1];
      var after := AfterElement(stack).value;
      assert after[..|after| - 1] == stack[..|stack| - 1];
      DecodeSeqCons(s, top.left);
      var k := DecodeSeq(rest, top.left - 1).value.size;
      assert rest[k..] == s[d.size + k..];
    }
  }

  /** The stack with what header `t` opens. */
  function Opened(stack: seq<Element>, t: Tag): seq<Element> {
    match OpenFor(t)
    case None => stack
    case Some(e) => stack + [e]
  }

  /** What closes the stack with header `t` on it starts with the payload of `t`. */
  lemma PayloadCloses(stack: seq<Element>, t: Tag, c: seq<byte>)
    requires Closes(Opened(stack, t), c)
    ensures PayloadBytes(t) <= |c|
    ensures var d := DecodeSeq(c[PayloadBytes(t)..], PayloadObjects(t));
            d.Some? && Closes(stack, c[PayloadBytes(t)..][d.value.size..])
  {
    hide DecodeSeq;
    var open := Opened(stack, t);
    if OpenFor(t).Some? { assert open[..|open| - 1] == stack; }
    var body := c[PayloadBytes(t)..];
    DecodeSeqNone(body);
    assert c[0..] == c && body[0..] == body;
  }

  /** A written header followed by its payload is an object. */
  lemma WrittenObject(t: Tag, c: seq<byte>)
    ensures PayloadBytes(t) <= |c| ==> DecodedAs(WriteTag(t) + c, c[PayloadBytes(t)..], PayloadObjects(t))
  {
    hide Header, WriteTag, Decode, DecodeSeq, DecodedAs;
    var s := WriteTag(t) + c;
    TagRoundTrip(t, c);
    DecodeByHeader(s);
    assert s[|WriteTag(t)|..] == c;
  }

  /** A header may be written where an element may be, with what it opens on the stack. */
  lemma HeaderCloses(stack: seq<Element>, t: Tag, c: seq<byte>)
    requires AfterElement(stack).Some?
    requires Closes(Opened(AfterElement(stack).value, t), c)
    ensures Closes(stack, WriteTag(t) + c)
  {
    hide WriteTag, Decode, DecodeSeq, Closes, Opened;
    PayloadCloses(AfterElement(stack).value, t, c);
    WrittenObject(t, c);
    ObjectCloses(stack, WriteTag(t) + c);
  }

  lemma BytesClose(stack: seq<Element>, data: seq<byte>, c: seq<byte>)
    requires AfterBytes(stack, |data|).Some? && Closes(AfterBytes(stack, |data|).value, c)
    ensures Closes(stack, data + c)
  {
    hide DecodeSeq;
    var top := stack[|stack| - 1];
    var after := AfterBytes(stack, |data|).value;
    assert after[..|after| - 1] == stack[..|stack| - 1];
    assert (data + c)[top.left..] == c[top.left - |data|..];
  }

  lemma FinishCloses(stack: seq<Element>, o: Open, c: seq<byte>)
    requires AfterFinish(stack, o).Some? && Closes(AfterFinish(stack, o).value, c)
    ensures Closes(stack, c)
  {
    hide DecodeSeq;
    DecodeSeqNone(c);
    assert c[0..] == c;
  }

  /** What a call of the writer asks for. */
  datatype Op = HeaderCall(tag: Tag) | BytesCall(data: seq<byte>) | FinishCall(open: Open)

  /** The bytes a call emits. */
  function Emitted(op: Op): seq<byte> {
    match op
    case HeaderCall(t) => WriteTag(t)
    case BytesCall(data) => data
    case FinishCall(_) => []
  }

  /** The stack after a call, if the call is in order. */
  function After(stack: seq<Element>, op: Op): Option<seq<Element>> {
    match op
    case HeaderCall(t) =>
      var e := AfterElement(stack);
      if e.None? then None else Some(Opened(e.value, t))
    case BytesCall(data) => AfterBytes(stack, |data|)
    case FinishCall(o) => AfterFinish(stack, o)
  }

  /** The stack after a run of calls, if all are in order. */
  function AfterAll(stack: seq<Element>, ops: seq<Op>): Option<seq<Element>>
    decreases |ops|
  {
    if ops == [] then Some(stack)
    else match After(stack, ops[0])
      case None => None
      case Some(next) => AfterAll(next, ops[1..])
  }

  function EmittedAll(ops: seq<Op>): seq<byte> {
    if ops == [] then [] else Emitted(ops[0]) + EmittedAll(ops[1..])
  }

  /** Every call in order keeps the promise. */
  lemma PromiseKept(stack: seq<Element>, out: seq<byte>, op: Op)
    requires Promise(stack, out) && After(stack, op).Some?
    ensures Promise(After(stack, op).value, out + Emitted(op))
  {
    hide Complete, Closes, WriteTag, AfterElement, AfterBytes, AfterFinish;
    var e := Emitted(op);
    forall c | Closes(After(stack, op).value, c) ensures Complete(out + e + c) {
      match op {
        case HeaderCall(t) => HeaderCloses(stack, t, c);
        case BytesCall(data) => BytesClose(stack, data, c);
        case FinishCall(o) => FinishCloses(stack, o, c); assert [] + c == c;
      }
      assert out + e + c == out + (e + c);
    }
  }

  lemma {:induction false} PromiseKeptAll(stack: seq<Element>, out: seq<byte>, ops: seq<Op>)
    requires Promise(stack, out) && AfterAll(stack, ops).Some?
    ensures Promise(AfterAll(stack, ops).value, out + EmittedAll(ops))
    decreases |ops|
  {
    hide Promise, After, Emitted;
    if ops == [] {
      assert out + [] == out;
    } else {
      PromiseKept(stack, out, ops[0]);
      var e, rest := Emitted(ops[0]), EmittedAll(ops[1..]);
      PromiseKeptAll(After(stack, ops[0]).value, out + e, ops[1..]);
      assert out + e + rest == out + (e + rest);
    }
  }

  /** A run in order that closes everything it opened has emitted complete objects. */
  lemma ClosedRunIsComplete(ops: seq<Op>)
    requires AfterAll([], ops) == Some([])
    ensures Complete(EmittedAll(ops))
  {
    hide Promise, Complete, AfterAll, EmittedAll;
    PromiseStart();
    PromiseKeptAll([], [], ops);
    assert [] + EmittedAll(ops) == EmittedAll(ops);
    PromiseDone(EmittedAll(ops));
  }

  lemma PromiseStart()
    ensures Promise([], [])
  {
    hide Complete;
    forall c | Closes([], c) ensures Complete([] + c) { assert [] + c == c; }
  }

  /** With nothing open, the output is a concatenation of complete objects. */
  lemma PromiseDone(out: seq<byte>)
    requires Promise([], out)
    ensures Complete(out)
  {
    hide DecodeSeq;
    DecodeSeqNone([]);
    assert Whole([], 0) && Closes([], []);
    assert out + [] == out;
  }

  lemma TagSize(t: Tag)
    ensures 1 <= |WriteTag(t)| <= 9
  {
  }

  /** A growable writer with write tracking. */
  class TrackedWriter {
    const writer: W.Writer
    var elements: array<Element>
    var count: nat

    ghost predicate Valid()
      reads this, writer
    {
      count <= elements.Length && elements.Length > 0 && writer.Valid() && writer.Tight()
    }

    ghost function Stack(): seq<Element>
      requires Valid()
      reads this, writer, elements
    {
      elements[..count]
    }

    /** mpack_track_init and mpack_writer_init_growable. */
    constructor ()
      ensures Valid() && writer.error == W.Ok && writer.Contents() == [] && Stack() == []
      ensures fresh(elements) && fresh(writer) && fresh(writer.buffer)
    {
      elements := new Element[INITIAL_CAPACITY](_ => Element(OpenStr, 0));
      count := 0;
      writer := new W.Writer();
    }

    /** mpack_track_grow. */
    method Grow()
      requires Valid()
      modifies this`elements
      ensures Valid() && count < elements.Length && Stack() == old(Stack()) && fresh(elements)
    {
      var before := elements;
      elements := new Element[before.Length * 2](i reads before =>
        if 0 <= i < before.Length then before[i] else Element(OpenStr, 0));
    }

    /** mpack_track_push. */
    method Push(o: Open, n: nat)
      requires Valid()
      modifies this`elements, this`count, elements
      ensures Valid() && (elements == old(elements) || fresh(elements))
      ensures Stack() == old(Stack()) + [Element(o, if o.OpenMap? then 2 * n else n)]
    {
      var n := if o.OpenMap? then 2 * n else n;
      if count == elements.Length { Grow(); }
      elements[count] := Element(o, n);
      count := count + 1;
    }

    /** mpack_track_pop. */
    method Pop(o: Open) returns (e: W.Error)
      requires Valid()
      modifies this`count
      ensures Valid() && (e == W.Ok <==> AfterFinish(old(Stack()), o).Some?)
      ensures if e == W.Ok then Stack() == AfterFinish(old(Stack()), o).value else Stack() == old(Stack())
    {
      if count == 0 { return W.Bug; }
      var top := elements[count - 1];
      if top.open != o { return W.Bug; }
      if top.left != 0 { return W.Bug; }
      count := count - 1;
      return W.Ok;
    }

    /** mpack_track_peek_element and mpack_track_element. */
    method TrackElement() returns (e: W.Error)
      requires Valid()
      modifies elements
      ensures Valid() && (e == W.Ok <==> AfterElement(old(Stack())).Some?)
      ensures if e == W.Ok then Stack() == AfterElement(old(Stack())).value else Stack() == old(Stack())
    {
      if count == 0 { return W.Ok; }
      var top := elements[count - 1];
      if !IsContainer(top.open) { return W.Bug; }
      if top.left == 0 { return W.Bug; }
      elements[count - 1] := Element(top.open, top.left - 1);
      return W.Ok;
    }

    /** mpack_track_bytes. */
    method TrackBytes(n: nat) returns (e: W.Error)
      requires Valid()
      modifies elements
      ensures Valid() && (e == W.Ok <==> AfterBytes(old(Stack()), n).Some?)
      ensures if e == W.Ok then Stack() == AfterBytes(old(Stack()), n).value else Stack() == old(Stack())
    {
      if count == 0 { return W.Bug; }
      var top := elements[count - 1];
      if IsContainer(top.open) { return W.Bug; }
      if top.left < n { return W.Bug; }
      elements[count - 1] := Element(top.open, top.left - n);
      return W.Ok;
    }

    /** mpack_writer_flag_if_error. */
    method FlagIfError(e: W.Error)
      modifies writer`error
      ensures writer.error == if old(writer.error) == W.Ok then e else old(writer.error)
    {
      if writer.error == W.Ok { writer.error := e; }
    }

    /** Opens what header `t` announces. */
    method OpenHeader(t: Tag)
      requires Valid()
      modifies this`elements, this`count, elements
      ensures Valid() && (elements == old(elements) || fresh(elements)) && Stack() == Opened(old(Stack()), t)
    {
      match t {
        case Str(n) => Push(OpenStr, n);
        case Bin(n) => Push(OpenBin, n);
        case Ext(_, n) => Push(OpenExt, n);
        case Array(n) => Push(OpenArray, n);
        case Map(n) => Push(OpenMap, n);
        case _ =>
      }
    }

    /** A scalar written, or a str, bin, ext, array or map started. Bytes go to the buffer even after an error,
        as far as there is room. */
    method WriteHeader(t: Tag)
      requires Valid()
      modifies this, elements, writer, writer.buffer
      ensures Valid() && (elements == old(elements) || fresh(elements))
      ensures writer.buffer == old(writer.buffer) || fresh(writer.buffer)
      ensures old(writer.error) != W.Ok ==> writer.error == old(writer.error)
      ensures old(writer.error) == W.Ok ==> Follows(old(Stack()), old(writer.Contents()), HeaderCall(t))
    {
      hide WriteTag;
      if writer.error == W.Ok {
        var e := TrackElement();
        FlagIfError(e);
      }
      TagSize(t);
      writer.WriteEncoded(WriteTag(t));
      if writer.error == W.Ok { OpenHeader(t); }
    }

    /** mpack_write_bytes. */
    method WriteBytes(p: array<byte>, n: nat)
      requires Valid() && n <= p.Length && p != writer.buffer
      modifies this, elements, writer, writer.buffer
      ensures Valid() && elements == old(elements)
      ensures writer.buffer == old(writer.buffer) || fresh(writer.buffer)
      ensures old(writer.error) != W.Ok ==> writer.error == old(writer.error)
      ensures old(writer.error) == W.Ok ==> Follows(old(Stack()), old(writer.Contents()), BytesCall(old(p[..n])))
    {
      if writer.error == W.Ok {
        var e := TrackBytes(n);
        FlagIfError(e);
      }
      writer.WriteNative(p, n);
    }

    /** mpack_finish_str, mpack_finish_bin, mpack_finish_ext, mpack_finish_array, mpack_finish_map. */
    method FinishType(o: Open)
      requires Valid()
      modifies this, writer
      ensures Valid() && elements == old(elements) && writer.buffer == old(writer.buffer)
      ensures old(writer.error) != W.Ok ==> writer.error == old(writer.error)
      ensures old(writer.error) == W.Ok ==> Follows(old(Stack()), old(writer.Contents()), FinishCall(o))
    {
      if writer.error == W.Ok {
        var e := Pop(o);
        FlagIfError(e);
      }
      assert writer.Contents() == writer.Contents() + [];
    }

    /** An error is flagged exactly when the call is out of order; otherwise stack and output follow. */
    ghost predicate Follows(stack: seq<Element>, before: seq<byte>, op: Op)
      requires Valid()
      reads this, elements, writer, writer.buffer
    {
      && (writer.error == W.Ok <==> After(stack, op).Some?)
      && (writer.error == W.Ok ==> Stack() == After(stack, op).value && writer.Contents() == before + Emitted(op))
    }

    /** One call. */
    method Perform(op: Op)
      requires Valid()
      modifies this, elements, writer, writer.buffer
      ensures Valid() && (elements == old(elements) || fresh(elements))
      ensures writer.buffer == old(writer.buffer) || fresh(writer.buffer)
      ensures old(writer.error) != W.Ok ==> writer.error == old(writer.error)
      ensures old(writer.error) == W.Ok ==> Follows(old(Stack()), old(writer.Contents()), op)
    {
      match op {
        case HeaderCall(t) => WriteHeader(t);
        case BytesCall(data) =>
          var n := |data|;
          var p := new byte[n](i requires 0 <= i < n => data[i]);
          assert p[..n] == data;
          WriteBytes(p, n);
        case FinishCall(o) => FinishType(o);
      }
    }

    /** Any run of calls. */
    method Run(ops: seq<Op>)
      requires Valid() && writer.error == W.Ok && writer.Contents() == [] && count == 0
      modifies this, elements, writer, writer.buffer
      ensures Valid() && (writer.buffer == old(writer.buffer) || fresh(writer.buffer))
      ensures writer.error == W.Ok <==> AfterAll([], ops).Some?
      ensures writer.error == W.Ok ==> AfterAll([], ops) == Some(Stack()) && writer.Contents() == EmittedAll(ops)
    {
      hide After, Emitted, AfterAll, EmittedAll;
      var i := 0;
      RunNothing([]);
      while i < |ops|
        invariant i <= |ops| && Valid() && (elements == old(elements) || fresh(elements))
        invariant writer.buffer == old(writer.buffer) || fresh(writer.buffer)
        invariant writer.error == W.Ok <==> AfterAll([], ops[..i]).Some?
        invariant writer.error == W.Ok ==>
                    AfterAll([], ops[..i]) == Some(Stack()) && writer.Contents() == EmittedAll(ops[..i])
      {
        RunOneMore([], ops[..i], ops[i]);
        assert ops[..i] + [ops[i]] == ops[..i + 1];
        Perform(ops[i]);
        i := i + 1;
      }
      assert ops[..i] == ops;
    }
  }

  /** A document written through the tracked, growable writer: it is handed over exactly if all calls were in
      order and emitted something; it is what they emitted, and a concatenation of complete objects if they closed
      what they opened. */
  method WriteDocument(ops: seq<Op>) returns (data: array?<byte>, size: nat)
    ensures data != null <==> AfterAll([], ops).Some? && EmittedAll(ops) != []
    ensures data != null ==> size <= data.Length && data[..size] == EmittedAll(ops)
    ensures data != null && AfterAll([], ops) == Some([]) ==> Complete(data[..size])
  {
    hide AfterAll, EmittedAll, Complete;
    var tracked := new TrackedWriter();
    tracked.Run(ops);
    if AfterAll([], ops) == Some([]) { ClosedRunIsComplete(ops); }
    data, size := tracked.writer.Destroy();
  }

  lemma RunNothing(stack: seq<Element>)
    ensures AfterAll(stack, []) == Some(stack) && EmittedAll([]) == []
  {
  }

  lemma {:induction false} RunAppend(stack: seq<Element>, l: seq<Op>, r: seq<Op>)
    ensures EmittedAll(l + r) == EmittedAll(l) + EmittedAll(r)
    ensures AfterAll(stack, l).None? ==> AfterAll(stack, l + r).None?
    ensures AfterAll(stack, l).Some? ==> AfterAll(stack, l + r) == AfterAll(AfterAll(stack, l).value, r)
    decreases |l|
  {
    hide After, Emitted;
    if l == [] {
      assert l + r == r;
    } else {
      assert (l + r)[1..] == l[1..] + r;
      var next := After(stack, l[0]);
      RunAppend(if next.Some? then next.value else stack, l[1..], r);
    }
  }

  lemma RunOneMore(stack: seq<Element>, ops: seq<Op>, op: Op)
    ensures EmittedAll(ops + [op]) == EmittedAll(ops) + Emitted(op)
    ensures AfterAll(stack, ops + [op]) ==
              if AfterAll(stack, ops).None? then None else After(AfterAll(stack, ops).value, op)
  {
    hide After, Emitted;
    RunAppend(stack, ops, [op]);
    assert [op][1..] == [];
    assert Emitted(op) + [] == Emitted(op);
  }
}
