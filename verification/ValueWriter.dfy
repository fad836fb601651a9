/** Whole values written through the tracked writer, with payloads in any pieces, and read back. */
module ValueWriter {
  import opened Bytes
  import opened Format
  import opened Grammar
  import opened Track
  import opened Wrappers

  /** A way to write one object: a header alone, a header with its payload in pieces, or a header with the plans of
      its elements. */
  datatype Plan =
    | Plain(tag: Tag)
    | Blob(tag: Tag, pieces: seq<seq<byte>>)
    | List(tag: Tag, elems: seq<Plan>)

  predicate HasBytes(t: Tag) {
    t.Str? || t.Bin? || t.Ext?
  }

  predicate HasElements(t: Tag) {
    t.Array? || t.Map?
  }

  function Concat(pieces: seq<seq<byte>>): seq<byte> {
    if pieces == [] then [] else pieces[0] + Concat(pieces[1..])
  }

  /** The header announces what follows. */
  predicate Sound(p: Plan) {
    match p
    case Plain(t) => !HasBytes(t) && !HasElements(t)
    case Blob(t, pieces) => HasBytes(t) && t.len == |Concat(pieces)|
    case List(t, elems) =>
      && HasElements(t) && |elems| == (if t.Map? then 2 * t.n else t.n)
      && forall e :: e in elems ==> Sound(e)
  }

  predicate AllSound(ps: seq<Plan>) {
    forall p :: p in ps ==> Sound(p)
  }

  /** The value a plan writes. */
  function ValueOf(p: Plan): Value {
    match p
    case Plain(t) => Scalar(Normal(t))
    case Blob(t, pieces) => Build(t, Concat(pieces), [])
    case List(t, elems) => Build(t, [], ValuesOf(elems))
  }

  function ValuesOf(ps: seq<Plan>): (vs: seq<Value>)
    ensures |vs| == |ps|
  {
    if ps == [] then [] else [ValueOf(ps[0])] + ValuesOf(ps[1..])
  }

  function Pieces(pieces: seq<seq<byte>>): seq<Op> {
    seq(|pieces|, i requires 0 <= i < |pieces| => BytesCall(pieces[i]))
  }

  /** What a header opens is finished by the call of its kind. */
  function Finish(t: Tag): Op
    requires HasBytes(t) || HasElements(t)
  {
    FinishCall(if t.Str? then OpenStr else if t.Bin? then OpenBin else if t.Ext? then OpenExt
               else if t.Array? then OpenArray else OpenMap)
  }

  /** The calls of a plan. */
  function Calls(p: Plan): seq<Op>
    requires Sound(p)
    decreases p, 0
  {
    match p
    case Plain(t) => [HeaderCall(t)]
    case Blob(t, pieces) => [HeaderCall(t)] + Pieces(pieces) + [Finish(t)]
    case List(t, elems) => [HeaderCall(t)] + CallsSeq(elems) + [Finish(t)]
  }

  function CallsSeq(ps: seq<Plan>): seq<Op>
    requires AllSound(ps)
    decreases ps, 1
  {
    if ps == [] then [] else Calls(ps[0]) + CallsSeq(ps[1..])
  }

  // ---- The calls of a plan are in order ----

  /** Used up one by one. */
  lemma UseTwice(stack: seq<Element>, a: nat, b: nat)
    requires stack != [] && a + b <= stack[|stack| - 1].left
    ensures Use(Use(stack, a), b) == Use(stack, a + b)
  {
    var s := Use(stack, a);
    assert s[..|s| - 1] == stack[..|stack| - 1];
  }

  lemma UseNone(stack: seq<Element>)
    requires stack != []
    ensures Use(stack, 0) == stack
  {
  }

  /** Bytes may come in any pieces. */
  lemma AnyPieces(stack: seq<Element>, k: nat, n: nat)
    requires k <= n && AfterBytes(stack, n).Some?
    ensures AfterBytes(stack, k).Some? && AfterBytes(AfterBytes(stack, k).value, n - k) == AfterBytes(stack, n)
  {
    UseTwice(stack, k, n - k);
  }

  lemma {:induction false} PiecesInOrder(pieces: seq<seq<byte>>, stack: seq<Element>)
    requires AfterBytes(stack, |Concat(pieces)|).Some?
    ensures AfterAll(stack, Pieces(pieces)) == AfterBytes(stack, |Concat(pieces)|)
    decreases |pieces|
  {
    hide AfterAll, AfterBytes;
    if pieces == [] {
      RunNothing(stack);
      NoBytes(stack);
      assert Pieces(pieces) == [];
    } else {
      var n := |pieces[0]|;
      AnyPieces(stack, n, |Concat(pieces)|);
      PiecesInOrder(pieces[1..], AfterBytes(stack, n).value);
      PiecesCons(pieces);
      OneCall(stack, BytesCall(pieces[0]));
      RunAppend(stack, [BytesCall(pieces[0])], Pieces(pieces[1..]));
    }
  }

  lemma PiecesCons(pieces: seq<seq<byte>>)
    requires pieces != []
    ensures Pieces(pieces) == [BytesCall(pieces[0])] + Pieces(pieces[1..])
  {
  }

  lemma NoBytes(stack: seq<Element>)
    requires AfterBytes(stack, 0).Some?
    ensures AfterBytes(stack, 0).value == stack
  {
  }

  lemma OneCall(stack: seq<Element>, op: Op)
    ensures AfterAll(stack, [op]) == After(stack, op) && EmittedAll([op]) == Emitted(op)
  {
    RunNothing(stack);
    RunOneMore(stack, [], op);
    assert [] + [op] == [op];
    assert [] + Emitted(op) == Emitted(op);
  }

  /** What a header opens, used up and finished. */
  lemma FilledInOrder(stack: seq<Element>, o: Open, n: nat)
    ensures AfterFinish(Use(stack + [Element(o, n)], n), o) == Some(stack)
  {
    var s := Use(stack + [Element(o, n)], n);
    assert s[..|s| - 1] == stack;
  }

  /** A header, calls that use up what it opened, and the finish. */
  lemma BracketInOrder(stack: seq<Element>, t: Tag, inner: seq<Op>)
    requires AfterElement(stack).Some? && OpenFor(t).Some?
    requires var s := AfterElement(stack).value + [OpenFor(t).value];
             AfterAll(s, inner) == Some(Use(s, OpenFor(t).value.left))
    ensures AfterAll(stack, [HeaderCall(t)] + inner + [Finish(t)]) == AfterElement(stack)
  {
    hide AfterElement, AfterFinish, AfterAll, EmittedAll, Use;
    var e := OpenFor(t).value;
    OneCall(stack, HeaderCall(t));
    RunAppend(stack, [HeaderCall(t)], inner);
    RunOneMore(stack, [HeaderCall(t)] + inner, Finish(t));
    FilledInOrder(AfterElement(stack).value, e.open, e.left);
  }

  lemma BlobInOrder(stack: seq<Element>, t: Tag, pieces: seq<seq<byte>>)
    requires AfterElement(stack).Some? && Sound(Blob(t, pieces))
    ensures AfterAll(stack, Calls(Blob(t, pieces))) == AfterElement(stack)
  {
    hide AfterElement, AfterAll;
    var s := AfterElement(stack).value + [OpenFor(t).value];
    PiecesInOrder(pieces, s);
    BracketInOrder(stack, t, Pieces(pieces));
  }

  /** The calls of a plan are in order wherever an element may be written, and count as one. */
  lemma {:induction false} ValueInOrder(p: Plan, stack: seq<Element>)
    requires Sound(p) && AfterElement(stack).Some?
    ensures AfterAll(stack, Calls(p)) == AfterElement(stack)
    decreases p, 0
  {
    hide AfterElement, AfterAll, Use;
    match p
    case Plain(t) => OneCall(stack, HeaderCall(t));
    case Blob(t, pieces) => BlobInOrder(stack, t, pieces);
    case List(t, elems) =>
      ValuesInOrder(elems, AfterElement(stack).value + [OpenFor(t).value]);
      BracketInOrder(stack, t, CallsSeq(elems));
  }

  lemma {:induction false} ValuesInOrder(ps: seq<Plan>, stack: seq<Element>)
    requires AllSound(ps) && stack != [] && IsContainer(stack[|stack| - 1].open) && |ps| <= stack[|stack| - 1].left
    ensures AfterAll(stack, CallsSeq(ps)) == Some(Use(stack, |ps|))
    decreases ps, 1
  {
    hide AfterAll, Calls, Sound;
    if ps == [] {
      UseNone(stack);
      RunNothing(stack);
    } else {
      ValueInOrder(ps[0], stack);
      ValuesInOrder(ps[1..], Use(stack, 1));
      RunAppend(stack, Calls(ps[0]), CallsSeq(ps[1..]));
      UseTwice(stack, 1, |ps| - 1);
    }
  }

  // ---- And every run in order that closes what it opened is the calls of plans ----

  /** The calls up to the finish of a str, bin or ext. */
  lemma {:induction false} ParsePieces(below: seq<Element>, o: Open, n: nat, ops: seq<Op>, end: seq<Element>)
    returns (pieces: seq<seq<byte>>, k: nat)
    requires !IsContainer(o) && AfterAll(below + [Element(o, n)], ops) == Some(end) && |end| <= |below|
    ensures k < |ops| && ops[..k] == Pieces(pieces) && |Concat(pieces)| == n && ops[k] == FinishCall(o)
    ensures AfterAll(below, ops[k + 1..]) == Some(end)
    decreases |ops|
  {
    var stack := below + [Element(o, n)];
    assert stack[..|below|] == below && ops != [];
    if ops[0].BytesCall? {
      var data := ops[0].data;
      var after := below + [Element(o, n - |data|)];
      assert Use(stack, |data|) == after;
      hide AfterAll;
      var rest, j := ParsePieces(below, o, n - |data|, ops[1..], end);
      pieces, k := [data] + rest, j + 1;
      PiecesCons(pieces);
      assert ops[..k] == [ops[0]] + ops[1..][..j] && ops[k + 1..] == ops[1..][j + 1..];
    } else {
      pieces, k := [], 0;
    }
  }

  /** The first call inside an array or map: an element, or the finish when all are written. */
  lemma FirstInside(below: seq<Element>, o: Open, n: nat, ops: seq<Op>, end: seq<Element>)
    requires IsContainer(o) && AfterAll(below + [Element(o, n)], ops) == Some(end) && |end| <= |below|
    ensures ops != []
    ensures if ops[0].HeaderCall?
            then n > 0 && AfterAll(Opened(below + [Element(o, n - 1)], ops[0].tag), ops[1..]) == Some(end)
            else n == 0 && ops[0] == FinishCall(o) && AfterAll(below, ops[1..]) == Some(end)
  {
    var stack := below + [Element(o, n)];
    assert stack[..|below|] == below && ops != [];
    if ops[0].HeaderCall? { assert Use(stack, 1) == below + [Element(o, n - 1)]; }
  }

  /** The calls up to the finish of an array or map. */
  lemma {:induction false} ParseElements(below: seq<Element>, o: Open, n: nat, ops: seq<Op>, end: seq<Element>)
    returns (plans: seq<Plan>, k: nat)
    requires IsContainer(o) && AfterAll(below + [Element(o, n)], ops) == Some(end) && |end| <= |below|
    ensures k < |ops| && AllSound(plans) && ops[..k] == CallsSeq(plans) && |plans| == n && ops[k] == FinishCall(o)
    ensures AfterAll(below, ops[k + 1..]) == Some(end)
    decreases |ops|, 0
  {
    hide AfterAll, AllSound, CallsSeq, Sound, Calls;
    FirstInside(below, o, n, ops, end);
    if ops[0].HeaderCall? {
      var p, j := ParseObject(below + [Element(o, n - 1)], ops[0].tag, ops[1..], end);
      var rest, i := ParseElements(below, o, n - 1, ops[1..][j..], end);
      plans, k := [p] + rest, 1 + j + i;
      CallsCons(p, rest);
      Cuts(ops, j, i);
    } else {
      plans, k := [], 0;
      NoCalls();
    }
  }

  lemma NoCalls()
    ensures AllSound([]) && CallsSeq([]) == []
  {
  }

  lemma Cuts(ops: seq<Op>, j: nat, i: nat)
    requires ops != [] && j <= |ops[1..]| && i < |ops[1..][j..]|
    ensures var k := 1 + j + i;
            && ops[..k] == [ops[0]] + ops[1..][..j] + ops[1..][j..][..i]
            && ops[k] == ops[1..][j..][i] && ops[k + 1..] == ops[1..][j..][i + 1..]
  {
  }

  lemma CallsCons(p: Plan, rest: seq<Plan>)
    requires Sound(p) && AllSound(rest)
    ensures AllSound([p] + rest) && CallsSeq([p] + rest) == Calls(p) + CallsSeq(rest)
  {
    hide Sound, Calls;
    assert ([p] + rest)[1..] == rest;
  }

  /** The calls of one object, after its header. */
  lemma {:induction false} ParseObject(stack: seq<Element>, t: Tag, ops: seq<Op>, end: seq<Element>)
    returns (p: Plan, k: nat)
    requires AfterAll(Opened(stack, t), ops) == Some(end) && |end| <= |stack|
    ensures k <= |ops| && Sound(p) && Calls(p) == [HeaderCall(t)] + ops[..k]
    ensures AfterAll(stack, ops[k..]) == Some(end)
    decreases |ops|, 1
  {
    hide AfterAll;
    if HasBytes(t) {
      var pieces, j := ParsePieces(stack, OpenFor(t).value.open, OpenFor(t).value.left, ops, end);
      p, k := Blob(t, pieces), j + 1;
      assert ops[..k] == ops[..j] + [Finish(t)];
    } else if HasElements(t) {
      var plans, j := ParseElements(stack, OpenFor(t).value.open, OpenFor(t).value.left, ops, end);
      p, k := List(t, plans), j + 1;
      assert ops[..k] == ops[..j] + [Finish(t)];
    } else {
      p, k := Plain(t), 0;
      assert ops[0..] == ops && [HeaderCall(t)] + ops[..0] == [HeaderCall(t)];
    }
  }

  lemma {:induction false} ParseRun(ops: seq<Op>) returns (plans: seq<Plan>)
    requires AfterAll([], ops) == Some([])
    ensures AllSound(plans) && CallsSeq(plans) == ops
    decreases |ops|
  {
    hide AfterAll, AllSound, CallsSeq, Sound, Calls;
    if ops == [] {
      NoCalls();
      return [];
    }
    FirstIsHeader(ops);
    var p, j := ParseObject([], ops[0].tag, ops[1..], []);
    var rest := ParseRun(ops[1..][j..]);
    plans := [p] + rest;
    CallsCons(p, rest);
    assert ops == [ops[0]] + ops[1..][..j] + ops[1..][j..];
  }

  lemma FirstIsHeader(ops: seq<Op>)
    requires AfterAll([], ops) == Some([]) && ops != []
    ensures ops[0].HeaderCall? && AfterAll(Opened([], ops[0].tag), ops[1..]) == Some([])
  {
  }

  lemma {:induction false} RunOfPlans(plans: seq<Plan>)
    requires AllSound(plans)
    ensures AfterAll([], CallsSeq(plans)) == Some([])
  {
    hide AfterAll, Calls, Sound;
    if plans == [] {
      RunNothing([]);
    } else {
      ValueInOrder(plans[0], []);
      RunOfPlans(plans[1..]);
      RunAppend([], Calls(plans[0]), CallsSeq(plans[1..]));
    }
  }

  /** Which runs tracking lets pass, without a stack: with everything closed at the end, exactly those that write
      one object after another, payloads in any pieces. */
  lemma InOrderExactly(ops: seq<Op>)
    ensures AfterAll([], ops) == Some([]) <==> exists plans :: AllSound(plans) && CallsSeq(plans) == ops
  {
    hide AfterAll, Sound, CallsSeq;
    if AfterAll([], ops) == Some([]) {
      var plans := ParseRun(ops);
    }
    if plans :| AllSound(plans) && CallsSeq(plans) == ops { RunOfPlans(plans); }
  }

  // ---- What is written is read back ----

  /** A written header, its payload bytes and its payload objects decode to the value they build. */
  lemma HeadedDecodes(t: Tag, b: seq<byte>, body: seq<byte>, vs: seq<Value>, rest: seq<byte>)
    requires PayloadBytes(t) == |b| && PayloadObjects(t) == |vs|
    requires DecodeSeq(body + rest, |vs|) == Some(DecodedSeq(vs, |body|))
    ensures Decode(WriteTag(t) + b + body + rest) == Some(Decoded(Build(Normal(t), b, vs), |WriteTag(t) + b + body|))
  {
    hide WriteTag, Header, DecodeSeq, Build;
    var (h, tail) := (WriteTag(t), b + body + rest);
    var s := WriteTag(t) + b + body + rest;
    assert s == h + tail;
    TagRoundTrip(t, tail);
    assert s[|h|..|h| + |b|] == b;
    assert s[|h| + |b|..] == body + rest;
  }

  /** A value written through the tracked writer, in whatever pieces, is read back. */
  lemma {:induction false} ValueRoundTrip(p: Plan, rest: seq<byte>)
    requires Sound(p)
    ensures Decode(EmittedAll(Calls(p)) + rest) == Some(Decoded(ValueOf(p), |EmittedAll(Calls(p))|))
    decreases p, 0
  {
    hide WriteTag, Decode, DecodeSeq, EmittedAll;
    DecodeSeqNone([] + rest);
    match p
    case Plain(t) =>
      OneCall([], HeaderCall(t));
      HeadedDecodes(t, [], [], [], rest);
      assert WriteTag(t) + [] + [] == WriteTag(t);
    case Blob(t, pieces) =>
      BracketEmitted(t, Pieces(pieces));
      PiecesEmitted(pieces);
      HeadedDecodes(t, Concat(pieces), [], [], rest);
      assert WriteTag(t) + Concat(pieces) + [] == WriteTag(t) + Concat(pieces);
    case List(t, elems) =>
      BracketEmitted(t, CallsSeq(elems));
      ValuesRoundTrip(elems, rest);
      HeadedDecodes(t, [], EmittedAll(CallsSeq(elems)), ValuesOf(elems), rest);
      assert WriteTag(t) + [] + EmittedAll(CallsSeq(elems)) == WriteTag(t) + EmittedAll(CallsSeq(elems));
  }

  lemma {:induction false} ValuesRoundTrip(ps: seq<Plan>, rest: seq<byte>)
    requires AllSound(ps)
    ensures DecodeSeq(EmittedAll(CallsSeq(ps)) + rest, |ps|) ==
              Some(DecodedSeq(ValuesOf(ps), |EmittedAll(CallsSeq(ps))|))
    decreases ps, 1
  {
    hide Decode, DecodeSeq, EmittedAll, Calls, Sound, ValueOf;
    if ps == [] {
      RunNothing([]);
      DecodeSeqNone(EmittedAll([]) + rest);
    } else {
      var (l, r) := (EmittedAll(Calls(ps[0])), EmittedAll(CallsSeq(ps[1..])));
      RunAppend([], Calls(ps[0]), CallsSeq(ps[1..]));
      ValueRoundTrip(ps[0], r + rest);
      ValuesRoundTrip(ps[1..], rest);
      assert l + r + rest == l + (r + rest);
      DecodeSeqCons(l + r + rest, |ps|);
      assert (l + (r + rest))[|l|..] == r + rest;
    }
  }

  lemma {:induction false} PiecesEmitted(pieces: seq<seq<byte>>)
    ensures EmittedAll(Pieces(pieces)) == Concat(pieces)
  {
    hide EmittedAll;
    if pieces == [] {
      RunNothing([]);
      assert Pieces(pieces) == [];
    } else {
      PiecesEmitted(pieces[1..]);
      PiecesCons(pieces);
      OneCall([], BytesCall(pieces[0]));
      RunAppend([], [BytesCall(pieces[0])], Pieces(pieces[1..]));
    }
  }

  lemma BracketEmitted(t: Tag, inner: seq<Op>)
    requires HasBytes(t) || HasElements(t)
    ensures EmittedAll([HeaderCall(t)] + inner + [Finish(t)]) == WriteTag(t) + EmittedAll(inner)
  {
    hide WriteTag, EmittedAll;
    OneCall([], HeaderCall(t));
    RunAppend([], [HeaderCall(t)], inner);
    RunOneMore([], [HeaderCall(t)] + inner, Finish(t));
    assert WriteTag(t) + EmittedAll(inner) + [] == WriteTag(t) + EmittedAll(inner);
  }

  /** So a closed run in order is read back as the values of its plans. */
  lemma ClosedRunIsRead(ops: seq<Op>, rest: seq<byte>) returns (plans: seq<Plan>)
    requires AfterAll([], ops) == Some([])
    ensures AllSound(plans) && CallsSeq(plans) == ops
    ensures DecodeSeq(EmittedAll(ops) + rest, |plans|) == Some(DecodedSeq(ValuesOf(plans), |EmittedAll(ops)|))
  {
    hide AfterAll, EmittedAll, DecodeSeq, Sound, CallsSeq;
    plans := ParseRun(ops);
    ValuesRoundTrip(plans, rest);
  }

  /** A value the format can carry: scalars in canonical form, lengths below 2^32, maps in pairs. */
  predicate Encodable(v: Value) {
    match v
    case Scalar(t) => !HasBytes(t) && !HasElements(t) && Normal(t) == t
    case StrOf(b) => |b| < 0x1_0000_0000
    case BinOf(b) => |b| < 0x1_0000_0000
    case ExtOf(_, b) => |b| < 0x1_0000_0000
    case ArrayOf(elems) => |elems| < 0x1_0000_0000 && forall e :: e in elems ==> Encodable(e)
    case MapOf(elems) =>
      |elems| % 2 == 0 && |elems| / 2 < 0x1_0000_0000 && forall e :: e in elems ==> Encodable(e)
  }

  /** Every such value has a plan. */
  lemma {:induction false} PlanFor(v: Value) returns (p: Plan)
    requires Encodable(v)
    ensures Sound(p) && ValueOf(p) == v
    decreases v, 0
  {
    match v
    case Scalar(t) => p := Plain(t);
    case StrOf(b) => OnePiece(b); p := Blob(Str(|b|), [b]);
    case BinOf(b) => OnePiece(b); p := Blob(Bin(|b|), [b]);
    case ExtOf(e, b) => OnePiece(b); p := Blob(Ext(e, |b|), [b]);
    case ArrayOf(elems) => var ps := PlansFor(elems); p := List(Array(|elems|), ps);
    case MapOf(elems) => var ps := PlansFor(elems); p := List(Map(|elems| / 2), ps);
  }

  lemma {:induction false} PlansFor(vs: seq<Value>) returns (ps: seq<Plan>)
    requires forall e :: e in vs ==> Encodable(e)
    ensures AllSound(ps) && |ps| == |vs| && ValuesOf(ps) == vs
    decreases vs, 1
  {
    hide Encodable, Sound, ValueOf;
    if vs == [] { return []; }
    var p := PlanFor(vs[0]);
    var rest := PlansFor(vs[1..]);
    ps := [p] + rest;
    assert ps[1..] == rest;
  }

  lemma OnePiece(b: seq<byte>)
    ensures Concat([b]) == b
  {
    assert [b][1..] == [];
  }
}
