/** Why the stack-driven parser agrees with the recursive grammar. */
module ParserProof {
  import opened Bytes
  import opened Format
  import opened Grammar
  import opened NodeTree
  import opened ParseStep
  import opened ParserState
  import opened Wrappers

  /** The stack once the next node has been taken off its top level. */
  function TakeTop(levels: seq<Level>): seq<Level>
    requires levels != [] && levels[|levels| - 1].left > 0
  {
    var top := levels[|levels| - 1];
    levels[..|levels| - 1] + [Level(top.child + 1, top.left - 1)]
  }

  lemma TakeTopPending(levels: seq<Level>)
    requires levels != [] && levels[|levels| - 1].left > 0
    ensures Pending(levels) == [levels[|levels| - 1].child] + Pending(TakeTop(levels))
    ensures SumLeft(levels) == 1 + SumLeft(TakeTop(levels))
  {
    hide Pending, SumLeft, Range;
    var top, bottom := levels[|levels| - 1], levels[..|levels| - 1];
    assert levels == bottom + [top];
    PendingTop(bottom, top);
    PendingTop(bottom, Level(top.child + 1, top.left - 1));
    RangeCons(top.child, top.left, Pending(bottom));
  }

  /** What the rest of the input decodes to, for the nodes still pending. */
  function Ahead(s: State, data: seq<byte>): Option<DecodedSeq>
    requires s.pos <= |data|
  {
    DecodeSeq(data[s.pos..], SumLeft(s.levels))
  }

  /** The parser's state against the grammar: the input decodes exactly when the pending nodes can
      be decoded from the rest of it, and then the node tree holds the decoded value as soon as the
      pending nodes hold theirs. */
  ghost predicate Tracks(s: State, data: seq<byte>) {
    && s.pos <= |data|
    && (Decode(data).Some? <==> Ahead(s, data).Some?)
    && (Ahead(s, data).Some? ==>
         var v := Decode(data).value.value;
         var r := Ahead(s, data).value;
         && Decode(data).value.size == s.pos + r.size
         && Holds(s.pool.mem, data, s.pool.reserved, 0, v, HolesOf(Pending(s.levels), r.values))
         && NodeCount(v) + SumLeft(s.levels) == |s.pool.reserved| + NodeCountSeq(r.values))
  }

  /** State `s` with its next node taken; the node is then parsed, giving `t`. */
  ghost predicate Advance(s: State, t: State, data: seq<byte>, child: nat) {
    && Valid(s, data) && s.levels[|s.levels| - 1].left > 0
    && var idx := s.levels[|s.levels| - 1].child;
       var s1 := s.(levels := TakeTop(s.levels));
       && s1.pos + 1 + s1.possible <= |data| && idx < |s1.pool.mem|
       && Stepped(s1, t, data, idx, child)
  }

  lemma AdvanceWindow(s: State, t: State, data: seq<byte>, child: nat)
    requires Advance(s, t, data, child)
    ensures var s1 := s.(levels := TakeTop(s.levels));
            var rest, n := data[s.pos..], SumLeft(s.levels);
            1 <= n <= |rest| && Window(s1, data) == rest[..|rest| - (n - 1)] && n - 1 == SumLeft(s1.levels)
  {
    hide Stepped, PoolOk;
    TakeTopPending(s.levels);
  }

  /** The pending nodes after the step: the children, then the rest. */
  lemma AdvancePending(s: State, t: State, data: seq<byte>, child: nat)
    requires Advance(s, t, data, child) && t.error == Ok
    ensures var s1 := s.(levels := TakeTop(s.levels));
            var m := Objects(Window(s1, data));
            var p := Pending(s1.levels);
            && Pending(s.levels) == [s.levels[|s.levels| - 1].child] + p
            && Pending(t.levels) == Range(child, m) + p
            && Distinct(Range(child, m) + p)
            && SumLeft(t.levels) == m + SumLeft(s1.levels)
  {
    hide Header, Fits, Pending, SumLeft, Window, NodeFor, PoolOk, Range;
    var levels := TakeTop(s.levels);
    TakeTopPending(s.levels);
    var p := Pending(levels);
    assert Pending(s.levels)[1..] == p;
    assert forall k :: k in p ==> k in Pending(s.levels);
    var m := Objects(Window(s.(levels := levels), data));
    if m == 0 {
      assert t.levels == levels;
      assert Range(child, 0) == [];
      assert [] + p == p;
    } else {
      PendingPush(levels, child, m);
      PendingTop(levels, Level(child, m));
    }
  }

  /** Writing nodes leaves the accounting of memory alone. */
  lemma PoolWritten(p: Pool, q: Pool)
    requires PoolOk(p) && |q.mem| == |p.mem| && q == p.(mem := q.mem)
    ensures PoolOk(q)
  {
  }

  /** The accounting of bytes, nodes and memory is kept. */
  lemma AdvanceValid(s: State, t: State, data: seq<byte>, child: nat)
    requires Advance(s, t, data, child) && t.error == Ok
    ensures Valid(t, data)
  {
    hide Header, PoolOk, Pending, SumLeft, Window, NodeFor, Distinct, Range;
    AdvanceWindow(s, t, data, child);
    AdvancePending(s, t, data, child);
    var p := Pending(TakeTop(s.levels));
    assert forall k :: k in p ==> k in Pending(s.levels);
    assert t.levels != [];
    var idx := s.levels[|s.levels| - 1].child;
    PoolWritten(t.pool.(mem := t.pool.mem[idx := s.pool.mem[idx]]), t.pool);
  }

  /** The child ranges of any two containers stay disjoint. */
  lemma AdvanceChildren(s: State, t: State, data: seq<byte>, child: nat)
    requires Advance(s, t, data, child) && t.error == Ok && DisjointChildren(s.pool.mem, s.pool.reserved)
    ensures DisjointChildren(t.pool.mem, t.pool.reserved)
  {
    hide Header, DisjointChildren, Window, PoolOk, RangeSet, Pending, SumLeft, Distinct, Grow, TakeTop;
    var idx := s.levels[|s.levels| - 1].child;
    var s1 := s.(levels := TakeTop(s.levels));
    var w := Window(s1, data);
    var q := t.pool.mem[idx := s.pool.mem[idx]];
    WrittenRange(t.pool.mem[idx], Header(w).value.tag, s1.pos + Header(w).value.size, child);
    DisjointStep(s.pool.mem, q, s.pool.reserved, RangeSet(child, Objects(w)), idx, t.pool.mem[idx]);
    assert q[idx := t.pool.mem[idx]] == t.pool.mem;
  }

  lemma WrittenRange(node: Node, t: Tag, off: nat, child: nat)
    requires NodeFor(node, t, off, child)
    ensures ChildRange(node) <= RangeSet(child, PayloadObjects(t))
  {
    hide RangeSet;
  }

  /** An ext header ends with its type byte. */
  lemma ExtTypeByte(w: seq<byte>, data: seq<byte>, start: nat)
    requires start + |w| <= |data| && w == data[start..start + |w|]
    ensures Header(w).Some? && Header(w).value.tag.Ext? ==>
              var h := Header(w).value;
              h.size >= 2 && Pow256(1) == 0x100 && h.tag.exttype == Signed(data[start + h.size - 1], 1)
  {
    Widths();
    if Header(w).Some? && Header(w).value.tag.Ext? {
      var h := Header(w).value;
      var p := w[1..h.size];
      assert p[|p| - 1] == data[start + h.size - 1];
      assert Load([p[|p| - 1]]) == p[|p| - 1];
      if LayoutOf(w[0]).SizedExt? { assert p[|p| - 1..] == [p[|p| - 1]]; }
      else { assert p == [p[|p| - 1]]; }
    }
  }

  /** The holes after a step: the children of the parsed node, and those that were there, without
      the node itself. */
  lemma HolesStep(idx: nat, child: nat, p: seq<nat>, w: Value, elems: seq<Value>, vs: seq<Value>)
    requires |p| == |vs| && Distinct([idx] + p) && Distinct(Range(child, |elems|) + p)
    ensures var before := HolesOf([idx] + p, [w] + vs);
            var added := HolesOf(Range(child, |elems|), elems);
            var after := HolesOf(Range(child, |elems|) + p, elems + vs);
            && idx in before && before[idx] == w
            && after == (before - {idx}) + added && added.Keys == RangeSet(child, |elems|)
            && forall i :: 0 <= i < |elems| ==> child + i in after && after[child + i] == elems[i]
  {
    hide HolesOf, Range;
    var r := Range(child, |elems|);
    HolesCons(idx, w, p, vs);
    HolesAppend(r, elems, p, vs);
    HeadNotInTail(idx, p);
    assert HolesOf(p, vs)[idx := w] - {idx} == HolesOf(p, vs);
    forall i | 0 <= i < |elems|
      ensures child + i in HolesOf(r + p, elems + vs) && HolesOf(r + p, elems + vs)[child + i] == elems[i]
    {
      RangeAt(child, |elems|, i);
      HoleAt(r + p, elems + vs, i);
    }
  }

  lemma HeadNotInTail(idx: nat, p: seq<nat>)
    requires Distinct([idx] + p)
    ensures idx !in p
  {
    forall k | k in p ensures k != idx {
      var j :| 0 <= j < |p| && p[j] == k;
      assert ([idx] + p)[0] == idx && ([idx] + p)[j + 1] == k;
    }
  }

  lemma BuiltCount(t: Tag, bytes: seq<byte>, elems: seq<Value>, vs: seq<Value>)
    requires |elems| == PayloadObjects(t)
    ensures NodeCountSeq([Build(t, bytes, elems)] + vs) + |elems| == 1 + |elems| + NodeCountSeq(elems + vs)
  {
    NodeCountAppend(elems, vs);
    assert ([Build(t, bytes, elems)] + vs)[1..] == vs;
    assert elems == [] ==> NodeCountSeq(elems) == 0;
  }

  /** What a successful step did to the node memory. */
  lemma AdvanceMemory(s: State, t: State, data: seq<byte>, child: nat)
    requires Advance(s, t, data, child) && t.error == Ok
    ensures var idx := s.levels[|s.levels| - 1].child;
            var w := Window(s.(levels := TakeTop(s.levels)), data);
            var h := Header(w).value;
            var off := s.pos + h.size;
            && idx in s.pool.reserved && idx < |t.pool.mem| && NodeFor(t.pool.mem[idx], h.tag, off, child)
            && off + PayloadBytes(h.tag) <= |data| && Objects(w) == PayloadObjects(h.tag)
            && (h.tag.Ext? ==> off >= 1 && Pow256(1) == 0x100 && h.tag.exttype == Signed(data[off - 1], 1))
    ensures var m := Objects(Window(s.(levels := TakeTop(s.levels)), data));
            && child + m <= |t.pool.mem| && RangeSet(child, m) <= t.pool.reserved
            && RangeSet(child, m) !! s.pool.reserved
            && |s.pool.mem| <= |t.pool.mem| && s.pool.reserved <= t.pool.reserved
    ensures var idx := s.levels[|s.levels| - 1].child;
            forall k :: k in s.pool.reserved && k != idx && k < |s.pool.mem| ==> t.pool.mem[k] == s.pool.mem[k]
  {
    hide Header, Pending, SumLeft, NodeFor, PoolOk, RangeSet;
    TakeTopPending(s.levels);
    assert s.levels[|s.levels| - 1].child in Pending(s.levels);
    ExtTypeByte(Window(s.(levels := TakeTop(s.levels)), data), data, s.pos);
  }

  /** Filling node `idx` with the node for header `t`, and opening its children as holes for `elems`,
      keeps the tree. */
  lemma TreeAfterStep(mem: seq<Node>, mem': seq<Node>, data: seq<byte>, reserved: set<nat>, reserved': set<nat>,
                      v: Value,
                      idx: nat, child: nat, p: seq<nat>, t: Tag, off: nat, elems: seq<Value>, vs: seq<Value>)
    requires |p| == |vs| && |elems| == PayloadObjects(t) && off + PayloadBytes(t) <= |data|
    requires Distinct([idx] + p) && idx !in p && Distinct(Range(child, |elems|) + p)
    requires idx in reserved && idx < |mem'| && NodeFor(mem'[idx], t, off, child)
    requires t.Ext? ==> off >= 1 && Pow256(1) == 0x100 && t.exttype == Signed(data[off - 1], 1)
    requires child + |elems| <= |mem'| && RangeSet(child, |elems|) <= reserved' && RangeSet(child, |elems|) !! reserved
    requires |mem| <= |mem'| && reserved <= reserved'
    requires forall k :: k in reserved && k != idx && k < |mem| ==> mem'[k] == mem[k]
    requires Holds(mem, data, reserved, 0, v,
                   HolesOf([idx] + p, [Build(t, data[off..off + PayloadBytes(t)], elems)] + vs))
    ensures Holds(mem', data, reserved', 0, v, HolesOf(Range(child, |elems|) + p, elems + vs))
  {
    hide NodeFor, Range, Build, Holds, HolesOf, Distinct;
    var w := Build(t, data[off..off + PayloadBytes(t)], elems);
    HolesStep(idx, child, p, w, elems, vs);
    var before := HolesOf([idx] + p, [w] + vs);
    var added := HolesOf(Range(child, |elems|), elems);
    var after := HolesOf(Range(child, |elems|) + p, elems + vs);
    forall i | 0 <= i < |elems|
      ensures child + i in reserved' && child + i in after && after[child + i] == elems[i]
    {
      RangeAt(child, |elems|, i);
      assert child + i in RangeSet(child, |elems|);
    }
    assert idx !in after;
    NodeForHolds(mem', data, reserved', idx, t, off, child, elems, after);
    FillHole(mem, mem', data, reserved, reserved', 0, v, before, idx, w, added, after);
  }

  lemma AdvanceDistinct(s: State, t: State, data: seq<byte>, child: nat)
    requires Advance(s, t, data, child)
    ensures var idx := s.levels[|s.levels| - 1].child;
            var p := Pending(TakeTop(s.levels));
            Distinct([idx] + p) && idx !in p
  {
    hide Stepped, PoolOk, Pending;
    TakeTopPending(s.levels);
    HeadNotInTail(s.levels[|s.levels| - 1].child, Pending(TakeTop(s.levels)));
  }

  /** What is ahead before a step, in terms of what is ahead after it. */
  lemma AdvanceAhead(s: State, t: State, data: seq<byte>, child: nat)
    requires Advance(s, t, data, child) && t.error == Ok
    ensures t.pos <= |data| && s.pos <= |data| && Header(Window(s.(levels := TakeTop(s.levels)), data)).Some?
    ensures var s1 := s.(levels := TakeTop(s.levels));
            var h := Header(Window(s1, data)).value;
            var off := s.pos + h.size;
            var m := Objects(Window(s1, data));
            && off + PayloadBytes(h.tag) == t.pos && m <= SumLeft(t.levels)
            && (Ahead(s, data).Some? <==> Ahead(t, data).Some?)
            && (Ahead(t, data).Some? ==>
                 var r := Ahead(t, data).value;
                 Ahead(s, data) == Some(DecodedSeq(
                   [Build(h.tag, data[off..t.pos], r.values[..m])] + r.values[m..], t.pos - s.pos + r.size)))
  {
    hide Header, Pending, SumLeft, NodeFor, PoolOk, DecodeSeq, Build, Grow, Grown, RangeSet, StackOk;
    AdvanceWindow(s, t, data, child);
    AdvancePending(s, t, data, child);
    var rest, n := data[s.pos..], SumLeft(s.levels);
    StepAccepts(rest, n);
    var h := Header(rest[..|rest| - (n - 1)]).value;
    var body := h.size + PayloadBytes(h.tag);
    assert rest[body..] == data[t.pos..];
    assert rest == data[s.pos..|data|];
    SubSlice(data, s.pos, |data|, h.size, body);
  }

  /** Every successful step keeps the parser in line with the grammar. */
  lemma AdvanceTracks(s: State, t: State, data: seq<byte>, child: nat)
    requires Advance(s, t, data, child) && t.error == Ok && Tracks(s, data)
    ensures Tracks(t, data)
  {
    hide Header, Pending, SumLeft, NodeFor, PoolOk, Decode, DecodeSeq, Build, Holds, HolesOf, NodeCount, NodeCountSeq,
         Range, Window, Distinct, Stepped, RangeSet;
    AdvanceAhead(s, t, data, child);
    AdvanceWindow(s, t, data, child);
    AdvanceMemory(s, t, data, child);
    AdvancePending(s, t, data, child);
    AdvanceDistinct(s, t, data, child);
    AdvanceReserved(s, t, data, child);
    if Ahead(t, data).Some? {
      var s1 := s.(levels := TakeTop(s.levels));
      var idx := s.levels[|s.levels| - 1].child;
      var h := Header(Window(s1, data)).value;
      var off := s.pos + h.size;
      var m := Objects(Window(s1, data));
      var r := Ahead(t, data).value;
      var elems, vs := r.values[..m], r.values[m..];
      assert r.values == elems + vs;
      TreeAfterStep(s.pool.mem, t.pool.mem, data, s.pool.reserved, t.pool.reserved, Decode(data).value.value,
                    idx, child, Pending(s1.levels), h.tag, off, elems, vs);
      BuiltCount(h.tag, data[off..t.pos], elems, vs);
    }
  }

  lemma AdvanceReserved(s: State, t: State, data: seq<byte>, child: nat)
    requires Advance(s, t, data, child) && t.error == Ok
    ensures |t.pool.reserved| == |s.pool.reserved| + Objects(Window(s.(levels := TakeTop(s.levels)), data))
  {
    hide Header, Pending, SumLeft, NodeFor, PoolOk;
  }

  /** What the parser accepts: input whose front decodes to a value with enough nodes in the pool. */
  ghost predicate Accepts(data: seq<byte>, fixed: Option<nat>) {
    Decode(data).Some? && (fixed.Some? ==> NodeCount(Decode(data).value.value) <= fixed.value)
  }

  /** A step that fails does so only on input that is not acceptable. */
  lemma AdvanceFails(s: State, t: State, data: seq<byte>, child: nat)
    requires Advance(s, t, data, child) && t.error != Ok && Tracks(s, data)
    ensures !Accepts(data, s.pool.fixed)
  {
    hide Header, Pending, SumLeft, Decode, DecodeSeq, Build, Holds, HolesOf, NodeCount, NodeCountSeq;
    hide Grow, Distinct, RangeSet;
    AdvanceWindow(s, t, data, child);
    var rest, n := data[s.pos..], SumLeft(s.levels);
    var w := rest[..|rest| - (n - 1)];
    if !Fits(w) {
      StepRejects(rest, n);
    } else {
      StepAccepts(rest, n);
      GrowLaw(s.pool, Objects(w));
      if Ahead(s, data).Some? {
        var h := Header(w).value;
        var body := h.size + PayloadBytes(h.tag);
        var r := DecodeSeq(rest[body..], Objects(w) + (n - 1)).value.values;
        BuiltCount(h.tag, rest[h.size..body], r[..Objects(w)], r[Objects(w)..]);
        assert r == r[..Objects(w)] + r[Objects(w)..];
      }
    }
  }

  /** The state mpack_tree_parse sets up: the root is the one pending node. */
  function Start(data: seq<byte>, fixed: Option<nat>): State
    requires |data| > 0 && (fixed.Some? ==> fixed.value > 0)
  {
    var count := if fixed.Some? then fixed.value else NODES_PER_PAGE;
    State(Ok, 0, |data| - 1, [Level(0, 1)], Pool(fixed, seq(count, i => Unset), 1, count - 1, {0}))
  }

  lemma StartTracks(data: seq<byte>, fixed: Option<nat>)
    requires |data| > 0 && (fixed.Some? ==> fixed.value > 0)
    ensures Valid(Start(data, fixed), data) && Tracks(Start(data, fixed), data)
  {
    hide Decode, DecodeSeq, NodeCount;
    var s := Start(data, fixed);
    PendingTop([], Level(0, 1));
    assert [] + [Level(0, 1)] == s.levels;
    assert Range(0, 1) == [0];
    assert Pending(s.levels) == [0] && SumLeft(s.levels) == 1;
    assert data[0..] == data;
    DecodeSeqCons(data, 1);
    if Decode(data).Some? {
      var d := Decode(data).value;
      DecodeSeqNone(data[d.size..]);
      assert [d.value] + [] == [d.value];
      HolesCons(0, d.value, [], []);
      assert [0] + [] == [0];
      assert NodeCountSeq([d.value]) == NodeCount(d.value);
    }
  }

  /** No container yet. */
  lemma StartDisjoint(data: seq<byte>, fixed: Option<nat>)
    requires |data| > 0 && (fixed.Some? ==> fixed.value > 0)
    ensures DisjointChildren(Start(data, fixed).pool.mem, Start(data, fixed).pool.reserved)
  {
    UnsetRange();
  }

  /** Once nothing is pending, the parse is the grammar's. */
  lemma FinishTracks(s: State, data: seq<byte>)
    requires Valid(s, data) && Tracks(s, data) && SumLeft(s.levels) == 0
    ensures Accepts(data, s.pool.fixed)
    ensures var d := Decode(data).value;
            d.size == s.pos == |data| - s.possible && |s.pool.reserved| == NodeCount(d.value)
            && Holds(s.pool.mem, data, s.pool.reserved, 0, d.value, map[])
    ensures |s.pool.reserved| <= |data|
    ensures s.pool.fixed.None? ==> 7 * |s.pool.mem| <= 8 * |data| + 7 * NODES_PER_PAGE
  {
    hide Decode, Holds, NodeCount;
    DecodeSeqNone(data[s.pos..]);
    assert Pending(s.levels) == [];
  }

  /** The next node is in memory, and its first byte is in the data. */
  lemma TopNode(s: State, data: seq<byte>)
    requires Valid(s, data) && s.levels[|s.levels| - 1].left > 0
    ensures s.levels[|s.levels| - 1].child < |s.pool.mem| && s.pos + 1 + s.possible <= |data|
  {
    hide Pending, SumLeft;
    TakeTopPending(s.levels);
    assert s.levels[|s.levels| - 1].child in Pending(s.levels);
  }

  /** Every step consumes input. */
  lemma AdvanceMoves(s: State, t: State, data: seq<byte>, child: nat)
    requires Advance(s, t, data, child) && t.error == Ok
    ensures t.pos > s.pos
  {
    hide Header, Pending, SumLeft, PoolOk;
  }

  /** An empty level can be dropped; dropping the last one ends the parse. */
  lemma PopEmpty(s: State, data: seq<byte>)
    requires Valid(s, data) && Tracks(s, data) && s.levels[|s.levels| - 1].left == 0
    ensures var t := s.(levels := s.levels[..|s.levels| - 1]);
            if |s.levels| == 1 then SumLeft(s.levels) == 0 else Valid(t, data) && Tracks(t, data)
  {
    hide Decode, DecodeSeq, Holds, HolesOf, PoolOk, Pending;
    var top, bottom := s.levels[|s.levels| - 1], s.levels[..|s.levels| - 1];
    assert s.levels == bottom + [top];
    PendingTop(bottom, top);
    assert Range(top.child, 0) == [];
    assert [] + Pending(bottom) == Pending(bottom);
  }
}
