/** The state of mpack's tree parser as a value, its invariant, and what one step does to it. */
module ParserState {
  import opened Bytes
  import opened Format
  import opened Grammar
  import opened NodeTree
  import opened ParseStep
  import opened Wrappers

  /** (4096 - sizeof(page)) / sizeof(node) + 1, with 16-byte nodes and a 24-byte page header. */
  const NODES_PER_PAGE: nat := 255

  datatype Error = Ok | Invalid | TooBig | Bug

  /** The node pool. `fixed` is None when further pages may be allocated, else the size of the
      caller's pool. `mem` is all node memory handed out so far, `next` and `nodesLeft` the unused
      rest of the current page, `reserved` the nodes that belong to the tree, parsed or pending. */
  datatype Pool = Pool(fixed: Option<nat>, mem: seq<Node>, next: nat, nodesLeft: nat, reserved: set<nat>)

  /** `possible` counts the bytes left that are not set aside for a pending node. */
  datatype State = State(error: Error, pos: nat, possible: nat, levels: seq<Level>, pool: Pool)

  /** Reserved nodes are in memory and outside the unused rest of the page. The last line bounds the
      memory wasted at page ends: every page given up early is at least seven eighths full. */
  ghost predicate PoolOk(p: Pool) {
    && p.next + p.nodesLeft <= |p.mem|
    && (forall k :: k in p.reserved ==> k < |p.mem| && !(p.next <= k < p.next + p.nodesLeft))
    && (p.fixed.Some? ==> p.nodesLeft + |p.reserved| == p.fixed.value)
    && (p.fixed.None? ==>
         && p.nodesLeft <= NODES_PER_PAGE <= |p.mem|
         && 7 * (|p.mem| - NODES_PER_PAGE) + 8 * (NODES_PER_PAGE - p.nodesLeft) <= 8 * |p.reserved|)
  }

  /** Where the next `total` adjacent nodes come from, if there is memory for them. */
  function Grow(p: Pool, total: nat): (r: Option<(Pool, nat)>)
  {
    var taken := (child: nat) => p.reserved + RangeSet(child, total);
    if total <= p.nodesLeft then
      Some((p.(next := p.next + total, nodesLeft := p.nodesLeft - total, reserved := taken(p.next)), p.next))
    else if p.fixed.Some? then None
    else
      var child := |p.mem|;
      if total > NODES_PER_PAGE || p.nodesLeft > NODES_PER_PAGE / 8 then
        Some((p.(mem := p.mem + seq(total, i => Unset), reserved := taken(child)), child))
      else
        Some((p.(mem := p.mem + seq(NODES_PER_PAGE, i => Unset), next := child + total,
                 nodesLeft := NODES_PER_PAGE - total, reserved := taken(child)), child))
  }

  /** `total` adjacent nodes starting at `child`, none of them reserved before, joined the tree. */
  ghost predicate Grown(p: Pool, q: Pool, child: nat, total: nat) {
    && PoolOk(q) && p.mem <= q.mem && q.fixed == p.fixed && child + total <= |q.mem|
    && (forall k :: |p.mem| <= k < |q.mem| ==> q.mem[k] == Unset)
    && RangeSet(child, total) !! p.reserved
    && q.reserved == p.reserved + RangeSet(child, total) && |q.reserved| == |p.reserved| + total
  }

  /** Only a fixed pool runs out. Otherwise the nodes are new to the tree, memory grows by unused nodes, and the
      memory bound is kept. */
  lemma GrowLaw(p: Pool, total: nat)
    requires PoolOk(p)
    ensures Grow(p, total).Some? <==> p.fixed.None? || total <= p.nodesLeft
    ensures Grow(p, total).Some? ==> Grown(p, Grow(p, total).value.0, Grow(p, total).value.1, total)
  {
    hide RangeSet, PoolOk;
    if total <= p.nodesLeft {
      GrowInPage(p, total);
    } else if p.fixed.None? {
      if total > NODES_PER_PAGE || p.nodesLeft > NODES_PER_PAGE / 8 {
        GrowOwnPage(p, total);
      } else {
        GrowNewPage(p, total);
      }
    }
  }

  /** A range of nodes that are not reserved, added to the reserved ones. */
  lemma NewRange(reserved: set<nat>, child: nat, total: nat)
    requires forall k :: k in reserved ==> !(child <= k < child + total)
    ensures RangeSet(child, total) !! reserved
    ensures |reserved + RangeSet(child, total)| == |reserved| + total
    ensures forall k :: k in RangeSet(child, total) ==> child <= k < child + total
  {
    hide Range;
    RangeSetSize(child, total);
    assert forall k :: k in RangeSet(child, total) ==> child <= k < child + total;
    assert RangeSet(child, total) !! reserved;
  }

  lemma GrowInPage(p: Pool, total: nat)
    requires PoolOk(p) && total <= p.nodesLeft
    ensures Grown(p, Grow(p, total).value.0, Grow(p, total).value.1, total)
  {
    hide RangeSet;
    NewRange(p.reserved, p.next, total);
  }

  lemma GrowOwnPage(p: Pool, total: nat)
    requires PoolOk(p) && total > p.nodesLeft && p.fixed.None?
    requires total > NODES_PER_PAGE || p.nodesLeft > NODES_PER_PAGE / 8
    ensures Grown(p, Grow(p, total).value.0, Grow(p, total).value.1, total)
  {
    hide RangeSet;
    NewRange(p.reserved, |p.mem|, total);
  }

  lemma GrowNewPage(p: Pool, total: nat)
    requires PoolOk(p) && p.nodesLeft < total <= NODES_PER_PAGE && p.nodesLeft <= NODES_PER_PAGE / 8 && p.fixed.None?
    ensures Grown(p, Grow(p, total).value.0, Grow(p, total).value.1, total)
  {
    hide RangeSet;
    NewRange(p.reserved, |p.mem|, total);
  }

  ghost predicate StackOk(s: State) {
    && s.levels != []
    && Distinct(Pending(s.levels))
    && forall k :: k in Pending(s.levels) ==> k in s.pool.reserved
  }

  /** Bytes consumed, bytes set aside and bytes free add up to the input; the tree never has more
      nodes than the input has bytes. */
  ghost predicate Valid(s: State, data: seq<byte>) {
    && s.error == Ok && PoolOk(s.pool) && StackOk(s)
    && s.pos + s.possible + SumLeft(s.levels) == |data|
    && |s.pool.reserved| <= s.pos + SumLeft(s.levels)
  }

  /** The part of the data the next node may use: its first byte, which is set aside for it, and
      everything not set aside for others. */
  function Window(s: State, data: seq<byte>): seq<byte>
    requires s.pos + 1 + s.possible <= |data|
  {
    data[s.pos..s.pos + 1 + s.possible]
  }

  function Objects(w: seq<byte>): nat {
    if Header(w).Some? then PayloadObjects(Header(w).value.tag) else 0
  }

  /** The node the parser writes for header `t` whose payload starts at `off`, or whose children
      start at `child`. */
  ghost predicate NodeFor(node: Node, t: Tag, off: nat, child: nat) {
    match t
    case Str(n) => node == StrNode(n, off)
    case Bin(n) => node == BinNode(n, off)
    case Ext(_, n) => node == ExtNode(n, off)
    case Array(n) => node == ArrayNode(n, child)
    case Map(n) => node == MapNode(n, child)
    case _ => node == Leaf(t)
  }

  lemma ShapeBuilt(node: Node, data: seq<byte>, t: Tag, off: nat, child: nat, elems: seq<Value>)
    requires NodeFor(node, t, off, child) && off + PayloadBytes(t) <= |data| && |elems| == PayloadObjects(t)
    requires t.Ext? ==> off >= 1 && Pow256(1) == 0x100 && t.exttype == Signed(data[off - 1], 1)
    ensures var v := Build(t, data[off..off + PayloadBytes(t)], elems);
            && Shape(node, data, v)
            && (v.ArrayOf? || v.MapOf? ==>
                  (node.ArrayNode? || node.MapNode?) && node.child == child && v.elems == elems)
  {
  }

  /** A node written for header `t`, with its children as holes, holds the value the grammar builds. */
  lemma NodeForHolds(mem: seq<Node>, data: seq<byte>, reserved: set<nat>, idx: nat, t: Tag, off: nat, child: nat,
                     elems: seq<Value>, holes: Holes)
    requires idx in reserved && idx < |mem| && idx !in holes && NodeFor(mem[idx], t, off, child)
    requires off + PayloadBytes(t) <= |data| && |elems| == PayloadObjects(t)
    requires t.Ext? ==> off >= 1 && Pow256(1) == 0x100 && t.exttype == Signed(data[off - 1], 1)
    requires ChildHoles(mem, reserved, holes, child, elems)
    ensures Holds(mem, data, reserved, idx, Build(t, data[off..off + PayloadBytes(t)], elems), holes)
  {
    hide ChildHoles, Shape, Build, NodeFor, PayloadBytes, PayloadObjects;
    ShapeBuilt(mem[idx], data, t, off, child, elems);
    ChildrenHold(mem, data, reserved, holes, child, elems);
  }

  /** What parsing node `idx` does: fails unless the window fits and there is memory for the
      children; otherwise writes the node, reserves its children and puts them on the stack. */
  ghost predicate Stepped(s: State, t: State, data: seq<byte>, idx: nat, child: nat)
    requires s.pos + 1 + s.possible <= |data| && idx < |s.pool.mem|
  {
    var w := Window(s, data);
    && (t.error == Ok <==> Fits(w) && Grow(s.pool, Objects(w)).Some?)
    && (t.error == Ok ==>
         var h := Header(w).value;
         var m := Objects(w);
         && t.pos == s.pos + h.size + PayloadBytes(h.tag)
         && t.possible == |w| - h.size - PayloadBytes(h.tag) - m
         && t.levels == s.levels + (if m == 0 then [] else [Level(child, m)])
         && idx < |t.pool.mem| && NodeFor(t.pool.mem[idx], h.tag, s.pos + h.size, child)
         && Grown(s.pool, t.pool.(mem := t.pool.mem[idx := s.pool.mem[idx]]), child, m))
  }

  /** The number of layout `l` with the bits `v`. */
  function NumberTag(l: Layout, v: nat): Tag
    requires l.Unsigned_? || l.Signed_? || l.Float32? || l.Float64?
    requires v < Pow256(Extra(l)) && Extra(l) in {1, 2, 4, 8}
  {
    Widths();
    if l.Unsigned_? then UInt(v)
    else if l.Signed_? then Int(Signed(v, l.width))
    else if l.Float32? then Float(v)
    else Double(v)
  }

  /** A window that starts with the type byte of a number fits exactly if it has the bytes of the number. */
  lemma NumberWindow(s: State, data: seq<byte>, l: Layout)
    requires s.pos + 1 + s.possible <= |data| && l == LayoutOf(data[s.pos])
    requires l.Unsigned_? || l.Signed_? || l.Float32? || l.Float64?
    ensures Extra(l) in {1, 2, 4, 8}
    ensures var w := Window(s, data);
            && |w| == 1 + s.possible && Objects(w) == 0 && (Fits(w) <==> s.possible >= Extra(l))
            && (Fits(w) ==>
                 var p := data[s.pos + 1..s.pos + 1 + Extra(l)];
                 && Load(p) < Pow256(Extra(l))
                 && Header(w) == Some(Head(NumberTag(l, Load(p)), 1 + Extra(l)))
                 && PayloadBytes(Header(w).value.tag) == 0)
  {
    hide LayoutOf, Load, Header;
    Widths();
    WindowHeader(data, s.pos, s.pos + 1 + s.possible, l);
  }

  /** A step without children. */
  lemma SteppedFlat(s: State, t: State, data: seq<byte>, idx: nat, node: Node)
    requires PoolOk(s.pool) && idx < |s.pool.mem| && s.pos + 1 + s.possible <= |data|
    requires var w := Window(s, data);
             && Objects(w) == 0 && (t.error == Ok <==> Fits(w))
             && (t.error == Ok ==>
                  var h := Header(w).value;
                  && NodeFor(node, h.tag, s.pos + h.size, 0)
                  && t == State(Ok, s.pos + h.size + PayloadBytes(h.tag), |w| - h.size - PayloadBytes(h.tag),
                                s.levels, s.pool.(mem := s.pool.mem[idx := node])))
    ensures Stepped(s, t, data, idx, 0)
  {
    hide Header, Fits, Window;
    assert RangeSet(0, 0) == {};
    if t.error == Ok { assert t.pool.mem[idx := s.pool.mem[idx]] == s.pool.mem; }
  }

  /** A step that fails. */
  lemma SteppedFails(s: State, t: State, data: seq<byte>, idx: nat, child: nat)
    requires s.pos + 1 + s.possible <= |data| && idx < |s.pool.mem| && t.error != Ok
    requires var w := Window(s, data); !Fits(w) || Grow(s.pool, Objects(w)).None?
    ensures Stepped(s, t, data, idx, child)
  {
    hide Header, Fits, Window, Grow;
  }

  /** The reserved type byte. */
  lemma ReservedByte(s: State, t: State, data: seq<byte>, idx: nat)
    requires s.pos + 1 + s.possible <= |data| && idx < |s.pool.mem| && data[s.pos] == 0xc1 && t.error != Ok
    ensures Stepped(s, t, data, idx, 0)
  {
    SteppedFails(s, t, data, idx, 0);
  }

  lemma ContainerFits(w: seq<byte>, isMap: bool, n: u32, size: nat)
    requires Header(w) == Some(Head(if isMap then Map(n) else Array(n), size))
    ensures Objects(w) == (if isMap then 2 * n else n) && PayloadBytes(Header(w).value.tag) == 0
    ensures Fits(w) <==> size + Objects(w) <= |w|
  {
    hide Header;
  }

  /** A step with children: memory was taken, the node written and the children pushed. */
  lemma SteppedContainer(s: State, t: State, data: seq<byte>, idx: nat, node: Node)
    requires PoolOk(s.pool) && idx < |s.pool.mem| && s.pos + 1 + s.possible <= |data|
    requires var w := Window(s, data);
             var g := Grow(s.pool, Objects(w));
             && Fits(w) && PayloadBytes(Header(w).value.tag) == 0 && g.Some?
             && var h := Header(w).value;
             && NodeFor(node, h.tag, s.pos + h.size, g.value.1)
             && |s.pool.mem| <= |g.value.0.mem|
             && t == State(Ok, s.pos + h.size, |w| - h.size - Objects(w),
                           s.levels + (if Objects(w) == 0 then [] else [Level(g.value.1, Objects(w))]),
                           g.value.0.(mem := g.value.0.mem[idx := node]))
    ensures Stepped(s, t, data, idx, Grow(s.pool, Objects(Window(s, data))).value.1)
  {
    hide Header, Window, Grow, PoolOk;
    var w := Window(s, data);
    GrowLaw(s.pool, Objects(w));
    var (q, child) := Grow(s.pool, Objects(w)).value;
    assert t.pool.mem[idx := s.pool.mem[idx]] == q.mem;
    assert t.pool.(mem := t.pool.mem[idx := s.pool.mem[idx]]) == q;
  }

  /** The number cases: too short a window fails, otherwise the node is the number. */
  lemma NumberStepped(s: State, t: State, data: seq<byte>, idx: nat, l: Layout, v: nat)
    requires PoolOk(s.pool) && idx < |s.pool.mem| && s.pos + 1 + s.possible <= |data| && l == LayoutOf(data[s.pos])
    requires (l.Unsigned_? || l.Signed_? || l.Float32? || l.Float64?) && v < Pow256(Extra(l))
    requires t.error == Ok <==> s.possible >= Extra(l)
    requires t.error == Ok ==>
               && v == Load(data[s.pos + 1..s.pos + 1 + Extra(l)])
               && t == State(Ok, s.pos + 1 + Extra(l), s.possible - Extra(l), s.levels,
                             s.pool.(mem := s.pool.mem[idx := Leaf(NumberTag(l, v))]))
    ensures Stepped(s, t, data, idx, 0)
  {
    hide LayoutOf, Load, Header, PoolOk, Stepped, Grow, Window, Fits, Objects;
    NumberWindow(s, data, l);
    SteppedFlat(s, t, data, idx, Leaf(NumberTag(l, v)));
  }

  /** A str or bin with a length field of `width` bytes. */
  lemma SizedStepped(s: State, t: State, data: seq<byte>, idx: nat, isStr: bool, width: nat, len: nat)
    requires PoolOk(s.pool) && idx < |s.pool.mem| && s.pos + 1 + s.possible <= |data| && width in {1, 2, 4}
    requires LayoutOf(data[s.pos]) == Sized(if isStr then StrKind else BinKind, width)
    requires if s.possible >= width then len == Load(data[s.pos + 1..s.pos + 1 + width]) else len == 0
    requires t.error == Ok <==> width + len <= s.possible
    requires var off := s.pos + 1 + width;
             t.error == Ok ==>
               t == State(Ok, off + len, s.possible - width - len, s.levels,
                          s.pool.(mem := s.pool.mem[idx := if isStr then StrNode(len, off) else BinNode(len, off)]))
    ensures Stepped(s, t, data, idx, 0)
  {
    hide LayoutOf, Load, Header, PoolOk, Stepped, Grow;
    SizedWindow(data, s.pos, s.pos + 1 + s.possible, if isStr then StrKind else BinKind, width);
    var off := s.pos + 1 + width;
    SteppedFlat(s, t, data, idx, if isStr then StrNode(len, off) else BinNode(len, off));
  }

  /** The length an ext announces, in a field of `width` bytes or in the type byte. */
  function ExtLength(s: State, data: seq<byte>, width: nat, count: u32): nat
    requires s.pos + 1 + s.possible <= |data|
  {
    if width == 0 then count
    else if s.possible < width then 0
    else Load(data[s.pos + 1..s.pos + 1 + width])
  }

  /** The ext cases: the type byte is skipped and stays in the data just before the payload. */
  lemma ExtStepped(s: State, t: State, data: seq<byte>, idx: nat, width: nat, count: u32)
    requires PoolOk(s.pool) && idx < |s.pool.mem| && s.pos + 1 + s.possible <= |data| && width in {0, 1, 2, 4}
    requires LayoutOf(data[s.pos]) == if width == 0 then FixExt(count) else SizedExt(width)
    requires var (len, off) := (ExtLength(s, data, width, count), s.pos + 2 + width);
             && (t.error == Ok <==> width + 1 + len <= s.possible)
             && (t.error == Ok ==>
                   t == State(Ok, off + len, s.possible - width - 1 - len, s.levels,
                              s.pool.(mem := s.pool.mem[idx := ExtNode(len, off)])))
    ensures Stepped(s, t, data, idx, 0)
  {
    hide LayoutOf, Load, Header, PoolOk, Stepped, Grow;
    var end := s.pos + 1 + s.possible;
    WindowHeader(data, s.pos, end, LayoutOf(data[s.pos]));
    Widths();
    if width != 0 && end >= s.pos + 2 + width { SubSlice(data, s.pos + 1, s.pos + 2 + width, 0, width); }
    SteppedFlat(s, t, data, idx, ExtNode(ExtLength(s, data, width, count), s.pos + 2 + width));
  }
}
