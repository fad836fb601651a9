/** mpack's tree parser: a loop over an explicit stack of open containers, a byte budget, and a paged
    pool of nodes. */
module TreeParser {
  import opened Bytes
  import opened Format
  import opened Grammar
  import opened NodeTree
  import opened ParseStep
  import opened ParserState
  import opened ParserProof
  import opened Wrappers

  class Parser {
    const data: seq<byte>
    const fixed: Option<nat>

    var error: Error
    var pos: nat
    var possible: nat
    var mem: seq<Node>
    var next: nat
    var nodesLeft: nat
    var stack: array<Level>
    var level: nat
    ghost var reserved: set<nat>

    /** The bytes the message took, once parsed. */
    var size: nat

    ghost function PoolView(): Pool
      reads this
    {
      Pool(fixed, mem, next, nodesLeft, reserved)
    }

    ghost function View(): State
      requires level < stack.Length
      reads this, stack
    {
      State(error, pos, possible, stack[..level + 1], PoolView())
    }

    method FlagError(e: Error)
      requires e != Ok
      modifies this`error
      ensures error == if old(error) == Ok then e else old(error)
    {
      if error == Ok { error := e; }
    }

    /** mpack_tree_u8 to mpack_tree_u64. */
    method TreeU(width: nat) returns (v: nat)
      requires pos + possible <= |data|
      modifies this`pos, this`possible, this`error
      ensures pos + possible == old(pos + possible) && v < Pow256(width)
      ensures old(possible) >= width ==>
                error == old(error) && pos == old(pos) + width && v == Load(data[old(pos)..pos])
      ensures old(possible) < width ==> error != Ok && pos == old(pos) && v == 0
    {
      if possible < width {
        FlagError(Invalid);
        return 0;
      }
      v := Load(data[pos..pos + width]);
      pos := pos + width;
      possible := possible - width;
    }

    /** mpack_tree_parse_bytes; `node` is the str, bin or ext node being completed. */
    method ParseBytes(idx: nat, node: Node, len: nat)
      requires idx < |mem| && pos + possible <= |data|
      modifies this`pos, this`possible, this`error, this`mem
      ensures old(error) != Ok ==> error == old(error)
      ensures old(error) == Ok ==> (error == Ok <==> len <= old(possible))
      ensures error == Ok ==>
                pos == old(pos) + len && possible == old(possible) - len && mem == old(mem)[idx := node]
    {
      if len > possible {
        FlagError(Invalid);
        return;
      }
      mem := mem[idx := node];
      pos := pos + len;
      possible := possible - len;
    }

    /** The storage part of mpack_tree_parse_children. */
    method Allocate(total: nat) returns (child: nat, ok: bool)
      modifies this`error, this`mem, this`next, this`nodesLeft, this`reserved
      ensures ok <==> Grow(old(PoolView()), total).Some?
      ensures ok ==> error == old(error) && Grow(old(PoolView()), total).value == (PoolView(), child)
      ensures !ok ==> error != Ok
    {
      child, ok := next, true;
      if total <= nodesLeft {
        next := next + total;
        nodesLeft := nodesLeft - total;
      } else if fixed.Some? {
        FlagError(TooBig);
        return child, false;
      } else if total > NODES_PER_PAGE || nodesLeft > NODES_PER_PAGE / 8 {
        child := |mem|;
        mem := mem + seq(total, i => Unset);
      } else {
        child := |mem|;
        mem := mem + seq(NODES_PER_PAGE, i => Unset);
        next := child + total;
        nodesLeft := NODES_PER_PAGE - total;
      }
      reserved := reserved + RangeSet(child, total);
    }

    /** mpack_tree_push_stack. */
    method PushStack(first: nat, total: nat)
      requires level < stack.Length
      modifies this`stack, this`level, stack
      ensures level < stack.Length && (stack == old(stack) || fresh(stack))
      ensures stack[..level + 1] == old(stack[..level + 1]) + if total == 0 then [] else [Level(first, total)]
    {
      if total == 0 { return; }
      if level + 1 == stack.Length {
        var bigger := new Level[2 * stack.Length](i => Level(0, 0));
        forall i | 0 <= i < stack.Length { bigger[i] := stack[i]; }
        stack := bigger;
      }
      level := level + 1;
      stack[level] := Level(first, total);
    }

    /** The state before the type byte of a node was read, if it has just been. */
    ghost function Before(): State
      requires level < stack.Length && pos >= 1
      reads this, stack
    {
      View().(pos := pos - 1)
    }

    ghost predicate Ready(idx: nat)
      reads this, stack
    {
      error == Ok && 1 <= pos && pos + possible <= |data| && level < stack.Length && PoolOk(PoolView()) && idx < |mem|
    }

    /** Storage for the children of node `idx`, and the node. */
    method AttachChildren(idx: nat, isMap: bool, len: u32, total: nat) returns (first: nat, ok: bool)
      requires idx < |mem| && PoolOk(PoolView())
      modifies this`error, this`mem, this`next, this`nodesLeft, this`reserved
      ensures var g := Grow(old(PoolView()), total);
              && (ok <==> g.Some?)
              && (ok ==> && error == old(error) && |old(mem)| <= |g.value.0.mem| && g.value.1 == first
                         && var node := if isMap then MapNode(len, first) else ArrayNode(len, first);
                            PoolView() == g.value.0.(mem := g.value.0.mem[idx := node]))
      ensures !ok ==> error != Ok
    {
      hide Grow, PoolOk, RangeSet;
      GrowLaw(PoolView(), total);
      first, ok := Allocate(total);
      if ok { mem := mem[idx := if isMap then MapNode(len, first) else ArrayNode(len, first)]; }
    }

    /** mpack_tree_parse_children. The header announced `len` elements or pairs, unless reading it
        flagged an error, in which case `len` is zero. */
    method ParseChildren(idx: nat, isMap: bool, len: u32, ghost s: State) returns (ghost child: nat)
      requires idx < |mem| && level < stack.Length && s.pos + 1 + s.possible <= |data| && PoolOk(s.pool)
      requires s.pos <= pos && s.pool == PoolView() && s.levels == stack[..level + 1]
      requires var w := Window(s, data);
               if error == Ok
               then && Header(w) == Some(Head(if isMap then Map(len) else Array(len), pos - s.pos))
                    && possible == |w| - (pos - s.pos)
               else !Fits(w)
      modifies this`error, this`possible, this`mem, this`next, this`nodesLeft, this`reserved
      modifies this`stack, this`level, stack
      ensures level < stack.Length && (stack == old(stack) || fresh(stack))
      ensures Stepped(s, View(), data, idx, child)
    {
      hide Header, Window, PoolOk, Grow, Fits, Objects, PayloadBytes, Stepped, RangeSet;
      ghost var w := Window(s, data);
      var total := if isMap then 2 * len else len;
      if error == Ok { ContainerFits(w, isMap, len, pos - s.pos); }
      child := 0;
      if total > possible {
        FlagError(Invalid);
        SteppedFails(s, View(), data, idx, child);
        return;
      }
      possible := possible - total;
      var first, ok := AttachChildren(idx, isMap, len, total);
      if !ok {
        SteppedFails(s, View(), data, idx, child);
        return;
      }
      child := first;
      PushStack(first, total);
      if error == Ok {
        SteppedContainer(s, View(), data, idx, if isMap then MapNode(len, first) else ArrayNode(len, first));
      } else {
        SteppedFails(s, View(), data, idx, child);
      }
    }

    /** A number of fixed width: the uint, int, float and double cases. */
    method NumberNode(idx: nat, l: Layout)
      requires Ready(idx) && l == LayoutOf(data[pos - 1])
      requires l.Unsigned_? || l.Signed_? || l.Float32? || l.Float64?
      modifies this`pos, this`possible, this`error, this`mem
      ensures Stepped(old(Before()), View(), data, idx, 0)
    {
      hide LayoutOf, Load, PoolOk, Stepped, NumberTag, Pow256;
      ghost var s := Before();
      var v := TreeU(Extra(l));
      var t := NumberTag(l, v);
      mem := mem[idx := Leaf(t)];
      NumberStepped(s, View(), data, idx, l, v);
    }

    /** A str or bin with a length field. */
    method SizedBytes(idx: nat, isStr: bool, width: nat)
      requires Ready(idx) && width in {1, 2, 4}
      requires LayoutOf(data[pos - 1]) == Sized(if isStr then StrKind else BinKind, width)
      modifies this`pos, this`possible, this`error, this`mem
      ensures Stepped(old(Before()), View(), data, idx, 0)
    {
      hide LayoutOf, Load, PoolOk, Stepped, Pow256;
      ghost var s := Before();
      var len := TreeU(width);
      var node := if isStr then StrNode(len, pos) else BinNode(len, pos);
      ParseBytes(idx, node, len);
      SizedStepped(s, View(), data, idx, isStr, width, len);
    }

    /** An ext: the length (a field of `width` bytes, or `count`), then the type byte, which is
        skipped and stays in the data just before the payload. */
    method ExtBytes(idx: nat, width: nat, count: u32)
      requires Ready(idx) && width in {0, 1, 2, 4}
      requires LayoutOf(data[pos - 1]) == if width == 0 then FixExt(count) else SizedExt(width)
      modifies this`pos, this`possible, this`error, this`mem
      ensures Stepped(old(Before()), View(), data, idx, 0)
    {
      hide LayoutOf, Load, PoolOk, Stepped, Pow256;
      ghost var s := Before();
      var len: nat := count;
      if width != 0 { len := TreeU(width); }
      var _ := TreeU(1);
      var node := ExtNode(len, pos);
      ParseBytes(idx, node, len);
      ExtStepped(s, View(), data, idx, width, count);
    }

    /** An array or map with a length field. */
    method SizedChildren(idx: nat, isMap: bool, width: nat) returns (ghost child: nat)
      requires Ready(idx) && width in {2, 4}
      requires LayoutOf(data[pos - 1]) == Sized(if isMap then MapKind else ArrayKind, width)
      modifies this, stack
      ensures level < stack.Length && (stack == old(stack) || fresh(stack))
      ensures Stepped(old(Before()), View(), data, idx, child)
    {
      hide LayoutOf, Load, Header, PoolOk, Stepped, Grow;
      SizedWindow(data, pos - 1, pos + possible, if isMap then MapKind else ArrayKind, width);
      Widths();
      ghost var s := Before();
      var len := TreeU(width);
      child := ParseChildren(idx, isMap, len, s);
    }

    /** nil, a bool, or an integer in the type byte itself. */
    method LeafNode(idx: nat, t: Tag)
      requires Ready(idx) && LayoutOf(data[pos - 1]) == Whole(t) && (t.Nil? || t.Bool? || t.UInt? || t.Int?)
      modifies this`mem
      ensures Stepped(old(Before()), View(), data, idx, 0)
    {
      hide LayoutOf, Header, PoolOk, Stepped, Grow;
      WindowHeader(data, pos - 1, pos + possible, Whole(t));
      mem := mem[idx := Leaf(t)];
      SteppedFlat(old(Before()), View(), data, idx, Leaf(t));
    }

    method FixStr(idx: nat, len: u32)
      requires Ready(idx) && LayoutOf(data[pos - 1]) == Whole(Str(len))
      modifies this`pos, this`possible, this`error, this`mem
      ensures Stepped(old(Before()), View(), data, idx, 0)
    {
      hide LayoutOf, Header, PoolOk, Stepped, Grow;
      WindowHeader(data, pos - 1, pos + possible, Whole(Str(len)));
      var node := StrNode(len, pos);
      ParseBytes(idx, node, len);
      SteppedFlat(old(Before()), View(), data, idx, node);
    }

    method FixChildren(idx: nat, isMap: bool, len: u32) returns (ghost child: nat)
      requires Ready(idx) && LayoutOf(data[pos - 1]) == Whole(if isMap then Map(len) else Array(len))
      modifies this, stack
      ensures level < stack.Length && (stack == old(stack) || fresh(stack))
      ensures Stepped(old(Before()), View(), data, idx, child)
    {
      hide LayoutOf, Header, PoolOk, Stepped, Grow;
      WindowHeader(data, pos - 1, pos + possible, LayoutOf(data[pos - 1]));
      child := ParseChildren(idx, isMap, len, Before());
    }

    /** The uint, int, float and double cases. */
    method NumberCases(idx: nat, b: byte)
      requires Ready(idx) && b == data[pos - 1] && 0xca <= b <= 0xd3
      modifies this`pos, this`possible, this`error, this`mem
      ensures Stepped(old(Before()), View(), data, idx, 0)
    {
      hide Header, PoolOk, Stepped, Grow, Window;
      match b
      case 0xca => NumberNode(idx, Float32);
      case 0xcb => NumberNode(idx, Float64);
      case 0xcc => NumberNode(idx, Unsigned_(1));
      case 0xcd => NumberNode(idx, Unsigned_(2));
      case 0xce => NumberNode(idx, Unsigned_(4));
      case 0xcf => NumberNode(idx, Unsigned_(8));
      case 0xd0 => NumberNode(idx, Signed_(1));
      case 0xd1 => NumberNode(idx, Signed_(2));
      case 0xd2 => NumberNode(idx, Signed_(4));
      case _ => NumberNode(idx, Signed_(8));
    }

    /** The ext cases. */
    method ExtCases(idx: nat, b: byte)
      requires Ready(idx) && b == data[pos - 1] && (0xc7 <= b <= 0xc9 || 0xd4 <= b <= 0xd8)
      modifies this`pos, this`possible, this`error, this`mem
      ensures Stepped(old(Before()), View(), data, idx, 0)
    {
      hide Header, PoolOk, Stepped, Grow, Window;
      match b
      case 0xc7 => ExtBytes(idx, 1, 0);
      case 0xc8 => ExtBytes(idx, 2, 0);
      case 0xc9 => ExtBytes(idx, 4, 0);
      case 0xd4 => ExtBytes(idx, 0, 1);
      case 0xd5 => ExtBytes(idx, 0, 2);
      case 0xd6 => ExtBytes(idx, 0, 4);
      case 0xd7 => ExtBytes(idx, 0, 8);
      case _ => ExtBytes(idx, 0, 16);
    }

    /** mpack_tree_parse_node. */
    method ParseNode(idx: nat) returns (ghost child: nat)
      requires error == Ok && pos + 1 + possible <= |data| && level < stack.Length && PoolOk(PoolView()) && idx < |mem|
      modifies this, stack
      ensures level < stack.Length && (stack == old(stack) || fresh(stack))
      ensures Stepped(old(View()), View(), data, idx, child)
    {
      hide Header, PoolOk, Stepped, Grow, Window;
      var b := data[pos];
      pos := pos + 1;
      child := 0;
      assert Before() == old(View());
      if b <= 0x7f { LeafNode(idx, UInt(b)); }
      else if b >= 0xe0 { LeafNode(idx, Int(b as int - 0x100)); }
      else if b <= 0x8f { child := FixChildren(idx, true, b - 0x80); }
      else if b <= 0x9f { child := FixChildren(idx, false, b - 0x90); }
      else if b <= 0xbf { FixStr(idx, b - 0xa0); }
      else if 0xca <= b <= 0xd3 { NumberCases(idx, b); }
      else if 0xc7 <= b <= 0xc9 || 0xd4 <= b <= 0xd8 { ExtCases(idx, b); }
      else {
        match b
        case 0xc0 => LeafNode(idx, Nil);
        case 0xc1 => FlagError(Invalid);
        case 0xc2 => LeafNode(idx, Bool(false));
        case 0xc3 => LeafNode(idx, Bool(true));
        case 0xc4 => SizedBytes(idx, false, 1);
        case 0xc5 => SizedBytes(idx, false, 2);
        case 0xc6 => SizedBytes(idx, false, 4);
        case 0xd9 => SizedBytes(idx, true, 1);
        case 0xda => SizedBytes(idx, true, 2);
        case 0xdb => SizedBytes(idx, true, 4);
        case 0xdc => child := SizedChildren(idx, false, 2);
        case 0xdd => child := SizedChildren(idx, false, 4);
        case 0xde => child := SizedChildren(idx, true, 2);
        case _ => child := SizedChildren(idx, true, 4);
      }
      if b == 0xc1 { ReservedByte(old(View()), View(), data, idx); }
    }

    /** The inner loop of mpack_tree_parse_elements: drop empty levels; `done` when none is left. */
    method PopLevels() returns (done: bool)
      requires level < stack.Length && Valid(View(), data) && Tracks(View(), data)
      modifies this`level
      ensures level < stack.Length && Valid(View(), data) && Tracks(View(), data)
      ensures if done then SumLeft(View().levels) == 0 else stack[level].left > 0
    {
      hide Pending, SumLeft, PoolOk, Valid, Tracks;
      while stack[level].left == 0
        invariant level < stack.Length && Valid(View(), data) && Tracks(View(), data)
        decreases level
      {
        ghost var s := View();
        PopEmpty(s, data);
        if level == 0 { return true; }
        level := level - 1;
        assert View() == s.(levels := s.levels[..|s.levels| - 1]);
      }
      done := false;
    }

    /** One turn of the outer loop: take the next node off the stack and parse it. */
    method ParseNext() returns (ghost child: nat)
      requires level < stack.Length && Valid(View(), data) && stack[level].left > 0
      modifies this, stack
      ensures level < stack.Length && (stack == old(stack) || fresh(stack))
      ensures Advance(old(View()), View(), data, child)
    {
      hide Pending, SumLeft, PoolOk, Stepped, StackOk;
      ghost var s := View();
      var node := stack[level].child;
      TopNode(s, data);
      stack[level] := Level(node + 1, stack[level].left - 1);
      assert View() == s.(levels := TakeTop(s.levels));
      child := ParseNode(node);
    }

    /** mpack_tree_parse_elements. */
    method ParseElements()
      requires level < stack.Length && Valid(View(), data) && Tracks(View(), data) && stack[level].left > 0
      requires DisjointChildren(mem, reserved)
      modifies this, stack
      ensures level < stack.Length && (stack == old(stack) || fresh(stack))
      ensures if error == Ok then Valid(View(), data) && Tracks(View(), data) && SumLeft(View().levels) == 0
              else !Accepts(data, fixed)
      ensures error == Ok ==> DisjointChildren(mem, reserved)
    {
      hide Pending, SumLeft, Tracks, Accepts, Advance, PoolOk, StackOk, DisjointChildren;
      while true
        invariant level < stack.Length && (stack == old(stack) || fresh(stack))
        invariant Valid(View(), data) && Tracks(View(), data) && stack[level].left > 0
        invariant DisjointChildren(mem, reserved)
        decreases |data| - pos
      {
        ghost var s := View();
        ghost var child := ParseNext();
        if error != Ok {
          AdvanceFails(s, View(), data, child);
          break;
        }
        AdvanceTracks(s, View(), data, child);
        AdvanceChildren(s, View(), data, child);
        AdvanceValid(s, View(), data, child);
        AdvanceMoves(s, View(), data, child);
        var done := PopLevels();
        if done { return; }
      }
    }

    /** What the parser promises once it has ended. */
    ghost predicate Parsed()
      reads this
    {
      && (error == Ok <==> Accepts(data, fixed))
      && (error == Ok ==>
            && size == Decode(data).value.size
            && Holds(mem, data, reserved, 0, Decode(data).value.value, map[])
            && |reserved| == NodeCount(Decode(data).value.value) <= |data|
            && DisjointChildren(mem, reserved)
            && (fixed.None? ==> 7 * |mem| <= 8 * |data| + 7 * NODES_PER_PAGE))
    }

    /** mpack_tree_parse, of a message that is not empty with memory for its first node. */
    method ParseTree()
      requires level < stack.Length && |data| > 0 && (fixed.Some? ==> fixed.value > 0) && View() == Start(data, fixed)
      modifies this, stack
      ensures Parsed()
    {
      hide Accepts, Valid, Tracks, Holds, NodeCount, Decode, PoolOk;
      StartTracks(data, fixed);
      StartDisjoint(data, fixed);
      ParseElements();
      if error == Ok {
        FinishTracks(View(), data);
        size := |data| - possible;
      }
    }

    /** mpack_tree_init and mpack_tree_init_pool, for a pool of `fixed` nodes. */
    constructor (data: seq<byte>, fixed: Option<nat>)
      ensures this.data == data && this.fixed == fixed
      ensures error == Ok <==> Accepts(data, fixed)
      ensures error == Ok ==>
                && size == Decode(data).value.size
                && Holds(mem, data, reserved, 0, Decode(data).value.value, map[])
                && |reserved| == NodeCount(Decode(data).value.value) <= |data|
                && DisjointChildren(mem, reserved)
                && (fixed.None? ==> 7 * |mem| <= 8 * |data| + 7 * NODES_PER_PAGE)
    {
      this.data := data;
      this.fixed := fixed;
      error := Ok;
      pos, size := 0, 0;
      possible := |data|;
      var count := if fixed.Some? then fixed.value else NODES_PER_PAGE;
      mem := seq(count, i => Unset);
      next := 1;
      nodesLeft := if count == 0 then 0 else count - 1;
      stack := new Level[8](i => Level(0, 1));
      level := 0;
      reserved := {0};
      new;
      hide Holds, NodeCount, DisjointChildren;
      if |data| == 0 {
        error := Invalid;
        return;
      }
      if count == 0 {
        error := Bug;
        return;
      }
      hide Decode;
      possible := possible - 1;
      ParseTree();
    }
  }
}
