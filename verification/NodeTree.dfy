/** The node memory a parsed tree lives in, and what it means for it to hold a value. */
module NodeTree {
  import opened Bytes
  import opened Format
  import opened Grammar

  /** mpack_node_data_t. Node pointers are positions in the memory handed out so far. An ext node
      does not keep its type: it is the byte just before its data. */
  datatype Node =
    | Unset
    | Leaf(tag: Tag)
    | StrNode(len: nat, off: nat)
    | BinNode(len: nat, off: nat)
    | ExtNode(len: nat, off: nat)
    | ArrayNode(len: nat, child: nat)
    | MapNode(len: nat, child: nat)

  /** One level of the parse stack: the next child to parse and how many are left. */
  datatype Level = Level(child: nat, left: nat)

  function SumLeft(levels: seq<Level>): nat {
    if levels == [] then 0 else levels[|levels| - 1].left + SumLeft(levels[..|levels| - 1])
  }

  function Range(first: nat, n: nat): (r: seq<nat>)
    ensures |r| == n
    ensures forall k :: k in r <==> first <= k < first + n
    decreases n
  {
    if n == 0 then [] else [first] + Range(first + 1, n - 1)
  }

  lemma {:induction false} RangeAt(first: nat, n: nat, i: nat)
    requires i < n
    ensures Range(first, n)[i] == first + i
    decreases n
  {
    if i > 0 { RangeAt(first + 1, n - 1, i - 1); }
  }

  lemma RangeCons(first: nat, n: nat, p: seq<nat>)
    requires n > 0
    ensures Range(first, n) + p == [first] + (Range(first + 1, n - 1) + p)
  {
    assert Range(first, n) == [first] + Range(first + 1, n - 1);
  }

  lemma {:induction false} RangeDistinct(first: nat, n: nat)
    ensures Distinct(Range(first, n))
    decreases n
  {
    if n > 0 {
      RangeDistinct(first + 1, n - 1);
      var r := Range(first, n);
      forall i, j | 0 <= i < j < n ensures r[i] != r[j] {
        assert r[j] in Range(first + 1, n - 1);
      }
    }
  }

  function RangeSet(first: nat, n: nat): set<nat> {
    set k | k in Range(first, n)
  }

  lemma {:induction false} RangeSetSize(first: nat, n: nat)
    ensures |RangeSet(first, n)| == n
    decreases n
  {
    if n == 0 {
      assert RangeSet(first, n) == {};
    } else {
      RangeSetSize(first + 1, n - 1);
      assert RangeSet(first, n) == {first} + RangeSet(first + 1, n - 1);
    }
  }

  /** The nodes still to be parsed, in the order their bytes appear. */
  function Pending(levels: seq<Level>): (r: seq<nat>)
    ensures |r| == SumLeft(levels)
  {
    if levels == [] then []
    else
      var top := levels[|levels| - 1];
      Range(top.child, top.left) + Pending(levels[..|levels| - 1])
  }

  lemma PendingTop(levels: seq<Level>, top: Level)
    ensures Pending(levels + [top]) == Range(top.child, top.left) + Pending(levels)
    ensures SumLeft(levels + [top]) == top.left + SumLeft(levels)
  {
    var more := levels + [top];
    assert more[..|more| - 1] == levels;
  }

  predicate Distinct(s: seq<nat>) {
    forall i, j :: 0 <= i < j < |s| ==> s[i] != s[j]
  }

  /** Opening a container puts its children in front of everything pending. */
  lemma PendingPush(levels: seq<Level>, first: nat, total: nat)
    requires Distinct(Pending(levels))
    requires forall k :: k in Pending(levels) ==> k !in RangeSet(first, total)
    ensures Pending(levels + [Level(first, total)]) == Range(first, total) + Pending(levels)
    ensures Distinct(Range(first, total) + Pending(levels))
  {
    hide Pending;
    PendingTop(levels, Level(first, total));
    RangeDistinct(first, total);
    var r, p := Range(first, total), Pending(levels);
    forall i, j | 0 <= i < j < |r + p|
      ensures (r + p)[i] != (r + p)[j]
    {
      if i < |r| <= j { assert p[j - |r|] in p && r[i] in RangeSet(first, total); }
    }
  }

  /** Values still missing from the tree, by node. */
  type Holes = map<nat, Value>

  function HolesOf(nodes: seq<nat>, values: seq<Value>): (h: Holes)
    requires |nodes| == |values|
    ensures forall k :: k in h <==> k in nodes
  {
    if nodes == [] then map[] else HolesOf(nodes[1..], values[1..])[nodes[0] := values[0]]
  }

  lemma {:induction false} HoleAt(nodes: seq<nat>, values: seq<Value>, i: nat)
    requires |nodes| == |values| && Distinct(nodes) && i < |nodes|
    ensures HolesOf(nodes, values)[nodes[i]] == values[i]
  {
    if i > 0 { HoleAt(nodes[1..], values[1..], i - 1); }
  }

  lemma HolesCons(n: nat, v: Value, ns: seq<nat>, vs: seq<Value>)
    requires |ns| == |vs|
    ensures HolesOf([n] + ns, [v] + vs) == HolesOf(ns, vs)[n := v]
  {
    assert ([n] + ns)[1..] == ns && ([v] + vs)[1..] == vs;
  }

  lemma {:induction false} HolesAppend(n1: seq<nat>, v1: seq<Value>, n2: seq<nat>, v2: seq<Value>)
    requires |n1| == |v1| && |n2| == |v2|
    ensures HolesOf(n1 + n2, v1 + v2) == HolesOf(n2, v2) + HolesOf(n1, v1)
    decreases |n1|
  {
    hide HolesOf;
    if n1 == [] {
      assert n1 + n2 == n2 && v1 + v2 == v2;
      assert HolesOf(n1, v1) == map[];
    } else {
      var n, ns, v, vs := n1[0], n1[1..], v1[0], v1[1..];
      HolesAppend(ns, vs, n2, v2);
      HolesCons(n, v, ns + n2, vs + v2);
      HolesCons(n, v, ns, vs);
      assert n1 == [n] + ns && v1 == [v] + vs;
      assert n1 + n2 == [n] + (ns + n2) && v1 + v2 == [v] + (vs + v2);
      UpdateRight(HolesOf(n2, v2), HolesOf(ns, vs), n, v);
    }
  }

  lemma UpdateRight(a: Holes, b: Holes, n: nat, v: Value)
    ensures (a + b)[n := v] == a + b[n := v]
  {
  }

  /** The node alone, without its children, fits the value. */
  ghost predicate Shape(node: Node, data: seq<byte>, v: Value) {
    match node
    case Unset => false
    case Leaf(t) => v == Scalar(t)
    case StrNode(len, off) => v.StrOf? && off + len <= |data| && v.bytes == data[off..off + len]
    case BinNode(len, off) => v.BinOf? && off + len <= |data| && v.bytes == data[off..off + len]
    case ExtNode(len, off) =>
      && v.ExtOf? && 1 <= off && off + len <= |data| && v.bytes == data[off..off + len]
      && Pow256(1) == 0x100 && v.exttype == Signed(data[off - 1], 1)
    case ArrayNode(len, _) => v.ArrayOf? && |v.elems| == len
    case MapNode(len, _) => v.MapOf? && |v.elems| == 2 * len
  }

  /** Node `idx` of `mem` holds `v` once every hole holds its value. Every node reached has been
      reserved for the tree. */
  ghost predicate Holds(mem: seq<Node>, data: seq<byte>, reserved: set<nat>, idx: nat, v: Value, holes: Holes)
    decreases v
  {
    && idx in reserved && idx < |mem|
    && if idx in holes then holes[idx] == v
       else
         && Shape(mem[idx], data, v)
         && (v.ArrayOf? || v.MapOf? ==>
              forall i :: 0 <= i < |v.elems| ==> Holds(mem, data, reserved, mem[idx].child + i, v.elems[i], holes))
  }

  /** The nodes from `child` on are holes for `elems`. */
  ghost predicate ChildHoles(mem: seq<Node>, reserved: set<nat>, holes: Holes, child: nat, elems: seq<Value>) {
    && child + |elems| <= |mem|
    && forall i :: 0 <= i < |elems| ==> child + i in reserved && child + i in holes && holes[child + i] == elems[i]
  }

  lemma ChildrenHold(mem: seq<Node>, data: seq<byte>, reserved: set<nat>, holes: Holes, child: nat, elems: seq<Value>)
    requires ChildHoles(mem, reserved, holes, child, elems)
    ensures forall i :: 0 <= i < |elems| ==> Holds(mem, data, reserved, child + i, elems[i], holes)
  {
  }

  /** Parsing one node fills its hole and may open holes at nodes that were not reserved before;
      the tree above it still holds its value. */
  lemma {:induction false} FillHole(mem: seq<Node>, mem': seq<Node>, data: seq<byte>,
                                    reserved: set<nat>, reserved': set<nat>,
                 idx: nat, v: Value, holes: Holes, h: nat, w: Value, added: Holes, holes': Holes)
    requires Holds(mem, data, reserved, idx, v, holes)
    requires h in holes && holes[h] == w
    requires |mem| <= |mem'| && reserved <= reserved'
    requires forall k :: k in reserved && k != h && k < |mem| ==> mem'[k] == mem[k]
    requires added.Keys !! reserved && holes' == (holes - {h}) + added
    requires Holds(mem', data, reserved', h, w, holes')
    ensures Holds(mem', data, reserved', idx, v, holes')
    decreases v
  {
    if idx != h && idx !in holes && (v.ArrayOf? || v.MapOf?) {
      forall i | 0 <= i < |v.elems|
        ensures Holds(mem', data, reserved', mem[idx].child + i, v.elems[i], holes')
      {
        FillHole(mem, mem', data, reserved, reserved', mem[idx].child + i, v.elems[i], holes, h, w, added, holes');
      }
    }
  }

  /** How many nodes a value needs. */
  function NodeCount(v: Value): (n: nat)
    ensures n >= 1
    decreases v, 0
  {
    if v.ArrayOf? || v.MapOf? then 1 + NodeCountSeq(v.elems) else 1
  }

  function NodeCountSeq(vs: seq<Value>): (n: nat)
    ensures n >= |vs|
    decreases vs, 1, |vs|
  {
    if vs == [] then 0 else NodeCount(vs[0]) + NodeCountSeq(vs[1..])
  }

  lemma {:induction false} NodeCountAppend(a: seq<Value>, b: seq<Value>)
    ensures NodeCountSeq(a + b) == NodeCountSeq(a) + NodeCountSeq(b)
  {
    if a == [] { assert a + b == b; }
    else {
      NodeCountAppend(a[1..], b);
      assert (a + b)[1..] == a[1..] + b;
    }
  }

  /** The nodes of a container's children. */
  function ChildRange(node: Node): set<nat> {
    match node
    case ArrayNode(n, child) => RangeSet(child, n)
    case MapNode(n, child) => RangeSet(child, 2 * n)
    case _ => {}
  }

  /** Children are reserved, and no two containers share a child. */
  ghost predicate DisjointChildren(mem: seq<Node>, reserved: set<nat>) {
    && (forall i :: 0 <= i < |mem| ==> ChildRange(mem[i]) <= reserved)
    && (forall i, j :: 0 <= i < j < |mem| ==> ChildRange(mem[i]) !! ChildRange(mem[j]))
  }

  /** A node written with children that were not reserved before, in memory that grew by unused nodes. */
  lemma DisjointStep(mem: seq<Node>, grown: seq<Node>, reserved: set<nat>, added: set<nat>, idx: nat, node: Node)
    requires DisjointChildren(mem, reserved) && mem <= grown && idx < |grown| && added !! reserved
    requires (forall k :: |mem| <= k < |grown| ==> grown[k] == Unset) && ChildRange(node) <= added
    ensures DisjointChildren(grown[idx := node], reserved + added)
  {
    hide ChildRange;
    assert ChildRange(Unset) == {} by { UnsetRange(); }
    var after := grown[idx := node];
    forall i | 0 <= i < |after| ensures i != idx ==> ChildRange(after[i]) <= reserved {
      if i != idx && i < |mem| { assert after[i] == mem[i]; }
    }
    forall i, j | 0 <= i < j < |after| ensures ChildRange(after[i]) !! ChildRange(after[j]) {
      if i != idx && j != idx && j < |mem| { assert after[i] == mem[i] && after[j] == mem[j]; }
    }
  }

  lemma UnsetRange()
    ensures ChildRange(Unset) == {}
  {
  }
}
