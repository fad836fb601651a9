/** rpc_query_set on objects whose containers are not shared: what it promises, and how sharing, cycles
    and empty tokens break it. */
module QueryTree {
  import opened Bytes
  import opened Wrappers
  import opened Paths
  import opened QuerySet

  /** Where a list of slots leads. */
  function Walk(h: Heap, r: Ref, slots: seq<Slot>): Option<Ref>
    decreases |slots|
  {
    if slots == [] then Some(r)
    else if r !in h.cells || Lookup(h.cells[r], slots[0]).None? then None
    else Walk(h, Lookup(h.cells[r], slots[0]).value, slots[1..])
  }

  predicate LeadsToContainer(h: Heap, r: Option<Ref>) {
    r.Some? && r.value in h.cells && !h.cells[r.value].LeafCell?
  }

  /** No container can be reached from `root` in two ways. Other objects may be shared. */
  ghost predicate Tree(h: Heap, root: Ref) {
    forall a, b :: Walk(h, root, a) == Walk(h, root, b) && LeadsToContainer(h, Walk(h, root, a)) ==> a == b
  }

  /** The slots a path that resolves goes through. */
  function SlotPath(h: Heap, r: Ref, tokens: seq<Text>): (slots: seq<Slot>)
    requires Resolve(h, r, tokens).Some?
    ensures |slots| == |tokens|
    decreases |tokens|
  {
    if tokens == [] then []
    else
      var s := GetSlot(h.cells[r], tokens[0]).value;
      [s] + SlotPath(h, Lookup(h.cells[r], s).value, tokens[1..])
  }

  /** The slots a set goes through, up to the first one it changes. */
  function SetSlots(h: Heap, r: Ref, tokens: seq<Text>): (slots: seq<Slot>)
    requires tokens != [] && Set(h, r, tokens, NULL_REF).Some?
    ensures |slots| == |Passed(h, r, tokens)| + 1
    decreases |tokens|
  {
    var s := SetSlot(h.cells[r], tokens[0]).value;
    if |tokens| == 1 || Lookup(h.cells[r], s).None? then [s]
    else [s] + SetSlots(h, Lookup(h.cells[r], s).value, tokens[1..])
  }

  /** Whether a set fails does not depend on the value. */
  lemma {:induction false} AnyValue(h: Heap, r: Ref, tokens: seq<Text>, v: Ref, w: Ref)
    requires tokens != []
    ensures Set(h, r, tokens, v).Some? <==> Set(h, r, tokens, w).Some?
    decreases |tokens|
  {
    hide SetSlot, Lookup, Put, Fit;
    if |tokens| > 1 && r in h.cells && SetSlot(h.cells[r], tokens[0]).Some? {
      var s := SetSlot(h.cells[r], tokens[0]).value;
      match Lookup(h.cells[r], s)
      case Some(child) => AnyValue(h, child, tokens[1..], v, w);
      case None => AnyValue(Grow(h, r, s, tokens[1]), h.next, tokens[1..], v, w);
    }
  }

  /** The path of a set leads to the containers it passes, and then to the place it changes. */
  lemma {:induction false} SetSlotsWalk(h: Heap, r: Ref, tokens: seq<Text>, i: nat)
    requires tokens != [] && Set(h, r, tokens, NULL_REF).Some? && i < |SetSlots(h, r, tokens)|
    ensures var (slots, passed) := (SetSlots(h, r, tokens), Passed(h, r, tokens));
            && Walk(h, r, slots[..i]) == Some(if i < |passed| then passed[i] else Place(h, r, tokens).0)
            && slots[|passed|] == Place(h, r, tokens).1
    decreases |tokens|
  {
    hide SetSlot, Lookup, Put, Fit;
    var s := SetSlot(h.cells[r], tokens[0]).value;
    var slots := SetSlots(h, r, tokens);
    if |tokens| > 1 && Lookup(h.cells[r], s).Some? {
      var child := Lookup(h.cells[r], s).value;
      SetSlotsWalk(h, child, tokens[1..], if i == 0 then 0 else i - 1);
      if i > 0 { assert slots[..i][1..] == slots[1..][..i - 1] == SetSlots(h, child, tokens[1..])[..i - 1]; }
    }
  }

  /** A set that crosses a slot of a container passes the container. */
  lemma {:induction false} CrossesPassed(h: Heap, r: Ref, tokens: seq<Text>, f: Ref, k: Slot)
    requires tokens != [] && Crosses(h, r, tokens, f, k)
    ensures f in Passed(h, r, tokens)
    decreases |tokens|
  {
    hide SetSlot, Lookup;
    var s := SetSlot(h.cells[r], tokens[0]).value;
    if !(r == f && s == k) { CrossesPassed(h, Lookup(h.cells[r], s).value, tokens[1..], f, k); }
  }

  /** In a tree a set does not come back to a container it passed. */
  lemma NoReturn(h: Heap, root: Ref, tokens: seq<Text>, v: Ref)
    requires Tree(h, root) && Valid(h) && root in h.cells && tokens != [] && Set(h, root, tokens, v).Some?
    ensures Place(h, root, tokens).0 !in Passed(h, root, tokens) && !Returns(h, root, tokens)
  {
    hide Valid, Set, Place, Passed, SetSlots, Walk, Crosses;
    AnyValue(h, root, tokens, v, NULL_REF);
    var (slots, passed, place) := (SetSlots(h, root, tokens), Passed(h, root, tokens), Place(h, root, tokens));
    SetFrame(h, root, tokens, NULL_REF);
    SetSlotsWalk(h, root, tokens, |passed|);
    forall i | 0 <= i < |passed| ensures passed[i] != place.0 {
      SetSlotsWalk(h, root, tokens, i);
      assert slots[..i] != slots[..|passed|] by { assert |slots[..i]| == i; }
    }
    if Crosses(h, root, tokens, place.0, place.1) {
      CrossesPassed(h, root, tokens, place.0, place.1);
      assert false;
    }
  }

  /** Where a path reads a slot. */
  lemma {:induction false} ReadsAt(h: Heap, r: Ref, q: seq<Text>, f: Ref, s: Slot) returns (j: nat)
    requires Resolve(h, r, q).Some? && Reads(h, r, q, f, s)
    ensures j < |q| && Walk(h, r, SlotPath(h, r, q)[..j]) == Some(f) && SlotPath(h, r, q)[j] == s
    decreases |q|
  {
    hide GetSlot, Lookup;
    var slot := GetSlot(h.cells[r], q[0]).value;
    var path := SlotPath(h, r, q);
    if r == f && slot == s { return 0; }
    var child := Lookup(h.cells[r], slot).value;
    var k := ReadsAt(h, child, q[1..], f, s);
    j := k + 1;
    assert path[..j][1..] == path[1..][..k] == SlotPath(h, child, q[1..])[..k];
  }

  /** If the changed slot was occupied, the path of the set resolved, through the same slots. */
  lemma {:induction false} OccupiedPlace(h: Heap, r: Ref, p: seq<Text>)
    requires p != [] && Set(h, r, p, NULL_REF).Some? && forall t :: t in p ==> Plain(t)
    requires Place(h, r, p).0 in h.cells && Lookup(h.cells[Place(h, r, p).0], Place(h, r, p).1).Some?
    ensures Resolve(h, r, p).Some? && SlotPath(h, r, p) == SetSlots(h, r, p)
    decreases |p|
  {
    hide SetSlot, GetSlot, Lookup, Put, Fit, Plain;
    SlotsAgree(h.cells[r], p[0]);
    var s := SetSlot(h.cells[r], p[0]).value;
    if |p| > 1 && Lookup(h.cells[r], s).Some? {
      OccupiedPlace(h, Lookup(h.cells[r], s).value, p[1..]);
    }
  }

  /** The promise of rpc_query_set in a tree, for tokens that are numbers only if unsigned and below 2^31:
      the path then resolves to the value; and every path that resolved before resolves to the same object,
      unless it goes through all the slots of the path that was set. */
  lemma SetKeepsOtherPaths(h: Heap, root: Ref, p: seq<Text>, v: Ref, q: seq<Text>)
    requires Valid(h) && Tree(h, root) && root in h.cells && p != [] && Set(h, root, p, v).Some?
    requires forall t :: t in p ==> Plain(t)
    ensures Resolve(Set(h, root, p, v).value, root, p) == Some(v)
    ensures Resolve(h, root, q).Some? &&
            !(Resolve(h, root, p).Some? && SlotPath(h, root, p) <= SlotPath(h, root, q)) ==>
              Resolve(Set(h, root, p, v).value, root, q) == Resolve(h, root, q)
  {
    hide Plain, Valid, Set, Place, Passed, SetSlots, SlotPath, Walk, Resolve, Reads, Returns;
    NoReturn(h, root, p, v);
    GetAfterSet(h, root, p, v);
    SetFrame(h, root, p, v);
    var place := Place(h, root, p);
    if Resolve(h, root, q).Some? {
      if Reads(h, root, q, place.0, place.1) {
        ReadsExtends(h, root, p, v, q);
      } else {
        OtherPaths(h, Set(h, root, p, v).value, place, root, q);
      }
    }
  }

  /** In a tree, a path that resolves and reads the changed slot goes through the slots of the set. */
  lemma ReadsExtends(h: Heap, root: Ref, p: seq<Text>, v: Ref, q: seq<Text>)
    requires Valid(h) && Tree(h, root) && root in h.cells && p != [] && Set(h, root, p, v).Some?
    requires forall t :: t in p ==> Plain(t)
    requires Resolve(h, root, q).Some? && Reads(h, root, q, Place(h, root, p).0, Place(h, root, p).1)
    ensures Resolve(h, root, p).Some? && SlotPath(h, root, p) <= SlotPath(h, root, q)
  {
    hide Plain, Valid, Set, Place, Passed, SetSlots, SlotPath, Walk, Resolve, Reads;
    var place := Place(h, root, p);
    AnyValue(h, root, p, v, NULL_REF);
    SetFrame(h, root, p, NULL_REF);
    var j := ReadsAt(h, root, q, place.0, place.1);
    var path := SlotPath(h, root, q);
    ResolvedSlot(h, root, q, j);
    OccupiedPlace(h, root, p);
    var n := |Passed(h, root, p)|;
    SetSlotsWalk(h, root, p, n);
    var slots := SetSlots(h, root, p);
    assert slots[..n] == path[..j];
    assert slots == slots[..n] + [place.1];
    assert path[..j + 1] == path[..j] + [place.1];
  }

  /** Every slot of a path that resolves is occupied. */
  lemma {:induction false} ResolvedSlot(h: Heap, r: Ref, q: seq<Text>, j: nat)
    requires Resolve(h, r, q).Some? && j < |q|
    ensures var path := SlotPath(h, r, q);
            && Walk(h, r, path[..j]).Some?
            && Walk(h, r, path[..j]).value in h.cells
            && Lookup(h.cells[Walk(h, r, path[..j]).value], path[j]).Some?
    decreases |q|
  {
    hide GetSlot, Lookup;
    var path := SlotPath(h, r, q);
    if j > 0 {
      var child := Lookup(h.cells[r], path[0]).value;
      ResolvedSlot(h, child, q[1..], j - 1);
      assert path[..j][1..] == path[1..][..j - 1] == SlotPath(h, child, q[1..])[..j - 1];
    }
  }

  /** The same for dotted paths without empty tokens: what is set at a path is what is got there, and every
      other path that was resolved and does not extend it still resolves to the same object. */
  lemma SetThenGet(h: Heap, root: Ref, path: Text, v: Ref, other: Text)
    requires Valid(h) && Tree(h, root) && root in h.cells
    requires Set(h, root, Split(path), v).Some? && forall t :: t in Split(path) ==> t != [] && Plain(t)
    ensures var (g, p, q) := (Set(h, root, Split(path), v).value, Tokens(path), Tokens(other));
            && Resolve(g, root, p) == Some(v)
            && (Resolve(h, root, q).Some? &&
                !(Resolve(h, root, p).Some? && SlotPath(h, root, p) <= SlotPath(h, root, q)) ==>
                  Resolve(g, root, q) == Resolve(h, root, q))
  {
    hide Plain, Valid, Tree, Set, Split, Resolve, SlotPath;
    NonEmptyAll(Split(path));
    SetKeepsOtherPaths(h, root, Split(path), v, Tokens(other));
  }

  /** With an empty token it is not: a..b is set through a key that is empty, and got without it. */
  lemma EmptyToken()
    ensures var h := Heap(map[0 := LeafCell, 1 := DictCell(map[])], 2);
            var path := [0x61, DOT, DOT, 0x62];
            var g := Set(h, 1, Split(path), 0);
            Valid(h) && g.Some? && Resolve(g.value, 1, Tokens(path)) != Some(0)
  {
    hide Set, Resolve, Split, NonEmpty;
    EmptyTokenSplit();
    EmptyTokenSet();
  }

  lemma EmptyTokenSet()
    ensures var h := Heap(map[0 := LeafCell, 1 := DictCell(map[])], 2);
            var g := Set(h, 1, [[0x61], [], [0x62]], 0);
            Valid(h) && g.Some? && Resolve(g.value, 1, [[0x61], [0x62]]).None?
  {
    var h := Heap(map[0 := LeafCell, 1 := DictCell(map[])], 2);
    var tokens := [[0x61], [], [0x62]];
    assert tokens[1..] == [[], [0x62]];
    assert Strtoull([]).None?;
    var h1 := Grow(h, 1, Key([0x61]), []);
    var g := EmptyTokenRest(h1);
    assert Set(h, 1, tokens, 0) == Some(g);
    EmptyTokenGet(g);
  }

  lemma EmptyTokenRest(h: Heap) returns (g: Heap)
    requires h == Heap(map[0 := LeafCell, 1 := DictCell(map[[0x61] := 2]), 2 := DictCell(map[])], 3)
    ensures Set(h, 2, [[], [0x62]], 0) == Some(g)
    ensures 1 in g.cells && g.cells[1] == h.cells[1] && 2 in g.cells && g.cells[2] == DictCell(map[[] := 3])
  {
    assert [[], [0x62]][1..] == [[0x62]] && Strtoull([0x62]).None?;
    var h2 := Grow(h, 2, Key([]), [0x62]);
    g := PutAt(h2, 3, Key([0x62]), 0);
    assert Set(h2, 3, [[0x62]], 0) == Some(g);
  }

  lemma EmptyTokenGet(g: Heap)
    requires 1 in g.cells && g.cells[1] == DictCell(map[[0x61] := 2])
    requires 2 in g.cells && g.cells[2] == DictCell(map[[] := 3])
    ensures Resolve(g, 1, [[0x61], [0x62]]).None?
  {
    assert [[0x61], [0x62]][1..] == [[0x62]];
    assert Resolve(g, 2, [[0x62]]).None?;
  }

  /** With a dictionary that is in two places, a path that is not related to the one set changes. */
  lemma SharedContainer()
    ensures var h := Heap(map[0 := LeafCell, 1 := DictCell(map[[0x61] := 2, [0x62] := 2]),
                              2 := DictCell(map[[0x63] := 0]), 3 := LeafCell], 4);
            var g := Set(h, 1, [[0x61], [0x63]], 3);
            && Valid(h) && g.Some?
            && Resolve(h, 1, [[0x62], [0x63]]) == Some(0)
            && Resolve(g.value, 1, [[0x62], [0x63]]) == Some(3)
  {
    var h := Heap(map[0 := LeafCell, 1 := DictCell(map[[0x61] := 2, [0x62] := 2]),
                      2 := DictCell(map[[0x63] := 0]), 3 := LeafCell], 4);
    var g := PutAt(h, 2, Key([0x63]), 3);
    assert [[0x61], [0x63]][1..] == [[0x63]] && [[0x63]][1..] == [];
    assert Set(h, 2, [[0x63]], 3) == Some(g);
    SharedGet(h, 0);
    SharedGet(g, 3);
  }

  lemma SharedGet(h: Heap, v: Ref)
    requires 1 in h.cells && h.cells[1] == DictCell(map[[0x61] := 2, [0x62] := 2]) && v in h.cells
    requires 2 in h.cells && h.cells[2] == DictCell(map[[0x63] := v])
    ensures Resolve(h, 1, [[0x62], [0x63]]) == Some(v)
  {
    var bc := [[0x62], [0x63]];
    assert bc[1..] == [[0x63]] && [[0x63]][1..] == [];
    assert Resolve(h, 2, [[0x63]]) == Some(v);
  }

  /** With a dictionary that contains itself, not even the path that was set gives the value. */
  lemma Cycle()
    ensures var h := Heap(map[0 := LeafCell, 1 := DictCell(map[[0x61] := 1])], 2);
            var g := Set(h, 1, [[0x61], [0x61]], 0);
            Valid(h) && g.Some? && Resolve(g.value, 1, [[0x61], [0x61]]).None?
  {
    var h := Heap(map[0 := LeafCell, 1 := DictCell(map[[0x61] := 1])], 2);
    var aa := [[0x61], [0x61]];
    assert aa[1..] == [[0x61]];
    assert Set(h, 1, [[0x61]], 0) == Some(PutAt(h, 1, Key([0x61]), 0));
    assert Resolve(PutAt(h, 1, Key([0x61]), 0), 0, [[0x61]]).None?;
  }
}
