/** In a tree, exactly the paths without empty tokens give back what was set: a shorter path does not lead as
    deep as the value is. */
module QueryDepth {
  import opened Bytes
  import opened Wrappers
  import opened Paths
  import opened QuerySet
  import opened QueryTree

  /** What the containers of `g` refer to, after a set in `h` that made the containers from `h.next` on: what they
      did before, the null object, and along the set path the next container or, at its end, the value. */
  ghost predicate Linked(h: Heap, g: Heap, f: Ref, v: Ref) {
    && h.next <= g.next
    && (forall x :: x in g.cells ==> x in h.cells || h.next <= x < g.next)
    && (forall x, s :: x in h.cells && x in g.cells && Lookup(g.cells[x], s).Some? ==>
          var y := Lookup(g.cells[x], s).value;
          Lookup(h.cells[x], s) == Some(y) || y == NULL_REF || (x == f && y == if h.next == g.next then v else h.next))
    && (forall x, s :: h.next <= x < g.next && x in g.cells && Lookup(g.cells[x], s).Some? ==>
          var y := Lookup(g.cells[x], s).value; y == NULL_REF || y == if x + 1 == g.next then v else x + 1)
  }

  /** A container with one reference put into it. */
  lemma PutLinks(c: Cell, t: Text, s: Slot, w: Ref, slot: Slot)
    requires SetSlot(c, t) == Some(s) && Lookup(Put(c, s, w), slot).Some?
    ensures var y := Lookup(Put(c, s, w), slot).value; Lookup(c, slot) == Some(y) || y == NULL_REF || y == w
  {
    hide Strtoull;
  }

  lemma {:induction false} SetLinks(h: Heap, r: Ref, tokens: seq<Text>, v: Ref)
    requires Valid(h) && r in h.cells && tokens != [] && Set(h, r, tokens, v).Some?
    ensures var g := Set(h, r, tokens, v).value;
            && Linked(h, g, Place(h, r, tokens).0, v)
            && |Passed(h, r, tokens)| + 1 + (g.next - h.next) == |tokens|
    decreases |tokens|
  {
    hide Strtoull, Valid, Put, Lookup;
    var (c, t) := (h.cells[r], tokens[0]);
    var s := SetSlot(c, t).value;
    var g := Set(h, r, tokens, v).value;
    NextIsNew(h);
    Below(h);
    if |tokens| == 1 {
      PutLinked(h, r, t, s, v);
    } else if Lookup(c, s).Some? {
      LookupValid(h, r, s);
      SetLinks(h, Lookup(c, s).value, tokens[1..], v);
    } else {
      var h1 := Grow(h, r, s, tokens[1]);
      GrowValid(h, r, t, s, tokens[1]);
      NewPlace(h1, h.next, tokens[1..]);
      SetLinks(h1, h.next, tokens[1..], v);
      GrowLinked(h, r, t, s, tokens[1], g, v);
    }
  }

  lemma Below(h: Heap)
    requires Valid(h)
    ensures forall x :: x in h.cells ==> x < h.next
  {
  }

  lemma PutLinked(h: Heap, r: Ref, t: Text, s: Slot, v: Ref)
    requires Valid(h) && r in h.cells && SetSlot(h.cells[r], t) == Some(s)
    ensures Linked(h, PutAt(h, r, s, v), r, v)
  {
    hide Strtoull, Put, Lookup, SetSlot;
    var g := PutAt(h, r, s, v);
    forall slot | Lookup(g.cells[r], slot).Some?
      ensures var y := Lookup(g.cells[r], slot).value;
              Lookup(h.cells[r], slot) == Some(y) || y == NULL_REF || y == v
    {
      PutLinks(h.cells[r], t, s, v, slot);
    }
  }

  /** A set that makes a container and goes on in it. */
  lemma GrowLinked(h: Heap, r: Ref, t: Text, s: Slot, next: Text, g: Heap, v: Ref)
    requires Valid(h) && r in h.cells && SetSlot(h.cells[r], t) == Some(s)
    requires Linked(Grow(h, r, s, next), g, h.next, v)
    ensures Linked(h, g, r, v)
  {
    hide Strtoull, Put, SetSlot;
    var h1 := Grow(h, r, s, next);
    Below(h);
    forall x, slot | x in h.cells && x in g.cells && Lookup(g.cells[x], slot).Some?
      ensures var y := Lookup(g.cells[x], slot).value;
              Lookup(h.cells[x], slot) == Some(y) || y == NULL_REF || (x == r && y == h.next)
    {
      var y := Lookup(g.cells[x], slot).value;
      assert x in h1.cells && x != h.next;
      if x == r && Lookup(h1.cells[r], slot) == Some(y) { PutLinks(h.cells[r], t, s, h.next, slot); }
    }
    assert forall slot :: Lookup(h1.cells[h.next], slot).None?;
  }

  ghost predicate Reachable(h: Heap, root: Ref, y: Ref) {
    exists a :: Walk(h, root, a) == Some(y)
  }

  /** The way from `root` to `y`. */
  ghost function Way(h: Heap, root: Ref, y: Ref): (a: seq<Slot>)
    requires Reachable(h, root, y)
    ensures Walk(h, root, a) == Some(y)
  {
    var a :| Walk(h, root, a) == Some(y);
    a
  }

  function Min(a: nat, b: nat): nat {
    if a < b then a else b
  }

  /** A lower bound, up to `n`, for how far `y` is from `root` after a set that passes `p` containers: `n` for the
      value and for what could not be reached before. */
  ghost function Level(h: Heap, root: Ref, v: Ref, p: nat, n: nat, y: Ref): nat {
    if y == v then n
    else if y >= h.next then Min(p + 1 + (y - h.next), n)
    else if y in h.cells && h.cells[y].LeafCell? then 0
    else if Reachable(h, root, y) then Min(|Way(h, root, y)|, n)
    else n
  }

  /** In a tree, the level of a container is the length of any way to it. */
  lemma LevelOf(h: Heap, root: Ref, v: Ref, p: nat, n: nat, a: seq<Slot>, y: Ref)
    requires Tree(h, root) && Walk(h, root, a) == Some(y) && y in h.cells && y < h.next && y != v
    requires !h.cells[y].LeafCell?
    ensures Level(h, root, v, p, n, y) == Min(|a|, n)
  {
    hide Walk;
    assert Reachable(h, root, y);
    assert LeadsToContainer(h, Walk(h, root, a));
    assert Way(h, root, y) == a;
  }

  lemma {:induction false} WalkAppend(h: Heap, r: Ref, a: seq<Slot>, s: Slot)
    requires Walk(h, r, a).Some? && Walk(h, r, a).value in h.cells && Lookup(h.cells[Walk(h, r, a).value], s).Some?
    ensures Walk(h, r, a + [s]) == Lookup(h.cells[Walk(h, r, a).value], s)
    decreases |a|
  {
    hide Lookup;
    if a == [] {
      assert a + [s] == [s] && [s][1..] == [];
    } else {
      assert (a + [s])[1..] == a[1..] + [s];
      WalkAppend(h, Lookup(h.cells[r], a[0]).value, a[1..], s);
    }
  }

  /** The setting in which levels are compared. */
  ghost predicate Setting(h: Heap, root: Ref, tokens: seq<Text>, v: Ref) {
    && Valid(h) && Tree(h, root) && root in h.cells && tokens != [] && Set(h, root, tokens, v).Some?
    && v in h.cells && v != root && v != NULL_REF
    && forall r, s :: r in h.cells ==> Lookup(h.cells[r], s) != Some(v)
  }

  /** A reference that was there before leads at most one level down. */
  lemma OldEdge(h: Heap, root: Ref, tokens: seq<Text>, v: Ref, p: nat, x: Ref, s: Slot)
    requires Setting(h, root, tokens, v) && x in h.cells && Lookup(h.cells[x], s).Some? && x != v
    ensures var (n, y) := (|tokens|, Lookup(h.cells[x], s).value);
            Level(h, root, v, p, n, y) <= Level(h, root, v, p, n, x) + 1
  {
    hide Set, Walk, Lookup;
    var (n, y) := (|tokens|, Lookup(h.cells[x], s).value);
    LookupValid(h, x, s);
    LookupContainer(h.cells[x], s);
    Below(h);
    if !h.cells[y].LeafCell? && Reachable(h, root, x) {
      var a := Way(h, root, x);
      WalkAppend(h, root, a, s);
      LevelOf(h, root, v, p, n, a, x);
      LevelOf(h, root, v, p, n, a + [s], y);
    }
  }

  lemma LookupContainer(c: Cell, s: Slot)
    requires Lookup(c, s).Some?
    ensures !c.LeafCell?
  {
  }

  lemma LevelBound(h: Heap, root: Ref, v: Ref, p: nat, n: nat, y: Ref)
    ensures Level(h, root, v, p, n, y) <= n
  {
  }

  lemma NullLevel(h: Heap, root: Ref, v: Ref, p: nat, n: nat)
    requires Valid(h) && v != NULL_REF
    ensures Level(h, root, v, p, n, NULL_REF) == 0
  {
  }

  /** Every reference after the set leads at most one level down. */
  lemma EdgeLevel(h: Heap, root: Ref, tokens: seq<Text>, v: Ref, x: Ref, s: Slot)
    requires Setting(h, root, tokens, v)
    requires var g := Set(h, root, tokens, v).value; x in g.cells && Lookup(g.cells[x], s).Some?
    ensures var (g, p, n) := (Set(h, root, tokens, v).value, |Passed(h, root, tokens)|, |tokens|);
            Level(h, root, v, p, n, Lookup(g.cells[x], s).value) <= Level(h, root, v, p, n, x) + 1
  {
    hide Set, Walk, Lookup, Level, Place, Passed, Tree;
    var (g, p, n, f) := (Set(h, root, tokens, v).value, |Passed(h, root, tokens)|, |tokens|, Place(h, root, tokens).0);
    var y := Lookup(g.cells[x], s).value;
    SetLinks(h, root, tokens, v);
    NullLevel(h, root, v, p, n);
    LevelBound(h, root, v, p, n, y);
    if x == v {
      ValueLevel(h, root, v, p, n);
    } else if x !in h.cells {
      NewLevel(h, root, v, p, n, x);
      if x + 1 < g.next { NewLevel(h, root, v, p, n, x + 1); }
    } else if Lookup(h.cells[x], s) == Some(y) {
      OldEdge(h, root, tokens, v, p, x, s);
    } else if y != NULL_REF {
      PlaceLevel(h, root, tokens, v);
      if h.next < g.next { NewLevel(h, root, v, p, n, h.next); }
    }
  }

  lemma ValueLevel(h: Heap, root: Ref, v: Ref, p: nat, n: nat)
    ensures Level(h, root, v, p, n, v) == n
  {
  }

  lemma NewLevel(h: Heap, root: Ref, v: Ref, p: nat, n: nat, x: Ref)
    requires Valid(h) && v in h.cells && x >= h.next
    ensures Level(h, root, v, p, n, x) == Min(p + 1 + (x - h.next), n)
  {
  }

  /** The container that the set changes is as deep as the containers it passes are many. */
  lemma PlaceLevel(h: Heap, root: Ref, tokens: seq<Text>, v: Ref)
    requires Setting(h, root, tokens, v)
    ensures var p := |Passed(h, root, tokens)|; Level(h, root, v, p, |tokens|, Place(h, root, tokens).0) == p < |tokens|
  {
    hide Set, Walk, Lookup, Level, Place, Passed, SetSlots, Tree;
    var (p, f) := (|Passed(h, root, tokens)|, Place(h, root, tokens).0);
    AnyValue(h, root, tokens, v, NULL_REF);
    SetLinks(h, root, tokens, v);
    SetFrame(h, root, tokens, v);
    PlaceIsContainer(h, Set(h, root, tokens, v).value, Place(h, root, tokens));
    SetSlotsWalk(h, root, tokens, p);
    var a := SetSlots(h, root, tokens)[..p];
    Below(h);
    ReachedIsNotValue(h, root, a, v);
    LevelOf(h, root, v, p, |tokens|, a, f);
  }

  lemma PlaceIsContainer(h: Heap, g: Heap, place: (Ref, Slot))
    requires Changed(h, g, place)
    ensures place.0 in h.cells && !h.cells[place.0].LeafCell?
  {
    hide Strtoull;
  }

  /** What no cell refers to is not reached. */
  lemma {:induction false} ReachedIsNotValue(h: Heap, r: Ref, a: seq<Slot>, v: Ref)
    requires r != v && forall x, s :: x in h.cells ==> Lookup(h.cells[x], s) != Some(v)
    ensures Walk(h, r, a) != Some(v)
    decreases |a|
  {
    hide Lookup;
    if a != [] && r in h.cells && Lookup(h.cells[r], a[0]).Some? {
      ReachedIsNotValue(h, Lookup(h.cells[r], a[0]).value, a[1..], v);
    }
  }

  lemma {:induction false} WalkLevel(h: Heap, root: Ref, tokens: seq<Text>, v: Ref, x: Ref, a: seq<Slot>)
    requires Setting(h, root, tokens, v) && Walk(Set(h, root, tokens, v).value, x, a).Some?
    ensures var (g, p, n) := (Set(h, root, tokens, v).value, |Passed(h, root, tokens)|, |tokens|);
            Level(h, root, v, p, n, Walk(g, x, a).value) <= Level(h, root, v, p, n, x) + |a|
    decreases |a|
  {
    hide Tree, Valid, Set, Lookup, Level, Passed;
    var g := Set(h, root, tokens, v).value;
    if a != [] {
      EdgeLevel(h, root, tokens, v, x, a[0]);
      WalkLevel(h, root, tokens, v, Lookup(g.cells[x], a[0]).value, a[1..]);
    }
  }

  lemma {:induction false} ResolveWalk(h: Heap, r: Ref, q: seq<Text>)
    requires Resolve(h, r, q).Some?
    ensures Walk(h, r, SlotPath(h, r, q)) == Resolve(h, r, q)
    decreases |q|
  {
    hide GetSlot, Lookup;
    if q != [] {
      var s := GetSlot(h.cells[r], q[0]).value;
      ResolveWalk(h, Lookup(h.cells[r], s).value, q[1..]);
      assert SlotPath(h, r, q)[1..] == SlotPath(h, Lookup(h.cells[r], s).value, q[1..]);
    }
  }

  /** No path shorter than the one that was set leads to the value. */
  lemma NoShorterPath(h: Heap, root: Ref, tokens: seq<Text>, v: Ref, q: seq<Text>)
    requires Setting(h, root, tokens, v) && Resolve(Set(h, root, tokens, v).value, root, q) == Some(v)
    ensures |q| >= |tokens|
  {
    hide Set, Walk, Resolve, SlotPath, Lookup, Passed, Tree;
    var (g, p, n) := (Set(h, root, tokens, v).value, |Passed(h, root, tokens)|, |tokens|);
    ResolveWalk(g, root, q);
    WalkLevel(h, root, tokens, v, root, SlotPath(g, root, q));
    RootLevel(h, root, tokens, v, p);
  }

  lemma RootLevel(h: Heap, root: Ref, tokens: seq<Text>, v: Ref, p: nat)
    requires Setting(h, root, tokens, v)
    ensures Level(h, root, v, p, |tokens|, root) == 0
  {
    hide Lookup, Strtoull;
    Below(h);
    assert Walk(h, root, []) == Some(root);
    LevelOf(h, root, v, p, |tokens|, [], root);
  }

  /** In a tree, a value that nothing refers to yet is got at the dotted path where it was set exactly if the path
      has no empty token. */
  lemma GotExactlyWithoutEmptyTokens(h: Heap, root: Ref, path: Text, v: Ref)
    requires Setting(h, root, Split(path), v) && forall t :: t in Split(path) ==> Plain(t)
    ensures Resolve(Set(h, root, Split(path), v).value, root, Tokens(path)) == Some(v) <==> [] !in Split(path)
  {
    hide Set, Resolve, Split, Plain, Tree, Valid, SlotPath;
    NonEmptyAll(Split(path));
    if [] !in Split(path) {
      SetThenGet(h, root, path, v, path);
    } else if Resolve(Set(h, root, Split(path), v).value, root, Tokens(path)) == Some(v) {
      NoShorterPath(h, root, Split(path), v, Tokens(path));
      assert false;
    }
  }
}
