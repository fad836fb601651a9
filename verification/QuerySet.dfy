/** rpc_query_set and rpc_query_get over objects in memory, which containers may share. */
module QuerySet {
  import opened Bytes
  import opened Wrappers
  import opened Paths

  type Ref = nat

  /** The null object that pads arrays: there is one. */
  const NULL_REF: Ref := 0

  datatype Cell = DictCell(entries: map<Text, Ref>) | ArrayCell(items: seq<Ref>) | LeafCell

  /** The objects in memory; addresses from `next` on are unused. */
  datatype Heap = Heap(cells: map<Ref, Cell>, next: Ref)

  predicate Child(c: Cell, r: Ref) {
    (c.DictCell? && r in c.entries.Values) || (c.ArrayCell? && r in c.items)
  }

  ghost predicate Valid(h: Heap) {
    && NULL_REF in h.cells && h.cells[NULL_REF] == LeafCell
    && (forall r :: r in h.cells ==> r < h.next)
    && forall r, s :: r in h.cells && Child(h.cells[r], s) ==> s in h.cells
  }

  /** A place in a container. */
  datatype Slot = Key(text: Text) | Index(n: nat)

  /** The index (size_t)-1 is past the end of every array, and means the end when setting. */
  const AT_END: Slot := Index(SIZE_T - 1)

  function Lookup(c: Cell, s: Slot): Option<Ref> {
    if c.DictCell? && s.Key? && s.text in c.entries then Some(c.entries[s.text])
    else if c.ArrayCell? && s.Index? && s != AT_END && s.n < |c.items| then Some(c.items[s.n])
    else None
  }

  function Pad(items: seq<Ref>, n: nat): seq<Ref> {
    if n <= |items| then items else items + seq(n - |items|, _ => NULL_REF)
  }

  /** rpc_dictionary_steal_value and rpc_array_steal_value, which pads with null objects. */
  function Put(c: Cell, s: Slot, v: Ref): Cell {
    if c.DictCell? && s.Key? then DictCell(c.entries[s.text := v])
    else if c.ArrayCell? && s.Index? then
      if s == AT_END then ArrayCell(c.items + [v])
      else if s.n < |c.items| then ArrayCell(c.items[s.n := v])
      else ArrayCell(Pad(c.items, s.n) + [v])
    else c
  }

  /** The slot a token means for getting, and for setting, which refuses tokens that are no numbers. */
  function GetSlot(c: Cell, t: Text): Option<Slot> {
    match c
    case DictCell(_) => Some(Key(t))
    case ArrayCell(_) => Some(Index(Atoi(t)))
    case LeafCell => None
  }

  function SetSlot(c: Cell, t: Text): Option<Slot> {
    match c
    case DictCell(_) => Some(Key(t))
    case ArrayCell(_) => if Strtoull(t).None? then None else Some(Index(Strtoull(t).value))
    case LeafCell => None
  }

  lemma SlotsAgree(c: Cell, t: Text)
    requires Plain(t) && SetSlot(c, t).Some?
    ensures GetSlot(c, t) == SetSlot(c, t)
  {
    if c.ArrayCell? { PlainAgree(t); }
  }

  /** A stored reference is found, and what else was found still is. */
  lemma PutLookup(c: Cell, t: Text, s: Slot, v: Ref, other: Slot)
    requires SetSlot(c, t) == Some(s)
    ensures s != AT_END ==> Lookup(Put(c, s, v), s) == Some(v)
    ensures other != s && Lookup(c, other).Some? ==> Lookup(Put(c, s, v), other) == Lookup(c, other)
    ensures SetSlot(Put(c, s, v), t) == Some(s)
  {
    hide Strtoull;
  }

  /** What a path resolves to. */
  function Resolve(h: Heap, r: Ref, tokens: seq<Text>): Option<Ref>
    decreases |tokens|
  {
    if tokens == [] then Some(r)
    else if r !in h.cells || GetSlot(h.cells[r], tokens[0]).None? then None
    else
      var child := Lookup(h.cells[r], GetSlot(h.cells[r], tokens[0]).value);
      if child.None? then None else Resolve(h, child.value, tokens[1..])
  }

  /** A container fit for token `t`. */
  function Fit(t: Text): Cell {
    if Strtoull(t).None? then DictCell(map[]) else ArrayCell([])
  }

  /** The memory with `v` in slot `s` of container `r`. */
  function PutAt(h: Heap, r: Ref, s: Slot, v: Ref): Heap
    requires r in h.cells
  {
    h.(cells := h.cells[r := Put(h.cells[r], s, v)])
  }

  /** The memory with a new container for token `t` in slot `s` of container `r`. */
  function Grow(h: Heap, r: Ref, s: Slot, t: Text): Heap
    requires r in h.cells
  {
    var g := PutAt(h, r, s, h.next);
    Heap(g.cells[h.next := Fit(t)], h.next + 1)
  }

  /** What rpc_query_set does from container `r` on; nothing if it fails. */
  function Set(h: Heap, r: Ref, tokens: seq<Text>, v: Ref): Option<Heap>
    requires tokens != []
    decreases |tokens|
  {
    if r !in h.cells || SetSlot(h.cells[r], tokens[0]).None? then None
    else
      var s := SetSlot(h.cells[r], tokens[0]).value;
      if |tokens| == 1 then Some(PutAt(h, r, s, v))
      else
        match Lookup(h.cells[r], s)
        case Some(child) => Set(h, child, tokens[1..], v)
        case None => Set(Grow(h, r, s, tokens[1]), h.next, tokens[1..], v)
  }

  /** A container made for a token takes it, so a set that has made one does not fail any more. */
  lemma {:induction false} GrownSucceeds(h: Heap, r: Ref, tokens: seq<Text>, v: Ref)
    requires tokens != [] && r in h.cells && h.cells[r] == Fit(tokens[0])
    ensures Set(h, r, tokens, v).Some?
    decreases |tokens|
  {
    hide Strtoull;
    if |tokens| > 1 {
      var s := SetSlot(h.cells[r], tokens[0]).value;
      GrownSucceeds(Grow(h, r, s, tokens[1]), h.next, tokens[1..], v);
    }
  }

  lemma GrowValid(h: Heap, r: Ref, t: Text, s: Slot, next: Text)
    requires Valid(h) && r in h.cells && SetSlot(h.cells[r], t) == Some(s)
    ensures Valid(Grow(h, r, s, next))
  {
    hide Strtoull;
    var g := Grow(h, r, s, next);
    forall x, y | x in g.cells && Child(g.cells[x], y) ensures y in g.cells {
      if x == r && y != h.next && y != NULL_REF { assert Child(h.cells[r], y); }
      else if x != r && x != h.next { assert Child(h.cells[x], y); }
    }
  }

  /** The first slot a set changes, and the containers it passes before. */
  function Place(h: Heap, r: Ref, tokens: seq<Text>): (Ref, Slot)
    requires tokens != []
    decreases |tokens|
  {
    if r !in h.cells || SetSlot(h.cells[r], tokens[0]).None? then (r, Index(0))
    else
      var s := SetSlot(h.cells[r], tokens[0]).value;
      if |tokens| == 1 || Lookup(h.cells[r], s).None? then (r, s)
      else Place(h, Lookup(h.cells[r], s).value, tokens[1..])
  }

  function Passed(h: Heap, r: Ref, tokens: seq<Text>): seq<Ref>
    requires tokens != []
    decreases |tokens|
  {
    if r !in h.cells || SetSlot(h.cells[r], tokens[0]).None? then []
    else
      var s := SetSlot(h.cells[r], tokens[0]).value;
      if |tokens| == 1 || Lookup(h.cells[r], s).None? then []
      else [r] + Passed(h, Lookup(h.cells[r], s).value, tokens[1..])
  }

  /** `g` is `h` with another reference in one slot of one container, and new containers. */
  ghost predicate Changed(h: Heap, g: Heap, place: (Ref, Slot)) {
    && place.0 in h.cells
    && (exists t :: SetSlot(h.cells[place.0], t) == Some(place.1))
    && h.cells.Keys <= g.cells.Keys
    && (forall x :: x in h.cells && x != place.0 ==> g.cells[x] == h.cells[x])
    && (exists w :: g.cells[place.0] == Put(h.cells[place.0], place.1, w))
  }

  /** A set changes one slot of one container that was there before, and nothing else that was. */
  lemma {:induction false} SetFrame(h: Heap, r: Ref, tokens: seq<Text>, v: Ref)
    requires Valid(h) && r in h.cells && tokens != [] && Set(h, r, tokens, v).Some?
    ensures Changed(h, Set(h, r, tokens, v).value, Place(h, r, tokens))
    decreases |tokens|
  {
    hide Strtoull, Valid;
    var (c, t) := (h.cells[r], tokens[0]);
    var s := SetSlot(c, t).value;
    var g := Set(h, r, tokens, v).value;
    if |tokens| == 1 {
      assert g.cells[r] == Put(c, s, v);
    } else if Lookup(c, s).Some? {
      LookupValid(h, r, s);
      SetFrame(h, Lookup(c, s).value, tokens[1..], v);
    } else {
      var h1 := Grow(h, r, s, tokens[1]);
      NextIsNew(h);
      GrowValid(h, r, t, s, tokens[1]);
      SetFrame(h1, h.next, tokens[1..], v);
      NewPlace(h1, h.next, tokens[1..]);
      assert g.cells[r] == Put(c, s, h.next);
    }
  }

  lemma NextIsNew(h: Heap)
    requires Valid(h)
    ensures h.next !in h.cells
  {
  }

  lemma LookupValid(h: Heap, r: Ref, s: Slot)
    requires Valid(h) && r in h.cells && Lookup(h.cells[r], s).Some?
    ensures Lookup(h.cells[r], s).value in h.cells
  {
    assert Child(h.cells[r], Lookup(h.cells[r], s).value);
  }

  lemma NewPlace(h: Heap, r: Ref, tokens: seq<Text>)
    requires tokens != [] && r in h.cells && h.cells[r] == Fit(tokens[0])
    ensures Place(h, r, tokens).0 == r && Passed(h, r, tokens) == []
  {
    hide Strtoull;
  }

  /** A set goes through slot `k` of container `f` before its last token. */
  predicate Crosses(h: Heap, r: Ref, tokens: seq<Text>, f: Ref, k: Slot)
    decreases |tokens|
  {
    && |tokens| > 1 && r in h.cells && SetSlot(h.cells[r], tokens[0]).Some?
    && var s := SetSlot(h.cells[r], tokens[0]).value;
       && Lookup(h.cells[r], s).Some?
       && ((r == f && s == k) || Crosses(h, Lookup(h.cells[r], s).value, tokens[1..], f, k))
  }

  /** A set comes back to the slot it changes. */
  predicate Returns(h: Heap, r: Ref, tokens: seq<Text>)
    requires tokens != []
  {
    Crosses(h, r, tokens, Place(h, r, tokens).0, Place(h, r, tokens).1)
  }

  /** Getting after setting: the value is there, unless the path came back to the slot it changed. */
  lemma {:induction false} GetAfterSet(h: Heap, r: Ref, tokens: seq<Text>, v: Ref)
    requires Valid(h) && r in h.cells && tokens != [] && Set(h, r, tokens, v).Some?
    requires (forall t :: t in tokens ==> Plain(t)) && !Returns(h, r, tokens)
    ensures Resolve(Set(h, r, tokens, v).value, r, tokens) == Some(v)
    decreases |tokens|
  {
    hide Strtoull, Atoi, Plain, Valid, GetSlot, Put, Lookup, Changed;
    var (c, t) := (h.cells[r], tokens[0]);
    var s := SetSlot(c, t).value;
    var g := Set(h, r, tokens, v).value;
    var place := Place(h, r, tokens);
    SetFrame(h, r, tokens, v);
    if |tokens| == 1 {
      StoredSlot(c, t, s, v);
    } else if Lookup(c, s).Some? {
      LookupValid(h, r, s);
      GetAfterSet(h, Lookup(c, s).value, tokens[1..], v);
      SlotsAgree(c, t);
      StaysThere(h, g, place, r, t, s);
    } else {
      var h1 := Grow(h, r, s, tokens[1]);
      NextIsNew(h);
      GrowValid(h, r, t, s, tokens[1]);
      NewPlace(h1, h.next, tokens[1..]);
      NewCrosses(h1, h.next, tokens[1..], Place(h1, h.next, tokens[1..]));
      GetAfterSet(h1, h.next, tokens[1..], v);
      SetFrame(h1, h.next, tokens[1..], v);
      ChangedElsewhere(h1, g, Place(h1, h.next, tokens[1..]), r);
      StoredSlot(c, t, s, h.next);
    }
  }

  lemma NewCrosses(h: Heap, r: Ref, tokens: seq<Text>, place: (Ref, Slot))
    requires tokens != [] && r in h.cells && h.cells[r] == Fit(tokens[0])
    ensures !Crosses(h, r, tokens, place.0, place.1)
  {
    hide Strtoull;
  }

  /** What a token finds is still found there, unless it was in the changed slot. */
  lemma StaysThere(h: Heap, g: Heap, place: (Ref, Slot), r: Ref, t: Text, s: Slot)
    requires Changed(h, g, place) && r in h.cells && !(r == place.0 && s == place.1)
    requires GetSlot(h.cells[r], t) == Some(s) && Lookup(h.cells[r], s).Some?
    ensures r in g.cells && GetSlot(g.cells[r], t) == Some(s) && Lookup(g.cells[r], s) == Lookup(h.cells[r], s)
  {
    hide Changed, GetSlot, Lookup;
    if r == place.0 { ChangedHere(h, g, place, t, s); } else { ChangedElsewhere(h, g, place, r); }
  }

  /** A slot that was occupied changes only as the last of the path: it gets the value. */
  lemma {:induction false} OccupiedGetsValue(h: Heap, r: Ref, tokens: seq<Text>, v: Ref)
    requires r in h.cells && tokens != [] && Set(h, r, tokens, v).Some?
    requires var place := Place(h, r, tokens); place.0 in h.cells && Lookup(h.cells[place.0], place.1).Some?
    ensures var (g, place) := (Set(h, r, tokens, v).value, Place(h, r, tokens));
            place.0 in g.cells && g.cells[place.0] == Put(h.cells[place.0], place.1, v) && place.1 != AT_END
    decreases |tokens|
  {
    hide Strtoull, Put, Fit;
    var s := SetSlot(h.cells[r], tokens[0]).value;
    if |tokens| > 1 && Lookup(h.cells[r], s).Some? && Lookup(h.cells[r], s).value in h.cells {
      OccupiedGetsValue(h, Lookup(h.cells[r], s).value, tokens[1..], v);
    }
  }

  /** A leaf stays a leaf. */
  lemma LeafStays(h: Heap, g: Heap, place: (Ref, Slot), v: Ref)
    requires Changed(h, g, place) && v in h.cells && h.cells[v] == LeafCell
    ensures v in g.cells && g.cells[v] == LeafCell
  {
    hide Strtoull, Put;
  }

  /** A set that comes back to the slot it changes loses a leaf: the path then ends early. */
  lemma {:induction false} ReturnLoses(h: Heap, r: Ref, tokens: seq<Text>, v: Ref)
    requires Valid(h) && r in h.cells && tokens != [] && Set(h, r, tokens, v).Some?
    requires (forall t :: t in tokens ==> Plain(t)) && v in h.cells && h.cells[v] == LeafCell
    requires Returns(h, r, tokens)
    ensures Resolve(Set(h, r, tokens, v).value, r, tokens).None?
    decreases |tokens|
  {
    hide Strtoull, Atoi, Plain, Valid, GetSlot, Put, Lookup, Changed;
    var (c, t) := (h.cells[r], tokens[0]);
    var s := SetSlot(c, t).value;
    var g := Set(h, r, tokens, v).value;
    var place := Place(h, r, tokens);
    SetFrame(h, r, tokens, v);
    SlotsAgree(c, t);
    LookupValid(h, r, s);
    if r == place.0 && s == place.1 {
      PlaceIsThere(h, g, place);
      OccupiedGetsValue(h, r, tokens, v);
      StoredSlot(c, t, s, v);
      LeafStays(h, g, place, v);
      LeafEnds(g, v, tokens[1..]);
    } else {
      ReturnLoses(h, Lookup(c, s).value, tokens[1..], v);
      StaysThere(h, g, place, r, t, s);
    }
  }

  lemma PlaceIsThere(h: Heap, g: Heap, place: (Ref, Slot))
    requires Changed(h, g, place)
    ensures place.0 in h.cells && place.0 in g.cells
  {
  }

  lemma LeafEnds(h: Heap, r: Ref, tokens: seq<Text>)
    requires r in h.cells && h.cells[r] == LeafCell && tokens != []
    ensures Resolve(h, r, tokens).None?
  {
  }

  /** Exactly when getting after setting gives the value, for a value that is not a container. */
  lemma GetAfterSetExactly(h: Heap, r: Ref, tokens: seq<Text>, v: Ref)
    requires Valid(h) && r in h.cells && tokens != [] && Set(h, r, tokens, v).Some?
    requires (forall t :: t in tokens ==> Plain(t)) && v in h.cells && h.cells[v] == LeafCell
    ensures Resolve(Set(h, r, tokens, v).value, r, tokens) == Some(v) <==> !Returns(h, r, tokens)
  {
    hide Valid, Set, Resolve, Returns, Plain;
    if Returns(h, r, tokens) { ReturnLoses(h, r, tokens, v); } else { GetAfterSet(h, r, tokens, v); }
  }

  lemma ChangedElsewhere(h: Heap, g: Heap, place: (Ref, Slot), r: Ref)
    requires Changed(h, g, place) && r in h.cells && r != place.0
    ensures r in g.cells && g.cells[r] == h.cells[r]
  {
  }

  lemma StoredSlot(c: Cell, t: Text, s: Slot, v: Ref)
    requires Plain(t) && SetSlot(c, t) == Some(s)
    ensures GetSlot(Put(c, s, v), t) == Some(s) && Lookup(Put(c, s, v), s) == Some(v)
  {
    hide Strtoull, Atoi, Plain;
    PutLookup(c, t, s, v, s);
    SlotsAgree(Put(c, s, v), t);
    if c.ArrayCell? { PlainAgree(t); }
  }

  /** Resolving a path reads slot `s` of container `f`. */
  predicate Reads(h: Heap, r: Ref, tokens: seq<Text>, f: Ref, s: Slot)
    decreases |tokens|
  {
    && tokens != [] && r in h.cells && GetSlot(h.cells[r], tokens[0]).Some?
    && var slot := GetSlot(h.cells[r], tokens[0]).value;
       || (r == f && slot == s)
       || (Lookup(h.cells[r], slot).Some? && Reads(h, Lookup(h.cells[r], slot).value, tokens[1..], f, s))
  }

  /** A path that resolved and did not read the changed slot resolves to the same object. */
  lemma {:induction false} OtherPaths(h: Heap, g: Heap, place: (Ref, Slot), r: Ref, q: seq<Text>)
    requires Valid(h) && Changed(h, g, place) && Resolve(h, r, q).Some? && !Reads(h, r, q, place.0, place.1)
    ensures Resolve(g, r, q) == Resolve(h, r, q)
    decreases |q|
  {
    hide Strtoull, Atoi, Valid, Put, Lookup, Changed;
    if q != [] {
      var c := h.cells[r];
      var s := GetSlot(c, q[0]).value;
      LookupValid(h, r, s);
      OtherPaths(h, g, place, Lookup(c, s).value, q[1..]);
      if r == place.0 {
        ChangedHere(h, g, place, q[0], s);
      } else {
        ChangedElsewhere(h, g, place, r);
      }
    }
  }

  lemma ChangedHere(h: Heap, g: Heap, place: (Ref, Slot), t: Text, s: Slot)
    requires Changed(h, g, place) && s != place.1 && Lookup(h.cells[place.0], s).Some?
    requires GetSlot(h.cells[place.0], t) == Some(s)
    ensures place.0 in g.cells && GetSlot(g.cells[place.0], t) == Some(s)
    ensures Lookup(g.cells[place.0], s) == Lookup(h.cells[place.0], s)
  {
    hide Strtoull, Atoi;
    var c := h.cells[place.0];
    var w :| g.cells[place.0] == Put(c, place.1, w);
    var u :| SetSlot(c, u) == Some(place.1);
    PutLookup(c, u, place.1, w, s);
  }

  /** A path that resolves finds every slot it reads occupied. */
  lemma {:induction false} ReadsOccupied(h: Heap, r: Ref, q: seq<Text>, f: Ref, k: Slot)
    requires Resolve(h, r, q).Some? && Reads(h, r, q, f, k)
    ensures f in h.cells && Lookup(h.cells[f], k).Some?
    decreases |q|
  {
    hide GetSlot, Lookup;
    var s := GetSlot(h.cells[r], q[0]).value;
    if !(r == f && s == k) { ReadsOccupied(h, Lookup(h.cells[r], s).value, q[1..], f, k); }
  }

  /** A path that reads the changed slot does not resolve to the same object, if a new leaf is in it. */
  lemma {:induction false} ReadsChanges(h: Heap, g: Heap, place: (Ref, Slot), v: Ref, r: Ref, q: seq<Text>)
    requires Valid(h) && Changed(h, g, place) && Resolve(h, r, q).Some? && Reads(h, r, q, place.0, place.1)
    requires v in h.cells && h.cells[v] == LeafCell && Lookup(h.cells[place.0], place.1) != Some(v)
    requires place.0 in g.cells && g.cells[place.0] == Put(h.cells[place.0], place.1, v) && place.1 != AT_END
    ensures Resolve(g, r, q) != Resolve(h, r, q)
    decreases |q|
  {
    hide Strtoull, Atoi, Valid, Put, Lookup, Changed, GetSlot;
    var c := h.cells[r];
    var s := GetSlot(c, q[0]).value;
    LookupValid(h, r, s);
    if r == place.0 && s == place.1 {
      ReplacedSlot(h, g, place, v, q[0]);
      LeafStays(h, g, place, v);
      if |q| > 1 { LeafEnds(g, v, q[1..]); }
    } else {
      ReadsChanges(h, g, place, v, Lookup(c, s).value, q[1..]);
      StaysThere(h, g, place, r, q[0], s);
    }
  }

  lemma ReplacedSlot(h: Heap, g: Heap, place: (Ref, Slot), v: Ref, t: Text)
    requires Changed(h, g, place) && place.0 in g.cells && g.cells[place.0] == Put(h.cells[place.0], place.1, v)
    requires place.1 != AT_END && GetSlot(h.cells[place.0], t) == Some(place.1)
    ensures GetSlot(g.cells[place.0], t) == Some(place.1) && Lookup(g.cells[place.0], place.1) == Some(v)
  {
    hide Strtoull, Atoi;
    var u :| SetSlot(h.cells[place.0], u) == Some(place.1);
    PutLookup(h.cells[place.0], u, place.1, v, place.1);
  }

  /** Exactly which paths a set of a leaf that was not there before changes, whatever is shared: those that
      read the changed slot. */
  lemma OtherPathsExactly(h: Heap, r: Ref, tokens: seq<Text>, v: Ref, x: Ref, q: seq<Text>)
    requires Valid(h) && r in h.cells && tokens != [] && Set(h, r, tokens, v).Some?
    requires v in h.cells && h.cells[v] == LeafCell && Resolve(h, x, q).Some?
    requires var place := Place(h, r, tokens); place.0 in h.cells ==> Lookup(h.cells[place.0], place.1) != Some(v)
    ensures var (g, place) := (Set(h, r, tokens, v).value, Place(h, r, tokens));
            Resolve(g, x, q) == Resolve(h, x, q) <==> !Reads(h, x, q, place.0, place.1)
  {
    hide Valid, Set, Resolve, Reads, Place, Changed, Put, Lookup;
    var (g, place) := (Set(h, r, tokens, v).value, Place(h, r, tokens));
    SetFrame(h, r, tokens, v);
    PlaceIsThere(h, g, place);
    if Reads(h, x, q, place.0, place.1) {
      ReadsOccupied(h, x, q, place.0, place.1);
      OccupiedGetsValue(h, r, tokens, v);
      ReadsChanges(h, g, place, v, x, q);
    } else {
      OtherPaths(h, g, place, x, q);
    }
  }
}
