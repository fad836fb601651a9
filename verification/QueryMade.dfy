/** What rpc_query_set makes on its way: which containers, of which kind, and what they hold; and what a token means
    to rpc_query_get. */
module QueryMade {
  import opened Bytes
  import opened Wrappers
  import opened Paths
  import opened PathText
  import opened QuerySet
  import opened QueryStore

  /** Where in an array made for it a token is stored: (size_t)-1 means the end. */
  function MadeIndex(t: Text): nat {
    if Strtoull(t).None? || Strtoull(t).value == SIZE_T - 1 then 0 else Strtoull(t).value
  }

  /** The container has nothing but `child` at the token: an array, padded with null objects, if the token is a
      number, and otherwise a dictionary. */
  ghost predicate HoldsOnly(c: Cell, t: Text, child: Ref) {
    if ReadNumber(t).found then
      && c.ArrayCell? && |c.items| == MadeIndex(t) + 1 && c.items[MadeIndex(t)] == child
      && forall k :: 0 <= k < MadeIndex(t) ==> c.items[k] == NULL_REF
    else
      c.DictCell? && c.entries.Keys == {t} && c.entries[t] == child
  }

  /** Storing in an array: what was there stays, the gap is null objects, and the end is (size_t)-1. */
  lemma ArrayStored(items: seq<Ref>, n: nat, v: Ref)
    ensures var c := Put(ArrayCell(items), Index(n), v);
            var at := if n == SIZE_T - 1 then |items| else n;
            && c.ArrayCell? && |c.items| == (if at < |items| then |items| else at + 1) && c.items[at] == v
            && forall k :: 0 <= k < |c.items| && k != at ==> c.items[k] == if k < |items| then items[k] else NULL_REF
  {
  }

  /** Storing in a dictionary: the key has the value, and the others theirs. */
  lemma DictStored(entries: map<Text, Ref>, t: Text, v: Ref)
    ensures var c := Put(DictCell(entries), Key(t), v);
            && c.DictCell? && c.entries.Keys == entries.Keys + {t} && c.entries[t] == v
            && forall k :: k in entries && k != t ==> c.entries[k] == entries[k]
  {
  }

  /** Storing at its token in a container that was just made for it. */
  lemma FirstStored(t: Text, child: Ref)
    ensures SetSlot(Fit(t), t).Some? && Lookup(Fit(t), SetSlot(Fit(t), t).value).None?
    ensures HoldsOnly(Put(Fit(t), SetSlot(Fit(t), t).value, child), t, child)
  {
    hide ReadNumber;
    if ReadNumber(t).found { ArrayStored([], Strtoull(t).value, child); } else { DictStored(map[], t, child); }
  }

  /** Containers from address `first` on, one for each token, each holding nothing but the next and the last
      nothing but `v`. */
  ghost predicate Chain(g: Heap, first: Ref, tokens: seq<Text>, v: Ref)
    decreases |tokens|
  {
    tokens == [] ||
    (first in g.cells && HoldsOnly(g.cells[first], tokens[0], if |tokens| == 1 then v else first + 1) &&
     Chain(g, first + 1, tokens[1..], v))
  }

  /** From a container just made on, every token but the first gets a container of its own. */
  lemma {:induction false} MadeChain(h: Heap, r: Ref, tokens: seq<Text>, v: Ref)
    requires Valid(h) && tokens != [] && r in h.cells && h.next == r + 1 && h.cells[r] == Fit(tokens[0])
    ensures Set(h, r, tokens, v).Some?
    ensures var g := Set(h, r, tokens, v).value; g.next == r + |tokens| && Chain(g, r, tokens, v)
    decreases |tokens|
  {
    hide Strtoull, ReadNumber, HoldsOnly, Valid, Put, Fit, Lookup, SetSlot;
    var t := tokens[0];
    FirstStored(t, if |tokens| == 1 then v else h.next);
    if |tokens| > 1 {
      var s := SetSlot(h.cells[r], t).value;
      var h1 := Grow(h, r, s, tokens[1]);
      NextIsNew(h);
      GrowValid(h, r, t, s, tokens[1]);
      MadeChain(h1, h.next, tokens[1..], v);
      StaysPut(h1, h.next, tokens[1..], v, r);
    } else {
      assert tokens[1..] == [];
    }
  }

  /** A container that was just made takes what is set below it, so no other that was there changes. */
  lemma StaysPut(h: Heap, r: Ref, tokens: seq<Text>, v: Ref, x: Ref)
    requires Valid(h) && tokens != [] && r in h.cells && h.cells[r] == Fit(tokens[0]) && Set(h, r, tokens, v).Some?
    requires x in h.cells && x != r
    ensures var g := Set(h, r, tokens, v).value; x in g.cells && g.cells[x] == h.cells[x]
  {
    hide Set, Place, Valid, Fit, Put;
    SetFrame(h, r, tokens, v);
    NewPlace(h, r, tokens);
  }

  /** How many containers a set makes: one for every token after the first that finds nothing, but the last. */
  function Made(h: Heap, r: Ref, tokens: seq<Text>): nat
    requires tokens != []
  {
    var place := Place(h, r, tokens);
    if place.0 in h.cells && Lookup(h.cells[place.0], place.1).Some? then 0
    else if |Passed(h, r, tokens)| < |tokens| then |tokens| - 1 - |Passed(h, r, tokens)|
    else 0
  }

  lemma {:induction false} PassedFewer(h: Heap, r: Ref, tokens: seq<Text>)
    requires tokens != []
    ensures |Passed(h, r, tokens)| < |tokens|
    decreases |tokens|
  {
    hide Strtoull;
    if r in h.cells && SetSlot(h.cells[r], tokens[0]).Some? {
      var s := SetSlot(h.cells[r], tokens[0]).value;
      if |tokens| > 1 && Lookup(h.cells[r], s).Some? { PassedFewer(h, Lookup(h.cells[r], s).value, tokens[1..]); }
    }
  }

  /** All a set does: the slot it comes to gets the value, or the first container made; the containers made take the
      addresses from `h.next` on, each for its token and holding nothing but the next, the last one the value. */
  lemma {:induction false} SetMakes(h: Heap, r: Ref, tokens: seq<Text>, v: Ref)
    requires Valid(h) && r in h.cells && tokens != [] && Set(h, r, tokens, v).Some?
    ensures var (g, place, made) := (Set(h, r, tokens, v).value, Place(h, r, tokens), Made(h, r, tokens));
            && g.next == h.next + made && made < |tokens|
            && place.0 in h.cells && place.0 in g.cells
            && g.cells[place.0] == Put(h.cells[place.0], place.1, if made == 0 then v else h.next)
            && Chain(g, h.next, tokens[|tokens| - made..], v)
    decreases |tokens|
  {
    hide Strtoull, ReadNumber, HoldsOnly, Valid, Put, Fit, Lookup;
    var t := tokens[0];
    var s := SetSlot(h.cells[r], t).value;
    var child := Lookup(h.cells[r], s);
    PassedFewer(h, r, tokens);
    if |tokens| == 1 {
      assert tokens[1..] == [];
    } else if child.Some? {
      LookupValid(h, r, s);
      SetMakes(h, child.value, tokens[1..], v);
      var made := Made(h, r, tokens);
      assert tokens[1..][|tokens| - 1 - made..] == tokens[|tokens| - made..];
    } else {
      var h1 := Grow(h, r, s, tokens[1]);
      NextIsNew(h);
      GrowValid(h, r, t, s, tokens[1]);
      MadeChain(h1, h.next, tokens[1..], v);
      StaysPut(h1, h.next, tokens[1..], v, r);
    }
  }

  /** So every address from `h.next` to `g.next` is a container of the kind its token asks for, with nothing in it
      that the path did not put there. */
  lemma MadeFor(h: Heap, r: Ref, tokens: seq<Text>, v: Ref, i: nat)
    requires Valid(h) && r in h.cells && tokens != [] && Set(h, r, tokens, v).Some?
    requires h.next + i < Set(h, r, tokens, v).value.next
    ensures var (g, made) := (Set(h, r, tokens, v).value, Made(h, r, tokens));
            && made < |tokens| && i < made && h.next + i in g.cells
            && HoldsOnly(g.cells[h.next + i], tokens[|tokens| - made + i], if i == made - 1 then v else h.next + i + 1)
            && (g.cells[h.next + i].ArrayCell? <==> ReadNumber(tokens[|tokens| - made + i]).found)
  {
    hide Set, Chain, Made, Place, Put, Valid, ReadNumber, Strtoull;
    SetMakes(h, r, tokens, v);
    var made := Made(h, r, tokens);
    ChainAt(Set(h, r, tokens, v).value, h.next, tokens[|tokens| - made..], v, i);
  }

  lemma {:induction false} ChainAt(g: Heap, first: Ref, tokens: seq<Text>, v: Ref, i: nat)
    requires Chain(g, first, tokens, v) && i < |tokens|
    ensures first + i in g.cells
    ensures HoldsOnly(g.cells[first + i], tokens[i], if i == |tokens| - 1 then v else first + i + 1)
    decreases |tokens|
  {
    hide HoldsOnly;
    if i > 0 { ChainAt(g, first + 1, tokens[1..], v, i - 1); }
  }

  // ---- Getting ----

  /** A token is the key in a dictionary, and in an array the position it is the decimal number of. */
  lemma TokenMeans(h: Heap, r: Ref, t: Text, n: nat)
    requires r in h.cells && n < 0x8000_0000
    ensures h.cells[r].DictCell? ==>
              Resolve(h, r, [t]) == if t in h.cells[r].entries then Some(h.cells[r].entries[t]) else None
    ensures h.cells[r].ArrayCell? ==>
              Resolve(h, r, [Decimal(n)]) == if n < |h.cells[r].items| then Some(h.cells[r].items[n]) else None
    ensures h.cells[r].LeafCell? ==> Resolve(h, r, [t]).None?
  {
    hide ReadNumber, Decimal, Strtoull, Atoi;
    assert [t][1..] == [] && [Decimal(n)][1..] == [];
    NumberRead([], [], n, []);
    assert [] + [] + Decimal(n) + [] == Decimal(n);
    Converted(Decimal(n), n, false);
  }

  /** A path is its parts, one after the other. */
  lemma {:induction false} PathMeans(h: Heap, r: Ref, p: seq<Text>, q: seq<Text>)
    ensures Resolve(h, r, p + q) == match Resolve(h, r, p) case None => None case Some(x) => Resolve(h, x, q)
    decreases |p|
  {
    hide GetSlot, Lookup;
    if p == [] {
      assert p + q == q;
    } else {
      assert (p + q)[1..] == p[1..] + q;
      if r in h.cells && GetSlot(h.cells[r], p[0]).Some? {
        var child := Lookup(h.cells[r], GetSlot(h.cells[r], p[0]).value);
        if child.Some? { PathMeans(h, child.value, p[1..], q); }
      }
    }
  }

  /** The default stands in exactly if all tokens but the last lead to a container and the whole path to nothing. */
  lemma {:induction false} DefaultExactly(h: Heap, r: Ref, tokens: seq<Text>)
    requires tokens != []
    ensures MissesLast(h, r, tokens) <==>
              && Resolve(h, r, tokens).None?
              && var c := Resolve(h, r, tokens[..|tokens| - 1]);
                 c.Some? && c.value in h.cells && !h.cells[c.value].LeafCell?
    decreases |tokens|
  {
    hide Lookup, Atoi;
    var front := tokens[..|tokens| - 1];
    if |tokens| == 1 {
      assert front == [] && tokens[1..] == [];
    } else {
      assert front[1..] == tokens[1..][..|tokens| - 2] && front[0] == tokens[0];
      if r in h.cells && GetSlot(h.cells[r], tokens[0]).Some? {
        var child := Lookup(h.cells[r], GetSlot(h.cells[r], tokens[0]).value);
        if child.Some? { DefaultExactly(h, child.value, tokens[1..]); }
      }
    }
  }
}
