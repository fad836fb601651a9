/** rpc_query_set and rpc_query_get as they walk through memory. */
module QueryStore {
  import opened Bytes
  import opened Wrappers
  import opened Paths
  import opened QuerySet

  /** The padding counter has 64 bits and a sign: from 2^63 on only the index (size_t)-1 is in order, which
      appends; others are written outside the array. */
  predicate InRange(t: Text) {
    Strtoull(t).Some? ==> Strtoull(t).value < 0x8000_0000_0000_0000 || Strtoull(t).value == SIZE_T - 1
  }

  /** rpc_array_steal_value: pads with the null object up to the index, then appends or replaces. */
  method StealValue(items: seq<Ref>, index: nat, value: Ref) returns (r: seq<Ref>)
    requires index < 0x8000_0000_0000_0000 || index == SIZE_T - 1
    ensures ArrayCell(r) == Put(ArrayCell(items), Index(index), value)
  {
    r := items;
    var i := if index == SIZE_T - 1 then -1 - |items| else index - |items|;
    while i > 0
      invariant index == SIZE_T - 1 || index <= |items| ==> i <= 0 && r == items
      invariant index != SIZE_T - 1 && index > |items| ==> 0 <= i <= index - |items| && r == Pad(items, index - i)
    {
      r := r + [NULL_REF];
      i := i - 1;
    }
    if index == SIZE_T - 1 || index == |r| { return r + [value]; }
    r := r[index := value];
  }

  class Memory {
    var cells: map<Ref, Cell>
    var next: Ref

    function View(): Heap
      reads this
    {
      Heap(cells, next)
    }

    constructor (h: Heap)
      ensures View() == h
    {
      cells, next := h.cells, h.next;
    }

    /** Puts a reference into a container, which takes the token. */
    method Store(container: Ref, token: Text, value: Ref)
      requires container in cells && SetSlot(cells[container], token).Some? && InRange(token)
      modifies this`cells
      ensures View() == PutAt(old(View()), container, SetSlot(old(cells)[container], token).value, value)
    {
      hide Strtoull;
      match cells[container] {
        case DictCell(entries) => cells := cells[container := DictCell(entries[token := value])];
        case ArrayCell(items) =>
          var stored := StealValue(items, Strtoull(token).value, value);
          cells := cells[container := ArrayCell(stored)];
      }
    }

    /** One turn of the loop of rpc_query_set: the container one token further, made if there is none. */
    method Step(container: Ref, token: Text, nextToken: Text) returns (child: Option<Ref>)
      requires container in cells && InRange(token)
      modifies this
      ensures var h := old(View());
              match SetSlot(h.cells[container], token)
              case None => child.None? && View() == h
              case Some(s) =>
                match Lookup(h.cells[container], s)
                case Some(r) => child == Some(r) && View() == h
                case None => child == Some(h.next) && View() == Grow(h, container, s, nextToken)
    {
      hide Strtoull;
      var c := cells[container];
      var temp: Option<Ref>;
      match c {
        case DictCell(entries) =>
          temp := if token in entries then Some(entries[token]) else None;
        case ArrayCell(items) =>
          var idx := Strtoull(token);
          if idx.None? { return None; }
          temp := Lookup(c, Index(idx.value));
        case LeafCell => return None;
      }
      if temp.None? {
        var address := next;
        var made := if Strtoull(nextToken).None? then DictCell(map[]) else ArrayCell([]);
        Store(container, token, address);
        cells := cells[address := made];
        next := next + 1;
        temp := Some(address);
      }
      return temp;
    }

    /** rpc_query_set. On a failure nothing has changed: once a container has been made, the rest of the
        path fits. */
    method SetPath(root: Ref, path: Text, value: Ref) returns (ok: bool)
      requires Valid(View()) && root in cells && forall t :: t in Split(path) ==> InRange(t)
      modifies this
      ensures ok <==> path != [] && Set(old(View()), root, Split(path), value).Some?
      ensures View() == if ok then Set(old(View()), root, Split(path), value).value else old(View())
    {
      hide Strtoull, Lookup, SetSlot, Put, Set, InRange;
      if path == [] { return false; }
      var tokens := Split(path);
      var container, k := root, 0;
      ghost var h := View();
      assert tokens[0..] == tokens;
      while k + 1 < |tokens|
        invariant k < |tokens| && Valid(View()) && container in cells
        invariant Set(h, root, tokens, value) == Set(View(), container, tokens[k..], value)
        invariant View() == h || cells[container] == Fit(tokens[k])
      {
        ghost var before := View();
        SetStep(before, container, tokens[k..], value);
        if cells[container] == Fit(tokens[k]) { GrownSucceeds(before, container, tokens[k..], value); }
        FitIsEmpty(tokens[k]);
        var child := Step(container, tokens[k], tokens[k + 1]);
        if child.None? { return false; }
        StepValid(before, container, tokens[k], tokens[k + 1]);
        container := child.value;
        k := k + 1;
        assert tokens[k - 1..][1..] == tokens[k..];
      }
      SetStep(View(), container, tokens[k..], value);
      if cells[container] == Fit(tokens[k]) { GrownSucceeds(View(), container, tokens[k..], value); }
      var slot := SetSlot(cells[container], tokens[k]);
      if slot.None? { return false; }
      Store(container, tokens[k], value);
      return true;
    }

    /** rpc_query_get: the default stands in only for what the last token does not find. */
    method GetPath(root: Ref, path: Text, default: Option<Ref>) returns (r: Option<Ref>)
      requires Valid(View()) && root in cells
      ensures var (h, tokens) := (View(), Tokens(path));
              match Resolve(h, root, tokens)
              case Some(x) => r == Some(x)
              case None => r == if MissesLast(h, root, tokens) then default else None
    {
      hide Atoi, Strtoull, Lookup, Split, NonEmpty;
      var tokens := Tokens(path);
      var leaf, k := Some(root), 0;
      assert tokens[0..] == tokens;
      while k < |tokens|
        invariant k <= |tokens| && (leaf.Some? ==> leaf.value in cells)
        invariant leaf.Some? ==>
                    && Resolve(View(), root, tokens) == Resolve(View(), leaf.value, tokens[k..])
                    && (k < |tokens| ==>
                          MissesLast(View(), root, tokens) == MissesLast(View(), leaf.value, tokens[k..]))
        invariant leaf.None? ==> Resolve(View(), root, tokens).None?
        invariant leaf.None? ==> (MissesLast(View(), root, tokens) <==> k == |tokens|)
      {
        if leaf.None? { return None; }
        var c := cells[leaf.value];
        if c.LeafCell? { return None; }
        var slot := if c.DictCell? then Key(tokens[k]) else Index(Atoi(tokens[k]));
        assert tokens[k..][1..] == tokens[k + 1..];
        if Lookup(c, slot).Some? { LookupValid(View(), leaf.value, slot); }
        leaf := Lookup(c, slot);
        k := k + 1;
      }
      r := if leaf.Some? then leaf else default;
    }
  }

  /** All tokens but the last lead to a container, which lacks the last. */
  predicate MissesLast(h: Heap, r: Ref, tokens: seq<Text>)
    decreases |tokens|
  {
    && tokens != [] && r in h.cells && GetSlot(h.cells[r], tokens[0]).Some?
    && var child := Lookup(h.cells[r], GetSlot(h.cells[r], tokens[0]).value);
       if |tokens| == 1 then child.None? else child.Some? && MissesLast(h, child.value, tokens[1..])
  }

  /** The definition of Set, one token further. */
  lemma SetStep(h: Heap, r: Ref, tokens: seq<Text>, v: Ref)
    requires tokens != [] && r in h.cells
    ensures Set(h, r, tokens, v) ==
              match SetSlot(h.cells[r], tokens[0])
              case None => None
              case Some(s) =>
                if |tokens| == 1 then Some(PutAt(h, r, s, v))
                else match Lookup(h.cells[r], s)
                  case Some(child) => Set(h, child, tokens[1..], v)
                  case None => Set(Grow(h, r, s, tokens[1]), h.next, tokens[1..], v)
  {
  }

  lemma FitIsEmpty(t: Text)
    ensures forall s :: Lookup(Fit(t), s).None?
  {
  }

  lemma StepValid(h: Heap, r: Ref, t: Text, next: Text)
    requires Valid(h) && r in h.cells && SetSlot(h.cells[r], t).Some?
    ensures var s := SetSlot(h.cells[r], t).value;
            if Lookup(h.cells[r], s).Some? then Lookup(h.cells[r], s).value in h.cells
            else Valid(Grow(h, r, s, next)) && h.next in Grow(h, r, s, next).cells
  {
    hide Strtoull;
    var s := SetSlot(h.cells[r], t).value;
    if Lookup(h.cells[r], s).Some? { LookupValid(h, r, s); } else { GrowValid(h, r, t, s, next); }
  }
}
