/** The rules of a query, and the iterator that applies them to an array. */
module Query {
  import opened Bytes
  import opened Wrappers
  import opened Objects

  const OR: Text := [0x6f, 0x72]
  const AND: Text := [0x61, 0x6e, 0x64]
  const NOR: Text := [0x6e, 0x6f, 0x72]

  /** Field operators compare a field of an object with a value; what they compute is left open. */
  type FieldOperator = (Object, Object) -> bool

  /** eval_rule with eval_logic_operator: a rule of two parts combines rules, one of three is a field
      operator. Two rules without an operator are both to hold. */
  predicate Eval(field: FieldOperator, obj: Object, rule: Object)
    decreases rule, 0
  {
    if !rule.Array? then false
    else if |rule.items| == 2 then
      var (op, list) := (rule.items[0], rule.items[1]);
      if op.Array? then AndLoop(field, obj, rule.items, false)
      else if !op.String? || !list.Array? then false
      else if Cut(op.s) == OR then OrLoop(field, obj, list.items, false)
      else if Cut(op.s) == AND then AndLoop(field, obj, list.items, false)
      else if Cut(op.s) == NOR then NorLoop(field, obj, list.items, false)
      else false
    else |rule.items| == 3 && field(obj, rule)
  }

  /** The loop of eval_logic_and: stops at the first rule that fails. */
  predicate AndLoop(field: FieldOperator, obj: Object, rules: seq<Object>, result: bool)
    decreases rules, 1
  {
    if rules == [] then result
    else
      var r := Eval(field, obj, rules[0]);
      if !r then r else AndLoop(field, obj, rules[1..], r)
  }

  /** The loop of eval_logic_or: stops at the first rule that holds. */
  predicate OrLoop(field: FieldOperator, obj: Object, rules: seq<Object>, result: bool)
    decreases rules, 1
  {
    if rules == [] then result
    else
      var r := Eval(field, obj, rules[0]);
      if r then r else OrLoop(field, obj, rules[1..], r)
  }

  /** The loop of eval_logic_nor: stops at the first rule that holds. */
  predicate NorLoop(field: FieldOperator, obj: Object, rules: seq<Object>, result: bool)
    decreases rules, 1
  {
    if rules == [] then result
    else
      var r := !Eval(field, obj, rules[0]);
      if !r then r else NorLoop(field, obj, rules[1..], r)
  }

  /** The loops mean what their names say, except that over no rules they are all false. */
  lemma {:induction false} AndMeaning(field: FieldOperator, obj: Object, rules: seq<Object>, result: bool)
    ensures AndLoop(field, obj, rules, result) <==>
              (rules != [] || result) && forall r :: r in rules ==> Eval(field, obj, r)
    decreases |rules|
  {
    hide Eval;
    if rules != [] {
      var r0 := Eval(field, obj, rules[0]);
      AndMeaning(field, obj, rules[1..], r0);
      assert rules[0] in rules;
      assert forall r :: r in rules <==> r == rules[0] || r in rules[1..];
    }
  }

  lemma {:induction false} OrMeaning(field: FieldOperator, obj: Object, rules: seq<Object>, result: bool)
    ensures OrLoop(field, obj, rules, result) <==>
              (rules == [] && result) || exists r :: r in rules && Eval(field, obj, r)
    decreases |rules|
  {
    hide Eval;
    if rules != [] {
      OrMeaning(field, obj, rules[1..], Eval(field, obj, rules[0]));
      assert rules[0] in rules;
      assert forall r :: r in rules <==> r == rules[0] || r in rules[1..];
    }
  }

  lemma {:induction false} NorMeaning(field: FieldOperator, obj: Object, rules: seq<Object>, result: bool)
    ensures NorLoop(field, obj, rules, result) <==>
              (rules != [] || result) && forall r :: r in rules ==> !Eval(field, obj, r)
    decreases |rules|
  {
    hide Eval;
    if rules != [] {
      NorMeaning(field, obj, rules[1..], !Eval(field, obj, rules[0]));
      assert rules[0] in rules;
      assert forall r :: r in rules <==> r == rules[0] || r in rules[1..];
    }
  }

  /** What a combining rule decides. */
  lemma EvalMeaning(field: FieldOperator, obj: Object, op: Text, rules: seq<Object>)
    ensures Eval(field, obj, Array([String(OR), Array(rules)])) <==> exists r :: r in rules && Eval(field, obj, r)
    ensures Eval(field, obj, Array([String(AND), Array(rules)])) <==>
              rules != [] && forall r :: r in rules ==> Eval(field, obj, r)
    ensures Eval(field, obj, Array([String(NOR), Array(rules)])) <==>
              rules != [] && forall r :: r in rules ==> !Eval(field, obj, r)
    ensures Cut(op) !in {OR, AND, NOR} ==> !Eval(field, obj, Array([String(op), Array(rules)]))
    ensures forall a: Object, b: Object :: a.Array? ==>
              (Eval(field, obj, Array([a, b])) <==> Eval(field, obj, a) && Eval(field, obj, b))
  {
    hide Eval;
    OrRule(field, obj, rules);
    AndRule(field, obj, rules);
    NorRule(field, obj, rules);
    OtherRule(field, obj, op, rules);
    forall a: Object, b: Object | a.Array?
      ensures Eval(field, obj, Array([a, b])) <==> Eval(field, obj, a) && Eval(field, obj, b)
    {
      TwoRules(field, obj, a, b);
    }
  }

  lemma OrRule(field: FieldOperator, obj: Object, rules: seq<Object>)
    ensures Eval(field, obj, Array([String(OR), Array(rules)])) <==> exists r :: r in rules && Eval(field, obj, r)
  {
    hide AndLoop, OrLoop, NorLoop;
    CutWhole(OR);
    OrMeaning(field, obj, rules, false);
  }

  lemma AndRule(field: FieldOperator, obj: Object, rules: seq<Object>)
    ensures Eval(field, obj, Array([String(AND), Array(rules)])) <==>
              rules != [] && forall r :: r in rules ==> Eval(field, obj, r)
  {
    hide AndLoop, OrLoop, NorLoop;
    CutWhole(AND);
    AndMeaning(field, obj, rules, false);
  }

  lemma NorRule(field: FieldOperator, obj: Object, rules: seq<Object>)
    ensures Eval(field, obj, Array([String(NOR), Array(rules)])) <==>
              rules != [] && forall r :: r in rules ==> !Eval(field, obj, r)
  {
    hide AndLoop, OrLoop, NorLoop;
    CutWhole(NOR);
    NorMeaning(field, obj, rules, false);
  }

  lemma OtherRule(field: FieldOperator, obj: Object, op: Text, rules: seq<Object>)
    ensures Cut(op) !in {OR, AND, NOR} ==> !Eval(field, obj, Array([String(op), Array(rules)]))
  {
    hide AndLoop, OrLoop, NorLoop;
  }

  /** A rule of three parts is a field operator's; what is no array, or has another number of parts, never holds. */
  lemma OtherForms(field: FieldOperator, obj: Object, rule: Object)
    ensures rule.Array? && |rule.items| == 3 ==> (Eval(field, obj, rule) <==> field(obj, rule))
    ensures !rule.Array? || (|rule.items| != 2 && |rule.items| != 3) ==> !Eval(field, obj, rule)
    ensures rule.Array? && |rule.items| == 2 && !rule.items[0].Array? && !rule.items[0].String? ==>
              !Eval(field, obj, rule)
    ensures rule.Array? && |rule.items| == 2 && !rule.items[0].Array? && !rule.items[1].Array? ==>
              !Eval(field, obj, rule)
  {
    hide AndLoop, OrLoop, NorLoop;
  }

  lemma TwoRules(field: FieldOperator, obj: Object, a: Object, b: Object)
    requires a.Array?
    ensures Eval(field, obj, Array([a, b])) <==> Eval(field, obj, a) && Eval(field, obj, b)
  {
    hide AndLoop, OrLoop, NorLoop;
    AndMeaning(field, obj, [a, b], false);
  }

  /** All rules hold; without an array of rules nothing passes. */
  predicate Passes(field: FieldOperator, rules: Option<Object>, obj: Object) {
    rules.Some? && rules.value.Array? && forall r :: r in rules.value.items ==> Eval(field, obj, r)
  }

  /** rpc_query_steal_apply: the loop over the rules stops at the first that fails. */
  method Apply(field: FieldOperator, rules: Option<Object>, obj: Object) returns (pass: bool)
    ensures pass <==> Passes(field, rules, obj)
  {
    hide Eval;
    if rules.None? { return false; }
    if !rules.value.Array? { return false; }
    var (items, i) := (rules.value.items, 0);
    while i < |items|
      invariant i <= |items| && forall r :: r in items[..i] ==> Eval(field, obj, r)
    {
      if !Eval(field, obj, items[i]) {
        assert items[i] in items;
        return false;
      }
      assert items[..i + 1] == items[..i] + [items[i]];
      i := i + 1;
    }
    assert items[..i] == items;
    return true;
  }

  /** The objects of `items` that pass, in order. */
  function Matching(field: FieldOperator, rules: Option<Object>, items: seq<Object>): seq<Object> {
    if items == [] then []
    else (if Passes(field, rules, items[0]) then [items[0]] else []) + Matching(field, rules, items[1..])
  }

  lemma MatchingCons(field: FieldOperator, rules: Option<Object>, x: Object, rest: seq<Object>)
    ensures Matching(field, rules, [x] + rest) ==
              (if Passes(field, rules, x) then [x] else []) + Matching(field, rules, rest)
  {
    hide Passes;
    assert ([x] + rest)[1..] == rest;
  }

  /** A filter: part by part, and of one object that object if it passes. */
  lemma {:induction false} MatchingParts(field: FieldOperator, rules: Option<Object>, a: seq<Object>, b: seq<Object>)
    ensures Matching(field, rules, a + b) == Matching(field, rules, a) + Matching(field, rules, b)
    ensures |a| == 1 ==> Matching(field, rules, a) == if Passes(field, rules, a[0]) then a else []
    decreases |a|
  {
    hide Passes, Matching;
    if a == [] {
      assert a + b == b;
      MatchingNone(field, rules);
    } else {
      var (x, rest) := (a[0], a[1..]);
      assert a == [x] + rest && a + b == [x] + (rest + b);
      MatchingParts(field, rules, rest, b);
      MatchingCons(field, rules, x, rest);
      MatchingCons(field, rules, x, rest + b);
      MatchingNone(field, rules);
      Assoc(if Passes(field, rules, x) then [x] else [], Matching(field, rules, rest), Matching(field, rules, b));
    }
  }

  lemma MatchingNone(field: FieldOperator, rules: Option<Object>)
    ensures Matching(field, rules, []) == []
  {
  }

  lemma Assoc(a: seq<Object>, b: seq<Object>, c: seq<Object>)
    ensures a + (b + c) == a + b + c
  {
  }

  function Drop(n: nat, s: seq<Object>): seq<Object> {
    if n <= |s| then s[n..] else []
  }

  function Take(n: nat, s: seq<Object>): seq<Object> {
    if n <= |s| then s[..n] else s
  }

  function Reversed(s: seq<Object>): seq<Object> {
    if s == [] then [] else Reversed(s[1..]) + [s[0]]
  }

  lemma {:induction false} ReversedAt(s: seq<Object>, i: nat)
    requires i < |s|
    ensures |Reversed(s)| == |s| && Reversed(s)[i] == s[|s| - 1 - i]
    decreases |s|
  {
    if |s| > 1 { ReversedAt(s[1..], if i < |s| - 1 then i else 0); }
  }

  /** rpc_array_reverse_apply with a block that appends. */
  method ReverseApply(s: seq<Object>) returns (r: seq<Object>)
    ensures r == Reversed(s) && |r| == |s| && forall k :: 0 <= k < |s| ==> r[k] == s[|s| - 1 - k]
  {
    hide Reversed;
    r := [];
    var i := |s|;
    while i > 0
      invariant 0 <= i <= |s| && |r| == |s| - i && forall k :: 0 <= k < |r| ==> r[k] == s[|s| - 1 - k]
    {
      i := i - 1;
      r := r + [s[i]];
    }
    ReversedSize(s);
    forall k | 0 <= k < |s| ensures r[k] == Reversed(s)[k] { ReversedAt(s, k); }
  }

  lemma {:induction false} ReversedSize(s: seq<Object>)
    ensures |Reversed(s)| == |s|
  {
    if s != [] { ReversedSize(s[1..]); }
  }

  /** The callback may drop an object by returning nothing. */
  type Callback = Object -> Option<Object>

  function Images(callback: Callback, s: seq<Object>): seq<Object> {
    if s == [] then []
    else (if callback(s[0]).Some? then [callback(s[0]).value] else []) + Images(callback, s[1..])
  }

  /** Images part by part; of one object its image, if there is one. */
  lemma {:induction false} ImagesParts(callback: Callback, a: seq<Object>, b: seq<Object>)
    ensures Images(callback, a + b) == Images(callback, a) + Images(callback, b)
    ensures |a| == 1 ==> Images(callback, a) == if callback(a[0]).Some? then [callback(a[0]).value] else []
    decreases |a|
  {
    hide Images;
    ImagesStep(callback, a);
    if a == [] {
      assert a + b == b;
    } else {
      var rest := a[1..];
      assert (a + b)[1..] == rest + b;
      ImagesParts(callback, rest, b);
      ImagesStep(callback, a + b);
      ImagesStep(callback, rest);
      Assoc(if callback(a[0]).Some? then [callback(a[0]).value] else [], Images(callback, rest), Images(callback, b));
    }
  }

  /** The options of a query without `count` and `single`. A limit of zero is none. */
  datatype Params = Params(
    sort: Option<seq<Object> -> seq<Object>>, reverse: bool, offset: nat, limit: nat, callback: Callback)

  /** The source in the order the query goes through it. */
  function Ordered(p: Params, source: seq<Object>): seq<Object> {
    var sorted := if p.sort.Some? then (p.sort.value)(source) else source;
    if p.reverse then Reversed(sorted) else sorted
  }

  /** What a query yields. */
  function Answer(field: FieldOperator, rules: Option<Object>, p: Params, source: seq<Object>): seq<Object> {
    var found := Drop(p.offset, Matching(field, rules, Ordered(p, source)));
    Images(p.callback, if p.limit == 0 then found else Take(p.limit, found))
  }

  class Iterator {
    const field: FieldOperator
    const rules: Option<Object>
    const params: Params
    var source: seq<Object>
    var idx: nat
    var done: bool
    var initialized: bool
    var limit: nat

    /** The matches ahead. */
    ghost function Ahead(): seq<Object>
      reads this
    {
      Matching(field, rules, Drop(idx, source))
    }

    /** The matches ahead that the limit still allows. */
    ghost function Allowed(): seq<Object>
      requires limit <= params.limit || params.limit == 0
      reads this
    {
      if params.limit == 0 then Ahead() else Take(params.limit - limit, Ahead())
    }

    ghost predicate Valid()
      reads this
    {
      && (limit <= params.limit || params.limit == 0)
      && (!initialized ==> idx == 0 && limit == 0)
    }

    /** What the iterator will still yield. */
    ghost function Pending(): seq<Object>
      requires Valid()
      reads this
    {
      if done then []
      else if !initialized then Answer(field, rules, params, source)
      else Images(params.callback, Allowed())
    }

    /** rpc_query. */
    constructor (field: FieldOperator, rules: Option<Object>, params: Params, source: seq<Object>)
      ensures Valid() && Pending() == Answer(field, rules, params, source)
    {
      this.field, this.rules, this.params, this.source := field, rules, params, source;
      idx, done, initialized, limit := 0, false, false, 0;
    }

    /** The loop of rpc_query_find_next. */
    method FindMatch() returns (result: Option<Object>)
      modifies this`idx
      ensures if old(Ahead()) == [] then result.None? && Ahead() == []
              else result == Some(old(Ahead())[0]) && Ahead() == old(Ahead())[1..]
    {
      hide Passes;
      while true
        invariant Ahead() == old(Ahead())
        decreases if idx <= |source| then |source| - idx else 0
      {
        var current := if idx < |source| then Some(source[idx]) else None;
        ghost var items := Drop(idx, source);
        idx := idx + 1;
        if current.None? { return None; }
        assert items[0] == current.value && items[1..] == Drop(idx, source);
        var pass := Apply(field, rules, current.value);
        if pass { return current; }
      }
    }

    /** rpc_query_find_next: the limit counts only once the offset has been passed. */
    method FindNext() returns (result: Option<Object>)
      requires limit <= params.limit || params.limit == 0
      modifies this`idx, this`limit
      ensures limit <= params.limit || params.limit == 0
      ensures !initialized ==>
                && limit == old(limit)
                && (if old(Ahead()) == [] then result.None? && Ahead() == []
                    else result == Some(old(Ahead())[0]) && Ahead() == old(Ahead())[1..])
      ensures initialized ==>
                if old(Allowed()) == [] then result.None?
                else result == Some(old(Allowed())[0]) && Allowed() == old(Allowed())[1..]
    {
      hide Passes, Matching;
      result := FindMatch();
      if params.limit > 0 {
        if result.Some? && initialized {
          if limit < params.limit {
            limit := limit + 1;
          } else {
            result := None;
          }
        }
      }
    }

    /** What rpc_query_next does at its first call: order the source and pass the offset. */
    method Initialize()
      requires Valid() && !initialized && !done
      modifies this
      ensures Valid() && initialized && !done && Pending() == old(Pending())
    {
      hide Passes, Matching, Images, Reversed;
      if params.sort.Some? { source := (params.sort.value)(source); }
      if params.reverse { source := ReverseApply(source); }
      assert source == Ordered(params, old(source));
      hide Ordered;
      assert Drop(0, source) == source;
      ghost var found := Ahead();
      var i := 0;
      while i < params.offset
        invariant i <= params.offset && limit == 0 && Ahead() == Drop(i, found)
        modifies this`idx, this`limit
      {
        var passed := FindNext();
        if passed.None? {
          assert Drop(params.offset, found) == [];
          break;
        }
        i := i + 1;
      }
      assert Ahead() == Drop(params.offset, found);
      initialized := true;
    }

    /** The loop of rpc_query_next: the next match whose image is not null. */
    method NextImage() returns (chunk: Option<Object>)
      requires Valid() && initialized
      modifies this`idx, this`limit
      ensures Valid()
      ensures var (before, after) := (old(Images(params.callback, Allowed())), Images(params.callback, Allowed()));
              if before == [] then chunk.None? else chunk == Some(before[0]) && after == before[1..]
    {
      hide Passes, Matching, Images, Allowed;
      ghost var pending := Images(params.callback, Allowed());
      while true
        invariant Valid() && Images(params.callback, Allowed()) == pending
        decreases |Allowed()|
      {
        ImagesStep(params.callback, Allowed());
        chunk := FindNext();
        if chunk.None? { return; }
        chunk := (params.callback)(chunk.value);
        if chunk.Some? { return; }
      }
    }

    /** rpc_query_next. */
    method Next() returns (more: bool, chunk: Option<Object>)
      requires Valid()
      modifies this
      ensures Valid() && more == chunk.Some?
      ensures if old(Pending()) == [] then !more && done && Pending() == []
              else chunk == Some(old(Pending())[0]) && Pending() == old(Pending())[1..]
    {
      hide Answer, Images, Allowed;
      if done { return false, None; }
      if !initialized { Initialize(); }
      chunk := NextImage();
      more := chunk.Some?;
      done := chunk.None?;
    }
  }

  lemma ImagesStep(callback: Callback, items: seq<Object>)
    ensures items == [] ==> Images(callback, items) == []
    ensures items != [] ==>
              var (image, rest) := (callback(items[0]), Images(callback, items[1..]));
              Images(callback, items) == if image.Some? then [image.value] + rest else rest
  {
  }

  /** Moving the next object from what is pending to what was yielded. */
  lemma OneMore(all: seq<Object>, pending: seq<Object>, next: Object, rest: seq<Object>)
    requires pending == [next] + rest
    ensures (all + [next]) + rest == all + pending && |rest| < |pending|
  {
  }

  /** Calling rpc_query_next until it reports the end yields what is pending. */
  method Collect(it: Iterator) returns (all: seq<Object>)
    requires it.Valid()
    modifies it
    ensures all == old(it.Pending())
  {
    hide Iterator.Valid, Iterator.Pending;
    all := [];
    while true
      invariant it.Valid() && all + it.Pending() == old(it.Pending())
      decreases |it.Pending()|
    {
      ghost var pending := it.Pending();
      var more, chunk := it.Next();
      if !more { return; }
      OneMore(all, pending, chunk.value, it.Pending());
      all := all + [chunk.value];
    }
  }

  /** A whole query. */
  method RunQuery(field: FieldOperator, rules: Option<Object>, params: Params, source: seq<Object>)
    returns (all: seq<Object>)
    ensures all == Answer(field, rules, params, source)
  {
    hide Answer, Iterator.Valid, Iterator.Pending;
    var it := new Iterator(field, rules, params, source);
    all := Collect(it);
  }
}
