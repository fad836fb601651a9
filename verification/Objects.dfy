/** Objects of librpc as values: deep equality, hash and copy. */
module Objects {
  import opened Bytes
  import opened Wrappers

  /** A dictionary is its entries in the order its table iterates them. Doubles are real numbers. */
  datatype Object =
    | Null
    | Bool(b: bool)
    | Int64(i: i64)
    | UInt64(u: u64)
    | Double(d: real)
    | Date(t: i64)
    | String(s: Text)
    | Binary(data: seq<byte>)
    | Error(code: int, message: Text, extra: Object)
    | Dict(entries: seq<Entry>)
    | Array(items: seq<Object>)

  datatype Entry = Entry(key: Text, value: Object)

  /** A C string ends at its first zero byte. */
  function Cut(s: Text): Text {
    if s == [] || s[0] == 0 then [] else [s[0]] + Cut(s[1..])
  }

  lemma {:induction false} CutWhole(s: Text)
    ensures Cut(s) == s <==> 0 !in s
  {
    if s != [] && s[0] != 0 {
      CutWhole(s[1..]);
      assert s == [s[0]] + s[1..];
      assert Cut(s)[1..] == Cut(s[1..]);
    }
  }

  /** No two entries of one table share a key. */
  predicate DistinctKeys(entries: seq<Entry>) {
    forall i, j :: 0 <= i < j < |entries| ==> entries[i].key != entries[j].key
  }

  predicate WellFormed(o: Object) {
    match o
    case Error(_, _, extra) => WellFormed(extra)
    case Dict(entries) => DistinctKeys(entries) && forall e :: e in entries ==> WellFormed(e.value)
    case Array(items) => forall x :: x in items ==> WellFormed(x)
    case _ => true
  }

  function Find(entries: seq<Entry>, key: Text): Option<Object> {
    if entries == [] then None
    else if entries[0].key == key then Some(entries[0].value)
    else Find(entries[1..], key)
  }

  /** rpc_equal. */
  predicate Equal(o1: Object, o2: Object)
    decreases o1, 0
  {
    match o1
    case Null => o2.Null?
    case Bool(b) => o2.Bool? && b == o2.b
    case Int64(i) => o2.Int64? && i == o2.i
    case UInt64(u) => o2.UInt64? && u == o2.u
    case Double(d) => o2.Double? && d == o2.d
    case Date(t) => o2.Date? && t == o2.t
    case String(s) => o2.String? && s == o2.s
    case Binary(data) => o2.Binary? && |data| == |o2.data| && data == o2.data
    case Error(code, message, extra) => o2.Error? && code == o2.code && message == o2.message && Equal(extra, o2.extra)
    case Dict(entries) => o2.Dict? && |entries| == |o2.entries| && EqualEntries(entries, o2.entries)
    case Array(items) => o2.Array? && |items| == |o2.items| && EqualItems(items, o2.items)
  }

  /** The loop over the first table, looking up the second. */
  predicate EqualEntries(e1: seq<Entry>, e2: seq<Entry>)
    decreases e1, 1
  {
    e1 == [] ||
    (match Find(e2, e1[0].key)
     case None => false
     case Some(v2) => Equal(e1[0].value, v2) && EqualEntries(e1[1..], e2))
  }

  predicate EqualItems(a1: seq<Object>, a2: seq<Object>)
    requires |a1| <= |a2|
    decreases a1, 1
  {
    a1 == [] || (Equal(a1[0], a2[0]) && EqualItems(a1[1..], a2[1..]))
  }

  lemma {:induction false} FindAt(entries: seq<Entry>, j: nat)
    requires DistinctKeys(entries) && j < |entries|
    ensures Find(entries, entries[j].key) == Some(entries[j].value)
    decreases |entries|
  {
    if j > 0 {
      assert entries[j] == entries[1..][j - 1];
      FindAt(entries[1..], j - 1);
    }
  }

  lemma {:induction false} FindSome(entries: seq<Entry>, key: Text) returns (j: nat)
    requires Find(entries, key).Some?
    ensures j < |entries| && entries[j] == Entry(key, Find(entries, key).value)
    decreases |entries|
  {
    if entries[0].key == key { return 0; }
    var k := FindSome(entries[1..], key);
    j := k + 1;
  }

  /** What the loops decide, as quantified statements. */
  ghost predicate Matches(e: Entry, e2: seq<Entry>) {
    Find(e2, e.key).Some? && Equal(e.value, Find(e2, e.key).value)
  }

  lemma {:induction false} EntriesMeaning(e1: seq<Entry>, e2: seq<Entry>)
    ensures EqualEntries(e1, e2) <==> forall i :: 0 <= i < |e1| ==> Matches(e1[i], e2)
    decreases |e1|
  {
    hide Equal, Find;
    if e1 != [] {
      EntriesMeaning(e1[1..], e2);
      assert EqualEntries(e1, e2) <==> Matches(e1[0], e2) && EqualEntries(e1[1..], e2);
      if forall i :: 0 <= i < |e1| ==> Matches(e1[i], e2) {
        forall i | 0 <= i < |e1[1..]| ensures Matches(e1[1..][i], e2) { assert e1[1..][i] == e1[i + 1]; }
      }
      if Matches(e1[0], e2) && forall i :: 0 <= i < |e1[1..]| ==> Matches(e1[1..][i], e2) {
        forall i | 0 <= i < |e1| ensures Matches(e1[i], e2) { if i > 0 { assert e1[i] == e1[1..][i - 1]; } }
      }
    }
  }

  lemma {:induction false} ItemsMeaning(a1: seq<Object>, a2: seq<Object>)
    requires |a1| == |a2|
    ensures EqualItems(a1, a2) <==> forall i :: 0 <= i < |a1| ==> Equal(a1[i], a2[i])
    decreases |a1|
  {
    hide Equal;
    if a1 != [] {
      ItemsMeaning(a1[1..], a2[1..]);
      if forall i :: 0 <= i < |a1| ==> Equal(a1[i], a2[i]) {
        forall i | 0 <= i < |a1[1..]| ensures Equal(a1[1..][i], a2[1..][i]) { assert a1[1..][i] == a1[i + 1]; }
      }
      if EqualItems(a1, a2) {
        forall i | 0 <= i < |a1| ensures Equal(a1[i], a2[i]) {
          if i > 0 { assert a1[i] == a1[1..][i - 1] && a2[i] == a2[1..][i - 1]; }
        }
      }
    }
  }

  lemma {:induction false} EqualReflexive(o: Object)
    requires WellFormed(o)
    ensures Equal(o, o)
    decreases o
  {
    hide EqualEntries, EqualItems;
    match o
    case Error(_, _, extra) => EqualReflexive(extra);
    case Dict(entries) =>
      EntriesMeaning(entries, entries);
      forall i | 0 <= i < |entries| ensures Matches(entries[i], entries) {
        FindAt(entries, i);
        EqualReflexive(entries[i].value);
      }
    case Array(items) =>
      ItemsMeaning(items, items);
      forall i | 0 <= i < |items| ensures Equal(items[i], items[i]) { EqualReflexive(items[i]); }
    case _ =>
  }

  function Keys(entries: seq<Entry>): (keys: set<Text>)
    ensures forall i :: 0 <= i < |entries| ==> entries[i].key in keys
    ensures forall k :: k in keys ==> exists i :: 0 <= i < |entries| && entries[i].key == k
  {
    if entries == [] then {}
    else
      var rest := Keys(entries[1..]);
      assert forall i :: 1 <= i < |entries| ==> entries[i] == entries[1..][i - 1];
      {entries[0].key} + rest
  }

  lemma {:induction false} KeyCount(entries: seq<Entry>)
    requires DistinctKeys(entries)
    ensures |Keys(entries)| == |entries|
  {
    if entries != [] {
      var rest := entries[1..];
      KeyCount(rest);
      forall i | 0 <= i < |rest| ensures rest[i].key != entries[0].key { assert rest[i] == entries[i + 1]; }
    }
  }

  /** Tables of one size, the first found in the second: then every key of the second is in the first. */
  lemma SameKeys(e1: seq<Entry>, e2: seq<Entry>)
    requires DistinctKeys(e1) && DistinctKeys(e2) && |e1| == |e2|
    requires forall i :: 0 <= i < |e1| ==> Matches(e1[i], e2)
    ensures Keys(e1) == Keys(e2)
  {
    hide Equal;
    KeyCount(e1);
    KeyCount(e2);
    forall k | k in Keys(e1) ensures k in Keys(e2) {
      var i :| 0 <= i < |e1| && e1[i].key == k;
      assert Matches(e1[i], e2);
      var j := FindSome(e2, k);
      assert e2[j].key in Keys(e2);
    }
    SubsetOfSameSize(Keys(e1), Keys(e2));
  }

  lemma SubsetOfSameSize(a: set<Text>, b: set<Text>)
    requires a <= b && |a| == |b|
    ensures a == b
  {
    assert |b - a| == 0;
  }

  lemma {:induction false} EqualSymmetric(o1: Object, o2: Object)
    requires WellFormed(o1) && WellFormed(o2) && Equal(o1, o2)
    ensures Equal(o2, o1)
    decreases o1
  {
    hide EqualEntries, EqualItems;
    match o1
    case Error(_, _, extra) => EqualSymmetric(extra, o2.extra);
    case Dict(e1) =>
      var e2 := o2.entries;
      EntriesMeaning(e1, e2);
      EntriesMeaning(e2, e1);
      SameKeys(e1, e2);
      forall j | 0 <= j < |e2| ensures Matches(e2[j], e1) {
        assert e2[j].key in Keys(e1);
        var i :| 0 <= i < |e1| && e1[i].key == e2[j].key;
        FindAt(e1, i);
        FindAt(e2, j);
        assert Matches(e1[i], e2);
        EqualSymmetric(e1[i].value, e2[j].value);
      }
    case Array(a1) =>
      var a2 := o2.items;
      ItemsMeaning(a1, a2);
      ItemsMeaning(a2, a1);
      forall i | 0 <= i < |a1| ensures Equal(a2[i], a1[i]) { EqualSymmetric(a1[i], a2[i]); }
    case _ =>
  }

  lemma {:induction false} EqualTransitive(o1: Object, o2: Object, o3: Object)
    requires WellFormed(o2) && Equal(o1, o2) && Equal(o2, o3)
    ensures Equal(o1, o3)
    decreases o1
  {
    hide EqualEntries, EqualItems;
    match o1
    case Error(_, _, extra) => EqualTransitive(extra, o2.extra, o3.extra);
    case Dict(e1) =>
      var (e2, e3) := (o2.entries, o3.entries);
      EntriesMeaning(e1, e2);
      EntriesMeaning(e2, e3);
      EntriesMeaning(e1, e3);
      forall i | 0 <= i < |e1| ensures Matches(e1[i], e3) {
        assert Matches(e1[i], e2);
        var j := FindSome(e2, e1[i].key);
        assert Matches(e2[j], e3);
        EqualTransitive(e1[i].value, e2[j].value, Find(e3, e1[i].key).value);
      }
    case Array(a1) =>
      var (a2, a3) := (o2.items, o3.items);
      ItemsMeaning(a1, a2);
      ItemsMeaning(a2, a3);
      ItemsMeaning(a1, a3);
      forall i | 0 <= i < |a1| ensures Equal(a1[i], a3[i]) { EqualTransitive(a1[i], a2[i], a3[i]); }
    case _ =>
  }
}
