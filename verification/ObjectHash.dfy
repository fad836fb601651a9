/** rpc_hash and rpc_copy. */
module ObjectHash {
  import opened Bytes
  import opened Wrappers
  import opened Objects

  /** A number of type size_t. */
  type Word = x: int | 0 <= x < 0x1_0000_0000_0000_0000

  const WORDS: nat := 0x1_0000_0000_0000_0000

  /** Conversion of a number to size_t. */
  function ToWord(i: int): Word {
    i % WORDS
  }

  function Bit(x: nat, y: nat): nat {
    if x == y then 0 else 1
  }

  /** Exclusive or, bit by bit. */
  function XorBits(a: nat, b: nat): nat
    decreases a + b
  {
    if a == 0 && b == 0 then 0 else Bit(a % 2, b % 2) + 2 * XorBits(a / 2, b / 2)
  }

  function Power2(n: nat): nat {
    if n == 0 then 1 else 2 * Power2(n - 1)
  }

  lemma {:induction false} XorBound(a: nat, b: nat, n: nat)
    requires a < Power2(n) && b < Power2(n)
    ensures XorBits(a, b) < Power2(n)
    decreases n
  {
    if n > 0 && (a > 0 || b > 0) { XorBound(a / 2, b / 2, n - 1); }
  }

  lemma WordBits()
    ensures Power2(64) == WORDS
  {
    PowerOfBytes(8);
    Widths();
  }

  lemma {:induction false} PowerOfBytes(k: nat)
    ensures Power2(8 * k) == Pow256(k)
  {
    if k > 0 {
      PowerOfBytes(k - 1);
      var n := 8 * (k - 1);
      assert Power2(n + 4) == 16 * Power2(n) by { FourBits(n); }
      assert Power2(n + 8) == 16 * Power2(n + 4) by { FourBits(n + 4); }
    }
  }

  lemma FourBits(n: nat)
    ensures Power2(n + 4) == 16 * Power2(n)
  {
    assert Power2(n + 2) == 4 * Power2(n);
    assert Power2(n + 4) == 4 * Power2(n + 2);
  }

  function Xor(a: Word, b: Word): Word {
    WordBits();
    XorBound(a, b, 64);
    XorBits(a, b)
  }

  lemma {:induction false} XorCommutes(a: nat, b: nat)
    ensures XorBits(a, b) == XorBits(b, a)
    decreases a + b
  {
    if a > 0 || b > 0 { XorCommutes(a / 2, b / 2); }
  }

  lemma {:induction false} XorAssociates(a: nat, b: nat, c: nat)
    ensures XorBits(a, XorBits(b, c)) == XorBits(XorBits(a, b), c)
    decreases a + b + c
  {
    if a > 0 || b > 0 || c > 0 {
      XorAssociates(a / 2, b / 2, c / 2);
      hide XorBits;
      XorHalves(a, b);
      XorHalves(b, c);
      XorHalves(a, XorBits(b, c));
      XorHalves(XorBits(a, b), c);
      SameHalves(XorBits(a, XorBits(b, c)), XorBits(XorBits(a, b), c));
    }
  }

  lemma XorHalves(a: nat, b: nat)
    ensures XorBits(a, b) % 2 == Bit(a % 2, b % 2) && XorBits(a, b) / 2 == XorBits(a / 2, b / 2)
  {
    hide XorBits;
    XorStep(a, b);
    Halves(Bit(a % 2, b % 2), XorBits(a / 2, b / 2));
  }

  lemma XorStep(a: nat, b: nat)
    ensures XorBits(a, b) == Bit(a % 2, b % 2) + 2 * XorBits(a / 2, b / 2)
  {
    if a == 0 && b == 0 { XorNone(); }
  }

  lemma XorNone()
    ensures XorBits(0, 0) == 0
  {
  }

  lemma Halves(p: nat, q: nat)
    requires p < 2
    ensures (p + 2 * q) % 2 == p && (p + 2 * q) / 2 == q
  {
  }

  lemma SameHalves(x: nat, y: nat)
    requires x % 2 == y % 2 && x / 2 == y / 2
    ensures x == y
  {
  }

  lemma XorSwap(a: Word, b: Word, c: Word)
    ensures Xor(a, Xor(b, c)) == Xor(b, Xor(a, c))
  {
    hide XorBits;
    XorAssociates(a, b, c);
    XorCommutes(a, b);
    XorAssociates(b, a, c);
  }

  /** One turn of the loop of rpc_data_hash: a shift that drops the high bits, and two sums. */
  function Mix(hash: Word, b: byte): Word {
    ToWord(ToWord(hash * 32) + hash + b)
  }

  /** rpc_data_hash as a recurrence: the last byte goes in first. */
  function DataHash(data: seq<byte>): Word {
    if data == [] then 5381 else Mix(DataHash(data[1..]), data[0])
  }

  /** rpc_data_hash. */
  method HashData(data: seq<byte>) returns (hash: Word)
    ensures hash == DataHash(data)
  {
    hide Mix;
    hash := 5381;
    var length := |data|;
    assert data[length..] == [];
    while length > 0
      invariant length <= |data| && hash == DataHash(data[length..])
    {
      length := length - 1;
      assert data[length..][1..] == data[length + 1..];
      hash := Mix(hash, data[length]);
    }
    assert data[0..] == data;
  }

  /** g_string_hash of GLib, a 32-bit number. */
  function StringHash(s: Text): nat {
    if s == [] then 0
    else
      var c: int := s[|s| - 1];
      (StringHash(s[..|s| - 1]) * 31 + (if c < 0x80 then c else c - 0x100)) % 0x1_0000_0000
  }

  /** Conversion of a real number to an integer drops its fraction. */
  function Truncate(d: real): int {
    if d >= 0.0 then d.Floor else -((-d).Floor)
  }

  /** rpc_hash. */
  function Hash(o: Object): Word
    decreases o, 0
  {
    match o
    case Null => 0
    case Bool(b) => if b then 1 else 0
    case Int64(i) => ToWord(i)
    case UInt64(u) => ToWord(u)
    case Double(d) => ToWord(Truncate(d))
    case Date(t) => ToWord(t)
    case String(s) => ToWord(StringHash(s))
    case Binary(data) => DataHash(data)
    case Error(code, message, extra) => Xor(Xor(ToWord(code % 0x1_0000_0000), ToWord(StringHash(message))), Hash(extra))
    case Dict(entries) => HashEntries(entries)
    case Array(items) => HashItems(items)
  }

  function HashEntries(entries: seq<Entry>): Word
    decreases entries, 1
  {
    if entries == [] then 0
    else Xor(Xor(DataHash(entries[0].key), Hash(entries[0].value)), HashEntries(entries[1..]))
  }

  function HashItems(items: seq<Object>): Word
    decreases items, 1
  {
    if items == [] then 0 else Xor(Hash(items[0]), HashItems(items[1..]))
  }

  function EntryHash(e: Entry): Word {
    Xor(DataHash(e.key), Hash(e.value))
  }

  function Without(entries: seq<Entry>, j: nat): seq<Entry>
    requires j < |entries|
  {
    entries[..j] + entries[j + 1..]
  }

  /** The hash of a table does not depend on where an entry stands. */
  lemma {:induction false} HashWithout(entries: seq<Entry>, j: nat)
    requires j < |entries|
    ensures HashEntries(entries) == Xor(EntryHash(entries[j]), HashEntries(Without(entries, j)))
    decreases |entries|
  {
    hide Xor, Hash, DataHash;
    var rest := entries[1..];
    if j == 0 {
      assert Without(entries, 0) == rest;
    } else {
      HashWithout(rest, j - 1);
      assert rest[j - 1] == entries[j];
      assert Without(entries, j)[0] == entries[0];
      assert Without(entries, j)[1..] == Without(rest, j - 1);
      XorSwap(EntryHash(entries[0]), EntryHash(entries[j]), HashEntries(Without(rest, j - 1)));
    }
  }

  lemma {:induction false} FindWithout(entries: seq<Entry>, j: nat, key: Text)
    requires j < |entries| && entries[j].key != key
    ensures Find(Without(entries, j), key) == Find(entries, key)
    decreases |entries|
  {
    if j == 0 {
      assert Without(entries, 0) == entries[1..];
    } else {
      assert Without(entries, j)[0] == entries[0];
      assert Without(entries, j)[1..] == Without(entries[1..], j - 1);
      FindWithout(entries[1..], j - 1, key);
    }
  }

  /** The entry has a partner in the table with the same key and the same hash. */
  ghost predicate Paired(e: Entry, e2: seq<Entry>) {
    Find(e2, e.key).Some? && Hash(e.value) == Hash(Find(e2, e.key).value)
  }

  /** Tables of one size whose entries pair up have one hash, in whatever order they iterate. */
  lemma {:induction false} PairedHash(e1: seq<Entry>, e2: seq<Entry>)
    requires |e1| == |e2| && DistinctKeys(e1) && DistinctKeys(e2)
    requires forall i :: 0 <= i < |e1| ==> Paired(e1[i], e2)
    ensures HashEntries(e1) == HashEntries(e2)
    decreases |e1|
  {
    hide Xor, Hash, DataHash, Find;
    if e1 != [] {
      assert Paired(e1[0], e2);
      var j := FindSome(e2, e1[0].key);
      var (r1, r2) := (e1[1..], Without(e2, j));
      forall i | 0 <= i < |r1| ensures Paired(r1[i], r2) {
        assert r1[i] == e1[i + 1] && Paired(e1[i + 1], e2);
        FindWithout(e2, j, r1[i].key);
      }
      PairedHash(r1, r2);
      HashWithout(e2, j);
    }
  }

  lemma {:induction false} EqualHash(o1: Object, o2: Object)
    requires WellFormed(o1) && WellFormed(o2) && Equal(o1, o2)
    ensures Hash(o1) == Hash(o2)
    decreases o1, 1
  {
    hide Xor, EqualEntries, EqualItems, DataHash, StringHash, ToWord;
    match o1
    case Error(_, _, extra) => EqualHash(extra, o2.extra);
    case Dict(e1) =>
      var e2 := o2.entries;
      EntriesMeaning(e1, e2);
      forall i | 0 <= i < |e1| ensures Paired(e1[i], e2) {
        assert Matches(e1[i], e2);
        var j := FindSome(e2, e1[i].key);
        assert e2[j] in e2;
        EqualHash(e1[i].value, e2[j].value);
      }
      PairedHash(e1, e2);
    case Array(a1) =>
      ItemsMeaning(a1, o2.items);
      ItemsHash(a1, o2.items);
    case _ =>
  }

  lemma {:induction false} ItemsHash(a1: seq<Object>, a2: seq<Object>)
    requires |a1| == |a2| && forall i :: 0 <= i < |a1| ==> Equal(a1[i], a2[i])
    requires (forall x :: x in a1 ==> WellFormed(x)) && (forall x :: x in a2 ==> WellFormed(x))
    ensures HashItems(a1) == HashItems(a2)
    decreases a1, 0
  {
    hide Xor, Equal, Hash, WellFormed;
    if a1 != [] {
      EqualHash(a1[0], a2[0]);
      ItemsHash(a1[1..], a2[1..]);
    }
  }

  /** rpc_copy. Strings and error messages are copied as C strings. */
  function Copy(o: Object): Object
    decreases o, 0
  {
    match o
    case String(s) => String(Cut(s))
    case Error(code, message, extra) => Error(code, Cut(message), Copy(extra))
    case Dict(entries) => Dict(CopyEntries(entries))
    case Array(items) => Array(CopyItems(items))
    case _ => o
  }

  function CopyEntries(entries: seq<Entry>): (r: seq<Entry>)
    ensures |r| == |entries|
    ensures forall i :: 0 <= i < |r| ==> r[i] == Entry(entries[i].key, Copy(entries[i].value))
    decreases entries, 1
  {
    if entries == [] then [] else [Entry(entries[0].key, Copy(entries[0].value))] + CopyEntries(entries[1..])
  }

  function CopyItems(items: seq<Object>): (r: seq<Object>)
    ensures |r| == |items| && forall i :: 0 <= i < |r| ==> r[i] == Copy(items[i])
    decreases items, 1
  {
    if items == [] then [] else [Copy(items[0])] + CopyItems(items[1..])
  }

  /** No string or error message in `o` contains a zero byte. */
  predicate NulFree(o: Object) {
    match o
    case String(s) => 0 !in s
    case Error(_, message, extra) => 0 !in message && NulFree(extra)
    case Dict(entries) => forall e :: e in entries ==> NulFree(e.value)
    case Array(items) => forall x :: x in items ==> NulFree(x)
    case _ => true
  }

  /** A copy is equal to its original exactly when no string in it contains a zero byte. */
  lemma {:induction false} CopyEqual(o: Object)
    requires WellFormed(o)
    ensures Equal(Copy(o), o) <==> NulFree(o)
    decreases o
  {
    hide EqualEntries, EqualItems, Cut;
    match o
    case String(s) => CutWhole(s);
    case Error(_, message, extra) => CutWhole(message); CopyEqual(extra);
    case Dict(entries) =>
      forall i | 0 <= i < |entries|
        ensures Equal(Copy(entries[i].value), entries[i].value) <==> NulFree(entries[i].value)
      {
        CopyEqual(entries[i].value);
      }
      DictCopied(entries);
    case Array(items) =>
      forall i | 0 <= i < |items| ensures Equal(Copy(items[i]), items[i]) <==> NulFree(items[i]) {
        CopyEqual(items[i]);
      }
      ItemsMeaning(CopyItems(items), items);
    case _ =>
  }

  lemma DictCopied(entries: seq<Entry>)
    requires DistinctKeys(entries)
    requires forall i :: 0 <= i < |entries| ==>
               (Equal(Copy(entries[i].value), entries[i].value) <==> NulFree(entries[i].value))
    ensures Equal(Dict(CopyEntries(entries)), Dict(entries)) <==>
              forall i :: 0 <= i < |entries| ==> NulFree(entries[i].value)
  {
    hide Equal, Copy, CopyEntries, NulFree, Matches;
    var copies := CopyEntries(entries);
    forall i | 0 <= i < |entries| ensures Matches(copies[i], entries) <==> NulFree(entries[i].value) {
      EntryCopied(entries, i);
    }
    TablesExactly(copies, entries);
  }

  lemma EntryCopied(entries: seq<Entry>, i: nat)
    requires DistinctKeys(entries) && i < |entries|
    ensures Matches(CopyEntries(entries)[i], entries) <==> Equal(Copy(entries[i].value), entries[i].value)
  {
    hide Equal, Copy, Find;
    FindAt(entries, i);
  }

  lemma TablesExactly(e1: seq<Entry>, e2: seq<Entry>)
    requires |e1| == |e2|
    ensures Equal(Dict(e1), Dict(e2)) <==> forall i :: 0 <= i < |e1| ==> Matches(e1[i], e2)
  {
    hide Matches, EqualEntries;
    EntriesMeaning(e1, e2);
  }

  /** Tables with the same entries are equal, in whatever order they iterate. */
  lemma OrderIsIrrelevant(e1: seq<Entry>, e2: seq<Entry>)
    requires WellFormed(Dict(e1)) && DistinctKeys(e2) && multiset(e1) == multiset(e2)
    ensures Equal(Dict(e1), Dict(e2)) && Hash(Dict(e1)) == Hash(Dict(e2))
  {
    hide EqualEntries, Equal, Hash;
    assert forall e :: e in e1 <==> e in multiset(e1);
    assert forall e :: e in e2 <==> e in multiset(e2);
    assert |e1| == |multiset(e1)| == |e2|;
    forall i | 0 <= i < |e1| ensures Matches(e1[i], e2) {
      assert e1[i] in e2;
      var j :| 0 <= j < |e2| && e2[j] == e1[i];
      FindAt(e2, j);
      EqualReflexive(e1[i].value);
    }
    TablesExactly(e1, e2);
    EqualHash(Dict(e1), Dict(e2));
  }
}
