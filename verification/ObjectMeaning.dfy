/** What objects mean, with dictionaries as maps: deep equality is equality of meanings, and what hashes and copies
    are in those terms. */
module ObjectMeaning {
  import opened Bytes
  import opened Wrappers
  import opened Objects
  import opened ObjectHash

  datatype Meaning =
    | Plain(scalar: Object)
    | ErrorOf(code: int, message: Text, extra: Meaning)
    | DictOf(entries: map<Text, Meaning>)
    | ArrayOf(items: seq<Meaning>)

  function MeaningOf(o: Object): Meaning
    decreases o, 0
  {
    match o
    case Error(code, message, extra) => ErrorOf(code, message, MeaningOf(extra))
    case Dict(entries) => DictOf(MeaningOfEntries(entries))
    case Array(items) => ArrayOf(MeaningOfItems(items))
    case _ => Plain(o)
  }

  function MeaningOfEntries(entries: seq<Entry>): map<Text, Meaning>
    decreases entries, 1
  {
    if entries == [] then map[] else MeaningOfEntries(entries[1..])[entries[0].key := MeaningOf(entries[0].value)]
  }

  function MeaningOfItems(items: seq<Object>): (r: seq<Meaning>)
    ensures |r| == |items| && forall i :: 0 <= i < |r| ==> r[i] == MeaningOf(items[i])
    decreases items, 1
  {
    if items == [] then [] else [MeaningOf(items[0])] + MeaningOfItems(items[1..])
  }

  /** The map of a table is what looking up finds. */
  lemma {:induction false} EntryMeaning(entries: seq<Entry>, key: Text)
    ensures key in MeaningOfEntries(entries) <==> Find(entries, key).Some?
    ensures Find(entries, key).Some? ==> MeaningOfEntries(entries)[key] == MeaningOf(Find(entries, key).value)
  {
    hide MeaningOf;
    if entries != [] { EntryMeaning(entries[1..], key); }
  }

  lemma KeysMeaning(entries: seq<Entry>)
    requires DistinctKeys(entries)
    ensures MeaningOfEntries(entries).Keys == Keys(entries)
  {
    hide MeaningOf, MeaningOfEntries, Find;
    forall k ensures k in MeaningOfEntries(entries) <==> k in Keys(entries) {
      EntryMeaning(entries, k);
      if k in Keys(entries) {
        var i :| 0 <= i < |entries| && entries[i].key == k;
        FindAt(entries, i);
      }
      if Find(entries, k).Some? { var j := FindSome(entries, k); }
    }
  }

  /** Two objects are equal exactly if they mean the same; so objects of two types never are. */
  lemma {:induction false} EqualExactly(o1: Object, o2: Object)
    requires WellFormed(o1) && WellFormed(o2)
    ensures Equal(o1, o2) <==> MeaningOf(o1) == MeaningOf(o2)
    decreases o1
  {
    hide EqualEntries, EqualItems, MeaningOfEntries, MeaningOfItems;
    match o1
    case Error(_, _, extra) => if o2.Error? { EqualExactly(extra, o2.extra); }
    case Dict(e1) =>
      if o2.Dict? {
        forall i, j | 0 <= i < |e1| && 0 <= j < |o2.entries|
          ensures Equal(e1[i].value, o2.entries[j].value) <==>
                    MeaningOf(e1[i].value) == MeaningOf(o2.entries[j].value)
        {
          EqualExactly(e1[i].value, o2.entries[j].value);
        }
        MeaningExactly(e1, o2.entries);
      }
    case Array(a1) =>
      if o2.Array? && |a1| == |o2.items| {
        forall i | 0 <= i < |a1| ensures Equal(a1[i], o2.items[i]) <==> MeaningOf(a1[i]) == MeaningOf(o2.items[i]) {
          EqualExactly(a1[i], o2.items[i]);
        }
        ItemsMeaning(a1, o2.items);
        ItemsExactly(a1, o2.items);
      }
    case _ =>
  }

  lemma ItemsExactly(a1: seq<Object>, a2: seq<Object>)
    requires |a1| == |a2|
    ensures MeaningOfItems(a1) == MeaningOfItems(a2) <==>
              forall i :: 0 <= i < |a1| ==> MeaningOf(a1[i]) == MeaningOf(a2[i])
  {
    hide MeaningOf;
    var (m1, m2) := (MeaningOfItems(a1), MeaningOfItems(a2));
    if m1 == m2 {
      forall i | 0 <= i < |a1| ensures MeaningOf(a1[i]) == MeaningOf(a2[i]) { assert m1[i] == m2[i]; }
    }
  }

  lemma MeaningExactly(e1: seq<Entry>, e2: seq<Entry>)
    requires DistinctKeys(e1) && DistinctKeys(e2)
    requires forall i, j :: 0 <= i < |e1| && 0 <= j < |e2| ==>
               (Equal(e1[i].value, e2[j].value) <==> MeaningOf(e1[i].value) == MeaningOf(e2[j].value))
    ensures Equal(Dict(e1), Dict(e2)) <==> MeaningOfEntries(e1) == MeaningOfEntries(e2)
  {
    hide MeaningOf, MeaningOfEntries, Equal, EntryAgrees;
    forall i | 0 <= i < |e1| ensures EntryAgrees(e1, e2, i) { EntriesAgree(e1, e2, i); }
    KeysMeaning(e1);
    KeysMeaning(e2);
    if Equal(Dict(e1), Dict(e2)) { EqualTables(e1, e2); }
    if MeaningOfEntries(e1) == MeaningOfEntries(e2) { SameTables(e1, e2); }
  }

  lemma EqualTables(e1: seq<Entry>, e2: seq<Entry>)
    requires DistinctKeys(e1) && DistinctKeys(e2) && Equal(Dict(e1), Dict(e2))
    requires MeaningOfEntries(e1).Keys == Keys(e1) && MeaningOfEntries(e2).Keys == Keys(e2)
    requires forall i :: 0 <= i < |e1| ==> EntryAgrees(e1, e2, i)
    ensures MeaningOfEntries(e1) == MeaningOfEntries(e2)
  {
    hide EqualEntries, EntryAgrees, Matches, MeaningOfEntries;
    EntriesMeaning(e1, e2);
    SameKeys(e1, e2);
    SameMeaning(e1, e2);
  }

  lemma SameTables(e1: seq<Entry>, e2: seq<Entry>)
    requires DistinctKeys(e1) && DistinctKeys(e2) && MeaningOfEntries(e1) == MeaningOfEntries(e2)
    requires MeaningOfEntries(e1).Keys == Keys(e1) && MeaningOfEntries(e2).Keys == Keys(e2)
    requires forall i :: 0 <= i < |e1| ==> EntryAgrees(e1, e2, i)
    ensures Equal(Dict(e1), Dict(e2))
  {
    hide Equal, Matches, MeaningOfEntries, EntryAgrees, DistinctKeys;
    KeyCount(e1);
    KeyCount(e2);
    forall i | 0 <= i < |e1| ensures Matches(e1[i], e2) { AgreesMatches(e1, e2, i); }
    TablesExactly(e1, e2);
  }

  lemma AgreesMatches(e1: seq<Entry>, e2: seq<Entry>, i: nat)
    requires i < |e1| && EntryAgrees(e1, e2, i) && MeaningOfEntries(e1) == MeaningOfEntries(e2)
    ensures Matches(e1[i], e2)
  {
    hide Matches, MeaningOfEntries;
  }

  /** What an entry says is the same in the second table. */
  ghost predicate EntryAgrees(e1: seq<Entry>, e2: seq<Entry>, i: nat)
    requires i < |e1|
  {
    var k := e1[i].key;
    && k in MeaningOfEntries(e1)
    && (Matches(e1[i], e2) <==> k in MeaningOfEntries(e2) && MeaningOfEntries(e1)[k] == MeaningOfEntries(e2)[k])
  }

  lemma EntriesAgree(e1: seq<Entry>, e2: seq<Entry>, i: nat)
    requires DistinctKeys(e1) && i < |e1|
    requires forall i, j :: 0 <= i < |e1| && 0 <= j < |e2| ==>
               (Equal(e1[i].value, e2[j].value) <==> MeaningOf(e1[i].value) == MeaningOf(e2[j].value))
    ensures EntryAgrees(e1, e2, i)
  {
    hide MeaningOf, MeaningOfEntries, Find, Equal;
    var k := e1[i].key;
    FindAt(e1, i);
    EntryMeaning(e1, k);
    EntryMeaning(e2, k);
    if Find(e2, k).Some? { var j := FindSome(e2, k); }
  }

  lemma SameMeaning(e1: seq<Entry>, e2: seq<Entry>)
    requires MeaningOfEntries(e1).Keys == Keys(e1) == Keys(e2) == MeaningOfEntries(e2).Keys
    requires forall i :: 0 <= i < |e1| ==> Matches(e1[i], e2) && EntryAgrees(e1, e2, i)
    ensures MeaningOfEntries(e1) == MeaningOfEntries(e2)
  {
    hide MeaningOfEntries, Matches, EntryAgrees, Keys;
    var (m1, m2) := (MeaningOfEntries(e1), MeaningOfEntries(e2));
    forall k | k in m1 ensures m1[k] == m2[k] {
      assert k in Keys(e1);
      var i :| 0 <= i < |e1| && e1[i].key == k;
      SameEntry(e1, e2, i);
    }
  }

  lemma SameEntry(e1: seq<Entry>, e2: seq<Entry>, i: nat)
    requires i < |e1| && EntryAgrees(e1, e2, i) && Matches(e1[i], e2)
    ensures var (m1, m2, k) := (MeaningOfEntries(e1), MeaningOfEntries(e2), e1[i].key);
            k in m1 && k in m2 && m1[k] == m2[k]
  {
    hide MeaningOfEntries, Matches;
  }

  // ---- Hashes ----

  /** A number hashes to itself modulo 2^64, a truth value to one or zero, null to zero. */
  lemma ScalarHashes(i: i64, u: u64, b: bool)
    ensures Hash(Int64(i)) == Hash(Date(i)) == if i < 0 then i + WORDS else i
    ensures Hash(UInt64(u)) == u && Hash(Null) == 0 && Hash(Bool(b)) == if b then 1 else 0
  {
  }

  /** The hash of data is that of what follows the first byte, times 33, plus the byte; 5381 for none. */
  lemma DataHashes(b: byte, data: seq<byte>)
    ensures DataHash([]) == 5381 && DataHash([b] + data) == (33 * DataHash(data) + b) % WORDS
  {
    hide Mix, ToWord;
    assert ([b] + data)[1..] == data;
    Times33(DataHash(data), b);
  }

  lemma Times33(h: Word, b: byte)
    ensures Mix(h, b) == (33 * h + b) % WORDS
  {
    var q := h * 32 / WORDS;
    assert h * 32 == q * WORDS + h * 32 % WORDS;
  }

  /** The hash of an array is the exclusive or of its items' hashes, in whatever parts. */
  lemma {:induction false} ArrayHashes(a: seq<Object>, b: seq<Object>)
    ensures HashItems(a + b) == Xor(HashItems(a), HashItems(b))
    ensures |a| == 1 ==> HashItems(a) == Hash(a[0])
    decreases |a|
  {
    hide Hash;
    if a == [] {
      assert a + b == b;
      XorZero(HashItems(b));
    } else {
      assert (a + b)[1..] == a[1..] + b;
      ArrayHashes(a[1..], b);
      hide Xor;
      XorAssoc(Hash(a[0]), HashItems(a[1..]), HashItems(b));
      XorZero(Hash(a[0]));
    }
  }

  /** The hash of a dictionary is that of its keys and values, entry by entry. */
  lemma {:induction false} DictHashes(a: seq<Entry>, b: seq<Entry>)
    ensures HashEntries(a + b) == Xor(HashEntries(a), HashEntries(b))
    ensures |a| == 1 ==> HashEntries(a) == Xor(DataHash(a[0].key), Hash(a[0].value))
    decreases |a|
  {
    hide Hash, DataHash;
    if a == [] {
      assert a + b == b;
      XorZero(HashEntries(b));
    } else {
      assert (a + b)[1..] == a[1..] + b;
      DictHashes(a[1..], b);
      hide Xor;
      XorAssoc(EntryHash(a[0]), HashEntries(a[1..]), HashEntries(b));
      XorZero(EntryHash(a[0]));
    }
  }

  lemma XorZero(a: Word)
    ensures Xor(0, a) == a && Xor(a, 0) == a
  {
    XorNothing(a);
    XorCommutes(a, 0);
  }

  lemma {:induction false} XorNothing(a: nat)
    ensures XorBits(0, a) == a
  {
    if a > 0 { XorNothing(a / 2); }
  }

  lemma XorAssoc(a: Word, b: Word, c: Word)
    ensures Xor(a, Xor(b, c)) == Xor(Xor(a, b), c)
  {
    hide XorBits;
    XorAssociates(a, b, c);
  }

  // ---- Copies ----

  /** A C string is the part before the first zero byte. */
  lemma {:induction false} CutBeforeZero(s: Text)
    ensures Cut(s) <= s && 0 !in Cut(s) && (|Cut(s)| < |s| ==> s[|Cut(s)|] == 0)
  {
    if s != [] && s[0] != 0 {
      CutBeforeZero(s[1..]);
      assert s == [s[0]] + s[1..];
    }
  }

  /** `t` is `s` as a C string. */
  ghost predicate CutOf(t: Text, s: Text) {
    t <= s && 0 !in t && (|t| < |s| ==> s[|t|] == 0)
  }

  /** The same object, but for strings and error messages, which end at their first zero byte. */
  ghost predicate IsCopy(c: Object, o: Object)
    decreases o
  {
    match o
    case String(s) => c.String? && CutOf(c.s, s)
    case Error(code, message, extra) =>
      c.Error? && c.code == code && CutOf(c.message, message) && IsCopy(c.extra, extra)
    case Dict(entries) =>
      && c.Dict? && |c.entries| == |entries|
      && forall i :: 0 <= i < |entries| ==>
           c.entries[i].key == entries[i].key && IsCopy(c.entries[i].value, entries[i].value)
    case Array(items) =>
      c.Array? && |c.items| == |items| && forall i :: 0 <= i < |items| ==> IsCopy(c.items[i], items[i])
    case _ => c == o
  }

  lemma {:induction false} CopyIsCopy(o: Object)
    ensures IsCopy(Copy(o), o)
    decreases o
  {
    hide Cut;
    match o
    case String(s) => CutBeforeZero(s);
    case Error(_, message, extra) => CutBeforeZero(message); CopyIsCopy(extra);
    case Dict(entries) =>
      forall i | 0 <= i < |entries| ensures IsCopy(Copy(entries[i].value), entries[i].value) {
        CopyIsCopy(entries[i].value);
      }
    case Array(items) =>
      forall i | 0 <= i < |items| ensures IsCopy(Copy(items[i]), items[i]) { CopyIsCopy(items[i]); }
    case _ =>
  }

  /** A copy has no zero byte in a string, and an object that has none is copied as it is. */
  lemma {:induction false} CopyIsCut(o: Object)
    ensures NulFree(Copy(o)) && (NulFree(o) ==> Copy(o) == o)
    decreases o
  {
    hide Cut;
    match o
    case String(s) => CutBeforeZero(s); CutWhole(s);
    case Error(_, message, extra) => CutBeforeZero(message); CutWhole(message); CopyIsCut(extra);
    case Dict(entries) =>
      forall i | 0 <= i < |entries|
        ensures NulFree(Copy(entries[i].value))
        ensures NulFree(entries[i].value) ==> Copy(entries[i].value) == entries[i].value
      {
        CopyIsCut(entries[i].value);
      }
    case Array(items) =>
      forall i | 0 <= i < |items|
        ensures NulFree(Copy(items[i])) && (NulFree(items[i]) ==> Copy(items[i]) == items[i])
      {
        CopyIsCut(items[i]);
      }
    case _ =>
  }
}
