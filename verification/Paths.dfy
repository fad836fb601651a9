/** Dotted paths and the two ways librpc takes them apart: g_strsplit and g_ascii_strtoull when it sets,
    strtok and atoi when it gets. */
module Paths {
  import opened Bytes
  import opened Wrappers

  const DOT: byte := 0x2e

  /** g_strsplit at dots. */
  function Split(path: Text): (tokens: seq<Text>)
    ensures tokens != []
  {
    if path == [] then [[]]
    else
      var rest := Split(path[1..]);
      if path[0] == DOT then [[]] + rest
      else [[path[0]] + rest[0]] + rest[1..]
  }

  lemma SplitCons(b: byte, path: Text)
    ensures Split([b] + path) ==
              if b == DOT then [[]] + Split(path) else [[b] + Split(path)[0]] + Split(path)[1..]
  {
    assert ([b] + path)[1..] == path;
  }

  /** The path a..b, taken apart in the two ways. */
  lemma EmptyTokenSplit()
    ensures Split([0x61, DOT, DOT, 0x62]) == [[0x61], [], [0x62]]
    ensures Tokens([0x61, DOT, DOT, 0x62]) == [[0x61], [0x62]]
  {
    hide Split;
    assert Split([]) == [[]] by { SplitNothing(); }
    SplitCons(0x62, []);
    assert [0x62] + [] == [0x62];
    SplitCons(DOT, [0x62]);
    assert [DOT] + [0x62] == [DOT, 0x62];
    SplitCons(DOT, [DOT, 0x62]);
    assert [DOT] + [DOT, 0x62] == [DOT, DOT, 0x62];
    SplitCons(0x61, [DOT, DOT, 0x62]);
    assert [0x61] + [DOT, DOT, 0x62] == [0x61, DOT, DOT, 0x62];
    assert Split([DOT, DOT, 0x62]) == [[], [], [0x62]];
    assert [[], [], [0x62]][1..] == [[], [0x62]] && [0x61] + [] == [0x61];
    assert NonEmpty([[0x62]]) == [[0x62]];
    assert [[], [0x62]][1..] == [[0x62]];
    assert NonEmpty([[], [0x62]]) == [[0x62]];
    assert [[0x61], [], [0x62]][1..] == [[], [0x62]];
  }

  lemma SplitNothing()
    ensures Split([]) == [[]]
  {
  }

  function NonEmpty(tokens: seq<Text>): seq<Text> {
    if tokens == [] then []
    else (if tokens[0] == [] then [] else [tokens[0]]) + NonEmpty(tokens[1..])
  }

  /** The tokens strtok returns: it passes over empty ones. */
  function Tokens(path: Text): seq<Text> {
    NonEmpty(Split(path))
  }

  /** The two agree exactly on paths without empty tokens. */
  lemma {:induction false} NonEmptyAll(tokens: seq<Text>)
    ensures |NonEmpty(tokens)| <= |tokens|
    ensures NonEmpty(tokens) == tokens <==> [] !in tokens
    ensures |NonEmpty(tokens)| == |tokens| <==> [] !in tokens
  {
    if tokens != [] {
      NonEmptyAll(tokens[1..]);
      assert tokens == [tokens[0]] + tokens[1..];
      if tokens[0] != [] { assert NonEmpty(tokens)[1..] == NonEmpty(tokens[1..]); }
    }
  }

  predicate IsDigit(b: byte) {
    0x30 <= b <= 0x39
  }

  predicate IsSpace(b: byte) {
    b == 0x20 || 0x09 <= b <= 0x0d
  }

  function SkipSpace(t: Text): Text {
    if t != [] && IsSpace(t[0]) then SkipSpace(t[1..]) else t
  }

  /** The value of the digits `t` begins with, after those that made `acc`. */
  function DigitsValue(t: Text, acc: nat): nat
    decreases |t|
  {
    if t == [] || !IsDigit(t[0]) then acc else DigitsValue(t[1..], acc * 10 + (t[0] as int - 0x30))
  }

  /** What both conversions read: spaces, a sign, digits; `found` if there is a digit. */
  datatype Number = Number(found: bool, negative: bool, value: nat)

  function ReadNumber(t: Text): Number {
    var t1 := SkipSpace(t);
    var signed := t1 != [] && (t1[0] == 0x2d || t1[0] == 0x2b);
    var t2 := if signed then t1[1..] else t1;
    Number(t2 != [] && IsDigit(t2[0]), signed && t1[0] == 0x2d, DigitsValue(t2, 0))
  }

  const SIZE_T: nat := 0x1_0000_0000_0000_0000

  /** g_ascii_strtoull, or nothing if it converted nothing. */
  function Strtoull(t: Text): Option<nat> {
    var n := ReadNumber(t);
    if !n.found then None
    else if n.value >= SIZE_T then Some(SIZE_T - 1)
    else if n.negative then Some((SIZE_T - n.value) % SIZE_T)
    else Some(n.value)
  }

  /** atoi converted to size_t, for numbers that fit an int. */
  function Atoi(t: Text): nat {
    var n := ReadNumber(t);
    if !n.found then 0 else if n.negative then (SIZE_T - n.value % SIZE_T) % SIZE_T else n.value
  }

  /** A token that is a number only if it is an unsigned one below 2^31. */
  predicate Plain(t: Text) {
    ReadNumber(t).found ==> !ReadNumber(t).negative && ReadNumber(t).value < 0x8000_0000
  }

  /** On such tokens the conversions agree. */
  lemma PlainAgree(t: Text)
    requires Plain(t) && Strtoull(t).Some?
    ensures Atoi(t) == Strtoull(t).value < 0x8000_0000
  {
    hide ReadNumber;
  }
}
