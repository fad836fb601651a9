/** What the text of a path means: tokens between dots, and numbers in decimal notation. */
module PathText {
  import opened Bytes
  import opened Wrappers
  import opened Paths

  /** Tokens with dots between them. */
  function Join(tokens: seq<Text>): Text
    requires tokens != []
  {
    if |tokens| == 1 then tokens[0] else tokens[0] + [DOT] + Join(tokens[1..])
  }

  /** Splitting gives the tokens between the dots. */
  lemma {:induction false} SplitJoined(path: Text)
    ensures Join(Split(path)) == path && forall t :: t in Split(path) ==> DOT !in t
  {
    hide Split, Join;
    if path == [] {
      SplitNothing();
      var none: Text := [];
      JoinCons(none, []);
      assert [none] + [] == [none];
    } else {
      var rest := Split(path[1..]);
      SplitJoined(path[1..]);
      assert path == [path[0]] + path[1..];
      SplitCons(path[0], path[1..]);
      JoinCons(rest[0], rest[1..]);
      assert rest == [rest[0]] + rest[1..];
      if path[0] == DOT {
        JoinCons([], rest);
      } else {
        JoinCons([path[0]] + rest[0], rest[1..]);
        Longer(path[0], rest);
      }
    }
  }

  lemma JoinCons(t: Text, rest: seq<Text>)
    ensures Join([t] + rest) == if rest == [] then t else t + [DOT] + Join(rest)
  {
    assert ([t] + rest)[1..] == rest;
  }

  /** The first token made longer by a byte that is no dot. */
  lemma Longer(b: byte, rest: seq<Text>)
    requires rest != [] && b != DOT && forall t :: t in rest ==> DOT !in t
    ensures forall t :: t in [[b] + rest[0]] + rest[1..] ==> DOT !in t
    ensures |rest| > 1 ==> [b] + rest[0] + [DOT] + Join(rest[1..]) == [b] + (rest[0] + [DOT] + Join(rest[1..]))
  {
    hide Join;
    assert rest[0] in rest;
  }

  /** And no other tokens have that path. */
  lemma {:induction false} SplitUnique(tokens: seq<Text>)
    requires tokens != [] && forall t :: t in tokens ==> DOT !in t
    ensures Split(Join(tokens)) == tokens
    decreases |tokens|, |tokens[0]|
  {
    hide Split;
    var t := tokens[0];
    if t != [] {
      var shorter := [t[1..]] + tokens[1..];
      assert shorter[1..] == tokens[1..] && t == [t[0]] + t[1..];
      assert t in tokens;
      SplitUnique(shorter);
      assert Join(tokens) == [t[0]] + Join(shorter);
      SplitCons(t[0], Join(shorter));
      assert [t] + tokens[1..] == tokens;
    } else if |tokens| == 1 {
      SplitNothing();
    } else {
      SplitUnique(tokens[1..]);
      assert Join(tokens) == [DOT] + Join(tokens[1..]);
      SplitCons(DOT, Join(tokens[1..]));
      assert [t] + tokens[1..] == tokens;
    }
  }

  // ---- Numbers ----

  /** Decimal notation. */
  function Decimal(n: nat): (t: Text)
    ensures t != [] && forall b :: b in t ==> IsDigit(b)
  {
    if n < 10 then [0x30 + n] else Decimal(n / 10) + [0x30 + n % 10]
  }

  lemma {:induction false} DigitsThen(ds: Text, rest: Text, acc: nat)
    requires forall b :: b in ds ==> IsDigit(b)
    ensures DigitsValue(ds + rest, acc) == DigitsValue(rest, DigitsValue(ds, acc))
    decreases |ds|
  {
    if ds == [] {
      assert ds + rest == rest;
    } else {
      assert (ds + rest)[1..] == ds[1..] + rest && IsDigit(ds[0]);
      DigitsThen(ds[1..], rest, acc * 10 + (ds[0] as int - 0x30));
    }
  }

  predicate Stops(rest: Text) {
    rest == [] || !IsDigit(rest[0])
  }

  lemma {:induction false} DecimalRead(n: nat, rest: Text)
    requires Stops(rest)
    ensures DigitsValue(Decimal(n) + rest, 0) == n
    decreases n
  {
    DigitsThen(Decimal(n), rest, 0);
    if n < 10 {
      assert Decimal(n)[1..] == [];
    } else {
      DecimalRead(n / 10, []);
      assert Decimal(n / 10) + [] == Decimal(n / 10);
      DigitsThen(Decimal(n / 10), [0x30 + n % 10], 0);
      assert [0x30 + n % 10][1..] == [];
    }
  }

  predicate AllSpace(t: Text) {
    forall b :: b in t ==> IsSpace(b)
  }

  lemma {:induction false} SpacesSkipped(spaces: Text, t: Text)
    requires AllSpace(spaces) && (t == [] || !IsSpace(t[0]))
    ensures SkipSpace(spaces + t) == t
    decreases |spaces|
  {
    if spaces == [] {
      assert spaces + t == t;
    } else {
      assert (spaces + t)[1..] == spaces[1..] + t;
      SpacesSkipped(spaces[1..], t);
    }
  }

  const MINUS: byte := 0x2d
  const PLUS: byte := 0x2b

  /** Spaces, a sign or none, and decimal digits are a number, whatever follows them. */
  lemma NumberRead(spaces: Text, sign: Text, n: nat, rest: Text)
    requires AllSpace(spaces) && sign in {[], [MINUS], [PLUS]} && Stops(rest)
    ensures ReadNumber(spaces + sign + Decimal(n) + rest) == Number(true, sign == [MINUS], n)
  {
    hide Decimal, DigitsValue, SkipSpace;
    var t := sign + Decimal(n) + rest;
    assert spaces + sign + Decimal(n) + rest == spaces + t;
    var digits := Decimal(n) + rest;
    assert Decimal(n)[0] in Decimal(n) && digits[0] == Decimal(n)[0];
    if sign == [] { assert t == digits; } else { assert t[1..] == digits; }
    SpacesSkipped(spaces, t);
    DecimalRead(n, rest);
  }

  /** Without a digit after them there is no number. */
  lemma NoNumber(spaces: Text, sign: Text, rest: Text)
    requires AllSpace(spaces) && sign in {[], [MINUS], [PLUS]} && Stops(rest)
    requires sign == [] && rest != [] ==> !IsSpace(rest[0]) && rest[0] != MINUS && rest[0] != PLUS
    ensures !ReadNumber(spaces + sign + rest).found
  {
    hide DigitsValue, SkipSpace;
    var t := sign + rest;
    assert spaces + sign + rest == spaces + t;
    if sign == [] { assert t == rest; } else { assert t[1..] == rest; }
    SpacesSkipped(spaces, t);
  }

  /** What the two conversions make of a number: g_ascii_strtoull turns one that is negative around and keeps the
      largest for one that is too large. */
  lemma Converted(t: Text, n: nat, negative: bool)
    requires ReadNumber(t) == Number(true, negative, n)
    ensures n >= SIZE_T ==> Strtoull(t) == Some(SIZE_T - 1)
    ensures n < SIZE_T ==> Strtoull(t) == Some(if negative && n > 0 then SIZE_T - n else n)
    ensures n < 0x8000_0000 ==> Atoi(t) == if negative && n > 0 then SIZE_T - n else n
  {
    hide ReadNumber;
  }
}
