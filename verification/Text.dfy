/** Text as the commands handle it: splitting, joining, and decimal numbers. */
module Text {
  /** The pieces of s between separators; a text without separators is one piece. */
  function Split(s: string, sep: char): (r: seq<string>)
    ensures |r| > 0
  {
    if s == [] then [[]]
    else
      var rest := Split(s[1..], sep);
      if s[0] == sep then [[]] + rest else [[s[0]] + rest[0]] + rest[1..]
  }

  function Join(xs: seq<string>, sep: char): string {
    if xs == [] then []
    else if |xs| == 1 then xs[0]
    else Join(xs[..|xs| - 1], sep) + [sep] + xs[|xs| - 1]
  }

  ghost predicate Free(sep: char, xs: seq<string>) {
    forall i :: 0 <= i < |xs| ==> sep !in xs[i]
  }

  lemma {:induction false} SplitPiecesFree(s: string, sep: char)
    ensures Free(sep, Split(s, sep))
  {
    if s != [] {
      SplitPiecesFree(s[1..], sep);
    }
  }

  lemma {:induction false} SplitWhole(s: string, sep: char)
    requires sep !in s
    ensures Split(s, sep) == [s]
  {
    if s != [] {
      SplitWhole(s[1..], sep);
      assert s == [s[0]] + s[1..];
    }
  }

  /** A separator cuts the text: what is before it and what is after it split on their own. */
  lemma {:induction false} SplitConcat(s: string, t: string, sep: char)
    requires sep !in t
    ensures Split(s + [sep] + t, sep) == Split(s, sep) + [t]
  {
    if s == [] {
      SplitWhole(t, sep);
      assert (s + [sep] + t)[1..] == t;
    } else {
      SplitConcat(s[1..], t, sep);
      assert (s + [sep] + t)[1..] == s[1..] + [sep] + t;
    }
  }

  lemma {:induction false} SplitJoin(xs: seq<string>, sep: char)
    requires xs != [] && Free(sep, xs)
    ensures Split(Join(xs, sep), sep) == xs
  {
    if |xs| == 1 {
      SplitWhole(xs[0], sep);
    } else {
      SplitJoin(xs[..|xs| - 1], sep);
      SplitConcat(Join(xs[..|xs| - 1], sep), xs[|xs| - 1], sep);
    }
  }

  lemma {:induction false} JoinFront(xs: seq<string>, x: string, sep: char)
    requires xs != []
    ensures Join([x] + xs, sep) == x + [sep] + Join(xs, sep)
  {
    if |xs| > 1 {
      var init, y := xs[..|xs| - 1], xs[|xs| - 1];
      JoinFront(init, x, sep);
      assert ([x] + xs)[..|xs|] == [x] + init;
      assert x + [sep] + Join(xs, sep) == x + [sep] + Join(init, sep) + [sep] + y;
    } else {
      assert ([x] + xs)[..1] == [x];
    }
  }

  lemma {:induction false} JoinHead(xs: seq<string>, c: char, sep: char)
    requires xs != []
    ensures Join([[c] + xs[0]] + xs[1..], sep) == [c] + Join(xs, sep)
  {
    if |xs| > 1 {
      JoinFront(xs[1..], xs[0], sep);
      JoinFront(xs[1..], [c] + xs[0], sep);
      assert [xs[0]] + xs[1..] == xs;
    } else {
      assert [[c] + xs[0]] + xs[1..] == [[c] + xs[0]];
    }
  }

  /** Joining undoes splitting, for every text. */
  lemma {:induction false} JoinSplit(s: string, sep: char)
    ensures Join(Split(s, sep), sep) == s
  {
    if s != [] {
      var rest := Split(s[1..], sep);
      JoinSplit(s[1..], sep);
      if s[0] == sep {
        JoinFront(rest, [], sep);
      } else {
        JoinHead(rest, s[0], sep);
      }
      assert s == [s[0]] + s[1..];
    }
  }

  /** Splitting undoes joining exactly for non-empty lists of separator-free pieces. */
  lemma SplitJoinIff(xs: seq<string>, sep: char)
    ensures Split(Join(xs, sep), sep) == xs <==> xs != [] && Free(sep, xs)
  {
    SplitPiecesFree(Join(xs, sep), sep);
    if xs != [] && Free(sep, xs) {
      SplitJoin(xs, sep);
    }
  }

  // ----- decimal numbers -----

  function Digit(d: int): char
    requires 0 <= d < 10
  {
    '0' + d as char
  }

  predicate IsDigit(c: char) { '0' <= c <= '9' }

  function Decimal(n: nat): (s: string)
    ensures |s| > 0 && forall i :: 0 <= i < |s| ==> IsDigit(s[i])
  {
    if n < 10 then [Digit(n)] else Decimal(n / 10) + [Digit(n % 10)]
  }

  function Itoa(n: int): string { if n >= 0 then Decimal(n) else "-" + Decimal(-n) }

  /** The number a text of digits stands for. */
  function Value(s: string): int {
    if s == [] then 0 else Value(s[..|s| - 1]) * 10 + (s[|s| - 1] as int - '0' as int)
  }

  function Atoi(s: string): int { if s != [] && s[0] == '-' then -Value(s[1..]) else Value(s) }

  lemma {:induction false} ValueDecimal(n: nat)
    ensures Value(Decimal(n)) == n
  {
    if n < 10 {
      assert Decimal(n)[..0] == [];
    } else {
      ValueDecimal(n / 10);
      assert Decimal(n)[..|Decimal(n)| - 1] == Decimal(n / 10);
    }
  }

  /** Decimal text has no leading zeros. */
  lemma {:induction false} NoLeadingZero(n: nat)
    ensures Decimal(n)[0] == '0' <==> n == 0
  {
    if n >= 10 {
      NoLeadingZero(n / 10);
    }
  }

  lemma AtoiItoa(n: int)
    ensures Atoi(Itoa(n)) == n
    ensures forall c :: c in Itoa(n) ==> IsDigit(c) || c == '-'
  {
    if n >= 0 {
      ValueDecimal(n);
    } else {
      ValueDecimal(-n);
      assert Itoa(n)[1..] == Decimal(-n);
    }
  }
}
