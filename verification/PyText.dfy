/** Text as Python reads and writes it: `split`, `join`, `strip`, `int` and `str`.

    `split` with a delimiter always yields at least one piece and keeps empty pieces, unlike `std::getline`.
    `int` accepts white space around an optional sign and digits with single underscores between them, and
    raises an exception for anything else. A list comprehension over pieces stops at the first exception.
    An exception is a value here, `Throws`, that the callers pass on. */
module PyText {
  import opened Text

  /** `s.split(c)`: always at least one piece. */
  function Split(s: string, c: char): (p: seq<string>)
    ensures p != [] && forall i :: 0 <= i < |p| ==> c !in p[i]
  {
    var n := Before(s, c);
    if n == |s| then [s] else [s[..n]] + Split(s[n + 1..], c)
  }

  /** `c.join(pieces)`. */
  function Join(pieces: seq<string>, c: char): string {
    if pieces == [] then "" else if |pieces| == 1 then pieces[0]
    else pieces[0] + [c] + Join(pieces[1..], c)
  }

  predicate NoneHas(pieces: seq<string>, c: char) {
    forall i :: 0 <= i < |pieces| ==> c !in pieces[i]
  }

  lemma {:induction false} SplitOfJoin(pieces: seq<string>, c: char)
    requires pieces != [] && NoneHas(pieces, c)
    ensures Split(Join(pieces, c), c) == pieces
  {
    if |pieces| == 1 {
      BeforeIs(pieces[0], c, "");
      assert pieces[0] + "" == pieces[0];
    } else {
      var a, rest := pieces[0], Join(pieces[1..], c);
      SplitOfJoin(pieces[1..], c);
      assert a + [c] + rest == a + ([c] + rest);
      BeforeIs(a, c, [c] + rest);
      assert (a + [c] + rest)[..|a|] == a && (a + [c] + rest)[|a| + 1..] == rest;
      assert pieces == [a] + pieces[1..];
    }
  }

  lemma CountAfterFirst(s: string, c: char, n: nat)
    requires n < |s| && s[n] == c && c !in s[..n]
    ensures multiset(s)[c] == multiset(s[n + 1..])[c] + 1
  {
    assert s == s[..n] + ([c] + s[n + 1..]);
    assert multiset(s) == multiset(s[..n]) + (multiset{c} + multiset(s[n + 1..]));
  }

  lemma SplitFirst(s: string, c: char)
    requires c in s
    ensures var n := Before(s, c);
            n < |s| && s[n] == c && c !in s[..n] && Split(s, c) == [s[..n]] + Split(s[n + 1..], c)
  {
  }

  lemma SplitNone(s: string, c: char)
    requires c !in s
    ensures Split(s, c) == [s]
  {
  }

  lemma JoinFirst(s: string, c: char, n: nat, pieces: seq<string>)
    requires n < |s| && s[n] == c && pieces != [] && Join(pieces, c) == s[n + 1..]
    ensures Join([s[..n]] + pieces, c) == s
  {
    assert ([s[..n]] + pieces)[1..] == pieces;
    assert s == s[..n] + [c] + s[n + 1..];
  }

  /** And joining what was split restores the text: there is one piece more than delimiters. */
  lemma {:induction false} JoinOfSplit(s: string, c: char)
    ensures Join(Split(s, c), c) == s && |Split(s, c)| == multiset(s)[c] + 1
    decreases |s|
  {
    if c in s {
      SplitFirst(s, c);
      var n := Before(s, c);
      JoinOfSplit(s[n + 1..], c);
      JoinFirst(s, c, n, Split(s[n + 1..], c));
      CountAfterFirst(s, c, n);
    } else {
      SplitNone(s, c);
    }
  }

  /** The C++ tokens of the same text, when the last piece is not empty. */
  lemma {:induction false} TokensOfJoin(pieces: seq<string>, c: char)
    requires pieces != [] && NoneHas(pieces, c) && pieces[|pieces| - 1] != ""
    ensures Tokens(Join(pieces, c), c) == pieces
  {
    if |pieces| == 1 {
      OnlyToken(pieces[0], c);
    } else {
      TokensOfJoin(pieces[1..], c);
      FirstToken(pieces[0], c, Join(pieces[1..], c));
      assert pieces == [pieces[0]] + pieces[1..];
    }
  }

  lemma {:induction false} JoinHasOnly(pieces: seq<string>, c: char, d: char)
    requires NoneHas(pieces, d) && c != d
    ensures d !in Join(pieces, c)
  {
    if |pieces| > 1 { JoinHasOnly(pieces[1..], c, d); }
  }

  lemma {:induction false} JoinEnds(pieces: seq<string>, c: char)
    requires pieces != [] && pieces[0] != "" && pieces[|pieces| - 1] != ""
    ensures var j, last := Join(pieces, c), pieces[|pieces| - 1];
            j != "" && j[0] == pieces[0][0] && j[|j| - 1] == last[|last| - 1]
  {
    if |pieces| == 2 {
      assert Join(pieces[1..], c) == pieces[1];
    } else if |pieces| > 2 {
      JoinLast(pieces[1..], c);
    }
  }

  lemma {:induction false} JoinLast(pieces: seq<string>, c: char)
    requires pieces != [] && pieces[|pieces| - 1] != ""
    ensures var j, last := Join(pieces, c), pieces[|pieces| - 1]; j != "" && j[|j| - 1] == last[|last| - 1]
  {
    if |pieces| > 1 { JoinLast(pieces[1..], c); }
  }

  function StripLeft(s: string): string {
    if s != "" && IsSpace(s[0]) then StripLeft(s[1..]) else s
  }

  function StripRight(s: string): string {
    if s != "" && IsSpace(s[|s| - 1]) then StripRight(s[..|s| - 1]) else s
  }

  function Strip(s: string): string { StripRight(StripLeft(s)) }

  /** No white space at either end. */
  predicate Stripped(s: string) {
    s != "" ==> !IsSpace(s[0]) && !IsSpace(s[|s| - 1])
  }

  lemma {:induction false} StripLeftIs(s: string)
    ensures var t := StripLeft(s); (t != "" ==> !IsSpace(t[0])) && forall c :: c in t ==> c in s
  {
    if s != "" && IsSpace(s[0]) { StripLeftIs(s[1..]); }
  }

  lemma {:induction false} StripRightIs(s: string)
    ensures var t := StripRight(s); t <= s && (t != "" ==> !IsSpace(t[|t| - 1]))
  {
    if s != "" && IsSpace(s[|s| - 1]) { StripRightIs(s[..|s| - 1]); }
  }

  lemma StripIs(s: string)
    ensures Stripped(Strip(s)) && forall c :: c in Strip(s) ==> c in s
  {
    StripLeftIs(s);
    StripRightIs(StripLeft(s));
  }

  predicate AllSpace(s: string) { forall i :: 0 <= i < |s| ==> IsSpace(s[i]) }

  /** Nothing but white space comes off. */
  lemma StripTakesSpace(s: string) returns (a: string, b: string)
    ensures s == a + Strip(s) + b && AllSpace(a) && AllSpace(b)
  {
    a := StripLeftTakes(s);
    b := StripRightTakes(StripLeft(s));
  }

  lemma {:induction false} StripLeftTakes(s: string) returns (a: string)
    ensures s == a + StripLeft(s) && AllSpace(a)
  {
    a := "";
    if s != "" && IsSpace(s[0]) {
      var rest := StripLeftTakes(s[1..]);
      a := [s[0]] + rest;
    }
  }

  lemma {:induction false} StripRightTakes(s: string) returns (b: string)
    ensures s == StripRight(s) + b && AllSpace(b)
  {
    b := "";
    if s != "" && IsSpace(s[|s| - 1]) {
      var rest := StripRightTakes(s[..|s| - 1]);
      b := rest + [s[|s| - 1]];
      assert s == s[..|s| - 1] + [s[|s| - 1]];
    }
  }

  lemma StrippedStays(s: string)
    requires Stripped(s)
    ensures Strip(s) == s
  {
  }

  lemma StripLeftPadded(s: string)
    ensures StripLeft(" " + s) == StripLeft(s)
  {
    assert (" " + s)[1..] == s;
  }

  lemma StripRightPadded(s: string)
    requires Stripped(s)
    ensures StripLeft(s + " ") == if s == "" then "" else s + " "
    ensures Strip(s + " ") == s
  {
    if s == "" {
      assert s + " " == " " && " "[1..] == "";
    } else {
      assert (s + " ")[0] == s[0];
      StripLast(s);
    }
  }

  /** Spaces around a stripped text come off again. */
  lemma StripPadded(s: string)
    requires Stripped(s)
    ensures Strip(" " + s + " ") == s && Strip(" " + s) == s && Strip(s + " ") == s
  {
    assert " " + s + " " == " " + (s + " ");
    StripLeftPadded(s + " ");
    StripLeftPadded(s);
    StripRightPadded(s);
    StrippedStays(s);
  }

  lemma StripLast(s: string)
    requires Stripped(s)
    ensures StripRight(s + " ") == s
  {
    assert (s + " ")[..|s|] == s;
  }

  /** `str(n)`. */
  function Str(n: int): string {
    if n < 0 then "-" + Dec(-n) else Dec(n)
  }

  lemma StrChars(n: int)
    ensures Str(n) != "" && forall i :: 0 <= i < |Str(n)| ==> IsDigit(Str(n)[i]) || (Str(n)[i] == '-' && n < 0)
  {
  }

  lemma StrStripped(n: int)
    ensures Stripped(Str(n))
  {
    StrChars(n);
  }

  function Digits(s: string): (d: string)
    ensures forall i :: 0 <= i < |d| ==> IsDigit(d[i])
  {
    if s == "" then "" else
      var rest := Digits(s[..|s| - 1]);
      if IsDigit(s[|s| - 1]) then rest + [s[|s| - 1]] else rest
  }

  /** Digits, with single underscores between them. */
  predicate Numeral(s: string) {
    && s != "" && IsDigit(s[0]) && IsDigit(s[|s| - 1])
    && (forall i :: 0 <= i < |s| ==> IsDigit(s[i]) || s[i] == '_')
    && forall i :: 0 <= i < |s| - 1 ==> s[i] != '_' || s[i + 1] != '_'
  }

  /** `int(s)`: white space around a sign and a numeral; anything else raises an exception. */
  function PyInt(s: string): Parsed<int> {
    SignedInt(Strip(s))
  }

  function SignedInt(t: string): Parsed<int> {
    var signed := t != "" && (t[0] == '-' || t[0] == '+');
    var u := if signed then t[1..] else t;
    if !Numeral(u) then Throws
    else Value(if signed && t[0] == '-' then -(Number(Digits(u)) as int) else Number(Digits(u)))
  }

  lemma {:induction false} DigitsOfDigits(s: string)
    requires forall i :: 0 <= i < |s| ==> IsDigit(s[i])
    ensures Digits(s) == s
  {
    if s != "" { DigitsOfDigits(s[..|s| - 1]); }
  }

  lemma PyIntOfStr(n: int)
    ensures PyInt(Str(n)) == Value(n)
  {
    StrStripped(n);
    StrippedStays(Str(n));
    SignedIntOfStr(n);
  }

  lemma SignedIntOfStr(n: int)
    ensures SignedInt(Str(n)) == Value(n)
  {
    if n < 0 { SignedIntOfMinus(-n); } else { SignedIntOfDec(n); }
  }

  lemma SignedIntOfMinus(m: nat)
    ensures SignedInt("-" + Dec(m)) == Value(-(m as int))
  {
    NumeralOfDec(m);
    AfterMinus(Dec(m), m);
  }

  lemma SignedIntOfDec(n: nat)
    ensures SignedInt(Dec(n)) == Value(n)
  {
    NumeralOfDec(n);
    Unsigned(Dec(n), n);
  }

  lemma AfterMinus(u: string, m: nat)
    requires Numeral(u) && Number(Digits(u)) == m
    ensures SignedInt("-" + u) == Value(-(m as int))
  {
    assert ("-" + u)[1..] == u;
  }

  lemma Unsigned(u: string, n: nat)
    requires Numeral(u) && Number(Digits(u)) == n
    ensures SignedInt(u) == Value(n)
  {
    assert IsDigit(u[0]);
  }

  lemma NumeralOfDec(n: nat)
    ensures Numeral(Dec(n)) && Number(Digits(Dec(n))) == n
  {
    assert IsDigit(Dec(n)[0]);
    DigitsOfDigits(Dec(n));
    NumberOfDec(n);
  }

  /** A text without a minus sign is no negative number. */
  lemma PyIntSign(s: string)
    requires '-' !in s
    ensures PyInt(s).Value? ==> PyInt(s).value >= 0
  {
    StripIs(s);
  }

  /** A list comprehension over pieces of text: the first exception ends it. */
  function Each<T>(pieces: seq<string>, f: string -> Parsed<T>): Parsed<seq<T>> {
    if pieces == [] then Value([]) else
      match Each(pieces[..|pieces| - 1], f)
      case Throws => Throws
      case Value(xs) =>
        match f(pieces[|pieces| - 1])
        case Throws => Throws
        case Value(x) => Value(xs + [x])
  }

  lemma {:induction false} EachIs<T>(pieces: seq<string>, f: string -> Parsed<T>, xs: seq<T>)
    ensures Each(pieces, f) == Value(xs) <==> |xs| == |pieces| && forall i :: 0 <= i < |xs| ==> f(pieces[i]) == Value(xs[i])
  {
    if pieces != [] {
      var n := |pieces| - 1;
      if |xs| == |pieces| {
        EachIs(pieces[..n], f, xs[..n]);
        assert xs == xs[..n] + [xs[n]];
      }
      if Each(pieces, f) == Value(xs) {
        EachIs(pieces[..n], f, Each(pieces[..n], f).value);
      }
    }
  }

  lemma EachNext<T>(pieces: seq<string>, f: string -> Parsed<T>, i: nat, xs: seq<T>, x: T)
    requires i < |pieces| && Each(pieces[..i], f) == Value(xs) && f(pieces[i]) == Value(x)
    ensures Each(pieces[..i + 1], f) == Value(xs + [x])
  {
    assert pieces[..i + 1][..i] == pieces[..i];
  }

  lemma {:induction false} EachThrows<T>(pieces: seq<string>, f: string -> Parsed<T>, i: nat)
    requires i < |pieces| && f(pieces[i]).Throws?
    ensures Each(pieces, f).Throws?
  {
    if i < |pieces| - 1 { EachThrows(pieces[..|pieces| - 1], f, i); }
  }

  /** The texts of a list. */
  function Texts<T>(xs: seq<T>, f: T -> string): (t: seq<string>)
    ensures |t| == |xs| && forall i :: 0 <= i < |t| ==> t[i] == f(xs[i])
  {
    seq(|xs|, i requires 0 <= i < |xs| => f(xs[i]))
  }
}
