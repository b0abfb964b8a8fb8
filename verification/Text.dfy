/** Text as the C++ library reads and writes it: `std::getline` with a delimiter, `std::to_string` and
    `std::stoi`.

    `getline` yields the pieces between delimiters, but not an empty last piece. `stoi` skips white space,
    takes an optional sign and the digits that follow, ignores the rest, and throws when there is no digit or
    the number does not fit an int. An exception is a value here, `Throws`, that the callers pass on. */
module Text {

  datatype Parsed<T> = Value(value: T) | Throws

  predicate Free(s: string, c: char) { c !in s }

  /** Length of the part before the first c, the whole length if there is none. */
  function Before(s: string, c: char): (n: nat)
    ensures n <= |s| && c !in s[..n] && (n < |s| ==> s[n] == c)
  {
    if s == "" || s[0] == c then 0 else 1 + Before(s[1..], c)
  }

  /** The results of `getline` until it fails: an empty last piece is not reported. */
  function Tokens(s: string, c: char): (t: seq<string>)
    ensures forall i :: 0 <= i < |t| ==> c !in t[i]
  {
    if s == "" then [] else
      var n := Before(s, c);
      if n == |s| then [s] else [s[..n]] + Tokens(s[n + 1..], c)
  }

  lemma {:induction false} BeforeIs(a: string, c: char, b: string)
    requires c !in a && (b == "" || b[0] == c)
    ensures Before(a + b, c) == |a|
  {
    if a != "" {
      assert (a + b)[1..] == a[1..] + b;
      BeforeIs(a[1..], c, b);
    } else {
      assert a + b == b;
    }
  }

  lemma FirstToken(a: string, c: char, b: string)
    requires c !in a
    ensures Tokens(a + [c] + b, c) == [a] + Tokens(b, c)
  {
    assert a + [c] + b == a + ([c] + b);
    BeforeIs(a, c, [c] + b);
    assert (a + [c] + b)[..|a|] == a && (a + [c] + b)[|a| + 1..] == b;
  }

  lemma {:induction false} BeforeSkips(a: string, c: char, b: string)
    requires c !in a
    ensures Before(a + b, c) == |a| + Before(b, c)
  {
    if a != "" {
      assert (a + b)[1..] == a[1..] + b;
      BeforeSkips(a[1..], c, b);
    } else {
      assert a + b == b;
    }
  }

  /** The first token starts with whatever comes before any delimiter. */
  lemma FirstTokenStarts(a: string, c: char, b: string)
    requires c !in a && a != ""
    ensures Tokens(a + b, c) != [] && Tokens(a + b, c)[0] == a + b[..Before(b, c)]
  {
    BeforeSkips(a, c, b);
    assert (a + b)[..|a| + Before(b, c)] == a + b[..Before(b, c)];
    assert (a + b)[..|a + b|] == a + b;
  }

  lemma OnlyToken(a: string, c: char)
    requires c !in a && a != ""
    ensures Tokens(a, c) == [a]
  {
    BeforeIs(a, c, "");
    assert a + "" == a;
  }

  /** Pieces, each followed by the delimiter. */
  function Closed(pieces: seq<string>, c: char): string {
    if pieces == [] then "" else Closed(pieces[..|pieces| - 1], c) + pieces[|pieces| - 1] + [c]
  }

  lemma ClosedNext(pieces: seq<string>, piece: string, c: char)
    ensures Closed(pieces + [piece], c) == Closed(pieces, c) + piece + [c]
  {
    assert (pieces + [piece])[..|pieces|] == pieces;
  }

  lemma {:induction false} ClosedConcat(a: seq<string>, b: seq<string>, c: char)
    ensures Closed(a + b, c) == Closed(a, c) + Closed(b, c)
  {
    if b == [] {
      assert a + b == a;
    } else {
      var n := |b| - 1;
      ClosedConcat(a, b[..n], c);
      ClosedNext(a + b[..n], b[n], c);
      ConcatLast(a, b);
      Regroup(Closed(a, c), Closed(b[..n], c), b[n], [c]);
    }
  }

  lemma Regroup(x: string, y: string, z: string, w: string)
    ensures x + y + z + w == x + (y + z + w)
  {
  }

  lemma ConcatLast<T>(a: seq<T>, b: seq<T>)
    requires b != []
    ensures a + b == a + b[..|b| - 1] + [b[|b| - 1]]
  {
  }

  lemma {:induction false} TokensHaveOnly(s: string, c: char, d: char)
    requires d !in s
    ensures forall i :: 0 <= i < |Tokens(s, c)| ==> d !in Tokens(s, c)[i]
  {
    if s != "" {
      var n := Before(s, c);
      if n < |s| { TokensHaveOnly(s[n + 1..], c, d); }
    }
  }

  lemma ClosedLast(pieces: seq<string>, c: char, rest: string)
    requires pieces != []
    ensures var n := |pieces| - 1;
            Closed(pieces, c) + rest == Closed(pieces[..n], c) + (pieces[n] + [c] + rest)
  {
  }

  lemma LastPiece(pieces: seq<string>, more: seq<string>)
    requires pieces != []
    ensures pieces[..|pieces| - 1] + ([pieces[|pieces| - 1]] + more) == pieces + more
  {
  }

  lemma {:induction false} TokensOfClosed(pieces: seq<string>, c: char, rest: string)
    requires forall i :: 0 <= i < |pieces| ==> c !in pieces[i]
    ensures Tokens(Closed(pieces, c) + rest, c) == pieces + Tokens(rest, c)
  {
    if pieces == [] {
      assert "" + rest == rest;
    } else {
      var n := |pieces| - 1;
      var last := pieces[n];
      ClosedLast(pieces, c, rest);
      TokensOfClosed(pieces[..n], c, last + [c] + rest);
      FirstToken(last, c, rest);
      LastPiece(pieces, Tokens(rest, c));
    }
  }

  function Digit(n: nat): char
    requires n < 10
  {
    "0123456789"[n]
  }

  predicate IsDigit(c: char) { '0' <= c <= '9' }

  function DigitValue(c: char): (n: nat)
    requires IsDigit(c)
    ensures n < 10
  {
    c as int - '0' as int
  }

  /** `std::to_string` of a non-negative number. */
  function Dec(n: nat): (s: string)
    ensures s != "" && forall i :: 0 <= i < |s| ==> IsDigit(s[i])
  {
    if n < 10 then [Digit(n)] else Dec(n / 10) + [Digit(n % 10)]
  }

  function Number(digits: string): nat
    requires forall i :: 0 <= i < |digits| ==> IsDigit(digits[i])
  {
    if digits == "" then 0 else 10 * Number(digits[..|digits| - 1]) + DigitValue(digits[|digits| - 1])
  }

  lemma DigitRoundTrip(n: nat)
    requires n < 10
    ensures DigitValue(Digit(n)) == n
  {
  }

  lemma {:induction false} NumberOfDec(n: nat)
    ensures Number(Dec(n)) == n
  {
    DigitRoundTrip(n % 10);
    if n >= 10 {
      NumberOfDec(n / 10);
      assert Dec(n)[..|Dec(n)| - 1] == Dec(n / 10);
    } else {
      assert Dec(n)[..0] == "";
    }
  }

  predicate IsSpace(c: char) { c == ' ' || '\t' <= c <= '\r' }

  function SkipSpaces(s: string): string {
    if s != "" && IsSpace(s[0]) then SkipSpaces(s[1..]) else s
  }

  /** Length of the digits at the start. */
  function DigitRun(s: string): (n: nat)
    ensures n <= |s| && forall i :: 0 <= i < n ==> IsDigit(s[i])
  {
    if s != "" && IsDigit(s[0]) then 1 + DigitRun(s[1..]) else 0
  }

  lemma {:induction false} DigitRunOfDigits(s: string, rest: string)
    requires forall i :: 0 <= i < |s| ==> IsDigit(s[i])
    requires rest == "" || !IsDigit(rest[0])
    ensures DigitRun(s + rest) == |s|
  {
    if s != "" {
      assert (s + rest)[1..] == s[1..] + rest;
      DigitRunOfDigits(s[1..], rest);
    } else {
      assert s + rest == rest;
    }
  }

  const INT_LIMIT: int := 0x8000_0000 // 2^31

  /** `std::stoi`: white space, a sign, digits; what follows them is ignored. It throws when there is no
      digit or the number does not fit an int. */
  function Stoi(s: string): Parsed<int> {
    var t := SkipSpaces(s);
    var signed := t != "" && (t[0] == '-' || t[0] == '+');
    var u := if signed then t[1..] else t;
    var k := DigitRun(u);
    if k == 0 then Throws else
      var v: int := Number(u[..k]);
      var x: int := if signed && t[0] == '-' then -v else v;
      if -INT_LIMIT <= x < INT_LIMIT then Value(x) else Throws
  }

  /** A printed number is read back, if it fits an int; otherwise reading throws. */
  lemma StoiOfDec(n: nat)
    ensures Stoi(Dec(n)) == if n < INT_LIMIT then Value(n) else Throws
  {
    var s := Dec(n);
    assert IsDigit(s[0]);
    assert SkipSpaces(s) == s;
    DigitRunOfDigits(s, "");
    assert s + "" == s && s[..|s|] == s;
    NumberOfDec(n);
  }

  predicate Spaces(s: string) { forall i :: 0 <= i < |s| ==> IsSpace(s[i]) }

  lemma {:induction false} SkipsSpaces(a: string, t: string)
    requires Spaces(a) && t != "" && !IsSpace(t[0])
    ensures SkipSpaces(a + t) == t
  {
    if a == "" {
      assert a + t == t;
    } else {
      assert (a + t)[1..] == a[1..] + t;
      SkipsSpaces(a[1..], t);
    }
  }

  lemma NumberStarts(n: nat, rest: string)
    requires rest == "" || !IsDigit(rest[0])
    ensures var u := Dec(n) + rest; IsDigit(u[0]) && DigitRun(u) == |Dec(n)| > 0 && Number(u[..DigitRun(u)]) == n
  {
    DigitRunOfDigits(Dec(n), rest);
    assert (Dec(n) + rest)[..|Dec(n)|] == Dec(n);
    NumberOfDec(n);
  }

  lemma SignStarts(a: string, sign: string, u: string)
    requires Spaces(a) && (sign == "" || sign == "+" || sign == "-") && u != "" && IsDigit(u[0])
    ensures var t := SkipSpaces(a + (sign + u));
            && t == sign + u && ((t[0] == '-' || t[0] == '+') <==> sign != "") && (t[0] == '-' <==> sign == "-")
            && (sign != "" ==> t[1..] == u) && (sign == "" ==> t == u)
  {
    SkipsSpaces(a, sign + u);
    if sign == "" { assert sign + u == u; }
  }

  /** White space, a sign, a printed number and anything that does not go on with a digit: the number is read. */
  lemma StoiReads(a: string, sign: string, n: nat, rest: string)
    requires Spaces(a) && (sign == "" || sign == "+" || sign == "-") && (rest == "" || !IsDigit(rest[0]))
    ensures var v: int := n;
            var x := if sign == "-" then -v else v;
            Stoi(a + (sign + (Dec(n) + rest))) == if -INT_LIMIT <= x < INT_LIMIT then Value(x) else Throws
  {
    NumberStarts(n, rest);
    SignStarts(a, sign, Dec(n) + rest);
    StoiOfParts(a + (sign + (Dec(n) + rest)), Dec(n) + rest, sign == "-", sign != "", n);
  }

  lemma StoiOfParts(s: string, u: string, minus: bool, signed: bool, n: nat)
    requires var t := SkipSpaces(s);
             && t != "" && (signed <==> t[0] == '-' || t[0] == '+') && (minus <==> t[0] == '-')
             && u == if signed then t[1..] else t
    requires DigitRun(u) > 0 && Number(u[..DigitRun(u)]) == n
    ensures var v: int := n;
            var x := if minus then -v else v;
            Stoi(s) == if -INT_LIMIT <= x < INT_LIMIT then Value(x) else Throws
  {
  }

  lemma {:induction false} OnlySpaces(a: string)
    requires Spaces(a)
    ensures SkipSpaces(a) == ""
  {
    if a != "" { OnlySpaces(a[1..]); }
  }

  /** Without a digit after white space and a sign there is no number. */
  lemma StoiNeedsDigit(a: string, sign: string, rest: string)
    requires Spaces(a) && (sign == "" || sign == "+" || sign == "-")
    requires rest == "" || (!IsDigit(rest[0]) && (sign != "" || !(IsSpace(rest[0]) || rest[0] == '+' || rest[0] == '-')))
    ensures Stoi(a + (sign + rest)).Throws?
  {
    if sign + rest == "" {
      assert a + (sign + rest) == a;
      OnlySpaces(a);
    } else {
      SkipsSpaces(a, sign + rest);
      if sign == "" { assert sign + rest == rest; } else { assert (sign + rest)[1..] == rest; }
    }
  }
}
