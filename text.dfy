/**
 The string normalisation the command loop applies to what it reads:
 whitespace trimming (strings.TrimSpace), quote trimming at open time
 (strings.Trim with cutset `"'`), decimal id parsing (strconv.Atoi), and the
 `%d` formatting used when ids and counts are printed.
 */
module Text {
  import opened Wrappers

  /** The white space strings.TrimSpace removes, restricted to Latin-1:
      tab, line feed, vertical tab, form feed, carriage return, space, NEL, NBSP. */
  const Whitespace: set<char> := {'\t', '\n', '\U{000B}', '\U{000C}', '\r', ' ', '\U{0085}', '\U{00A0}'}

  /** The cutset `"'` given to strings.Trim when a project is opened. */
  const Quotes: set<char> := {'"', '\''}

  /** Go's `int` on a 64-bit platform. */
  const MinInt: int := -0x8000_0000_0000_0000
  const MaxInt: int := 0x7fff_ffff_ffff_ffff

  predicate AllIn(s: string, cut: set<char>)
  {
    forall i :: 0 <= i < |s| ==> s[i] in cut
  }

  /** Neither the first nor the last character of s is in cut. */
  predicate Bare(s: string, cut: set<char>)
  {
    s == [] || (s[0] !in cut && s[|s| - 1] !in cut)
  }

  /** r sits in s at offset i, and everything of s before and after it is in cut. */
  predicate Framed(s: string, i: int, r: string, cut: set<char>)
  {
    0 <= i <= |s| - |r| && r == s[i..i + |r|] && AllIn(s[..i], cut) && AllIn(s[i + |r|..], cut)
  }

  /** Drops the longest prefix made of characters in cut. */
  function TrimLeft(s: string, cut: set<char>): string
  {
    if s != [] && s[0] in cut then TrimLeft(s[1..], cut) else s
  }

  /** Drops the longest suffix made of characters in cut. */
  function TrimRight(s: string, cut: set<char>): string
  {
    if s != [] && s[|s| - 1] in cut then TrimRight(s[..|s| - 1], cut) else s
  }

  /** strings.Trim: the longest prefix and then the longest suffix made of
      characters in cut are dropped. */
  function Trim(s: string, cut: set<char>): string
  {
    TrimRight(TrimLeft(s, cut), cut)
  }

  /** TrimLeft keeps a suffix of s, drops only cut characters, and stops at
      the first character not in cut. */
  lemma {:induction false} TrimLeftShape(s: string, cut: set<char>)
    ensures var r := TrimLeft(s, cut);
      && |r| <= |s| && r == s[|s| - |r|..]
      && AllIn(s[..|s| - |r|], cut)
      && (r == [] || r[0] !in cut)
  {
    if s != [] && s[0] in cut {
      TrimLeftShape(s[1..], cut);
      var r := TrimLeft(s, cut);
      assert s[..|s| - |r|] == [s[0]] + s[1..][..|s| - 1 - |r|];
    }
  }

  /** TrimRight keeps a prefix of s, drops only cut characters, and stops
      at the last character not in cut. */
  lemma {:induction false} TrimRightShape(s: string, cut: set<char>)
    ensures var r := TrimRight(s, cut);
      && |r| <= |s| && r == s[..|r|]
      && AllIn(s[|r|..], cut)
      && (r == [] || r[|r| - 1] !in cut)
  {
    if s != [] && s[|s| - 1] in cut {
      TrimRightShape(s[..|s| - 1], cut);
      var r := TrimRight(s, cut);
      assert s[|r|..] == s[..|s| - 1][|r|..] + [s[|s| - 1]];
    }
  }

  /** The result of Trim has no cut character at either end. */
  lemma TrimBare(s: string, cut: set<char>)
    ensures Bare(Trim(s, cut), cut)
  {
    var l := TrimLeft(s, cut);
    TrimLeftShape(s, cut);
    TrimRightShape(l, cut);
    var r := TrimRight(l, cut);
    assert r != [] ==> r[0] == l[0];
  }

  /** The result of Trim is a contiguous piece of s, and everything cut off
      on either side of it is in cut. */
  lemma TrimFramed(s: string, cut: set<char>)
    ensures exists i :: Framed(s, i, Trim(s, cut), cut)
  {
    var l := TrimLeft(s, cut);
    TrimLeftShape(s, cut);
    TrimRightShape(l, cut);
    var r := TrimRight(l, cut);
    var i := |s| - |l|;
    assert Trim(s, cut) == r;
    assert r == l[..|r|] && l == s[i..];
    assert r == s[i..i + |r|];
    assert AllIn(l[|r|..], cut);
    assert s[i + |r|..] == l[|r|..];
    assert Framed(s, i, r, cut);
  }

  function TrimSpace(s: string): string
  {
    Trim(s, Whitespace)
  }

  function TrimQuotes(s: string): string
  {
    Trim(s, Quotes)
  }

  lemma {:induction false} TrimLeftSkips(pre: string, rest: string, cut: set<char>)
    requires AllIn(pre, cut)
    requires rest == [] || rest[0] !in cut
    ensures TrimLeft(pre + rest, cut) == rest
  {
    if pre != [] {
      assert (pre + rest)[1..] == pre[1..] + rest;
      TrimLeftSkips(pre[1..], rest, cut);
    } else {
      assert pre + rest == rest;
    }
  }

  lemma {:induction false} TrimRightSkips(rest: string, post: string, cut: set<char>)
    requires AllIn(post, cut)
    requires rest == [] || rest[|rest| - 1] !in cut
    ensures TrimRight(rest + post, cut) == rest
  {
    if post != [] {
      assert (rest + post)[..|rest + post| - 1] == rest + post[..|post| - 1];
      TrimRightSkips(rest, post[..|post| - 1], cut);
    } else {
      assert rest + post == rest;
    }
  }

  /** Trim has exactly one answer: whatever bare middle is framed by cut
      characters on both sides is what Trim returns. Together with Trim's
      own postcondition this characterises Trim completely. */
  lemma TrimUnique(pre: string, mid: string, post: string, cut: set<char>)
    requires AllIn(pre, cut) && AllIn(post, cut) && Bare(mid, cut)
    ensures Trim(pre + mid + post, cut) == mid
  {
    if mid == [] {
      assert pre + mid + post == (pre + post) + [];
      TrimLeftSkips(pre + post, [], cut);
    } else {
      assert pre + mid + post == pre + (mid + post);
      TrimLeftSkips(pre, mid + post, cut);
      TrimRightSkips(mid, post, cut);
    }
  }

  /** Trimming an already trimmed string changes nothing. */
  lemma TrimIdempotent(s: string, cut: set<char>)
    ensures Trim(Trim(s, cut), cut) == Trim(s, cut)
  {
    var r := Trim(s, cut);
    TrimBare(s, cut);
    assert [] + r + [] == r;
    TrimUnique([], r, [], cut);
  }

  /** Quote stripping at open time: the result neither starts nor ends with
      a quote, is a contiguous piece of the stored path whose cut-off ends
      are all quotes, and stripping again changes nothing. */
  lemma TrimQuotesProperties(path: string, d: string)
    requires d == TrimQuotes(path)
    ensures d == [] || (d[0] != '"' && d[0] != '\'' && d[|d| - 1] != '"' && d[|d| - 1] != '\'')
    ensures exists i :: Framed(path, i, d, Quotes)
    ensures TrimQuotes(d) == d
  {
    TrimBare(path, Quotes);
    TrimFramed(path, Quotes);
    TrimIdempotent(path, Quotes);
  }

  /** Quotes inside the path survive: only the quote runs at the two ends go. */
  lemma TrimQuotesKeepsInterior(pre: string, mid: string, post: string)
    requires AllIn(pre, Quotes) && AllIn(post, Quotes)
    requires mid != [] && mid[0] !in Quotes && mid[|mid| - 1] !in Quotes
    ensures TrimQuotes(pre + mid + post) == mid
  {
    TrimUnique(pre, mid, post, Quotes);
  }

  /** A line as bufio.Reader.ReadString returns it, with its terminating
      newline, trims to the bare text of the line. */
  lemma TrimSpaceLine(text: string)
    requires Bare(text, Whitespace)
    ensures TrimSpace(text + "\n") == text
  {
    assert [] + text + "\n" == text + "\n";
    TrimUnique([], text, "\n", Whitespace);
  }

  // ---------------------------------------------------------------- Atoi

  predicate IsDigit(c: char)
  {
    '0' <= c <= '9'
  }

  predicate AllDigits(s: string)
  {
    forall i :: 0 <= i < |s| ==> IsDigit(s[i])
  }

  function DigitValue(c: char): nat
    requires IsDigit(c)
  {
    c as int - '0' as int
  }

  /** The value of a string of decimal digits, most significant first. */
  function DigitsValue(s: string): nat
    requires AllDigits(s)
  {
    if s == [] then 0 else DigitsValue(s[..|s| - 1]) * 10 + DigitValue(s[|s| - 1])
  }

  /** s without its optional leading sign. */
  function Unsigned(s: string): string
  {
    if s != [] && (s[0] == '+' || s[0] == '-') then s[1..] else s
  }

  /** The grammar strconv.Atoi accepts: an optional sign and at least one
      decimal digit, nothing else (no spaces, no underscores). */
  predicate IsDecimal(s: string)
  {
    Unsigned(s) != [] && AllDigits(Unsigned(s))
  }

  /** strconv.Atoi on a 64-bit platform: None for a syntax error and for a
      value outside Go's `int`. */
  function Atoi(s: string): (r: Option<int>)
    ensures r.Some? ==> IsDecimal(s) && MinInt <= r.value <= MaxInt
    ensures r.Some? ==> (r.value < 0 ==> s[0] == '-') && (s[0] == '-' ==> r.value <= 0)
    ensures r.Some? ==> DigitsValue(Unsigned(s)) == (if r.value < 0 then -r.value else r.value)
    ensures IsDecimal(s) && s[0] != '-' ==> (r.Some? <==> DigitsValue(Unsigned(s)) <= MaxInt)
    ensures IsDecimal(s) && s[0] == '-' ==> (r.Some? <==> DigitsValue(Unsigned(s)) <= MaxInt + 1)
  {
    if !IsDecimal(s) then None
    else
      var m: int := DigitsValue(Unsigned(s));
      var v := if s[0] == '-' then -m else m;
      if MinInt <= v <= MaxInt then Some(v) else None
  }

  // ---------------------------------------------------------------- %d

  function DigitChar(d: nat): (c: char)
    requires d < 10
    ensures IsDigit(c) && DigitValue(c) == d
  {
    ('0' as int + d) as char
  }

  /** The decimal digits of n, most significant first, without leading zeros. */
  function NatDigits(n: nat): (s: string)
    ensures s != [] && AllDigits(s) && DigitsValue(s) == n
    ensures s[0] == '0' ==> n == 0 && s == "0"
  {
    if n < 10 then [DigitChar(n)]
    else
      var s := NatDigits(n / 10) + [DigitChar(n % 10)];
      assert s[..|s| - 1] == NatDigits(n / 10);
      s
  }

  /** fmt's `%d` verb. */
  function FormatInt(n: int): string
  {
    if n < 0 then "-" + NatDigits(-n) else NatDigits(n)
  }

  /** Parsing what `%d` prints gives the number back, for every Go `int`. */
  lemma ParseFormatted(n: int)
    requires MinInt <= n <= MaxInt
    ensures Atoi(FormatInt(n)) == Some(n)
  {
    var s := FormatInt(n);
    if n < 0 {
      assert Unsigned(s) == NatDigits(-n);
    } else {
      assert Unsigned(s) == NatDigits(n);
    }
  }
}
