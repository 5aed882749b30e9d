/**
  Decimal printing and reading, and std::getline-style splitting with the matching join
  (mssdk/json/Utils.hpp). A trailing delimiter does not open a last, empty token.
 */
module Text {
  import opened Prelude
  import opened Regex

  const MAX_INT64: int := 0x7fff_ffff_ffff_ffff
  const MIN_INT64: int := -0x8000_0000_0000_0000
  const MAX_UINT64: int := 0xffff_ffff_ffff_ffff
  const TWO_32: int := 0x1_0000_0000
  const TWO_64: int := 0x1_0000_0000_0000_0000

  // ---- Decimal numbers ----

  function DigitChar(d: nat): char
    requires d < 10
  {
    ('0' as int + d) as char
  }

  /** std::to_string of a non-negative number. */
  function Dec(n: nat): string {
    if n < 10 then [DigitChar(n)] else Dec(n / 10) + [DigitChar(n % 10)]
  }

  function DecInt(n: int): string { if n < 0 then "-" + Dec(-n) else Dec(n) }

  /** The value of a digit string, most significant digit first. */
  function DigitsValue(s: string): nat
    requires All(Digit, s)
  {
    if s == "" then 0
    else
      var last := s[|s| - 1];
      assert last in s && forall c <- s[..|s| - 1] :: c in s;
      10 * DigitsValue(s[..|s| - 1]) + (last as int - '0' as int)
  }

  lemma {:induction false} DecDigits(n: nat)
    ensures All(Digit, Dec(n)) && Dec(n) != "" && (n > 0 ==> Dec(n)[0] != '0')
  {
    if n >= 10 { DecDigits(n / 10); }
  }

  /** Reading back a printed number gives the number. */
  lemma {:induction false} DecRoundTrip(n: nat)
    ensures All(Digit, Dec(n)) && DigitsValue(Dec(n)) == n
  {
    DecDigits(n);
    if n >= 10 {
      DecRoundTrip(n / 10);
      assert Dec(n)[..|Dec(n)| - 1] == Dec(n / 10);
    }
  }

  /**
    Reading a whole string as an integer of the range lo..hi with std::noskipws:
    an optional sign, then at least one digit, and nothing else.
   */
  function ReadInt(s: string, lo: int, hi: int): Option<int> {
    var body := if s != "" && (s[0] == '-' || s[0] == '+') then s[1..] else s;
    if body == "" || !All(Digit, body) then None
    else
      var v: int := if s[0] == '-' then 0 - DigitsValue(body) else DigitsValue(body);
      if lo <= v <= hi then Some(v) else None
  }

  /** Reading back any printed integer as a signed one gives it, or nothing when it is out of range. */
  lemma ReadDecInt(n: int, lo: int, hi: int)
    ensures ReadInt(DecInt(n), lo, hi) == if lo <= n <= hi then Some(n) else None
  {
    var m: nat := if n < 0 then -n else n;
    DecRoundTrip(m);
    DecDigits(m);
    if n < 0 {
      assert DecInt(n)[1..] == Dec(m);
    } else {
      assert Dec(m)[0] in Dec(m);
    }
  }

  /** Reading as an unsigned 64-bit number: a minus sign counts down from 2^64. */
  function ReadUnsigned(s: string): Option<nat> {
    var v := ReadInt(s, -MAX_UINT64, MAX_UINT64);
    if v.Some? then Some(v.value % TWO_64) else None
  }

  /** A printed integer reads back as unsigned when it is not negative; a negative one wraps around. */
  lemma ReadDecUnsigned(n: int)
    ensures ReadUnsigned(DecInt(n)) == if -MAX_UINT64 <= n <= MAX_UINT64 then Some(n % TWO_64) else None
    ensures ReadUnsigned(DecInt(n)) == Some(n) <==> 0 <= n <= MAX_UINT64
  {
    hide ReadInt, DecInt;
    ReadDecInt(n, -MAX_UINT64, MAX_UINT64);
  }

  // ---- Splitting at a delimiter ----

  /** The index of the first delimiter, or the length. */
  function Cut(s: string, d: char): (n: nat)
    ensures n <= |s| && d !in s[..n] && (n < |s| ==> s[n] == d)
  {
    if s == "" || s[0] == d then 0
    else
      var n := 1 + Cut(s[1..], d);
      assert s[..n] == [s[0]] + s[1..][..n - 1];
      n
  }

  /** The tokens std::getline reads one after the other. */
  function Tokens(s: string, d: char): seq<string> {
    if s == "" then []
    else
      var n := Cut(s, d);
      if n == |s| then [s] else [s[..n]] + Tokens(s[n + 1..], d)
  }

  function Join(v: seq<string>, d: char): string {
    if v == [] then "" else if |v| == 1 then v[0] else v[0] + [d] + Join(v[1..], d)
  }

  lemma {:induction false} CutStops(a: string, d: char, rest: string)
    requires d !in a && (rest == "" || rest[0] == d)
    ensures Cut(a + rest, d) == |a|
  {
    if a == "" {
      assert a + rest == rest;
    } else {
      assert (a + rest)[1..] == a[1..] + rest;
      CutStops(a[1..], d, rest);
    }
  }

  lemma TokensStep(a: string, d: char, rest: string)
    requires d !in a
    ensures Tokens(a + [d] + rest, d) == [a] + Tokens(rest, d)
  {
    assert a + [d] + rest == a + ([d] + rest);
    CutStops(a, d, [d] + rest);
    assert (a + [d] + rest)[..|a|] == a && (a + [d] + rest)[|a| + 1..] == rest;
  }

  predicate DelimiterFree(v: seq<string>, d: char) { forall t <- v :: d !in t }

  /** The tokens that survive joining and splitting: an empty last token does not. */
  function Surviving(v: seq<string>): seq<string> {
    if v != [] && v[|v| - 1] == "" then v[..|v| - 1] else v
  }

  lemma SplitOfOne(a: string, d: char)
    requires d !in a
    ensures Tokens(a, d) == if a == "" then [] else [a]
  {
    assert a + "" == a;
    CutStops(a, d, "");
  }

  lemma {:induction false} SplitOfJoin(v: seq<string>, d: char)
    requires DelimiterFree(v, d)
    ensures Tokens(Join(v, d), d) == Surviving(v)
  {
    hide Tokens;
    if v == [] {
      SplitOfOne("", d);
    } else if |v| == 1 {
      assert v[0] in v;
      SplitOfOne(v[0], d);
    } else {
      var rest := v[1..];
      assert v[0] in v;
      assert DelimiterFree(rest, d) by { assert forall t <- rest :: t in v; }
      SplitOfJoin(rest, d);
      TokensStep(v[0], d, Join(rest, d));
      assert [v[0]] + Surviving(rest) == Surviving(v);
    }
  }

  /** Splitting undoes joining exactly when the last token, if any, is not empty. */
  lemma SplitUndoesJoin(v: seq<string>, d: char)
    requires DelimiterFree(v, d)
    ensures Tokens(Join(v, d), d) == v <==> (v == [] || v[|v| - 1] != "")
  {
    SplitOfJoin(v, d);
  }

  lemma {:induction false} JoinAppend(v: seq<string>, t: string, d: char)
    ensures Join(v + [t], d) == if v == [] then t else Join(v, d) + [d] + t
  {
    if v == [] {
      assert v + [t] == [t];
    } else {
      assert (v + [t])[1..] == v[1..] + [t];
      JoinAppend(v[1..], t, d);
    }
  }

  /** What is left to split after the token at `pos`. */
  function Left(s: string, pos: nat, d: char): (next: nat)
    requires pos < |s|
    ensures pos < next <= |s|
  {
    var n := Cut(s[pos..], d);
    if pos + n == |s| then |s| else pos + n + 1
  }

  lemma NextToken(s: string, pos: nat, d: char)
    requires pos < |s|
    ensures Tokens(s[pos..], d) == [s[pos..pos + Cut(s[pos..], d)]] + Tokens(s[Left(s, pos, d)..], d)
  {
    var t, n := s[pos..], Cut(s[pos..], d);
    assert t[..n] == s[pos..pos + n];
    if n == |t| {
      assert s[|s|..] == "";
      assert t[..n] == t;
    } else {
      assert t[n + 1..] == s[pos + n + 1..];
    }
  }

  lemma AppendOne(tokens: seq<string>, token: string, rest: seq<string>)
    ensures tokens + ([token] + rest) == tokens + [token] + rest
  {}

  /** Utils::split. */
  method Split(s: string, delimiter: char) returns (tokens: seq<string>)
    ensures tokens == Tokens(s, delimiter)
  {
    hide Tokens;
    tokens := [];
    var pos := 0;
    assert s[0..] == s;
    while pos < |s|
      invariant pos <= |s|
      invariant tokens + Tokens(s[pos..], delimiter) == Tokens(s, delimiter)
    {
      var n := Cut(s[pos..], delimiter);
      NextToken(s, pos, delimiter);
      AppendOne(tokens, s[pos..pos + n], Tokens(s[Left(s, pos, delimiter)..], delimiter));
      tokens := tokens + [s[pos..pos + n]];
      pos := if pos + n == |s| then |s| else pos + n + 1;
    }
    NoTokens(s, delimiter);
  }

  lemma NoTokens(s: string, d: char)
    ensures Tokens(s[|s|..], d) == []
  {
    assert s[|s|..] == "";
  }

  /** Utils::join of strings. */
  method JoinStrings(v: seq<string>, delimiter: char) returns (s: string)
    ensures s == Join(v, delimiter)
  {
    s := "";
    var i := 0;
    while i < |v|
      invariant i <= |v|
      invariant s == (if i == 0 || i == |v| then Join(v[..i], delimiter) else Join(v[..i], delimiter) + [delimiter])
    {
      assert v[..i + 1] == v[..i] + [v[i]];
      JoinAppend(v[..i], v[i], delimiter);
      s := s + v[i];
      if i != |v| - 1 {
        s := s + [delimiter];
      }
      i := i + 1;
    }
    assert v[..|v|] == v;
  }

  function Decs(v: seq<nat>): seq<string> { seq(|v|, i requires 0 <= i < |v| => Dec(v[i])) }

  /** Utils::join of numbers. */
  method JoinNumbers(v: seq<nat>, delimiter: char) returns (s: string)
    ensures s == Join(Decs(v), delimiter)
  {
    s := "";
    var i := 0;
    while i < |v|
      invariant i <= |v|
      invariant s == (if i == 0 || i == |v| then Join(Decs(v)[..i], delimiter) else Join(Decs(v)[..i], delimiter) + [delimiter])
    {
      assert Decs(v)[..i + 1] == Decs(v)[..i] + [Dec(v[i])];
      JoinAppend(Decs(v)[..i], Dec(v[i]), delimiter);
      s := s + Dec(v[i]);
      if i != |v| - 1 {
        s := s + [delimiter];
      }
      i := i + 1;
    }
    assert Decs(v)[..|v|] == Decs(v);
  }
}
