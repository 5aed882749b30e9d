/**
  The parameters of a codec, as an object of the JSON library with its members in the order of
  their names, and their form in an a=fmtp line: the writing loop of the media sections
  (mssdk/sdputil/MediaSection.cpp) and `parseParams` (mssdk/json/parser.cpp).
 */
module Params {
  import opened Prelude
  import opened Regex
  import opened Text
  import opened Json
  import opened Parser

  datatype Param = Param(name: string, value: Json)

  /** The order of std::string. */
  predicate Less(a: string, b: string) {
    b != "" && (a == "" || a[0] < b[0] || (a[0] == b[0] && Less(a[1..], b[1..])))
  }

  predicate Sorted(ps: seq<Param>) { forall i, j :: 0 <= i < j < |ps| ==> Less(ps[i].name, ps[j].name) }

  /** Assignment to a member: it replaces the value, or puts the name in its place. */
  function Put(ps: seq<Param>, name: string, value: Json): seq<Param> {
    if ps == [] then [Param(name, value)]
    else if ps[0].name == name then [Param(name, value)] + ps[1..]
    else if Less(name, ps[0].name) then [Param(name, value)] + ps
    else [ps[0]] + Put(ps[1..], name, value)
  }

  /** The value of a member, if there is one. */
  function Get(ps: seq<Param>, name: string): Option<Json> {
    if ps == [] then None else if ps[0].name == name then Some(ps[0].value) else Get(ps[1..], name)
  }

  lemma {:induction false} LessIrreflexive(a: string)
    ensures !Less(a, a)
  {
    if a != "" { LessIrreflexive(a[1..]); }
  }

  lemma {:induction false} LessTransitive(a: string, b: string, c: string)
    requires Less(a, b) && Less(b, c)
    ensures Less(a, c)
  {
    if a != "" && a[0] == b[0] == c[0] { LessTransitive(a[1..], b[1..], c[1..]); }
  }

  lemma {:induction false} LessTotal(a: string, b: string)
    ensures a == b || Less(a, b) || Less(b, a)
  {
    if a != "" && b != "" && a[0] == b[0] {
      LessTotal(a[1..], b[1..]);
      assert a == [a[0]] + a[1..] && b == [b[0]] + b[1..];
    }
  }

  /** An assignment keeps the order, sets the member and changes no other one. */
  lemma {:induction false} PutSets(ps: seq<Param>, name: string, value: Json)
    requires Sorted(ps)
    ensures Sorted(Put(ps, name, value))
    ensures forall n :: Get(Put(ps, name, value), n) == if n == name then Some(value) else Get(ps, n)
    ensures forall p <- Put(ps, name, value) :: p == Param(name, value) || p in ps
  {
    if ps != [] && ps[0].name != name {
      LessTotal(name, ps[0].name);
      if Less(name, ps[0].name) {
        forall j | 0 <= j < |ps| ensures Less(name, ps[j].name) {
          if j > 0 { LessTransitive(name, ps[0].name, ps[j].name); }
        }
      } else {
        PutSets(ps[1..], name, value);
        var rest := Put(ps[1..], name, value);
        forall j | 0 <= j < |rest| ensures Less(ps[0].name, rest[j].name) {
          assert rest[j] in rest;
        }
      }
    }
  }

  /** A name after all the others goes to the end. */
  lemma {:induction false} PutLast(ps: seq<Param>, name: string, value: Json)
    requires forall p <- ps :: Less(p.name, name)
    ensures Put(ps, name, value) == ps + [Param(name, value)]
  {
    if ps != [] {
      assert ps[0] in ps;
      LessIrreflexive(name);
      if Less(name, ps[0].name) { LessTransitive(name, ps[0].name, name); }
      PutLast(ps[1..], name, value);
    }
  }

  // ---- Writing ----

  /** What is written after '=': strings and numbers only. */
  function ValueText(v: Json): string { if v.Str? || v.Num? || v.Float? then Print(v) else "" }

  function PairText(p: Param): string { p.name + "=" + ValueText(p.value) }

  function Pairs(ps: seq<Param>): seq<string> { seq(|ps|, i requires 0 <= i < |ps| => PairText(ps[i])) }

  function Config(ps: seq<Param>): string { Join(Pairs(ps), ';') }

  lemma {:induction false} ConfigStarted(ps: seq<Param>)
    ensures Config(ps) == "" <==> ps == []
  {
    if |ps| == 1 {
      assert Pairs(ps) == [PairText(ps[0])];
    } else if |ps| > 1 {
      assert Pairs(ps)[0] == PairText(ps[0]);
    }
  }

  /** The loop over the items of `codecParameters`. */
  method WriteConfig(ps: seq<Param>) returns (config: string)
    ensures config == Config(ps)
  {
    hide Print;
    config := "";
    for i := 0 to |ps|
      invariant config == Config(ps[..i])
    {
      ConfigStarted(ps[..i]);
      assert Pairs(ps[..i + 1]) == Pairs(ps[..i]) + [PairText(ps[i])];
      JoinAppend(Pairs(ps[..i]), PairText(ps[i]), ';');
      if config != "" {
        config := config + ";";
      }
      config := config + ps[i].name + "=" + ValueText(ps[i].value);
    }
    assert ps[..|ps|] == ps;
  }

  // ---- Reading ----

  const VALUE_PART := Run(Space, Star, Lit("=", Run(Space, Star, Cap(Except(" "), Plus, Done))))

  /** KeyValueRegex, which has to match its whole input. */
  const KEY_VALUE := Run(Space, Star, Cap(Except("= "), Plus, Opt(VALUE_PART, End)))

  // `long` has 32 bits on the system that the client is written for.
  const MAX_LONG := 0x7fff_ffff
  const MIN_LONG := -0x8000_0000

  predicate IsInt(s: string) { ReadInt(s, MIN_LONG, MAX_LONG).Some? }

  /** The type of a value: fixed for the well-known names, else by its form. */
  function TypeOf(name: string, text: string, isFloat: string -> bool): char {
    if name == "profile-level-id" || name == "profile-id" then 's'
    else if name == "packetization-mode" then 'd'
    else if IsInt(text) then 'd'
    else if isFloat(text) then 'f'
    else 's'
  }

  function TrimLeft(s: string): string { s[Longest(Space, s)..] }

  function TrimRight(s: string): string {
    if s != "" && IsSpace(s[|s| - 1]) then TrimRight(s[..|s| - 1]) else s
  }

  function Trim(s: string): string { TrimRight(TrimLeft(s)) }

  /** insertParam: a text that the pattern does not match adds nothing. */
  function Insert(ps: seq<Param>, text: string, isFloat: string -> bool): seq<Param> {
    match Match(KEY_VALUE, text)
    case Some(Cons(name, Cons(value, _))) => Put(ps, name, ToType(value, TypeOf(name, value, isFloat)))
    case _ => ps
  }

  function Step(ps: seq<Param>, token: string, isFloat: string -> bool): seq<Param> {
    var param := Trim(token);
    if param == "" then ps else Insert(ps, param, isFloat)
  }

  function Inserted(tokens: seq<string>, isFloat: string -> bool): seq<Param> {
    if tokens == [] then [] else Step(Inserted(tokens[..|tokens| - 1], isFloat), tokens[|tokens| - 1], isFloat)
  }

  function Parsed(s: string, isFloat: string -> bool): seq<Param> { Inserted(Tokens(s, ';'), isFloat) }

  /** parseParams. */
  method ParseParams(s: string, isFloat: string -> bool) returns (ps: seq<Param>)
    ensures ps == Parsed(s, isFloat)
  {
    hide Match, Put, Tokens;
    ps := [];
    var tokens := Tokens(s, ';');
    for i := 0 to |tokens|
      invariant ps == Inserted(tokens[..i], isFloat)
    {
      assert tokens[..i + 1][..i] == tokens[..i];
      var param := Trim(tokens[i]);
      if param != "" {
        ps := Insert(ps, param, isFloat);
      }
    }
    assert tokens[..|tokens|] == tokens;
  }

  // ---- Round trip ----

  /** A text that the writer can put between '=' and ';', and the reader takes as it is. */
  predicate Bare(s: string) { s != "" && ';' !in s && All(NonSpace, s) }

  predicate Writable(p: Param) {
    Bare(p.name) && '=' !in p.name && (p.value.Str? || p.value.Num?) && Bare(ValueText(p.value))
  }

  /** The value that is read back for a written one. */
  function ReadBack(p: Param, isFloat: string -> bool): Param {
    Param(p.name, ToType(ValueText(p.value), TypeOf(p.name, ValueText(p.value), isFloat)))
  }

  lemma BareHasNoSpace(s: string)
    requires All(NonSpace, s)
    ensures Trim(s) == s
  {
    assert s[0..] == s;
    assert s != "" ==> s[0] in s && s[|s| - 1] in s;
  }

  lemma NoRun(next: Re, s: string)
    requires s == "" || !IsSpace(s[0])
    ensures Match(Run(Space, Star, next), s) == Match(next, s)
  {
    assert s[0..] == s;
    assert Longest(Space, s) == 0;
  }

  lemma ValueMatches(value: string)
    requires value != "" && All(NonSpace, value)
    ensures Match(Opt(VALUE_PART, End), "=" + value) == Some(Cons(value, Nil))
  {
    hide Match;
    var cap := Cap(Except(" "), Plus, End);
    assert value[0] in value && value + "" == value;
    EndMatchesNothing();
    CapStep(Except(" "), Plus, End, value, "");
    NoRun(cap, value);
    LitStep("=", Run(Space, Star, cap), value);
    NoRun(Lit("=", Run(Space, Star, cap)), "=" + value);
    ValueThen();
    OptTaken(VALUE_PART, End, "=" + value);
  }

  lemma EndMatchesNothing()
    ensures Match(End, "") == Some(Nil)
  {}

  lemma ValueThen()
    ensures Then(VALUE_PART, End) == Run(Space, Star, Lit("=", Run(Space, Star, Cap(Except(" "), Plus, End))))
  {
    var cap := Cap(Except(" "), Plus, Done);
    assert Then(cap, End) == Cap(Except(" "), Plus, End);
    assert Then(Run(Space, Star, cap), End) == Run(Space, Star, Cap(Except(" "), Plus, End));
  }

  lemma OptTaken(body: Re, next: Re, s: string)
    requires Match(Then(body, next), s).Some?
    ensures Match(Opt(body, next), s) == Match(Then(body, next), s)
  {}

  lemma PairMatches(p: Param)
    requires Writable(p)
    ensures Match(KEY_VALUE, PairText(p)) == Some(Cons(p.name, Cons(ValueText(p.value), Nil)))
  {
    hide Match, ValueText;
    var rest := "=" + ValueText(p.value);
    ValueMatches(ValueText(p.value));
    assert p.name[0] in p.name && PairText(p) == p.name + rest;
    assert forall c <- p.name :: c != '=' && !IsSpace(c);
    CapStep(Except("= "), Plus, Opt(VALUE_PART, End), p.name, rest);
    NoRun(Cap(Except("= "), Plus, Opt(VALUE_PART, End)), PairText(p));
  }

  lemma PairIsRead(ps: seq<Param>, p: Param, isFloat: string -> bool)
    requires Writable(p) && forall q <- ps :: Less(q.name, p.name)
    ensures Step(ps, PairText(p), isFloat) == ps + [ReadBack(p, isFloat)]
  {
    hide Match, ValueText, ToType, Trim;
    BareHasNoSpace(PairText(p));
    PairMatches(p);
    PutLast(ps, p.name, ReadBack(p, isFloat).value);
  }

  function ReadBacks(ps: seq<Param>, isFloat: string -> bool): seq<Param> {
    seq(|ps|, i requires 0 <= i < |ps| => ReadBack(ps[i], isFloat))
  }

  lemma {:induction false} PairsAreRead(ps: seq<Param>, isFloat: string -> bool)
    requires Sorted(ps) && forall p <- ps :: Writable(p)
    ensures Inserted(Pairs(ps), isFloat) == ReadBacks(ps, isFloat)
  {
    hide Step, ToType, Writable;
    if ps != [] {
      var front, last := ps[..|ps| - 1], ps[|ps| - 1];
      PairsAreRead(front, isFloat);
      assert Pairs(ps)[..|ps| - 1] == Pairs(front);
      var before := ReadBacks(front, isFloat);
      forall q | q in before ensures Less(q.name, last.name) {
        var i :| 0 <= i < |before| && q == before[i];
        assert q.name == ps[i].name;
      }
      PairIsRead(before, last, isFloat);
    }
  }

  /** What the reader makes of a written configuration: the same names, each with the value its text reads as. */
  lemma ConfigIsRead(ps: seq<Param>, isFloat: string -> bool)
    requires Sorted(ps) && forall p <- ps :: Writable(p)
    ensures Parsed(Config(ps), isFloat) == ReadBacks(ps, isFloat)
  {
    hide Tokens, ToType, ValueText;
    forall t | t in Pairs(ps) ensures ';' !in t && t != "" {
      var i :| 0 <= i < |ps| && t == PairText(ps[i]);
      assert ps[i] in ps;
    }
    SplitUndoesJoin(Pairs(ps), ';');
    assert ps != [] ==> Pairs(ps)[|ps| - 1] in Pairs(ps);
    PairsAreRead(ps, isFloat);
  }

  // ---- When the values print the same ----

  /** A decimal number as std::to_string writes it. */
  predicate Decimal(s: string) {
    var body := if s != "" && s[0] == '-' then s[1..] else s;
    body != "" && All(Digit, body) && (body[0] != '0' || s == "0")
  }

  lemma {:induction false} DecOfDigits(s: string)
    requires All(Digit, s) && s != ""
    ensures Dec(DigitsValue(s)) == s <==> (s[0] != '0' || s == "0")
    ensures s[0] != '0' ==> DigitsValue(s) > 0
  {
    assert s[0] in s;
    if |s| == 1 {
      assert s[..0] == "";
      assert s == [s[0]];
    } else {
      var front, last := s[..|s| - 1], s[|s| - 1];
      assert last in s && forall c <- front :: c in s;
      DecOfDigits(front);
      var d := last as int - '0' as int;
      assert DigitsValue(s) == 10 * DigitsValue(front) + d;
      if DigitsValue(front) == 0 {
        assert Dec(DigitsValue(s)) == [DigitChar(d)];
        assert |Dec(DigitsValue(s))| != |s|;
      } else {
        assert DigitsValue(s) / 10 == DigitsValue(front) && DigitsValue(s) % 10 == d;
        assert Dec(DigitsValue(s)) == Dec(DigitsValue(front)) + [DigitChar(d)];
        assert s == front + [last];
        assert (Dec(DigitsValue(front)) + [last])[..|Dec(DigitsValue(front))|] == Dec(DigitsValue(front));
        if Dec(DigitsValue(s)) == s {
          assert |Dec(DigitsValue(front))| == |front|;
          assert Dec(DigitsValue(front)) == s[..|s| - 1];
        }
      }
    }
  }

  /** A number that is read prints as its own text exactly when that is how numbers are written. */
  lemma ReadPrintsSame(s: string, lo: int, hi: int)
    requires ReadInt(s, lo, hi).Some?
    ensures DecInt(ReadInt(s, lo, hi).value) == s <==> Decimal(s)
  {
    var body := if s != "" && (s[0] == '-' || s[0] == '+') then s[1..] else s;
    var m := DigitsValue(body);
    DecOfDigits(body);
    DecDigits(m);
    assert body[0] in body;
    if s[0] == '-' {
      assert s == "-" + body;
      assert m > 0 ==> ("-" + Dec(m))[1..] == Dec(m);
      assert Dec(0) == "0" && s != "0";
      assert body[0] != '0' ==> m > 0;
    } else {
      assert Dec(m)[0] in Dec(m);
      assert s[0] == '+' ==> s[0] in s && !In(Digit, '+');
    }
  }

  /** The values that are read back as they were written. */
  predicate KeepsText(name: string, text: string) {
    if name == "profile-level-id" || name == "profile-id" then true
    else if name == "packetization-mode" then ReadInt(text, MIN_INT64, MAX_INT64).Some? && Decimal(text)
    else IsInt(text) ==> Decimal(text)
  }

  lemma IntIsLong(s: string)
    requires IsInt(s)
    ensures ReadInt(s, MIN_INT64, MAX_INT64) == ReadInt(s, MIN_LONG, MAX_LONG)
  {}

  lemma TextIsKept(p: Param, isFloat: string -> bool)
    requires Writable(p) && !ReadsAsFloat(p, isFloat)
    ensures ValueText(ReadBack(p, isFloat).value) == ValueText(p.value) <==> KeepsText(p.name, ValueText(p.value))
  {
    hide ReadInt, DecInt, Decimal, Bare;
    var text := ValueText(p.value);
    var t := TypeOf(p.name, text, isFloat);
    if t == 'd' {
      if IsInt(text) { IntIsLong(text); }
      var n := ReadInt(text, MIN_INT64, MAX_INT64);
      if n.Some? {
        ReadPrintsSame(text, MIN_INT64, MAX_INT64);
      } else {
        ZeroIsRead();
      }
    }
  }

  predicate ReadsAsFloat(p: Param, isFloat: string -> bool) { TypeOf(p.name, ValueText(p.value), isFloat) == 'f' }

  lemma ZeroIsRead()
    ensures DecInt(0) == "0" && ReadInt("0", MIN_INT64, MAX_INT64).Some?
  {
    ReadDecInt(0, MIN_INT64, MAX_INT64);
  }

  /**
    Writing parameters and reading them back keeps the names, in order, and keeps the text of a
    value exactly when it is no number in another form than the writer's, and a packetization-mode
    is a number. How a value that reads as a floating-point number prints is left open. When all
    texts are kept, so is the written form.
   */
  lemma ConfigRoundTrip(ps: seq<Param>, isFloat: string -> bool)
    requires Sorted(ps) && forall p <- ps :: Writable(p)
    ensures var qs := Parsed(Config(ps), isFloat);
            |qs| == |ps| && (forall i :: 0 <= i < |ps| ==> qs[i].name == ps[i].name)
            && (forall i :: 0 <= i < |ps| && !ReadsAsFloat(ps[i], isFloat) ==>
                  (ValueText(qs[i].value) == ValueText(ps[i].value) <==> KeepsText(ps[i].name, ValueText(ps[i].value))))
            && ((forall p <- ps :: !ReadsAsFloat(p, isFloat) && KeepsText(p.name, ValueText(p.value))) ==> Config(qs) == Config(ps))
  {
    hide ValueText, KeepsText, Writable, TypeOf, ToType, Parsed, ReadsAsFloat;
    ConfigIsRead(ps, isFloat);
    var qs := ReadBacks(ps, isFloat);
    forall i | 0 <= i < |ps| && !ReadsAsFloat(ps[i], isFloat)
      ensures ValueText(qs[i].value) == ValueText(ps[i].value) <==> KeepsText(ps[i].name, ValueText(ps[i].value))
    {
      assert ps[i] in ps;
      TextIsKept(ps[i], isFloat);
    }
    if forall p <- ps :: !ReadsAsFloat(p, isFloat) && KeepsText(p.name, ValueText(p.value)) {
      assert forall i :: 0 <= i < |ps| ==> ps[i] in ps;
      assert Pairs(qs) == Pairs(ps);
    }
  }

  /** A packetization-mode that is no number becomes 0. */
  lemma ModeThatIsNoNumber(isFloat: string -> bool)
    ensures var ps := [Param("packetization-mode", Str("x"))];
            Sorted(ps) && Writable(ps[0]) && !ReadsAsFloat(ps[0], isFloat)
            && Parsed(Config(ps), isFloat) == [Param("packetization-mode", Num(0))]
  {
    hide Config, Parsed, Bare;
    var ps := [Param("packetization-mode", Str("x"))];
    ModeIsBare();
    assert ReadInt("x", MIN_INT64, MAX_INT64).None? by { assert 'x' in "x"; }
    ConfigIsRead(ps, isFloat);
  }

  lemma ModeIsBare()
    ensures Bare("packetization-mode") && '=' !in "packetization-mode" && Bare("x")
  {}
}
