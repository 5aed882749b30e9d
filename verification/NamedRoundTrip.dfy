/** The rules that keep one named object or one value, the m= line, and the catch-all rule. */
module NamedRoundTrip {
  import opened Prelude
  import opened Regex
  import opened Text
  import opened Json
  import opened Grammar
  import opened Writer
  import opened Parser
  import opened LineRoundTrip
  import opened Dispatch
  import opened RuleRoundTrip
  import opened OverlapRoundTrip

  /** A location that keeps `v` for the rule prints `line`, which keeps its text when it is read and printed again. */
  ghost predicate KeepsLine(t: char, rule: Rule, v: Json, line: string) {
    (forall loc: Fields :: rule.key in loc && loc[rule.key] == v ==> Content(rule, loc) == line) && Stable(t, rule, line)
  }

  /** Reading the line back yields the value itself. */
  ghost predicate Recovers(rule: Rule, v: Json, line: string) {
    Claims(rule, line) && Stored(rule, CapsOf(rule, line)) == v
  }

  /** Every member of the rule is there, with a text. */
  predicate Complete(rule: Rule, o: Fields) {
    Members(rule, o) && forall k <- rule.names :: k in o && P(o, k) != ""
  }

  lemma SingleRule(t: char, rule: Rule, line: string)
    requires Rules(t) == [rule] && Claims(rule, line)
    ensures FirstClaim(Rules(t), line) == Some(rule)
  {
    hide Claims;
  }

  // ---- o=, t= and c= lines ----

  predicate OriginFields(o: Fields) {
    Complete(ORIGIN, o) && All(NonSpace, P(o, Username)) && All(Digit, P(o, SessionId)) && All(Digit, P(o, SessionVersion))
    && All(NonSpace, P(o, NetType)) && All(Digit, P(o, IpVer)) && |P(o, IpVer)| == 1 && All(NonSpace, P(o, Address))
  }

  lemma OriginAgrees(o: Fields)
    requires OriginFields(o)
    ensures Agrees(FormatOf(ORIGIN, o), ORIGIN.re, o, ORIGIN.names, 0) && Filled(FormatOf(ORIGIN, o), o, ORIGIN.names, 0)
  {
    hide Match, Texts, Printed, Ends, Agrees, Filled, P, Plain, OnlyNames;
    var n := ORIGIN.names;
    assert !In(NonSpace, ' ') && !In(Digit, ' ');
    var k4 := Cap(Digit, One, Lit(" ", Cap(NonSpace, Star, Done)));
    var k3 := Cap(NonSpace, Star, Lit(" IP", k4));
    var k2 := Cap(Digit, Star, Lit(" ", k3));
    var k1 := Cap(Digit, Star, Lit(" ", k2));
    var f4 := Hole(" IP", D, Hole(" ", S, T));
    var f3 := Hole(" ", S, f4);
    var f2 := Hole(" ", D, f3);
    AgreesAtEnd(o, n);
    Field(" ", S, T, NonSpace, Star, Done, o, n, 5);
    Field(" IP", D, Hole(" ", S, T), Digit, One, Lit(" ", Cap(NonSpace, Star, Done)), o, n, 4);
    Field(" ", S, f4, NonSpace, Star, Lit(" IP", k4), o, n, 3);
    Field(" ", D, f3, Digit, Star, Lit(" ", k3), o, n, 2);
    Field(" ", D, f2, Digit, Star, Lit(" ", k2), o, n, 1);
    Field("", S, Hole(" ", D, f2), NonSpace, Star, Lit(" ", k1), o, n, 0);
  }

  /** A named object of a line type that has one rule. */
  lemma NamedSingle(t: char, rule: Rule, o: Fields)
    requires Rules(t) == [rule]
    requires rule.target.Named? && rule.anchored && rule.names != [] && Distinct(rule.names) && Members(rule, o)
    requires Agrees(FormatOf(rule, o), rule.re, o, rule.names, 0) && Filled(FormatOf(rule, o), o, rule.names, 0)
    requires forall k <- rule.names :: k in o ==> P(o, k) != ""
    ensures KeepsLine(t, rule, Obj(o), NamedText(rule, o))
    ensures Exact(rule, o) ==> Recovers(rule, Obj(o), NamedText(rule, o))
  {
    hide Content, FormatOf, Plain, OnlyNames, Match, ATTRIBUTES, Rules, Exact, Distinct, P;
    SingleRule(t, rule, NamedText(rule, o));
    NamedLine(t, rule, o);
  }

  /** A named object of an attribute rule. */
  lemma NamedAttribute(j: nat, rule: Rule, o: Fields)
    requires j < 37 && j != 30 && j != 4 && j != 5 && |ATTRIBUTES| == 38 && ATTRIBUTES[j] == rule
    requires rule.target.Named? && rule.anchored && rule.names != [] && Distinct(rule.names) && Members(rule, o)
    requires Agrees(FormatOf(rule, o), rule.re, o, rule.names, 0) && Filled(FormatOf(rule, o), o, rule.names, 0)
    requires forall k <- rule.names :: k in o ==> P(o, k) != ""
    requires j > 30 ==> !Claims(X_GOOGLE_FLAG, NamedText(rule, o))
    ensures KeepsLine('a', rule, Obj(o), NamedText(rule, o))
    ensures Exact(rule, o) ==> Recovers(rule, Obj(o), NamedText(rule, o))
  {
    hide Content, FormatOf, Plain, OnlyNames, Match, ATTRIBUTES, Rules, Exact, Distinct, P;
    Dispatched(j, NamedText(rule, o));
    NamedLine('a', rule, o);
  }

  lemma OriginLine(o: Fields)
    requires OriginFields(o)
    ensures KeepsLine('o', ORIGIN, Obj(o), NamedText(ORIGIN, o))
    ensures Exact(ORIGIN, o) ==> Recovers(ORIGIN, Obj(o), NamedText(ORIGIN, o))
  {
    hide FormatOf, Agrees, Filled, Plain, OnlyNames, Content, P, Exact, KeepsLine, Recovers, Rules, Distinct, NamedText, All;
    OriginAgrees(o);
    OriginRule();
    NamedSingle('o', ORIGIN, o);
  }

  lemma OriginRule()
    ensures Rules('o') == [ORIGIN] && Distinct(ORIGIN.names)
  {}

  predicate TimingFields(o: Fields) { Complete(TIMING, o) && All(Digit, P(o, Start)) && All(Digit, P(o, Stop)) }

  lemma TimingAgrees(o: Fields)
    requires TimingFields(o)
    ensures Agrees(FormatOf(TIMING, o), TIMING.re, o, TIMING.names, 0) && Filled(FormatOf(TIMING, o), o, TIMING.names, 0)
  {
    hide Match, Texts, Printed, Ends, Agrees, Filled, P, Plain, OnlyNames;
    var n := TIMING.names;
    AgreesAtEnd(o, n);
    assert !In(Digit, ' ');
    Field(" ", D, T, Digit, Star, Done, o, n, 1);
    Field("", D, Hole(" ", D, T), Digit, Star, Lit(" ", Cap(Digit, Star, Done)), o, n, 0);
  }

  lemma TimingLine(o: Fields)
    requires TimingFields(o)
    ensures KeepsLine('t', TIMING, Obj(o), NamedText(TIMING, o))
    ensures Exact(TIMING, o) ==> Recovers(TIMING, Obj(o), NamedText(TIMING, o))
  {
    hide FormatOf, Agrees, Filled, Plain, OnlyNames, Content, P, Exact, KeepsLine, Recovers, Rules, Distinct, NamedText, All;
    TimingAgrees(o);
    TimingRule();
    NamedSingle('t', TIMING, o);
  }

  lemma TimingRule()
    ensures Rules('t') == [TIMING] && Distinct(TIMING.names)
  {}

  predicate ConnectionFields(o: Fields) {
    Members(CONNECTION, o) && Version in o && Ip in o && (forall k <- CONNECTION.names :: k in o ==> P(o, k) != "")
    && All(Digit, P(o, Version)) && |P(o, Version)| == 1 && All(Except("\\S/"), P(o, Ip)) && All(Digit, P(o, Ttl))
  }

  function ConnectionFormat(ttl: bool): Format { Hole("IN IP", D, Hole(" ", S, if ttl then Hole("/", D, T) else T)) }

  lemma ConnectionFormatOf(o: Fields)
    ensures FormatOf(CONNECTION, o) == ConnectionFormat(HasValue(o, Ttl))
  {
    hide HasValue;
  }

  lemma ConnectionHead(f: Format, o: Fields)
    requires ConnectionFields(o) && Agrees(f, Opt(TTL, Done), o, CONNECTION.names, 2)
    requires Ends(Except("\\S/"), f, o, CONNECTION.names, 2) && Filled(f, o, CONNECTION.names, 2)
    ensures var g := Hole("IN IP", D, Hole(" ", S, f));
            Agrees(g, CONNECTION.re, o, CONNECTION.names, 0) && Filled(g, o, CONNECTION.names, 0)
  {
    hide Match, Texts, HasValue, Plain, OnlyNames, Agrees, Filled, P, Printed, Ends;
    assert !In(Digit, ' ');
    Field(" ", S, f, Except("\\S/"), Star, Opt(TTL, Done), o, CONNECTION.names, 1);
    Field("IN IP", D, Hole(" ", S, f), Digit, One, CONNECTION.re.next.next, o, CONNECTION.names, 0);
  }

  lemma ConnectionAgrees(o: Fields)
    requires ConnectionFields(o)
    ensures Agrees(FormatOf(CONNECTION, o), CONNECTION.re, o, CONNECTION.names, 0)
    ensures Filled(FormatOf(CONNECTION, o), o, CONNECTION.names, 0)
  {
    hide Match, Texts, Printed, Ends, Agrees, Filled, FormatOf, HasValue, P, Plain, OnlyNames;
    var n := CONNECTION.names;
    ValueIsText(CONNECTION, o);
    ConnectionFormatOf(o);
    MissingHasNoText(o, Ttl);
    assert !In(Except("\\S/"), '/');
    if HasValue(o, Ttl) {
      AgreesAtEnd(o, n);
      Field("/", D, T, Digit, Star, Done, o, n, 2);
      ThenDone(TTL);
      Taken(Hole("/", D, T), TTL, Done, o, n, 2);
      ConnectionHead(Hole("/", D, T), o);
    } else {
      NoMatchOfNothing(Space, "/", TTL.next);
      Absent(TTL, o, n, 2);
      ConnectionHead(T, o);
    }
  }

  lemma MissingHasNoText(o: Fields, k: Key)
    ensures k !in o ==> P(o, k) == ""
  {}

  lemma ConnectionLine(o: Fields)
    requires ConnectionFields(o)
    ensures KeepsLine('c', CONNECTION, Obj(o), NamedText(CONNECTION, o))
    ensures Exact(CONNECTION, o) ==> Recovers(CONNECTION, Obj(o), NamedText(CONNECTION, o))
  {
    hide FormatOf, Agrees, Filled, Plain, OnlyNames, Content, P, Exact, KeepsLine, Recovers, Rules, Distinct, NamedText, All;
    ConnectionAgrees(o);
    ConnectionRule();
    NamedSingle('c', CONNECTION, o);
  }

  lemma ConnectionRule()
    ensures Rules('c') == [CONNECTION] && Distinct(CONNECTION.names)
  {}

  // ---- a=fingerprint, a=msid-semantic, a=simulcast ----

  predicate FingerprintFields(o: Fields) { Complete(FINGERPRINT, o) && All(NonSpace, P(o, Type)) && All(NonSpace, P(o, Hash)) }

  lemma FingerprintLine(o: Fields)
    requires FingerprintFields(o)
    ensures KeepsLine('a', FINGERPRINT, Obj(o), NamedText(FINGERPRINT, o))
    ensures Exact(FINGERPRINT, o) ==> Recovers(FINGERPRINT, Obj(o), NamedText(FINGERPRINT, o))
  {
    hide Match, Texts, Printed, Ends, Agrees, Filled, P, Plain, OnlyNames, Content, Exact, KeepsLine, Recovers, ATTRIBUTES;
    var n := FINGERPRINT.names;
    AgreesAtEnd(o, n);
    assert !In(NonSpace, ' ');
    Field(" ", S, T, NonSpace, Star, Done, o, n, 1);
    Field("fingerprint:", S, Hole(" ", S, T), NonSpace, Star, Lit(" ", Cap(NonSpace, Star, Done)), o, n, 0);
    MorePlaces();
    NamedAttribute(18, FINGERPRINT, o);
  }

  /** One blank that the pattern allows and the format writes. */
  lemma Padded(kind: Kind, f: Format, re: Re, o: Fields, names: seq<Key>, i: nat)
    requires i < |names| && (kind.S? || kind.D?)
    requires Agrees(Hole("", kind, f), re, o, names, i) && Ends(Space, Hole("", kind, f), o, names, i)
    ensures Agrees(Hole(" ", kind, f), Run(Space, Maybe, re), o, names, i)
  {
    hide Match, P, Texts, Printed;
    var s, rest := Printed(Hole("", kind, f), o, names, i), Printed(f, o, names, i + 1);
    PrintedHole("", kind, f, o, names, i);
    PrintedHole(" ", kind, f, o, names, i);
    assert " " + P(o, names[i]) + rest == " " + ("" + P(o, names[i]) + rest);
    RunStep(Space, Maybe, re, " ", s);
  }

  predicate MsidSemanticFields(o: Fields) {
    Complete(MSID_SEMANTIC, o) && All(Word(""), P(o, Semantic)) && All(NonSpace, P(o, Token))
  }

  lemma MsidSemanticAgrees(o: Fields)
    requires MsidSemanticFields(o)
    ensures var f := Hole("msid-semantic: ", S, Hole(" ", S, T));
            Agrees(f, MSID_SEMANTIC.re, o, MSID_SEMANTIC.names, 0) && Filled(f, o, MSID_SEMANTIC.names, 0)
  {
    hide Match, Texts, P, Plain, OnlyNames;
    var n := MSID_SEMANTIC.names;
    var f := Hole(" ", S, T);
    AgreesAtEnd(o, n);
    assert !In(Word(""), ' ');
    Field(" ", S, T, NonSpace, Star, Done, o, n, 1);
    Field("", S, f, Word(""), Star, Lit(" ", Cap(NonSpace, Star, Done)), o, n, 0);
    var s := Printed(Hole("", S, f), o, n, 0);
    assert P(o, Semantic) <= s && s[0] == P(o, Semantic)[0] && P(o, Semantic)[0] in P(o, Semantic);
    Padded(S, f, MSID_SEMANTIC.re.next.next, o, n, 0);
    LitStep("msid-semantic:", MSID_SEMANTIC.re.next, Printed(Hole(" ", S, f), o, n, 0));
    assert Printed(Hole("msid-semantic: ", S, f), o, n, 0) == "msid-semantic:" + Printed(Hole(" ", S, f), o, n, 0);
  }

  lemma MsidSemanticLine(o: Fields)
    requires MsidSemanticFields(o)
    ensures KeepsLine('a', MSID_SEMANTIC, Obj(o), NamedText(MSID_SEMANTIC, o))
    ensures Exact(MSID_SEMANTIC, o) ==> Recovers(MSID_SEMANTIC, Obj(o), NamedText(MSID_SEMANTIC, o))
  {
    hide Match, Texts, Printed, Ends, Agrees, Filled, P, Plain, OnlyNames, Content, Exact, KeepsLine, Recovers, ATTRIBUTES;
    MsidSemanticAgrees(o);
    MorePlaces();
    NamedAttribute(25, MSID_SEMANTIC, o);
  }

  const WAYS := ["send", "recv"]

  predicate SimulcastFields(o: Fields) {
    Members(SIMULCAST, o) && Dir1 in o && List1 in o && (forall k <- SIMULCAST.names :: k in o ==> P(o, k) != "")
    && P(o, Dir1) in WAYS && All(STREAM_LIST, P(o, List1))
    && (Dir2 in o <==> List2 in o) && (Dir2 in o ==> P(o, Dir2) in WAYS && All(STREAM_LIST, P(o, List2)))
  }

  function SimulcastFormat(second: bool): Format {
    Hole("simulcast:", S, Hole(" ", S, if second then Hole(" ", S, Hole(" ", S, T)) else T))
  }

  lemma SimulcastFormatOf(o: Fields)
    ensures FormatOf(SIMULCAST, o) == SimulcastFormat(HasValue(o, Dir2))
  {
    hide HasValue;
  }

  lemma WayField(prefix: Prefix, f: Format, re: Re, o: Fields, n: seq<Key>, i: nat)
    requires i < |n| && P(o, n[i]) in WAYS && Agrees(f, re, o, n, i + 1)
    ensures Agrees(Hole(prefix, S, f), Lit(prefix, Choice(WAYS, re)), o, n, i)
    ensures prefix == "" ==> Agrees(Hole(prefix, S, f), Choice(WAYS, re), o, n, i)
    ensures n[i] in o && Filled(f, o, n, i + 1) ==> Filled(Hole(prefix, S, f), o, n, i)
  {
    hide Match, Texts, Printed, Agrees, Filled, P;
    var rest := Printed(f, o, n, i + 1);
    if P(o, n[i]) == WAYS[0] {
      ChoiceField(prefix, S, f, WAYS, 0, re, o, n, i);
    } else {
      assert ("recv" + rest)[0] == 'r' && !("send" <= "recv" + rest);
      ChoiceField(prefix, S, f, WAYS, 1, re, o, n, i);
    }
  }

  lemma EndOfLine(o: Fields, n: seq<Key>)
    ensures Agrees(T, End, o, n, |n|) && forall c, i :: Ends(c, T, o, n, i)
    ensures forall i :: Filled(T, o, n, i)
  {}

  lemma SimulcastHead(f: Format, o: Fields)
    requires SimulcastFields(o) && Agrees(f, Opt(SECOND_LIST, End), o, SIMULCAST.names, 2)
    requires Ends(STREAM_LIST, f, o, SIMULCAST.names, 2) && Filled(f, o, SIMULCAST.names, 2)
    ensures var g := Hole("simulcast:", S, Hole(" ", S, f));
            Agrees(g, SIMULCAST.re, o, SIMULCAST.names, 0) && Filled(g, o, SIMULCAST.names, 0)
  {
    hide Match, Texts, HasValue, Plain, OnlyNames, Agrees, Filled, P, Printed, Ends;
    Field(" ", S, f, STREAM_LIST, Plus, Opt(SECOND_LIST, End), o, SIMULCAST.names, 1);
    WayField("simulcast:", Hole(" ", S, f), SIMULCAST.re.next.next, o, SIMULCAST.names, 0);
  }

  lemma ThenSecond()
    ensures Then(SECOND_LIST, End) == Run(Space, Maybe, Choice(WAYS, Lit(" ", Cap(STREAM_LIST, Plus, End))))
    ensures NumCaps(SECOND_LIST) == 2
    ensures Match(Then(SECOND_LIST, End), "").None?
  {
    var tail := Lit(" ", Cap(STREAM_LIST, Plus, Done));
    ThenLitCap(" ", STREAM_LIST, Plus, End);
    assert Then(Choice(WAYS, tail), End) == Choice(WAYS, Then(tail, End));
    assert NumCaps(Choice(WAYS, tail)) == 1 + NumCaps(tail);
    var rest := Lit(" ", Cap(STREAM_LIST, Plus, End));
    EmptyRun(Space, Maybe, Choice(WAYS, rest), "");
    assert WAYS[1..] == ["recv"] && ["recv"][1..] == [];
    assert Match(Choice([], rest), "").None? && Match(Choice(["recv"], rest), "").None?;
  }

  lemma WayIsNoBlank(f: Format, o: Fields, n: seq<Key>)
    requires |n| > 2 && (P(o, n[2]) == "send" || P(o, n[2]) == "recv")
    ensures var s := Printed(Hole("", S, f), o, n, 2); s != "" && !In(Space, s[0])
  {
    hide P;
    var rest := Printed(f, o, n, 3);
    PrintedHole("", S, f, o, n, 2);
    assert "" + P(o, n[2]) + rest == P(o, n[2]) + rest;
  }

  lemma SecondMeans(o: Fields)
    requires SimulcastFields(o) && Dir2 in o
    ensures var n := SIMULCAST.names;
            |n| == 4 && n[2] == Dir2 && n[3] == List2 && List2 in o
            && P(o, Dir2) in WAYS && Fits(STREAM_LIST, Plus, P(o, List2))
  {
    hide Plain, OnlyNames, P;
  }

  lemma SecondListAgrees(o: Fields, n: seq<Key>)
    requires |n| == 4 && P(o, n[2]) in WAYS && Fits(STREAM_LIST, Plus, P(o, n[3])) && n[2] in o && n[3] in o
    ensures var f := Hole(" ", S, Hole(" ", S, T));
            Agrees(f, Opt(SECOND_LIST, End), o, n, 2) && Ends(STREAM_LIST, f, o, n, 2) && Filled(f, o, n, 2)
  {
    hide Match, Texts, Agrees, P, Fits, All, Then;
    var f := Hole(" ", S, T);
    ThenSecond();
    EndOfLine(o, n);
    Field(" ", S, T, STREAM_LIST, Plus, End, o, n, 3);
    WayField("", f, Lit(" ", Cap(STREAM_LIST, Plus, End)), o, n, 2);
    WayIsNoBlank(f, o, n);
    Padded(S, f, Choice(WAYS, Lit(" ", Cap(STREAM_LIST, Plus, End))), o, n, 2);
    Taken(Hole(" ", S, f), SECOND_LIST, End, o, n, 2);
    assert !In(STREAM_LIST, ' ');
    assert " " <= Printed(Hole(" ", S, f), o, n, 2);
  }

  lemma SecondAgrees(o: Fields)
    requires SimulcastFields(o) && Dir2 in o
    ensures var f := Hole(" ", S, Hole(" ", S, T));
            Agrees(f, Opt(SECOND_LIST, End), o, SIMULCAST.names, 2) && Ends(STREAM_LIST, f, o, SIMULCAST.names, 2)
            && Filled(f, o, SIMULCAST.names, 2)
  {
    hide Agrees, Ends, Filled, P, SimulcastFields, Fits, SECOND_LIST;
    SecondMeans(o);
    SecondListAgrees(o, SIMULCAST.names);
  }

  lemma SimulcastAgrees(o: Fields)
    requires SimulcastFields(o)
    ensures Agrees(FormatOf(SIMULCAST, o), SIMULCAST.re, o, SIMULCAST.names, 0)
    ensures Filled(FormatOf(SIMULCAST, o), o, SIMULCAST.names, 0)
  {
    hide Match, Texts, Ends, Agrees, Filled, FormatOf, HasValue, P, Plain, OnlyNames, Then, NumCaps;
    var n := SIMULCAST.names;
    ValueIsText(SIMULCAST, o);
    SimulcastFormatOf(o);
    MissingHasNoText(o, Dir2);
    MissingHasNoText(o, List2);
    if HasValue(o, Dir2) {
      SecondAgrees(o);
      SimulcastHead(Hole(" ", S, Hole(" ", S, T)), o);
    } else {
      ThenSecond();
      EndOfLine(o, n);
      assert Printed(T, o, n, 2) == "" && Printed(T, o, n, 4) == "";
      Skipped(T, T, SECOND_LIST, End, o, n, 2);
      SimulcastHead(T, o);
    }
  }

  function SimulcastRest(o: Fields): string {
    P(o, Dir1) + (" " + P(o, List1) + (if P(o, Dir2) != "" then " " + P(o, Dir2) + (" " + P(o, List2)) else ""))
  }

  lemma SimulcastText(o: Fields)
    requires Members(SIMULCAST, o)
    ensures NamedText(SIMULCAST, o) == "simulcast:" + SimulcastRest(o)
  {
    hide FormatOf, HasValue, P, Members;
    ValueIsText(SIMULCAST, o);
    SimulcastFormatOf(o);
    SimulcastPrinted(SIMULCAST.names, o);
  }

  lemma SimulcastPrinted(n: seq<Key>, o: Fields)
    requires n == [Dir1, List1, Dir2, List2]
    ensures Printed(SimulcastFormat(P(o, Dir2) != ""), o, n, 0) == "simulcast:" + SimulcastRest(o)
  {
    hide P, Printed;
    var second := Hole(" ", S, T);
    var f := if P(o, Dir2) != "" then Hole(" ", S, second) else T;
    var tail := Printed(f, o, n, 2);
    PrintedHole(" ", S, T, o, n, 2);
    PrintedHole(" ", S, T, o, n, 3);
    NothingLeft(o, n);
    PrintedHole(" ", S, second, o, n, 2);
    assert " " + P(o, List2) + "" == " " + P(o, List2);
    PrintedHole(" ", S, f, o, n, 1);
    PrintedHole("simulcast:", S, Hole(" ", S, f), o, n, 0);
    assert "simulcast:" + P(o, Dir1) + (" " + P(o, List1) + tail) == "simulcast:" + (P(o, Dir1) + (" " + P(o, List1) + tail));
  }

  lemma NothingLeft(o: Fields, n: seq<Key>)
    ensures Printed(T, o, n, |n|) == ""
  {}

  lemma NoColon(o: Fields)
    requires SimulcastFields(o)
    ensures ':' !in SimulcastRest(o)
  {
    hide P, Members;
    MissingHasNoText(o, Dir2);
    MissingHasNoText(o, List2);
    assert forall w <- WAYS :: ':' !in w;
    assert !In(STREAM_LIST, ':');
    assert ':' !in P(o, Dir1) && ':' !in P(o, List1) && ':' !in P(o, Dir2) && ':' !in P(o, List2);
  }

  lemma SimulcastNotFlagged(o: Fields)
    requires SimulcastFields(o)
    ensures !Occurs(FLAG, NamedText(SIMULCAST, o))
  {
    hide NamedText, SimulcastRest, Occurs, Plain, OnlyNames, P;
    SimulcastText(o);
    NoColon(o);
    NoFlagAfter(SimulcastRest(o));
  }

  /** The flag ends in "g:", and the only ':' of such a line follows a 't'. */
  lemma NoFlagAfter(rest: string)
    requires ':' !in rest
    ensures !Occurs(FLAG, "simulcast:" + rest)
  {
    var s := "simulcast:" + rest;
    assert forall i :: 10 <= i < |s| ==> s[i] == rest[i - 10] && s[i] in rest;
    assert forall i :: 0 <= i < 9 ==> s[i] != ':';
    forall p: nat | p <= |s| ensures !(FLAG <= s[p..]) {
      if FLAG <= s[p..] {
        FlagColon(s, p);
      }
    }
  }

  lemma FlagColon(s: string, p: nat)
    requires p <= |s| && FLAG <= s[p..]
    ensures p + 13 < |s| && s[p + 13] == ':'
  {
    assert s[p..][13] == ':';
  }

  lemma FlagIsSearched()
    ensures !X_GOOGLE_FLAG.anchored
  {}

  lemma SimulcastMeans(o: Fields)
    requires SimulcastFields(o)
    ensures SIMULCAST.target.Named? && SIMULCAST.anchored && SIMULCAST.names != [] && Distinct(SIMULCAST.names)
    ensures Members(SIMULCAST, o) && forall k <- SIMULCAST.names :: k in o ==> P(o, k) != ""
  {
    hide Plain, OnlyNames, P;
  }

  lemma SimulcastLine(o: Fields)
    requires SimulcastFields(o)
    ensures KeepsLine('a', SIMULCAST, Obj(o), NamedText(SIMULCAST, o))
    ensures Exact(SIMULCAST, o) ==> Recovers(SIMULCAST, Obj(o), NamedText(SIMULCAST, o))
  {
    hide Match, Texts, Printed, Ends, Agrees, Filled, P, Plain, OnlyNames, Content, Exact, KeepsLine, Recovers, ATTRIBUTES,
      FormatOf, Occurs,
      SimulcastFields, Members, Distinct, NamedText, SearchFrom;
    SimulcastMeans(o);
    SimulcastAgrees(o);
    SimulcastNotFlagged(o);
    SearchFromIsOccurs(NamedText(SIMULCAST, o));
    FlagIsSearched();
    MorePlaces();
    NamedAttribute(32, SIMULCAST, o);
  }

  // ---- Rules with one value ----

  /** v=0 and the like: a number or a string that prints only digits. */
  lemma VersionLine(n: nat)
    requires n <= MAX_INT64
    ensures KeepsLine('v', VERSION, Num(n), Dec(n)) && Recovers(VERSION, Num(n), Dec(n))
  {
    hide Match, Rules, Dec, Print, ToType, FirstClaim;
    NumberIsCanonical(n);
    assert "" + Dec(n) == Dec(n) && Dec(n) + "" == Dec(n);
    EndMatches();
    CapStep(Digit, Star, End, Dec(n), "");
    OnlyVersion();
    SingleRule('v', VERSION, Dec(n));
    ScalarLine('v', VERSION, "", Num(n));
  }

  lemma EndMatches()
    ensures Match(End, "") == Some(Nil)
  {}

  lemma OnlyVersion()
    ensures Rules('v') == [VERSION] && Rules('s') == [TextRule(Name)]
  {}

  lemma NameLine(s: string)
    requires All(Dot, s)
    ensures KeepsLine('s', TextRule(Name), Str(s), s) && Recovers(TextRule(Name), Str(s), s)
  {
    assert "" + s == s && s + "" == s;
    CapStep(Dot, Star, Done, s, "");
    SingleRule('s', TextRule(Name), s);
    ScalarLine('s', TextRule(Name), "", Str(s));
  }

  /** An attribute of one value: everything after its head, in its class. */
  lemma ScalarAttribute(j: nat, key: Key, head: Prefix, cls: Class, s: string)
    requires j < 30 && j != 4 && j != 5 && |ATTRIBUTES| == 38 && ATTRIBUTES[j] == Scalar(key, head, cls, "s")
    requires All(cls, s)
    ensures KeepsLine('a', ATTRIBUTES[j], Str(s), head + s) && Recovers(ATTRIBUTES[j], Str(s), head + s)
  {
    hide ATTRIBUTES, Rules, Match;
    assert s + "" == s;
    DoneMatches("");
    CapStep(cls, Star, Done, s, "");
    LitStep(head, Cap(cls, Star, Done), s);
    Dispatched(j, head + s);
    ScalarLine('a', ATTRIBUTES[j], head, Str(s));
  }

  lemma DoneMatches(s: string)
    ensures Match(Done, s) == Some(Nil)
  {}

  /** An attribute that is one of a few words. */
  lemma FlagAttribute(j: nat, key: Key, words: seq<string>, w: nat)
    requires j < 30 && j != 4 && j != 5 && |ATTRIBUTES| == 38 && ATTRIBUTES[j] == Flag(key, words)
    requires w < |words| && forall i :: 0 <= i < w ==> !(words[i] <= words[w])
    ensures KeepsLine('a', ATTRIBUTES[j], Str(words[w]), words[w]) && Recovers(ATTRIBUTES[j], Str(words[w]), words[w])
  {
    hide ATTRIBUTES, Rules, Match;
    assert words[w] + "" == words[w] && "" + words[w] == words[w];
    DoneMatches("");
    ChoiceStep(words, Done, w, "");
    Dispatched(j, words[w]);
    ScalarLine('a', ATTRIBUTES[j], "", Str(words[w]));
  }

  lemma SetupLine(s: string)
    requires All(Word(""), s)
    ensures KeepsLine('a', SETUP, Str(s), "setup:" + s) && Recovers(SETUP, Str(s), "setup:" + s)
  {
    hide KeepsLine, Recovers, ATTRIBUTES;
    Places();
    ScalarAttribute(9, Setup, "setup:", Word(""), s);
  }

  lemma MidLine(s: string)
    requires All(NonSpace, s)
    ensures KeepsLine('a', MID, Str(s), "mid:" + s) && Recovers(MID, Str(s), "mid:" + s)
  {
    hide KeepsLine, Recovers, ATTRIBUTES;
    Places();
    ScalarAttribute(10, Mid, "mid:", NonSpace, s);
  }

  lemma IceUfragLine(s: string)
    requires All(NonSpace, s)
    ensures KeepsLine('a', ICE_UFRAG, Str(s), "ice-ufrag:" + s) && Recovers(ICE_UFRAG, Str(s), "ice-ufrag:" + s)
  {
    hide KeepsLine, Recovers, ATTRIBUTES;
    MorePlaces();
    ScalarAttribute(16, IceUfrag, "ice-ufrag:", NonSpace, s);
  }

  lemma IcePwdLine(s: string)
    requires All(NonSpace, s)
    ensures KeepsLine('a', ICE_PWD, Str(s), "ice-pwd:" + s) && Recovers(ICE_PWD, Str(s), "ice-pwd:" + s)
  {
    hide KeepsLine, Recovers, ATTRIBUTES;
    MorePlaces();
    ScalarAttribute(17, IcePwd, "ice-pwd:", NonSpace, s);
  }

  lemma IceOptionsLine(s: string)
    requires All(NonSpace, s)
    ensures KeepsLine('a', ICE_OPTIONS, Str(s), "ice-options:" + s) && Recovers(ICE_OPTIONS, Str(s), "ice-options:" + s)
  {
    hide KeepsLine, Recovers, ATTRIBUTES;
    MorePlaces();
    ScalarAttribute(22, IceOptions, "ice-options:", NonSpace, s);
  }

  const WAYS_OF_MEDIA := ["sendrecv", "recvonly", "sendonly", "inactive"]

  lemma DirectionLine(s: string)
    requires s in WAYS_OF_MEDIA
    ensures KeepsLine('a', DIRECTION, Str(s), s) && Recovers(DIRECTION, Str(s), s)
  {
    hide KeepsLine, Recovers, ATTRIBUTES;
    Places();
    var w: nat :| w < |WAYS_OF_MEDIA| && WAYS_OF_MEDIA[w] == s;
    assert WAYS_OF_MEDIA[3][0] == 'i' && WAYS_OF_MEDIA[1][0] == 'r' && WAYS_OF_MEDIA[2][4] == 'o' && WAYS_OF_MEDIA[0][4] == 'r';
    FlagAttribute(14, Direction, WAYS_OF_MEDIA, w);
  }

  lemma FlagLines()
    ensures Recovers(ICELITE, Str("ice-lite"), "ice-lite")
    ensures Recovers(END_OF_CANDIDATES, Str("end-of-candidates"), "end-of-candidates")
    ensures Recovers(EXTMAP_ALLOW_MIXED, Str("extmap-allow-mixed"), "extmap-allow-mixed")
    ensures Recovers(RTCP_MUX, Str("rtcp-mux"), "rtcp-mux")
    ensures Recovers(RTCP_RSIZE, Str("rtcp-rsize"), "rtcp-rsize")
    ensures KeepsLine('a', ICELITE, Str("ice-lite"), "ice-lite")
    ensures KeepsLine('a', END_OF_CANDIDATES, Str("end-of-candidates"), "end-of-candidates")
    ensures KeepsLine('a', EXTMAP_ALLOW_MIXED, Str("extmap-allow-mixed"), "extmap-allow-mixed")
    ensures KeepsLine('a', RTCP_MUX, Str("rtcp-mux"), "rtcp-mux")
    ensures KeepsLine('a', RTCP_RSIZE, Str("rtcp-rsize"), "rtcp-rsize")
  {
    hide KeepsLine, Recovers, ATTRIBUTES;
    Places();
    MorePlaces();
    FlagAttribute(15, Icelite, ["ice-lite"], 0);
    FlagAttribute(20, EndOfCandidates, ["end-of-candidates"], 0);
    FlagAttribute(7, ExtmapAllowMixed, ["extmap-allow-mixed"], 0);
    FlagAttribute(27, RtcpMux, ["rtcp-mux"], 0);
    FlagAttribute(28, RtcpRsize, ["rtcp-rsize"], 0);
  }

  // ---- The catch-all rule ----

  /** What no other rule claims is kept, and printed, as it is. */
  lemma InvalidLine(s: string)
    requires All(Dot, s) && s != "" && FirstClaim(Rules('a'), s) == Some(INVALID) && !ClaimedElsewhere(s)
    ensures ReadsBack('a', INVALID, map[Value := Str(s)]) && Content(INVALID, map[Value := Str(s)]) == s
  {
    hide Match, Rules, FirstClaim;
    var o: Fields := map[Value := Str(s)];
    AgreesAtEnd(o, INVALID.names);
    assert INVALID.names == [Value];
    Field("", S, T, Dot, Star, Done, o, INVALID.names, 0);
    ContentOfObject(INVALID, o);
    assert Printed(T, o, [Value], 1) == "" && P(o, Value) == s;
    assert "" + s + "" == s;
    ElementLine('a', INVALID, o);
  }
}
