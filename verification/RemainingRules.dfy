/**
  The rules that no section built here uses but that descriptions of WebRTC carry: rtcp, sctpmap,
  crypto, bandwidth, msid and the like. Each of them is claimed, read back and printed again, and its
  line is written out.
 */
module RemainingRules {
  import opened Prelude
  import opened Regex
  import opened Text
  import opened Json
  import opened Grammar
  import opened Writer
  import opened Parser
  import opened LineRoundTrip
  import opened Dispatch
  import opened RuleRoundTrip
  import opened OverlapRoundTrip
  import opened NamedRoundTrip
  import SectionText

  // ---- a=rtcp ----

  /** The port, and the address with its types or nothing of it. */
  predicate RtcpFields(o: Fields) {
    Members(RTCP, o) && Port in o && (forall k <- RTCP.names :: k in o ==> P(o, k) != "")
    && (Address in o <==> NetType in o) && (Address in o <==> IpVer in o)
    && All(Digit, P(o, Port)) && All(NonSpace, P(o, NetType)) && All(NonSpace, P(o, Address))
    && All(Digit, P(o, IpVer)) && |P(o, IpVer)| <= 1
  }

  const RTCP_ADDRESS := Lit(" ", Cap(NonSpace, Star, Lit(" IP", Cap(Digit, One, Lit(" ", Cap(NonSpace, Star, Done))))))
  const RTCP_TAIL := Hole(" ", S, Hole(" IP", D, Hole(" ", S, T)))

  lemma RtcpRule()
    ensures RTCP.names == [Port, NetType, IpVer, Address] && RTCP.re == Lit("rtcp:", Cap(Digit, Star, Opt(RTCP_ADDRESS, Done)))
    ensures RTCP.target.Named? && RTCP.anchored && |ATTRIBUTES| == 38 && ATTRIBUTES[3] == RTCP
  {}

  lemma RtcpFormatOf(o: Fields)
    ensures FormatOf(RTCP, o) == Hole("rtcp:", D, if HasValue(o, Address) then RTCP_TAIL else T)
  {
    hide HasValue;
  }

  lemma RtcpTailAgrees(o: Fields, n: seq<Key>)
    requires |n| == 4 && All(NonSpace, P(o, n[1])) && All(Digit, P(o, n[2])) && |P(o, n[2])| == 1 && All(NonSpace, P(o, n[3]))
    requires n[1] in o && n[2] in o && n[3] in o
    ensures Agrees(RTCP_TAIL, Opt(RTCP_ADDRESS, Done), o, n, 1) && Ends(Digit, RTCP_TAIL, o, n, 1) && Filled(RTCP_TAIL, o, n, 1)
  {
    hide Match, Texts, Agrees, P, Printed, Filled;
    AgreesAtEnd(o, n);
    assert !In(NonSpace, ' ') && !In(Digit, ' ');
    Field(" ", S, T, NonSpace, Star, Done, o, n, 3);
    Field(" IP", D, Hole(" ", S, T), Digit, One, RTCP_ADDRESS.next.next.next.next, o, n, 2);
    Field(" ", S, Hole(" IP", D, Hole(" ", S, T)), NonSpace, Star, RTCP_ADDRESS.next.next, o, n, 1);
    ThenDone(RTCP_ADDRESS);
    Taken(RTCP_TAIL, RTCP_ADDRESS, Done, o, n, 1);
  }

  lemma RtcpAgrees(o: Fields)
    requires RtcpFields(o)
    ensures Agrees(FormatOf(RTCP, o), RTCP.re, o, RTCP.names, 0) && Filled(FormatOf(RTCP, o), o, RTCP.names, 0)
  {
    hide Match, Texts, Printed, Ends, Agrees, Filled, FormatOf, HasValue, P, Plain, OnlyNames, All;
    RtcpRule();
    ValueIsText(RTCP, o);
    RtcpFormatOf(o);
    MissingHasNoText(o, Address);
    MissingHasNoText(o, NetType);
    MissingHasNoText(o, IpVer);
    var f := if HasValue(o, Address) then RTCP_TAIL else T;
    if HasValue(o, Address) {
      RtcpTailAgrees(o, RTCP.names);
    } else {
      NoMatchOfNothing(Space, " ", RTCP_ADDRESS.next);
      Absent(RTCP_ADDRESS, o, RTCP.names, 1);
    }
    Field("rtcp:", D, f, Digit, Star, Opt(RTCP_ADDRESS, Done), o, RTCP.names, 0);
  }

  lemma RtcpDistinct()
    ensures Distinct(RTCP.names)
  {}

  lemma RtcpLine(o: Fields)
    requires RtcpFields(o)
    ensures KeepsLine('a', RTCP, Obj(o), NamedText(RTCP, o))
    ensures Exact(RTCP, o) ==> Recovers(RTCP, Obj(o), NamedText(RTCP, o))
  {
    hide FormatOf, Agrees, Filled, Plain, OnlyNames, Content, P, Exact, KeepsLine, Recovers, ATTRIBUTES, Distinct, NamedText, All;
    RtcpAgrees(o);
    RtcpRule();
    RtcpDistinct();
    NamedAttribute(3, RTCP, o);
  }

  /** `a=rtcp:` with the port, and with the network and the address after it when there is one. */
  lemma RtcpText(o: Fields)
    requires RtcpFields(o)
    ensures NamedText(RTCP, o)
         == "rtcp:" + P(o, Port) + if P(o, Address) != "" then " " + P(o, NetType) + " IP" + P(o, IpVer) + " " + P(o, Address) else ""
  {
    hide FormatOf, HasValue, P, Plain, OnlyNames, Printed, All;
    RtcpRule();
    ValueIsText(RTCP, o);
    RtcpFormatOf(o);
    var n := RTCP.names;
    SectionText.PrintedNothing(o, n, 1);
    PrintedHole("rtcp:", D, if HasValue(o, Address) then RTCP_TAIL else T, o, n, 0);
    SectionText.Two(" ", S, " IP", D, Hole(" ", S, T), o, n, 1);
    PrintedHole(" ", S, T, o, n, 3);
    SectionText.PrintedNothing(o, n, 4);
    var middle := " " + P(o, NetType) + " IP" + P(o, IpVer);
    assert middle + (" " + P(o, Address) + "") == middle + " " + P(o, Address);
  }

  const DEFAULT_RTCP: Fields := map[Port := Num(9), NetType := Str("IN"), IpVer := Num(4), Address := Str("0.0.0.0")]

  lemma DefaultRtcpFields(o: Fields)
    requires o == DEFAULT_RTCP
    ensures RtcpFields(o) && Exact(RTCP, o)
  {
    DefaultRtcpTexts();
    DefaultRtcpExact();
    hide P, All, Plain, OnlyNames, Exact;
    ExactIsPlain(RTCP, o);
    RtcpRule();
    DefaultRtcpClasses();
  }

  /** The line of every offer of WebRTC. */
  lemma DefaultRtcp(o: Fields)
    requires o == map[Port := Num(9), NetType := Str("IN"), IpVer := Num(4), Address := Str("0.0.0.0")]
    ensures RtcpFields(o) && Exact(RTCP, o) && NamedText(RTCP, o) == "rtcp:9 IN IP4 0.0.0.0"
  {
    DefaultRtcpTexts();
    hide P, RtcpFields, Exact, NamedText;
    DefaultRtcpFields(o);
    RtcpText(o);
    assert "rtcp:" + "9" + (" " + "IN" + " IP" + "4" + " " + "0.0.0.0") == "rtcp:9 IN IP4 0.0.0.0";
  }

  lemma DefaultRtcpTexts()
    ensures var o: Fields := map[Port := Num(9), NetType := Str("IN"), IpVer := Num(4), Address := Str("0.0.0.0")];
            P(o, Port) == "9" && P(o, NetType) == "IN" && P(o, IpVer) == "4" && P(o, Address) == "0.0.0.0"
  {}

  lemma DefaultRtcpClasses()
    ensures All(Digit, "9") && All(Digit, "4") && All(NonSpace, "IN") && All(NonSpace, "0.0.0.0")
  {}

  lemma DefaultRtcpExact()
    ensures Exact(RTCP, map[Port := Num(9), NetType := Str("IN"), IpVer := Num(4), Address := Str("0.0.0.0")])
  {
    hide ReadInt, Dec;
    NumberIsCanonical(9);
    NumberIsCanonical(4);
    StringIsCanonical("IN");
    StringIsCanonical("0.0.0.0");
  }

  // ---- a=sctpmap ----

  predicate SctpmapFields(o: Fields) {
    Members(SCTPMAP, o) && SctpmapNumber in o && App in o && (forall k <- SCTPMAP.names :: k in o ==> P(o, k) != "")
    && All(Digit, P(o, SctpmapNumber)) && All(NonSpace, P(o, App)) && All(Digit, P(o, MaxMessageSize))
  }

  const SCTPMAP_SIZE := Lit(" ", Cap(Digit, Star, Done))

  lemma SctpmapRule()
    ensures SCTPMAP.names == [SctpmapNumber, App, MaxMessageSize]
    ensures SCTPMAP.re == Lit("sctpmap:", Cap(Digit, Plus, Lit(" ", Cap(NonSpace, Star, Opt(SCTPMAP_SIZE, Done)))))
    ensures SCTPMAP.target.Named? && SCTPMAP.anchored && |ATTRIBUTES| == 38 && ATTRIBUTES[29] == SCTPMAP
  {}

  lemma SctpmapDistinct()
    ensures Distinct(SCTPMAP.names)
  {}

  lemma SctpmapFormatOf(o: Fields)
    ensures FormatOf(SCTPMAP, o) == Hole("sctpmap:", S, Hole(" ", S, if HasValue(o, MaxMessageSize) then Hole(" ", S, T) else T))
  {
    hide HasValue;
  }

  lemma SctpmapAgrees(o: Fields)
    requires SctpmapFields(o)
    ensures Agrees(FormatOf(SCTPMAP, o), SCTPMAP.re, o, SCTPMAP.names, 0) && Filled(FormatOf(SCTPMAP, o), o, SCTPMAP.names, 0)
  {
    hide Match, Texts, Printed, Ends, Agrees, Filled, FormatOf, HasValue, P, Plain, OnlyNames, All, Distinct;
    SctpmapRule();
    ValueIsText(SCTPMAP, o);
    SctpmapFormatOf(o);
    MissingHasNoText(o, MaxMessageSize);
    var n := SCTPMAP.names;
    var f := if HasValue(o, MaxMessageSize) then Hole(" ", S, T) else T;
    assert !In(NonSpace, ' ') && !In(Digit, ' ');
    if HasValue(o, MaxMessageSize) {
      AgreesAtEnd(o, n);
      Field(" ", S, T, Digit, Star, Done, o, n, 2);
      ThenDone(SCTPMAP_SIZE);
      Taken(Hole(" ", S, T), SCTPMAP_SIZE, Done, o, n, 2);
    } else {
      NoMatchOfNothing(Space, " ", SCTPMAP_SIZE.next);
      Absent(SCTPMAP_SIZE, o, n, 2);
    }
    Field(" ", S, f, NonSpace, Star, Opt(SCTPMAP_SIZE, Done), o, n, 1);
    Field("sctpmap:", S, Hole(" ", S, f), Digit, Plus, SCTPMAP.re.next.next, o, n, 0);
  }

  lemma SctpmapLine(o: Fields)
    requires SctpmapFields(o)
    ensures KeepsLine('a', SCTPMAP, Obj(o), NamedText(SCTPMAP, o))
    ensures Exact(SCTPMAP, o) ==> Recovers(SCTPMAP, Obj(o), NamedText(SCTPMAP, o))
  {
    hide FormatOf, Agrees, Filled, Plain, OnlyNames, Content, P, Exact, KeepsLine, Recovers, ATTRIBUTES, Distinct, NamedText, All;
    SctpmapAgrees(o);
    SctpmapRule();
    SctpmapDistinct();
    NamedAttribute(29, SCTPMAP, o);
  }

  lemma SctpmapText(o: Fields)
    requires SctpmapFields(o)
    ensures NamedText(SCTPMAP, o)
         == "sctpmap:" + P(o, SctpmapNumber) + " " + P(o, App) + if P(o, MaxMessageSize) != "" then " " + P(o, MaxMessageSize) else ""
  {
    hide FormatOf, HasValue, P, Plain, OnlyNames, Printed, All, Distinct;
    SctpmapRule();
    ValueIsText(SCTPMAP, o);
    SctpmapFormatOf(o);
    var n := SCTPMAP.names;
    SectionText.Two("sctpmap:", S, " ", S, if HasValue(o, MaxMessageSize) then Hole(" ", S, T) else T, o, n, 0);
    PrintedHole(" ", S, T, o, n, 2);
    SectionText.PrintedNothing(o, n, 3);
    assert " " + P(o, MaxMessageSize) + "" == " " + P(o, MaxMessageSize);
  }

  // ---- a=crypto ----

  predicate CryptoFields(o: Fields) {
    Members(CRYPTO, o) && All(Digit, P(o, Id)) && All(Word(""), P(o, Suite)) && All(NonSpace, P(o, Config))
    && All(NonSpace, P(o, SessionConfig))
  }

  const CRYPTO_SESSION := Lit(" ", Cap(NonSpace, Star, Done))

  lemma CryptoRule()
    ensures CRYPTO.names == [Id, Suite, Config, SessionConfig]
    ensures CRYPTO.re ==
      Lit("crypto:", Cap(Digit, Star, Lit(" ", Cap(Word(""), Star, Lit(" ", Cap(NonSpace, Star, Opt(CRYPTO_SESSION, Done)))))))
    ensures CRYPTO.target.Pushed? && CRYPTO.anchored && |ATTRIBUTES| == 38 && ATTRIBUTES[8] == CRYPTO
  {}

  lemma CryptoDistinct()
    ensures Distinct(CRYPTO.names)
  {}

  lemma CryptoFormatOf(o: Fields)
    ensures FormatOf(CRYPTO, o)
         == Hole("crypto:", D, Hole(" ", S, Hole(" ", S, if HasValue(o, SessionConfig) then Hole(" ", S, T) else T)))
  {
    hide HasValue;
  }

  lemma CryptoAgrees(o: Fields)
    requires CryptoFields(o)
    ensures Agrees(FormatOf(CRYPTO, o), CRYPTO.re, o, CRYPTO.names, 0)
  {
    hide Match, Texts, Printed, Ends, Agrees, Filled, FormatOf, HasValue, P, Plain, OnlyNames, All, Distinct;
    CryptoRule();
    ValueIsText(CRYPTO, o);
    CryptoFormatOf(o);
    var n := CRYPTO.names;
    var f := if HasValue(o, SessionConfig) then Hole(" ", S, T) else T;
    assert !In(NonSpace, ' ') && !In(Digit, ' ') && !In(Word(""), ' ');
    if HasValue(o, SessionConfig) {
      AgreesAtEnd(o, n);
      Field(" ", S, T, NonSpace, Star, Done, o, n, 3);
      ThenDone(CRYPTO_SESSION);
      Taken(Hole(" ", S, T), CRYPTO_SESSION, Done, o, n, 3);
    } else {
      NoMatchOfNothing(Space, " ", CRYPTO_SESSION.next);
      Absent(CRYPTO_SESSION, o, n, 3);
    }
    Field(" ", S, f, NonSpace, Star, Opt(CRYPTO_SESSION, Done), o, n, 2);
    Field(" ", S, Hole(" ", S, f), Word(""), Star, CRYPTO.re.next.next.next.next, o, n, 1);
    Field("crypto:", D, Hole(" ", S, Hole(" ", S, f)), Digit, Star, CRYPTO.re.next.next, o, n, 0);
  }

  lemma CryptoLine(o: Fields)
    requires CryptoFields(o)
    ensures RoundTrips(CRYPTO, o)
  {
    hide FormatOf, Agrees, Claims, Plain, RoundTrips, ATTRIBUTES, OnlyNames, Content, P, Distinct, All;
    CryptoAgrees(o);
    CryptoRule();
    CryptoDistinct();
    Element(8, CRYPTO, o);
  }

  lemma CryptoText(o: Fields)
    requires CryptoFields(o)
    ensures Content(CRYPTO, o)
         == "crypto:" + P(o, Id) + " " + P(o, Suite) + (" " + P(o, Config) + if P(o, SessionConfig) != "" then " " + P(o, SessionConfig) else "")
  {
    hide FormatOf, HasValue, P, Plain, OnlyNames, Printed, All, Distinct, Content;
    CryptoRule();
    ValueIsText(CRYPTO, o);
    CryptoFormatOf(o);
    ContentOfObject(CRYPTO, o);
    var n := CRYPTO.names;
    var f := if HasValue(o, SessionConfig) then Hole(" ", S, T) else T;
    SectionText.Two("crypto:", D, " ", S, Hole(" ", S, f), o, n, 0);
    PrintedHole(" ", S, f, o, n, 2);
    PrintedHole(" ", S, T, o, n, 3);
    SectionText.PrintedNothing(o, n, 3);
    SectionText.PrintedNothing(o, n, 4);
    assert " " + P(o, SessionConfig) + "" == " " + P(o, SessionConfig);
  }

  // ---- b= ----

  const BANDWIDTH_TYPES := ["TIAS", "AS", "CT", "RR", "RS"]

  predicate BandwidthFields(o: Fields) {
    Members(BANDWIDTH, o) && P(o, Type) in BANDWIDTH_TYPES && All(Digit, P(o, Limit))
  }

  lemma BandwidthRule()
    ensures BANDWIDTH.names == [Type, Limit] && BANDWIDTH.re == Choice(BANDWIDTH_TYPES, Lit(":", Cap(Digit, Star, Done)))
    ensures BANDWIDTH.target.Pushed? && BANDWIDTH.anchored && Rules('b') == [BANDWIDTH] && Distinct(BANDWIDTH.names)
    ensures forall o :: FormatOf(BANDWIDTH, o) == Hole("", S, Hole(":", D, T))
  {}

  lemma WordsDiffer(w: nat, rest: string)
    requires w < 5
    ensures forall j :: 0 <= j < w ==> !(BANDWIDTH_TYPES[j] <= BANDWIDTH_TYPES[w] + rest)
  {
    var s := BANDWIDTH_TYPES[w] + rest;
    assert s[0] == BANDWIDTH_TYPES[w][0] && s[1] == BANDWIDTH_TYPES[w][1];
    assert BANDWIDTH_TYPES[0][0] == 'T' && BANDWIDTH_TYPES[1][0] == 'A' && BANDWIDTH_TYPES[2][0] == 'C';
    assert BANDWIDTH_TYPES[3][1] == 'R' && BANDWIDTH_TYPES[4][1] == 'S' && BANDWIDTH_TYPES[3][0] == BANDWIDTH_TYPES[4][0] == 'R';
  }

  lemma BandwidthAgrees(o: Fields)
    requires BandwidthFields(o)
    ensures Agrees(FormatOf(BANDWIDTH, o), BANDWIDTH.re, o, BANDWIDTH.names, 0)
  {
    hide Match, Texts, Printed, Ends, Agrees, Filled, FormatOf, HasValue, P, Plain, OnlyNames, All, Distinct;
    BandwidthRule();
    var n := BANDWIDTH.names;
    AgreesAtEnd(o, n);
    Field(":", D, T, Digit, Star, Done, o, n, 1);
    var w: nat :| w < 5 && BANDWIDTH_TYPES[w] == P(o, Type);
    WordsDiffer(w, Printed(Hole(":", D, T), o, n, 1));
    ChoiceField("", S, Hole(":", D, T), BANDWIDTH_TYPES, w, BANDWIDTH.re.next, o, n, 0);
  }

  /** A bandwidth line keeps its text and its members; no other rule is tried for it. */
  lemma BandwidthLine(o: Fields)
    requires BandwidthFields(o)
    ensures Stable('b', BANDWIDTH, Content(BANDWIDTH, o)) && (Exact(BANDWIDTH, o) ==> ReadsBack('b', BANDWIDTH, o))
  {
    hide FormatOf, Plain, Rules, OnlyNames, Content, P, Distinct, All, Match, Exact, Stable, ReadsBack;
    BandwidthAgrees(o);
    BandwidthRule();
    ContentOfObject(BANDWIDTH, o);
    SingleRule('b', BANDWIDTH, Content(BANDWIDTH, o));
    ElementLine('b', BANDWIDTH, o);
  }

  lemma BandwidthText(o: Fields)
    ensures Content(BANDWIDTH, o) == P(o, Type) + ":" + P(o, Limit)
  {
    hide FormatOf, P, Printed, Content, Distinct, Rules;
    BandwidthRule();
    ContentOfObject(BANDWIDTH, o);
    SectionText.Two("", S, ":", D, T, o, BANDWIDTH.names, 0);
    assert "" + P(o, Type) == P(o, Type);
  }

  // ---- Rules of one value ----

  /** ptime and the like: a number behind the head. */
  lemma NumberAttribute(j: nat, key: Key, head: Prefix, n: nat)
    requires j < 30 && j != 4 && j != 5 && |ATTRIBUTES| == 38 && ATTRIBUTES[j] == Scalar(key, head, Digit, "d") && n <= MAX_INT64
    ensures KeepsLine('a', ATTRIBUTES[j], Num(n), head + Dec(n)) && Recovers(ATTRIBUTES[j], Num(n), head + Dec(n))
  {
    hide ATTRIBUTES, Rules, Match, Dec, Print, ToType;
    NumberIsCanonical(n);
    assert Dec(n) + "" == Dec(n);
    DoneMatches("");
    CapStep(Digit, Star, Done, Dec(n), "");
    LitStep(head, Cap(Digit, Star, Done), Dec(n));
    Dispatched(j, head + Dec(n));
    ScalarLine('a', ATTRIBUTES[j], head, Num(n));
  }

  lemma NumberPlaces()
    ensures |ATTRIBUTES| == 38 && ATTRIBUTES[12] == PTIME && ATTRIBUTES[13] == MAXPTIME
  {}

  lemma PtimeLines(n: nat)
    requires n <= MAX_INT64
    ensures KeepsLine('a', PTIME, Num(n), "ptime:" + Dec(n)) && Recovers(PTIME, Num(n), "ptime:" + Dec(n))
    ensures KeepsLine('a', MAXPTIME, Num(n), "maxptime:" + Dec(n)) && Recovers(MAXPTIME, Num(n), "maxptime:" + Dec(n))
  {
    hide ATTRIBUTES, KeepsLine, Recovers, Dec;
    NumberPlaces();
    NumberAttribute(12, Ptime, "ptime:", n);
    NumberAttribute(13, Maxptime, "maxptime:", n);
  }

  lemma TextPlaces()
    ensures |ATTRIBUTES| == 38 && ATTRIBUTES[2] == CONTROL && ATTRIBUTES[11] == MSID && ATTRIBUTES[21] == REMOTE_CANDIDATES
    ensures ATTRIBUTES[35] == TS_REFCLK && ATTRIBUTES[36] == MEDIACLK
  {}

  /** msid, control and remote-candidates take the rest of the line as it is. */
  lemma TextAttributeLines(s: string)
    requires All(Dot, s)
    ensures KeepsLine('a', MSID, Str(s), "msid:" + s) && Recovers(MSID, Str(s), "msid:" + s)
    ensures KeepsLine('a', CONTROL, Str(s), "control:" + s) && Recovers(CONTROL, Str(s), "control:" + s)
    ensures KeepsLine('a', REMOTE_CANDIDATES, Str(s), "remote-candidates:" + s)
            && Recovers(REMOTE_CANDIDATES, Str(s), "remote-candidates:" + s)
  {
    hide ATTRIBUTES, KeepsLine, Recovers, All;
    TextPlaces();
    ScalarAttribute(11, Msid, "msid:", Dot, s);
    ScalarAttribute(2, Control, "control:", Dot, s);
    ScalarAttribute(21, RemoteCandidates, "remote-candidates:", Dot, s);
  }

  /** The same after the x-google-flag rule, for lines without it. */
  lemma LateScalarAttribute(j: nat, key: Key, head: Prefix, s: string)
    requires 30 < j < 37 && |ATTRIBUTES| == 38 && ATTRIBUTES[j] == Scalar(key, head, Dot, "s")
    requires All(Dot, s) && !Occurs(FLAG, head + s)
    ensures KeepsLine('a', ATTRIBUTES[j], Str(s), head + s) && Recovers(ATTRIBUTES[j], Str(s), head + s)
  {
    hide ATTRIBUTES, Rules, Match, Occurs, SearchFrom;
    assert s + "" == s;
    DoneMatches("");
    CapStep(Dot, Star, Done, s, "");
    LitStep(head, Cap(Dot, Star, Done), s);
    SearchFromIsOccurs(head + s);
    FlagIsSearched();
    Dispatched(j, head + s);
    ScalarLine('a', ATTRIBUTES[j], head, Str(s));
  }

  lemma ClockLines(s: string)
    requires All(Dot, s)
    ensures !Occurs(FLAG, "ts-refclk:" + s) ==>
              KeepsLine('a', TS_REFCLK, Str(s), "ts-refclk:" + s) && Recovers(TS_REFCLK, Str(s), "ts-refclk:" + s)
    ensures !Occurs(FLAG, "mediaclk:" + s) ==>
              KeepsLine('a', MEDIACLK, Str(s), "mediaclk:" + s) && Recovers(MEDIACLK, Str(s), "mediaclk:" + s)
  {
    hide ATTRIBUTES, KeepsLine, Recovers, All, Occurs;
    TextPlaces();
    if !Occurs(FLAG, "ts-refclk:" + s) { LateScalarAttribute(35, TsRefclk, "ts-refclk:", s); }
    if !Occurs(FLAG, "mediaclk:" + s) { LateScalarAttribute(36, Mediaclk, "mediaclk:", s); }
  }

  // ---- Lines that are text ----

  /** The line types of one text rule. */
  predicate TextType(t: char, key: Key) {
    (t == 's' && key.Name?) || (t == 'i' && key.Description?) || (t == 'u' && key.Uri?) || (t == 'e' && key.Email?)
    || (t == 'p' && key.Phone?) || (t == 'z' && key.Timezones?) || (t == 'r' && key.Repeats?)
  }

  lemma OnlyTextRule(t: char, key: Key)
    requires TextType(t, key)
    ensures Rules(t) == [TextRule(key)]
  {}

  lemma TextLine(t: char, key: Key, s: string)
    requires TextType(t, key) && All(Dot, s)
    ensures KeepsLine(t, TextRule(key), Str(s), s) && Recovers(TextRule(key), Str(s), s)
  {
    OnlyTextRule(t, key);
    hide Rules, TextType, FirstClaim;
    assert "" + s == s && s + "" == s;
    CapStep(Dot, Star, Done, s, "");
    SingleRule(t, TextRule(key), s);
    ScalarLine(t, TextRule(key), "", Str(s));
  }

  // ---- a=source-filter ----

  const FILTER_MODES := ["excl", "incl"]
  const ADDRESS_TYPES := ["IP4", "IP6", "*"]
  const FILTER_LIST := Lit(" ", ANY)
  const FILTER_DEST := Lit(" ", Cap(NonSpace, Star, FILTER_LIST))
  const FILTER_NET := Lit(" ", Cap(NonSpace, Star, Lit(" ", Choice(ADDRESS_TYPES, FILTER_DEST))))

  predicate FilterFields(o: Fields) {
    Complete(SOURCE_FILTER, o) && P(o, FilterMode) in FILTER_MODES && All(NonSpace, P(o, NetType))
    && P(o, AddressTypes) in ADDRESS_TYPES && All(NonSpace, P(o, DestAddress)) && All(Dot, P(o, SrcList))
  }

  lemma FilterRule()
    ensures SOURCE_FILTER.names == [FilterMode, NetType, AddressTypes, DestAddress, SrcList]
    ensures SOURCE_FILTER.re == Lit("source-filter:", Run(Space, Star, Choice(FILTER_MODES, FILTER_NET)))
    ensures SOURCE_FILTER.target.Named? && SOURCE_FILTER.anchored && |ATTRIBUTES| == 38 && ATTRIBUTES[34] == SOURCE_FILTER
    ensures Distinct(SOURCE_FILTER.names)
    ensures forall o :: FormatOf(SOURCE_FILTER, o)
                        == Hole("source-filter: ", S, Hole(" ", S, Hole(" ", S, Hole(" ", S, Hole(" ", S, T)))))
  {}

  lemma TypesDiffer(w: nat, rest: string)
    requires w < 3
    ensures forall j :: 0 <= j < w ==> !(ADDRESS_TYPES[j] <= ADDRESS_TYPES[w] + rest)
  {
    var s := ADDRESS_TYPES[w] + rest;
    assert s[0] == ADDRESS_TYPES[w][0] && (w < 2 ==> s[2] == ADDRESS_TYPES[w][2]);
    assert ADDRESS_TYPES[0][0] == 'I' && ADDRESS_TYPES[1][0] == 'I' && ADDRESS_TYPES[2][0] == '*';
    assert ADDRESS_TYPES[0][2] == '4' && ADDRESS_TYPES[1][2] == '6';
  }

  lemma FilterTailAgrees(o: Fields, n: seq<Key>)
    requires |n| == 5 && All(NonSpace, P(o, n[1])) && P(o, n[2]) in ADDRESS_TYPES && All(NonSpace, P(o, n[3])) && All(Dot, P(o, n[4]))
    requires forall k <- n :: k in o
    ensures var f := Hole(" ", S, Hole(" ", S, Hole(" ", S, Hole(" ", S, T)))); Agrees(f, FILTER_NET, o, n, 1) && Filled(f, o, n, 1)
  {
    hide Match, Texts, Agrees, P, Printed, Filled, All, Ends;
    AgreesAtEnd(o, n);
    assert !In(NonSpace, ' ');
    Field(" ", S, T, Dot, Star, Done, o, n, 4);
    Field(" ", S, Hole(" ", S, T), NonSpace, Star, FILTER_LIST, o, n, 3);
    var rest := Hole(" ", S, Hole(" ", S, T));
    var w: nat :| w < 3 && ADDRESS_TYPES[w] == P(o, n[2]);
    TypesDiffer(w, Printed(rest, o, n, 3));
    ChoiceField(" ", S, rest, ADDRESS_TYPES, w, FILTER_DEST, o, n, 2);
    Field(" ", S, Hole(" ", S, rest), NonSpace, Star, Lit(" ", Choice(ADDRESS_TYPES, FILTER_DEST)), o, n, 1);
  }

  lemma ModesDiffer(w: nat, rest: string)
    requires w < 2
    ensures forall j :: 0 <= j < w ==> !(FILTER_MODES[j] <= FILTER_MODES[w] + rest)
    ensures !In(Space, FILTER_MODES[w][0])
  {
    assert (FILTER_MODES[w] + rest)[0] == FILTER_MODES[w][0] && FILTER_MODES[0][0] == 'e' && FILTER_MODES[1][0] == 'i';
  }

  /** The blank that the format writes behind the head is one that the pattern skips. */
  lemma SkippedBlank(text: string, f: Format, re: Re, o: Fields, n: seq<Key>)
    requires n != [] && '\n' !in text
    requires Agrees(Hole("", S, f), re, o, n, 0) && Ends(Space, Hole("", S, f), o, n, 0)
    ensures Agrees(Hole(text + " ", S, f), Lit(text, Run(Space, Star, re)), o, n, 0)
  {
    hide Match, P, Texts, Printed;
    var s, rest := Printed(Hole("", S, f), o, n, 0), Printed(f, o, n, 1);
    PrintedHole("", S, f, o, n, 0);
    PrintedHole(text + " ", S, f, o, n, 0);
    assert text + " " + P(o, n[0]) + rest == text + (" " + ("" + P(o, n[0]) + rest));
    RunStep(Space, Star, re, " ", s);
    LitStep(text, Run(Space, Star, re), " " + s);
  }

  lemma FilterAgrees(o: Fields)
    requires FilterFields(o)
    ensures Agrees(FormatOf(SOURCE_FILTER, o), SOURCE_FILTER.re, o, SOURCE_FILTER.names, 0)
    ensures Filled(FormatOf(SOURCE_FILTER, o), o, SOURCE_FILTER.names, 0)
  {
    hide Match, Texts, Agrees, P, Printed, FormatOf, Plain, OnlyNames, All, Distinct, Filled, FILTER_NET;
    FilterRule();
    var n := SOURCE_FILTER.names;
    var f := Hole(" ", S, Hole(" ", S, Hole(" ", S, Hole(" ", S, T))));
    FilterTailAgrees(o, n);
    var w: nat :| w < 2 && FILTER_MODES[w] == P(o, n[0]);
    ModesDiffer(w, Printed(f, o, n, 1));
    ChoiceField("", S, f, FILTER_MODES, w, FILTER_NET, o, n, 0);
    ModeComesFirst(o, n, f, w);
    SkippedBlank("source-filter:", f, Choice(FILTER_MODES, FILTER_NET), o, n);
    assert "source-filter:" + " " == "source-filter: ";
    FilledHead(f, o, n);
  }

  lemma ModeComesFirst(o: Fields, n: seq<Key>, f: Format, w: nat)
    requires n != [] && w < 2 && P(o, n[0]) == FILTER_MODES[w] && !In(Space, FILTER_MODES[w][0])
    ensures Ends(Space, Hole("", S, f), o, n, 0)
  {
    hide P, Printed;
    PrintedHole("", S, f, o, n, 0);
    assert Printed(Hole("", S, f), o, n, 0)[0] == FILTER_MODES[w][0];
  }

  lemma FilledHead(f: Format, o: Fields, n: seq<Key>)
    requires n != [] && n[0] in o && Filled(f, o, n, 1)
    ensures Filled(Hole("source-filter: ", S, f), o, n, 0)
  {}

  lemma FilterLine(o: Fields)
    requires FilterFields(o) && !Occurs(FLAG, NamedText(SOURCE_FILTER, o))
    ensures KeepsLine('a', SOURCE_FILTER, Obj(o), NamedText(SOURCE_FILTER, o))
    ensures Exact(SOURCE_FILTER, o) ==> Recovers(SOURCE_FILTER, Obj(o), NamedText(SOURCE_FILTER, o))
  {
    hide FormatOf, Agrees, Filled, Plain, OnlyNames, Content, P, Exact, KeepsLine, Recovers, ATTRIBUTES, Distinct, NamedText, All,
      Occurs, SearchFrom;
    FilterAgrees(o);
    FilterRule();
    SearchFromIsOccurs(NamedText(SOURCE_FILTER, o));
    FlagIsSearched();
    NamedAttribute(34, SOURCE_FILTER, o);
  }

  // ---- The old form of simulcast ----

  lemma OldSimulcastRule()
    ensures SIMULCAST_03.names == [Value] && SIMULCAST_03.re == Lit("simulcast: ", Cap(Dot, Plus, End))
    ensures SIMULCAST_03.target.Named? && SIMULCAST_03.anchored && |ATTRIBUTES| == 38 && ATTRIBUTES[33] == SIMULCAST_03
    ensures Distinct(SIMULCAST_03.names) && forall o :: FormatOf(SIMULCAST_03, o) == Hole("simulcast: ", S, T)
  {}

  lemma OldSimulcastLine(o: Fields)
    requires Complete(SIMULCAST_03, o) && All(Dot, P(o, Value)) && !Occurs(FLAG, NamedText(SIMULCAST_03, o))
    ensures KeepsLine('a', SIMULCAST_03, Obj(o), NamedText(SIMULCAST_03, o))
    ensures Exact(SIMULCAST_03, o) ==> Recovers(SIMULCAST_03, Obj(o), NamedText(SIMULCAST_03, o))
  {
    hide FormatOf, Agrees, Filled, Plain, OnlyNames, Content, P, Exact, KeepsLine, Recovers, ATTRIBUTES, Distinct, NamedText, All,
      Occurs, SearchFrom;
    OldSimulcastRule();
    EndOfLine(o, SIMULCAST_03.names);
    Field("simulcast: ", S, T, Dot, Plus, End, o, SIMULCAST_03.names, 0);
    SearchFromIsOccurs(NamedText(SIMULCAST_03, o));
    FlagIsSearched();
    NamedAttribute(33, SIMULCAST_03, o);
  }

  lemma FilterText(o: Fields)
    requires FilterFields(o)
    ensures NamedText(SOURCE_FILTER, o)
         == "source-filter: " + P(o, FilterMode) + " " + P(o, NetType)
            + (" " + P(o, AddressTypes) + " " + P(o, DestAddress) + (" " + P(o, SrcList)))
  {
    hide FormatOf, P, Plain, OnlyNames, Printed, All, Distinct;
    FilterRule();
    var n := SOURCE_FILTER.names;
    var rest := Hole(" ", S, T);
    PrintedHole(" ", S, T, o, n, 4);
    SectionText.PrintedNothing(o, n, 5);
    SectionText.Two(" ", S, " ", S, rest, o, n, 2);
    SectionText.Two("source-filter: ", S, " ", S, Hole(" ", S, Hole(" ", S, rest)), o, n, 0);
    assert " " + P(o, SrcList) + "" == " " + P(o, SrcList);
  }

  // ---- rtcp-fb intervals ----

  predicate IntervalFields(o: Fields) {
    Members(RTCP_FB_TRR_INT, o) && (P(o, Payload) == "*" || All(Digit, P(o, Payload))) && All(Digit, P(o, Value))
  }

  lemma IntervalRule()
    ensures RTCP_FB_TRR_INT.names == [Payload, Value] && RTCP_FB_TRR_INT.re == Lit("rtcp-fb:", WordOrCap("*", Digit, TRR_INT))
    ensures RTCP_FB_TRR_INT.target.Pushed? && RTCP_FB_TRR_INT.anchored && Distinct(RTCP_FB_TRR_INT.names)
    ensures |ATTRIBUTES| == 38 && ATTRIBUTES[4] == RTCP_FB_TRR_INT && ATTRIBUTES == Rules('a')
    ensures forall o :: FormatOf(RTCP_FB_TRR_INT, o) == Hole("rtcp-fb:", S, Hole(" trr-int ", D, T))
  {}

  lemma IntervalFirst(s: string)
    requires Claims(RTCP_FB_TRR_INT, s)
    ensures FirstClaim(Rules('a'), s) == Some(RTCP_FB_TRR_INT)
  {
    hide Expected, Claims, Position, ATTRIBUTES, FirstClaim, Rules;
    IntervalRule();
    TrrIntClaims(s);
    forall i | 0 <= i < 4 ensures !Claims(ATTRIBUTES[i], s) {
      Positions(i);
      Positions(5);
      Places();
      if Claims(ATTRIBUTES[i], s) { ClaimedIsExpected(i, s); }
    }
    FirstClaimAt(ATTRIBUTES, 4, s);
  }

  lemma IntervalLine(o: Fields)
    requires IntervalFields(o)
    ensures RoundTrips(RTCP_FB_TRR_INT, o)
    ensures Content(RTCP_FB_TRR_INT, o) == "rtcp-fb:" + P(o, Payload) + " trr-int " + P(o, Value)
  {
    hide FormatOf, Plain, ATTRIBUTES, Rules, OnlyNames, Content, P, Distinct, All, Match, Exact, Stable, ReadsBack, Printed;
    IntervalRule();
    var n := RTCP_FB_TRR_INT.names;
    AgreesAtEnd(o, n);
    Field(" trr-int ", D, T, Digit, Star, Done, o, n, 1);
    PrintedHole(" trr-int ", D, T, o, n, 1);
    NoStar(P(o, Payload), Printed(Hole(" trr-int ", D, T), o, n, 1));
    WordOrField("rtcp-fb:", S, Hole(" trr-int ", D, T), "*", Digit, TRR_INT, o, n, 0);
    ContentOfObject(RTCP_FB_TRR_INT, o);
    IntervalFirst(Content(RTCP_FB_TRR_INT, o));
    ElementLine('a', RTCP_FB_TRR_INT, o);
    SectionText.Two("rtcp-fb:", S, " trr-int ", D, T, o, n, 0);
  }

  // ---- x-google-flag ----

  lemma FlagRule()
    ensures X_GOOGLE_FLAG.re == Lit(FLAG, Cap(NonSpace, Star, Done)) && X_GOOGLE_FLAG.target.Named? && X_GOOGLE_FLAG.names == []
    ensures !X_GOOGLE_FLAG.anchored && X_GOOGLE_FLAG.types == "s" && X_GOOGLE_FLAG.format == Fixed(Hole(FLAG, S, T))
    ensures |ATTRIBUTES| == 38 && ATTRIBUTES[30] == X_GOOGLE_FLAG && ATTRIBUTES == Rules('a')
  {}

  lemma FlagHead(s: string)
    ensures Expected(FLAG + s) == None
  {
    assert (FLAG + s)[2] == 'g';
  }

  lemma FlagFirst(s: string)
    requires All(NonSpace, s)
    ensures Search(X_GOOGLE_FLAG, FLAG + s) == Some(Cons(s, Nil)) && FirstClaim(Rules('a'), FLAG + s) == Some(X_GOOGLE_FLAG)
  {
    hide Expected, Position, ATTRIBUTES, FirstClaim, Rules, Match;
    FlagRule();
    FlagHead(s);
    assert s + "" == s;
    DoneMatches("");
    CapStep(NonSpace, Star, Done, s, "");
    LitStep(FLAG, Cap(NonSpace, Star, Done), s);
    hide Search;
    forall i | 0 <= i < 30 ensures !Claims(ATTRIBUTES[i], FLAG + s) {
      if Claims(ATTRIBUTES[i], FLAG + s) { ClaimedIsExpected(i, FLAG + s); }
    }
    FirstClaimAt(ATTRIBUTES, 30, FLAG + s);
  }

  /** The flag keeps its text; it is the first rule that claims the line. */
  lemma FlagLine(s: string)
    requires All(NonSpace, s)
    ensures KeepsLine('a', X_GOOGLE_FLAG, Str(s), FLAG + s) && Recovers(X_GOOGLE_FLAG, Str(s), FLAG + s)
  {
    FlagRule();
    FlagFirst(s);
    hide FirstClaim, Rules, Search, All;
    forall loc: Fields | X_GOOGLE_FLAG.key in loc && loc[X_GOOGLE_FLAG.key] == Str(s) ensures Content(X_GOOGLE_FLAG, loc) == FLAG + s {
      assert Args(X_GOOGLE_FLAG, loc) == [Str(s)];
      assert Expand(T, [Str(s)], 1) == "" && FLAG + s + "" == FLAG + s;
    }
  }
}
