/**
  The text of a printed session around its media sections, written out, over whole runs of the remote
  session description; and what every parsed section has.
 */
module SessionText {
  import opened Prelude
  import opened Text
  import opened Regex
  import opened Json
  import opened Grammar
  import opened Dispatch
  import Parser
  import opened Writer
  import opened LineRoundTrip
  import opened NormalForm
  import opened SdpState
  import opened SdpRuns
  import SdpNormalForm
  import opened MediaObjects
  import SdpSteps
  import SectionText
  import SessionRoundTrip
  import WellFormedness

  // ---- The lines that rules without a member leave out ----

  /** None of the rules from place `i` up to place `j` has its member. */
  predicate Absent(es: seq<Entry>, i: nat, j: nat, loc: Fields) {
    i <= j <= |es| && forall k :: i <= k < j ==> es[k].rule.key !in loc
  }

  lemma {:induction false} GapLines(es: seq<Entry>, i: nat, j: nat, loc: Fields)
    requires Absent(es, i, j, loc)
    ensures EntryLines(es[..j], loc) == EntryLines(es[..i], loc)
  {
    hide EntryLines;
    if i < j {
      GapLines(es, i, j - 1, loc);
      OneEntry(es, j - 1, loc);
    }
  }

  lemma OneEntry(es: seq<Entry>, i: nat, loc: Fields)
    requires i < |es|
    ensures EntryLines(es[..i + 1], loc) == EntryLines(es[..i], loc) + RuleLines(es[i].kind, es[i].rule, loc)
    ensures es[i].rule.key !in loc ==> EntryLines(es[..i + 1], loc) == EntryLines(es[..i], loc)
  {
    hide Content;
    assert es[..i + 1][..i] == es[..i];
  }

  /** A rule with one line adds it. */
  lemma AddsLine(es: seq<Entry>, i: nat, j: nat, loc: Fields, line: Line)
    requires i < j && Absent(es, i + 1, j, loc) && RuleLines(es[i].kind, es[i].rule, loc) == [line]
    ensures EntryLines(es[..j], loc) == EntryLines(es[..i], loc) + [line]
  {
    hide EntryLines, RuleLines;
    OneEntry(es, i, loc);
    GapLines(es, i + 1, j, loc);
  }

  // ---- The lines of the header ----

  predicate SessionMember(k: Key) {
    k.Version? || k.Origin? || k.Name? || k.Timing? || k.Media? || k.MsidSemantic? || k.Fingerprint? || k.Groups? || k.Icelite?
  }

  lemma OnlySessionMembers(st: State)
    ensures forall k <- SdpObject(st).Keys :: SessionMember(k)
    ensures Icelite in SdpObject(st) <==> st.icelite
  {}

  const SESSION_ENTRIES: seq<Entry> := OUTER + EntriesOf('a', ATTRIBUTES)

  lemma OuterPlaces()
    ensures |SESSION_ENTRIES| == 50 && SESSION_ENTRIES[0] == Entry('v', VERSION) && SESSION_ENTRIES[1] == Entry('o', ORIGIN)
    ensures SESSION_ENTRIES[2] == Entry('s', TextRule(Name)) && SESSION_ENTRIES[9] == Entry('t', TIMING)
    ensures SESSION_ENTRIES[27] == Entry('a', ICELITE) && SESSION_ENTRIES[30] == Entry('a', FINGERPRINT)
    ensures SESSION_ENTRIES[37] == Entry('a', MSID_SEMANTIC) && SESSION_ENTRIES[38] == Entry('a', GROUPS)
  {
    hide ATTRIBUTES, OUTER, VERSION, ORIGIN, TIMING, ICELITE, FINGERPRINT, MSID_SEMANTIC, GROUPS;
    WellFormedness.OuterKinds();
    Places();
    MorePlaces();
  }

  lemma OuterKey(i: nat)
    requires i < 12 && i != 0 && i != 1 && i != 2 && i != 9
    ensures |OUTER| == 12 && !SessionMember(OUTER[i].rule.key)
  {
    hide OUTER;
    WellFormedness.OuterAbsent(i);
    SessionRoundTrip.OuterNotMedia(i);
  }

  lemma MemberPositions()
    ensures forall k: Key :: SessionMember(k) && Position(k) < 38 ==> Position(k) == 15 || Position(k) == 18 || Position(k) == 25 || Position(k) == 26
  {}

  /** All other rules of the session have no member in it. */
  lemma OthersAbsent(i: nat)
    requires i < 50 && i != 0 && i != 1 && i != 2 && i != 9 && i != 27 && i != 30 && i != 37 && i != 38
    ensures |SESSION_ENTRIES| == 50 && !SessionMember(SESSION_ENTRIES[i].rule.key)
  {
    hide ATTRIBUTES, OUTER, SessionMember, Position;
    WellFormedness.OuterKinds();
    Places();
    if i < 12 {
      OuterKey(i);
    } else {
      Positions(i - 12);
      MemberPositions();
    }
  }

  predicate Spares(i: nat, j: nat, place: nat) { place < i || j <= place }

  lemma GapAbsent(st: State, i: nat, j: nat)
    requires i <= j <= 50 && Spares(i, j, 0) && Spares(i, j, 1) && Spares(i, j, 2) && Spares(i, j, 9)
    requires Spares(i, j, 30) && Spares(i, j, 37) && Spares(i, j, 38) && (st.icelite ==> Spares(i, j, 27))
    ensures Absent(SESSION_ENTRIES, i, j, SdpObject(st))
  {
    hide SESSION_ENTRIES, SdpObject, SessionMember;
    OnlySessionMembers(st);
    OuterPlaces();
    forall k | i <= k < j ensures SESSION_ENTRIES[k].rule.key !in SdpObject(st) {
      if k != 27 { OthersAbsent(k); }
    }
  }

  /** The line of a member that is one value. */
  lemma ScalarText(t: char, rule: Rule, loc: Fields, head: Prefix, kind: Kind, v: Json)
    requires rule.target.Named? && rule.names == [] && rule.format == Fixed(Hole(head, kind, Tail(""))) && (kind.S? || kind.D?)
    requires rule.key in loc && loc[rule.key] == v && v != Null
    ensures RuleLines(t, rule, loc) == [Line(t, head + Print(v))]
  {
    hide Print;
    assert Args(rule, loc) == [v] && FormatOf(rule, FormatObject(rule, loc)) == Hole(head, kind, Tail(""));
    assert Expand(Tail(""), [v], 1) == "";
    assert head + Print(v) + "" == head + Print(v);
  }

  lemma VersionAndName(st: State)
    ensures RuleLines('v', VERSION, SdpObject(st)) == [Line('v', "0")] && RuleLines('s', TextRule(Name), SdpObject(st)) == [Line('s', "-")]
  {
    hide SdpObject, RuleLines;
    SdpNormalForm.SdpObjectMembers(st);
    ScalarText('v', VERSION, SdpObject(st), "", D, Num(0));
    ScalarText('s', TextRule(Name), SdpObject(st), "", S, Str("-"));
    assert "" + Print(Num(0)) == "0" && "" + Print(Str("-")) == "-";
  }

  function OriginLine(version: nat): Line { Line('o', "libmediasoupclient 10000 " + Dec(version) + " IN IP4 0.0.0.0") }

  lemma OriginLines(st: State)
    ensures RuleLines('o', ORIGIN, SdpObject(st)) == [OriginLine(st.sessionVersion)]
  {
    hide SdpObject, Content, Dec, SdpNormalForm.OriginObject;
    SectionText.OriginOf(st);
    SectionText.OriginText(st);
    assert Dec(10000) == "10000" && Dec(4) == "4" by { Numbers(); }
    var v := Dec(st.sessionVersion);
    assert "libmediasoupclient" + " " + "10000" + " " + v + " " + "IN" + " IP" + "4" + " " + "0.0.0.0"
        == "libmediasoupclient 10000 " + v + " IN IP4 0.0.0.0";
  }

  lemma Numbers()
    ensures Dec(10000) == "10000" && Dec(4) == "4" && Dec(0) == "0"
  {
    assert Dec(1) == "1" && Dec(10) == "10" && Dec(100) == "100" && Dec(1000) == "1000";
  }

  lemma TimingLines(st: State)
    ensures RuleLines('t', TIMING, SdpObject(st)) == [Line('t', "0 0")]
  {
    SdpNormalForm.SdpObjectMembers(st);
    var o: Fields := map[Start := Num(0), Stop := Num(0)];
    assert Filled(FormatOf(TIMING, o), o, TIMING.names, 0) && P(o, Start) == "0" && P(o, Stop) == "0";
    ContentOfNamed(TIMING, SdpObject(st), o);
    SectionText.TimingText(o);
    hide SdpObject, Content, P, NamedText;
    assert "0" + " " + "0" == "0 0";
  }

  lemma IceliteLines(st: State)
    requires st.icelite
    ensures RuleLines('a', ICELITE, SdpObject(st)) == [Line('a', "ice-lite")]
  {
    OnlySessionMembers(st);
    SdpNormalForm.SdpObjectMembers(st);
    hide SdpObject, RuleLines;
    ScalarText('a', ICELITE, SdpObject(st), "", S, Str("ice-lite"));
    assert "" + Print(Str("ice-lite")) == "ice-lite";
  }

  lemma FingerprintLines(st: State)
    ensures RuleLines('a', FINGERPRINT, SdpObject(st))
         == [Line('a', "fingerprint:" + st.transport.fingerprint.algorithm + " " + st.transport.fingerprint.value)]
  {
    SdpNormalForm.SdpObjectMembers(st);
    var o: Fields := map[Type := Str(st.transport.fingerprint.algorithm), Hash := Str(st.transport.fingerprint.value)];
    assert Filled(Hole(" ", S, Tail("")), o, FINGERPRINT.names, 1);
    assert Filled(FormatOf(FINGERPRINT, o), o, FINGERPRINT.names, 0);
    assert P(o, Type) == st.transport.fingerprint.algorithm && P(o, Hash) == st.transport.fingerprint.value;
    ContentOfNamed(FINGERPRINT, SdpObject(st), o);
    SectionText.FingerprintText(o);
    hide SdpObject, Content, P, NamedText;
  }

  lemma SemanticLines(st: State)
    ensures RuleLines('a', MSID_SEMANTIC, SdpObject(st)) == [Line('a', "msid-semantic: WMS *")]
  {
    SdpNormalForm.SdpObjectMembers(st);
    hide SdpObject, Content, P, FormatOf, Filled;
    var o: Fields := map[Semantic := Str("WMS"), Token := Str("*")];
    SemanticFilled(o);
    ContentOfNamed(MSID_SEMANTIC, SdpObject(st), o);
    SectionText.MsidSemanticText(o);
    assert "msid-semantic: " + "WMS" + " " + "*" == "msid-semantic: WMS *";
  }

  lemma SemanticFilled(o: Fields)
    requires o == map[Semantic := Str("WMS"), Token := Str("*")]
    ensures Filled(FormatOf(MSID_SEMANTIC, o), o, MSID_SEMANTIC.names, 0) && P(o, Semantic) == "WMS" && P(o, Token) == "*"
  {
    assert Filled(Hole(" ", S, Tail("")), o, MSID_SEMANTIC.names, 1);
  }

  lemma GroupLines(st: State)
    ensures RuleLines('a', GROUPS, SdpObject(st)) == [Line('a', "group:BUNDLE " + st.bundle)]
  {
    SdpNormalForm.SdpObjectMembers(st);
    SectionText.GroupLineText(st.bundle);
    hide SdpObject, Content;
    assert "group:" + "BUNDLE" + " " + st.bundle == "group:BUNDLE " + st.bundle;
  }

  function IceliteLine(icelite: bool): seq<Line> { if icelite then [Line('a', "ice-lite")] else [] }

  function FingerprintLine(st: State): Line {
    Line('a', "fingerprint:" + st.transport.fingerprint.algorithm + " " + st.transport.fingerprint.value)
  }

  lemma FirstLines(st: State)
    ensures EntryLines(SESSION_ENTRIES[..27], SdpObject(st))
         == [Line('v', "0"), OriginLine(st.sessionVersion), Line('s', "-"), Line('t', "0 0")]
  {
    hide SESSION_ENTRIES, SdpObject, RuleLines, Absent, EntryLines, OriginLine;
    OuterPlaces();
    VersionAndName(st);
    OriginLines(st);
    TimingLines(st);
    GapAbsent(st, 1, 1);
    GapAbsent(st, 2, 2);
    GapAbsent(st, 3, 9);
    GapAbsent(st, 10, 27);
    AddsLine(SESSION_ENTRIES, 0, 1, SdpObject(st), Line('v', "0"));
    AddsLine(SESSION_ENTRIES, 1, 2, SdpObject(st), OriginLine(st.sessionVersion));
    AddsLine(SESSION_ENTRIES, 2, 9, SdpObject(st), Line('s', "-"));
    AddsLine(SESSION_ENTRIES, 9, 27, SdpObject(st), Line('t', "0 0"));
    NoEntries(SdpObject(st));
    assert SESSION_ENTRIES[..0] == [];
  }

  lemma IceliteEntry(st: State)
    ensures EntryLines(SESSION_ENTRIES[..30], SdpObject(st)) == EntryLines(SESSION_ENTRIES[..27], SdpObject(st)) + IceliteLine(st.icelite)
  {
    hide SESSION_ENTRIES, SdpObject, RuleLines, Absent, EntryLines;
    OuterPlaces();
    if st.icelite {
      IceliteLines(st);
      GapAbsent(st, 28, 30);
      AddsLine(SESSION_ENTRIES, 27, 30, SdpObject(st), Line('a', "ice-lite"));
    } else {
      GapAbsent(st, 27, 30);
      GapLines(SESSION_ENTRIES, 27, 30, SdpObject(st));
    }
  }

  lemma LastLines(st: State)
    ensures EntryLines(SESSION_ENTRIES, SdpObject(st))
         == EntryLines(SESSION_ENTRIES[..30], SdpObject(st))
            + [FingerprintLine(st), Line('a', "msid-semantic: WMS *"), Line('a', "group:BUNDLE " + st.bundle)]
  {
    hide SESSION_ENTRIES, SdpObject, RuleLines, Absent, EntryLines;
    OuterPlaces();
    FingerprintLines(st);
    SemanticLines(st);
    GroupLines(st);
    GapAbsent(st, 31, 37);
    GapAbsent(st, 38, 38);
    GapAbsent(st, 39, 50);
    AddsLine(SESSION_ENTRIES, 30, 37, SdpObject(st), FingerprintLine(st));
    AddsLine(SESSION_ENTRIES, 37, 38, SdpObject(st), Line('a', "msid-semantic: WMS *"));
    AddsLine(SESSION_ENTRIES, 38, 50, SdpObject(st), Line('a', "group:BUNDLE " + st.bundle));
    assert SESSION_ENTRIES[..50] == SESSION_ENTRIES;
  }

  /** Exactly these lines come before the media sections, whatever has happened. */
  lemma HeaderLines(st: State)
    ensures LocationLines(OUTER_ORDER, SdpObject(st))
         == [Line('v', "0"), Line('o', "libmediasoupclient 10000 " + Dec(st.sessionVersion) + " IN IP4 0.0.0.0"),
             Line('s', "-"), Line('t', "0 0")]
            + (if st.icelite then [Line('a', "ice-lite")] else [])
            + [Line('a', "fingerprint:" + st.transport.fingerprint.algorithm + " " + st.transport.fingerprint.value),
               Line('a', "msid-semantic: WMS *"), Line('a', "group:BUNDLE " + st.bundle)]
  {
    hide SdpObject, Entries, EntryLines, LocationLines, ATTRIBUTES, OUTER, Dec;
    LocationLinesAreEntryLines(OUTER_ORDER, SdpObject(st));
    OuterEntries();
    FirstLines(st);
    IceliteEntry(st);
    LastLines(st);
  }

  // ---- The text ----

  lemma TextOfFour(a: Line, b: Line, c: Line, d: Line)
    ensures Writer.Text([a, b, c, d]) == LineText(a) + LineText(b) + LineText(c) + LineText(d)
  {
    hide LineText;
    TextOfOne(a);
    TextAppend([a], [b]);
    TextAppend([a, b], [c]);
    TextAppend([a, b, c], [d]);
    TextOfOne(b);
    TextOfOne(c);
    TextOfOne(d);
    assert [a] + [b] == [a, b] && [a, b] + [c] == [a, b, c] && [a, b, c] + [d] == [a, b, c, d];
    hide Writer.Text;
  }

  lemma TextOfThree(a: Line, b: Line, c: Line)
    ensures Writer.Text([a, b, c]) == LineText(a) + LineText(b) + LineText(c)
  {
    hide LineText;
    TextOfOne(a);
    TextAppend([a], [b]);
    TextAppend([a, b], [c]);
    TextOfOne(b);
    TextOfOne(c);
    assert [a] + [b] == [a, b] && [a, b] + [c] == [a, b, c];
    hide Writer.Text;
  }

  function FirstText(version: nat): string {
    "v=0\r\n" + ("o=libmediasoupclient 10000 " + Dec(version) + " IN IP4 0.0.0.0\r\n") + "s=-\r\n" + "t=0 0\r\n"
  }

  function LastText(algorithm: string, hash: string, mids: string): string {
    ("a=fingerprint:" + algorithm + " " + hash + "\r\n") + "a=msid-semantic: WMS *\r\n" + ("a=group:BUNDLE " + mids + "\r\n")
  }

  lemma ShortLine(kind: char, content: string, start: string)
    requires start == [kind] + "=" + content
    ensures LineText(Line(kind, content)) == start + "\r\n"
  {}

  lemma ShortLines()
    ensures LineText(Line('v', "0")) == "v=0\r\n" && LineText(Line('s', "-")) == "s=-\r\n" && LineText(Line('t', "0 0")) == "t=0 0\r\n"
  {
    hide LineText;
    ShortLine('v', "0", "v=0");
    ShortLine('s', "-", "s=-");
    ShortLine('t', "0 0", "t=0 0");
    assert "v=0" + "\r\n" == "v=0\r\n" && "s=-" + "\r\n" == "s=-\r\n" && "t=0 0" + "\r\n" == "t=0 0\r\n";
  }

  lemma SemanticLine()
    ensures LineText(Line('a', "msid-semantic: WMS *")) == "a=msid-semantic: WMS *\r\n"
  {
    hide LineText;
    ShortLine('a', "msid-semantic: WMS *", "a=msid-semantic: WMS *");
    assert "a=msid-semantic: WMS *" + "\r\n" == "a=msid-semantic: WMS *\r\n";
  }

  lemma LineAround(kind: char, before: string, middle: string, after: string)
    ensures LineText(Line(kind, before + middle + after)) == ([kind] + "=" + before) + middle + (after + "\r\n")
  {
    assert [kind] + "=" + (before + middle + after) + "\r\n" == ([kind] + "=" + before) + middle + (after + "\r\n");
  }

  lemma FirstLinesText(version: nat)
    ensures Writer.Text([Line('v', "0"), OriginLine(version), Line('s', "-"), Line('t', "0 0")]) == FirstText(version)
  {
    hide Dec, Writer.Text, LineText;
    TextOfFour(Line('v', "0"), OriginLine(version), Line('s', "-"), Line('t', "0 0"));
    ShortLines();
    LineAround('o', "libmediasoupclient 10000 ", Dec(version), " IN IP4 0.0.0.0");
    assert ['o'] + "=" + "libmediasoupclient 10000 " == "o=libmediasoupclient 10000 ";
    assert " IN IP4 0.0.0.0" + "\r\n" == " IN IP4 0.0.0.0\r\n";
  }

  lemma LastLinesText(algorithm: string, hash: string, mids: string)
    ensures Writer.Text([Line('a', "fingerprint:" + algorithm + " " + hash), Line('a', "msid-semantic: WMS *"),
                         Line('a', "group:BUNDLE " + mids)]) == LastText(algorithm, hash, mids)
  {
    hide Writer.Text, LineText;
    var a, b, c := Line('a', "fingerprint:" + algorithm + " " + hash), Line('a', "msid-semantic: WMS *"), Line('a', "group:BUNDLE " + mids);
    TextOfThree(a, b, c);
    SemanticLine();
    FingerprintAround(algorithm, hash);
    LineAround('a', "group:BUNDLE ", mids, "");
    assert "group:BUNDLE " + mids + "" == "group:BUNDLE " + mids;
    assert ['a'] + "=" + "group:BUNDLE " == "a=group:BUNDLE " && "" + "\r\n" == "\r\n";
  }

  lemma FingerprintAround(algorithm: string, hash: string)
    ensures LineText(Line('a', "fingerprint:" + algorithm + " " + hash)) == "a=fingerprint:" + algorithm + " " + hash + "\r\n"
  {
    hide LineText;
    LineAround('a', "fingerprint:", algorithm + " " + hash, "");
    assert "fingerprint:" + (algorithm + " " + hash) + "" == "fingerprint:" + algorithm + " " + hash;
    assert ['a'] + "=" + "fingerprint:" == "a=fingerprint:" && "" + "\r\n" == "\r\n";
    assert "a=fingerprint:" + (algorithm + " " + hash) == "a=fingerprint:" + algorithm + " " + hash;
  }

  lemma NothingFilledIn(st: State)
    requires Inv(st)
    ensures Defaults(SdpObject(st)) == SdpObject(st)
    ensures MediaOf(SdpObject(st)) == seq(|st.media|, i requires 0 <= i < |st.media| => Obj(st.media[i]))
  {
    var s := SdpObject(st);
    SdpNormalForm.SdpObjectMembers(st);
    PayloadsThere(st);
    hide Inv, SdpObject;
    WellFormedness.DefaultsKeep(s);
    var media := s[Media].elems;
    assert seq(|media|, i requires 0 <= i < |media| => WithPayloads(media[i])) == media by {
      forall i | 0 <= i < |media| ensures WithPayloads(media[i]) == media[i] { assert media[i] == Obj(st.media[i]); }
    }
    assert s[Media := Arr(media)] == s;
  }

  lemma PayloadsThere(st: State)
    requires Inv(st)
    ensures forall i :: 0 <= i < |st.media| ==> WithPayloads(Obj(st.media[i])) == Obj(st.media[i])
  {
    forall i | 0 <= i < |st.media| ensures WithPayloads(Obj(st.media[i])) == Obj(st.media[i]) {
      assert st.media[i] in st.media;
    }
  }

  /** The fingerprint stays that of the transport. */
  lemma {:induction false} FingerprintStays(t: Transport, steps: seq<Step>)
    requires After(t, steps).Some?
    ensures After(t, steps).value.transport.fingerprint == t.fingerprint
  {
    if steps != [] {
      FingerprintStays(t, steps[..|steps| - 1]);
      SameFingerprint(After(t, steps[..|steps| - 1]).value, steps[|steps| - 1]);
      hide Next, Allowed, Inv;
    }
  }

  lemma SameFingerprint(st: State, step: Step)
    requires Inv(st) && Allowed(st, step)
    ensures Next(st, step).transport.fingerprint == st.transport.fingerprint
  {
    IndexedMeans(st);
    hide Inv, AnswerSection, OfferSection, DataOfferSection, MidOf, MidFits, IsClosed, Good, Bundled;
  }

  lemma WrittenParts(st: State)
    requires Inv(st)
    ensures Written(SdpObject(st))
         == Writer.Text(LocationLines(OUTER_ORDER, SdpObject(st))) + Writer.Text(MediaLines(MediaOf(SdpObject(st))))
  {
    NothingFilledIn(st);
    hide Inv, SdpObject, Writer.Text, LocationLines, MediaLines;
    TextAppend(LocationLines(OUTER_ORDER, SdpObject(st)), MediaLines(MediaOf(SdpObject(st))));
  }

  /**
    The text that a run prints: the version counts the prints, ice-lite is there once ICE parameters
    mentioned it, the fingerprint is the transport's, and the media sections follow.
   */
  lemma SdpText(t: Transport, steps: seq<Step>)
    requires After(t, steps).Some?
    ensures var st := After(t, steps).value;
            Written(SdpObject(st))
            == FirstText(Prints(steps) % TWO_32) + (if SdpSteps.EverLite(t, steps) then "a=ice-lite\r\n" else "")
               + LastText(t.fingerprint.algorithm, t.fingerprint.value, st.bundle)
               + Writer.Text(MediaLines(seq(|st.media|, i requires 0 <= i < |st.media| => Obj(st.media[i]))))
  {
    hide After, Inv, SdpObject, Written, Writer.Text, LocationLines, MediaLines, FirstText, LastText, SdpSteps.EverLite, LineText;
    var st := After(t, steps).value;
    WrittenParts(st);
    NothingFilledIn(st);
    HeaderLines(st);
    VersionCountsPrints(t, steps);
    SdpSteps.IceIsCarried(t, steps);
    FingerprintStays(t, steps);
    HeaderText(st.sessionVersion, st.icelite, t.fingerprint.algorithm, t.fingerprint.value, st.bundle);
  }

  lemma HeaderText(version: nat, icelite: bool, algorithm: string, hash: string, mids: string)
    ensures Writer.Text([Line('v', "0"), Line('o', "libmediasoupclient 10000 " + Dec(version) + " IN IP4 0.0.0.0"),
                         Line('s', "-"), Line('t', "0 0")]
                        + (if icelite then [Line('a', "ice-lite")] else [])
                        + [Line('a', "fingerprint:" + algorithm + " " + hash),
                           Line('a', "msid-semantic: WMS *"), Line('a', "group:BUNDLE " + mids)])
         == FirstText(version) + (if icelite then "a=ice-lite\r\n" else "") + LastText(algorithm, hash, mids)
  {
    hide Writer.Text, FirstText, LastText, Dec;
    var first := [Line('v', "0"), OriginLine(version), Line('s', "-"), Line('t', "0 0")];
    var last := [Line('a', "fingerprint:" + algorithm + " " + hash), Line('a', "msid-semantic: WMS *"), Line('a', "group:BUNDLE " + mids)];
    FirstLinesText(version);
    LastLinesText(algorithm, hash, mids);
    LiteText(icelite);
    TextAppend(first, IceliteLine(icelite));
    TextAppend(first + IceliteLine(icelite), last);
  }

  lemma LiteText(icelite: bool)
    ensures Writer.Text(IceliteLine(icelite)) == if icelite then "a=ice-lite\r\n" else ""
  {
    TextOfOne(Line('a', "ice-lite"));
    assert LineText(Line('a', "ice-lite")) == "a=ice-lite\r\n";
  }

  // ---- What parsing and printing fill in ----

  /** A session without a version or a name is printed as version 0 with the name "-". */
  lemma MissingMembers(s: Fields)
    ensures var d := Defaults(s);
            (forall k <- s.Keys :: k != Media ==> k in d && d[k] == s[k])
            && (Version !in s ==> Version in d && d[Version] == Num(0)) && (Name !in s ==> Name in d && d[Name] == Str("-"))
  {
    hide MediaOf, WithPayloads;
  }

  /** A section without payloads is printed with none. */
  lemma MissingPayloads(s: Fields, i: nat)
    requires i < |MediaOf(s)|
    ensures var m := FieldsOf(MediaOf(s)[i]);
            |MediaOf(Defaults(s))| == |MediaOf(s)|
            && MediaOf(Defaults(s))[i] == Obj(if Payloads in m then m else m[Payloads := Str("")])
  {
    hide WithPayloads;
    FilledPayloads(MediaOf(s)[i]);
  }

  lemma FilledPayloads(m: Json)
    ensures WithPayloads(m) == Obj(if Payloads in FieldsOf(m) then FieldsOf(m) else FieldsOf(m)[Payloads := Str("")])
  {
    var o := FieldsOf(m);
    assert Payloads in o ==> o[Payloads := o[Payloads]] == o;
  }

  /** The rules for the lists of codecs and their parameters add to them, and no other rule touches them. */
  predicate KeepsLists(rule: Rule) {
    (rule.key.Rtp? || rule.key.Fmtp? ==> rule.target.Pushed?) && (rule.target.Root? ==> Rtp !in rule.names && Fmtp !in rule.names)
  }

  lemma CodecRulesPush()
    ensures RTP.target.Pushed? && FMTP.target.Pushed?
  {}

  lemma AttributesKeepLists(i: nat)
    requires i < 38
    ensures |ATTRIBUTES| == 38 && KeepsLists(ATTRIBUTES[i])
  {
    hide ATTRIBUTES, Position, RTP, FMTP;
    CodecRulesPush();
    Places();
    Positions(i);
    AttributeKeeps(i);
    assert Position(Rtp) == 0 && Position(Fmtp) == 1 by { CodecPlaces(); }
  }

  lemma CodecPlaces()
    ensures Position(Rtp) == 0 && Position(Fmtp) == 1
  {}

  lemma OtherRulesKeepLists(t: char)
    requires t != 'a'
    ensures forall rule <- Rules(t) :: KeepsLists(rule)
  {}

  lemma RulesKeepLists(t: char)
    ensures forall rule <- Rules(t) :: KeepsLists(rule)
  {
    hide ATTRIBUTES, KeepsLists;
    if t == 'a' {
      forall i | 0 <= i < 38 ensures |ATTRIBUTES| == 38 && KeepsLists(ATTRIBUTES[i]) { AttributesKeepLists(i); }
      assert |ATTRIBUTES| == 38 by { AttributesKeepLists(0); }
    } else {
      OtherRulesKeepLists(t);
    }
  }

  /** Codecs and their parameters are lists, even when no line has named any. */
  predicate HasLists(m: Fields) { Rtp in m && m[Rtp].Arr? && Fmtp in m && m[Fmtp].Arr? }

  lemma {:induction false} AttachKeepsLists(o: Fields, names: seq<Key>, types: string, caps: Caps, i: nat)
    requires |names| <= |types| && HasLists(o) && Rtp !in names && Fmtp !in names
    ensures HasLists(Parser.Attach(o, names, types, caps, i))
    decreases |names| - i
  {
    hide Parser.ToType;
    if i < |names| && caps.Cons? {
      assert names[i] in names;
      AttachKeepsLists(if caps.head == "" then o else o[names[i] := Parser.ToType(caps.head, types[i])], names, types, caps.tail, i + 1);
    }
  }

  lemma StoreKeepsLists(rule: Rule, loc: Fields, caps: Caps)
    requires HasLists(loc) && KeepsLists(rule)
    ensures HasLists(Parser.Store(rule, loc, caps))
  {
    hide Parser.ToType, Parser.Attach;
    if rule.target.Root? { AttachKeepsLists(loc, rule.names, rule.types, caps, 0); }
  }

  lemma LineKeepsLists(st: Parser.State, raw: string)
    requires forall m <- st.media :: HasLists(m)
    ensures forall m <- Parser.ParseLine(st, raw).media :: HasLists(m)
  {
    hide Rules, Claims, Parser.Store, KeepsLists, FirstClaim;
    var line := Parser.WithoutCr(raw);
    if Parser.ValidLine(line) {
      var t, content := line[0], line[2..];
      var begun := if t == 'm' then st.(media := st.media + [Parser.NEW_MEDIA]) else st;
      assert HasLists(Parser.NEW_MEDIA);
      RulesKeepLists(t);
      Parser.FirstClaimClaims(Rules(t), content);
      var found := FirstClaim(Rules(t), content);
      if found.Some? && begun.media != [] {
        assert begun.Location() in begun.media;
        StoreKeepsLists(found.value, begun.Location(), Parser.CapsOf(found.value, content));
      }
    }
  }

  lemma {:induction false} LinesKeepLists(lines: seq<string>)
    ensures forall m <- Parser.ParseLines(Parser.State(map[], []), lines).media :: HasLists(m)
  {
    hide Parser.ParseLine, HasLists;
    if lines != [] {
      LinesKeepLists(lines[..|lines| - 1]);
      LineKeepsLists(Parser.ParseLines(Parser.State(map[], []), lines[..|lines| - 1]), lines[|lines| - 1]);
    }
  }

  /** Every section of a parsed text, whatever the text is, has the two lists. */
  lemma ParsedHasLists(sdp: string)
    ensures forall m <- MediaOf(Parser.Parsed(sdp)) :: HasLists(FieldsOf(m))
  {
    hide Parser.ParseLines, HasLists, Tokens;
    LinesKeepLists(Tokens(sdp, '\n'));
  }
}
