/**
  Media sections and sessions whose members have the form that the media section code gives them,
  and that such a section or session meets the conditions of the normal form.
 */
module WellFormedness {
  import opened Regex
  import opened Text
  import opened Json
  import opened Grammar
  import opened Writer
  import opened LineRoundTrip
  import opened Dispatch
  import opened RuleRoundTrip
  import opened CandidateRoundTrip
  import opened OverlapRoundTrip
  import opened NamedRoundTrip
  import opened NormalForm
  import opened SessionRoundTrip

  // ---- Lines are not broken ----

  lemma {:induction false} PrintedUnbroken(f: Format, o: Fields, names: seq<Key>, i: nat)
    requires forall k <- names :: '\n' !in P(o, k)
    ensures '\n' !in Printed(f, o, names, i)
  {
    hide P;
    if f.Hole? {
      PrintedUnbroken(f.next, o, names, if i >= |names| then i else i + 1);
      if i < |names| { assert names[i] in names; }
    }
  }

  lemma ElementUnbroken(rule: Rule, o: Fields)
    requires !rule.target.Named? && rule.names != [] && forall k <- rule.names :: '\n' !in P(o, k)
    ensures '\n' !in Content(rule, o)
  {
    hide P, FormatOf, Content;
    ContentOfObject(rule, o);
    PrintedUnbroken(FormatOf(rule, o), o, rule.names, 0);
  }

  // ---- The form of each member ----

  /** An element of a member that is an array. */
  ghost predicate ElementFits(key: Key, o: Fields) {
    match key
    case Rtp => RtpFields(o)
    case Fmtp => FmtpFields(o)
    case RtcpFb => FbFields(o) && !LooksLikeInterval(o)
    case Ext => ExtFields(o) && !ReadsAsEncrypted(o)
    case Candidates => CandidateFields(o) && !Misplaced(o)
    case Ssrcs => SsrcFields(o)
    case SsrcGroups => SsrcGroupFields(o)
    case Groups => GroupFields(o)
    case Rids => RidFields(o) && !Occurs(FLAG, P(o, Params))
    case _ => false
  }

  predicate IsArray(key: Key) {
    key.Rtp? || key.Fmtp? || key.RtcpFb? || key.Ext? || key.Candidates? || key.Ssrcs? || key.SsrcGroups? || key.Groups? || key.Rids?
  }

  predicate IsFlag(key: Key) {
    key.Direction? || key.Icelite? || key.EndOfCandidates? || key.ExtmapAllowMixed? || key.RtcpMux? || key.RtcpRsize?
  }

  predicate IsString(key: Key) { key.Setup? || key.Mid? || key.IceUfrag? || key.IcePwd? || key.IceOptions? }

  predicate IsObject(key: Key) { key.Simulcast? || key.Fingerprint? || key.MsidSemantic? }

  predicate IsValue(key: Key) { IsFlag(key) || IsString(key) || IsObject(key) }

  function Words(key: Key): seq<string> {
    match key
    case Direction => WAYS_OF_MEDIA
    case Icelite => ["ice-lite"]
    case EndOfCandidates => ["end-of-candidates"]
    case ExtmapAllowMixed => ["extmap-allow-mixed"]
    case RtcpMux => ["rtcp-mux"]
    case RtcpRsize => ["rtcp-rsize"]
    case _ => []
  }

  /** A member with one value. */
  predicate ValueFits(key: Key, v: Json) {
    match key
    case Connection => v.Obj? && ConnectionFields(v.fields) && '\n' !in P(v.fields, Ip)
    case Simulcast => v.Obj? && SimulcastFields(v.fields)
    case Fingerprint => v.Obj? && FingerprintFields(v.fields)
    case MsidSemantic => v.Obj? && MsidSemanticFields(v.fields)
    case Setup => v.Str? && All(Word(""), v.s)
    case Mid => v.Str? && All(NonSpace, v.s)
    case IceUfrag => v.Str? && All(NonSpace, v.s)
    case IcePwd => v.Str? && All(NonSpace, v.s)
    case IceOptions => v.Str? && All(NonSpace, v.s)
    case _ => v.Str? && v.s in Words(key)
  }

  ghost predicate MemberFits(key: Key, v: Json) {
    if IsArray(key) then v.Arr? && forall e <- v.elems :: ElementFits(key, FieldsOf(e)) else ValueFits(key, v)
  }

  // ---- Each element of each array keeps its line ----

  ghost predicate ElementKept(rule: Rule, o: Fields) {
    rule.target.Pushed? && Stable('a', rule, Content(rule, o)) && '\n' !in Content(rule, o)
  }

  lemma Kept(rule: Rule, o: Fields)
    requires RoundTrips(rule, o) && rule.target.Pushed? && rule.names != [] && forall k <- rule.names :: '\n' !in P(o, k)
    ensures ElementKept(rule, o)
  {
    hide P, Content, Stable, ReadsBack, Exact;
    ElementUnbroken(rule, o);
  }

  lemma CodecElements(o: Fields)
    ensures RtpFields(o) ==> ElementKept(RTP, o)
    ensures FmtpFields(o) ==> ElementKept(FMTP, o)
    ensures FbFields(o) && !LooksLikeInterval(o) ==> ElementKept(RTCP_FB, o)
    ensures ExtFields(o) && !ReadsAsEncrypted(o) ==> ElementKept(EXT, o)
  {
    hide P, Members, RoundTrips, ElementKept, LooksLikeInterval, ReadsAsEncrypted;
    if RtpFields(o) { RtpLine(o); Kept(RTP, o); }
    if FmtpFields(o) { FmtpLine(o); Kept(FMTP, o); }
    if FbFields(o) && !LooksLikeInterval(o) { FbLine(o); Kept(RTCP_FB, o); }
    if ExtFields(o) && !ReadsAsEncrypted(o) { ExtLine(o); Kept(EXT, o); }
  }

  lemma SsrcElements(o: Fields)
    ensures SsrcFields(o) ==> ElementKept(SSRCS, o)
    ensures SsrcGroupFields(o) ==> ElementKept(SSRC_GROUPS, o)
    ensures GroupFields(o) ==> ElementKept(GROUPS, o)
    ensures RidFields(o) && !Occurs(FLAG, P(o, Params)) ==> ElementKept(RIDS, o)
  {
    hide P, Members, RoundTrips, ElementKept, Occurs;
    if SsrcFields(o) { SsrcLine(o); Kept(SSRCS, o); }
    if SsrcGroupFields(o) { SsrcGroupLine(o); Kept(SSRC_GROUPS, o); }
    if GroupFields(o) { GroupLine(o); Kept(GROUPS, o); }
    if RidFields(o) && !Occurs(FLAG, P(o, Params)) { RidLine(o); Kept(RIDS, o); }
  }

  lemma CandidateUnbroken(o: Fields)
    requires CandidateFields(o)
    ensures forall k <- CANDIDATES.names :: '\n' !in P(o, k)
  {
    hide P, Members;
    var n := CANDIDATES.names;
    assert |n| == 13;
    assert !In(NonSpace, '\n') && !In(Digit, '\n');
    forall i | 0 <= i < 13 ensures '\n' !in P(o, n[i]) {}
  }

  lemma CandidateElement(o: Fields)
    requires CandidateFields(o) && !Misplaced(o)
    ensures ElementKept(CANDIDATES, o)
  {
    hide P, Members, RoundTrips, ElementKept, Misplaced, CandidateFields;
    CandidateLine(o);
    CandidateUnbroken(o);
    Kept(CANDIDATES, o);
  }

  lemma ArrayPositions()
    ensures Position(Rtp) == 0 && Position(Fmtp) == 1 && Position(RtcpFb) == 5 && Position(Ext) == 6 && Position(Candidates) == 19
  {}

  lemma MoreArrayPositions()
    ensures Position(Ssrcs) == 23 && Position(SsrcGroups) == 24 && Position(Groups) == 26 && Position(Rids) == 31
  {}

  lemma PushedRules()
    ensures RTP.target.Pushed? && FMTP.target.Pushed? && RTCP_FB.target.Pushed? && EXT.target.Pushed?
  {}

  lemma MorePushedRules()
    ensures CANDIDATES.target.Pushed? && SSRCS.target.Pushed? && SSRC_GROUPS.target.Pushed? && GROUPS.target.Pushed?
            && RIDS.target.Pushed?
  {}

  lemma ArrayIsPushed(i: nat)
    requires i < 38 && |ATTRIBUTES| == 38 && IsArray(ATTRIBUTES[i].key)
    ensures ATTRIBUTES[i].target.Pushed?
  {
    hide Position, ATTRIBUTES, RTP, FMTP, RTCP_FB, EXT, CANDIDATES, SSRCS, SSRC_GROUPS, GROUPS, RIDS;
    Positions(i);
    ArrayPositions();
    MoreArrayPositions();
    Places();
    MorePlaces();
    PushedRules();
    MorePushedRules();
  }

  lemma FittingElement(i: nat, o: Fields)
    requires i < 38 && |ATTRIBUTES| == 38 && ElementFits(ATTRIBUTES[i].key, o)
    ensures ElementKept(ATTRIBUTES[i], o)
  {
    hide P, RtpFields, FmtpFields, FbFields, ExtFields, CandidateFields, SsrcFields, SsrcGroupFields, GroupFields, RidFields,
      LooksLikeInterval, ReadsAsEncrypted, Misplaced, Occurs, ElementKept, Position, ATTRIBUTES, RTP, FMTP, RTCP_FB, EXT, CANDIDATES,
      SSRCS, SSRC_GROUPS, GROUPS, RIDS;
    Positions(i);
    ArrayPositions();
    MoreArrayPositions();
    Places();
    MorePlaces();
    CodecElements(o);
    SsrcElements(o);
    if ATTRIBUTES[i].key.Candidates? { CandidateElement(o); }
  }

  // ---- Each value keeps its line ----

  ghost predicate ValueKept(t: char, rule: Rule, v: Json) {
    rule.target.Named? && exists line :: KeepsLine(t, rule, v, line) && '\n' !in line
  }

  lemma NamedKept(t: char, rule: Rule, o: Fields)
    requires rule.target.Named? && KeepsLine(t, rule, Obj(o), NamedText(rule, o)) && forall k <- rule.names :: '\n' !in P(o, k)
    ensures ValueKept(t, rule, Obj(o))
  {
    hide P, FormatOf, KeepsLine;
    PrintedUnbroken(FormatOf(rule, o), o, rule.names, 0);
  }

  lemma ConnectionKept(o: Fields)
    requires ConnectionFields(o) && '\n' !in P(o, Ip)
    ensures ValueKept('c', CONNECTION, Obj(o))
  {
    hide P, Members, KeepsLine, ValueKept;
    ConnectionLine(o);
    NamedKept('c', CONNECTION, o);
  }

  lemma SimulcastKept(o: Fields)
    requires SimulcastFields(o)
    ensures ValueKept('a', SIMULCAST, Obj(o))
  {
    hide P, Members, KeepsLine, ValueKept;
    SimulcastLine(o);
    WaysUnbroken();
    MissingHasNoText(o, Dir2);
    MissingHasNoText(o, List2);
    NamedKept('a', SIMULCAST, o);
  }

  lemma WaysUnbroken()
    ensures forall w <- WAYS :: '\n' !in w
  {}

  lemma ObjectsKept(o: Fields)
    ensures FingerprintFields(o) ==> ValueKept('a', FINGERPRINT, Obj(o))
    ensures MsidSemanticFields(o) ==> ValueKept('a', MSID_SEMANTIC, Obj(o))
  {
    hide P, Members, KeepsLine, ValueKept, Complete;
    if FingerprintFields(o) { FingerprintLine(o); NamedKept('a', FINGERPRINT, o); }
    if MsidSemanticFields(o) { MsidSemanticLine(o); NamedKept('a', MSID_SEMANTIC, o); }
  }

  lemma OriginKept(o: Fields)
    requires OriginFields(o)
    ensures ValueKept('o', ORIGIN, Obj(o))
  {
    hide P, Members, KeepsLine, ValueKept;
    OriginLine(o);
    OriginUnbroken(o);
    NamedKept('o', ORIGIN, o);
  }

  lemma OriginUnbroken(o: Fields)
    requires OriginFields(o)
    ensures forall k <- ORIGIN.names :: '\n' !in P(o, k)
  {
    hide P, Complete;
    assert !In(NonSpace, '\n') && !In(Digit, '\n');
  }

  lemma TimingKept(o: Fields)
    requires TimingFields(o)
    ensures ValueKept('t', TIMING, Obj(o))
  {
    hide P, Members, KeepsLine, ValueKept, Complete;
    TimingLine(o);
    NamedKept('t', TIMING, o);
  }

  lemma ScalarKept(t: char, rule: Rule, head: string, v: Json, s: string)
    requires rule.target.Named? && KeepsLine(t, rule, v, head + s) && '\n' !in head && '\n' !in s
    ensures ValueKept(t, rule, v)
  {
    hide KeepsLine;
  }

  lemma WordKept(rule: Rule, s: string)
    requires rule.target.Named? && KeepsLine('a', rule, Str(s), s) && '\n' !in s
    ensures ValueKept('a', rule, Str(s))
  {
    hide KeepsLine;
  }

  lemma NoBreak(cls: Class, s: string)
    requires All(cls, s) && !In(cls, '\n')
    ensures '\n' !in s
  {}

  lemma SetupKept(s: string)
    requires All(Word(""), s)
    ensures ValueKept('a', SETUP, Str(s))
  {
    hide KeepsLine, ValueKept, All;
    NoBreak(Word(""), s);
    SetupLine(s);
    ScalarKept('a', SETUP, "setup:", Str(s), s);
  }

  lemma StringsKept(s: string)
    requires All(NonSpace, s)
    ensures ValueKept('a', MID, Str(s)) && ValueKept('a', ICE_UFRAG, Str(s))
    ensures ValueKept('a', ICE_PWD, Str(s)) && ValueKept('a', ICE_OPTIONS, Str(s))
  {
    hide KeepsLine, ValueKept, All;
    NoBreak(NonSpace, s);
    MidLine(s);
    IceUfragLine(s);
    IcePwdLine(s);
    IceOptionsLine(s);
    ScalarKept('a', MID, "mid:", Str(s), s);
    ScalarKept('a', ICE_UFRAG, "ice-ufrag:", Str(s), s);
    ScalarKept('a', ICE_PWD, "ice-pwd:", Str(s), s);
    ScalarKept('a', ICE_OPTIONS, "ice-options:", Str(s), s);
  }

  lemma FlagsKept()
    ensures ValueKept('a', ICELITE, Str("ice-lite")) && ValueKept('a', END_OF_CANDIDATES, Str("end-of-candidates"))
    ensures ValueKept('a', EXTMAP_ALLOW_MIXED, Str("extmap-allow-mixed"))
    ensures ValueKept('a', RTCP_MUX, Str("rtcp-mux")) && ValueKept('a', RTCP_RSIZE, Str("rtcp-rsize"))
  {
    hide KeepsLine, ValueKept;
    FlagLines();
    WordKept(ICELITE, "ice-lite");
    WordKept(END_OF_CANDIDATES, "end-of-candidates");
    WordKept(EXTMAP_ALLOW_MIXED, "extmap-allow-mixed");
    WordKept(RTCP_MUX, "rtcp-mux");
    WordKept(RTCP_RSIZE, "rtcp-rsize");
  }

  lemma DirectionKept(s: string)
    requires s in WAYS_OF_MEDIA
    ensures ValueKept('a', DIRECTION, Str(s))
  {
    hide KeepsLine, ValueKept;
    DirectionLine(s);
    WordKept(DIRECTION, s);
  }

  lemma ObjectPositions()
    ensures Position(Simulcast) == 32 && Position(Fingerprint) == 18 && Position(MsidSemantic) == 25
  {}

  lemma FittingObject(i: nat, v: Json)
    requires i < 38 && |ATTRIBUTES| == 38 && ValueFits(ATTRIBUTES[i].key, v) && IsObject(ATTRIBUTES[i].key)
    ensures ValueKept('a', ATTRIBUTES[i], v)
  {
    hide ValueKept, ConnectionFields, SimulcastFields, FingerprintFields, MsidSemanticFields, Position, ATTRIBUTES,
      SIMULCAST, FINGERPRINT, MSID_SEMANTIC;
    Positions(i);
    ObjectPositions();
    MorePlaces();
    if ATTRIBUTES[i].key.Simulcast? { SimulcastKept(v.fields); } else { ObjectsKept(v.fields); }
  }

  lemma StringPositions()
    ensures Position(Setup) == 9 && Position(Mid) == 10 && Position(IceUfrag) == 16 && Position(IcePwd) == 17
            && Position(IceOptions) == 22
  {}

  lemma FittingString(i: nat, v: Json)
    requires i < 38 && |ATTRIBUTES| == 38 && ValueFits(ATTRIBUTES[i].key, v) && IsString(ATTRIBUTES[i].key)
    ensures ValueKept('a', ATTRIBUTES[i], v)
  {
    hide ValueKept, All, Position, ATTRIBUTES, SETUP, MID, ICE_UFRAG, ICE_PWD, ICE_OPTIONS;
    Positions(i);
    StringPositions();
    Places();
    MorePlaces();
    if ATTRIBUTES[i].key.Setup? { SetupKept(v.s); } else { StringsKept(v.s); }
  }

  lemma WordPositions()
    ensures Position(Direction) == 14 && Position(Icelite) == 15 && Position(EndOfCandidates) == 20
    ensures Position(ExtmapAllowMixed) == 7 && Position(RtcpMux) == 27 && Position(RtcpRsize) == 28
  {}

  /** The words of a member that has just one. */
  lemma OneWord(key: Key, s: string)
    requires IsFlag(key) && s in Words(key)
    ensures key.Direction? ==> s in WAYS_OF_MEDIA
    ensures key.Icelite? ==> s == "ice-lite"
    ensures key.EndOfCandidates? ==> s == "end-of-candidates"
    ensures key.ExtmapAllowMixed? ==> s == "extmap-allow-mixed"
    ensures key.RtcpMux? ==> s == "rtcp-mux"
    ensures key.RtcpRsize? ==> s == "rtcp-rsize"
  {}

  lemma WordFits(key: Key, v: Json)
    requires ValueFits(key, v) && IsFlag(key)
    ensures v.Str? && v.s in Words(key)
  {
    hide Words;
  }

  lemma FittingWord(i: nat, v: Json)
    requires i < 38 && |ATTRIBUTES| == 38 && ValueFits(ATTRIBUTES[i].key, v) && IsFlag(ATTRIBUTES[i].key)
    ensures ValueKept('a', ATTRIBUTES[i], v)
  {
    hide ValueKept, ValueFits, Words, Position, ATTRIBUTES, DIRECTION, ICELITE, END_OF_CANDIDATES, EXTMAP_ALLOW_MIXED,
      RTCP_MUX, RTCP_RSIZE;
    var key := ATTRIBUTES[i].key;
    Positions(i);
    WordPositions();
    Places();
    MorePlaces();
    WordFits(key, v);
    OneWord(key, v.s);
    if key.Direction? { DirectionKept(v.s); } else { FlagsKept(); }
  }

  lemma FittingValue(i: nat, v: Json)
    requires i < 38 && |ATTRIBUTES| == 38 && ValueFits(ATTRIBUTES[i].key, v) && IsValue(ATTRIBUTES[i].key)
    ensures ValueKept('a', ATTRIBUTES[i], v)
  {
    hide ValueKept, ValueFits, IsObject, IsString, IsFlag, ATTRIBUTES;
    if IsObject(ATTRIBUTES[i].key) { FittingObject(i, v); }
    else if IsString(ATTRIBUTES[i].key) { FittingString(i, v); }
    else { FittingWord(i, v); }
  }

  // ---- From members to rules ----

  ghost predicate RuleKept(t: char, rule: Rule, loc: Fields) {
    StableRule(t, rule, loc) && forall l <- RuleLines(t, rule, loc) :: '\n' !in l.content && l.kind == t
  }

  lemma AbsentKept(t: char, rule: Rule, loc: Fields)
    requires rule.key !in loc
    ensures RuleKept(t, rule, loc)
  {}

  lemma ArrayKept(t: char, rule: Rule, loc: Fields)
    requires t == 'a' && rule.target.Pushed? && rule.key in loc && loc[rule.key].Arr?
    requires forall e <- loc[rule.key].elems :: ElementKept(rule, FieldsOf(e))
    ensures RuleKept(t, rule, loc)
  {
    hide Content, Stable;
    var elems := loc[rule.key].elems;
    assert RuleLines(t, rule, loc) == ElementLines(t, rule, elems);
    forall l | l in ElementLines(t, rule, elems) ensures Stable(t, rule, l.content) && '\n' !in l.content {
      var i :| 0 <= i < |elems| && l == Line(t, Content(rule, FieldsOf(elems[i])));
      assert elems[i] in elems;
    }
  }

  lemma OneKept(t: char, rule: Rule, loc: Fields)
    requires rule.key in loc && ValueKept(t, rule, loc[rule.key])
    ensures RuleKept(t, rule, loc)
  {
    hide Content, Stable;
    var line :| KeepsLine(t, rule, loc[rule.key], line) && '\n' !in line;
    assert Content(rule, loc) == line;
  }

  lemma ValueFitsIsValue(key: Key, v: Json)
    requires ValueFits(key, v) && !key.Connection?
    ensures IsValue(key)
  {
    hide ConnectionFields, SimulcastFields, FingerprintFields, MsidSemanticFields, All;
  }

  lemma AttributeKept(i: nat, loc: Fields)
    requires i < 38 && |ATTRIBUTES| == 38 && (ATTRIBUTES[i].key in loc ==> MemberFits(ATTRIBUTES[i].key, loc[ATTRIBUTES[i].key]))
    ensures RuleKept('a', ATTRIBUTES[i], loc)
  {
    hide ATTRIBUTES, Position, RuleKept, ElementFits, ElementKept, ValueKept, ValueFits, IsValue, IsArray;
    var key := ATTRIBUTES[i].key;
    Positions(i);
    if key !in loc {
      AbsentKept('a', ATTRIBUTES[i], loc);
    } else if IsArray(key) {
      forall e | e in loc[key].elems ensures ElementKept(ATTRIBUTES[i], FieldsOf(e)) {
        FittingElement(i, FieldsOf(e));
      }
      ArrayIsPushed(i);
      ArrayKept('a', ATTRIBUTES[i], loc);
    } else {
      NoConnectionPlace(key);
      ValueFitsIsValue(key, loc[key]);
      FittingValue(i, loc[key]);
      OneKept('a', ATTRIBUTES[i], loc);
    }
  }

  lemma NoConnectionPlace(key: Key)
    requires Position(key) < 38
    ensures !key.Connection?
  {}

  lemma {:induction false} EntriesKept(es: seq<Entry>, loc: Fields)
    requires forall e <- es :: RuleKept(e.kind, e.rule, loc) && 'a' <= e.kind <= 'z' && e.kind != 'm'
    ensures StableEntries(es, loc) && forall l <- EntryLines(es, loc) :: Clean(l) && l.kind != 'm'
  {
    hide RuleLines, StableRule;
    if es != [] {
      var front, last := es[..|es| - 1], es[|es| - 1];
      assert last in es && forall e <- front :: e in es;
      EntriesKept(front, loc);
    }
  }

  lemma LocationKept(order: string, es: seq<Entry>, loc: Fields)
    requires Entries(order) == es && Invalid !in loc
    requires forall e <- es :: RuleKept(e.kind, e.rule, loc) && 'a' <= e.kind <= 'z' && e.kind != 'm'
    ensures StableLocation(order, loc)
  {
    hide RuleKept, StableEntries, Entries, EntryLines, LocationLines;
    EntriesKept(es, loc);
    LocationLinesAreEntryLines(order, loc);
  }

  lemma EntryKinds(es: seq<Entry>, loc: Fields)
    requires forall i :: 0 <= i < |es| ==> RuleKept(es[i].kind, es[i].rule, loc) && 'a' <= es[i].kind <= 'z' && es[i].kind != 'm'
    requires |ATTRIBUTES| == 38 && forall i :: 0 <= i < 38 ==> RuleKept('a', ATTRIBUTES[i], loc)
    ensures forall e <- es + EntriesOf('a', ATTRIBUTES) :: RuleKept(e.kind, e.rule, loc) && 'a' <= e.kind <= 'z' && e.kind != 'm'
  {
    hide RuleKept, ATTRIBUTES;
  }

  // ---- Sections ----

  /** The members that the media section code writes. */
  predicate SectionKey(key: Key) {
    match key
    case Type => true case Port => true case Protocol => true case Payloads => true case SctpPort => true case MaxMessageSize => true
    case Connection => true case Rtp => true case Fmtp => true case RtcpFb => true case Ext => true case ExtmapAllowMixed => true
    case Setup => true case Mid => true case Direction => true case IceUfrag => true case IcePwd => true case Candidates => true
    case EndOfCandidates => true case IceOptions => true case Ssrcs => true case SsrcGroups => true case RtcpMux => true
    case RtcpRsize => true case Rids => true case Simulcast => true case _ => false
  }

  predicate HeadKey(key: Key) {
    key.Type? || key.Port? || key.Protocol? || key.Payloads? || key.SctpPort? || key.MaxMessageSize?
  }

  /** Every member belongs to a media section and has the form that the member needs. */
  ghost predicate MembersFit(m: Fields) { forall k <- m.Keys :: SectionKey(k) && (HeadKey(k) || MemberFits(k, m[k])) }

  /** A media section as the constructors build it. */
  ghost predicate WellFormed(m: Fields) { MediaFields(m) && MembersFit(m) }

  lemma MediaUnbroken(m: Fields)
    requires MediaFields(m)
    ensures '\n' !in Content(MEDIA, m)
  {
    hide P, Plain, Content;
    assert !In(Word(""), '\n') && !In(Digit, '\n') && !In(Word("/"), '\n') && !In(Dot, '\n');
    ElementUnbroken(MEDIA, m);
  }

  lemma NotHead(key: Key)
    requires Position(key) < 38
    ensures !HeadKey(key)
  {
    hide Position;
    HeadPositions();
    DataPositions();
  }

  lemma HeadPositions()
    ensures Position(Type) == Position(Port) == Position(Protocol) == 38
  {}

  lemma DataPositions()
    ensures Position(Payloads) == Position(SctpPort) == Position(MaxMessageSize) == 38
  {}

  lemma NotListed()
    ensures !SectionKey(Description) && !SectionKey(Bandwidth) && !HeadKey(Connection) && !IsArray(Connection)
  {}

  lemma ConnectionFits(v: Json)
    requires MemberFits(Connection, v)
    ensures ValueKept('c', CONNECTION, v)
  {
    hide ConnectionFields, ValueKept, P;
    ConnectionKept(v.fields);
  }

  lemma InnerKept(m: Fields)
    requires WellFormed(m)
    ensures |INNER| == 3 && forall i :: 0 <= i < 3 ==> RuleKept(INNER[i].kind, INNER[i].rule, m) && INNER[i].kind in "icb"
  {
    hide MemberFits, MediaFields, RuleKept, ValueKept, SectionKey, HeadKey, IsArray;
    NotListed();
    AbsentKept('i', TextRule(Description), m);
    AbsentKept('b', BANDWIDTH, m);
    if Connection in m {
      ConnectionFits(m[Connection]);
      OneKept('c', CONNECTION, m);
    } else {
      AbsentKept('c', CONNECTION, m);
    }
  }

  lemma NoInvalidMember(m: Fields)
    requires MembersFit(m)
    ensures Invalid !in m
  {
    hide MemberFits;
    assert !SectionKey(Invalid);
  }

  /** A well-formed section keeps all its lines. */
  lemma WellFormedIsStable(m: Fields)
    requires WellFormed(m)
    ensures StableMedia(m)
  {
    hide MemberFits, MediaFields, RuleKept, Content, P, ATTRIBUTES, INNER, Position, StableLocation, Entries, HeadKey,
      SectionKey, ValueFits;
    NoInvalidMember(m);
    MediaUnbroken(m);
    InnerKept(m);
    Places();
    forall i | 0 <= i < 38 ensures RuleKept('a', ATTRIBUTES[i], m) {
      Positions(i);
      NotHead(ATTRIBUTES[i].key);
      AttributeKept(i, m);
    }
    EntryKinds(INNER, m);
    InnerEntries();
    LocationKept(INNER_ORDER, INNER + EntriesOf('a', ATTRIBUTES), m);
  }

  // ---- Sessions ----

  predicate SessionKey(key: Key) {
    OwnLine(key) || key.Icelite? || key.MsidSemantic? || key.Fingerprint? || key.Groups?
  }

  predicate OwnLine(key: Key) { key.Version? || key.Origin? || key.Name? || key.Timing? || key.Media? }

  /** A session as `RemoteSdp` keeps it. */
  ghost predicate WellFormedSession(s: Fields) {
    Version in s && s[Version] == Num(0) && Name in s && s[Name] == Str("-")
    && Origin in s && s[Origin].Obj? && OriginFields(s[Origin].fields)
    && Timing in s && s[Timing].Obj? && TimingFields(s[Timing].fields)
    && Media in s && s[Media].Arr? && (forall m <- s[Media].elems :: WellFormed(FieldsOf(m)))
    && forall k <- s.Keys :: SessionKey(k) && (OwnLine(k) || MemberFits(k, s[k]))
  }

  lemma NotOwnLine(key: Key)
    requires Position(key) < 38
    ensures !OwnLine(key)
  {
    hide Position;
    OwnPositions();
    MoreOwnPositions();
  }

  lemma OwnPositions()
    ensures Position(Version) == Position(Origin) == Position(Name) == 38
  {}

  lemma MoreOwnPositions()
    ensures Position(Timing) == Position(Media) == 38
  {}

  lemma VersionKept()
    ensures ValueKept('v', VERSION, Num(0)) && ValueKept('s', TextRule(Name), Str("-"))
  {
    hide KeepsLine;
    VersionLine(0);
    NameLine("-");
    assert Dec(0) == "0" && '\n' !in Dec(0) && '\n' !in "-";
  }

  /** The members of the lines before and after the attributes that a session of this kind never has. */
  lemma OuterAbsent(i: nat)
    requires i < 12 && i != 0 && i != 1 && i != 2 && i != 9
    ensures |OUTER| == 12 && !SessionKey(OUTER[i].rule.key)
  {}

  lemma OuterKinds()
    ensures |OUTER| == 12 && OUTER[0] == Entry('v', VERSION) && OUTER[1] == Entry('o', ORIGIN)
    ensures OUTER[2] == Entry('s', TextRule(Name)) && OUTER[9] == Entry('t', TIMING)
    ensures forall i :: 0 <= i < 12 ==> 'a' <= OUTER[i].kind <= 'z' && OUTER[i].kind != 'm'
  {}

  lemma OuterKept(s: Fields, i: nat)
    requires WellFormedSession(s) && i < 12
    ensures |OUTER| == 12 && RuleKept(OUTER[i].kind, OUTER[i].rule, s)
  {
    hide MemberFits, RuleKept, ValueKept, WellFormed, OriginFields, TimingFields, OUTER, SessionKey, OwnLine;
    OuterKinds();
    VersionKept();
    OriginKept(s[Origin].fields);
    TimingKept(s[Timing].fields);
    if i == 0 || i == 1 || i == 2 || i == 9 {
      OneKept(OUTER[i].kind, OUTER[i].rule, s);
    } else {
      OuterAbsent(i);
      AbsentKept(OUTER[i].kind, OUTER[i].rule, s);
    }
  }

  lemma NoInvalidLine(s: Fields)
    requires WellFormedSession(s)
    ensures Invalid !in s
  {
    hide MemberFits, WellFormed;
  }

  lemma SessionLocation(s: Fields)
    requires WellFormedSession(s)
    ensures StableLocation(OUTER_ORDER, s)
  {
    hide MemberFits, RuleKept, ATTRIBUTES, OUTER, Position, StableLocation, Entries, OriginFields, TimingFields, WellFormed,
      OwnLine, SessionKey;
    NoInvalidLine(s);
    Places();
    OuterKinds();
    forall i | 0 <= i < 12 ensures RuleKept(OUTER[i].kind, OUTER[i].rule, s) {
      OuterKept(s, i);
    }
    forall i | 0 <= i < 38 ensures RuleKept('a', ATTRIBUTES[i], s) {
      Positions(i);
      NotOwnLine(ATTRIBUTES[i].key);
      AttributeKept(i, s);
    }
    EntryKinds(OUTER, s);
    OuterEntries();
    LocationKept(OUTER_ORDER, OUTER + EntriesOf('a', ATTRIBUTES), s);
  }

  lemma DefaultsKeep(s: Fields)
    requires Version in s && Name in s && Media in s && s[Media].Arr?
    ensures Defaults(s) == s[Media := Arr(seq(|s[Media].elems|, i requires 0 <= i < |s[Media].elems| => WithPayloads(s[Media].elems[i])))]
  {}

  lemma OtherTexts(o: Fields)
    ensures forall k :: k != Payloads ==> P(o[Payloads := Str("")], k) == P(o, k)
    ensures P(o[Payloads := Str("")], Payloads) == ""
  {}

  lemma HeadWithPayloads(o: Fields)
    requires MediaFields(o)
    ensures MediaFields(o[Payloads := Str("")])
  {
    hide P, Plain;
    OtherTexts(o);
    PlainWithPayloads(o);
  }

  lemma PayloadsFit(m: Json)
    requires WellFormed(FieldsOf(m))
    ensures WellFormed(FieldsOf(WithPayloads(m)))
  {
    hide MemberFits, MediaFields, ValueFits, P;
    var m', o := FieldsOf(WithPayloads(m)), FieldsOf(m);
    if Payloads !in o {
      HeadWithPayloads(o);
      assert SectionKey(Payloads) && HeadKey(Payloads);
    } else {
      assert m' == o;
    }
  }

  lemma PlainWithPayloads(o: Fields)
    requires Plain(MEDIA, o)
    ensures Plain(MEDIA, o[Payloads := Str("")])
  {
    hide StableText, Print;
    var n, o' := MEDIA.names, o[Payloads := Str("")];
    forall i | 0 <= i < |n| && n[i] in o'
      ensures (o'[n[i]].Str? || o'[n[i]].Num?) && (P(o', n[i]) != "" ==> StableText(P(o', n[i]), MEDIA.types[i]))
    {
      if n[i] == Payloads { EmptyPrints(); }
    }
  }

  lemma EmptyPrints()
    ensures Print(Str("")) == ""
  {}

  /** A well-formed session is printed in normal form. */
  lemma WellFormedPrints(s: Fields)
    requires WellFormedSession(s)
    ensures Written(Parser.Parsed(Written(s))) == Written(s)
  {
    hide MemberFits, WellFormed, StableMedia, StableLocation, Defaults, WithPayloads, OriginFields, TimingFields,
      Parser.Parsed, Written, SessionKey, OwnLine;
    var d := Defaults(s);
    DefaultsKeep(s);
    var media := s[Media].elems;
    assert d[Media].Arr? && |d[Media].elems| == |media|;
    forall m | m in d[Media].elems ensures WellFormed(FieldsOf(m)) && StableMedia(FieldsOf(m)) {
      var i :| 0 <= i < |media| && m == WithPayloads(media[i]);
      assert media[i] in media;
      PayloadsFit(media[i]);
      WellFormedIsStable(FieldsOf(m));
    }
    MediaIsOwn();
    assert WellFormedSession(d);
    SessionLocation(d);
    assert StableSession(d);
    PrintIsNormalForm(s);
  }

  lemma MediaIsOwn()
    ensures OwnLine(Media) && SessionKey(Media)
  {}
}
