/**
  The objects that the media section classes build and change
  (mssdk/sdputil/MediaSection.cpp), as values, and that they are always well formed.
 */
module Sections {
  import opened Regex
  import opened Text
  import opened Json
  import opened Grammar
  import opened LineRoundTrip
  import opened RuleRoundTrip
  import opened CandidateRoundTrip
  import opened OverlapRoundTrip
  import opened SessionRoundTrip
  import opened WellFormedness
  import opened Params
  import opened RtpParams

  // ---- Elements ----

  function CandidateObject(c: IceCandidate): Fields {
    var o := map[Component := Num(1), Foundation := Str(c.foundation), Ip := Str(c.address), Port := Num(c.port),
                 Priority := Num(c.priority), Transport := Str(c.protocol), Type := Str(c.kind)];
    if c.tcpType.Some? then o[Tcptype := Str(c.tcpType.value)] else o
  }

  function RtpObject(c: Codec): Fields {
    var o := map[Payload := Num(c.payloadType), Codec := Str(CodecName(c.mimeType)), Rate := Num(c.clockRate)];
    // get<uint8_t> cuts the number of channels down to a byte.
    if c.channels.Some? && c.channels.value % 256 > 1 then o[Encoding := Num(c.channels.value % 256)] else o
  }

  function FmtpObject(c: Codec): Fields { map[Payload := Num(c.payloadType), Key.Config := Str(Params.Config(c.parameters))] }

  function FeedbackObject(payloadType: nat, fb: Feedback): Fields {
    map[Payload := Num(payloadType), Type := Str(fb.kind), Subtype := Str(fb.parameter)]
  }

  function ExtObject(ext: HeaderExtension): Fields { map[Uri := Str(ext.uri), Value := Num(ext.id)] }

  function SsrcObject(ssrc: nat, attribute: string, value: string): Fields {
    map[Id := Num(ssrc), Attribute := Str(attribute), Value := Str(value)]
  }

  function GroupObject(ssrcs: string): Fields { map[Semantics := Str("FID"), Key.Ssrcs := Str(ssrcs)] }

  function RidObject(id: string): Fields { map[Id := Str(id), Key.Direction := Str("recv")] }

  function SimulcastObject(list1: string): Fields { map[Dir1 := Str("recv"), List1 := Str(list1)] }

  const LOOPBACK: Fields := map[Ip := Str("127.0.0.1"), Key.Version := Num(4)]

  // ---- What the elements have to be like ----

  predicate CandidateFits(c: IceCandidate) {
    All(NonSpace, c.foundation) && All(NonSpace, c.address) && c.port <= MAX_INT64 && c.priority <= MAX_INT64
    && All(NonSpace, c.protocol) && All(NonSpace, c.kind) && (c.tcpType.Some? ==> All(NonSpace, c.tcpType.value))
  }

  predicate FeedbackFits(fb: Feedback) {
    All(Word("-"), fb.kind) && All(Word("-"), fb.parameter) && !(fb.kind == "trr-int" && fb.parameter != "")
  }

  predicate ParamFits(p: Param) { All(Dot, PairText(p)) }

  predicate CodecFits(c: Codec) {
    All(Word("-."), CodecName(c.mimeType)) && c.payloadType <= MAX_INT64 && c.clockRate <= MAX_INT64
    && (forall p <- c.parameters :: ParamFits(p)) && forall fb <- c.rtcpFeedback :: FeedbackFits(fb)
  }

  predicate ExtensionFits(ext: HeaderExtension) { All(NonSpace, ext.uri) && ext.id <= MAX_INT64 }

  // ---- The elements keep their lines ----

  lemma Number(n: nat)
    requires n <= MAX_INT64
    ensures Print(Num(n)) == Dec(n) && All(Digit, Dec(n)) && Dec(n) != "" && StableText(Dec(n), 'd')
    ensures All(NonSpace, Dec(n)) && StableText(Dec(n), 's')
  {
    NumberIsCanonical(n);
  }

  lemma AnyText(s: string)
    ensures Print(Str(s)) == s && StableText(s, 's')
  {}

  lemma CandidateTexts(c: IceCandidate)
    ensures var o := CandidateObject(c);
            P(o, Component) == Dec(1) && P(o, Foundation) == c.foundation && P(o, Ip) == c.address && P(o, Port) == Dec(c.port)
            && P(o, Priority) == Dec(c.priority) && P(o, Transport) == c.protocol && P(o, Type) == c.kind
            && P(o, Tcptype) == (if c.tcpType.Some? then c.tcpType.value else "")
            && P(o, Raddr) == P(o, Rport) == P(o, Generation) == P(o, NetworkId) == P(o, NetworkCost) == ""
  {
    hide Dec;
  }

  lemma CandidateMembers(c: IceCandidate)
    requires c.port <= MAX_INT64 && c.priority <= MAX_INT64
    ensures Members(CANDIDATES, CandidateObject(c))
  {
    hide Dec, Print, StableText;
    Number(1);
    Number(c.port);
    Number(c.priority);
    AnyText(c.foundation);
    AnyText(c.address);
    AnyText(c.protocol);
    AnyText(c.kind);
    if c.tcpType.Some? { AnyText(c.tcpType.value); }
  }

  lemma CandidateElementFits(c: IceCandidate)
    requires CandidateFits(c)
    ensures ElementFits(Candidates, CandidateObject(c))
  {
    hide Dec, Print, StableText, All, P, CandidateObject, Members;
    CandidateMembers(c);
    CandidateTexts(c);
    Number(1);
    Number(c.port);
    Number(c.priority);
    NothingIsAll();
  }

  lemma NothingIsAll()
    ensures forall cls :: All(cls, "")
  {}

  lemma RtpElementFits(c: Codec)
    requires CodecFits(c)
    ensures ElementFits(Key.Rtp, RtpObject(c))
  {
    hide Dec, Print, StableText, All, CodecName;
    Number(c.payloadType);
    Number(c.clockRate);
    AnyText(CodecName(c.mimeType));
    NothingIsAll();
    if c.channels.Some? { Number(c.channels.value % 256); }
  }

  lemma FeedbackElementFits(payloadType: nat, fb: Feedback)
    requires FeedbackFits(fb) && payloadType <= MAX_INT64
    ensures ElementFits(RtcpFb, FeedbackObject(payloadType, fb))
  {
    hide Dec, Print, StableText, All;
    Number(payloadType);
    AnyText(fb.kind);
    AnyText(fb.parameter);
  }

  lemma ExtElementFits(ext: HeaderExtension)
    requires ExtensionFits(ext)
    ensures ElementFits(Ext, ExtObject(ext))
  {
    hide Dec, Print, StableText, All;
    Number(ext.id);
    AnyText(ext.uri);
    NothingIsAll();
  }

  lemma FmtpElementFits(c: Codec)
    requires c.payloadType <= MAX_INT64 && forall p <- c.parameters :: ParamFits(p)
    ensures ElementFits(Fmtp, FmtpObject(c))
  {
    hide Dec, Print, StableText, All, Params.Config, ParamFits;
    Number(c.payloadType);
    AnyText(Params.Config(c.parameters));
    ConfigIsDot(c.parameters);
  }

  lemma {:induction false} JoinIsDot(v: seq<string>, d: char)
    requires In(Dot, d) && forall t <- v :: All(Dot, t)
    ensures All(Dot, Join(v, d))
  {
    if |v| > 1 {
      assert forall t <- v[1..] :: t in v;
      JoinIsDot(v[1..], d);
      assert v[0] in v;
    } else if |v| == 1 {
      assert v[0] in v;
    }
  }

  lemma ConfigIsDot(ps: seq<Param>)
    requires forall p <- ps :: ParamFits(p)
    ensures All(Dot, Params.Config(ps))
  {
    hide All, PairText;
    forall t | t in Pairs(ps) ensures All(Dot, t) {
      var i :| 0 <= i < |ps| && t == PairText(ps[i]);
      assert ps[i] in ps;
    }
    JoinIsDot(Pairs(ps), ';');
  }

  lemma SsrcElementFits(ssrc: nat, attribute: string, value: string)
    requires ssrc <= MAX_INT64 && (attribute == "cname" || attribute == "msid") && All(Dot, value)
    ensures ElementFits(Key.Ssrcs, SsrcObject(ssrc, attribute, value))
  {
    hide Dec, Print, StableText;
    Number(ssrc);
    AnyText(attribute);
    AnyText(value);
  }

  lemma GroupElementFits(ssrcs: string)
    requires All(Dot, ssrcs)
    ensures ElementFits(Key.SsrcGroups, GroupObject(ssrcs))
  {
    hide Print, StableText;
    AnyText("FID");
    AnyText(ssrcs);
  }

  lemma RidElementFits(id: string)
    requires All(Word(""), id) && id != ""
    ensures ElementFits(Key.Rids, RidObject(id))
  {
    hide Print, StableText, Occurs;
    AnyText(id);
    AnyText("recv");
    NoFlagWithoutDash("");
  }

  lemma SimulcastFits(list1: string)
    requires All(STREAM_LIST, list1) && list1 != ""
    ensures MemberFits(Key.Simulcast, Obj(SimulcastObject(list1)))
  {
    hide Print, StableText, All;
    AnyText(list1);
    AnyText("recv");
  }

  lemma LoopbackTexts()
    ensures P(LOOPBACK, Ip) == "127.0.0.1" && P(LOOPBACK, Key.Version) == "4" && P(LOOPBACK, Ttl) == ""
  {
    assert Dec(4) == "4";
  }

  lemma LoopbackClasses()
    ensures All(Except("\\S/"), "127.0.0.1") && '\n' !in "127.0.0.1" && All(Digit, "4") && All(Digit, "")
  {}

  lemma LoopbackMembers()
    ensures Members(CONNECTION, LOOPBACK)
  {
    hide StableText, Print;
    NumberIsCanonical(4);
    AnyText("127.0.0.1");
  }

  lemma LoopbackFits()
    ensures MemberFits(Key.Connection, Obj(LOOPBACK))
  {
    hide StableText, All, P, Members;
    LoopbackTexts();
    LoopbackClasses();
    LoopbackMembers();
  }

  // ---- Lists ----

  function CandidateList(cs: seq<IceCandidate>): seq<Json> { seq(|cs|, i requires 0 <= i < |cs| => Obj(CandidateObject(cs[i]))) }

  function RtpList(cs: seq<Codec>): seq<Json> { seq(|cs|, i requires 0 <= i < |cs| => Obj(RtpObject(cs[i]))) }

  /** A codec without parameters gets no fmtp element. */
  function FmtpList(cs: seq<Codec>): seq<Json> {
    if cs == [] then []
    else
      var c := cs[|cs| - 1];
      FmtpList(cs[..|cs| - 1]) + if Params.Config(c.parameters) == "" then [] else [Obj(FmtpObject(c))]
  }

  function CodecFeedback(c: Codec): seq<Json> {
    seq(|c.rtcpFeedback|, i requires 0 <= i < |c.rtcpFeedback| => Obj(FeedbackObject(c.payloadType, c.rtcpFeedback[i])))
  }

  function FeedbackList(cs: seq<Codec>): seq<Json> {
    if cs == [] then [] else FeedbackList(cs[..|cs| - 1]) + CodecFeedback(cs[|cs| - 1])
  }

  /** The payload types, each cut down to a byte by get<uint8_t>. */
  function PayloadTypes(cs: seq<Codec>): seq<nat> { seq(|cs|, i requires 0 <= i < |cs| => cs[i].payloadType % 256) }

  function PayloadsText(cs: seq<Codec>): string { Join(Decs(PayloadTypes(cs)), ' ') }

  function ExtList(exts: seq<HeaderExtension>): seq<Json> { seq(|exts|, i requires 0 <= i < |exts| => Obj(ExtObject(exts[i]))) }

  /** The header extensions that are in the offer too. */
  function Offered(exts: seq<HeaderExtension>, uris: seq<string>): seq<HeaderExtension> {
    if exts == [] then []
    else
      var ext := exts[|exts| - 1];
      Offered(exts[..|exts| - 1], uris) + if ext.uri in uris then [ext] else []
  }

  /** The identifiers that the offer sends, to be received. */
  function RidList(rids: seq<OfferRid>): seq<Json> {
    if rids == [] then []
    else
      var rid := rids[|rids| - 1];
      RidList(rids[..|rids| - 1]) + if rid.direction == "send" then [Obj(RidObject(rid.id))] else []
  }

  ghost predicate ListFits(key: Key, elems: seq<Json>) { forall e <- elems :: ElementFits(key, FieldsOf(e)) }

  lemma ListIsMember(key: Key, elems: seq<Json>)
    requires IsArray(key) && ListFits(key, elems)
    ensures MemberFits(key, Arr(elems))
  {
    hide ElementFits, IsArray;
  }

  lemma CandidateListFits(cs: seq<IceCandidate>)
    requires forall c <- cs :: CandidateFits(c)
    ensures ListFits(Candidates, CandidateList(cs))
  {
    hide ElementFits, CandidateFits, CandidateObject;
    forall e | e in CandidateList(cs) ensures ElementFits(Candidates, FieldsOf(e)) {
      var i :| 0 <= i < |cs| && e == Obj(CandidateObject(cs[i]));
      assert cs[i] in cs;
      CandidateElementFits(cs[i]);
    }
  }

  lemma RtpListFits(cs: seq<Codec>)
    requires forall c <- cs :: CodecFits(c)
    ensures ListFits(Key.Rtp, RtpList(cs))
  {
    hide ElementFits, CodecFits, RtpObject;
    forall e | e in RtpList(cs) ensures ElementFits(Key.Rtp, FieldsOf(e)) {
      var i :| 0 <= i < |cs| && e == Obj(RtpObject(cs[i]));
      assert cs[i] in cs;
      RtpElementFits(cs[i]);
    }
  }

  lemma CodecFeedbackFits(c: Codec)
    requires CodecFits(c)
    ensures ListFits(RtcpFb, CodecFeedback(c))
  {
    hide ElementFits, FeedbackFits, FeedbackObject, CodecName;
    forall e | e in CodecFeedback(c) ensures ElementFits(RtcpFb, FieldsOf(e)) {
      var i :| 0 <= i < |c.rtcpFeedback| && e == Obj(FeedbackObject(c.payloadType, c.rtcpFeedback[i]));
      assert c.rtcpFeedback[i] in c.rtcpFeedback;
      FeedbackElementFits(c.payloadType, c.rtcpFeedback[i]);
    }
  }

  lemma CodecMeans(c: Codec)
    requires CodecFits(c)
    ensures c.payloadType <= MAX_INT64 && forall p <- c.parameters :: ParamFits(p)
  {
    hide FeedbackFits, ParamFits, CodecName;
  }

  lemma {:induction false} CodecListsFit(cs: seq<Codec>)
    requires forall c <- cs :: CodecFits(c)
    ensures ListFits(Fmtp, FmtpList(cs)) && ListFits(RtcpFb, FeedbackList(cs))
  {
    hide ElementFits, CodecFits, FmtpObject, CodecFeedback, Params.Config;
    if cs != [] {
      var front, c := cs[..|cs| - 1], cs[|cs| - 1];
      assert c in cs && forall x <- front :: x in cs;
      CodecListsFit(front);
      CodecMeans(c);
      FmtpElementFits(c);
      CodecFeedbackFits(c);
    }
  }

  lemma PayloadsTextFits(cs: seq<Codec>)
    ensures All(Dot, PayloadsText(cs))
  {
    hide Dec, Join, PayloadTypes;
    var ts := Decs(PayloadTypes(cs));
    forall t | t in ts ensures All(Dot, t) {
      var i :| 0 <= i < |ts| && t == ts[i];
      DecDigits(PayloadTypes(cs)[i]);
    }
    JoinIsDot(ts, ' ');
  }

  lemma ExtListFits(exts: seq<HeaderExtension>)
    requires forall ext <- exts :: ExtensionFits(ext)
    ensures ListFits(Ext, ExtList(exts))
  {
    hide ElementFits, ExtensionFits, ExtObject;
    forall e | e in ExtList(exts) ensures ElementFits(Ext, FieldsOf(e)) {
      var i :| 0 <= i < |exts| && e == Obj(ExtObject(exts[i]));
      assert exts[i] in exts;
      ExtElementFits(exts[i]);
    }
  }

  /** The offered extensions are exactly those with an offered URI, in the same order. */
  lemma {:induction false} OfferedMeans(exts: seq<HeaderExtension>, uris: seq<string>)
    ensures forall ext :: ext in Offered(exts, uris) <==> ext in exts && ext.uri in uris
  {
    if exts != [] {
      OfferedMeans(exts[..|exts| - 1], uris);
      assert exts == exts[..|exts| - 1] + [exts[|exts| - 1]];
    }
  }

  predicate RidFits(rid: OfferRid) { All(Word(""), rid.id) && rid.id != "" }

  lemma {:induction false} RidListFits(rids: seq<OfferRid>)
    requires forall rid <- rids :: RidFits(rid)
    ensures ListFits(Key.Rids, RidList(rids))
  {
    hide ElementFits, RidObject;
    if rids != [] {
      var front, rid := rids[..|rids| - 1], rids[|rids| - 1];
      assert rid in rids && forall x <- front :: x in rids;
      RidListFits(front);
      RidElementFits(rid.id);
    }
  }

  // ---- Setting members ----

  /** What the members of the m= line have to be like. */
  predicate HeadValue(key: Key, v: Json) {
    match key
    case Type => v.Str? && All(Word(""), v.s)
    case Port => v.Num? && 0 <= v.n <= MAX_INT64
    case Protocol => v.Str? && All(Word("/"), v.s)
    case Payloads => v.Str? && All(Dot, v.s)
    case _ => true
  }

  ghost predicate Settable(key: Key, v: Json) {
    SectionKey(key) && if HeadKey(key) then HeadValue(key, v) else MemberFits(key, v)
  }

  lemma TextAfter(m: Fields, key: Key, v: Json, k: Key)
    ensures P(m[key := v], k) == if k == key then Print(v) else P(m, k)
  {
    hide Print;
  }

  lemma HeadTexts(key: Key, v: Json)
    requires SectionKey(key) && HeadValue(key, v)
    ensures key.Type? ==> All(Word(""), Print(v)) && v.Str? && StableText(Print(v), 's')
    ensures key.Port? ==> All(Digit, Print(v)) && v.Num? && StableText(Print(v), 'd')
    ensures key.Protocol? ==> All(Word("/"), Print(v)) && v.Str? && StableText(Print(v), 's')
    ensures key.Payloads? ==> All(Dot, Print(v)) && v.Str? && StableText(Print(v), 's')
    ensures !key.NumPorts?
  {
    hide All, Dec, StableText;
    if key == Port {
      NumberIsCanonical(v.n);
    } else if key.Type? || key.Protocol? || key.Payloads? {
      AnyText(v.s);
    }
  }

  lemma MediaNamePlaces()
    ensures MEDIA.names == [Type, Port, NumPorts, Protocol, Payloads] && MEDIA.types == "sddss" && !SectionKey(NumPorts)
  {}

  lemma PlainAfter(m: Fields, key: Key, v: Json)
    requires Plain(MEDIA, m) && SectionKey(key) && HeadValue(key, v)
    ensures Plain(MEDIA, m[key := v])
  {
    hide StableText, HeadValue, SectionKey, P, Print, All, MEDIA;
    MediaNamePlaces();
    HeadTexts(key, v);
    var n, m' := MEDIA.names, m[key := v];
    forall i | 0 <= i < |n| && n[i] in m'
      ensures (m'[n[i]].Str? || m'[n[i]].Num?) && (P(m', n[i]) != "" ==> StableText(P(m', n[i]), MEDIA.types[i]))
    {
      TextAfter(m, key, v, n[i]);
    }
  }

  lemma HeadAfter(m: Fields, key: Key, v: Json)
    requires MediaFields(m) && SectionKey(key) && HeadValue(key, v)
    ensures MediaFields(m[key := v])
  {
    hide P, Plain, HeadValue, All, SectionKey, MEDIA, StableText, Print;
    PlainAfter(m, key, v);
    HeadTexts(key, v);
    TextAfter(m, key, v, Type);
    TextAfter(m, key, v, Port);
    TextAfter(m, key, v, NumPorts);
    TextAfter(m, key, v, Protocol);
    TextAfter(m, key, v, Payloads);
  }

  lemma NothingElse(key: Key, v: Json)
    requires !HeadKey(key)
    ensures HeadValue(key, v)
  {}

  /** Setting a member to a fitting value keeps a section well formed. */
  lemma Set(m: Fields, key: Key, v: Json)
    requires WellFormed(m) && Settable(key, v)
    ensures WellFormed(m[key := v])
  {
    hide MediaFields, MemberFits, HeadKey, HeadValue, SectionKey;
    if !HeadKey(key) { NothingElse(key, v); }
    HeadAfter(m, key, v);
  }

  lemma TextKept(m: Fields, keys: set<Key>, k: Key)
    requires k !in keys || k !in m
    ensures P(m - keys, k) == P(m, k)
  {
    hide Print;
  }

  lemma HeadErased(m: Fields, keys: set<Key>)
    requires MediaFields(m) && NumPorts !in m && forall k <- keys :: !HeadKey(k)
    ensures MediaFields(m - keys)
  {
    hide P, StableText, All, SectionKey, MEDIA;
    MediaNamePlaces();
    TextKept(m, keys, Type);
    TextKept(m, keys, Port);
    TextKept(m, keys, NumPorts);
    TextKept(m, keys, Protocol);
    TextKept(m, keys, Payloads);
  }

  /** Erasing members that are not in the m= line keeps a section well formed. */
  lemma Erased(m: Fields, keys: set<Key>)
    requires WellFormed(m) && forall k <- keys :: !HeadKey(k)
    ensures WellFormed(m - keys)
  {
    hide MemberFits, SectionKey, MediaFields, HeadKey;
    MediaNamePlaces();
    HeadErased(m, keys);
  }

  lemma NothingIsWellFormed()
    ensures WellFormed(map[])
  {
    hide All;
    NothingIsAll();
    assert forall k :: P(map[], k) == "";
  }
}
