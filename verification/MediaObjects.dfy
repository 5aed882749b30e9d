/**
  Whole media section objects: what the constructors build for an answer and for an offer, and
  what closing, disabling and the updates of the transport make of them
  (mssdk/sdputil/MediaSection.cpp).
 */
module MediaObjects {
  import opened Prelude
  import opened Regex
  import opened Text
  import opened Json
  import opened NamedRoundTrip
  import opened WellFormedness
  import opened Params
  import opened RtpParams
  import opened Sections

  // ---- Changes ----

  function WithIce(m: Fields, ice: IceParameters): Fields {
    m[IceUfrag := Str(ice.usernameFragment)][IcePwd := Str(ice.password)]
  }

  /** The setup attribute that a DTLS role asks for; any other role leaves it alone. */
  function SetupOf(role: string): Option<string> {
    if role == "client" then Some("active")
    else if role == "server" then Some("passive")
    else if role == "auto" then Some("actpass")
    else None
  }

  /** An offer is always actpass. */
  function WithRole(offer: bool, m: Fields, role: string): Fields {
    if offer then m[Setup := Str("actpass")]
    else if SetupOf(role).Some? then m[Setup := Str(SetupOf(role).value)]
    else m
  }

  const DROPPED: set<Key> := {Ext, Key.Ssrcs, Key.SsrcGroups, Key.Simulcast, Key.Rids}

  function Disabled(m: Fields): Fields { m[Key.Direction := Str("inactive")] - DROPPED }

  function Closed(m: Fields): Fields {
    m[Key.Direction := Str("inactive")][Port := Num(0)] - (DROPPED + {Key.ExtmapAllowMixed})
  }

  predicate IsClosed(m: Fields) { Port in m && m[Port] == Num(0) }

  /** What the code relies on in every section: a mid that is not empty and has no blanks, and a port. */
  predicate Identified(m: Fields) { Key.Mid in m && m[Key.Mid].Str? && MidFits(m[Key.Mid].s) && Port in m }

  predicate MidFits(mid: string) { mid != "" && All(NonSpace, mid) }

  function MidOf(m: Fields): string
    requires Identified(m)
  {
    m[Key.Mid].s
  }

  // ---- Construction ----

  function Common(ice: IceParameters, candidates: seq<IceCandidate>): Fields {
    WithIce(map[], ice)[Candidates := Arr(CandidateList(candidates))]
      [EndOfCandidates := Str("end-of-candidates")][IceOptions := Str("renomination")]
  }

  function Described(m: Fields, mid: string, kind: string, protocol: string): Fields {
    m[Key.Mid := Str(mid)][Type := Str(kind)][Protocol := Str(protocol)][Key.Connection := Obj(LOOPBACK)][Port := Num(7)]
  }

  function WithCodecs(m: Fields, direction: string, codecs: seq<Codec>): Fields {
    m[Key.Direction := Str(direction)][Key.Rtp := Arr(RtpList(codecs))][RtcpFb := Arr(FeedbackList(codecs))]
      [Fmtp := Arr(FmtpList(codecs))][Payloads := Str(PayloadsText(codecs))]
  }

  function WithMux(m: Fields): Fields { m[RtcpMux := Str("rtcp-mux")][RtcpRsize := Str("rtcp-rsize")] }

  function WithData(m: Fields, sctp: SctpParameters): Fields {
    m[Payloads := Str("webrtc-datachannel")][SctpPort := Num(sctp.port)][Key.MaxMessageSize := Num(sctp.maxMessageSize)]
  }

  function PutFlag(ps: seq<Param>, name: string, flag: Option<bool>): seq<Param> {
    if flag.Some? then Put(ps, name, Num(if flag.value then 1 else 0)) else ps
  }

  /** get<uint32_t> of an option. */
  function PutNumber(ps: seq<Param>, name: string, n: Option<nat>): seq<Param> {
    if n.Some? then Put(ps, name, Num(n.value % TWO_32)) else ps
  }

  const VIDEO_MIMES := ["video/vp8", "video/vp9", "video/h264", "video/h265"]

  /** The parameters of an answered codec with the options of the application. */
  function AnswerParameters(c: Codec, options: CodecOptions): seq<Param> {
    var mime := Lower(c.mimeType);
    if mime == "audio/opus" then
      var p1 := PutFlag(c.parameters, "stereo", options.opusStereo);
      var p2 := PutFlag(p1, "useinbandfec", options.opusFec);
      var p3 := PutFlag(p2, "usedtx", options.opusDtx);
      var p4 := PutFlag(p3, "cbr", options.opusCbr);
      var p5 := PutNumber(p4, "maxplaybackrate", options.opusMaxPlaybackRate);
      var p6 := PutNumber(p5, "maxaveragebitrate", options.opusMaxAverageBitrate);
      PutNumber(p6, "ptime", options.opusPtime)
    else if mime in VIDEO_MIMES then
      var p1 := PutNumber(c.parameters, "x-google-start-bitrate", options.videoGoogleStartBitrate);
      var p2 := PutNumber(p1, "x-google-max-bitrate", options.videoGoogleMaxBitrate);
      PutNumber(p2, "x-google-min-bitrate", options.videoGoogleMinBitrate)
    else c.parameters
  }

  /** The parameters of the offered codec that an answered codec belongs to. */
  function OfferParameters(answer: Codec, offered: seq<Param>, options: CodecOptions): seq<Param> {
    if Lower(answer.mimeType) == "audio/opus" then
      var p1 := PutFlag(offered, "sprop-stereo", options.opusStereo);
      var p2 := PutFlag(p1, "useinbandfec", options.opusFec);
      var p3 := PutFlag(p2, "usedtx", options.opusDtx);
      PutFlag(p3, "cbr", options.opusCbr)
    else offered
  }

  function Tuned(c: Codec, options: Option<CodecOptions>): Codec {
    if options.Some? then c.(parameters := AnswerParameters(c, options.value)) else c
  }

  function TunedAll(cs: seq<Codec>, options: Option<CodecOptions>): seq<Codec> {
    seq(|cs|, i requires 0 <= i < |cs| => Tuned(cs[i], options))
  }

  function WithSimulcast(m: Fields, simulcast: Option<OfferSimulcast>): Fields {
    if simulcast.Some?
    then m[Key.Simulcast := Obj(SimulcastObject(simulcast.value.list1))][Key.Rids := Arr(RidList(simulcast.value.rids))]
    else m
  }

  function WithAnswer(m: Fields, offer: OfferMedia, codecs: seq<Codec>, exts: seq<HeaderExtension>): Fields {
    var m1 := WithCodecs(m, "recvonly", codecs);
    var m2 := m1[Ext := Arr(ExtList(Offered(exts, offer.extUris)))];
    var m3 := if offer.extmapAllowMixed then m2[Key.ExtmapAllowMixed := Str("extmap-allow-mixed")] else m2;
    WithMux(WithSimulcast(m3, offer.simulcast))
  }

  /** The object of an AnswerMediaSection. */
  function AnswerObject(ice: IceParameters, candidates: seq<IceCandidate>, role: string, sctp: SctpParameters,
                        offer: OfferMedia, answer: RtpParameters, options: Option<CodecOptions>): Fields {
    var m := WithRole(false, Described(Common(ice, candidates), offer.mid, offer.kind, offer.protocol), role);
    if IsMedia(offer.kind) then WithAnswer(m, offer, TunedAll(answer.codecs, options), answer.headerExtensions)
    else if offer.kind == "application" then WithData(m, sctp)
    else m
  }

  function Ssrc(e: Encoding): nat { e.ssrc % TWO_32 }

  /** No retransmission is 0. */
  function RtxSsrc(e: Encoding): nat { if e.rtx.Some? then e.rtx.value % TWO_32 else 0 }

  function SsrcList(e: Encoding, cname: string, msid: string): seq<Json> {
    [Obj(SsrcObject(Ssrc(e), "cname", cname)), Obj(SsrcObject(Ssrc(e), "msid", msid))]
      + if RtxSsrc(e) != 0 then [Obj(SsrcObject(RtxSsrc(e), "cname", cname)), Obj(SsrcObject(RtxSsrc(e), "msid", msid))] else []
  }

  function GroupList(e: Encoding): seq<Json> {
    if RtxSsrc(e) != 0 then [Obj(GroupObject(Dec(Ssrc(e)) + " " + Dec(RtxSsrc(e))))] else []
  }

  /** Without a cname there are no lines for the sources. */
  function WithSources(m: Fields, e: Encoding, cname: Option<string>, msid: string): Fields {
    m[Key.Ssrcs := Arr(if cname.Some? then SsrcList(e, cname.value, msid) else [])]
      [Key.SsrcGroups := Arr(if cname.Some? then GroupList(e) else [])]
  }

  function WithOffer(m: Fields, params: RtpParameters, msid: string): Fields
    requires params.encodings != []
  {
    var m1 := WithCodecs(m, "sendonly", params.codecs)[Ext := Arr(ExtList(params.headerExtensions))];
    WithSources(WithMux(m1), params.encodings[0], params.cname, msid)
  }

  /** The object of an OfferMediaSection; without SCTP parameters it is for media. */
  function OfferObject(ice: IceParameters, candidates: seq<IceCandidate>, sctp: Option<SctpParameters>,
                       mid: string, kind: string, params: RtpParameters, streamId: string, trackId: string): Fields
    requires IsMedia(kind) ==> params.encodings != []
    requires kind == "application" ==> sctp.Some?
  {
    var protocol := if sctp.None? then "UDP/TLS/RTP/SAVPF" else "UDP/DTLS/SCTP";
    var m := WithRole(true, Described(Common(ice, candidates), mid, kind, protocol), "");
    if IsMedia(kind) then WithOffer(m, params, streamId + " " + trackId)
    else if kind == "application" then WithData(m, sctp.value)
    else m
  }

  // ---- Every object is well formed ----

  predicate TransportFits(ice: IceParameters, candidates: seq<IceCandidate>) {
    All(NonSpace, ice.usernameFragment) && All(NonSpace, ice.password) && forall c <- candidates :: CandidateFits(c)
  }

  lemma SetString(m: Fields, key: Key, s: string)
    requires WellFormed(m) && IsString(key) && All(if key.Setup? then Word("") else NonSpace, s)
    ensures WellFormed(m[key := Str(s)])
  {
    hide WellFormed, All;
    Set(m, key, Str(s));
  }

  lemma SetWord(m: Fields, key: Key, s: string)
    requires WellFormed(m) && IsFlag(key) && !key.Icelite? && s in Words(key)
    ensures WellFormed(m[key := Str(s)])
  {
    hide WellFormed, Words;
    Set(m, key, Str(s));
  }

  lemma SetArray(m: Fields, key: Key, elems: seq<Json>)
    requires WellFormed(m) && IsArray(key) && !key.Groups? && ListFits(key, elems)
    ensures WellFormed(m[key := Arr(elems)])
  {
    hide WellFormed, ListFits, MemberFits;
    ListIsMember(key, elems);
    Set(m, key, Arr(elems));
  }

  lemma SetHead(m: Fields, key: Key, v: Json)
    requires WellFormed(m) && HeadKey(key) && HeadValue(key, v)
    ensures WellFormed(m[key := v])
  {
    hide WellFormed, HeadValue, MemberFits;
    Set(m, key, v);
  }

  lemma SetObject(m: Fields, key: Key, v: Json)
    requires WellFormed(m) && (key.Connection? || key.Simulcast?) && MemberFits(key, v)
    ensures WellFormed(m[key := v])
  {
    hide WellFormed, MemberFits;
    Set(m, key, v);
  }

  lemma WithIceFits(m: Fields, ice: IceParameters)
    requires WellFormed(m) && All(NonSpace, ice.usernameFragment) && All(NonSpace, ice.password)
    ensures WellFormed(WithIce(m, ice))
  {
    hide WellFormed, All;
    SetString(m, IceUfrag, ice.usernameFragment);
    SetString(m[IceUfrag := Str(ice.usernameFragment)], IcePwd, ice.password);
  }

  lemma SetupFits(role: string)
    ensures SetupOf(role).Some? ==> All(Word(""), SetupOf(role).value)
    ensures All(Word(""), "actpass")
  {}

  lemma WithRoleFits(offer: bool, m: Fields, role: string)
    requires WellFormed(m)
    ensures WellFormed(WithRole(offer, m, role))
  {
    hide WellFormed, All, SetupOf;
    SetupFits(role);
    if offer { SetString(m, Setup, "actpass"); }
    else if SetupOf(role).Some? { SetString(m, Setup, SetupOf(role).value); }
  }

  lemma DirectionsFit()
    ensures forall s <- ["inactive", "recvonly", "sendonly"] :: s in Words(Key.Direction)
  {
    assert Words(Key.Direction) == WAYS_OF_MEDIA;
  }

  lemma DroppedKeys()
    ensures forall k <- DROPPED + {Key.ExtmapAllowMixed} :: !HeadKey(k)
  {}

  /** Closing and disabling keep a section well formed. */
  lemma ClosedFits(m: Fields)
    requires WellFormed(m)
    ensures WellFormed(Closed(m)) && WellFormed(Disabled(m))
  {
    hide WellFormed, HeadKey, DROPPED;
    DirectionsFit();
    DroppedKeys();
    var m1 := m[Key.Direction := Str("inactive")];
    SetWord(m, Key.Direction, "inactive");
    assert HeadKey(Port) && HeadValue(Port, Num(0)) by { ZeroPort(); }
    SetHead(m1, Port, Num(0));
    Erased(m1, DROPPED);
    Erased(m1[Port := Num(0)], DROPPED + {Key.ExtmapAllowMixed});
  }

  lemma ZeroPort()
    ensures HeadKey(Port) && HeadValue(Port, Num(0)) && HeadValue(Port, Num(7))
  {}

  lemma CommonFits(ice: IceParameters, candidates: seq<IceCandidate>)
    requires TransportFits(ice, candidates)
    ensures WellFormed(Common(ice, candidates))
  {
    hide WellFormed, WithIce, CandidateFits, ListFits, Words;
    NothingIsWellFormed();
    WithIceFits(map[], ice);
    var m := WithIce(map[], ice);
    CandidateListFits(candidates);
    SetArray(m, Candidates, CandidateList(candidates));
    var m1 := m[Candidates := Arr(CandidateList(candidates))];
    assert "end-of-candidates" in Words(EndOfCandidates) by { WordsInUse(); }
    SetWord(m1, EndOfCandidates, "end-of-candidates");
    SetString(m1[EndOfCandidates := Str("end-of-candidates")], IceOptions, "renomination");
  }

  lemma WordsInUse()
    ensures "end-of-candidates" in Words(EndOfCandidates) && "extmap-allow-mixed" in Words(Key.ExtmapAllowMixed)
    ensures "rtcp-mux" in Words(RtcpMux) && "rtcp-rsize" in Words(RtcpRsize)
  {}

  lemma DescribedFits(m: Fields, mid: string, kind: string, protocol: string)
    requires WellFormed(m) && All(NonSpace, mid) && All(Word(""), kind) && All(Word("/"), protocol)
    ensures WellFormed(Described(m, mid, kind, protocol))
  {
    hide WellFormed, MemberFits, All;
    LoopbackFits();
    ZeroPort();
    SetString(m, Key.Mid, mid);
    var m1 := m[Key.Mid := Str(mid)];
    SetHead(m1, Type, Str(kind));
    var m2 := m1[Type := Str(kind)];
    SetHead(m2, Protocol, Str(protocol));
    var m3 := m2[Protocol := Str(protocol)];
    SetObject(m3, Key.Connection, Obj(LOOPBACK));
    SetHead(m3[Key.Connection := Obj(LOOPBACK)], Port, Num(7));
  }

  lemma WithCodecsFits(m: Fields, direction: string, codecs: seq<Codec>)
    requires WellFormed(m) && direction in ["recvonly", "sendonly"] && forall c <- codecs :: CodecFits(c)
    ensures WellFormed(WithCodecs(m, direction, codecs))
  {
    hide WellFormed, CodecFits, ListFits, All, RtpList, FeedbackList, FmtpList, PayloadsText, Words;
    DirectionsFit();
    RtpListFits(codecs);
    CodecListsFit(codecs);
    PayloadsTextFits(codecs);
    SetWord(m, Key.Direction, direction);
    var m1 := m[Key.Direction := Str(direction)];
    SetArray(m1, Key.Rtp, RtpList(codecs));
    var m2 := m1[Key.Rtp := Arr(RtpList(codecs))];
    SetArray(m2, RtcpFb, FeedbackList(codecs));
    var m3 := m2[RtcpFb := Arr(FeedbackList(codecs))];
    SetArray(m3, Fmtp, FmtpList(codecs));
    SetHead(m3[Fmtp := Arr(FmtpList(codecs))], Payloads, Str(PayloadsText(codecs)));
  }

  lemma WithMuxFits(m: Fields)
    requires WellFormed(m)
    ensures WellFormed(WithMux(m))
  {
    hide WellFormed, Words;
    WordsInUse();
    SetWord(m, RtcpMux, "rtcp-mux");
    SetWord(m[RtcpMux := Str("rtcp-mux")], RtcpRsize, "rtcp-rsize");
  }

  lemma WithDataFits(m: Fields, sctp: SctpParameters)
    requires WellFormed(m)
    ensures WellFormed(WithData(m, sctp))
  {
    hide WellFormed;
    assert All(Dot, "webrtc-datachannel");
    SetHead(m, Payloads, Str("webrtc-datachannel"));
    var m1 := m[Payloads := Str("webrtc-datachannel")];
    SetHead(m1, SctpPort, Num(sctp.port));
    SetHead(m1[SctpPort := Num(sctp.port)], Key.MaxMessageSize, Num(sctp.maxMessageSize));
  }

  predicate SimulcastOfferFits(simulcast: Option<OfferSimulcast>) {
    simulcast.Some? ==>
      All(STREAM, simulcast.value.list1) && simulcast.value.list1 != ""
      && forall rid <- simulcast.value.rids :: RidFits(rid)
  }

  const STREAM := Word("-~;,")

  lemma WithSimulcastFits(m: Fields, simulcast: Option<OfferSimulcast>)
    requires WellFormed(m) && SimulcastOfferFits(simulcast)
    ensures WellFormed(WithSimulcast(m, simulcast))
  {
    hide WellFormed, MemberFits, RidFits, ListFits, RidList, SimulcastObject, All;
    if simulcast.Some? {
      SimulcastFits(simulcast.value.list1);
      RidListFits(simulcast.value.rids);
      SetObject(m, Key.Simulcast, Obj(SimulcastObject(simulcast.value.list1)));
      SetArray(m[Key.Simulcast := Obj(SimulcastObject(simulcast.value.list1))], Key.Rids, RidList(simulcast.value.rids));
    }
  }

  predicate OfferMediaFits(offer: OfferMedia) {
    MidFits(offer.mid) && All(Word(""), offer.kind) && All(Word("/"), offer.protocol) && SimulcastOfferFits(offer.simulcast)
  }

  lemma WithAnswerFits(m: Fields, offer: OfferMedia, codecs: seq<Codec>, exts: seq<HeaderExtension>)
    requires WellFormed(m) && OfferMediaFits(offer) && (forall c <- codecs :: CodecFits(c)) && forall ext <- exts :: ExtensionFits(ext)
    ensures WellFormed(WithAnswer(m, offer, codecs, exts))
  {
    hide WellFormed, WithCodecs, CodecFits, ExtensionFits, ListFits, ExtList, Offered, WithSimulcast, WithMux, All, Words,
      SimulcastOfferFits;
    WithCodecsFits(m, "recvonly", codecs);
    var m1 := WithCodecs(m, "recvonly", codecs);
    OfferedMeans(exts, offer.extUris);
    ExtListFits(Offered(exts, offer.extUris));
    SetArray(m1, Ext, ExtList(Offered(exts, offer.extUris)));
    var m2 := m1[Ext := Arr(ExtList(Offered(exts, offer.extUris)))];
    WordsInUse();
    SetWord(m2, Key.ExtmapAllowMixed, "extmap-allow-mixed");
    var m3 := if offer.extmapAllowMixed then m2[Key.ExtmapAllowMixed := Str("extmap-allow-mixed")] else m2;
    WithSimulcastFits(m3, offer.simulcast);
    WithMuxFits(WithSimulcast(m3, offer.simulcast));
  }

  // ---- The options of the application keep the parameters fitting ----

  lemma {:induction false} PutFits(ps: seq<Param>, name: string, n: nat)
    requires (forall p <- ps :: ParamFits(p)) && All(Dot, name)
    ensures forall p <- Put(ps, name, Num(n)) :: ParamFits(p)
  {
    DecDigits(n);
    assert ParamFits(Param(name, Num(n)));
    hide ParamFits;
    if ps != [] && ps[0].name != name && !Less(name, ps[0].name) {
      assert forall p <- ps[1..] :: p in ps;
      PutFits(ps[1..], name, n);
    }
  }

  lemma PutFlagFits(ps: seq<Param>, name: string, flag: Option<bool>)
    requires (forall p <- ps :: ParamFits(p)) && All(Dot, name)
    ensures forall p <- PutFlag(ps, name, flag) :: ParamFits(p)
  {
    hide ParamFits, All, Put;
    if flag.Some? { PutFits(ps, name, if flag.value then 1 else 0); }
  }

  lemma PutNumberFits(ps: seq<Param>, name: string, n: Option<nat>)
    requires (forall p <- ps :: ParamFits(p)) && All(Dot, name)
    ensures forall p <- PutNumber(ps, name, n) :: ParamFits(p)
  {
    hide ParamFits, All, Put;
    if n.Some? { PutFits(ps, name, n.value % TWO_32); }
  }

  lemma OptionNames()
    ensures All(Dot, "stereo") && All(Dot, "useinbandfec") && All(Dot, "usedtx") && All(Dot, "cbr")
    ensures All(Dot, "maxplaybackrate") && All(Dot, "maxaveragebitrate") && All(Dot, "ptime")
  {}

  lemma VideoOptionNames()
    ensures All(Dot, "x-google-start-bitrate") && All(Dot, "x-google-max-bitrate") && All(Dot, "x-google-min-bitrate")
  {}

  lemma AnswerParametersFit(c: Codec, options: CodecOptions)
    requires forall p <- c.parameters :: ParamFits(p)
    ensures forall p <- AnswerParameters(c, options) :: ParamFits(p)
  {
    hide ParamFits, All, PutFlag, PutNumber, Lower;
    OptionNames();
    VideoOptionNames();
    var p1 := PutFlag(c.parameters, "stereo", options.opusStereo);
    var p2 := PutFlag(p1, "useinbandfec", options.opusFec);
    var p3 := PutFlag(p2, "usedtx", options.opusDtx);
    var p4 := PutFlag(p3, "cbr", options.opusCbr);
    var p5 := PutNumber(p4, "maxplaybackrate", options.opusMaxPlaybackRate);
    var p6 := PutNumber(p5, "maxaveragebitrate", options.opusMaxAverageBitrate);
    PutFlagFits(c.parameters, "stereo", options.opusStereo);
    PutFlagFits(p1, "useinbandfec", options.opusFec);
    PutFlagFits(p2, "usedtx", options.opusDtx);
    PutFlagFits(p3, "cbr", options.opusCbr);
    PutNumberFits(p4, "maxplaybackrate", options.opusMaxPlaybackRate);
    PutNumberFits(p5, "maxaveragebitrate", options.opusMaxAverageBitrate);
    PutNumberFits(p6, "ptime", options.opusPtime);
    var v1 := PutNumber(c.parameters, "x-google-start-bitrate", options.videoGoogleStartBitrate);
    PutNumberFits(c.parameters, "x-google-start-bitrate", options.videoGoogleStartBitrate);
    PutNumberFits(v1, "x-google-max-bitrate", options.videoGoogleMaxBitrate);
    PutNumberFits(PutNumber(v1, "x-google-max-bitrate", options.videoGoogleMaxBitrate), "x-google-min-bitrate", options.videoGoogleMinBitrate);
  }

  lemma TunedFits(cs: seq<Codec>, options: Option<CodecOptions>)
    requires forall c <- cs :: CodecFits(c)
    ensures forall c <- TunedAll(cs, options) :: CodecFits(c)
  {
    hide ParamFits, FeedbackFits, AnswerParameters, CodecName;
    forall c | c in TunedAll(cs, options) ensures CodecFits(c) {
      var i :| 0 <= i < |cs| && c == Tuned(cs[i], options);
      assert cs[i] in cs;
      if options.Some? { AnswerParametersFit(cs[i], options.value); }
    }
  }

  predicate ParametersFit(params: RtpParameters) {
    (forall c <- params.codecs :: CodecFits(c)) && forall ext <- params.headerExtensions :: ExtensionFits(ext)
  }

  /** The object of an answer is well formed when what it is made of is. */
  lemma AnswerFits(ice: IceParameters, candidates: seq<IceCandidate>, role: string, sctp: SctpParameters,
                   offer: OfferMedia, answer: RtpParameters, options: Option<CodecOptions>)
    requires TransportFits(ice, candidates) && OfferMediaFits(offer) && ParametersFit(answer)
    ensures var m := AnswerObject(ice, candidates, role, sctp, offer, answer, options);
            WellFormed(m) && Identified(m) && MidOf(m) == offer.mid && !IsClosed(m)
  {
    AnswerIdentified(ice, candidates, role, sctp, offer, answer, options);
    hide WellFormed, Common, Described, WithRole, WithAnswer, WithData, Tuned, CodecFits, ExtensionFits, TransportFits, All,
      SimulcastOfferFits, Identified;
    CommonFits(ice, candidates);
    DescribedFits(Common(ice, candidates), offer.mid, offer.kind, offer.protocol);
    var d := Described(Common(ice, candidates), offer.mid, offer.kind, offer.protocol);
    WithRoleFits(false, d, role);
    TunedFits(answer.codecs, options);
    WithAnswerFits(WithRole(false, d, role), offer, TunedAll(answer.codecs, options), answer.headerExtensions);
    WithDataFits(WithRole(false, d, role), sctp);
  }

  lemma AnswerIdentified(ice: IceParameters, candidates: seq<IceCandidate>, role: string, sctp: SctpParameters,
                         offer: OfferMedia, answer: RtpParameters, options: Option<CodecOptions>)
    requires MidFits(offer.mid)
    ensures var m := AnswerObject(ice, candidates, role, sctp, offer, answer, options);
            Identified(m) && MidOf(m) == offer.mid && !IsClosed(m)
  {
    hide Common, TunedAll, RtpList, FmtpList, FeedbackList, PayloadsText, MidFits, SetupOf, ExtList, Offered, RidList, SimulcastObject;
  }

  predicate SourceFits(cname: Option<string>, msid: string) { All(Dot, msid) && (cname.Some? ==> All(Dot, cname.value)) }

  lemma SourceListsFit(e: Encoding, cname: string, msid: string)
    requires All(Dot, cname) && All(Dot, msid)
    ensures ListFits(Key.Ssrcs, SsrcList(e, cname, msid)) && ListFits(Key.SsrcGroups, GroupList(e))
  {
    hide ElementFits, SsrcObject, GroupObject, All, Dec;
    SsrcElementFits(Ssrc(e), "cname", cname);
    SsrcElementFits(Ssrc(e), "msid", msid);
    SsrcElementFits(RtxSsrc(e), "cname", cname);
    SsrcElementFits(RtxSsrc(e), "msid", msid);
    SsrcPairIsDot(e);
    GroupElementFits(Dec(Ssrc(e)) + " " + Dec(RtxSsrc(e)));
  }

  lemma SsrcPairIsDot(e: Encoding)
    ensures All(Dot, Dec(Ssrc(e)) + " " + Dec(RtxSsrc(e)))
  {
    hide Dec;
    DecDigits(Ssrc(e));
    DecDigits(RtxSsrc(e));
  }

  lemma NoElements(key: Key)
    ensures ListFits(key, [])
  {}

  lemma WithSourcesFits(m: Fields, e: Encoding, cname: Option<string>, msid: string)
    requires WellFormed(m) && SourceFits(cname, msid)
    ensures WellFormed(WithSources(m, e, cname, msid))
  {
    hide WellFormed, ListFits, All, SsrcList, GroupList;
    NoElements(Key.Ssrcs);
    NoElements(Key.SsrcGroups);
    if cname.Some? { SourceListsFit(e, cname.value, msid); }
    var ssrcs := if cname.Some? then SsrcList(e, cname.value, msid) else [];
    SetArray(m, Key.Ssrcs, ssrcs);
    SetArray(m[Key.Ssrcs := Arr(ssrcs)], Key.SsrcGroups, if cname.Some? then GroupList(e) else []);
  }

  lemma WithOfferFits(m: Fields, params: RtpParameters, msid: string)
    requires WellFormed(m) && params.encodings != [] && ParametersFit(params) && SourceFits(params.cname, msid)
    ensures WellFormed(WithOffer(m, params, msid))
  {
    hide WellFormed, ListFits, All, WithCodecs, WithMux, WithSources, CodecFits, ExtensionFits, ExtList, SourceFits;
    WithCodecsFits(m, "sendonly", params.codecs);
    var m1 := WithCodecs(m, "sendonly", params.codecs);
    ExtListFits(params.headerExtensions);
    SetArray(m1, Ext, ExtList(params.headerExtensions));
    var m2 := m1[Ext := Arr(ExtList(params.headerExtensions))];
    WithMuxFits(m2);
    WithSourcesFits(WithMux(m2), params.encodings[0], params.cname, msid);
  }

  lemma ProtocolsFit()
    ensures All(Word("/"), "UDP/TLS/RTP/SAVPF") && All(Word("/"), "UDP/DTLS/SCTP")
  {}

  /** The object of an offer is well formed when what it is made of is. */
  lemma OfferFits(ice: IceParameters, candidates: seq<IceCandidate>, sctp: Option<SctpParameters>,
                  mid: string, kind: string, params: RtpParameters, streamId: string, trackId: string)
    requires IsMedia(kind) ==> params.encodings != []
    requires kind == "application" ==> sctp.Some?
    requires TransportFits(ice, candidates) && MidFits(mid) && All(Word(""), kind)
    requires ParametersFit(params) && SourceFits(params.cname, streamId + " " + trackId)
    ensures var m := OfferObject(ice, candidates, sctp, mid, kind, params, streamId, trackId);
            WellFormed(m) && Identified(m) && MidOf(m) == mid && !IsClosed(m)
  {
    OfferIdentified(ice, candidates, sctp, mid, kind, params, streamId, trackId);
    hide WellFormed, Common, Described, WithRole, WithOffer, WithData, CodecFits, ExtensionFits, TransportFits, All,
      SourceFits, Identified;
    CommonFits(ice, candidates);
    ProtocolsFit();
    var protocol := if sctp.None? then "UDP/TLS/RTP/SAVPF" else "UDP/DTLS/SCTP";
    DescribedFits(Common(ice, candidates), mid, kind, protocol);
    var d := Described(Common(ice, candidates), mid, kind, protocol);
    WithRoleFits(true, d, "");
    if IsMedia(kind) {
      WithOfferFits(WithRole(true, d, ""), params, streamId + " " + trackId);
    } else if kind == "application" {
      WithDataFits(WithRole(true, d, ""), sctp.value);
    }
  }

  lemma OfferIdentified(ice: IceParameters, candidates: seq<IceCandidate>, sctp: Option<SctpParameters>,
                        mid: string, kind: string, params: RtpParameters, streamId: string, trackId: string)
    requires IsMedia(kind) ==> params.encodings != []
    requires kind == "application" ==> sctp.Some?
    requires MidFits(mid)
    ensures var m := OfferObject(ice, candidates, sctp, mid, kind, params, streamId, trackId);
            Identified(m) && MidOf(m) == mid && !IsClosed(m)
  {
    hide Common, RtpList, FmtpList, FeedbackList, PayloadsText, MidFits, ExtList, SsrcList, GroupList;
  }
}
