/**
  Everything a media section holds, member by member: what the constructors put into it from their
  arguments, what the options of the application change, and what closing and disabling leave.
 */
module SectionContents {
  import opened Prelude
  import opened Regex
  import opened Text
  import opened Json
  import opened Params
  import opened RtpParams
  import opened Sections
  import opened MediaObjects

  // ---- The members of a section ----

  /** The members of every section of a transport, before its role. */
  function Start(ice: IceParameters, candidates: seq<IceCandidate>, mid: string, kind: string, protocol: string): Fields {
    map[
      IceUfrag := Str(ice.usernameFragment), IcePwd := Str(ice.password), Candidates := Arr(CandidateList(candidates)),
      EndOfCandidates := Str("end-of-candidates"), IceOptions := Str("renomination"),
      Key.Mid := Str(mid), Type := Str(kind), Protocol := Str(protocol), Port := Num(7),
      Key.Connection := Obj(map[Ip := Str("127.0.0.1"), Key.Version := Num(4)])]
  }

  function SetupMember(setup: string): Fields { map[Setup := Str(setup)] }

  lemma StartContents(ice: IceParameters, candidates: seq<IceCandidate>, mid: string, kind: string, protocol: string)
    ensures Described(MediaObjects.Common(ice, candidates), mid, kind, protocol) == Start(ice, candidates, mid, kind, protocol)
  {
    hide CandidateList;
  }

  /** A client is active, a server passive, and auto leaves it open; an offer always leaves it open. */
  lemma RoleContents(m: Fields, role: string)
    ensures WithRole(false, m, "client") == m + SetupMember("active")
    ensures WithRole(false, m, "server") == m + SetupMember("passive")
    ensures WithRole(false, m, "auto") == m + SetupMember("actpass")
    ensures role != "client" && role != "server" && role != "auto" ==> WithRole(false, m, role) == m
    ensures WithRole(true, m, role) == m + SetupMember("actpass")
  {}

  function CodecMembers(offer: OfferMedia, codecs: seq<Codec>, exts: seq<HeaderExtension>): Fields {
    map[Key.Direction := Str("recvonly"), Key.Rtp := Arr(RtpList(codecs)), RtcpFb := Arr(FeedbackList(codecs)),
        Fmtp := Arr(FmtpList(codecs)), Payloads := Str(PayloadsText(codecs)), Ext := Arr(ExtList(Offered(exts, offer.extUris)))]
  }

  function MixedMembers(offer: OfferMedia): Fields {
    if offer.extmapAllowMixed then map[Key.ExtmapAllowMixed := Str("extmap-allow-mixed")] else map[]
  }

  function SimulcastMembers(offer: OfferMedia): Fields {
    if offer.simulcast.Some?
    then map[Key.Simulcast := Obj(map[Dir1 := Str("recv"), List1 := Str(offer.simulcast.value.list1)]),
             Key.Rids := Arr(RidList(offer.simulcast.value.rids))]
    else map[]
  }

  const MUX_MEMBERS: Fields := map[RtcpMux := Str("rtcp-mux"), RtcpRsize := Str("rtcp-rsize")]

  /** The members that an answer for media gets from its codecs and extensions, and from the offer. */
  function Answered(offer: OfferMedia, codecs: seq<Codec>, exts: seq<HeaderExtension>): Fields {
    CodecMembers(offer, codecs, exts) + MixedMembers(offer) + SimulcastMembers(offer) + MUX_MEMBERS
  }

  lemma CodecPart(m: Fields, offer: OfferMedia, codecs: seq<Codec>, exts: seq<HeaderExtension>)
    ensures WithCodecs(m, "recvonly", codecs)[Ext := Arr(ExtList(Offered(exts, offer.extUris)))] == m + CodecMembers(offer, codecs, exts)
  {
    hide RtpList, FeedbackList, FmtpList, PayloadsText, ExtList, Offered;
  }

  lemma MixedPart(m: Fields, offer: OfferMedia)
    ensures (if offer.extmapAllowMixed then m[Key.ExtmapAllowMixed := Str("extmap-allow-mixed")] else m) == m + MixedMembers(offer)
  {}

  lemma SimulcastPart(m: Fields, offer: OfferMedia)
    ensures WithSimulcast(m, offer.simulcast) == m + SimulcastMembers(offer)
  {
    hide RidList;
  }

  lemma MuxPart(m: Fields)
    ensures WithMux(m) == m + MUX_MEMBERS
  {}

  lemma SumOfFour(m: Fields, a: Fields, b: Fields, c: Fields, d: Fields)
    ensures m + a + b + c + d == m + (a + b + c + d)
  {}

  lemma WithAnswerContents(m: Fields, offer: OfferMedia, codecs: seq<Codec>, exts: seq<HeaderExtension>)
    ensures WithAnswer(m, offer, codecs, exts) == m + Answered(offer, codecs, exts)
  {
    hide WithCodecs, CodecMembers, MixedMembers, SimulcastMembers, MUX_MEMBERS, WithSimulcast, WithMux, ExtList, Offered;
    CodecPart(m, offer, codecs, exts);
    var m1 := m + CodecMembers(offer, codecs, exts);
    MixedPart(m1, offer);
    SimulcastPart(m1 + MixedMembers(offer), offer);
    MuxPart(m1 + MixedMembers(offer) + SimulcastMembers(offer));
    SumOfFour(m, CodecMembers(offer, codecs, exts), MixedMembers(offer), SimulcastMembers(offer), MUX_MEMBERS);
  }

  /** What an answer for media holds: the start, the setup, and what the answer and the offer say. */
  lemma MediaAnswerContents(ice: IceParameters, candidates: seq<IceCandidate>, role: string, sctp: SctpParameters,
                            offer: OfferMedia, answer: RtpParameters, options: Option<CodecOptions>)
    requires IsMedia(offer.kind)
    ensures AnswerObject(ice, candidates, role, sctp, offer, answer, options)
         == WithRole(false, Start(ice, candidates, offer.mid, offer.kind, offer.protocol), role)
            + Answered(offer, TunedAll(answer.codecs, options), answer.headerExtensions)
  {
    hide MediaObjects.Common, Described, Start, WithRole, TunedAll, WithAnswer, Answered;
    StartContents(ice, candidates, offer.mid, offer.kind, offer.protocol);
    WithAnswerContents(WithRole(false, Start(ice, candidates, offer.mid, offer.kind, offer.protocol), role), offer,
                       TunedAll(answer.codecs, options), answer.headerExtensions);
  }

  /** The transport's members are not touched by the codecs. */
  predicate NoneOfTransport(m: Fields) { Setup !in m && IceUfrag !in m && IcePwd !in m }

  lemma AnsweredMembers(offer: OfferMedia, codecs: seq<Codec>, exts: seq<HeaderExtension>)
    ensures NoneOfTransport(Answered(offer, codecs, exts))
  {
    hide RtpList, FeedbackList, FmtpList, PayloadsText, ExtList, Offered, RidList;
    assert NoneOfTransport(CodecMembers(offer, codecs, exts));
    assert NoneOfTransport(MixedMembers(offer));
    assert NoneOfTransport(SimulcastMembers(offer));
    assert NoneOfTransport(MUX_MEMBERS);
    hide CodecMembers, MixedMembers, SimulcastMembers, MUX_MEMBERS;
  }

  function DataMembers(sctp: SctpParameters): Fields {
    map[Payloads := Str("webrtc-datachannel"), SctpPort := Num(sctp.port), Key.MaxMessageSize := Num(sctp.maxMessageSize)]
  }

  /** What an answer for data holds. */
  lemma DataAnswerContents(ice: IceParameters, candidates: seq<IceCandidate>, role: string, sctp: SctpParameters,
                           offer: OfferMedia, answer: RtpParameters, options: Option<CodecOptions>)
    requires offer.kind == "application"
    ensures AnswerObject(ice, candidates, role, sctp, offer, answer, options)
         == WithRole(false, Start(ice, candidates, offer.mid, offer.kind, offer.protocol), role)
            + DataMembers(sctp)
  {
    hide MediaObjects.Common, Described, Start, WithRole;
    StartContents(ice, candidates, offer.mid, offer.kind, offer.protocol);
  }

  function Sending(params: RtpParameters, msid: string): Fields
    requires params.encodings != []
  {
    map[Key.Direction := Str("sendonly"), Key.Rtp := Arr(RtpList(params.codecs)), RtcpFb := Arr(FeedbackList(params.codecs)),
        Fmtp := Arr(FmtpList(params.codecs)), Payloads := Str(PayloadsText(params.codecs)),
        Ext := Arr(ExtList(params.headerExtensions)), RtcpMux := Str("rtcp-mux"), RtcpRsize := Str("rtcp-rsize"),
        Key.Ssrcs := Arr(if params.cname.Some? then SsrcList(params.encodings[0], params.cname.value, msid) else []),
        Key.SsrcGroups := Arr(if params.cname.Some? then GroupList(params.encodings[0]) else [])]
  }

  lemma SendingMembers(params: RtpParameters, msid: string)
    requires params.encodings != []
    ensures NoneOfTransport(Sending(params, msid))
  {
    hide RtpList, FeedbackList, FmtpList, PayloadsText, ExtList, SsrcList, GroupList;
  }

  lemma WithOfferContents(m: Fields, params: RtpParameters, msid: string)
    requires params.encodings != []
    ensures WithOffer(m, params, msid) == m + Sending(params, msid)
  {
    hide RtpList, FeedbackList, FmtpList, PayloadsText, ExtList, SsrcList, GroupList;
  }

  /** What an offer for media holds: its one encoding gives the sources, when there is a cname. */
  lemma MediaOfferContents(ice: IceParameters, candidates: seq<IceCandidate>, mid: string, kind: string, params: RtpParameters,
                           streamId: string, trackId: string)
    requires IsMedia(kind) && params.encodings != []
    ensures OfferObject(ice, candidates, None, mid, kind, params, streamId, trackId)
         == Start(ice, candidates, mid, kind, "UDP/TLS/RTP/SAVPF") + SetupMember("actpass")
            + Sending(params, streamId + " " + trackId)
  {
    hide MediaObjects.Common, Described, Start, WithOffer, Sending, WithRole, SetupMember;
    RoleContents(Start(ice, candidates, mid, kind, "UDP/TLS/RTP/SAVPF"), "");
    StartContents(ice, candidates, mid, kind, "UDP/TLS/RTP/SAVPF");
    WithOfferContents(Start(ice, candidates, mid, kind, "UDP/TLS/RTP/SAVPF") + SetupMember("actpass"), params, streamId + " " + trackId);
  }

  lemma DataOfferContents(ice: IceParameters, candidates: seq<IceCandidate>, sctp: SctpParameters, mid: string, params: RtpParameters,
                          streamId: string, trackId: string)
    ensures OfferObject(ice, candidates, Some(sctp), mid, "application", params, streamId, trackId)
         == Start(ice, candidates, mid, "application", "UDP/DTLS/SCTP") + SetupMember("actpass")
            + DataMembers(sctp)
  {
    hide MediaObjects.Common, Described, Start;
    StartContents(ice, candidates, mid, "application", "UDP/DTLS/SCTP");
  }

  /** The lines of the one encoding of an offer, and its FID group when there is a retransmission. */
  lemma SourceContents(ssrc: nat, rtx: Option<nat>, cname: string, msid: string)
    requires ssrc < TWO_32 && (rtx.Some? ==> rtx.value < TWO_32)
    ensures var e := RtpEncoding(ssrc, rtx);
            var lines := [Obj(map[Id := Num(ssrc), Attribute := Str("cname"), Value := Str(cname)]),
                          Obj(map[Id := Num(ssrc), Attribute := Str("msid"), Value := Str(msid)])];
            (rtx.None? || rtx.value == 0 ==> SsrcList(e, cname, msid) == lines && GroupList(e) == [])
            && (rtx.Some? && rtx.value != 0 ==>
                  SsrcList(e, cname, msid) == lines + [Obj(map[Id := Num(rtx.value), Attribute := Str("cname"), Value := Str(cname)]),
                                                       Obj(map[Id := Num(rtx.value), Attribute := Str("msid"), Value := Str(msid)])]
                  && GroupList(e) == [Obj(map[Semantics := Str("FID"), Key.Ssrcs := Str(Dec(ssrc) + " " + Dec(rtx.value))])])
  {
    hide Dec;
  }

  // ---- Closing, disabling, updating ----

  /** Closing rejects the stream; disabling only stops it. Both drop what describes it, and nothing else changes. */
  lemma ClosedContents(m: Fields)
    ensures Closed(m) == m + map[Key.Direction := Str("inactive"), Port := Num(0)]
                         - {Ext, Key.Ssrcs, Key.SsrcGroups, Key.Simulcast, Key.Rids, Key.ExtmapAllowMixed}
    ensures Disabled(m) == m + map[Key.Direction := Str("inactive")] - {Ext, Key.Ssrcs, Key.SsrcGroups, Key.Simulcast, Key.Rids}
  {}

  lemma IceContents(m: Fields, ice: IceParameters)
    ensures WithIce(m, ice) == m + map[IceUfrag := Str(ice.usernameFragment), IcePwd := Str(ice.password)]
  {}

  // ---- Lists ----

  /** One element for each codec, extension and candidate, in their order. */
  lemma ListContents(codecs: seq<Codec>, exts: seq<HeaderExtension>, candidates: seq<IceCandidate>)
    ensures |RtpList(codecs)| == |codecs| && forall i :: 0 <= i < |codecs| ==> RtpList(codecs)[i] == Obj(RtpObject(codecs[i]))
    ensures |ExtList(exts)| == |exts| && forall i :: 0 <= i < |exts| ==> ExtList(exts)[i] == Obj(ExtObject(exts[i]))
    ensures |CandidateList(candidates)| == |candidates|
            && forall i :: 0 <= i < |candidates| ==> CandidateList(candidates)[i] == Obj(CandidateObject(candidates[i]))
  {
    hide RtpObject, ExtObject, CandidateObject;
  }

  /** The payload types of the m= line, cut to bytes. */
  lemma PayloadContents(codecs: seq<Codec>)
    ensures Tokens(PayloadsText(codecs), ' ') == seq(|codecs|, i requires 0 <= i < |codecs| => Dec(codecs[i].payloadType % 256))
  {
    hide Tokens, Join, Dec;
    var v := Decs(PayloadTypes(codecs));
    forall t | t in v ensures ' ' !in t && t != "" {
      var i :| 0 <= i < |codecs| && v[i] == t;
      DecDigits(codecs[i].payloadType % 256);
    }
    assert v != [] ==> v[|v| - 1] in v;
    SplitUndoesJoin(v, ' ');
    assert v == seq(|codecs|, i requires 0 <= i < |codecs| => Dec(codecs[i].payloadType % 256));
  }

  /** Exactly the codecs with parameters have an fmtp element, and there is a feedback element for each feedback of each codec. */
  lemma {:induction false} CodecListContents(codecs: seq<Codec>)
    ensures forall e :: e in FmtpList(codecs) <==>
              exists c :: c in codecs && Params.Config(c.parameters) != ""
                          && e == Obj(map[Payload := Num(c.payloadType), Key.Config := Str(Params.Config(c.parameters))])
    ensures forall e :: e in FeedbackList(codecs) <==>
              exists c, fb :: c in codecs && fb in c.rtcpFeedback
                              && e == Obj(map[Payload := Num(c.payloadType), Type := Str(fb.kind), Subtype := Str(fb.parameter)])
  {
    hide Params.Config;
    if codecs != [] {
      var front, c := codecs[..|codecs| - 1], codecs[|codecs| - 1];
      CodecListContents(front);
      assert codecs == front + [c];
      FeedbackContents(c);
      hide CodecFeedback;
    }
  }

  lemma FeedbackContents(c: Codec)
    ensures forall e :: e in CodecFeedback(c) <==>
              exists fb :: fb in c.rtcpFeedback
                           && e == Obj(map[Payload := Num(c.payloadType), Type := Str(fb.kind), Subtype := Str(fb.parameter)])
  {
    var list := CodecFeedback(c);
    assert forall i :: 0 <= i < |list| ==> list[i] == Obj(FeedbackObject(c.payloadType, c.rtcpFeedback[i])) && c.rtcpFeedback[i] in c.rtcpFeedback;
    forall fb | fb in c.rtcpFeedback ensures Obj(FeedbackObject(c.payloadType, fb)) in list {
      var i :| 0 <= i < |c.rtcpFeedback| && c.rtcpFeedback[i] == fb;
      assert list[i] in list;
    }
  }

  /** The identifiers to receive are those that the offer sends. */
  lemma {:induction false} RidContents(rids: seq<OfferRid>)
    ensures forall e :: e in RidList(rids) <==>
              exists rid :: rid in rids && rid.direction == "send" && e == Obj(map[Id := Str(rid.id), Key.Direction := Str("recv")])
  {
    if rids != [] {
      var front, rid := rids[..|rids| - 1], rids[|rids| - 1];
      RidContents(front);
      assert rids == front + [rid];
    }
  }

  /** The name of a codec is its MIME type behind the kind of media; other MIME types are names as they are. */
  lemma CodecNameMeans(kind: string, name: string)
    ensures Lower(kind) == "audio" || Lower(kind) == "video" ==> CodecName(kind + "/" + name) == name
    ensures '/' !in name ==> CodecName(name) == name
  {
    var mime := kind + "/" + name;
    if Lower(kind) == "audio" || Lower(kind) == "video" {
      assert |kind| == 5 && mime[6..] == name && mime[..6] == kind + "/";
      assert forall i :: 0 <= i < 5 ==> Lower(mime[..6])[i] == Lower(kind)[i];
      assert Lower(mime[..6])[5] == '/';
      assert Lower(mime[..6]) == Lower(kind) + "/";
      assert Lower(kind) == "audio" ==> Lower(kind) + "/" == "audio/";
      assert Lower(kind) == "video" ==> Lower(kind) + "/" == "video/";
    }
    if |name| >= 6 && '/' !in name {
      assert name[5] in name && Lower(name[..6])[5] != '/';
    }
  }

  // ---- Options of the application ----

  function Flag(option: Option<bool>, before: Option<Json>): Option<Json> {
    if option.Some? then Some(Num(if option.value then 1 else 0)) else before
  }

  /** A 32-bit number. */
  function Number(option: Option<nat>, before: Option<Json>): Option<Json> {
    if option.Some? then Some(Num(option.value % TWO_32)) else before
  }

  const OPUS_NAMES := ["stereo", "useinbandfec", "usedtx", "cbr", "maxplaybackrate", "maxaveragebitrate", "ptime"]

  lemma PutFlagGets(ps: seq<Param>, name: string, flag: Option<bool>)
    requires Sorted(ps)
    ensures Sorted(PutFlag(ps, name, flag))
    ensures forall n :: Get(PutFlag(ps, name, flag), n) == if n == name then Flag(flag, Get(ps, n)) else Get(ps, n)
  {
    if flag.Some? { PutSets(ps, name, Num(if flag.value then 1 else 0)); }
  }

  lemma PutNumberGets(ps: seq<Param>, name: string, number: Option<nat>)
    requires Sorted(ps)
    ensures Sorted(PutNumber(ps, name, number))
    ensures forall n :: Get(PutNumber(ps, name, number), n) == if n == name then Number(number, Get(ps, n)) else Get(ps, n)
  {
    if number.Some? { PutSets(ps, name, Num(number.value % TWO_32)); }
  }

  lemma OpusNamesDiffer()
    ensures forall i, j :: 0 <= i < j < 7 ==> OPUS_NAMES[i] != OPUS_NAMES[j]
  {
    assert OPUS_NAMES[0][0] == 's' && OPUS_NAMES[1][2] == 'e' && OPUS_NAMES[2][2] == 'e' && OPUS_NAMES[1][3] == 'i' && OPUS_NAMES[2][3] == 'd';
    assert OPUS_NAMES[1][0] == 'u' && OPUS_NAMES[2][0] == 'u' && OPUS_NAMES[3][0] == 'c' && OPUS_NAMES[4][0] == 'm' && OPUS_NAMES[5][0] == 'm';
    assert OPUS_NAMES[4][3] == 'p' && OPUS_NAMES[5][3] == 'a' && OPUS_NAMES[6][0] == 'p';
  }

  /** Each option of Opus goes into the parameter of its name, in the answered codec. */
  lemma OpusOptions(c: Codec, options: CodecOptions)
    requires Lower(c.mimeType) == "audio/opus" && Sorted(c.parameters)
    ensures var before, after := c.parameters, AnswerParameters(c, options);
            Get(after, "stereo") == Flag(options.opusStereo, Get(before, "stereo"))
            && Get(after, "useinbandfec") == Flag(options.opusFec, Get(before, "useinbandfec"))
            && Get(after, "usedtx") == Flag(options.opusDtx, Get(before, "usedtx"))
            && Get(after, "cbr") == Flag(options.opusCbr, Get(before, "cbr"))
            && Get(after, "maxplaybackrate") == Number(options.opusMaxPlaybackRate, Get(before, "maxplaybackrate"))
            && Get(after, "maxaveragebitrate") == Number(options.opusMaxAverageBitrate, Get(before, "maxaveragebitrate"))
            && Get(after, "ptime") == Number(options.opusPtime, Get(before, "ptime"))
            && (forall n :: n !in OPUS_NAMES ==> Get(after, n) == Get(before, n)) && Sorted(after)
  {
    hide Get, Put, PutFlag, PutNumber, Sorted, Lower;
    OpusNamesDiffer();
    var p1 := PutFlag(c.parameters, OPUS_NAMES[0], options.opusStereo);
    PutFlagGets(c.parameters, OPUS_NAMES[0], options.opusStereo);
    var p2 := PutFlag(p1, OPUS_NAMES[1], options.opusFec);
    PutFlagGets(p1, OPUS_NAMES[1], options.opusFec);
    var p3 := PutFlag(p2, OPUS_NAMES[2], options.opusDtx);
    PutFlagGets(p2, OPUS_NAMES[2], options.opusDtx);
    var p4 := PutFlag(p3, OPUS_NAMES[3], options.opusCbr);
    PutFlagGets(p3, OPUS_NAMES[3], options.opusCbr);
    var p5 := PutNumber(p4, OPUS_NAMES[4], options.opusMaxPlaybackRate);
    PutNumberGets(p4, OPUS_NAMES[4], options.opusMaxPlaybackRate);
    var p6 := PutNumber(p5, OPUS_NAMES[5], options.opusMaxAverageBitrate);
    PutNumberGets(p5, OPUS_NAMES[5], options.opusMaxAverageBitrate);
    PutNumberGets(p6, OPUS_NAMES[6], options.opusPtime);
  }

  lemma VideoNamesDiffer()
    ensures "x-google-start-bitrate" != "x-google-max-bitrate" && "x-google-start-bitrate" != "x-google-min-bitrate"
    ensures "x-google-max-bitrate" != "x-google-min-bitrate"
  {
    assert "x-google-max-bitrate"[10] == 'a' && "x-google-min-bitrate"[10] == 'i';
  }

  /** The bitrates go into the answered video codecs. */
  lemma VideoOptions(c: Codec, options: CodecOptions)
    requires Lower(c.mimeType) in ["video/vp8", "video/vp9", "video/h264", "video/h265"] && Sorted(c.parameters)
    ensures var before, after := c.parameters, AnswerParameters(c, options);
            Get(after, "x-google-start-bitrate") == Number(options.videoGoogleStartBitrate, Get(before, "x-google-start-bitrate"))
            && Get(after, "x-google-max-bitrate") == Number(options.videoGoogleMaxBitrate, Get(before, "x-google-max-bitrate"))
            && Get(after, "x-google-min-bitrate") == Number(options.videoGoogleMinBitrate, Get(before, "x-google-min-bitrate"))
            && (forall n :: n !in ["x-google-start-bitrate", "x-google-max-bitrate", "x-google-min-bitrate"] ==> Get(after, n) == Get(before, n))
            && Sorted(after)
  {
    hide Get, Put, PutNumber, Sorted, Lower;
    VideoNamesDiffer();
    var p1 := PutNumber(c.parameters, "x-google-start-bitrate", options.videoGoogleStartBitrate);
    PutNumberGets(c.parameters, "x-google-start-bitrate", options.videoGoogleStartBitrate);
    var p2 := PutNumber(p1, "x-google-max-bitrate", options.videoGoogleMaxBitrate);
    PutNumberGets(p1, "x-google-max-bitrate", options.videoGoogleMaxBitrate);
    PutNumberGets(p2, "x-google-min-bitrate", options.videoGoogleMinBitrate);
  }

  /** Any other codec keeps its parameters. */
  lemma NoOptions(c: Codec, options: CodecOptions)
    requires Lower(c.mimeType) !in ["audio/opus", "video/vp8", "video/vp9", "video/h264", "video/h265"]
    ensures AnswerParameters(c, options) == c.parameters
  {
    hide Lower;
  }

  const OFFER_NAMES := ["sprop-stereo", "useinbandfec", "usedtx", "cbr"]

  lemma OfferNamesDiffer()
    ensures forall i, j :: 0 <= i < j < 4 ==> OFFER_NAMES[i] != OFFER_NAMES[j]
  {
    assert OFFER_NAMES[0][0] == 's' && OFFER_NAMES[1][3] == 'i' && OFFER_NAMES[2][3] == 'd' && OFFER_NAMES[3][0] == 'c';
    assert OFFER_NAMES[1][0] == 'u' && OFFER_NAMES[2][0] == 'u';
  }

  /** In the offered codec the wish for stereo goes into sprop-stereo, and only four options of Opus go there at all. */
  lemma OfferedOptions(answer: Codec, offered: seq<Param>, options: CodecOptions)
    requires Sorted(offered)
    ensures var after := OfferParameters(answer, offered, options);
            if Lower(answer.mimeType) != "audio/opus" then after == offered
            else
              Get(after, "sprop-stereo") == Flag(options.opusStereo, Get(offered, "sprop-stereo"))
              && Get(after, "useinbandfec") == Flag(options.opusFec, Get(offered, "useinbandfec"))
              && Get(after, "usedtx") == Flag(options.opusDtx, Get(offered, "usedtx"))
              && Get(after, "cbr") == Flag(options.opusCbr, Get(offered, "cbr"))
              && (forall n :: n !in OFFER_NAMES ==> Get(after, n) == Get(offered, n)) && Sorted(after)
  {
    hide Get, Put, PutFlag, Sorted, Lower;
    OfferNamesDiffer();
    var p1 := PutFlag(offered, OFFER_NAMES[0], options.opusStereo);
    PutFlagGets(offered, OFFER_NAMES[0], options.opusStereo);
    var p2 := PutFlag(p1, OFFER_NAMES[1], options.opusFec);
    PutFlagGets(p1, OFFER_NAMES[1], options.opusFec);
    var p3 := PutFlag(p2, OFFER_NAMES[2], options.opusDtx);
    PutFlagGets(p2, OFFER_NAMES[2], options.opusDtx);
    PutFlagGets(p3, OFFER_NAMES[3], options.opusCbr);
  }

  // ---- The order of parameters ----

  /** Names are in the order of their first difference, and a prefix comes first. */
  lemma {:induction false} LessMeans(a: string, b: string)
    ensures Less(a, b) <==> exists k: nat :: k <= |a| && k < |b| && a[..k] == b[..k] && (k == |a| || a[k] < b[k])
  {
    if a != "" && b != "" && a[0] == b[0] {
      LessMeans(a[1..], b[1..]);
      if Less(a[1..], b[1..]) {
        var k: nat :| k <= |a[1..]| && k < |b[1..]| && a[1..][..k] == b[1..][..k] && (k == |a[1..]| || a[1..][k] < b[1..][k]);
        assert a[..k + 1] == [a[0]] + a[1..][..k] && b[..k + 1] == [b[0]] + b[1..][..k];
      }
      if k: nat :| k <= |a| && k < |b| && a[..k] == b[..k] && (k == |a| || a[k] < b[k]) {
        assert k > 0;
        assert a[1..][..k - 1] == a[..k][1..] && b[1..][..k - 1] == b[..k][1..];
      }
    } else if a == "" {
      assert a[..0] == b[..0];
    } else if b != "" {
      assert a[..0] == b[..0];
      assert forall k: nat :: 0 < k <= |a| && k < |b| ==> a[..k][0] != b[..k][0];
    }
  }
}
