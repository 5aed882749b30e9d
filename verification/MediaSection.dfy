/** The media section classes (mssdk/sdputil/MediaSection.cpp): one object whose members are filled in and changed. */
module MediaSectionClass {
  import opened Prelude
  import opened Text
  import opened Json
  import opened Params
  import opened RtpParams
  import opened Sections
  import opened MediaObjects

  /** The first codec with the payload type, or the number of codecs. */
  function CodecIndex(cs: seq<Codec>, payloadType: nat): (n: nat)
    ensures n <= |cs| && (n < |cs| ==> cs[n].payloadType == payloadType)
    ensures forall i :: 0 <= i < n ==> cs[i].payloadType != payloadType
  {
    if cs == [] || cs[0].payloadType == payloadType then 0 else 1 + CodecIndex(cs[1..], payloadType)
  }

  /** The offered codecs after the options for one answered codec went into its offered codec. */
  function OfferTuned(offered: seq<Codec>, answer: Codec, options: Option<CodecOptions>): (r: seq<Codec>)
    requires options.Some? ==> CodecIndex(offered, answer.payloadType) < |offered|
    ensures |r| == |offered| && forall i :: 0 <= i < |r| ==> r[i].payloadType == offered[i].payloadType
  {
    if options.None? then offered
    else
      var n := CodecIndex(offered, answer.payloadType);
      offered[n := offered[n].(parameters := OfferParameters(answer, offered[n].parameters, options.value))]
  }

  /** Every answered codec is offered: the search for its offered codec succeeds. */
  predicate AllOffered(offered: seq<Codec>, answers: seq<Codec>) {
    forall a <- answers :: CodecIndex(offered, a.payloadType) < |offered|
  }

  lemma {:induction false} SameIndex(a: seq<Codec>, b: seq<Codec>, payloadType: nat)
    requires |a| == |b| && forall i :: 0 <= i < |a| ==> a[i].payloadType == b[i].payloadType
    ensures CodecIndex(a, payloadType) == CodecIndex(b, payloadType)
  {
    if a != [] { SameIndex(a[1..], b[1..], payloadType); }
  }

  function OfferTunedAll(offered: seq<Codec>, answers: seq<Codec>, options: Option<CodecOptions>): (r: seq<Codec>)
    requires options.Some? ==> AllOffered(offered, answers)
    ensures |r| == |offered| && forall i :: 0 <= i < |r| ==> r[i].payloadType == offered[i].payloadType
  {
    if answers == [] then offered
    else
      var front, last := answers[..|answers| - 1], answers[|answers| - 1];
      assert last in answers && forall a <- front :: a in answers;
      var before := OfferTunedAll(offered, front, options);
      SameIndex(offered, before, last.payloadType);
      OfferTuned(before, last, options)
  }

  /** The loop over the candidates. */
  method BuildCandidates(cs: seq<IceCandidate>) returns (elems: seq<Json>)
    ensures elems == CandidateList(cs)
  {
    hide CandidateObject;
    elems := [];
    for i := 0 to |cs|
      invariant elems == CandidateList(cs[..i])
    {
      elems := elems + [Obj(CandidateObject(cs[i]))];
    }
    assert cs[..|cs|] == cs;
  }

  lemma OfferedPrefix(offered: seq<Codec>, answers: seq<Codec>, i: nat)
    requires AllOffered(offered, answers) && i <= |answers|
    ensures AllOffered(offered, answers[..i]) && (i < |answers| ==> CodecIndex(offered, answers[i].payloadType) < |offered|)
  {
    assert forall a <- answers[..i] :: a in answers;
    if i < |answers| { assert answers[i] in answers; }
  }

  lemma OfferTunedStep(offered: seq<Codec>, answers: seq<Codec>, i: nat, options: Option<CodecOptions>)
    requires options.Some? ==> AllOffered(offered, answers)
    requires i < |answers|
    ensures options.Some? ==> AllOffered(offered, answers[..i]) && AllOffered(offered, answers[..i + 1])
    ensures var before := OfferTunedAll(offered, answers[..i], options);
            (options.Some? ==> CodecIndex(before, answers[i].payloadType) < |before|)
            && OfferTunedAll(offered, answers[..i + 1], options) == OfferTuned(before, answers[i], options)
  {
    hide OfferTuned, AllOffered, CodecIndex;
    if options.Some? {
      OfferedPrefix(offered, answers, i);
      OfferedPrefix(offered, answers, i + 1);
    }
    var before := OfferTunedAll(offered, answers[..i], options);
    SameIndex(offered, before, answers[i].payloadType);
    assert answers[..i + 1][..i] == answers[..i] && answers[..i + 1][i] == answers[i];
  }

  /** The options of the application, for each answered codec and in its offered codec. */
  method TuneCodecs(offered: seq<Codec>, answers: seq<Codec>, options: Option<CodecOptions>) returns (tuned: seq<Codec>, changed: seq<Codec>)
    requires options.Some? ==> AllOffered(offered, answers)
    ensures tuned == TunedAll(answers, options) && changed == OfferTunedAll(offered, answers, options)
  {
    hide Tuned, OfferTuned, OfferTunedAll, AllOffered, CodecIndex;
    tuned, changed := [], offered;
    assert OfferTunedAll(offered, [], options) == offered by { NothingTuned(offered, options); }
    for i := 0 to |answers|
      invariant options.Some? ==> AllOffered(offered, answers[..i])
      invariant tuned == TunedAll(answers[..i], options) && changed == OfferTunedAll(offered, answers[..i], options)
    {
      OfferTunedStep(offered, answers, i, options);
      changed := OfferTuned(changed, answers[i], options);
      tuned := tuned + [Tuned(answers[i], options)];
    }
    assert answers[..|answers|] == answers;
  }

  lemma NothingTuned(offered: seq<Codec>, options: Option<CodecOptions>)
    ensures AllOffered(offered, []) && OfferTunedAll(offered, [], options) == offered
  {}

  /** The loop over the codecs: their rtpmap, fmtp and rtcp-fb elements. */
  method BuildCodecs(cs: seq<Codec>) returns (rtp: seq<Json>, rtcpFb: seq<Json>, fmtp: seq<Json>)
    ensures rtp == RtpList(cs) && rtcpFb == FeedbackList(cs) && fmtp == FmtpList(cs)
  {
    hide RtpObject, FeedbackObject, FmtpObject, Params.Config;
    rtp, rtcpFb, fmtp := [], [], [];
    for i := 0 to |cs|
      invariant rtp == RtpList(cs[..i]) && rtcpFb == FeedbackList(cs[..i]) && fmtp == FmtpList(cs[..i])
    {
      var codec := cs[i];
      assert cs[..i + 1][..i] == cs[..i];
      rtp := rtp + [Obj(RtpObject(codec))];
      var config := WriteConfig(codec.parameters);
      if config != "" {
        fmtp := fmtp + [Obj(FmtpObject(codec))];
      }
      ghost var before := rtcpFb;
      for j := 0 to |codec.rtcpFeedback|
        invariant rtcpFb == before + CodecFeedback(codec)[..j]
      {
        rtcpFb := rtcpFb + [Obj(FeedbackObject(codec.payloadType, codec.rtcpFeedback[j]))];
      }
      assert CodecFeedback(codec)[..|codec.rtcpFeedback|] == CodecFeedback(codec);
    }
    assert cs[..|cs|] == cs;
  }

  lemma {:induction false} PayloadsStarted(ts: seq<nat>)
    ensures Join(Decs(ts), ' ') == "" <==> ts == []
  {
    if ts != [] {
      DecDigits(ts[0]);
      assert Decs(ts)[0] == Dec(ts[0]);
    }
  }

  /** The loop that writes the payload types. */
  method BuildPayloads(cs: seq<Codec>) returns (payloads: string)
    ensures payloads == PayloadsText(cs)
  {
    hide Dec, Join;
    payloads := "";
    assert PayloadTypes(cs[..0]) == [] && Decs([]) == [];
    PayloadsStarted([]);
    for i := 0 to |cs|
      invariant payloads == PayloadsText(cs[..i])
    {
      var payloadType := cs[i].payloadType % 256;
      var ts := PayloadTypes(cs[..i]);
      PayloadsStarted(ts);
      assert PayloadTypes(cs[..i + 1]) == ts + [payloadType];
      assert Decs(ts + [payloadType]) == Decs(ts) + [Dec(payloadType)];
      JoinAppend(Decs(ts), Dec(payloadType), ' ');
      if payloads != "" {
        payloads := payloads + " ";
      }
      payloads := payloads + Dec(payloadType);
    }
    assert cs[..|cs|] == cs;
  }

  method BuildExts(exts: seq<HeaderExtension>) returns (elems: seq<Json>)
    ensures elems == ExtList(exts)
  {
    hide ExtObject;
    elems := [];
    for i := 0 to |exts|
      invariant elems == ExtList(exts[..i])
    {
      elems := elems + [Obj(ExtObject(exts[i]))];
    }
    assert exts[..|exts|] == exts;
  }

  /** The loop that skips the header extensions that the offer does not have. */
  method BuildOfferedExts(exts: seq<HeaderExtension>, uris: seq<string>) returns (elems: seq<Json>)
    ensures elems == ExtList(Offered(exts, uris))
  {
    hide ExtObject;
    elems := [];
    for i := 0 to |exts|
      invariant elems == ExtList(Offered(exts[..i], uris))
    {
      assert exts[..i + 1][..i] == exts[..i];
      if exts[i].uri in uris {
        elems := elems + [Obj(ExtObject(exts[i]))];
      }
    }
    assert exts[..|exts|] == exts;
  }

  method BuildRids(rids: seq<OfferRid>) returns (elems: seq<Json>)
    ensures elems == RidList(rids)
  {
    hide RidObject;
    elems := [];
    for i := 0 to |rids|
      invariant elems == RidList(rids[..i])
    {
      assert rids[..i + 1][..i] == rids[..i];
      if rids[i].direction == "send" {
        elems := elems + [Obj(RidObject(rids[i].id))];
      }
    }
    assert rids[..|rids|] == rids;
  }

  class MediaSection {
    /** An OfferMediaSection or an AnswerMediaSection. */
    const isOffer: bool
    var mediaObject: Fields

    /** The answer to a section of the local offer; the options also go into the offered codecs. */
    constructor Answer(ice: IceParameters, candidates: seq<IceCandidate>, role: string, sctp: SctpParameters,
                       offer: OfferMedia, answer: RtpParameters, options: Option<CodecOptions>)
      ensures !isOffer && mediaObject == AnswerObject(ice, candidates, role, sctp, offer, answer, options)
    {
      isOffer := false;
      mediaObject := map[];
      new;
      hide CandidateList, RtpList, FeedbackList, FmtpList, PayloadsText, ExtList, RidList, SimulcastObject, TunedAll, Offered, SetupOf;
      Begin(ice, candidates);
      Describe(offer.mid, offer.kind, offer.protocol);
      SetDtlsRole(role);
      if IsMedia(offer.kind) {
        DescribeCodecs("recvonly", TunedAll(answer.codecs, options));
        var exts := BuildOfferedExts(answer.headerExtensions, offer.extUris);
        mediaObject := mediaObject[Ext := Arr(exts)];
        if offer.extmapAllowMixed {
          mediaObject := mediaObject[Key.ExtmapAllowMixed := Str("extmap-allow-mixed")];
        }
        if offer.simulcast.Some? {
          mediaObject := mediaObject[Key.Simulcast := Obj(SimulcastObject(offer.simulcast.value.list1))];
          var rids := BuildRids(offer.simulcast.value.rids);
          mediaObject := mediaObject[Key.Rids := Arr(rids)];
        }
        mediaObject := mediaObject[RtcpMux := Str("rtcp-mux")][RtcpRsize := Str("rtcp-rsize")];
      } else if offer.kind == "application" {
        DescribeData(sctp);
      }
    }

    /** An offer for media or data to be received. */
    constructor Offer(ice: IceParameters, candidates: seq<IceCandidate>, sctp: Option<SctpParameters>,
                      mid: string, kind: string, params: RtpParameters, streamId: string, trackId: string)
      requires IsMedia(kind) ==> params.encodings != []
      requires kind == "application" ==> sctp.Some?
      ensures isOffer && mediaObject == OfferObject(ice, candidates, sctp, mid, kind, params, streamId, trackId)
    {
      isOffer := true;
      mediaObject := map[];
      new;
      hide CandidateList, RtpList, FeedbackList, FmtpList, PayloadsText, ExtList, SsrcObject, GroupObject, Dec;
      Begin(ice, candidates);
      Describe(mid, kind, if sctp.None? then "UDP/TLS/RTP/SAVPF" else "UDP/DTLS/SCTP");
      SetDtlsRole("");
      if IsMedia(kind) {
        DescribeCodecs("sendonly", params.codecs);
        var exts := BuildExts(params.headerExtensions);
        mediaObject := mediaObject[Ext := Arr(exts)];
        mediaObject := mediaObject[RtcpMux := Str("rtcp-mux")][RtcpRsize := Str("rtcp-rsize")];
        var ssrc, rtxSsrc := Ssrc(params.encodings[0]), RtxSsrc(params.encodings[0]);
        var ssrcs: seq<Json>, ssrcGroups: seq<Json> := [], [];
        if params.cname.Some? {
          var cname, msid := params.cname.value, streamId + " " + trackId;
          ssrcs := ssrcs + [Obj(SsrcObject(ssrc, "cname", cname))];
          ssrcs := ssrcs + [Obj(SsrcObject(ssrc, "msid", msid))];
          if rtxSsrc != 0 {
            ssrcs := ssrcs + [Obj(SsrcObject(rtxSsrc, "cname", cname))];
            ssrcs := ssrcs + [Obj(SsrcObject(rtxSsrc, "msid", msid))];
            ssrcGroups := ssrcGroups + [Obj(GroupObject(Dec(ssrc) + " " + Dec(rtxSsrc)))];
          }
        }
        assert ssrcs == if params.cname.Some? then SsrcList(params.encodings[0], params.cname.value, streamId + " " + trackId) else [];
        assert ssrcGroups == if params.cname.Some? then GroupList(params.encodings[0]) else [];
        mediaObject := mediaObject[Key.Ssrcs := Arr(ssrcs)][Key.SsrcGroups := Arr(ssrcGroups)];
      } else if kind == "application" {
        DescribeData(sctp.value);
      }
    }

    /** The part that every section begins with. */
    method Begin(ice: IceParameters, candidates: seq<IceCandidate>)
      requires mediaObject == map[]
      modifies this
      ensures mediaObject == Common(ice, candidates)
    {
      hide CandidateList;
      SetIceParameters(ice);
      var elems := BuildCandidates(candidates);
      mediaObject := mediaObject[Candidates := Arr(elems)];
      mediaObject := mediaObject[EndOfCandidates := Str("end-of-candidates")];
      mediaObject := mediaObject[IceOptions := Str("renomination")];
    }

    method Describe(mid: string, kind: string, protocol: string)
      modifies this
      ensures mediaObject == Described(old(mediaObject), mid, kind, protocol)
    {
      mediaObject := mediaObject[Key.Mid := Str(mid)][Type := Str(kind)][Protocol := Str(protocol)];
      mediaObject := mediaObject[Key.Connection := Obj(LOOPBACK)][Port := Num(7)];
    }

    method DescribeCodecs(direction: string, codecs: seq<Codec>)
      modifies this
      ensures mediaObject == WithCodecs(old(mediaObject), direction, codecs)
    {
      hide RtpList, FeedbackList, FmtpList, PayloadsText;
      mediaObject := mediaObject[Key.Direction := Str(direction)];
      var rtp, rtcpFb, fmtp := BuildCodecs(codecs);
      mediaObject := mediaObject[Key.Rtp := Arr(rtp)][RtcpFb := Arr(rtcpFb)][Fmtp := Arr(fmtp)];
      var payloads := BuildPayloads(codecs);
      mediaObject := mediaObject[Payloads := Str(payloads)];
    }

    method DescribeData(sctp: SctpParameters)
      modifies this
      ensures mediaObject == WithData(old(mediaObject), sctp)
    {
      mediaObject := mediaObject[Payloads := Str("webrtc-datachannel")];
      mediaObject := mediaObject[SctpPort := Num(sctp.port)][Key.MaxMessageSize := Num(sctp.maxMessageSize)];
    }

    method GetMid() returns (mid: string)
      requires Identified(mediaObject)
      ensures mid == MidOf(mediaObject)
    {
      mid := mediaObject[Key.Mid].s;
    }

    method Closed() returns (closed: bool)
      ensures closed == IsClosed(mediaObject)
    {
      closed := Port in mediaObject && mediaObject[Port] == Num(0);
    }

    method SetIceParameters(ice: IceParameters)
      modifies this
      ensures mediaObject == WithIce(old(mediaObject), ice)
    {
      mediaObject := mediaObject[IceUfrag := Str(ice.usernameFragment)];
      mediaObject := mediaObject[IcePwd := Str(ice.password)];
    }

    method Disable()
      modifies this
      ensures mediaObject == Disabled(old(mediaObject))
    {
      mediaObject := mediaObject[Key.Direction := Str("inactive")];
      mediaObject := mediaObject - {Ext};
      mediaObject := mediaObject - {Key.Ssrcs};
      mediaObject := mediaObject - {Key.SsrcGroups};
      mediaObject := mediaObject - {Key.Simulcast};
      mediaObject := mediaObject - {Key.Rids};
    }

    method Close()
      modifies this
      ensures mediaObject == MediaObjects.Closed(old(mediaObject))
    {
      mediaObject := mediaObject[Key.Direction := Str("inactive")][Port := Num(0)];
      mediaObject := mediaObject - {Ext};
      mediaObject := mediaObject - {Key.Ssrcs};
      mediaObject := mediaObject - {Key.SsrcGroups};
      mediaObject := mediaObject - {Key.Simulcast};
      mediaObject := mediaObject - {Key.Rids};
      mediaObject := mediaObject - {Key.ExtmapAllowMixed};
    }

    method SetDtlsRole(role: string)
      modifies this
      ensures mediaObject == WithRole(isOffer, old(mediaObject), role)
    {
      if isOffer {
        mediaObject := mediaObject[Setup := Str("actpass")];
      } else if role == "client" {
        mediaObject := mediaObject[Setup := Str("active")];
      } else if role == "server" {
        mediaObject := mediaObject[Setup := Str("passive")];
      } else if role == "auto" {
        mediaObject := mediaObject[Setup := Str("actpass")];
      }
    }
  }
}
