/**
  What comes out of a negotiation on either side, told by the codecs that went into it: the
  capabilities for receiving, the codec that is sent, and the codecs of the answer to it.
 */
module NegotiatedContents {
  import opened Prelude
  import opened Json
  import opened RtpParams
  import opened Capabilities
  import opened Negotiation
  import opened CodecMatching
  import opened SendReceive

  // ---- Every negotiated codec, H264 or not ----

  /**
    Local codec `l` and remote codec `r` go together: `l` is the first local codec that agrees with
    `r`. For H264 it is as earlier matches left it.
   */
  ghost predicate Source(local: seq<Capability>, remote: seq<Capability>, calls: H264Calls, i: nat, j: nat, l: Capability, r: Capability) {
    i < |remote| && j < |local| && r == remote[i]
    && if H264Codec(r) then H264Partner(LocalAt(local, remote, i, calls), r, calls, j) && l == LocalAt(local, remote, i, calls)[j]
       else Partners(local, remote, i, j) && l == local[j]
  }

  /** Parameters are left alone, but for H264 they get the profile-level-id that was answered. */
  ghost predicate AgreedParameters(before: Fields, after: Fields, l: Capability, r: Capability, calls: H264Calls) {
    if H264Codec(r) then H264Agree(l, r, calls) && Rewritten(before, after, CodecMatching.Answered(l, r, calls)) else after == before
  }

  /** Feedback that both sides have. */
  ghost predicate InBoth(fbs: seq<Feedback>, l: Capability, r: Capability) {
    forall fb :: fb in fbs <==> fb in l.rtcpFeedback && fb in r.rtcpFeedback
  }

  ghost predicate FromBoth(e: Extended, l: Capability, r: Capability, calls: H264Calls) {
    e.mimeType == l.mimeType && e.kind == l.kind && e.clockRate == l.clockRate && e.channels == l.channels
    && e.localPayloadType == l.payloadType && e.remotePayloadType == r.payloadType
    && AgreedParameters(l.parameters, e.localParameters, l, r, calls) && AgreedParameters(r.parameters, e.remoteParameters, l, r, calls)
    && InBoth(e.rtcpFeedback, l, r)
  }

  lemma SourceOfH264(local: RtpCapabilities, remote: RtpCapabilities, calls: H264Calls, e: Extended)
    requires Directed(remote.exts) && e in Negotiated(local, remote, calls).codecs && Lower(e.mimeType) == "video/h264"
    ensures exists i: nat, j: nat, l, r :: Source(local.codecs, remote.codecs, calls, i, j, l, r) && FromBoth(e, l, r, calls)
  {
    hide Lower, Negotiated, LocalAt, H264Event, H264Partner, Source, FromBoth;
    NegotiatedH264(local, remote, calls);
    var i: nat, j: nat :| H264Event(local.codecs, remote.codecs, calls, e, i, j);
    SourceOfEvent(local.codecs, remote.codecs, calls, e, i, j);
    var l, r := LocalAt(local.codecs, remote.codecs, i, calls)[j], remote.codecs[i];
    assert Source(local.codecs, remote.codecs, calls, i, j, l, r) && FromBoth(e, l, r, calls);
  }

  lemma SourceOfEvent(local: seq<Capability>, remote: seq<Capability>, calls: H264Calls, e: Extended, i: nat, j: nat)
    requires H264Event(local, remote, calls, e, i, j)
    ensures i < |remote| && j < |local| && Source(local, remote, calls, i, j, LocalAt(local, remote, i, calls)[j], remote[i])
    ensures FromBoth(e, LocalAt(local, remote, i, calls)[j], remote[i], calls)
  {
    hide Lower, LocalAt, H264Agree, Rewritten;
  }

  lemma SourceOf(local: RtpCapabilities, remote: RtpCapabilities, calls: H264Calls, e: Extended)
    requires Directed(remote.exts) && e in Negotiated(local, remote, calls).codecs
    ensures exists i: nat, j: nat, l, r :: Source(local.codecs, remote.codecs, calls, i, j, l, r) && FromBoth(e, l, r, calls)
  {
    hide Lower, Negotiated, LocalAt, Agree, RtxAgrees, Rtx;
    if Lower(e.mimeType) == "video/h264" {
      SourceOfH264(local, remote, calls, e);
    } else {
      SoundPair(local, remote, calls, e);
      var i: nat, j: nat :| i < |remote.codecs| && !Rtx(remote.codecs[i]) && Partner(local.codecs, remote.codecs[i], j)
                            && ComesFrom(e, local.codecs[j], remote.codecs[i]) && RtxAgrees(e, local.codecs, remote.codecs);
      SourceOfPair(local.codecs, remote.codecs, calls, e, i, j);
    }
  }

  lemma SourceOfPair(local: seq<Capability>, remote: seq<Capability>, calls: H264Calls, e: Extended, i: nat, j: nat)
    requires i < |remote| && !Rtx(remote[i]) && Partner(local, remote[i], j) && ComesFrom(e, local[j], remote[i])
    requires Lower(e.mimeType) != "video/h264"
    ensures Source(local, remote, calls, i, j, local[j], remote[i]) && FromBoth(e, local[j], remote[i], calls)
  {
    AgreeMime(local[j], remote[i]);
    hide Lower, LocalAt, Agree, Rtx, H264Partner, H264Agree;
  }

  lemma AgreeMime(l: Capability, r: Capability)
    ensures Agree(l, r) ==> (H264Codec(l) <==> H264Codec(r))
  {
    hide Lower;
  }

  lemma SourceGives(local: RtpCapabilities, remote: RtpCapabilities, calls: H264Calls, i: nat, j: nat, l: Capability, r: Capability)
    requires Directed(remote.exts) && Source(local.codecs, remote.codecs, calls, i, j, l, r)
    ensures exists e :: e in Negotiated(local, remote, calls).codecs && FromBoth(e, l, r, calls)
  {
    hide Lower, Negotiated, LocalAt, H264Agree, Rewritten, RtxAgrees, Agree;
    if H264Codec(r) {
      NegotiatedH264(local, remote, calls);
      var e :| e in Negotiated(local, remote, calls).codecs && H264Event(local.codecs, remote.codecs, calls, e, i, j);
      assert FromBoth(e, l, r, calls);
    } else {
      NegotiatedAgree(local, remote, calls);
      var e :| e in Negotiated(local, remote, calls).codecs && ComesFrom(e, local.codecs[j], remote.codecs[i]);
      assert FromBoth(e, l, r, calls);
    }
  }

  // ---- Receiving ----

  /** A codec for receiving: the local codec under the other side's payload type, with the feedback of both. */
  ghost predicate ReceivedFrom(c: Capability, l: Capability, r: Capability, calls: H264Calls) {
    c.mimeType == l.mimeType && c.kind == l.kind && c.payloadType == r.payloadType && c.clockRate == l.clockRate
    && c.channels == l.channels && AgreedParameters(l.parameters, c.parameters, l, r, calls) && InBoth(c.rtcpFeedback, l, r)
  }

  /** Its retransmission: the first codec of the other side for that, when there is a local one as well. */
  predicate RtxReceived(c: Capability, l: Capability, r: Capability, local: seq<Capability>, remote: seq<Capability>) {
    HasRtx(local, l.payloadType)
    && exists b :: 0 <= b < |remote| && FirstRtxOf(remote, r.payloadType, b)
        && c == Capability(l.kind + "/rtx", l.kind, remote[b].payloadType, l.clockRate, None, map[Key.Apt := Num(r.payloadType % 256)], [])
  }

  lemma {:induction false} RecvContents(es: seq<Extended>)
    ensures forall c :: c in RecvCodecs(es) <==> exists e :: e in es && c in RecvOf(e)
  {
    hide RecvOf;
    if es != [] {
      var front, e := es[..|es| - 1], es[|es| - 1];
      RecvContents(front);
      assert es == front + [e];
    }
  }

  lemma {:induction false} SomeFirstRtx(cs: seq<Capability>, payloadType: int)
    requires HasRtx(cs, payloadType)
    ensures exists b :: 0 <= b < |cs| && FirstRtxOf(cs, payloadType, b)
  {
    hide RtxOf;
    RtxForIsFirst(cs, payloadType);
  }

  lemma RecvOfMeans(e: Extended, l: Capability, r: Capability, calls: H264Calls, local: seq<Capability>, remote: seq<Capability>)
    requires FromBoth(e, l, r, calls) && RtxAgrees(e, local, remote)
    ensures |RecvOf(e)| == if HasRtx(local, l.payloadType) && HasRtx(remote, r.payloadType) then 2 else 1
    ensures ReceivedFrom(RecvOf(e)[0], l, r, calls)
    ensures |RecvOf(e)| == 2 ==> RtxReceived(RecvOf(e)[1], l, r, local, remote)
  {
    hide H264Codec, RtxOf, AgreedParameters, InBoth;
    if HasRtx(remote, r.payloadType) { SomeFirstRtx(remote, r.payloadType); }
    hide FirstRtxOf;
  }

  /**
    Every codec for receiving is that of a pair of codecs that go together, or its retransmission, and
    every such pair has its codec, with its retransmission directly behind it when both sides have one.
   */
  lemma ReceivingAgrees(local: RtpCapabilities, remote: RtpCapabilities, calls: H264Calls)
    requires Directed(remote.exts)
    ensures forall c <- RecvCaps(Negotiated(local, remote, calls)).codecs ::
              exists i: nat, j: nat, l, r :: Source(local.codecs, remote.codecs, calls, i, j, l, r)
                && (ReceivedFrom(c, l, r, calls) || RtxReceived(c, l, r, local.codecs, remote.codecs))
    ensures var cs := RecvCaps(Negotiated(local, remote, calls)).codecs;
            forall i: nat, j: nat, l, r :: Source(local.codecs, remote.codecs, calls, i, j, l, r) ==>
              exists c :: c in cs && ReceivedFrom(c, l, r, calls)
    ensures var cs := RecvCaps(Negotiated(local, remote, calls)).codecs;
            forall i: nat, j: nat, l, r ::
              Source(local.codecs, remote.codecs, calls, i, j, l, r)
              && HasRtx(local.codecs, l.payloadType) && HasRtx(remote.codecs, r.payloadType) ==>
              exists c :: c in cs && RtxReceived(c, l, r, local.codecs, remote.codecs)
  {
    hide Negotiated, Source, FromBoth, ReceivedFrom, RtxReceived, RecvOf, RtxAgrees, RecvCodecs, RecvExts, HasRtx;
    var es := Negotiated(local, remote, calls).codecs;
    var cs := RecvCaps(Negotiated(local, remote, calls)).codecs;
    RecvContents(es);
    RtxIsNegotiated(local, remote, calls);
    forall c | c in cs
      ensures exists i: nat, j: nat, l, r :: Source(local.codecs, remote.codecs, calls, i, j, l, r)
                && (ReceivedFrom(c, l, r, calls) || RtxReceived(c, l, r, local.codecs, remote.codecs))
    {
      var e :| e in es && c in RecvOf(e);
      SourceOf(local, remote, calls, e);
      var i: nat, j: nat, l, r :| Source(local.codecs, remote.codecs, calls, i, j, l, r) && FromBoth(e, l, r, calls);
      RecvOfMeans(e, l, r, calls, local.codecs, remote.codecs);
    }
    forall i: nat, j: nat, l, r | Source(local.codecs, remote.codecs, calls, i, j, l, r)
      ensures exists c :: c in cs && ReceivedFrom(c, l, r, calls)
      ensures HasRtx(local.codecs, l.payloadType) && HasRtx(remote.codecs, r.payloadType) ==>
                exists c :: c in cs && RtxReceived(c, l, r, local.codecs, remote.codecs)
    {
      SourceGives(local, remote, calls, i, j, l, r);
      var e :| e in es && FromBoth(e, l, r, calls);
      RecvOfMeans(e, l, r, calls, local.codecs, remote.codecs);
      assert RecvOf(e)[0] in RecvOf(e);
      if |RecvOf(e)| == 2 { assert RecvOf(e)[1] in RecvOf(e); }
    }
  }

  // ---- Sending ----

  /** The codec that is sent: the local one under the local payload type, with the feedback of both. */
  ghost predicate SentFor(c: SendCodec, l: Capability, r: Capability, calls: H264Calls) {
    c.mimeType == l.mimeType && c.payloadType == l.payloadType && c.clockRate == l.clockRate && c.channels == l.channels
    && AgreedParameters(l.parameters, c.parameters, l, r, calls) && InBoth(c.rtcpFeedback, l, r)
  }

  /** Its retransmission: the first local codec for that, when the other side has one as well. */
  predicate RtxSent(c: SendCodec, l: Capability, r: Capability, local: seq<Capability>, remote: seq<Capability>) {
    HasRtx(remote, r.payloadType)
    && exists a :: 0 <= a < |local| && FirstRtxOf(local, l.payloadType, a)
        && c == SendCodec(l.kind + "/rtx", local[a].payloadType, l.clockRate, None, map[Key.Apt := Num(l.payloadType % 256)], [])
  }

  /** A codec sent and, when both sides have it, its retransmission. */
  ghost predicate SentList(cs: seq<SendCodec>, l: Capability, r: Capability, calls: H264Calls, local: seq<Capability>, remote: seq<Capability>) {
    |cs| == (if HasRtx(local, l.payloadType) && HasRtx(remote, r.payloadType) then 2 else 1)
    && SentFor(cs[0], l, r, calls) && (|cs| == 2 ==> RtxSent(cs[1], l, r, local, remote))
  }

  lemma SentOfMeans(e: Extended, l: Capability, r: Capability, calls: H264Calls, local: seq<Capability>, remote: seq<Capability>)
    requires FromBoth(e, l, r, calls) && RtxAgrees(e, local, remote)
    ensures SentList(SentOf(e, e.localParameters), l, r, calls, local, remote)
  {
    hide H264Codec, RtxOf, AgreedParameters, InBoth;
    if HasRtx(local, l.payloadType) { SomeFirstRtx(local, l.payloadType); }
    hide FirstRtxOf;
  }

  /** The first negotiated codec of a kind. */
  predicate FirstOfKind(es: seq<Extended>, kind: string, n: nat) {
    n < |es| && es[n].kind == kind && forall k :: 0 <= k < n ==> es[k].kind != kind
  }

  /** What is sent is the first negotiated codec of the kind as the local side has it, and nothing when there is none. */
  lemma SendingAgrees(local: RtpCapabilities, remote: RtpCapabilities, calls: H264Calls, kind: string)
    requires Directed(remote.exts)
    ensures var es, sent := Negotiated(local, remote, calls).codecs, Sending(Negotiated(local, remote, calls), kind).codecs;
            (sent == [] <==> forall e <- es :: e.kind != kind)
            && (sent != [] ==>
                  exists n: nat, i: nat, j: nat, l, r ::
                    FirstOfKind(es, kind, n) && Source(local.codecs, remote.codecs, calls, i, j, l, r) && FromBoth(es[n], l, r, calls)
                    && SentList(sent, l, r, calls, local.codecs, remote.codecs))
  {
    hide Negotiated, Source, FromBoth, SentList, RtxAgrees, SendExts;
    var es := Negotiated(local, remote, calls).codecs;
    var n := FirstOf(es, kind);
    if n < |es| {
      assert es[n] in es && FirstOfKind(es, kind, n);
      RtxIsNegotiated(local, remote, calls);
      SourceOf(local, remote, calls, es[n]);
      var i: nat, j: nat, l, r :| Source(local.codecs, remote.codecs, calls, i, j, l, r) && FromBoth(es[n], l, r, calls);
      SentOfMeans(es[n], l, r, calls, local.codecs, remote.codecs);
    }
  }

  // ---- The answer ----

  predicate HasUri(exts: seq<SendExt>, uri: string) { exists i :: 0 <= i < |exts| && exts[i].uri == uri }

  /** Congestion feedback needs a header extension for it, and the one that comes with transport-cc wins. */
  predicate CongestionFits(fb: Feedback, exts: seq<SendExt>) {
    (fb.kind == "transport-cc" ==> HasUri(exts, "http://www.ietf.org/id/draft-holmer-rmcat-transport-wide-cc-extensions-01"))
    && (fb.kind == "goog-remb" ==>
          HasUri(exts, "http://www.webrtc.org/experiments/rtp-hdrext/abs-send-time")
          && !HasUri(exts, "http://www.ietf.org/id/draft-holmer-rmcat-transport-wide-cc-extensions-01"))
  }

  lemma KeptIsFitting(fb: Feedback, exts: seq<SendExt>)
    ensures Kept(fb, exts) <==> CongestionFits(fb, exts)
  {
    assert HasUri(exts, TRANSPORT_CC) <==> Uses(exts, TRANSPORT_CC);
    assert HasUri(exts, ABS_SEND_TIME) <==> Uses(exts, ABS_SEND_TIME);
    hide Uses, HasUri;
  }

  lemma OneMore(sources: seq<nat>, n: nat)
    requires Increasing(sources, n)
    ensures Increasing(sources, n + 1) && Increasing(sources + [n], n + 1)
    ensures forall i: nat :: i in sources + [n] <==> i in sources || i == n
  {}

  /** Exactly the feedback that fits is kept, in its order. */
  lemma {:induction false} KeptInOrder(fbs: seq<Feedback>, exts: seq<SendExt>) returns (sources: seq<nat>)
    ensures |sources| == |KeptOf(fbs, exts)| && Increasing(sources, |fbs|)
    ensures forall k :: 0 <= k < |sources| ==> sources[k] < |fbs| && KeptOf(fbs, exts)[k] == fbs[sources[k]]
    ensures forall i: nat :: i in sources <==> i < |fbs| && CongestionFits(fbs[i], exts)
  {
    hide Kept, CongestionFits;
    if fbs == [] {
      sources := [];
    } else {
      var n := |fbs| - 1;
      var before := KeptInOrder(fbs[..n], exts);
      OneMore(before, n);
      KeptIsFitting(fbs[n], exts);
      hide Increasing;
      sources := if Kept(fbs[n], exts) then before + [n] else before;
    }
  }

  lemma KeptFeedback(fbs: seq<Feedback>, exts: seq<SendExt>)
    ensures forall fb :: fb in KeptOf(fbs, exts) <==> fb in fbs && CongestionFits(fb, exts)
  {
    KeptMeans(fbs, exts);
    forall fb ensures Kept(fb, exts) <==> CongestionFits(fb, exts) { KeptIsFitting(fb, exts); }
    hide Kept, CongestionFits, KeptOf;
  }

  /** A codec of the answer: that of the offer with the other side's parameters and the feedback that fits. */
  ghost predicate AnsweredAs(c: SendCodec, l: Capability, r: Capability, calls: H264Calls, exts: seq<SendExt>) {
    c.mimeType == l.mimeType && c.payloadType == l.payloadType && c.clockRate == l.clockRate && c.channels == l.channels
    && AgreedParameters(r.parameters, c.parameters, l, r, calls)
    && forall fb :: fb in c.rtcpFeedback <==> fb in l.rtcpFeedback && fb in r.rtcpFeedback && CongestionFits(fb, exts)
  }

  lemma {:induction false} RemoteContents(es: seq<Extended>, kind: string)
    ensures forall c :: c in RemoteCodecs(es, kind) <==> exists e :: e in es && e.kind == kind && c in SentOf(e, e.remoteParameters)
  {
    hide SentOf;
    if es != [] {
      var front, e := es[..|es| - 1], es[|es| - 1];
      RemoteContents(front, kind);
      assert es == front + [e];
    }
  }

  lemma AnswerOfMeans(e: Extended, l: Capability, r: Capability, calls: H264Calls, local: seq<Capability>, remote: seq<Capability>,
                      exts: seq<SendExt>)
    requires FromBoth(e, l, r, calls) && RtxAgrees(e, local, remote)
    ensures var cs := Reduced(SentOf(e, e.remoteParameters), exts);
            |cs| == (if HasRtx(local, l.payloadType) && HasRtx(remote, r.payloadType) then 2 else 1)
            && AnsweredAs(cs[0], l, r, calls, exts) && (|cs| == 2 ==> RtxSent(cs[1], l, r, local, remote))
  {
    hide H264Codec, RtxOf, AgreedParameters, CongestionFits;
    if HasRtx(local, l.payloadType) { SomeFirstRtx(local, l.payloadType); }
    KeptFeedback(e.rtcpFeedback, exts);
    assert KeptOf([], exts) == [];
    hide FirstRtxOf, KeptOf;
  }

  lemma ReducedContents(cs: seq<SendCodec>, exts: seq<SendExt>, d: SendCodec)
    ensures d in Reduced(cs, exts) <==> exists c :: c in cs && d == c.(rtcpFeedback := KeptOf(c.rtcpFeedback, exts))
  {
    hide KeptOf;
    if c :| c in cs && d == c.(rtcpFeedback := KeptOf(c.rtcpFeedback, exts)) {
      var i :| 0 <= i < |cs| && cs[i] == c;
      assert Reduced(cs, exts)[i] == d;
    }
  }

  lemma AnswerOfKind(e: Extended, l: Capability, r: Capability, calls: H264Calls, local: seq<Capability>, remote: seq<Capability>,
                     exts: seq<SendExt>, c: SendCodec)
    requires FromBoth(e, l, r, calls) && RtxAgrees(e, local, remote) && c in SentOf(e, e.remoteParameters)
    ensures var d := c.(rtcpFeedback := KeptOf(c.rtcpFeedback, exts));
            AnsweredAs(d, l, r, calls, exts) || RtxSent(d, l, r, local, remote)
  {
    AnswerOfMeans(e, l, r, calls, local, remote, exts);
    hide FromBoth, RtxAgrees, AnsweredAs, RtxSent, KeptOf, SentOf;
    var cs := SentOf(e, e.remoteParameters);
    var k :| 0 <= k < |cs| && cs[k] == c;
    assert Reduced(cs, exts)[k] == c.(rtcpFeedback := KeptOf(c.rtcpFeedback, exts));
  }

  lemma AnswerHas(es: seq<Extended>, kind: string, e: Extended, exts: seq<SendExt>, k: nat)
    requires e in es && e.kind == kind && k < |SentOf(e, e.remoteParameters)|
    ensures Reduced(SentOf(e, e.remoteParameters), exts)[k] in Reduced(RemoteCodecs(es, kind), exts)
  {
    RemoteContents(es, kind);
    var c := SentOf(e, e.remoteParameters)[k];
    assert c in SentOf(e, e.remoteParameters);
    hide SentOf, KeptOf;
    var cs := RemoteCodecs(es, kind);
    assert c in cs;
    var i :| 0 <= i < |cs| && cs[i] == c;
    assert Reduced(cs, exts)[i] == Reduced(SentOf(e, e.remoteParameters), exts)[k];
  }

  /**
    The codecs of the answer are exactly those of the pairs of the kind that go together, with their
    retransmissions: under the local payload types, with the other side's parameters, and with the
    common feedback that the header extensions leave.
   */
  lemma AnsweringAgrees(local: RtpCapabilities, remote: RtpCapabilities, calls: H264Calls, kind: string)
    requires Directed(remote.exts)
    ensures var answer := SendingRemote(Negotiated(local, remote, calls), kind);
            forall c <- answer.codecs ::
              exists i: nat, j: nat, l, r :: Source(local.codecs, remote.codecs, calls, i, j, l, r) && l.kind == kind
                && (AnsweredAs(c, l, r, calls, answer.exts) || RtxSent(c, l, r, local.codecs, remote.codecs))
    ensures var answer := SendingRemote(Negotiated(local, remote, calls), kind);
            forall i: nat, j: nat, l, r :: Source(local.codecs, remote.codecs, calls, i, j, l, r) && l.kind == kind ==>
              (exists c :: c in answer.codecs && AnsweredAs(c, l, r, calls, answer.exts))
              && (HasRtx(local.codecs, l.payloadType) && HasRtx(remote.codecs, r.payloadType) ==>
                    exists c :: c in answer.codecs && RtxSent(c, l, r, local.codecs, remote.codecs))
  {
    hide Negotiated, Source, RtxAgrees, SendExts, AnsweredAs, RtxSent, SentOf, RemoteCodecs, Reduced, HasRtx, H264Codec, InBoth;
    var es := Negotiated(local, remote, calls).codecs;
    var exts := SendExts(Negotiated(local, remote, calls).exts, kind);
    var answer := Reduced(RemoteCodecs(es, kind), exts);
    RemoteContents(es, kind);
    RtxIsNegotiated(local, remote, calls);
    forall d | d in answer
      ensures exists i: nat, j: nat, l, r :: Source(local.codecs, remote.codecs, calls, i, j, l, r) && l.kind == kind
                && (AnsweredAs(d, l, r, calls, exts) || RtxSent(d, l, r, local.codecs, remote.codecs))
    {
      ReducedContents(RemoteCodecs(es, kind), exts, d);
      var c :| c in RemoteCodecs(es, kind) && d == c.(rtcpFeedback := KeptOf(c.rtcpFeedback, exts));
      var e :| e in es && e.kind == kind && c in SentOf(e, e.remoteParameters);
      SourceOf(local, remote, calls, e);
      var i: nat, j: nat, l, r :| Source(local.codecs, remote.codecs, calls, i, j, l, r) && FromBoth(e, l, r, calls);
      AnswerOfKind(e, l, r, calls, local.codecs, remote.codecs, exts, c);
    }
    forall i: nat, j: nat, l, r | Source(local.codecs, remote.codecs, calls, i, j, l, r) && l.kind == kind
      ensures exists c :: c in answer && AnsweredAs(c, l, r, calls, exts)
      ensures HasRtx(local.codecs, l.payloadType) && HasRtx(remote.codecs, r.payloadType) ==>
                exists c :: c in answer && RtxSent(c, l, r, local.codecs, remote.codecs)
    {
      SourceGives(local, remote, calls, i, j, l, r);
      var e :| e in es && FromBoth(e, l, r, calls);
      AnswerOfMeans(e, l, r, calls, local.codecs, remote.codecs, exts);
      ReducedLength(SentOf(e, e.remoteParameters), exts);
      AnswerHas(es, kind, e, exts, 0);
      if HasRtx(local.codecs, l.payloadType) && HasRtx(remote.codecs, r.payloadType) { AnswerHas(es, kind, e, exts, 1); }
    }
  }

  lemma ReducedLength(cs: seq<SendCodec>, exts: seq<SendExt>)
    ensures |Reduced(cs, exts)| == |cs|
  {}
}
