/**
  What follows from the negotiated capabilities: the capabilities for receiving, and the
  parameters for sending and for the answer to it (mssdk/sdputil/jsonvalidate.cpp, lines
  1092-1438 and 1496-1567). The three have to agree with each other.
 */
module SendReceive {
  import opened Prelude
  import opened Json
  import opened RtpParams
  import opened Capabilities
  import opened Negotiation

  // ---- Receiving ----

  function RecvCodec(e: Extended): Capability {
    Capability(e.mimeType, e.kind, e.remotePayloadType, e.clockRate, e.channels, e.localParameters, e.rtcpFeedback)
  }

  /** The RTX codec of a codec names its payload type, as a byte. */
  function RecvRtx(e: Extended): Capability
    requires e.remoteRtx.Some?
  {
    Capability(e.kind + "/rtx", e.kind, e.remoteRtx.value, e.clockRate, None, map[Key.Apt := Num(e.remotePayloadType % 256)], [])
  }

  function RecvOf(e: Extended): seq<Capability> { [RecvCodec(e)] + if e.remoteRtx.Some? then [RecvRtx(e)] else [] }

  function RecvCodecs(es: seq<Extended>): seq<Capability> {
    if es == [] then [] else RecvCodecs(es[..|es| - 1]) + RecvOf(es[|es| - 1])
  }

  function RecvExts(exts: seq<ExtendedExt>): seq<ExtCapability> {
    if exts == [] then []
    else
      var ext := exts[|exts| - 1];
      RecvExts(exts[..|exts| - 1])
        + if ext.direction == "sendrecv" || ext.direction == "recvonly"
          then [ExtCapability(ext.kind, ext.uri, ext.recvId, ext.encrypt, ext.direction)] else []
  }

  function RecvCaps(extended: ExtendedCaps): RtpCapabilities { RtpCaps(RecvCodecs(extended.codecs), RecvExts(extended.exts)) }

  method GetRecvRtpCapabilities(extended: ExtendedCaps) returns (caps: RtpCapabilities)
    ensures caps == RecvCaps(extended)
  {
    hide RecvCodec, RecvRtx;
    var codecs: seq<Capability> := [];
    for i := 0 to |extended.codecs|
      invariant codecs == RecvCodecs(extended.codecs[..i])
    {
      assert extended.codecs[..i + 1][..i] == extended.codecs[..i];
      var e := extended.codecs[i];
      ghost var before := codecs;
      codecs := codecs + [RecvCodec(e)];
      if e.remoteRtx.Some? {
        codecs := codecs + [RecvRtx(e)];
      }
      assert codecs == before + RecvOf(e);
    }
    assert extended.codecs[..|extended.codecs|] == extended.codecs;
    var exts: seq<ExtCapability> := [];
    for i := 0 to |extended.exts|
      invariant exts == RecvExts(extended.exts[..i])
    {
      assert extended.exts[..i + 1][..i] == extended.exts[..i];
      var ext := extended.exts[i];
      if ext.direction == "sendrecv" || ext.direction == "recvonly" {
        exts := exts + [ExtCapability(ext.kind, ext.uri, ext.recvId, ext.encrypt, ext.direction)];
      }
    }
    assert extended.exts[..|extended.exts|] == extended.exts;
    caps := RtpCaps(codecs, exts);
  }

  // ---- What negotiated codecs are like ----

  predicate Distinct(cs: seq<Capability>) { forall i, j :: 0 <= i < j < |cs| ==> cs[i].payloadType != cs[j].payloadType }

  predicate Has(cs: seq<Capability>, payloadType: int, rtx: bool) {
    exists i :: 0 <= i < |cs| && cs[i].payloadType == payloadType && (IsRtx(cs[i].mimeType) <==> rtx)
  }

  /** A codec with the payload type that is RTX for `apt`. */
  predicate HasRtxFor(cs: seq<Capability>, payloadType: int, apt: int) {
    exists i :: 0 <= i < |cs| && cs[i].payloadType == payloadType && IsRtx(cs[i].mimeType) && AptOf(cs[i]) == Some(apt)
  }

  /** What a negotiated codec owes to the codecs of both sides. */
  predicate Sound(e: Extended, remote: seq<Capability>) {
    !IsRtx(e.mimeType) && Has(remote, e.remotePayloadType, false) && MimeKind(e.mimeType) == Some(e.kind)
    && (e.channels.Some? ==> e.kind == "audio") && ParametersValid(e.localParameters)
    && (e.remoteRtx.Some? ==> HasRtxFor(remote, e.remoteRtx.value, e.remotePayloadType))
    && (e.localRtx.Some? <==> e.remoteRtx.Some?)
  }

  predicate RemoteDistinct(es: seq<Extended>) { forall i, j :: 0 <= i < j < |es| ==>
    es[i].remotePayloadType != es[j].remotePayloadType }

  lemma RewriteIsValid(c: Capability, outcome: Outcome)
    requires ParametersValid(c.parameters)
    ensures ParametersValid(Applied(c, outcome).parameters)
  {}

  predicate Valids(cs: seq<Capability>) { forall i :: 0 <= i < |cs| ==> ValidCodec(cs[i]) }

  /** The codecs before the step and after it have the same payload types and kinds of codec. */
  lemma SameShape(a: seq<Capability>, b: seq<Capability>)
    requires SameButH264(a, b)
    ensures forall pt, rtx :: Has(a, pt, rtx) <==> Has(b, pt, rtx)
    ensures forall pt, apt :: HasRtxFor(a, pt, apt) <==> HasRtxFor(b, pt, apt)
    ensures Distinct(a) <==> Distinct(b)
  {
    hide Lower, AptOf;
    H264IsNoRtx();
  }

  lemma H264IsNoRtx()
    ensures forall mimeType :: IsH264(mimeType) ==> !IsRtx(mimeType)
  {
    hide Lower;
  }

  /** Codecs that were matched so far: sound, with remote payload types of the codecs looked at, each of which is used once. */
  predicate MatchedSoFar(p: Progress, remote: seq<Capability>, n: nat)
    requires n <= |remote|
  {
    Valids(p.local) && (Distinct(remote) ==> RemoteDistinct(p.extended))
    && forall e <- p.extended ::
         Sound(e, remote) && e.remoteRtx.None? && e.localRtx.None? && Has(remote[..n], e.remotePayloadType, false)
  }

  lemma PairedIsSound(l: Capability, r: Capability, outcome: Outcome, remote: seq<Capability>, n: nat)
    requires n < |remote| && remote[n].payloadType == r.payloadType && remote[n].mimeType == r.mimeType && !IsRtx(r.mimeType)
    requires ValidCodec(l) && Lower(l.mimeType) == Lower(r.mimeType)
    ensures var e := Paired(Applied(l, outcome), Applied(r, outcome));
            Sound(e, remote) && Has(remote[..n + 1], e.remotePayloadType, false) && e.remotePayloadType == r.payloadType
            && e.remoteRtx.None? && e.localRtx.None?
    ensures ValidCodec(Applied(l, outcome))
  {
    hide Lower, MimeKind, ParametersValid, Common;
    RewriteIsValid(l, outcome);
    SameMime(l.mimeType, r.mimeType);
    assert remote[..n + 1][n] == remote[n];
  }

  lemma NewPayloadType(remote: seq<Capability>, n: nat, payloadType: int)
    requires n < |remote| && Has(remote[..n], payloadType, false)
    ensures Distinct(remote) ==> payloadType != remote[n].payloadType
    ensures Has(remote[..n + 1], payloadType, false)
  {
    hide IsRtx;
    var i :| 0 <= i < n && remote[..n][i].payloadType == payloadType && !IsRtx(remote[..n][i].mimeType);
    assert remote[..n + 1][i] == remote[..n][i] == remote[i];
  }

  lemma MatchStepIsSound(p: Progress, remote: seq<Capability>, n: nat, calls: H264Calls)
    requires n < |remote| && |p.remote| == |remote| && MatchedSoFar(p, remote, n) && p.remote[n] == remote[n]
    ensures MatchedSoFar(MatchStep(p, n, calls), remote, n + 1)
  {
    hide Matched, Lower, Applied, Paired, Sound, ValidCodec, Has, IsRtx, Distinct;
    var r := remote[n];
    var j := FirstMatch(p.local, r, calls);
    forall e | e in p.extended
      ensures (Distinct(remote) ==> e.remotePayloadType != r.payloadType) && Has(remote[..n + 1], e.remotePayloadType, false)
    {
      NewPayloadType(remote, n, e.remotePayloadType);
    }
    if !IsRtx(r.mimeType) && j < |p.local| {
      MatchedMeans(p.local[j], r, calls);
      PairedIsSound(p.local[j], r, Matched(p.local[j], r, calls), remote, n);
      assert forall i :: 0 <= i < |p.extended| ==> p.extended[i] in p.extended;
    }
  }

  lemma {:induction false} MatchesAreSound(local: seq<Capability>, remote: seq<Capability>, n: nat, calls: H264Calls)
    requires n <= |remote| && Valids(local)
    ensures MatchedSoFar(MatchSteps(local, remote, n, calls), remote, n)
  {
    hide MatchStep, Sound, Has, ValidCodec, Distinct, SameButH264;
    if n > 0 {
      MatchesAreSound(local, remote, n - 1, calls);
      StepsKeep(local, remote, n - 1, calls);
      MatchStepIsSound(MatchSteps(local, remote, n - 1, calls), remote, n - 1, calls);
    }
  }

  lemma RtxIsSound(e: Extended, local: seq<Capability>, remote: seq<Capability>)
    requires Sound(e, remote) && e.remoteRtx.None?
    ensures Sound(WithRtx(e, local, remote), remote) && WithRtx(e, local, remote).remotePayloadType == e.remotePayloadType
  {
    hide IsRtx, MimeKind, ParametersValid, AptOf, Has;
  }

  lemma SoundFor(e: Extended, a: seq<Capability>, b: seq<Capability>)
    requires Sound(e, a) && (forall pt, rtx :: Has(a, pt, rtx) <==> Has(b, pt, rtx))
            && (forall pt, apt :: HasRtxFor(a, pt, apt) <==> HasRtxFor(b, pt, apt))
    ensures Sound(e, b)
  {
    hide IsRtx, MimeKind, ParametersValid, Has, HasRtxFor;
  }

  /** Every negotiated codec is sound; no two have the same remote payload type when no two codecs of the other side have. */
  lemma NegotiatedIsSound(local: RtpCapabilities, remote: RtpCapabilities, calls: H264Calls)
    requires Directed(remote.exts) && Valids(local.codecs)
    ensures Distinct(remote.codecs) ==> RemoteDistinct(Negotiated(local, remote, calls).codecs)
    ensures forall e <- Negotiated(local, remote, calls).codecs :: Sound(e, remote.codecs)
  {
    hide Sound, Has, HasRtxFor, ValidCodec, Distinct, SameButH264, MatchSteps, WithRtx, ExtendedExts;
    var n := |remote.codecs|;
    MatchesAreSound(local.codecs, remote.codecs, n, calls);
    StepsKeep(local.codecs, remote.codecs, n, calls);
    var p := MatchSteps(local.codecs, remote.codecs, n, calls);
    SameShape(p.remote, remote.codecs);
    var es := WithRtxAll(p.extended, p.local, p.remote);
    forall i | 0 <= i < |es| ensures Sound(es[i], remote.codecs) && es[i].remotePayloadType == p.extended[i].remotePayloadType {
      assert p.extended[i] in p.extended;
      SoundFor(p.extended[i], remote.codecs, p.remote);
      RtxIsSound(p.extended[i], p.local, p.remote);
      SoundFor(es[i], p.remote, remote.codecs);
    }
  }

  // ---- Payload types for receiving ----

  /** The payload types that a negotiated codec takes in receiving. */
  predicate Takes(e: Extended, payloadType: int) { payloadType == e.remotePayloadType || e.remoteRtx == Some(payloadType) }

  lemma {:induction false} RecvTakes(es: seq<Extended>)
    ensures forall c <- RecvCodecs(es) :: exists e :: e in es && Takes(e, c.payloadType)
  {
    if es != [] {
      var front, e := es[..|es| - 1], es[|es| - 1];
      RecvTakes(front);
      forall c | c in RecvCodecs(es) ensures exists e :: e in es && Takes(e, c.payloadType) {
        if c in RecvCodecs(front) {
          var x :| x in front && Takes(x, c.payloadType);
          assert x in es;
        } else {
          assert c in RecvOf(e) && e in es && Takes(e, c.payloadType);
        }
      }
    }
  }

  /** Payload types of distinct codecs of the other side do not clash. */
  lemma NoClash(a: Extended, b: Extended, remote: seq<Capability>, payloadType: int)
    requires Distinct(remote) && Sound(a, remote) && Sound(b, remote) && Takes(a, payloadType) && Takes(b, payloadType)
    ensures a.remotePayloadType == b.remotePayloadType
  {
    hide IsRtx, MimeKind, ParametersValid, AptOf;
  }

  lemma OwnTypesDiffer(e: Extended, remote: seq<Capability>)
    requires Distinct(remote) && Sound(e, remote)
    ensures e.remoteRtx != Some(e.remotePayloadType)
  {
    hide IsRtx, MimeKind, ParametersValid, AptOf;
  }

  lemma RecvOfTakes(e: Extended)
    ensures forall c <- RecvOf(e) :: Takes(e, c.payloadType)
  {}

  lemma RecvOfTypes(e: Extended)
    ensures |RecvOf(e)| <= 2 && RecvOf(e)[0].payloadType == e.remotePayloadType
    ensures |RecvOf(e)| == 2 ==> e.remoteRtx == Some(RecvOf(e)[1].payloadType)
  {}

  lemma {:induction false} RecvIsDistinct(es: seq<Extended>, remote: seq<Capability>)
    requires Distinct(remote) && RemoteDistinct(es) && forall e <- es :: Sound(e, remote)
    ensures Distinct(RecvCodecs(es))
  {
    hide Sound, Takes, RecvCodec, RecvRtx;
    if es != [] {
      var front, e := es[..|es| - 1], es[|es| - 1];
      assert e in es && forall x <- front :: x in es;
      RecvIsDistinct(front, remote);
      RecvTakes(front);
      OwnTypesDiffer(e, remote);
      RecvOfTypes(e);
      var a, b := RecvCodecs(front), RecvOf(e);
      forall i, j | 0 <= i < |a| && 0 <= j < |b| ensures a[i].payloadType != b[j].payloadType {
        assert a[i] in a;
        assert b[j] in RecvOf(e);
        RecvOfTakes(e);
        NotTakenTwice(es, remote, a[i].payloadType, b[j].payloadType);
      }
    }
  }

  lemma NotTakenTwice(es: seq<Extended>, remote: seq<Capability>, p: int, q: int)
    requires es != [] && Distinct(remote) && RemoteDistinct(es) && forall e <- es :: Sound(e, remote)
    requires exists x :: x in es[..|es| - 1] && Takes(x, p)
    requires Takes(es[|es| - 1], q)
    ensures p != q
  {
    hide Sound, Takes;
    var e := es[|es| - 1];
    var x :| x in es[..|es| - 1] && Takes(x, p);
    var k :| 0 <= k < |es| - 1 && es[k] == x;
    assert e in es && x in es && es[k].remotePayloadType != e.remotePayloadType;
    if p == q { NoClash(x, e, remote, p); }
  }

  /** Every payload type is one of the other side. */
  predicate FromRemote(cs: seq<Capability>, remote: seq<Capability>) {
    forall i :: 0 <= i < |cs| ==> exists k :: 0 <= k < |remote| && cs[i].payloadType == remote[k].payloadType
  }

  lemma {:induction false} RecvIsFromRemote(es: seq<Extended>, remote: seq<Capability>)
    requires forall e <- es :: Sound(e, remote)
    ensures FromRemote(RecvCodecs(es), remote)
  {
    hide IsRtx, MimeKind, ParametersValid, AptOf;
    RecvTakes(es);
    var cs := RecvCodecs(es);
    forall i | 0 <= i < |cs| ensures exists k :: 0 <= k < |remote| && cs[i].payloadType == remote[k].payloadType {
      assert cs[i] in cs;
      var e :| e in es && Takes(e, cs[i].payloadType);
    }
  }

  /** Every RTX codec directly follows the codec that its apt names. */
  predicate RtxFollows(cs: seq<Capability>) {
    forall i :: 0 <= i < |cs| && IsRtx(cs[i].mimeType) ==>
      i > 0 && !IsRtx(cs[i - 1].mimeType) && AptOf(cs[i]) == Some(cs[i - 1].payloadType)
  }

  lemma RtxMime(kind: string)
    requires Lower(kind) == "audio" || Lower(kind) == "video"
    ensures IsRtx(kind + "/rtx") && MimeKind(kind + "/rtx") == Some(kind)
  {
    var m := kind + "/rtx";
    assert |kind| == 5;
    assert forall i :: 0 <= i < 5 ==> Lower(m)[i] == Lower(kind)[i];
    assert Lower(m)[5] == '/' && Lower(m)[6] == 'r' && Lower(m)[7] == 't' && Lower(m)[8] == 'x' && |Lower(m)| == 9;
    assert Lower(m) == Lower(kind) + "/rtx";
    assert m[..5] == kind && m[6..] == "rtx";
    assert Lower(m[..6]) == Lower(kind) + "/";
  }

  lemma KindOfMime(mimeType: string)
    requires MimeKind(mimeType).Some?
    ensures Lower(MimeKind(mimeType).value) == "audio" || Lower(MimeKind(mimeType).value) == "video"
  {
    assert Lower(mimeType[..5]) == Lower(mimeType[..6])[..5];
    assert "audio/"[..5] == "audio" && "video/"[..5] == "video";
  }

  /** A byte for the payload types, as RTP has it. */
  predicate Bytes(cs: seq<Capability>) { forall i :: 0 <= i < |cs| ==> 0 <= cs[i].payloadType < 256 }

  lemma OneFollows(e: Extended, remote: seq<Capability>)
    requires Bytes(remote) && Sound(e, remote)
    ensures RtxFollows(RecvOf(e)) && RecvOf(e) != [] && !IsRtx(RecvOf(e)[0].mimeType)
  {
    hide IsRtx, MimeKind, ParametersValid, Lower, HasRtxFor;
    assert 0 <= e.remotePayloadType < 256;
  }

  lemma {:induction false} RecvRtxFollows(es: seq<Extended>, remote: seq<Capability>)
    requires Bytes(remote) && forall e <- es :: Sound(e, remote)
    ensures RtxFollows(RecvCodecs(es))
  {
    hide IsRtx, MimeKind, ParametersValid, Lower, HasRtxFor;
    if es != [] {
      var front, e := es[..|es| - 1], es[|es| - 1];
      assert e in es && forall x <- front :: x in es;
      RecvRtxFollows(front, remote);
      OneFollows(e, remote);
      hide RecvOf, Sound;
    }
  }

  /**
    Every payload type for receiving is one of the other side's, and they are distinct if the other
    side's are; every RTX codec directly follows the codec that its apt names.
   */
  lemma RecvPayloadTypes(local: RtpCapabilities, remote: RtpCapabilities, calls: H264Calls)
    requires Directed(remote.exts) && Valids(local.codecs)
    ensures var cs := RecvCaps(Negotiated(local, remote, calls)).codecs;
            FromRemote(cs, remote.codecs)
            && (Distinct(remote.codecs) ==> Distinct(cs))
            && (Bytes(remote.codecs) ==> RtxFollows(cs))
  {
    hide Sound, Distinct, RemoteDistinct, FromRemote, RtxFollows, Bytes, Valids, Negotiated, RecvExts, RecvCodecs;
    NegotiatedIsSound(local, remote, calls);
    var es := Negotiated(local, remote, calls).codecs;
    RecvIsFromRemote(es, remote.codecs);
    if Distinct(remote.codecs) { RecvIsDistinct(es, remote.codecs); }
    if Bytes(remote.codecs) { RecvRtxFollows(es, remote.codecs); }
  }

  // ---- Validation accepts the capabilities for receiving ----

  lemma RecvOfAccepted(e: Extended, remote: seq<Capability>)
    requires Sound(e, remote)
    ensures forall c <- RecvOf(e) :: Acceptable(c)
  {
    hide Lower, IsRtx, MimeKind, ParametersValid, HasRtxFor, Has;
    KindOfMime(e.mimeType);
    RtxMime(e.kind);
    AptIsValid(e.remotePayloadType % 256);
  }

  lemma AptIsValid(n: int)
    ensures ParametersValid(map[Key.Apt := Num(n)])
  {}

  lemma {:induction false} RecvCodecsAccepted(es: seq<Extended>, remote: seq<Capability>)
    requires forall e <- es :: Sound(e, remote)
    ensures forall c <- RecvCodecs(es) :: Acceptable(c)
  {
    hide Sound, Acceptable, RecvOf;
    if es != [] {
      var front, e := es[..|es| - 1], es[|es| - 1];
      assert e in es && forall x <- front :: x in es;
      RecvCodecsAccepted(front, remote);
      RecvOfAccepted(e, remote);
    }
  }

  predicate ValidExtended(exts: seq<ExtendedExt>) { forall ext <- exts :: IsMedia(ext.kind) && ext.uri != "" }

  lemma {:induction false} ExtendedExtsValid(local: seq<ExtCapability>, remote: seq<ExtCapability>)
    requires Directed(remote) && forall ext <- remote :: ValidExt(ext)
    ensures ValidExtended(ExtendedExts(local, remote))
  {
    hide IsMedia;
    if remote != [] {
      assert remote[|remote| - 1] in remote && forall x <- remote[..|remote| - 1] :: x in remote;
      ExtendedExtsValid(local, remote[..|remote| - 1]);
    }
  }

  lemma {:induction false} RecvExtsValid(exts: seq<ExtendedExt>)
    requires ValidExtended(exts)
    ensures forall ext <- RecvExts(exts) :: ValidExt(ext)
  {
    hide IsMedia;
    if exts != [] {
      assert exts[|exts| - 1] in exts && forall x <- exts[..|exts| - 1] :: x in exts;
      RecvExtsValid(exts[..|exts| - 1]);
    }
  }

  /**
    The capabilities for receiving that come out of any negotiation of valid capabilities are
    accepted by validation, which changes nothing but that the RTX codecs of audio get one channel.
   */
  lemma RecvIsAccepted(local: RtpCapabilities, remote: RtpCapabilities, calls: H264Calls)
    requires Directed(remote.exts) && Valids(local.codecs) && forall ext <- remote.exts :: ValidExt(ext)
    ensures var caps := RecvCaps(Negotiated(local, remote, calls)); Validated(CapsJson(caps)) == Ok(CapsJson(FilledCaps(caps)))
  {
    NegotiatedIsSound(local, remote, calls);
    hide Sound, Distinct, RemoteDistinct, Valids, RecvExts, RecvCodecs, Acceptable, ValidExt, CapsJson, FilledCaps,
      Validated, WithRtxAll, ExtendedExts, ValidExtended;
    RecvCodecsAccepted(Negotiated(local, remote, calls).codecs, remote.codecs);
    ExtendedExtsValid(local.exts, remote.exts);
    RecvExtsValid(ExtendedExts(local.exts, remote.exts));
    CapsAccepted(RecvCaps(Negotiated(local, remote, calls)));
  }

  // ---- Sending ----

  datatype SendCodec = SendCodec(
    mimeType: string, payloadType: int, clockRate: int, channels: Option<int>, parameters: Fields, rtcpFeedback: seq<Feedback>)

  datatype SendExt = SendExt(uri: string, id: int, encrypt: bool)

  datatype SendParameters = SendParameters(codecs: seq<SendCodec>, exts: seq<SendExt>)

  function SentRtx(e: Extended): seq<SendCodec> {
    if e.localRtx.Some?
    then [SendCodec(e.kind + "/rtx", e.localRtx.value, e.clockRate, None, map[Key.Apt := Num(e.localPayloadType % 256)], [])]
    else []
  }

  /** A codec with its RTX codec, with the parameters of the local side or of the other side. */
  function SentOf(e: Extended, parameters: Fields): seq<SendCodec> {
    [SendCodec(e.mimeType, e.localPayloadType, e.clockRate, e.channels, parameters, e.rtcpFeedback)] + SentRtx(e)
  }

  /** The first codec of a kind, or the number of codecs. */
  function FirstOf(es: seq<Extended>, kind: string): (n: nat)
    ensures n <= |es| && (n < |es| ==> es[n].kind == kind)
    ensures forall i :: 0 <= i < n ==> es[i].kind != kind
  {
    if es == [] || es[0].kind == kind then 0 else 1 + FirstOf(es[1..], kind)
  }

  /** canSend. */
  predicate CanSend(extended: ExtendedCaps, kind: string) { FirstOf(extended.codecs, kind) < |extended.codecs| }

  function SendExts(exts: seq<ExtendedExt>, kind: string): seq<SendExt> {
    if exts == [] then []
    else
      var ext := exts[|exts| - 1];
      SendExts(exts[..|exts| - 1], kind)
        + if ext.kind == kind && (ext.direction == "sendrecv" || ext.direction == "sendonly")
          then [SendExt(ext.uri, ext.sendId, ext.encrypt)] else []
  }

  /** The parameters for sending have the first codec of the kind only. */
  function Sending(extended: ExtendedCaps, kind: string): SendParameters {
    var n := FirstOf(extended.codecs, kind);
    SendParameters(if n == |extended.codecs| then [] else SentOf(extended.codecs[n], extended.codecs[n].localParameters),
                   SendExts(extended.exts, kind))
  }

  function RemoteCodecs(es: seq<Extended>, kind: string): seq<SendCodec> {
    if es == [] then []
    else
      var e := es[|es| - 1];
      RemoteCodecs(es[..|es| - 1], kind) + if e.kind == kind then SentOf(e, e.remoteParameters) else []
  }

  const TRANSPORT_CC := "http://www.ietf.org/id/draft-holmer-rmcat-transport-wide-cc-extensions-01"
  const ABS_SEND_TIME := "http://www.webrtc.org/experiments/rtp-hdrext/abs-send-time"

  predicate Uses(exts: seq<SendExt>, uri: string) { exists i :: 0 <= i < |exts| && exts[i].uri == uri }

  /** The congestion feedback that goes with the header extensions; any other feedback is kept. */
  predicate Kept(fb: Feedback, exts: seq<SendExt>) {
    if Uses(exts, TRANSPORT_CC) then fb.kind != "goog-remb"
    else if Uses(exts, ABS_SEND_TIME) then fb.kind != "transport-cc"
    else fb.kind != "transport-cc" && fb.kind != "goog-remb"
  }

  /** The feedback that is kept, in its order. */
  function KeptOf(fbs: seq<Feedback>, exts: seq<SendExt>): seq<Feedback> {
    if fbs == [] then [] else KeptOf(fbs[..|fbs| - 1], exts) + if Kept(fbs[|fbs| - 1], exts) then [fbs[|fbs| - 1]] else []
  }

  function Reduced(cs: seq<SendCodec>, exts: seq<SendExt>): seq<SendCodec> {
    seq(|cs|, i requires 0 <= i < |cs| => cs[i].(rtcpFeedback := KeptOf(cs[i].rtcpFeedback, exts)))
  }

  /** The parameters for the answer have all the codecs of the kind, with the feedback that is kept. */
  function SendingRemote(extended: ExtendedCaps, kind: string): SendParameters {
    var exts := SendExts(extended.exts, kind);
    SendParameters(Reduced(RemoteCodecs(extended.codecs, kind), exts), exts)
  }

  /** reduceCodecs without a preferred codec: the first codec, and its RTX codec. */
  function FirstCodecs(cs: seq<SendCodec>): seq<SendCodec>
    requires cs != []
  {
    if |cs| > 1 && IsRtx(cs[1].mimeType) then [cs[0], cs[1]] else [cs[0]]
  }

  method BuildSendExts(exts: seq<ExtendedExt>, kind: string) returns (r: seq<SendExt>)
    ensures r == SendExts(exts, kind)
  {
    r := [];
    for i := 0 to |exts|
      invariant r == SendExts(exts[..i], kind)
    {
      assert exts[..i + 1][..i] == exts[..i];
      var ext := exts[i];
      if kind == ext.kind && (ext.direction == "sendrecv" || ext.direction == "sendonly") {
        r := r + [SendExt(ext.uri, ext.sendId, ext.encrypt)];
      }
    }
    assert exts[..|exts|] == exts;
  }

  /** getSendingRtpParameters: the loop stops after the first codec of the kind. */
  method GetSendingRtpParameters(extended: ExtendedCaps, kind: string) returns (params: SendParameters)
    ensures params == Sending(extended, kind)
  {
    var codecs: seq<SendCodec> := [];
    var es := extended.codecs;
    var i := 0;
    while i < |es|
      invariant i <= |es| && codecs == [] && FirstOf(es, kind) == i + FirstOf(es[i..], kind)
    {
      assert es[i..][1..] == es[i + 1..];
      if es[i].kind == kind {
        codecs := SentOf(es[i], es[i].localParameters);
        break;
      }
      i := i + 1;
    }
    var exts := BuildSendExts(extended.exts, kind);
    params := SendParameters(codecs, exts);
  }

  /** One of the loops that erase feedback while they walk over it. */
  method EraseFeedback(fbs: seq<Feedback>, exts: seq<SendExt>) returns (r: seq<Feedback>)
    ensures r == KeptOf(fbs, exts)
  {
    hide Kept;
    r := fbs;
    var it := 0;
    ghost var n := 0;
    while it < |r|
      invariant n <= |fbs| && it <= |r| && r[it..] == fbs[n..] && r[..it] == KeptOf(fbs[..n], exts)
      decreases |r| - it
    {
      assert r[it] == fbs[n] && fbs[..n + 1][..n] == fbs[..n] && r[it + 1..] == r[it..][1..] && fbs[n + 1..] == fbs[n..][1..];
      if Kept(r[it], exts) {
        it := it + 1;
      } else {
        r := r[..it] + r[it + 1..];
      }
      n := n + 1;
    }
    assert r[..it] == r && fbs[n..] == [] && fbs[..n] == fbs;
  }

  /** getSendingRemoteRtpParameters: all codecs of the kind, then the feedback of each codec. */
  method GetSendingRemoteRtpParameters(extended: ExtendedCaps, kind: string) returns (params: SendParameters)
    ensures params == SendingRemote(extended, kind)
  {
    hide KeptOf, SentOf;
    var codecs: seq<SendCodec> := [];
    for i := 0 to |extended.codecs|
      invariant codecs == RemoteCodecs(extended.codecs[..i], kind)
    {
      assert extended.codecs[..i + 1][..i] == extended.codecs[..i];
      if extended.codecs[i].kind == kind {
        codecs := codecs + SentOf(extended.codecs[i], extended.codecs[i].remoteParameters);
      }
    }
    assert extended.codecs[..|extended.codecs|] == extended.codecs;
    var exts := BuildSendExts(extended.exts, kind);
    ghost var all := codecs;
    for i := 0 to |codecs|
      invariant |codecs| == |all|
      invariant forall k :: i <= k < |all| ==> codecs[k] == all[k]
      invariant forall k :: 0 <= k < i ==> codecs[k] == Reduced(all, exts)[k]
    {
      var fbs := EraseFeedback(codecs[i].rtcpFeedback, exts);
      codecs := codecs[i := codecs[i].(rtcpFeedback := fbs)];
    }
    assert codecs == Reduced(all, exts);
    params := SendParameters(codecs, exts);
  }

  /** The erasing loops lose nothing but the feedback that is not kept. */
  lemma {:induction false} KeptMeans(fbs: seq<Feedback>, exts: seq<SendExt>)
    ensures forall fb :: fb in KeptOf(fbs, exts) <==> fb in fbs && Kept(fb, exts)
    ensures (forall fb <- fbs :: Kept(fb, exts)) ==> KeptOf(fbs, exts) == fbs
  {
    hide Kept;
    if fbs != [] {
      var front, fb := fbs[..|fbs| - 1], fbs[|fbs| - 1];
      assert fbs == front + [fb];
      KeptMeans(front, exts);
    }
  }

  /** No answer asks for both kinds of congestion feedback, and for neither without a header extension for it. */
  lemma CongestionFeedback(fbs: seq<Feedback>, exts: seq<SendExt>, a: Feedback, b: Feedback)
    requires a in KeptOf(fbs, exts) && b in KeptOf(fbs, exts)
    ensures !(a.kind == "transport-cc" && b.kind == "goog-remb")
    ensures a.kind == "transport-cc" ==> Uses(exts, TRANSPORT_CC)
    ensures a.kind == "goog-remb" ==> Uses(exts, ABS_SEND_TIME) && !Uses(exts, TRANSPORT_CC)
  {
    KeptMeans(fbs, exts);
    hide KeptOf, Uses;
  }

  // ---- Offer and answer describe the same codec ----

  /** What an offer and its answer have to share. */
  predicate SameCodec(a: SendCodec, b: SendCodec) {
    a.mimeType == b.mimeType && a.payloadType == b.payloadType && a.clockRate == b.clockRate && a.channels == b.channels
  }

  predicate SameCodecs(a: seq<SendCodec>, b: seq<SendCodec>) { |a| == |b| && forall i :: 0 <= i < |a| ==> SameCodec(a[i], b[i]) }

  /** No codec before the first one of the kind goes into the answer; the first one comes first. */
  lemma {:induction false} RemoteStarts(es: seq<Extended>, kind: string)
    requires FirstOf(es, kind) < |es| && forall e <- es :: !IsRtx(e.mimeType)
    ensures var e, cs := es[FirstOf(es, kind)], RemoteCodecs(es, kind);
            SentOf(e, e.remoteParameters) <= cs
            && (|cs| > |SentOf(e, e.remoteParameters)| ==> !IsRtx(cs[|SentOf(e, e.remoteParameters)|].mimeType))
  {
    hide IsRtx;
    var n, front, last := FirstOf(es, kind), es[..|es| - 1], es[|es| - 1];
    assert forall e <- front :: e in es;
    if n < |front| {
      FirstOfFront(es, kind);
      RemoteStarts(front, kind);
      assert last in es;
    } else {
      NoneBefore(front, kind);
    }
  }

  lemma {:induction false} FirstOfFront(es: seq<Extended>, kind: string)
    requires es != []
    ensures FirstOf(es, kind) < |es| - 1 ==> FirstOf(es[..|es| - 1], kind) == FirstOf(es, kind)
  {}

  lemma {:induction false} NoneBefore(es: seq<Extended>, kind: string)
    requires forall i :: 0 <= i < |es| ==> es[i].kind != kind
    ensures RemoteCodecs(es, kind) == []
  {
    if es != [] { NoneBefore(es[..|es| - 1], kind); }
  }

  lemma SentRtxIsRtx(e: Extended)
    requires MimeKind(e.mimeType) == Some(e.kind)
    ensures forall c <- SentRtx(e) :: IsRtx(c.mimeType)
  {
    hide IsRtx, MimeKind, Lower;
    KindOfMime(e.mimeType);
    RtxMime(e.kind);
  }

  lemma FirstOfPrefix(cs: seq<SendCodec>, sent: seq<SendCodec>)
    requires 1 <= |sent| <= 2 && sent <= cs && (|sent| == 2 ==> IsRtx(sent[1].mimeType))
    requires |cs| > |sent| ==> !IsRtx(cs[|sent|].mimeType)
    ensures FirstCodecs(cs) == sent
  {
    hide IsRtx;
    assert forall i :: 0 <= i < |sent| ==> cs[i] == sent[i];
  }

  lemma SameFirst(a: seq<SendCodec>, b: seq<SendCodec>)
    requires a != [] && SameCodecs(a, b)
    ensures SameCodecs(FirstCodecs(a), FirstCodecs(b))
  {
    hide IsRtx;
  }

  lemma SentAlike(e: Extended, a: Fields, b: Fields)
    ensures SameCodecs(SentOf(e, a), SentOf(e, b)) && 1 <= |SentOf(e, a)| <= 2
    ensures MimeKind(e.mimeType) == Some(e.kind) && |SentOf(e, a)| == 2 ==> IsRtx(SentOf(e, a)[1].mimeType)
  {
    hide IsRtx, MimeKind;
    if MimeKind(e.mimeType) == Some(e.kind) {
      SentRtxIsRtx(e);
      assert forall i :: 0 <= i < |SentRtx(e)| ==> SentRtx(e)[i] in SentRtx(e);
    }
  }

  /** Whatever can be sent, the codecs of the offer and of the answer, each reduced to the first one, are the same. */
  lemma OfferAndAnswerAgree(extended: ExtendedCaps, kind: string, remote: seq<Capability>)
    requires CanSend(extended, kind) && forall e <- extended.codecs :: Sound(e, remote)
    ensures Sending(extended, kind).codecs != [] && SendingRemote(extended, kind).codecs != []
    ensures SameCodecs(FirstCodecs(Sending(extended, kind).codecs), FirstCodecs(SendingRemote(extended, kind).codecs))
  {
    hide IsRtx, MimeKind, Has, HasRtxFor, ParametersValid, Reduced, SendExts, SentOf, RemoteCodecs, FirstCodecs;
    var es := extended.codecs;
    var e := es[FirstOf(es, kind)];
    assert e in es;
    var offered, answered := SentOf(e, e.localParameters), SentOf(e, e.remoteParameters);
    var cs := RemoteCodecs(es, kind);
    RemoteStarts(es, kind);
    SentAlike(e, e.localParameters, e.remoteParameters);
    SentAlike(e, e.remoteParameters, e.remoteParameters);
    FirstOfPrefix(offered, offered);
    FirstOfPrefix(cs, answered);
    ReducedKeeps(cs, SendExts(extended.exts, kind));
    SameFirst(cs, Reduced(cs, SendExts(extended.exts, kind)));
  }

  lemma ReducedKeeps(cs: seq<SendCodec>, exts: seq<SendExt>)
    ensures |Reduced(cs, exts)| == |cs| && forall i :: 0 <= i < |cs| ==> SameCodec(Reduced(cs, exts)[i], cs[i])
  {
    hide KeptOf;
  }

  /** For every negotiation the two agree, whenever the kind can be sent. */
  lemma NegotiatedOfferAndAnswerAgree(local: RtpCapabilities, remote: RtpCapabilities, calls: H264Calls, kind: string)
    requires Directed(remote.exts) && Valids(local.codecs)
    requires CanSend(Negotiated(local, remote, calls), kind)
    ensures var extended := Negotiated(local, remote, calls);
            Sending(extended, kind).codecs != [] && SendingRemote(extended, kind).codecs != []
            && SameCodecs(FirstCodecs(Sending(extended, kind).codecs), FirstCodecs(SendingRemote(extended, kind).codecs))
  {
    hide Sound, Negotiated, Sending, SendingRemote, SameCodecs, FirstCodecs, CanSend, Distinct, Valids, RemoteDistinct;
    NegotiatedIsSound(local, remote, calls);
    OfferAndAnswerAgree(Negotiated(local, remote, calls), kind, remote.codecs);
  }

  // ---- Directions ----

  /** What a header extension of the other side gives for receiving: the other side's id, the local wish for encryption. */
  predicate ReceivedAs(local: seq<ExtCapability>, ext: ExtCapability, c: ExtCapability) {
    var j := ExtFor(local, ext);
    j < |local| && (ext.direction == "sendrecv" || ext.direction == "sendonly")
    && c == ExtCapability(ext.kind, ext.uri, ext.id, local[j].encrypt, if ext.direction == "sendonly" then "recvonly" else "sendrecv")
  }

  /** What it gives for sending a kind: the local id. */
  predicate SentAs(local: seq<ExtCapability>, ext: ExtCapability, kind: string, c: SendExt) {
    var j := ExtFor(local, ext);
    j < |local| && ext.kind == kind && (ext.direction == "sendrecv" || ext.direction == "recvonly")
    && c == SendExt(ext.uri, local[j].id, local[j].encrypt)
  }

  lemma OneExtension(local: seq<ExtCapability>, remote: seq<ExtCapability>, kind: string)
    requires remote != [] && Directed(remote) && Directed(remote[..|remote| - 1])
    ensures var ext, front := remote[|remote| - 1], remote[..|remote| - 1];
            var all, before := ExtendedExts(local, remote), ExtendedExts(local, front);
            (forall c :: c in RecvExts(all) <==> c in RecvExts(before) || ReceivedAs(local, ext, c))
            && (forall c :: c in SendExts(all, kind) <==> c in SendExts(before, kind) || SentAs(local, ext, kind, c))
            && RecvExts(before) <= RecvExts(all) && SendExts(before, kind) <= SendExts(all, kind)
  {
    var ext, front := remote[|remote| - 1], remote[..|remote| - 1];
    var all, before := ExtendedExts(local, remote), ExtendedExts(local, front);
    assert ext in remote;
    if ExtFor(local, ext) < |local| {
      assert all[..|all| - 1] == before;
    } else {
      assert all == before;
    }
  }

  lemma NoExtensions(local: seq<ExtCapability>, kind: string)
    ensures Directed([]) && RecvExts(ExtendedExts(local, [])) == [] && SendExts(ExtendedExts(local, []), kind) == []
  {}

  /**
    The header extensions for receiving are exactly those of the other side that are known here and
    that the other side sends, with the other side's ids and the direction turned around; those for
    sending are exactly those that the other side receives, with the local ids.
   */
  lemma {:induction false} ExtensionDirections(local: seq<ExtCapability>, remote: seq<ExtCapability>, kind: string)
    requires Directed(remote)
    ensures var es := ExtendedExts(local, remote);
            (forall c :: c in RecvExts(es) <==> exists ext :: ext in remote && ReceivedAs(local, ext, c))
            && (forall c :: c in SendExts(es, kind) <==> exists ext :: ext in remote && SentAs(local, ext, kind, c))
  {
    hide ReceivedAs, SentAs, RecvExts, SendExts, ExtendedExts;
    if remote == [] {
      NoExtensions(local, kind);
    } else {
      var ext, front := remote[|remote| - 1], remote[..|remote| - 1];
      assert ext in remote && forall x <- front :: x in remote;
      ExtensionDirections(local, front, kind);
      OneExtension(local, remote, kind);
      assert remote == front + [ext];
    }
  }

  // ---- Where the parameters come from ----

  lemma {:induction false} RemoteHead(es: seq<Extended>, kind: string)
    requires FirstOf(es, kind) < |es|
    ensures var e := es[FirstOf(es, kind)];
            RemoteCodecs(es, kind) != [] && RemoteCodecs(es, kind)[0] == SentOf(e, e.remoteParameters)[0]
  {
    hide SentRtx;
    if FirstOf(es, kind) < |es| - 1 {
      FirstOfFront(es, kind);
      RemoteHead(es[..|es| - 1], kind);
    } else {
      NoneBefore(es[..|es| - 1], kind);
    }
  }

  /** The codec sent has what the local codec says; the answer says the same with the parameters of the other side. */
  predicate SentFrom(l: Capability, r: Capability, sent: SendCodec, answered: SendCodec, exts: seq<SendExt>) {
    sent == SendCodec(l.mimeType, l.payloadType, l.clockRate, l.channels, l.parameters,
                      Negotiation.Common(l.rtcpFeedback, r.rtcpFeedback))
    && answered == sent.(parameters := r.parameters, rtcpFeedback := KeptOf(sent.rtcpFeedback, exts))
  }

  lemma {:induction false} InOthers(es: seq<Extended>, e: Extended)
    requires e in es && !IsH264(e.mimeType)
    ensures e in Others(es)
  {
    hide IsH264;
    if e in es[..|es| - 1] { InOthers(es[..|es| - 1], e); }
  }

  lemma NegotiatedFrom(local: RtpCapabilities, remote: RtpCapabilities, calls: H264Calls, e: Extended)
    requires Directed(remote.exts) && e in Negotiated(local, remote, calls).codecs && !IsH264(e.mimeType)
    ensures exists x: Extended, i: nat, j: nat ::
              i < |remote.codecs| && IsPair(local.codecs, remote.codecs[i], calls, x, j)
                && e == WithRtx(x, local.codecs, remote.codecs)
  {
    hide IsH264, Negotiated, IsPair, Others, WithRtx, Intersection;
    NegotiatedIsIntersection(local, remote, calls);
    InOthers(Negotiated(local, remote, calls).codecs, e);
    var es := Intersection(local.codecs, remote.codecs, calls);
    var k :| 0 <= k < |es| && e == WithRtx(es[k], local.codecs, remote.codecs);
    InIntersection(local.codecs, remote.codecs, calls, es[k]);
  }

  lemma SentHead(extended: ExtendedCaps, kind: string, l: Capability, r: Capability, local: seq<Capability>, remote: seq<Capability>)
    requires CanSend(extended, kind)
    requires extended.codecs[FirstOf(extended.codecs, kind)] == WithRtx(Paired(l, r), local, remote)
    ensures Sending(extended, kind).codecs != [] && SendingRemote(extended, kind).codecs != []
    ensures SentFrom(l, r, Sending(extended, kind).codecs[0], SendingRemote(extended, kind).codecs[0], Sending(extended, kind).exts)
  {
    hide RtxFor, KeptOf, Negotiation.Common, SendExts, SentRtx, FirstOf;
    RemoteHead(extended.codecs, kind);
  }

  /**
    For every negotiation, the codec that is sent (any but H264) is a local codec, the answer has it with
    the parameters of a remote codec that the local one is the first to match.
   */
  lemma SentComesFromBothSides(local: RtpCapabilities, remote: RtpCapabilities, calls: H264Calls, kind: string)
    requires Directed(remote.exts) && CanSend(Negotiated(local, remote, calls), kind)
    requires var es := Negotiated(local, remote, calls).codecs; !IsH264(es[FirstOf(es, kind)].mimeType)
    ensures var extended := Negotiated(local, remote, calls);
            Sending(extended, kind).codecs != [] && SendingRemote(extended, kind).codecs != []
            && exists i: nat, j: nat ::
                 i < |remote.codecs| && j < |local.codecs|
                 && FirstMatch(local.codecs, remote.codecs[i], calls) == j
                 && SentFrom(local.codecs[j], remote.codecs[i], Sending(extended, kind).codecs[0],
                             SendingRemote(extended, kind).codecs[0], Sending(extended, kind).exts)
  {
    hide IsH264, IsRtx, Negotiated, WithRtx, Paired, Sending, SendingRemote, SentFrom, FirstOf, Matched;
    var extended := Negotiated(local, remote, calls);
    var e := extended.codecs[FirstOf(extended.codecs, kind)];
    NegotiatedFrom(local, remote, calls, e);
    var x: Extended, i: nat, j: nat :| i < |remote.codecs| && IsPair(local.codecs, remote.codecs[i], calls, x, j)
                                       && e == WithRtx(x, local.codecs, remote.codecs);
    SentHead(extended, kind, local.codecs[j], remote.codecs[i], local.codecs, remote.codecs);
    assert FirstMatch(local.codecs, remote.codecs[i], calls) == j;
  }
}
