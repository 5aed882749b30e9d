/**
  What the negotiated codecs are, told by the fields of the codecs on both sides: no function of the
  negotiation is needed to read the theorems.
 */
module CodecMatching {
  import opened Prelude
  import opened Json
  import opened Text
  import opened RtpParams
  import opened Capabilities
  import opened Negotiation
  import SendReceive

  // ---- Parameters ----

  /** Text parameters: the default when missing, a text as it is, a number in decimal. */
  lemma TextOrMeans(ps: Fields, key: Key, missing: string)
    ensures key !in ps ==> TextOr(ps, key, missing) == missing
    ensures key in ps && ps[key].Str? ==> TextOr(ps, key, missing) == ps[key].s
    ensures key in ps && ps[key].Num? && -0x8000_0000 <= ps[key].n < 0x8000_0000 ==> TextOr(ps, key, missing) == DecInt(ps[key].n)
  {
    hide DecInt;
  }

  /** Small numbers: 0 when missing or no integer. */
  lemma ByteMeans(ps: Fields, key: Key)
    ensures key !in ps || !ps[key].Num? ==> Byte(ps, key) == 0
    ensures key in ps && ps[key].Num? && 0 <= ps[key].n < 256 ==> Byte(ps, key) == ps[key].n
  {}

  /** What WebRTC is asked about: the three parameters of a codec as texts. */
  lemma H264OfMeans(ps: Fields)
    ensures H264Of(ps).levelAsymmetry == Dec(Byte(ps, LevelAsymmetryAllowed))
    ensures H264Of(ps).packetizationMode == Dec(Byte(ps, PacketizationMode))
    ensures H264Of(ps).profileLevelId == TextOr(ps, ProfileLevelId, "")
  {
    hide Dec, Byte, TextOr;
  }

  lemma LowerMeans(s: string, i: nat)
    requires i < |s|
    ensures 'A' <= s[i] <= 'Z' ==> Lower(s)[i] as int == s[i] as int + 32
    ensures !('A' <= s[i] <= 'Z') ==> Lower(s)[i] == s[i]
  {}

  // ---- Codecs that agree ----

  predicate Rtx(c: Capability) { Lower(c.mimeType) == "audio/rtx" || Lower(c.mimeType) == "video/rtx" }

  predicate H264Codec(c: Capability) { Lower(c.mimeType) == "video/h264" }

  /** Same format, and for VP9 the same profile. */
  predicate Agree(l: Capability, r: Capability) {
    Lower(l.mimeType) == Lower(r.mimeType) && l.clockRate == r.clockRate && l.channels == r.channels
    && (Lower(l.mimeType) == "video/vp9" ==> TextOr(l.parameters, ProfileId, "0") == TextOr(r.parameters, ProfileId, "0"))
  }

  /** The first local codec that agrees with a remote one. */
  predicate Partner(local: seq<Capability>, r: Capability, j: nat) {
    j < |local| && Agree(local[j], r) && forall k :: 0 <= k < j ==> !Agree(local[k], r)
  }

  predicate Partners(local: seq<Capability>, remote: seq<Capability>, i: nat, j: nat) {
    i < |remote| && !Rtx(remote[i]) && !H264Codec(remote[i]) && Partner(local, remote[i], j)
  }

  /** A negotiated codec that comes from a local and a remote one. */
  ghost predicate ComesFrom(e: Extended, l: Capability, r: Capability) {
    e.mimeType == l.mimeType && e.kind == l.kind && e.clockRate == l.clockRate && e.channels == l.channels
    && e.localPayloadType == l.payloadType && e.remotePayloadType == r.payloadType
    && e.localParameters == l.parameters && e.remoteParameters == r.parameters
    && forall fb :: fb in e.rtcpFeedback <==> fb in l.rtcpFeedback && fb in r.rtcpFeedback
  }

  /** The retransmission codec of a payload type. */
  predicate RtxOf(c: Capability, payloadType: int) {
    Rtx(c) && Key.Apt in c.parameters && c.parameters[Key.Apt] == Num(payloadType)
  }

  predicate HasRtx(cs: seq<Capability>, payloadType: int) { exists a :: 0 <= a < |cs| && RtxOf(cs[a], payloadType) }

  predicate FirstRtxOf(cs: seq<Capability>, payloadType: int, a: nat) {
    a < |cs| && RtxOf(cs[a], payloadType) && forall k :: 0 <= k < a ==> !RtxOf(cs[k], payloadType)
  }

  /** Retransmission is negotiated exactly when both sides have a codec for it, and then with the first of each. */
  ghost predicate RtxAgrees(e: Extended, local: seq<Capability>, remote: seq<Capability>) {
    (e.localRtx.Some? <==> HasRtx(local, e.localPayloadType) && HasRtx(remote, e.remotePayloadType))
    && (e.localRtx.Some? <==> e.remoteRtx.Some?)
    && (forall a: nat :: e.localRtx.Some? && FirstRtxOf(local, e.localPayloadType, a) ==> e.localRtx == Some(local[a].payloadType))
    && (forall b: nat :: e.remoteRtx.Some? && FirstRtxOf(remote, e.remotePayloadType, b) ==> e.remoteRtx == Some(remote[b].payloadType))
  }

  lemma MatchedIsAgree(l: Capability, r: Capability, calls: H264Calls)
    requires !H264Codec(r)
    ensures !Matched(l, r, calls).NoMatch? <==> Agree(l, r)
    ensures !Matched(l, r, calls).Rewrite?
  {
    hide Lower, TextOr, Byte, H264Of;
  }

  lemma PairIsPartner(local: seq<Capability>, r: Capability, calls: H264Calls, e: Extended, j: nat)
    requires !H264Codec(r)
    ensures IsPair(local, r, calls, e, j) <==> Partner(local, r, j) && !Rtx(r) && e == Paired(local[j], r)
  {
    hide Matched, Lower, Agree, Paired;
    forall k | 0 <= k < |local| ensures !Matched(local[k], r, calls).NoMatch? <==> Agree(local[k], r) {
      MatchedIsAgree(local[k], r, calls);
    }
  }

  lemma PairedComesFrom(l: Capability, r: Capability)
    ensures ComesFrom(Paired(l, r), l, r)
  {
    hide Negotiation.Common;
    CommonMeans(l.rtcpFeedback, r.rtcpFeedback);
  }

  lemma {:induction false} RtxForIsFirst(cs: seq<Capability>, payloadType: int)
    ensures var n := RtxFor(cs, payloadType);
            (n < |cs| <==> HasRtx(cs, payloadType)) && (n < |cs| ==> FirstRtxOf(cs, payloadType, n))
    ensures forall k :: 0 <= k < RtxFor(cs, payloadType) ==> !RtxOf(cs[k], payloadType)
  {
    hide Lower;
    if cs != [] {
      RtxForIsFirst(cs[1..], payloadType);
      assert forall k :: 0 < k < |cs| ==> cs[k] == cs[1..][k - 1];
    }
  }

  lemma WithRtxAgrees(x: Extended, local: seq<Capability>, remote: seq<Capability>)
    requires x.localRtx.None? && x.remoteRtx.None?
    ensures RtxAgrees(WithRtx(x, local, remote), local, remote)
  {
    hide RtxOf;
    RtxForIsFirst(local, x.localPayloadType);
    RtxForIsFirst(remote, x.remotePayloadType);
  }

  lemma WithRtxComesFrom(x: Extended, local: seq<Capability>, remote: seq<Capability>, l: Capability, r: Capability)
    ensures ComesFrom(WithRtx(x, local, remote), l, r) <==> ComesFrom(x, l, r)
  {
    hide RtxFor;
  }

  lemma {:induction false} OthersAreIn(es: seq<Extended>)
    ensures forall e <- Others(es) :: e in es
  {
    hide IsH264;
    if es != [] { OthersAreIn(es[..|es| - 1]); }
  }

  /**
    Every negotiated codec but H264 comes from a remote codec, not RTX, and the first local codec that
    agrees with it, with retransmission when both sides have it; and for every remote codec that is
    neither RTX nor H264 and has such a partner there is one.
   */
  lemma NegotiatedAgree(local: RtpCapabilities, remote: RtpCapabilities, calls: H264Calls)
    requires Directed(remote.exts)
    ensures var es := Negotiated(local, remote, calls).codecs;
            forall e <- es :: Lower(e.mimeType) != "video/h264" ==>
              exists i: nat, j: nat :: i < |remote.codecs| && !Rtx(remote.codecs[i]) && Partner(local.codecs, remote.codecs[i], j)
                && ComesFrom(e, local.codecs[j], remote.codecs[i]) && RtxAgrees(e, local.codecs, remote.codecs)
    ensures var es := Negotiated(local, remote, calls).codecs;
            forall i: nat, j: nat :: Partners(local.codecs, remote.codecs, i, j) ==>
              exists e :: e in es && ComesFrom(e, local.codecs[j], remote.codecs[i]) && RtxAgrees(e, local.codecs, remote.codecs)
  {
    hide Lower, Negotiated, ComesFrom, RtxAgrees, Agree, IsPair, WithRtx;
    var es := Negotiated(local, remote, calls).codecs;
    forall e | e in es && Lower(e.mimeType) != "video/h264"
      ensures exists i: nat, j: nat :: i < |remote.codecs| && !Rtx(remote.codecs[i]) && Partner(local.codecs, remote.codecs[i], j)
                && ComesFrom(e, local.codecs[j], remote.codecs[i]) && RtxAgrees(e, local.codecs, remote.codecs)
    {
      SoundPair(local, remote, calls, e);
    }
    forall i: nat, j: nat | Partners(local.codecs, remote.codecs, i, j)
      ensures exists e :: e in es && ComesFrom(e, local.codecs[j], remote.codecs[i]) && RtxAgrees(e, local.codecs, remote.codecs)
    {
      CompletePair(local, remote, calls, i, j);
    }
  }

  lemma SoundPair(local: RtpCapabilities, remote: RtpCapabilities, calls: H264Calls, e: Extended)
    requires Directed(remote.exts) && e in Negotiated(local, remote, calls).codecs && Lower(e.mimeType) != "video/h264"
    ensures exists i: nat, j: nat :: i < |remote.codecs| && !Rtx(remote.codecs[i]) && Partner(local.codecs, remote.codecs[i], j)
              && ComesFrom(e, local.codecs[j], remote.codecs[i]) && RtxAgrees(e, local.codecs, remote.codecs)
  {
    SendReceive.NegotiatedFrom(local, remote, calls, e);
    hide Negotiated, ComesFrom, RtxAgrees, Partner, WithRtx, Matched, Lower;
    var x: Extended, i: nat, j: nat :| i < |remote.codecs| && IsPair(local.codecs, remote.codecs[i], calls, x, j)
                                       && e == WithRtx(x, local.codecs, remote.codecs);
    PairIsPartner(local.codecs, remote.codecs[i], calls, x, j);
    PairedComesFrom(local.codecs[j], remote.codecs[i]);
    WithRtxComesFrom(x, local.codecs, remote.codecs, local.codecs[j], remote.codecs[i]);
    WithRtxAgrees(x, local.codecs, remote.codecs);
  }

  lemma CompletePair(local: RtpCapabilities, remote: RtpCapabilities, calls: H264Calls, i: nat, j: nat)
    requires Directed(remote.exts) && Partners(local.codecs, remote.codecs, i, j)
    ensures exists e :: e in Negotiated(local, remote, calls).codecs && ComesFrom(e, local.codecs[j], remote.codecs[i])
              && RtxAgrees(e, local.codecs, remote.codecs)
  {
    hide Negotiated, ComesFrom, RtxAgrees, WithRtx, Lower, Intersection, Others, IsPair, Agree;
    var x := Paired(local.codecs[j], remote.codecs[i]);
    PairIsPartner(local.codecs, remote.codecs[i], calls, x, j);
    InIntersection(local.codecs, remote.codecs, calls, x);
    var xs := Intersection(local.codecs, remote.codecs, calls);
    var k :| 0 <= k < |xs| && xs[k] == x;
    NegotiatedIsIntersection(local, remote, calls);
    var e := WithRtx(x, local.codecs, remote.codecs);
    assert WithRtxAll(xs, local.codecs, remote.codecs)[k] == e;
    OthersAreIn(Negotiated(local, remote, calls).codecs);
    PairedComesFrom(local.codecs[j], remote.codecs[i]);
    WithRtxComesFrom(x, local.codecs, remote.codecs, local.codecs[j], remote.codecs[i]);
    WithRtxAgrees(x, local.codecs, remote.codecs);
  }

  // ---- H264, where a match rewrites both codecs ----

  /** The local codecs when the remote codec `i` is looked at: earlier matches may have rewritten some. */
  function LocalAt(local: seq<Capability>, remote: seq<Capability>, i: nat, calls: H264Calls): (r: seq<Capability>)
    requires i <= |remote|
    ensures |r| == |local|
  {
    MatchSteps(local, remote, i, calls).local
  }

  /** WebRTC is asked with the local parameters first, and has to find the same profile and an answer. */
  predicate H264Agree(l: Capability, r: Capability, calls: H264Calls) {
    H264Codec(l) && H264Codec(r) && l.clockRate == r.clockRate && l.channels == r.channels
    && Byte(l.parameters, PacketizationMode) == Byte(r.parameters, PacketizationMode)
    && calls.same(H264Of(l.parameters), H264Of(r.parameters))
    && calls.answer(H264Of(l.parameters), H264Of(r.parameters)).Some?
  }

  predicate H264Partner(local: seq<Capability>, r: Capability, calls: H264Calls, j: nat) {
    j < |local| && H264Agree(local[j], r, calls) && forall k :: 0 <= k < j ==> !H264Agree(local[k], r, calls)
  }

  /** The parameters with the profile-level-id that was answered, or without one, and otherwise as they were. */
  ghost predicate Rewritten(before: Fields, after: Fields, id: Option<string>) {
    (forall k :: k != ProfileLevelId ==> (k in after <==> k in before) && (k in before ==> after[k] == before[k]))
    && (if id.Some? then ProfileLevelId in after && after[ProfileLevelId] == Str(id.value) else ProfileLevelId !in after)
  }

  ghost predicate RewrittenCodec(before: Capability, after: Capability, id: Option<string>) {
    after == before.(parameters := after.parameters) && Rewritten(before.parameters, after.parameters, id)
  }

  ghost predicate H264ComesFrom(e: Extended, l: Capability, r: Capability, id: Option<string>) {
    e.mimeType == l.mimeType && e.kind == l.kind && e.clockRate == l.clockRate && e.channels == l.channels
    && e.localPayloadType == l.payloadType && e.remotePayloadType == r.payloadType
    && Rewritten(l.parameters, e.localParameters, id) && Rewritten(r.parameters, e.remoteParameters, id)
    && forall fb :: fb in e.rtcpFeedback <==> fb in l.rtcpFeedback && fb in r.rtcpFeedback
  }

  function Answered(l: Capability, r: Capability, calls: H264Calls): Option<string>
    requires H264Agree(l, r, calls)
  {
    calls.answer(H264Of(l.parameters), H264Of(r.parameters)).value
  }

  lemma MatchedIsH264Agree(l: Capability, r: Capability, calls: H264Calls)
    requires H264Codec(r)
    ensures !Matched(l, r, calls).NoMatch? <==> H264Agree(l, r, calls)
    ensures H264Agree(l, r, calls) ==> Matched(l, r, calls) == Rewrite(Answered(l, r, calls))
  {
    hide Lower, TextOr, Byte, H264Of;
  }

  lemma AppliedIsRewritten(c: Capability, id: Option<string>)
    ensures RewrittenCodec(c, Applied(c, Rewrite(id)), id)
  {}

  lemma FirstMatchIsPartner(local: seq<Capability>, r: Capability, calls: H264Calls, j: nat)
    requires H264Codec(r)
    ensures H264Partner(local, r, calls, j) <==> j == FirstMatch(local, r, calls) && j < |local|
  {
    hide Matched, Lower, H264Agree;
    forall k | 0 <= k < |local| ensures !Matched(local[k], r, calls).NoMatch? <==> H264Agree(local[k], r, calls) {
      MatchedIsH264Agree(local[k], r, calls);
    }
  }

  lemma RewrittenPair(l: Capability, r: Capability, id: Option<string>)
    ensures H264ComesFrom(Paired(Applied(l, Rewrite(id)), Applied(r, Rewrite(id))), l, r, id)
  {
    hide Negotiation.Common, Rewritten;
    AppliedIsRewritten(l, id);
    AppliedIsRewritten(r, id);
    CommonMeans(l.rtcpFeedback, r.rtcpFeedback);
  }

  lemma NoRtxInH264()
    ensures forall c: Capability :: H264Codec(c) ==> !Rtx(c)
  {
    hide Lower;
  }

  lemma StepShape(p: Progress, i: nat, calls: H264Calls)
    requires i < |p.remote| && !IsRtx(p.remote[i].mimeType)
    ensures var q, r := MatchStep(p, i, calls), p.remote[i];
            var j := FirstMatch(p.local, r, calls);
            if j == |p.local| then q == p
            else
              var outcome := Matched(p.local[j], r, calls);
              q.local == p.local[j := Applied(p.local[j], outcome)]
              && q.extended == p.extended + [Paired(Applied(p.local[j], outcome), Applied(r, outcome))]
  {
    hide Matched, Applied, Paired, FirstMatch, IsRtx;
  }

  /** The local codec `j` matched, the rewritten pair is added, and it alone is rewritten. */
  ghost predicate H264Matched(p: Progress, q: Progress, r: Capability, calls: H264Calls, j: nat)
    requires |q.local| == |p.local| && H264Partner(p.local, r, calls, j)
  {
    var id := Answered(p.local[j], r, calls);
    |q.extended| == |p.extended| + 1 && q.extended[..|p.extended|] == p.extended
    && H264ComesFrom(q.extended[|p.extended|], p.local[j], r, id)
    && RewrittenCodec(p.local[j], q.local[j], id)
    && forall k :: 0 <= k < |p.local| && k != j ==> q.local[k] == p.local[k]
  }

  lemma H264StepOf(p: Progress, i: nat, calls: H264Calls)
    requires i < |p.remote| && H264Codec(p.remote[i])
    ensures var q, r := MatchStep(p, i, calls), p.remote[i];
            var j := FirstMatch(p.local, r, calls);
            if j == |p.local| then q.extended == p.extended && q.local == p.local
            else H264Partner(p.local, r, calls, j) && H264Matched(p, q, r, calls, j)
  {
    hide MatchStep, Matched, Lower, Applied, Paired, H264Agree, RewrittenCodec, H264ComesFrom, Answered, FirstMatch;
    NoRtxInH264();
    StepShape(p, i, calls);
    var r := p.remote[i];
    var j := FirstMatch(p.local, r, calls);
    FirstMatchIsPartner(p.local, r, calls, j);
    if j < |p.local| {
      var id := Answered(p.local[j], r, calls);
      MatchedIsH264Agree(p.local[j], r, calls);
      RewrittenPair(p.local[j], r, id);
      AppliedIsRewritten(p.local[j], id);
    }
  }

  /** What one step adds for an H264 codec, and how it changes the local codecs. */
  lemma H264Step(local: seq<Capability>, remote: seq<Capability>, i: nat, calls: H264Calls)
    requires i < |remote| && H264Codec(remote[i])
    ensures var p, q, r := MatchSteps(local, remote, i, calls), MatchSteps(local, remote, i + 1, calls), remote[i];
            var j := FirstMatch(p.local, r, calls);
            if j == |local| then q.extended == p.extended && q.local == p.local
            else H264Partner(p.local, r, calls, j) && H264Matched(p, q, r, calls, j)
  {
    hide MatchStep, Lower, SameButH264, H264Partner, H264Matched, FirstMatch;
    StepsKeep(local, remote, i, calls);
    H264StepOf(MatchSteps(local, remote, i, calls), i, calls);
  }

  /** A step for any other codec adds no H264 codec and leaves the local codecs alone. */
  lemma OtherStep(local: seq<Capability>, remote: seq<Capability>, i: nat, calls: H264Calls)
    requires i < |remote| && !H264Codec(remote[i])
    ensures var p, q := MatchSteps(local, remote, i, calls), MatchSteps(local, remote, i + 1, calls);
            q.local == p.local && p.extended <= q.extended && |q.extended| <= |p.extended| + 1
            && forall e <- q.extended :: Lower(e.mimeType) == "video/h264" ==> e in p.extended
  {
    StepsKeep(local, remote, i, calls);
    hide Matched, Lower, Paired, SameButH264;
    var p, q, r := MatchSteps(local, remote, i, calls), MatchSteps(local, remote, i + 1, calls), remote[i];
    var j := FirstMatch(p.local, r, calls);
    assert forall e <- q.extended :: e in p.extended || e == q.extended[|q.extended| - 1];
    if j < |local| {
      MatchedIsAgree(p.local[j], r, calls);
      MatchedMeans(p.local[j], r, calls);
      PairedMime(p.local[j], r);
      hide Applied;
      AppliedMeans(p.local[j], Matched(p.local[j], r, calls));
      AppliedMeans(r, Matched(p.local[j], r, calls));
    }
  }

  lemma PairedMime(l: Capability, r: Capability)
    ensures Paired(l, r).mimeType == l.mimeType
  {}

  /** The event that makes a negotiated H264 codec. */
  ghost predicate H264Event(local: seq<Capability>, remote: seq<Capability>, calls: H264Calls, e: Extended, i: nat, j: nat) {
    i < |remote| && H264Codec(remote[i]) && H264Partner(LocalAt(local, remote, i, calls), remote[i], calls, j)
    && var l := LocalAt(local, remote, i, calls)[j]; H264ComesFrom(e, l, remote[i], Answered(l, remote[i], calls))
  }

  lemma {:induction false} H264Sound(local: seq<Capability>, remote: seq<Capability>, n: nat, calls: H264Calls, e: Extended)
    requires n <= |remote| && e in MatchSteps(local, remote, n, calls).extended && Lower(e.mimeType) == "video/h264"
    ensures exists i: nat, j: nat :: i < n && H264Event(local, remote, calls, e, i, j)
  {
    hide MatchStep, Lower, H264ComesFrom, H264Partner, RewrittenCodec, Answered, FirstMatch;
    if n > 0 {
      var p, q := MatchSteps(local, remote, n - 1, calls), MatchSteps(local, remote, n, calls);
      if !H264Codec(remote[n - 1]) { OtherStep(local, remote, n - 1, calls); }
      if e in p.extended {
        H264Sound(local, remote, n - 1, calls, e);
        var i: nat, j: nat :| i < n - 1 && H264Event(local, remote, calls, e, i, j);
        assert i < n;
      } else {
        H264Step(local, remote, n - 1, calls);
        assert H264Event(local, remote, calls, e, n - 1, FirstMatch(p.local, remote[n - 1], calls));
      }
    }
  }

  lemma {:induction false} H264Complete(local: seq<Capability>, remote: seq<Capability>, n: nat, calls: H264Calls, i: nat, j: nat)
    requires i < n <= |remote| && H264Codec(remote[i]) && H264Partner(LocalAt(local, remote, i, calls), remote[i], calls, j)
    ensures exists e :: e in MatchSteps(local, remote, n, calls).extended && H264Event(local, remote, calls, e, i, j)
  {
    hide MatchStep, Lower, H264ComesFrom, H264Agree, RewrittenCodec, FirstMatch;
    var p, q := MatchSteps(local, remote, n - 1, calls), MatchSteps(local, remote, n, calls);
    if i == n - 1 {
      H264Step(local, remote, i, calls);
      FirstMatchIsPartner(p.local, remote[i], calls, j);
      var e := q.extended[|p.extended|];
      assert e in q.extended && H264Event(local, remote, calls, e, i, j);
    } else {
      H264Complete(local, remote, n - 1, calls, i, j);
      var e :| e in p.extended && H264Event(local, remote, calls, e, i, j);
      if H264Codec(remote[n - 1]) { H264Step(local, remote, n - 1, calls); } else { OtherStep(local, remote, n - 1, calls); }
      assert p.extended <= q.extended;
      assert e in q.extended;
    }
  }

  /**
    A negotiated H264 codec is exactly what a remote H264 codec and the first local codec that agrees
    with it make when WebRTC is asked with the local side first: both sides with the profile-level-id
    of the answer.
   */
  lemma NegotiatedH264(local: RtpCapabilities, remote: RtpCapabilities, calls: H264Calls)
    requires Directed(remote.exts)
    ensures var es := Negotiated(local, remote, calls).codecs;
            forall e <- es :: Lower(e.mimeType) == "video/h264" ==>
              exists i: nat, j: nat :: H264Event(local.codecs, remote.codecs, calls, e, i, j)
    ensures var es := Negotiated(local, remote, calls).codecs;
            forall i: nat, j: nat ::
              i < |remote.codecs| && H264Codec(remote.codecs[i])
              && H264Partner(LocalAt(local.codecs, remote.codecs, i, calls), remote.codecs[i], calls, j) ==>
              exists e :: e in es && H264Event(local.codecs, remote.codecs, calls, e, i, j)
  {
    hide MatchSteps, Lower, H264Event, RtxFor, ExtendedExts, H264Partner, LocalAt;
    var n := |remote.codecs|;
    var p := MatchSteps(local.codecs, remote.codecs, n, calls);
    var es := Negotiated(local, remote, calls).codecs;
    forall e | e in es && Lower(e.mimeType) == "video/h264"
      ensures exists i: nat, j: nat :: H264Event(local.codecs, remote.codecs, calls, e, i, j)
    {
      var k :| 0 <= k < |p.extended| && e == WithRtx(p.extended[k], p.local, p.remote);
      H264Sound(local.codecs, remote.codecs, n, calls, p.extended[k]);
      var i: nat, j: nat :| i < n && H264Event(local.codecs, remote.codecs, calls, p.extended[k], i, j);
      SameEvent(local.codecs, remote.codecs, calls, p.extended[k], p.local, p.remote, i, j);
    }
    forall i: nat, j: nat |
      i < n && H264Codec(remote.codecs[i]) && H264Partner(LocalAt(local.codecs, remote.codecs, i, calls), remote.codecs[i], calls, j)
      ensures exists e :: e in es && H264Event(local.codecs, remote.codecs, calls, e, i, j)
    {
      H264Complete(local.codecs, remote.codecs, n, calls, i, j);
      var x :| x in p.extended && H264Event(local.codecs, remote.codecs, calls, x, i, j);
      var k :| 0 <= k < |p.extended| && p.extended[k] == x;
      SameEvent(local.codecs, remote.codecs, calls, x, p.local, p.remote, i, j);
      assert es[k] == WithRtx(x, p.local, p.remote);
    }
  }

  lemma SameEvent(local: seq<Capability>, remote: seq<Capability>, calls: H264Calls, x: Extended,
                  a: seq<Capability>, b: seq<Capability>, i: nat, j: nat)
    requires H264Event(local, remote, calls, x, i, j)
    ensures H264Event(local, remote, calls, WithRtx(x, a, b), i, j)
  {
    hide MatchSteps, Lower, H264Partner, RtxFor, Answered, Rewritten;
  }

  /** Only an H264 match changes a local codec, and only the one that matched. */
  lemma LocalAtMeans(local: seq<Capability>, remote: seq<Capability>, i: nat, calls: H264Calls)
    requires i < |remote|
    ensures LocalAt(local, remote, 0, calls) == local
    ensures var before, after := LocalAt(local, remote, i, calls), LocalAt(local, remote, i + 1, calls);
            forall k :: 0 <= k < |local| ==>
              if H264Codec(remote[i]) && H264Partner(before, remote[i], calls, k)
              then RewrittenCodec(before[k], after[k], Answered(before[k], remote[i], calls))
              else after[k] == before[k]
  {
    hide MatchStep, Lower, H264ComesFrom, RewrittenCodec, H264Partner, Answered, FirstMatch;
    var before := LocalAt(local, remote, i, calls);
    if H264Codec(remote[i]) {
      H264Step(local, remote, i, calls);
      forall k | 0 <= k < |local| ensures H264Partner(before, remote[i], calls, k) <==> k == FirstMatch(before, remote[i], calls) {
        FirstMatchIsPartner(before, remote[i], calls, k);
      }
    } else {
      OtherStep(local, remote, i, calls);
    }
  }

  // ---- Retransmission and order, for every codec ----

  lemma RtxIsNegotiated(local: RtpCapabilities, remote: RtpCapabilities, calls: H264Calls)
    requires Directed(remote.exts)
    ensures forall e <- Negotiated(local, remote, calls).codecs :: RtxAgrees(e, local.codecs, remote.codecs)
  {
    hide MatchStep, RtxAgrees, ExtendedExts, RtxFor, SameButH264;
    var n := |remote.codecs|;
    var p := MatchSteps(local.codecs, remote.codecs, n, calls);
    NoRtxYet(local.codecs, remote.codecs, n, calls);
    StepsKeep(local.codecs, remote.codecs, n, calls);
    forall e | e in Negotiated(local, remote, calls).codecs ensures RtxAgrees(e, local.codecs, remote.codecs) {
      var k :| 0 <= k < |p.extended| && e == WithRtx(p.extended[k], p.local, p.remote);
      assert p.extended[k] in p.extended;
      SameRtxFor(p.local, local.codecs, e.localPayloadType);
      SameRtxFor(p.remote, remote.codecs, e.remotePayloadType);
      WithRtxAgrees(p.extended[k], local.codecs, remote.codecs);
    }
  }

  predicate Increasing(indices: seq<nat>, n: nat) {
    (forall k :: 0 <= k < |indices| ==> indices[k] < n) && forall k, m :: 0 <= k < m < |indices| ==> indices[k] < indices[m]
  }

  lemma {:induction false} StepsInOrder(local: seq<Capability>, remote: seq<Capability>, n: nat, calls: H264Calls) returns (sources: seq<nat>)
    requires n <= |remote|
    ensures var es := MatchSteps(local, remote, n, calls).extended;
            |sources| == |es| && Increasing(sources, n)
            && forall k :: 0 <= k < |es| ==> es[k].remotePayloadType == remote[sources[k]].payloadType
  {
    hide Matched, Lower, FirstMatch, IsRtx, SameButH264;
    if n == 0 {
      sources := [];
    } else {
      sources := StepsInOrder(local, remote, n - 1, calls);
      StepsKeep(local, remote, n - 1, calls);
      var p, r := MatchSteps(local, remote, n - 1, calls), remote[n - 1];
      var j := FirstMatch(p.local, r, calls);
      if !IsRtx(r.mimeType) && j < |p.local| { sources := sources + [n - 1]; }
    }
  }

  /** The negotiated codecs, H264 among them, are in the order of the remote codecs that they come from. */
  lemma NegotiatedInOrder(local: RtpCapabilities, remote: RtpCapabilities, calls: H264Calls) returns (sources: seq<nat>)
    requires Directed(remote.exts)
    ensures var es := Negotiated(local, remote, calls).codecs;
            |sources| == |es| && Increasing(sources, |remote.codecs|)
            && forall k :: 0 <= k < |es| ==> es[k].remotePayloadType == remote.codecs[sources[k]].payloadType
  {
    hide MatchSteps, ExtendedExts, RtxFor, Increasing;
    sources := StepsInOrder(local.codecs, remote.codecs, |remote.codecs|, calls);
  }
}
