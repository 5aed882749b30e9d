/**
  Negotiation of RTP capabilities (mssdk/sdputil/jsonvalidate.cpp, lines 942-1438 and 1496-1567):
  what both sides can do, what is asked for in receiving, and what is sent. Capabilities are
  validated records; the two H264 calls of WebRTC are parameters.
 */
module Negotiation {
  import opened Prelude
  import opened Text
  import opened Json
  import opened RtpParams
  import opened Capabilities

  /** What the H264 calls look at. */
  datatype H264 = H264(levelAsymmetry: string, packetizationMode: string, profileLevelId: string)

  /** H264IsSameProfile and H264GenerateProfileLevelIdForAnswer; the second one may throw, or give no profile-level-id. */
  datatype H264Calls = H264Calls(same: (H264, H264) -> bool, answer: (H264, H264) -> Option<Option<string>>)

  predicate IsRtx(mimeType: string) { Lower(mimeType) == "audio/rtx" || Lower(mimeType) == "video/rtx" }

  predicate IsH264(mimeType: string) { Lower(mimeType) == "video/h264" }

  // ---- Reading parameters ----

  /** A small number; 0 when it is missing or no integer. */
  function Byte(ps: Fields, key: Key): nat { if key in ps && ps[key].Num? then ps[key].n % 256 else 0 }

  function Int32(n: int): int { (n + 0x8000_0000) % TWO_32 - 0x8000_0000 }

  /** A text, or a number as text. */
  function TextOr(ps: Fields, key: Key, missing: string): string {
    if key !in ps then missing
    else if ps[key].Num? then DecInt(Int32(ps[key].n))
    else if ps[key].Str? then ps[key].s
    else ""
  }

  function H264Of(ps: Fields): H264 {
    H264(Dec(Byte(ps, LevelAsymmetryAllowed)), Dec(Byte(ps, PacketizationMode)), TextOr(ps, ProfileLevelId, ""))
  }

  function AptOf(c: Capability): Option<int> {
    if Key.Apt in c.parameters && c.parameters[Key.Apt].Num? then Some(c.parameters[Key.Apt].n) else None
  }

  // ---- Matching codecs ----

  /** Two codecs do not match, match, or match with a new profile-level-id for both (or none). */
  datatype Outcome = NoMatch | Match | Rewrite(id: Option<string>)

  /** matchCodecs in its strict form. */
  function Matched(a: Capability, b: Capability, calls: H264Calls): Outcome {
    if Lower(a.mimeType) != Lower(b.mimeType) || a.clockRate != b.clockRate || a.channels != b.channels then NoMatch
    else if IsH264(a.mimeType) then
      if Byte(a.parameters, PacketizationMode) != Byte(b.parameters, PacketizationMode) then NoMatch
      else if !calls.same(H264Of(a.parameters), H264Of(b.parameters)) then NoMatch
      else
        match calls.answer(H264Of(a.parameters), H264Of(b.parameters))
        case None => NoMatch
        case Some(id) => Rewrite(id)
    else if Lower(a.mimeType) == "video/vp9" && TextOr(a.parameters, ProfileId, "0") != TextOr(b.parameters, ProfileId, "0")
    then NoMatch
    else Match
  }

  /** The codec after a match. */
  function Applied(c: Capability, outcome: Outcome): Capability {
    if outcome.Rewrite? then
      c.(parameters := if outcome.id.Some? then c.parameters[ProfileLevelId := Str(outcome.id.value)] else c.parameters - {ProfileLevelId})
    else c
  }

  /** The first local codec that matches, or the number of local codecs. */
  function FirstMatch(local: seq<Capability>, r: Capability, calls: H264Calls): (n: nat)
    ensures n <= |local| && (n < |local| ==> !Matched(local[n], r, calls).NoMatch?)
    ensures forall j :: 0 <= j < n ==> Matched(local[j], r, calls).NoMatch?
  {
    if local == [] || !Matched(local[0], r, calls).NoMatch? then 0 else 1 + FirstMatch(local[1..], r, calls)
  }

  // ---- Extended capabilities ----

  datatype Extended = Extended(
    mimeType: string, kind: string, clockRate: int, channels: Option<int>,
    localPayloadType: int, localRtx: Option<int>, remotePayloadType: int, remoteRtx: Option<int>,
    localParameters: Fields, remoteParameters: Fields, rtcpFeedback: seq<Feedback>)

  datatype ExtendedExt = ExtendedExt(kind: string, uri: string, sendId: int, recvId: int, encrypt: bool, direction: string)

  datatype ExtendedCaps = ExtendedCaps(codecs: seq<Extended>, exts: seq<ExtendedExt>)

  /** The feedback of `a` that `b` has too, in the order of `a`. */
  function Common(a: seq<Feedback>, b: seq<Feedback>): seq<Feedback> {
    if a == [] then [] else Common(a[..|a| - 1], b) + if a[|a| - 1] in b then [a[|a| - 1]] else []
  }

  function Paired(l: Capability, r: Capability): Extended {
    Extended(l.mimeType, l.kind, l.clockRate, l.channels, l.payloadType, None, r.payloadType, None,
             l.parameters, r.parameters, Common(l.rtcpFeedback, r.rtcpFeedback))
  }

  /** The codecs of both sides, which matching changes, and what was matched so far. */
  datatype Progress = Progress(local: seq<Capability>, remote: seq<Capability>, extended: seq<Extended>)

  function MatchStep(p: Progress, i: nat, calls: H264Calls): (q: Progress)
    requires i < |p.remote|
    ensures |q.local| == |p.local| && |q.remote| == |p.remote|
  {
    var r := p.remote[i];
    var j := FirstMatch(p.local, r, calls);
    if IsRtx(r.mimeType) || j == |p.local| then p
    else
      var outcome := Matched(p.local[j], r, calls);
      var l', r' := Applied(p.local[j], outcome), Applied(r, outcome);
      Progress(p.local[j := l'], p.remote[i := r'], p.extended + [Paired(l', r')])
  }

  /** After the first `n` remote codecs. */
  function MatchSteps(local: seq<Capability>, remote: seq<Capability>, n: nat, calls: H264Calls): (p: Progress)
    requires n <= |remote|
    ensures |p.local| == |local| && |p.remote| == |remote|
  {
    if n == 0 then Progress(local, remote, []) else MatchStep(MatchSteps(local, remote, n - 1, calls), n - 1, calls)
  }

  /** The first RTX codec for a payload type, or the number of codecs. */
  function RtxFor(cs: seq<Capability>, payloadType: int): (n: nat)
    ensures n <= |cs| && (n < |cs| ==> IsRtx(cs[n].mimeType) && AptOf(cs[n]) == Some(payloadType))
  {
    if cs == [] || (IsRtx(cs[0].mimeType) && AptOf(cs[0]) == Some(payloadType)) then 0 else 1 + RtxFor(cs[1..], payloadType)
  }

  /** Retransmission needs an RTX codec on both sides. */
  function WithRtx(e: Extended, local: seq<Capability>, remote: seq<Capability>): Extended {
    var i, j := RtxFor(local, e.localPayloadType), RtxFor(remote, e.remotePayloadType);
    if i == |local| || j == |remote| then e else e.(localRtx := Some(local[i].payloadType), remoteRtx := Some(remote[j].payloadType))
  }

  function WithRtxAll(es: seq<Extended>, local: seq<Capability>, remote: seq<Capability>): seq<Extended> {
    seq(|es|, i requires 0 <= i < |es| => WithRtx(es[i], local, remote))
  }

  predicate Way(direction: string) {
    direction == "sendrecv" || direction == "sendonly" || direction == "recvonly" || direction == "inactive"
  }

  /** What the other side receives is sent here. */
  function Flipped(direction: string): string
    requires Way(direction)
  {
    if direction == "recvonly" then "sendonly" else if direction == "sendonly" then "recvonly" else direction
  }

  function ExtFor(exts: seq<ExtCapability>, ext: ExtCapability): (n: nat)
    ensures n <= |exts| && (n < |exts| ==> exts[n].kind == ext.kind && exts[n].uri == ext.uri)
    ensures forall i :: 0 <= i < n ==> exts[i].kind != ext.kind || exts[i].uri != ext.uri
  {
    if exts == [] || (exts[0].kind == ext.kind && exts[0].uri == ext.uri) then 0 else 1 + ExtFor(exts[1..], ext)
  }

  predicate Directed(exts: seq<ExtCapability>) { forall ext <- exts :: Way(ext.direction) }

  function ExtendedExts(local: seq<ExtCapability>, remote: seq<ExtCapability>): seq<ExtendedExt>
    requires Directed(remote)
  {
    if remote == [] then []
    else
      var front, ext := remote[..|remote| - 1], remote[|remote| - 1];
      var j := ExtFor(local, ext);
      assert ext in remote && forall x <- front :: x in remote;
      ExtendedExts(local, front)
        + if j == |local| then [] else [ExtendedExt(ext.kind, ext.uri, local[j].id, ext.id, local[j].encrypt, Flipped(ext.direction))]
  }

  /** The extended capabilities of validated capabilities. */
  function Negotiated(local: RtpCapabilities, remote: RtpCapabilities, calls: H264Calls): ExtendedCaps
    requires Directed(remote.exts)
  {
    var p := MatchSteps(local.codecs, remote.codecs, |remote.codecs|, calls);
    ExtendedCaps(WithRtxAll(p.extended, p.local, p.remote), ExtendedExts(local.exts, remote.exts))
  }

  /** reduceRtcpFeedback. */
  method ReduceRtcpFeedback(a: seq<Feedback>, b: seq<Feedback>) returns (reduced: seq<Feedback>)
    ensures reduced == Common(a, b)
  {
    reduced := [];
    for i := 0 to |a|
      invariant reduced == Common(a[..i], b)
    {
      assert a[..i + 1][..i] == a[..i];
      if a[i] in b {
        reduced := reduced + [a[i]];
      }
    }
    assert a[..|a|] == a;
  }

  /** The loop that matches the remote codecs and changes the codecs on both sides as it does. */
  method MatchAll(local: seq<Capability>, remote: seq<Capability>, calls: H264Calls)
    returns (codecs: seq<Extended>, localCodecs: seq<Capability>, remoteCodecs: seq<Capability>)
    ensures Progress(localCodecs, remoteCodecs, codecs) == MatchSteps(local, remote, |remote|, calls)
  {
    hide Matched, Applied, IsRtx, Common;
    localCodecs, remoteCodecs, codecs := local, remote, [];
    for i := 0 to |remote|
      invariant MatchSteps(local, remote, i, calls) == Progress(localCodecs, remoteCodecs, codecs)
    {
      var remoteCodec := remoteCodecs[i];
      if !IsRtx(remoteCodec.mimeType) {
        var j := FirstMatch(localCodecs, remoteCodec, calls);
        if j < |localCodecs| {
          var outcome := Matched(localCodecs[j], remoteCodec, calls);
          localCodecs := localCodecs[j := Applied(localCodecs[j], outcome)];
          remoteCodecs := remoteCodecs[i := Applied(remoteCodec, outcome)];
          var l, r := localCodecs[j], remoteCodecs[i];
          var feedback := ReduceRtcpFeedback(l.rtcpFeedback, r.rtcpFeedback);
          codecs := codecs + [Extended(l.mimeType, l.kind, l.clockRate, l.channels, l.payloadType, None, r.payloadType, None,
                                       l.parameters, r.parameters, feedback)];
        }
      }
    }
  }

  /** The loop that looks for the RTX codecs of both sides. */
  method MatchRtx(codecs: seq<Extended>, local: seq<Capability>, remote: seq<Capability>) returns (all: seq<Extended>)
    ensures all == WithRtxAll(codecs, local, remote)
  {
    all := [];
    for i := 0 to |codecs|
      invariant all == WithRtxAll(codecs, local, remote)[..i]
    {
      var e := codecs[i];
      var l := RtxFor(local, e.localPayloadType);
      if l < |local| {
        var r := RtxFor(remote, e.remotePayloadType);
        if r < |remote| {
          e := e.(localRtx := Some(local[l].payloadType), remoteRtx := Some(remote[r].payloadType));
        }
      }
      all := all + [e];
    }
    assert WithRtxAll(codecs, local, remote)[..|codecs|] == WithRtxAll(codecs, local, remote);
  }

  method MatchExts(local: seq<ExtCapability>, remote: seq<ExtCapability>) returns (exts: seq<ExtendedExt>)
    requires Directed(remote)
    ensures exts == ExtendedExts(local, remote)
  {
    exts := [];
    for i := 0 to |remote|
      invariant Directed(remote[..i]) && exts == ExtendedExts(local, remote[..i])
    {
      assert remote[..i + 1][..i] == remote[..i] && remote[i] in remote;
      var ext := remote[i];
      var j := ExtFor(local, ext);
      if j < |local| {
        exts := exts + [ExtendedExt(ext.kind, ext.uri, local[j].id, ext.id, local[j].encrypt, Flipped(ext.direction))];
      }
    }
    assert remote[..|remote|] == remote;
  }

  /** getExtendedRtpCapabilities. */
  method GetExtendedRtpCapabilities(local: RtpCapabilities, remote: RtpCapabilities, calls: H264Calls)
    returns (extended: ExtendedCaps, localCodecs: seq<Capability>, remoteCodecs: seq<Capability>)
    requires Directed(remote.exts)
    ensures extended == Negotiated(local, remote, calls)
    ensures var p := MatchSteps(local.codecs, remote.codecs, |remote.codecs|, calls);
            localCodecs == p.local && remoteCodecs == p.remote
  {
    var codecs: seq<Extended>;
    codecs, localCodecs, remoteCodecs := MatchAll(local.codecs, remote.codecs, calls);
    var all := MatchRtx(codecs, localCodecs, remoteCodecs);
    var exts := MatchExts(local.exts, remote.exts);
    extended := ExtendedCaps(all, exts);
  }

  // ---- The intersection ----

  /** What negotiation yields for codecs other than H264: each remote codec in turn, with the first local one that matches. */
  function Intersection(local: seq<Capability>, remote: seq<Capability>, calls: H264Calls): seq<Extended> {
    if remote == [] then []
    else
      var r := remote[|remote| - 1];
      var j := FirstMatch(local, r, calls);
      Intersection(local, remote[..|remote| - 1], calls)
        + if IsRtx(r.mimeType) || IsH264(r.mimeType) || j == |local| then [] else [Paired(local[j], r)]
  }

  function Others(es: seq<Extended>): seq<Extended> {
    if es == [] then [] else Others(es[..|es| - 1]) + if IsH264(es[|es| - 1].mimeType) then [] else [es[|es| - 1]]
  }

  /** Codecs that differ at most in the parameters of H264. */
  predicate SameButH264(a: seq<Capability>, b: seq<Capability>) {
    |a| == |b| && forall i :: 0 <= i < |a| ==>
      a[i] == b[i] || (IsH264(a[i].mimeType) && a[i] == b[i].(parameters := a[i].parameters))
  }

  lemma MatchedMeans(a: Capability, b: Capability, calls: H264Calls)
    ensures !Matched(a, b, calls).NoMatch? ==> Lower(a.mimeType) == Lower(b.mimeType)
    ensures Matched(a, b, calls).Rewrite? ==> IsH264(a.mimeType) && IsH264(b.mimeType)
    ensures IsH264(b.mimeType) && !Matched(a, b, calls).NoMatch? ==> Matched(a, b, calls).Rewrite?
  {
    hide Lower, Byte, H264Of, TextOr;
  }

  /** H264 codecs do not match any other codec, whatever their parameters. */
  lemma {:induction false} SameFirstMatch(a: seq<Capability>, b: seq<Capability>, r: Capability, calls: H264Calls)
    requires SameButH264(a, b) && !IsH264(r.mimeType)
    ensures FirstMatch(a, r, calls) == FirstMatch(b, r, calls)
    ensures var j := FirstMatch(a, r, calls); j < |a| ==> a[j] == b[j]
  {
    hide Matched, Lower;
    if a != [] {
      MatchedMeans(a[0], r, calls);
      MatchedMeans(b[0], r, calls);
      SameFirstMatch(a[1..], b[1..], r, calls);
    }
  }

  lemma AppliedMeans(c: Capability, outcome: Outcome)
    ensures Applied(c, outcome) == c.(parameters := Applied(c, outcome).parameters)
    ensures !outcome.Rewrite? ==> Applied(c, outcome) == c
  {}

  lemma StepKeeps(p: Progress, i: nat, calls: H264Calls)
    requires i < |p.remote|
    ensures var q := MatchStep(p, i, calls);
            SameButH264(q.local, p.local) && SameButH264(q.remote, p.remote) && forall k :: 0 <= k < |p.remote| && k != i ==>
              q.remote[k] == p.remote[k]
  {
    hide Matched, Lower, Paired, Applied, IsRtx, IsH264;
    var r := p.remote[i];
    var j := FirstMatch(p.local, r, calls);
    if j < |p.local| {
      MatchedMeans(p.local[j], r, calls);
      AppliedMeans(p.local[j], Matched(p.local[j], r, calls));
      AppliedMeans(r, Matched(p.local[j], r, calls));
    }
  }

  lemma SameTwice(a: seq<Capability>, b: seq<Capability>, c: seq<Capability>)
    requires SameButH264(a, b) && SameButH264(b, c)
    ensures SameButH264(a, c)
  {
    hide IsH264;
  }

  lemma SameItself(a: seq<Capability>)
    ensures SameButH264(a, a)
  {}

  /** The steps change nothing but parameters of H264, and only on remote codecs that were looked at. */
  lemma {:induction false} StepsKeep(local: seq<Capability>, remote: seq<Capability>, n: nat, calls: H264Calls)
    requires n <= |remote|
    ensures var p := MatchSteps(local, remote, n, calls);
            SameButH264(p.local, local) && SameButH264(p.remote, remote) && forall i :: n <= i < |remote| ==> p.remote[i] == remote[i]
  {
    hide MatchStep, SameButH264;
    if n == 0 {
      SameItself(local);
      SameItself(remote);
    } else {
      StepsKeep(local, remote, n - 1, calls);
      var p := MatchSteps(local, remote, n - 1, calls);
      StepKeeps(p, n - 1, calls);
      SameTwice(MatchStep(p, n - 1, calls).local, p.local, local);
      SameTwice(MatchStep(p, n - 1, calls).remote, p.remote, remote);
    }
  }

  /** Matching H264 codecs, which changes them, does not disturb the intersection. */
  lemma {:induction false} OthersAreIntersection(local: seq<Capability>, remote: seq<Capability>, n: nat, calls: H264Calls)
    requires n <= |remote|
    ensures Others(MatchSteps(local, remote, n, calls).extended) == Intersection(local, remote[..n], calls)
  {
    hide Matched, Paired, Applied, IsRtx, IsH264, MatchStep, FirstMatch;
    if n > 0 {
      OthersAreIntersection(local, remote, n - 1, calls);
      OneMoreOther(local, remote, n, calls);
      assert remote[..n][..n - 1] == remote[..n - 1];
    }
  }

  /** What a step adds: nothing, or the pair of a match. */
  function Added(local: seq<Capability>, r: Capability, calls: H264Calls): seq<Extended> {
    var j := FirstMatch(local, r, calls);
    if IsRtx(r.mimeType) || j == |local| then []
    else
      var outcome := Matched(local[j], r, calls);
      [Paired(Applied(local[j], outcome), Applied(r, outcome))]
  }

  lemma StepAdds(p: Progress, i: nat, calls: H264Calls)
    requires i < |p.remote|
    ensures MatchStep(p, i, calls).extended == p.extended + Added(p.local, p.remote[i], calls)
  {
    hide Matched, Applied, IsRtx, Paired, FirstMatch;
  }

  lemma OthersAppend(es: seq<Extended>, more: seq<Extended>)
    requires |more| <= 1
    ensures Others(es + more) == Others(es) + Others(more)
  {
    hide IsH264;
    if more == [] {
      assert es + more == es;
    } else {
      assert (es + more)[..|es|] == es && more[..0] == [];
    }
  }

  /** What a step adds apart from H264 does not depend on the parameters of H264. */
  lemma AddedOther(local: seq<Capability>, start: seq<Capability>, r: Capability, calls: H264Calls)
    requires SameButH264(local, start)
    ensures var j := FirstMatch(start, r, calls);
            Others(Added(local, r, calls))
              == if IsRtx(r.mimeType) || IsH264(r.mimeType) || j == |start| then [] else [Paired(start[j], r)]
  {
    hide Matched, Lower, Applied, IsRtx, IsH264, Common;
    var j := FirstMatch(local, r, calls);
    if !IsH264(r.mimeType) { SameFirstMatch(local, start, r, calls); }
    if !IsRtx(r.mimeType) && j < |local| {
      var outcome := Matched(local[j], r, calls);
      MatchedMeans(local[j], r, calls);
      SameMime(local[j].mimeType, r.mimeType);
      AppliedMeans(local[j], outcome);
      AppliedMeans(r, outcome);
      assert Added(local, r, calls)[..0] == [];
    }
  }

  lemma OneMoreOther(local: seq<Capability>, remote: seq<Capability>, n: nat, calls: H264Calls)
    requires 0 < n <= |remote|
    ensures var p, r := MatchSteps(local, remote, n - 1, calls), remote[n - 1];
            var j := FirstMatch(local, r, calls);
            Others(MatchSteps(local, remote, n, calls).extended)
            == Others(p.extended) + if IsRtx(r.mimeType) || IsH264(r.mimeType) || j == |local| then [] else [Paired(local[j], r)]
  {
    hide MatchStep, Others, IsRtx, IsH264, Paired, FirstMatch, SameButH264;
    StepsKeep(local, remote, n - 1, calls);
    var p := MatchSteps(local, remote, n - 1, calls);
    StepAdds(p, n - 1, calls);
    AddedOther(p.local, local, remote[n - 1], calls);
    OthersAppend(p.extended, Added(p.local, remote[n - 1], calls));
  }

  lemma SameMime(a: string, b: string)
    requires Lower(a) == Lower(b)
    ensures (IsH264(a) <==> IsH264(b)) && (IsRtx(a) <==> IsRtx(b))
  {}

  /** The pair of a remote codec, neither RTX nor H264, and the first local codec that matches it. */
  predicate IsPair(local: seq<Capability>, r: Capability, calls: H264Calls, e: Extended, j: nat) {
    j < |local| && !IsRtx(r.mimeType) && !IsH264(r.mimeType) && !Matched(local[j], r, calls).NoMatch?
    && (forall k :: 0 <= k < j ==> Matched(local[k], r, calls).NoMatch?) && e == Paired(local[j], r)
  }

  lemma PairIsFirst(local: seq<Capability>, r: Capability, calls: H264Calls, e: Extended)
    ensures (exists j: nat :: IsPair(local, r, calls, e, j)) <==>
              !IsRtx(r.mimeType) && !IsH264(r.mimeType) && FirstMatch(local, r, calls) < |local|
                && e == Paired(local[FirstMatch(local, r, calls)], r)
  {
    hide Matched, Paired, IsRtx, IsH264;
    var n := FirstMatch(local, r, calls);
    if n < |local| && !IsRtx(r.mimeType) && !IsH264(r.mimeType) && e == Paired(local[n], r) {
      assert IsPair(local, r, calls, e, n);
    }
    forall j: nat | IsPair(local, r, calls, e, j) ensures j == n {}
  }

  /** A remote codec is in the intersection exactly when some local codec matches it, paired with the first that does. */
  lemma {:induction false} InIntersection(local: seq<Capability>, remote: seq<Capability>, calls: H264Calls, e: Extended)
    ensures e in Intersection(local, remote, calls) <==> exists i: nat, j: nat :: i < |remote| && IsPair(local, remote[i], calls, e, j)
  {
    hide IsPair, Paired, IsRtx, IsH264, FirstMatch;
    if remote != [] {
      var front, r := remote[..|remote| - 1], remote[|remote| - 1];
      InIntersection(local, front, calls, e);
      PairIsFirst(local, r, calls, e);
      if e in Intersection(local, front, calls) {
        var i: nat, j: nat :| i < |front| && IsPair(local, front[i], calls, e, j);
        assert IsPair(local, remote[i], calls, e, j);
      } else if e in Intersection(local, remote, calls) {
        var j: nat :| IsPair(local, r, calls, e, j);
        assert IsPair(local, remote[|remote| - 1], calls, e, j);
      }
      forall i: nat, j: nat | i < |remote| && IsPair(local, remote[i], calls, e, j) ensures e in Intersection(local, remote, calls) {
        if i < |front| { assert IsPair(local, front[i], calls, e, j); }
      }
    }
  }

  lemma {:induction false} SameRtxFor(a: seq<Capability>, b: seq<Capability>, payloadType: int)
    requires SameButH264(a, b)
    ensures RtxFor(a, payloadType) == RtxFor(b, payloadType)
    ensures var n := RtxFor(a, payloadType); n < |a| ==> a[n] == b[n]
  {
    hide Lower;
    if a != [] {
      SameRtxFor(a[1..], b[1..], payloadType);
    }
  }

  lemma {:induction false} OthersWithRtx(es: seq<Extended>, local: seq<Capability>, remote: seq<Capability>)
    ensures Others(WithRtxAll(es, local, remote)) == WithRtxAll(Others(es), local, remote)
  {
    hide IsH264;
    if es != [] {
      var front := es[..|es| - 1];
      OthersWithRtx(front, local, remote);
      assert WithRtxAll(es, local, remote)[..|es| - 1] == WithRtxAll(front, local, remote);
    }
  }

  /**
    Sound, complete and in order: apart from H264, the negotiated codecs are exactly the remote
    codecs, RTX aside, that some local codec matches, in remote order, each with the first such
    local codec and with the RTX codecs of both sides or of none.
   */
  lemma NegotiatedIsIntersection(local: RtpCapabilities, remote: RtpCapabilities, calls: H264Calls)
    requires Directed(remote.exts)
    ensures Others(Negotiated(local, remote, calls).codecs)
         == WithRtxAll(Intersection(local.codecs, remote.codecs, calls), local.codecs, remote.codecs)
    ensures forall e <- Negotiated(local, remote, calls).codecs :: e.localRtx.Some? <==> e.remoteRtx.Some?
  {
    hide Matched, Lower, Paired, Applied, IsRtx, IsH264, Others, Intersection, MatchSteps, ExtendedExts;
    var n := |remote.codecs|;
    var p := MatchSteps(local.codecs, remote.codecs, n, calls);
    OthersAreIntersection(local.codecs, remote.codecs, n, calls);
    StepsKeep(local.codecs, remote.codecs, n, calls);
    assert remote.codecs[..n] == remote.codecs;
    OthersWithRtx(p.extended, p.local, p.remote);
    var es := Intersection(local.codecs, remote.codecs, calls);
    forall i | 0 <= i < |es| ensures WithRtx(es[i], p.local, p.remote) == WithRtx(es[i], local.codecs, remote.codecs) {
      SameRtxFor(p.local, local.codecs, es[i].localPayloadType);
      SameRtxFor(p.remote, remote.codecs, es[i].remotePayloadType);
    }
    assert WithRtxAll(es, p.local, p.remote) == WithRtxAll(es, local.codecs, remote.codecs);
    NoRtxYet(local.codecs, remote.codecs, n, calls);
    RtxOnBothSides(p.extended, p.local, p.remote);
  }

  lemma RtxOnBothSides(es: seq<Extended>, local: seq<Capability>, remote: seq<Capability>)
    requires forall e <- es :: e.localRtx.None? && e.remoteRtx.None?
    ensures forall e <- WithRtxAll(es, local, remote) :: e.localRtx.Some? <==> e.remoteRtx.Some?
  {
    hide IsRtx;
    forall e | e in WithRtxAll(es, local, remote) ensures e.localRtx.Some? <==> e.remoteRtx.Some? {
      var i :| 0 <= i < |es| && e == WithRtx(es[i], local, remote);
      assert es[i] in es;
    }
  }

  lemma {:induction false} NoRtxYet(local: seq<Capability>, remote: seq<Capability>, n: nat, calls: H264Calls)
    requires n <= |remote|
    ensures forall e <- MatchSteps(local, remote, n, calls).extended :: e.localRtx.None? && e.remoteRtx.None?
  {
    hide Matched, Applied, IsRtx;
    if n > 0 { NoRtxYet(local, remote, n - 1, calls); }
  }

  // ---- Feedback and profiles ----

  /** The reduced feedback is what both sides have; a side that has all of the other's keeps that side's list. */
  lemma {:induction false} CommonMeans(a: seq<Feedback>, b: seq<Feedback>)
    ensures forall fb :: fb in Common(a, b) <==> fb in a && fb in b
    ensures (forall fb <- a :: fb in b) ==> Common(a, b) == a
  {
    if a != [] {
      var front, fb := a[..|a| - 1], a[|a| - 1];
      assert a == front + [fb];
      CommonMeans(front, b);
    }
  }

  /** It does not matter which side asks, apart from H264. */
  lemma MatchingIsSymmetric(a: Capability, b: Capability, calls: H264Calls)
    requires !IsH264(a.mimeType)
    ensures Matched(a, b, calls) == Matched(b, a, calls)
    ensures Matched(a, a, calls) == Match
  {
    hide Lower, TextOr;
  }

  /** Both sides have the same profile-level-id, or neither has one. */
  predicate SameProfile(e: Extended) {
    (ProfileLevelId in e.localParameters <==> ProfileLevelId in e.remoteParameters)
    && (ProfileLevelId in e.localParameters ==> e.localParameters[ProfileLevelId] == e.remoteParameters[ProfileLevelId])
  }

  lemma RewriteAgrees(l: Capability, r: Capability, outcome: Outcome)
    requires outcome.Rewrite?
    ensures SameProfile(Paired(Applied(l, outcome), Applied(r, outcome)))
  {}

  lemma {:induction false} StepsAgree(local: seq<Capability>, remote: seq<Capability>, n: nat, calls: H264Calls)
    requires n <= |remote|
    ensures forall e <- MatchSteps(local, remote, n, calls).extended :: IsH264(e.mimeType) ==> SameProfile(e)
  {
    hide Matched, Applied, IsRtx, IsH264, SameProfile, Paired;
    if n > 0 {
      StepsAgree(local, remote, n - 1, calls);
      var p := MatchSteps(local, remote, n - 1, calls);
      NewAgrees(p.local, p.remote[n - 1], calls);
    }
  }

  lemma NewAgrees(local: seq<Capability>, r: Capability, calls: H264Calls)
    ensures var j := FirstMatch(local, r, calls);
            j < |local| ==>
              var outcome := Matched(local[j], r, calls);
              var e := Paired(Applied(local[j], outcome), Applied(r, outcome));
              IsH264(e.mimeType) ==> SameProfile(e)
  {
    hide Lower, Applied, SameProfile, Matched;
    var j := FirstMatch(local, r, calls);
    if j < |local| {
      var outcome := Matched(local[j], r, calls);
      MatchedMeans(local[j], r, calls);
      AppliedMeans(local[j], outcome);
      AppliedMeans(r, outcome);
      if outcome.Rewrite? {
        RewriteAgrees(local[j], r, outcome);
      }
    }
  }

  /** Whatever WebRTC answers, and however often a codec is rewritten, both sides of a negotiated H264 codec have one profile. */
  lemma ProfilesAgree(local: RtpCapabilities, remote: RtpCapabilities, calls: H264Calls)
    requires Directed(remote.exts)
    ensures forall e <- Negotiated(local, remote, calls).codecs :: IsH264(e.mimeType) ==> SameProfile(e)
  {
    hide IsH264, MatchSteps, IsRtx, AptOf, ExtendedExts, RtxFor;
    StepsAgree(local.codecs, remote.codecs, |remote.codecs|, calls);
    var p := MatchSteps(local.codecs, remote.codecs, |remote.codecs|, calls);
    forall e | e in Negotiated(local, remote, calls).codecs && IsH264(e.mimeType) ensures SameProfile(e) {
      var i :| 0 <= i < |p.extended| && e == WithRtx(p.extended[i], p.local, p.remote);
      assert p.extended[i] in p.extended;
    }
  }
}
