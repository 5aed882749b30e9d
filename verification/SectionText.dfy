/**
  The text of the lines of media sections, as the standards for each line have it, and the order
  in which lines are printed.
 */
module SectionText {
  import opened Prelude
  import opened Text
  import opened Json
  import opened Grammar
  import opened Writer
  import opened LineRoundTrip
  import opened RuleRoundTrip
  import CandidateRoundTrip
  import opened OverlapRoundTrip
  import opened NamedRoundTrip
  import opened SessionRoundTrip
  import opened Params
  import opened RtpParams
  import opened Sections
  import opened MediaObjects
  import SdpState
  import SdpNormalForm

  // ---- Order ----

  /** The place of a line type in an order. */
  function Rank(order: string, t: char): nat {
    if order == "" || order[0] == t then 0 else 1 + Rank(order[1..], t)
  }

  predicate Ordered(order: string, lines: seq<Line>) {
    (forall i :: 0 <= i < |lines| ==> lines[i].kind in order)
    && forall i, j :: 0 <= i < j < |lines| ==> Rank(order, lines[i].kind) <= Rank(order, lines[j].kind)
  }

  predicate NoRepeat(order: string) { forall i, j :: 0 <= i < j < |order| ==> order[i] != order[j] }

  lemma {:induction false} RankAt(order: string, i: nat)
    requires NoRepeat(order) && i < |order|
    ensures Rank(order, order[i]) == i
  {
    if i > 0 { RankAt(order[1..], i - 1); }
  }

  lemma {:induction false} KindOfRulesLines(t: char, rules: seq<Rule>, loc: Fields)
    ensures forall i :: 0 <= i < |RulesLines(t, rules, loc)| ==> RulesLines(t, rules, loc)[i].kind == t
  {
    hide Content;
    if rules != [] { KindOfRulesLines(t, rules[..|rules| - 1], loc); }
  }

  lemma {:induction false} PrefixOrdered(order: string, n: nat, loc: Fields)
    requires NoRepeat(order) && n <= |order|
    ensures Ordered(order, LocationLines(order[..n], loc))
    ensures forall i :: 0 <= i < |LocationLines(order[..n], loc)| ==> Rank(order, LocationLines(order[..n], loc)[i].kind) < n
  {
    hide Rules, RulesLines, Rank;
    if n > 0 {
      var t := order[n - 1];
      PrefixOrdered(order, n - 1, loc);
      assert order[..n][..n - 1] == order[..n - 1];
      KindOfRulesLines(t, Rules(t), loc);
      RankAt(order, n - 1);
    }
  }

  /** The lines of a location come in the order of their types: that of the standard for sessions, a shorter one in sections. */
  lemma LinesInOrder(loc: Fields)
    ensures Ordered(OUTER_ORDER, LocationLines(OUTER_ORDER, loc)) && Ordered(INNER_ORDER, LocationLines(INNER_ORDER, loc))
  {
    hide LocationLines, Ordered;
    PrefixOrdered(OUTER_ORDER, |OUTER_ORDER|, loc);
    PrefixOrdered(INNER_ORDER, |INNER_ORDER|, loc);
    assert OUTER_ORDER[..|OUTER_ORDER|] == OUTER_ORDER && INNER_ORDER[..|INNER_ORDER|] == INNER_ORDER;
  }

  // ---- Lines of elements ----

  lemma NumberText(o: Fields, k: Key, n: nat)
    requires k in o && o[k] == Num(n)
    ensures P(o, k) == Dec(n) && HasValue(o, k)
  {
    hide Dec;
  }

  lemma StringText(o: Fields, k: Key, s: string)
    requires k in o && o[k] == Str(s)
    ensures P(o, k) == s && (HasValue(o, k) <==> s != "")
  {}

  lemma NoValue(o: Fields, k: Key)
    requires k !in o
    ensures !HasValue(o, k)
  {}

  /** The texts of two members in a row, each behind its prefix. */
  lemma Two(a: Prefix, ka: Kind, b: Prefix, kb: Kind, rest: Format, o: Fields, n: seq<Key>, i: nat)
    requires i + 1 < |n| && (ka.S? || ka.D?) && (kb.S? || kb.D?)
    ensures Printed(Hole(a, ka, Hole(b, kb, rest)), o, n, i) == a + P(o, n[i]) + b + P(o, n[i + 1]) + Printed(rest, o, n, i + 2)
    ensures Printed(T, o, n, i + 2) == ""
  {
    hide P, Printed;
    var next := Printed(rest, o, n, i + 2);
    PrintedHole(a, ka, Hole(b, kb, rest), o, n, i);
    PrintedHole(b, kb, rest, o, n, i + 1);
    assert Printed(T, o, n, i + 2) == "" by { PrintedNothing(o, n, i + 2); }
    assert a + P(o, n[i]) + (b + P(o, n[i + 1]) + next) == a + P(o, n[i]) + b + P(o, n[i + 1]) + next;
  }

  lemma PrintedNothing(o: Fields, n: seq<Key>, i: nat)
    ensures Printed(T, o, n, i) == ""
  {}

  lemma Skipped(f: Format, o: Fields, n: seq<Key>, i: nat)
    requires i < |n|
    ensures Printed(Hole("", V, f), o, n, i) == Printed(f, o, n, i + 1)
  {}

  /** `a=rtpmap:` of section 6.6 of RFC 8866: payload type, encoding name, clock rate, and the channels when there are several. */
  lemma RtpText(c: Codec)
    ensures Content(RTP, RtpObject(c)) == "rtpmap:" + Dec(c.payloadType) + " " + CodecName(c.mimeType) + "/" + Dec(c.clockRate)
              + if c.channels.Some? && c.channels.value % 256 > 1 then "/" + Dec(c.channels.value % 256) else ""
  {
    hide Dec, CodecName, Content, P, Printed, HasValue, FormatOf;
    var o := RtpObject(c);
    var n := RTP.names;
    var many := c.channels.Some? && c.channels.value % 256 > 1;
    ContentOfObject(RTP, o);
    RtpFormatOf(o);
    NumberText(o, Payload, c.payloadType);
    StringText(o, Key.Codec, CodecName(c.mimeType));
    NumberText(o, Rate, c.clockRate);
    var start := "rtpmap:" + Dec(c.payloadType) + " " + CodecName(c.mimeType);
    if many {
      NumberText(o, Key.Encoding, c.channels.value % 256);
      Two("rtpmap:", D, " ", S, Hole("/", S, Hole("/", S, T)), o, n, 0);
      Two("/", S, "/", S, T, o, n, 2);
      var rate, channels := "/" + Dec(c.clockRate), "/" + Dec(c.channels.value % 256);
      assert rate + "/" + Dec(c.channels.value % 256) + "" == rate + channels;
      assert start + (rate + channels) == start + "/" + Dec(c.clockRate) + channels;
    } else {
      NoValue(o, Key.Encoding);
      Two("rtpmap:", D, " ", S, Hole("/", S, T), o, n, 0);
      PrintedHole("/", S, T, o, n, 2);
      PrintedNothing(o, n, 3);
      assert start + ("/" + Dec(c.clockRate) + "") == start + "/" + Dec(c.clockRate) + "";
    }
  }

  /** `a=fmtp:` of section 6.15 of RFC 8866. */
  lemma FmtpText(c: Codec)
    ensures Content(FMTP, FmtpObject(c)) == "fmtp:" + Dec(c.payloadType) + " " + Params.Config(c.parameters)
  {
    hide Dec, Params.Config, Content, P, Printed;
    var o := FmtpObject(c);
    ContentOfObject(FMTP, o);
    NumberText(o, Payload, c.payloadType);
    StringText(o, Key.Config, Params.Config(c.parameters));
    Two("fmtp:", D, " ", S, T, o, FMTP.names, 0);
  }

  /** `a=rtcp-fb:` of section 4.2 of RFC 4585. */
  lemma FeedbackText(payloadType: nat, fb: Feedback)
    ensures Content(RTCP_FB, FeedbackObject(payloadType, fb))
         == "rtcp-fb:" + Dec(payloadType) + " " + fb.kind + if fb.parameter != "" then " " + fb.parameter else ""
  {
    hide Dec, Content, P, Printed, HasValue, FormatOf;
    var o := FeedbackObject(payloadType, fb);
    ContentOfObject(RTCP_FB, o);
    FbFormatOf(o);
    NumberText(o, Payload, payloadType);
    StringText(o, Type, fb.kind);
    StringText(o, Subtype, fb.parameter);
    Two("rtcp-fb:", S, " ", S, if fb.parameter != "" then Hole(" ", S, T) else T, o, RTCP_FB.names, 0);
    PrintedHole(" ", S, T, o, RTCP_FB.names, 2);
    PrintedNothing(o, RTCP_FB.names, 3);
    assert " " + fb.parameter + "" == " " + fb.parameter;
  }

  /** `a=extmap:` of section 5 of RFC 8285. */
  lemma ExtText(ext: HeaderExtension)
    ensures Content(EXT, ExtObject(ext)) == "extmap:" + Dec(ext.id) + " " + ext.uri
  {
    hide Dec, Content, P, Printed, HasValue, FormatOf;
    var o := ExtObject(ext);
    var n := EXT.names;
    ContentOfObject(EXT, o);
    ExtFormatOf(o);
    NumberText(o, Value, ext.id);
    StringText(o, Uri, ext.uri);
    NoValue(o, Key.Direction);
    NoValue(o, EncryptUri);
    NoValue(o, Key.Config);
    var uri := Hole(" ", S, T);
    PrintedHole(" ", S, T, o, n, 3);
    PrintedNothing(o, n, 4);
    Skipped(uri, o, n, 2);
    Skipped(Hole("", V, uri), o, n, 1);
    PrintedHole("extmap:", D, Hole("", V, Hole("", V, uri)), o, n, 0);
    assert "extmap:" + Dec(ext.id) + (" " + ext.uri + "") == "extmap:" + Dec(ext.id) + " " + ext.uri;
  }

  /** `a=ssrc:` of section 4.1 of RFC 5576. */
  lemma SsrcText(ssrc: nat, attribute: string, value: string)
    requires attribute != ""
    ensures Content(SSRCS, SsrcObject(ssrc, attribute, value))
         == "ssrc:" + Dec(ssrc) + " " + attribute + if value != "" then ":" + value else ""
  {
    hide Dec, Content, P, Printed, HasValue, FormatOf;
    var o := SsrcObject(ssrc, attribute, value);
    ContentOfObject(SSRCS, o);
    NumberText(o, Id, ssrc);
    StringText(o, Attribute, attribute);
    StringText(o, Value, value);
    SsrcFormatOf(o);
    Two("ssrc:", D, " ", S, if value != "" then Hole(":", S, T) else T, o, SSRCS.names, 0);
    PrintedHole(":", S, T, o, SSRCS.names, 2);
    PrintedNothing(o, SSRCS.names, 3);
    assert ":" + value + "" == ":" + value;
  }

  /** `a=ssrc-group:` of section 4.2 of RFC 5576, always with FID. */
  lemma GroupText(ssrcs: string)
    ensures Content(SSRC_GROUPS, GroupObject(ssrcs)) == "ssrc-group:" + "FID" + " " + ssrcs
  {
    hide Content, P, Printed;
    var o := GroupObject(ssrcs);
    ContentOfObject(SSRC_GROUPS, o);
    StringText(o, Semantics, "FID");
    StringText(o, Key.Ssrcs, ssrcs);
    Two("ssrc-group:", S, " ", S, T, o, SSRC_GROUPS.names, 0);
  }

  /** `a=rid:` of an answer: it receives what the offer sends. */
  lemma RidLineText(id: string)
    ensures Content(RIDS, RidObject(id)) == "rid:" + id + " " + "recv"
  {
    hide Content, P, Printed, HasValue, FormatOf;
    var o := RidObject(id);
    ContentOfObject(RIDS, o);
    RidFormatOf(o);
    NoValue(o, Key.Params);
    StringText(o, Id, id);
    StringText(o, Key.Direction, "recv");
    Two("rid:", S, " ", S, T, o, RIDS.names, 0);
  }

  /** The end of a candidate line that has no related address and no extensions. */
  function PlainEnd(tcp: bool): Format {
    Hole("", V, Hole("", V, if tcp then Hole(" tcptype ", S, PLAIN_REST) else Hole("", V, PLAIN_REST)))
  }

  const PLAIN_REST: Format := Hole("", V, Hole("", V, T))

  lemma PlainCandidateFormat(o: Fields)
    requires !HasValue(o, Raddr) && !HasValue(o, Generation) && !HasValue(o, NetworkId) && !HasValue(o, NetworkCost)
    ensures FormatOf(CANDIDATES, o) ==
      Hole("candidate:", S, Hole(" ", D, Hole(" ", S, Hole(" ", D, Hole(" ", S, Hole(" ", D, Hole(" typ ", S,
        PlainEnd(HasValue(o, Tcptype)))))))))
  {
    hide HasValue;
  }

  lemma PlainEndText(tcp: bool, o: Fields, n: seq<Key>)
    requires |n| == 13
    ensures Printed(PlainEnd(tcp), o, n, 7) == if tcp then " tcptype " + P(o, n[9]) else ""
  {
    hide P, Printed;
    var end := if tcp then Hole(" tcptype ", S, PLAIN_REST) else Hole("", V, PLAIN_REST);
    Skipped(Hole("", V, end), o, n, 7);
    Skipped(end, o, n, 8);
    Skipped(PLAIN_REST, o, n, 9);
    PrintedHole(" tcptype ", S, PLAIN_REST, o, n, 9);
    Skipped(Hole("", V, T), o, n, 10);
    Skipped(T, o, n, 11);
    PrintedNothing(o, n, 12);
    assert " tcptype " + P(o, n[9]) + "" == " tcptype " + P(o, n[9]);
  }

  lemma CandidateTexts(c: IceCandidate)
    ensures var o := CandidateObject(c);
            P(o, Foundation) == c.foundation && P(o, Component) == Dec(1) && P(o, Transport) == c.protocol
            && P(o, Priority) == Dec(c.priority) && P(o, Ip) == c.address && P(o, Port) == Dec(c.port) && P(o, Type) == c.kind
            && !HasValue(o, Raddr) && !HasValue(o, Generation) && !HasValue(o, NetworkId) && !HasValue(o, NetworkCost)
            && (HasValue(o, Tcptype) <==> c.tcpType.Some? && c.tcpType.value != "")
            && (c.tcpType.Some? ==> P(o, Tcptype) == c.tcpType.value)
  {
    hide Dec;
  }

  lemma LastFields(o: Fields, n: seq<Key>, end: Format)
    requires |n| == 13
    ensures Printed(Hole(" ", D, Hole(" ", S, Hole(" ", D, Hole(" typ ", S, end)))), o, n, 3)
         == " " + P(o, n[3]) + " " + P(o, n[4]) + " " + P(o, n[5]) + " typ " + P(o, n[6]) + Printed(end, o, n, 7)
  {
    hide P, Printed;
    Two(" ", D, " typ ", S, end, o, n, 5);
    Two(" ", D, " ", S, Hole(" ", D, Hole(" typ ", S, end)), o, n, 3);
    var start := " " + P(o, n[3]) + " " + P(o, n[4]);
    assert start + (" " + P(o, n[5]) + " typ " + P(o, n[6]) + Printed(end, o, n, 7))
        == start + " " + P(o, n[5]) + " typ " + P(o, n[6]) + Printed(end, o, n, 7);
  }

  lemma SevenFields(o: Fields, n: seq<Key>, end: Format)
    requires |n| == 13
    ensures Printed(Hole("candidate:", S, Hole(" ", D, Hole(" ", S, Hole(" ", D, Hole(" ", S, Hole(" ", D, Hole(" typ ", S, end))))))), o, n, 0)
         == "candidate:" + P(o, n[0]) + " " + P(o, n[1]) + " " + P(o, n[2])
            + (" " + P(o, n[3]) + " " + P(o, n[4]) + " " + P(o, n[5]) + " typ " + P(o, n[6]) + Printed(end, o, n, 7))
  {
    hide P, Printed;
    var rest := Hole(" ", D, Hole(" ", S, Hole(" ", D, Hole(" typ ", S, end))));
    LastFields(o, n, end);
    PrintedHole(" ", S, rest, o, n, 2);
    Two("candidate:", S, " ", D, Hole(" ", S, rest), o, n, 0);
    var start, last := "candidate:" + P(o, n[0]) + " " + P(o, n[1]), Printed(rest, o, n, 3);
    assert start + (" " + P(o, n[2]) + last) == start + " " + P(o, n[2]) + last;
  }

  /**
    `a=candidate:` of section 5.1 of RFC 8839: foundation, component, transport, priority, address,
    port and type, and the type of a TCP one.
   */
  lemma CandidateText(c: IceCandidate)
    ensures Content(CANDIDATES, CandidateObject(c))
         == "candidate:" + c.foundation + " " + Dec(1) + " " + c.protocol
            + (" " + Dec(c.priority) + " " + c.address + " " + Dec(c.port) + " typ " + c.kind
               + if c.tcpType.Some? && c.tcpType.value != "" then " tcptype " + c.tcpType.value else "")
  {
    hide Content, Dec, P, Printed, HasValue, FormatOf, CandidateObject, PlainEnd;
    var o := CandidateObject(c);
    CandidateRoundTrip.CandidateNames();
    ContentOfObject(CANDIDATES, o);
    CandidateTexts(c);
    PlainCandidateFormat(o);
    SevenFields(o, CANDIDATES.names, PlainEnd(HasValue(o, Tcptype)));
    PlainEndText(HasValue(o, Tcptype), o, CANDIDATES.names);
  }

  // ---- m= lines ----

  lemma FourFields(m: Fields, n: seq<Key>)
    requires |n| == 5
    ensures Printed(MediaFormat(false), m, n, 0) == P(m, n[0]) + " " + P(m, n[1]) + " " + P(m, n[3]) + " " + P(m, n[4])
  {
    hide P, Printed;
    Two(" ", S, " ", S, T, m, n, 3);
    Skipped(MEDIA_REST, m, n, 2);
    Two("", S, " ", D, Hole("", V, MEDIA_REST), m, n, 0);
    var start := P(m, n[0]) + " " + P(m, n[1]);
    assert "" + P(m, n[0]) == P(m, n[0]);
    assert start + (" " + P(m, n[3]) + " " + P(m, n[4]) + "") == start + " " + P(m, n[3]) + " " + P(m, n[4]);
  }

  /** The m= line of a described section: its kind, the port, the protocol and the payload types. */
  lemma MediaText(m: Fields, kind: string, port: nat, protocol: string, payloads: string)
    requires Type in m && m[Type] == Str(kind) && Port in m && m[Port] == Num(port) && NumPorts !in m
    requires Protocol in m && m[Protocol] == Str(protocol) && Payloads in m && m[Payloads] == Str(payloads)
    ensures Content(MEDIA, m) == kind + " " + Dec(port) + " " + protocol + " " + payloads
  {
    hide Dec, Content, P, Printed, HasValue, FormatOf, MediaFormat;
    ContentOfObject(MEDIA, m);
    MediaFormatOf(m);
    NoValue(m, NumPorts);
    StringText(m, Type, kind);
    NumberText(m, Port, port);
    StringText(m, Protocol, protocol);
    StringText(m, Payloads, payloads);
    FourFields(m, MEDIA.names);
  }

  /** What the m= line and the direction attribute of a section are printed from. */
  predicate Shows(m: Fields, kind: string, port: nat, protocol: string, payloads: string, direction: string) {
    Type in m && m[Type] == Str(kind) && Port in m && m[Port] == Num(port) && NumPorts !in m
    && Protocol in m && m[Protocol] == Str(protocol) && Payloads in m && m[Payloads] == Str(payloads)
    && Key.Direction in m && m[Key.Direction] == Str(direction)
  }

  lemma StartShows(ice: IceParameters, candidates: seq<IceCandidate>, mid: string, kind: string, protocol: string,
                   offer: bool, role: string, direction: string, codecs: seq<Codec>)
    ensures Shows(WithCodecs(WithRole(offer, Described(Common(ice, candidates), mid, kind, protocol), role), direction, codecs),
                  kind, 7, protocol, PayloadsText(codecs), direction)
  {
    hide CandidateList, RtpList, FmtpList, FeedbackList, PayloadsText, Shows;
    var m := Described(Common(ice, candidates), mid, kind, protocol);
    assert NumPorts !in m;
    assert Type in m && m[Type] == Str(kind) && Port in m && m[Port] == Num(7);
    assert Protocol in m && m[Protocol] == Str(protocol);
    RoleShows(offer, m, role, kind, protocol);
    CodecsShow(WithRole(offer, m, role), kind, protocol, direction, codecs);
  }

  predicate Starts(m: Fields, kind: string, protocol: string) {
    NumPorts !in m && Type in m && m[Type] == Str(kind) && Port in m && m[Port] == Num(7)
    && Protocol in m && m[Protocol] == Str(protocol)
  }

  lemma RoleShows(offer: bool, m: Fields, role: string, kind: string, protocol: string)
    requires Starts(m, kind, protocol)
    ensures Starts(WithRole(offer, m, role), kind, protocol)
  {
    hide SetupOf;
  }

  lemma CodecsShow(m: Fields, kind: string, protocol: string, direction: string, codecs: seq<Codec>)
    requires Starts(m, kind, protocol)
    ensures Shows(WithCodecs(m, direction, codecs), kind, 7, protocol, PayloadsText(codecs), direction)
  {
    hide RtpList, FmtpList, FeedbackList, PayloadsText;
  }

  /** The members added after the codecs print other lines. */
  lemma RestShows(m: Fields, kind: string, port: nat, protocol: string, payloads: string, direction: string, k: Key, v: Json)
    requires Shows(m, kind, port, protocol, payloads, direction)
    requires !(k.Type? || k.Port? || k.NumPorts? || k.Protocol? || k.Payloads? || k.Direction?)
    ensures Shows(m[k := v], kind, port, protocol, payloads, direction)
  {}

  /** A rejected section keeps its m= line but for the port, and turns inactive (section 8.2 of RFC 3264). */
  lemma RejectedShows(m: Fields, kind: string, protocol: string, payloads: string, direction: string)
    requires Shows(m, kind, 7, protocol, payloads, direction)
    ensures Shows(Closed(m), kind, 0, protocol, payloads, "inactive") && Shows(Disabled(m), kind, 7, protocol, payloads, "inactive")
  {}

  lemma ShownText(m: Fields, kind: string, port: nat, protocol: string, payloads: string, direction: string)
    requires Shows(m, kind, port, protocol, payloads, direction)
    ensures Content(MEDIA, m) == kind + " " + Dec(port) + " " + protocol + " " + payloads
    ensures P(m, Key.Direction) == direction
  {
    hide Dec, Content;
    MediaText(m, kind, port, protocol, payloads);
  }

  lemma AnswerShows(m: Fields, offer: OfferMedia, codecs: seq<Codec>, exts: seq<HeaderExtension>)
    requires Shows(WithCodecs(m, "recvonly", codecs), offer.kind, 7, offer.protocol, PayloadsText(codecs), "recvonly")
    ensures Shows(WithAnswer(m, offer, codecs, exts), offer.kind, 7, offer.protocol, PayloadsText(codecs), "recvonly")
  {
    hide WithCodecs, PayloadsText, ExtList, Offered, RidList, SimulcastObject, Shows;
    var kind, protocol, payloads := offer.kind, offer.protocol, PayloadsText(codecs);
    var m1 := WithCodecs(m, "recvonly", codecs);
    var m2 := m1[Ext := Arr(ExtList(Offered(exts, offer.extUris)))];
    RestShows(m1, kind, 7, protocol, payloads, "recvonly", Ext, Arr(ExtList(Offered(exts, offer.extUris))));
    var m3 := if offer.extmapAllowMixed then m2[Key.ExtmapAllowMixed := Str("extmap-allow-mixed")] else m2;
    RestShows(m2, kind, 7, protocol, payloads, "recvonly", Key.ExtmapAllowMixed, Str("extmap-allow-mixed"));
    SimulcastShows(m3, offer, payloads);
    MuxShows(WithSimulcast(m3, offer.simulcast), kind, protocol, payloads, "recvonly");
  }

  lemma SimulcastShows(m: Fields, offer: OfferMedia, payloads: string)
    requires Shows(m, offer.kind, 7, offer.protocol, payloads, "recvonly")
    ensures Shows(WithSimulcast(m, offer.simulcast), offer.kind, 7, offer.protocol, payloads, "recvonly")
  {
    hide RidList, SimulcastObject, Shows;
    if offer.simulcast.Some? {
      var list := Obj(SimulcastObject(offer.simulcast.value.list1));
      RestShows(m, offer.kind, 7, offer.protocol, payloads, "recvonly", Key.Simulcast, list);
      RestShows(m[Key.Simulcast := list], offer.kind, 7, offer.protocol, payloads, "recvonly",
                Key.Rids, Arr(RidList(offer.simulcast.value.rids)));
    }
  }

  lemma MuxShows(m: Fields, kind: string, protocol: string, payloads: string, direction: string)
    requires Shows(m, kind, 7, protocol, payloads, direction)
    ensures Shows(WithMux(m), kind, 7, protocol, payloads, direction)
  {
    hide Shows;
    RestShows(m, kind, 7, protocol, payloads, direction, RtcpMux, Str("rtcp-mux"));
    RestShows(m[RtcpMux := Str("rtcp-mux")], kind, 7, protocol, payloads, direction, RtcpRsize, Str("rtcp-rsize"));
  }

  lemma OfferShows(m: Fields, kind: string, params: RtpParameters, msid: string, protocol: string)
    requires params.encodings != []
    requires Shows(WithCodecs(m, "sendonly", params.codecs), kind, 7, protocol, PayloadsText(params.codecs), "sendonly")
    ensures Shows(WithOffer(m, params, msid), kind, 7, protocol, PayloadsText(params.codecs), "sendonly")
  {
    hide WithCodecs, PayloadsText, ExtList, SsrcList, GroupList, Shows, WithMux;
    var payloads := PayloadsText(params.codecs);
    var m1 := WithCodecs(m, "sendonly", params.codecs);
    RestShows(m1, kind, 7, protocol, payloads, "sendonly", Ext, Arr(ExtList(params.headerExtensions)));
    var m2 := WithMux(m1[Ext := Arr(ExtList(params.headerExtensions))]);
    MuxShows(m1[Ext := Arr(ExtList(params.headerExtensions))], kind, protocol, payloads, "sendonly");
    var e, cname := params.encodings[0], params.cname;
    var ssrcs := Arr(if cname.Some? then SsrcList(e, cname.value, msid) else []);
    RestShows(m2, kind, 7, protocol, payloads, "sendonly", Key.Ssrcs, ssrcs);
    RestShows(m2[Key.Ssrcs := ssrcs], kind, 7, protocol, payloads, "sendonly",
              Key.SsrcGroups, Arr(if cname.Some? then GroupList(e) else []));
  }

  /** The options of the application do not change payload types. */
  lemma TunedPayloads(cs: seq<Codec>, options: Option<CodecOptions>)
    ensures PayloadsText(TunedAll(cs, options)) == PayloadsText(cs)
  {
    hide Dec, Join, AnswerParameters;
    assert PayloadTypes(TunedAll(cs, options)) == PayloadTypes(cs);
  }

  /**
    The m= line of an answer section has the kind and protocol of the offer, port 7, and the payload
    types of the answered codecs whatever the options; it receives only. Closing it changes the port
    to 0, which rejects the stream (section 6 of RFC 3264); disabling it keeps the port.
   */
  lemma AnswerText(ice: IceParameters, candidates: seq<IceCandidate>, role: string, sctp: SctpParameters,
                   offer: OfferMedia, answer: RtpParameters, options: Option<CodecOptions>)
    requires IsMedia(offer.kind)
    ensures var m := AnswerObject(ice, candidates, role, sctp, offer, answer, options);
            var payloads := PayloadsText(answer.codecs);
            Content(MEDIA, m) == offer.kind + " " + Dec(7) + " " + offer.protocol + " " + payloads
            && Content(MEDIA, Disabled(m)) == offer.kind + " " + Dec(7) + " " + offer.protocol + " " + payloads
            && Content(MEDIA, Closed(m)) == offer.kind + " " + Dec(0) + " " + offer.protocol + " " + payloads
            && P(m, Key.Direction) == "recvonly"
            && P(Closed(m), Key.Direction) == "inactive" && P(Disabled(m), Key.Direction) == "inactive"
  {
    hide Content, Dec, Common, Described, WithRole, WithCodecs, WithAnswer, PayloadsText, TunedAll, Shows, Closed, Disabled, P;
    var codecs := TunedAll(answer.codecs, options);
    var m := AnswerObject(ice, candidates, role, sctp, offer, answer, options);
    var payloads := PayloadsText(answer.codecs);
    TunedPayloads(answer.codecs, options);
    StartShows(ice, candidates, offer.mid, offer.kind, offer.protocol, false, role, "recvonly", codecs);
    AnswerShows(WithRole(false, Described(Common(ice, candidates), offer.mid, offer.kind, offer.protocol), role), offer, codecs,
                answer.headerExtensions);
    RejectedShows(m, offer.kind, offer.protocol, payloads, "recvonly");
    ShownText(m, offer.kind, 7, offer.protocol, payloads, "recvonly");
    ShownText(Closed(m), offer.kind, 0, offer.protocol, payloads, "inactive");
    ShownText(Disabled(m), offer.kind, 7, offer.protocol, payloads, "inactive");
  }

  /** The m= line of an offer section: it sends only, over UDP/TLS/RTP/SAVPF, the codecs of its parameters. */
  lemma OfferText(ice: IceParameters, candidates: seq<IceCandidate>, mid: string, kind: string, params: RtpParameters,
                  streamId: string, trackId: string)
    requires IsMedia(kind) && params.encodings != []
    ensures var m := OfferObject(ice, candidates, None, mid, kind, params, streamId, trackId);
            Content(MEDIA, m) == kind + " " + Dec(7) + " " + "UDP/TLS/RTP/SAVPF" + " " + PayloadsText(params.codecs)
            && P(m, Key.Direction) == "sendonly"
  {
    hide Content, Dec, Common, Described, WithRole, WithCodecs, WithOffer, PayloadsText, Shows, P;
    var m := OfferObject(ice, candidates, None, mid, kind, params, streamId, trackId);
    StartShows(ice, candidates, mid, kind, "UDP/TLS/RTP/SAVPF", true, "", "sendonly", params.codecs);
    OfferShows(WithRole(true, Described(Common(ice, candidates), mid, kind, "UDP/TLS/RTP/SAVPF"), ""), kind, params,
               streamId + " " + trackId, "UDP/TLS/RTP/SAVPF");
    ShownText(m, kind, 7, "UDP/TLS/RTP/SAVPF", PayloadsText(params.codecs), "sendonly");
  }

  // ---- Session lines ----

  lemma OriginFilled(version: nat)
    ensures var o := SdpNormalForm.OriginObject(version);
            FormatOf(ORIGIN, o) == Hole("", S, Hole(" ", D, Hole(" ", D, Hole(" ", S, Hole(" IP", D, Hole(" ", S, T))))))
            && ORIGIN.names == [Username, SessionId, SessionVersion, NetType, IpVer, Address]
            && Filled(FormatOf(ORIGIN, o), o, ORIGIN.names, 0)
  {
    var o, n := SdpNormalForm.OriginObject(version), ORIGIN.names;
    var address := Hole(" IP", D, Hole(" ", S, T));
    assert Filled(address, o, n, 4);
    assert Filled(Hole(" ", D, Hole(" ", S, address)), o, n, 2);
  }

  lemma OriginOf(st: SdpState.State)
    ensures Origin in SdpState.SdpObject(st) && SdpState.SdpObject(st)[Origin] == Obj(SdpNormalForm.OriginObject(st.sessionVersion))
  {}

  /** The o= line (section 5.2 of RFC 8866): only the version changes from one description to the next. */
  lemma OriginText(st: SdpState.State)
    ensures Content(ORIGIN, SdpState.SdpObject(st))
         == "libmediasoupclient" + " " + Dec(10000) + " " + Dec(st.sessionVersion) + " " + "IN" + " IP" + Dec(4) + " " + "0.0.0.0"
  {
    hide Dec, Content, P, Printed, FormatOf, SdpState.SdpObject, SdpNormalForm.OriginObject, Filled;
    var o := SdpNormalForm.OriginObject(st.sessionVersion);
    var n := ORIGIN.names;
    OriginOf(st);
    OriginFilled(st.sessionVersion);
    SdpNormalForm.OriginTexts(st.sessionVersion);
    ContentOfNamed(ORIGIN, SdpState.SdpObject(st), o);
    var address := Hole(" IP", D, Hole(" ", S, T));
    var middle := Hole(" ", D, Hole(" ", S, address));
    Two(" IP", D, " ", S, T, o, n, 4);
    Two(" ", D, " ", S, address, o, n, 2);
    Two("", S, " ", D, middle, o, n, 0);
    var start := "libmediasoupclient" + " " + Dec(10000);
    var version := " " + Dec(st.sessionVersion) + " " + "IN";
    var last := " IP" + Dec(4) + " " + "0.0.0.0";
    assert "" + "libmediasoupclient" == "libmediasoupclient" && last + "" == last;
    assert start + (version + last) == start + version + last;
    assert start + version == start + " " + Dec(st.sessionVersion) + " " + "IN";
    assert (start + version) + last == (start + version) + " IP" + Dec(4) + " " + "0.0.0.0";
  }

  /** The a=group line: BUNDLE and the mids of the group (section 7 of RFC 9143). */
  lemma GroupLineText(mids: string)
    ensures Content(GROUPS, map[Type := Str("BUNDLE"), Mids := Str(mids)]) == "group:" + "BUNDLE" + " " + mids
  {
    hide Content, P, Printed;
    var o: Fields := map[Type := Str("BUNDLE"), Mids := Str(mids)];
    ContentOfObject(GROUPS, o);
    StringText(o, Type, "BUNDLE");
    StringText(o, Mids, mids);
    Two("group:", S, " ", S, T, o, GROUPS.names, 0);
  }

  /** The t= line. */
  lemma TimingText(o: Fields)
    ensures NamedText(TIMING, o) == P(o, Start) + " " + P(o, Stop)
  {
    hide P, Printed;
    assert FormatOf(TIMING, o) == Hole("", D, Hole(" ", D, T)) && TIMING.names == [Start, Stop];
    Two("", D, " ", D, T, o, TIMING.names, 0);
    assert "" + P(o, Start) == P(o, Start);
  }

  /** The a=fingerprint line: the algorithm, then the hash. */
  lemma FingerprintText(o: Fields)
    ensures NamedText(FINGERPRINT, o) == "fingerprint:" + P(o, Type) + " " + P(o, Hash)
  {
    hide P, Printed;
    assert FormatOf(FINGERPRINT, o) == Hole("fingerprint:", S, Hole(" ", S, T)) && FINGERPRINT.names == [Type, Hash];
    Two("fingerprint:", S, " ", S, T, o, FINGERPRINT.names, 0);
  }

  lemma MsidSemanticText(o: Fields)
    ensures NamedText(MSID_SEMANTIC, o) == "msid-semantic: " + P(o, Semantic) + " " + P(o, Token)
  {
    hide P, Printed;
    assert FormatOf(MSID_SEMANTIC, o) == Hole("msid-semantic: ", S, Hole(" ", S, T)) && MSID_SEMANTIC.names == [Semantic, Token];
    Two("msid-semantic: ", S, " ", S, T, o, MSID_SEMANTIC.names, 0);
  }

  /** The c= line, with the time to live only when there is one. */
  lemma ConnectionText(o: Fields)
    ensures NamedText(CONNECTION, o) == "IN IP" + P(o, Version) + " " + P(o, Ip) + if HasValue(o, Ttl) then "/" + P(o, Ttl) else ""
  {
    hide P, Printed, HasValue, FormatOf;
    ConnectionFormatOf(o);
    assert CONNECTION.names == [Version, Ip, Ttl];
    var n := CONNECTION.names;
    Two("IN IP", D, " ", S, if HasValue(o, Ttl) then Hole("/", D, T) else T, o, n, 0);
    PrintedHole("/", D, T, o, n, 2);
    PrintedNothing(o, n, 3);
    assert "/" + P(o, Ttl) + "" == "/" + P(o, Ttl);
  }

  /** The a=simulcast line of an answer. */
  lemma SimulcastText(list1: string)
    ensures NamedText(SIMULCAST, SimulcastObject(list1)) == "simulcast:" + "recv" + " " + list1
  {
    hide P, Printed, HasValue, FormatOf;
    var o := SimulcastObject(list1);
    SimulcastFormatOf(o);
    NoValue(o, Dir2);
    StringText(o, Dir1, "recv");
    StringText(o, List1, list1);
    assert SIMULCAST.names == [Dir1, List1, Dir2, List2];
    Two("simulcast:", S, " ", S, T, o, SIMULCAST.names, 0);
  }
}
