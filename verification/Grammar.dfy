/**
  The rule table of the SDP grammar (mssdk/json/grammar.cpp). `key` is the
  member that a rule reads and writes (its name or push entry); the rule of the m= line works on
  the media section itself.
 */
module Grammar {
  import opened Prelude
  import opened Regex
  import opened Json

  /** Where a rule keeps its data: one named member, one array, or the location itself. */
  datatype Target = Named | Pushed | Root

  datatype RuleData =
    Rule(key: Key, target: Target, anchored: bool, re: Re, names: seq<Key>, types: string, format: Formatting)

  /** A rule has a type for each of its names, and one for its value when it has no names. */
  type Rule = r: RuleData | |r.names| <= |r.types| && 0 < |r.types|
    witness Rule(Invalid, Pushed, true, Done, [], "s", Chosen)

  /** A format string, cut at its placeholders. */
  datatype Kind = S | D | V | Percent
  datatype Format = Tail(text: string) | Hole(prefix: Prefix, kind: Kind, next: Format)

  /** The text of a format never breaks a line. */
  type Prefix = s: string | '\n' !in s

  /** A rule has one format, or a function that picks one by the members present. */
  datatype Formatting = Fixed(format: Format) | Chosen

  const ANY := Cap(Dot, Star, Done)

  const TEXT := Fixed(Hole("", S, Tail("")))

  function Scalar(key: Key, head: Prefix, cls: Class, types: string): Rule
    requires types != ""
  {
    Rule(key, Named, true, Lit(head, Cap(cls, Star, Done)), [], types, Fixed(Hole(head, if types == "d" then D else S, Tail(""))))
  }

  function Flag(key: Key, words: seq<string>): Rule { Rule(key, Named, true, Choice(words, Done), [], "s", TEXT) }

  function TextRule(key: Key): Rule { Rule(key, Named, true, ANY, [], "s", TEXT) }

  const VERSION := Rule(Version, Named, true, Cap(Digit, Star, End), [], "d",
    Fixed(Hole("", D, Tail(""))))
  const ORIGIN := Rule(Origin, Named, true,
    Cap(NonSpace, Star, Lit(" ", Cap(Digit, Star, Lit(" ", Cap(Digit, Star, Lit(" ", Cap(NonSpace, Star,
      Lit(" IP", Cap(Digit, One, Lit(" ", Cap(NonSpace, Star, Done))))))))))),
    [Username, SessionId, SessionVersion, NetType, IpVer, Address], "suusds",
    Fixed(Hole("", S, Hole(" ", D, Hole(" ", D, Hole(" ", S, Hole(" IP", D, Hole(" ", S, Tail("")))))))))
  const TIMING := Rule(Timing, Named, true, Cap(Digit, Star, Lit(" ", Cap(Digit, Star, Done))), [Start, Stop], "dd",
    Fixed(Hole("", D, Hole(" ", D, Tail("")))))
  // The character class of the address is [^\\S/]: no backslash, no capital S, no slash.
  const TTL := Lit("/", Cap(Digit, Star, Done))
  const CONNECTION := Rule(Connection, Named, true,
    Lit("IN IP", Cap(Digit, One, Lit(" ", Cap(Except("\\S/"), Star,
      Opt(TTL, Done))))),
    [Version, Ip, Ttl], "dsd",
    Chosen)
  const BANDWIDTH := Rule(Bandwidth, Pushed, true,
    Choice(["TIAS", "AS", "CT", "RR", "RS"], Lit(":", Cap(Digit, Star, Done))), [Type, Limit], "sd",
    Fixed(Hole("", S, Hole(":", D, Tail("")))))
  const NUM_PORTS := Lit("/", Cap(Digit, Star, Done))
  const PAYLOADS := Lit(" ", ANY)
  const MEDIA := Rule(Media, Root, true,
    Cap(Word(""), Star, Lit(" ", Cap(Digit, Star, Opt(NUM_PORTS, Lit(" ", Cap(Word("/"), Star, Opt(PAYLOADS, Done))))))),
    [Type, Port, NumPorts, Protocol, Payloads], "sddss", Chosen)

  const RTP_ENCODING := Run(Space, Star, Lit("/", Cap(NonSpace, Star, Done)))
  const RTP_RATE := Run(Space, Star, Lit("/", Cap(Digit, Star, Opt(RTP_ENCODING, Done))))
  const RTP := Rule(Rtp, Pushed, true,
    Lit("rtpmap:", Cap(Digit, Star, Lit(" ", Cap(Word("-."), Star, Opt(RTP_RATE, Done))))),
    [Payload, Codec, Rate, Encoding], "dsds", Chosen)
  const FMTP := Rule(Fmtp, Pushed, true, Lit("fmtp:", Cap(Digit, Star, Lit(" ", ANY))), [Payload, Config], "ds",
    Fixed(Hole("fmtp:", D, Hole(" ", S, Tail("")))))
  const RTCP := Rule(Rtcp, Named, true,
    Lit("rtcp:", Cap(Digit, Star,
      Opt(Lit(" ", Cap(NonSpace, Star, Lit(" IP", Cap(Digit, One, Lit(" ", Cap(NonSpace, Star, Done)))))), Done))),
    [Port, NetType, IpVer, Address], "dsds",
    Chosen)
  const RTCP_FB_TRR_INT := Rule(RtcpFbTrrInt, Pushed, true,
    Lit("rtcp-fb:", WordOrCap("*", Digit, Lit(" trr-int ", Cap(Digit, Star, Done)))), [Payload, Value], "sd",
    Fixed(Hole("rtcp-fb:", S, Hole(" trr-int ", D, Tail("")))))
  const FB_SUBTYPE := Lit(" ", Cap(Word("-"), Star, Done))
  const RTCP_FB := Rule(RtcpFb, Pushed, true,
    Lit("rtcp-fb:", WordOrCap("*", Digit, Lit(" ", Cap(Word("-"), Star, Opt(FB_SUBTYPE, Done))))),
    [Payload, Type, Subtype], "sss", Chosen)
  const ENCRYPT := "urn:ietf:params:rtp-hdrext:encrypt"
  const EXT_DIRECTION := Lit("/", Cap(Word(""), Plus, Done))
  const EXT_ENCRYPT := Lit(" ", Choice([ENCRYPT], Done))
  const EXT_CONFIG := Lit(" ", Cap(NonSpace, Star, Done))
  const EXT_TAIL := Lit(" ", Cap(NonSpace, Star, Opt(EXT_CONFIG, Done)))
  const EXT := Rule(Ext, Pushed, true,
    Lit("extmap:", Cap(Digit, Plus, Opt(EXT_DIRECTION, Opt(EXT_ENCRYPT, EXT_TAIL)))),
    [Value, Direction, EncryptUri, Uri, Config], "dssss", Chosen)
  const CRYPTO := Rule(Crypto, Pushed, true,
    Lit("crypto:", Cap(Digit, Star, Lit(" ", Cap(Word(""), Star, Lit(" ", Cap(NonSpace, Star,
      Opt(Lit(" ", Cap(NonSpace, Star, Done)), Done))))))),
    [Id, Suite, Config, SessionConfig], "dsss",
    Chosen)
  const FINGERPRINT := Rule(Fingerprint, Named, true,
    Lit("fingerprint:", Cap(NonSpace, Star, Lit(" ", Cap(NonSpace, Star, Done)))), [Type, Hash], "ss",
    Fixed(Hole("fingerprint:", S, Hole(" ", S, Tail("")))))
  const RADDR := Lit(" raddr ", Cap(NonSpace, Star, Lit(" rport ", Cap(Digit, Star, Done))))
  const TCPTYPE := Lit(" tcptype ", Cap(NonSpace, Star, Done))
  const GENERATION := Lit(" generation ", Cap(Digit, Star, Done))
  const NETWORK_ID := Lit(" network-id ", Cap(Digit, Star, Done))
  const NETWORK_COST := Lit(" network-cost ", Cap(Digit, Star, Done))
  const CANDIDATE_END := Opt(GENERATION, Opt(NETWORK_ID, Opt(NETWORK_COST, Done)))
  const CANDIDATE_TAIL := Opt(RADDR, Opt(TCPTYPE, CANDIDATE_END))
  const CANDIDATES := Rule(Candidates, Pushed, true,
    Lit("candidate:", Cap(NonSpace, Star, Lit(" ", Cap(Digit, Star, Lit(" ", Cap(NonSpace, Star, Lit(" ",
      Cap(Digit, Star, Lit(" ", Cap(NonSpace, Star, Lit(" ", Cap(Digit, Star, Lit(" typ ",
      Cap(NonSpace, Star, CANDIDATE_TAIL)))))))))))))),
    [Foundation, Component, Transport, Priority, Ip, Port, Type, Raddr, Rport, Tcptype, Generation, NetworkId, NetworkCost],
    "sdsdsdssdsdddd",
    Chosen)
  const SSRC_VALUE := Lit(":", ANY)
  const SSRCS := Rule(Ssrcs, Pushed, true,
    Lit("ssrc:", Cap(Digit, Star, Lit(" ", Cap(Word("-"), Star, Opt(SSRC_VALUE, Done))))),
    [Id, Attribute, Value], "dss",
    Chosen)
  // The class is written [!#$%&'*+-.\w]; the unescaped '-' makes it the range from '+' to '.'.
  const SSRC_GROUPS := Rule(SsrcGroups, Pushed, true,
    Lit("ssrc-group:", Cap(Word("!#$%&'*+,-."), Star, Lit(" ", ANY))), [Semantics, Ssrcs], "ss",
    Fixed(Hole("ssrc-group:", S, Hole(" ", S, Tail("")))))
  const MSID_SEMANTIC := Rule(MsidSemantic, Named, true,
    Lit("msid-semantic:", Run(Space, Maybe, Cap(Word(""), Star, Lit(" ", Cap(NonSpace, Star, Done))))),
    [Semantic, Token], "ss",
    Fixed(Hole("msid-semantic: ", S, Hole(" ", S, Tail("")))))
  const GROUPS := Rule(Groups, Pushed, true, Lit("group:", Cap(Word(""), Star, Lit(" ", ANY))), [Type, Mids], "ss",
    Fixed(Hole("group:", S, Hole(" ", S, Tail("")))))
  const SCTPMAP := Rule(Sctpmap, Named, true,
    Lit("sctpmap:", Cap(Digit, Plus, Lit(" ", Cap(NonSpace, Star, Opt(Lit(" ", Cap(Digit, Star, Done)), Done))))),
    [SctpmapNumber, App, MaxMessageSize], "dsd",
    Chosen)
  const X_GOOGLE_FLAG := Rule(XGoogleFlag, Named, false, Lit("x-google-flag:", Cap(NonSpace, Star, Done)), [], "s",
    Fixed(Hole("x-google-flag:", S, Tail(""))))
  const RID_PARAMS := Lit(" ", ANY)
  const RIDS := Rule(Rids, Pushed, true,
    Lit("rid:", Cap(Word(""), Plus, Lit(" ", Cap(Word(""), Plus, Opt(RID_PARAMS, Done))))),
    [Id, Direction, Params], "sss",
    Chosen)
  const STREAM_LIST := Word("-~;,")
  const SECOND_LIST := Run(Space, Maybe, Choice(["send", "recv"], Lit(" ", Cap(STREAM_LIST, Plus, Done))))
  const SIMULCAST := Rule(Simulcast, Named, true,
    Lit("simulcast:", Choice(["send", "recv"], Lit(" ", Cap(STREAM_LIST, Plus, Opt(SECOND_LIST, End))))),
    [Dir1, List1, Dir2, List2], "ssss", Chosen)
  const SIMULCAST_03 := Rule(Simulcast03, Named, true, Lit("simulcast: ", Cap(Dot, Plus, End)), [Value], "s",
    Fixed(Hole("simulcast: ", S, Tail(""))))
  const SOURCE_FILTER := Rule(SourceFilter, Named, true,
    Lit("source-filter:", Run(Space, Star, Choice(["excl", "incl"], Lit(" ", Cap(NonSpace, Star, Lit(" ",
      Choice(["IP4", "IP6", "*"], Lit(" ", Cap(NonSpace, Star, Lit(" ", ANY)))))))))),
    [FilterMode, NetType, AddressTypes, DestAddress, SrcList], "sssss",
    Fixed(Hole("source-filter: ", S, Hole(" ", S, Hole(" ", S, Hole(" ", S, Hole(" ", S, Tail(""))))))))
  const CONTROL := Scalar(Control, "control:", Dot, "s")
  const EXTMAP_ALLOW_MIXED := Flag(ExtmapAllowMixed, ["extmap-allow-mixed"])
  const SETUP := Scalar(Setup, "setup:", Word(""), "s")
  const MID := Scalar(Mid, "mid:", NonSpace, "s")
  const MSID := Scalar(Msid, "msid:", Dot, "s")
  const PTIME := Scalar(Ptime, "ptime:", Digit, "d")
  const MAXPTIME := Scalar(Maxptime, "maxptime:", Digit, "d")
  const DIRECTION := Flag(Direction, ["sendrecv", "recvonly", "sendonly", "inactive"])
  const ICELITE := Flag(Icelite, ["ice-lite"])
  const ICE_UFRAG := Scalar(IceUfrag, "ice-ufrag:", NonSpace, "s")
  const ICE_PWD := Scalar(IcePwd, "ice-pwd:", NonSpace, "s")
  const END_OF_CANDIDATES := Flag(EndOfCandidates, ["end-of-candidates"])
  const REMOTE_CANDIDATES := Scalar(RemoteCandidates, "remote-candidates:", Dot, "s")
  const ICE_OPTIONS := Scalar(IceOptions, "ice-options:", NonSpace, "s")
  const RTCP_MUX := Flag(RtcpMux, ["rtcp-mux"])
  const RTCP_RSIZE := Flag(RtcpRsize, ["rtcp-rsize"])
  const TS_REFCLK := Scalar(TsRefclk, "ts-refclk:", Dot, "s")
  const MEDIACLK := Scalar(Mediaclk, "mediaclk:", Dot, "s")
  const INVALID := Rule(Invalid, Pushed, true, ANY, [Value], "s",
    TEXT)

  /** The rules of a line type, in the order in which they are tried. */
  function Rules(t: char): seq<Rule> {
    match t
    case 'v' => [VERSION]
    case 'o' => [ORIGIN]
    case 's' => [TextRule(Name)]
    case 'i' => [TextRule(Description)]
    case 'u' => [TextRule(Uri)]
    case 'e' => [TextRule(Email)]
    case 'p' => [TextRule(Phone)]
    case 'z' => [TextRule(Timezones)]
    case 'r' => [TextRule(Repeats)]
    case 't' => [TIMING]
    case 'c' => [CONNECTION]
    case 'b' => [BANDWIDTH]
    case 'm' => [MEDIA]
    case 'a' => ATTRIBUTES
    case _ => []
  }

  // The attribute rules, in order.
  const ATTRIBUTES: seq<Rule> := CODEC_RULES + SECTION_RULES + ICE_RULES + SSRC_RULES + LAST_RULES

  const CODEC_RULES: seq<Rule> := [
    RTP, FMTP, CONTROL, RTCP, RTCP_FB_TRR_INT, RTCP_FB, EXT, EXTMAP_ALLOW_MIXED, CRYPTO]
  const SECTION_RULES: seq<Rule> := [
    SETUP, MID, MSID, PTIME, MAXPTIME, DIRECTION, ICELITE]
  const ICE_RULES: seq<Rule> := [
    ICE_UFRAG, ICE_PWD, FINGERPRINT, CANDIDATES, END_OF_CANDIDATES, REMOTE_CANDIDATES, ICE_OPTIONS]
  const SSRC_RULES: seq<Rule> := [
    SSRCS, SSRC_GROUPS, MSID_SEMANTIC, GROUPS, RTCP_MUX, RTCP_RSIZE, SCTPMAP, X_GOOGLE_FLAG]
  const LAST_RULES: seq<Rule> := [
    RIDS, SIMULCAST, SIMULCAST_03, SOURCE_FILTER, TS_REFCLK, MEDIACLK, INVALID]

  function If(cond: bool, yes: Format, no: Format): Format { if cond then yes else no }

  /** The format of a line, which may depend on the members present in `o`. */
  function FormatOf(rule: Rule, o: Fields): Format { if rule.format.Fixed? then rule.format.format else ChosenFormat(rule.key, o) }

  function ChosenFormat(k: Key, o: Fields): Format {
    match k
    case Connection =>
      Hole("IN IP", D, Hole(" ", S, If(HasValue(o, Ttl), Hole("/", D, Tail("")), Tail(""))))
    case Media =>
      var rest := Hole(" ", S, Hole(" ", S, Tail("")));
      Hole("", S, Hole(" ", D, If(HasValue(o, NumPorts), Hole("/", D, rest), Hole("", V, rest))))
    case Rtp =>
      Hole("rtpmap:", D, Hole(" ", S,
        if HasValue(o, Encoding) then Hole("/", S, Hole("/", S, Tail("")))
        else if HasValue(o, Rate) then Hole("/", S, Tail("")) else Tail("")))
    case Rtcp =>
      Hole("rtcp:", D,
        If(HasValue(o, Address), Hole(" ", S, Hole(" IP", D, Hole(" ", S, Tail("")))), Tail("")))
    case RtcpFb =>
      Hole("rtcp-fb:", S, Hole(" ", S, If(HasValue(o, Subtype), Hole(" ", S, Tail("")), Tail(""))))
    case Ext =>
      Hole("extmap:", D, Optional(o, Direction, "/", Optional(o, EncryptUri, " ",
        Hole(" ", S, If(HasValue(o, Config), Hole(" ", S, Tail("")), Tail(""))))))
    case Crypto =>
      Hole("crypto:", D, Hole(" ", S, Hole(" ", S, If(HasValue(o, SessionConfig), Hole(" ", S, Tail("")), Tail("")))))
    case Candidates =>
      Hole("candidate:", S, Hole(" ", D, Hole(" ", S, Hole(" ", D, Hole(" ", S, Hole(" ", D, Hole(" typ ", S,
        CandidateTail(o))))))))
    case Ssrcs =>
      Hole("ssrc:", D,
        If(HasValue(o, Attribute), Hole(" ", S, If(HasValue(o, Value), Hole(":", S, Tail("")), Tail(""))), Tail("")))
    case Sctpmap =>
      Hole("sctpmap:", S, Hole(" ", S, If(HasValue(o, MaxMessageSize), Hole(" ", S, Tail("")), Tail(""))))
    case Rids =>
      Hole("rid:", S, Hole(" ", S, If(HasValue(o, Params), Hole(" ", S, Tail("")), Tail(""))))
    case Simulcast =>
      Hole("simulcast:", S, Hole(" ", S, If(HasValue(o, Dir2), Hole(" ", S, Hole(" ", S, Tail(""))), Tail(""))))
    case _ => Tail("")
  }

  /** A placeholder that is written when the member has a value, and a %v otherwise. */
  function Optional(o: Fields, key: Key, prefix: Prefix, next: Format): Format {
    if HasValue(o, key) then Hole(prefix, S, next) else Hole("", V, next)
  }

  /** The optional chunks of a candidate. A missing generation gets no %v. */
  function CandidateTail(o: Fields): Format {
    var cost := if HasValue(o, NetworkCost) then Hole(" network-cost ", D, Tail("")) else Hole("", V, Tail(""));
    var id := if HasValue(o, NetworkId) then Hole(" network-id ", D, cost) else Hole("", V, cost);
    var generation := if HasValue(o, Generation) then Hole(" generation ", D, id) else id;
    var tcptype := if HasValue(o, Tcptype) then Hole(" tcptype ", S, generation) else Hole("", V, generation);
    if HasValue(o, Raddr) then Hole(" raddr ", S, Hole(" rport ", D, tcptype)) else Hole("", V, Hole("", V, tcptype))
  }

  // ---- The two rules that are not in the table ----

  /** imageattr: a payload type or *, a direction, and attributes or *. What may follow is optional. */
  function ImageAttr(allTypes: bool, allAttributes: bool): Re {
    var attributes := if allAttributes then Lit("*", Done) else Lit("[", Run(NonSpace, Plus, Lit("]", Done)));
    var rest := Run(Space, Plus, Choice(["send", "recv"], Run(Space, Plus, attributes)));
    Lit("imageattr:", if allTypes then Lit("*", rest) else Run(Digit, Plus, rest))
  }

  /** framerate: a whole number that ends the line, or a number with a decimal point. */
  function FrameRate(whole: bool): Re {
    Lit("framerate:", Run(Digit, Plus, if whole then End else Lit(".", Run(Digit, Plus, Done))))
  }

  /** Whether one of the two claims an attribute line. */
  predicate ClaimedElsewhere(s: string) {
    Match(ImageAttr(false, false), s).Some? || Match(ImageAttr(false, true), s).Some?
    || Match(ImageAttr(true, false), s).Some? || Match(ImageAttr(true, true), s).Some?
    || Match(FrameRate(true), s).Some? || Match(FrameRate(false), s).Some?
  }

  // ---- Trying the rules ----

  /** std::regex_search of a rule: an anchored pattern is tried at the start only. */
  function Search(rule: Rule, s: string): Option<Caps> {
    if rule.anchored then Match(rule.re, s) else SearchFrom(rule.re, s)
  }

  function SearchFrom(re: Re, s: string): Option<Caps> {
    var here := Match(re, s);
    if here.Some? || s == "" then here else SearchFrom(re, s[1..])
  }

  predicate Claims(rule: Rule, s: string) { Search(rule, s).Some? }

  /** The first of the given rules whose pattern is found in `s`. */
  function FirstClaim(rules: seq<Rule>, s: string): Option<Rule> {
    if rules == [] then None
    else if Claims(rules[0], s) then Some(rules[0])
    else FirstClaim(rules[1..], s)
  }

  /** The first claim is the only rule that claims the text and follows none that does. */
  lemma {:induction false} FirstClaimAt(rules: seq<Rule>, j: nat, s: string)
    requires j < |rules| && Claims(rules[j], s) && forall i :: 0 <= i < j ==> !Claims(rules[i], s)
    ensures FirstClaim(rules, s) == Some(rules[j])
  {
    if j > 0 {
      FirstClaimAt(rules[1..], j - 1, s);
    }
  }
}
