/**
  Which attribute rule can claim a text, read off a few of its characters. It replaces the
  pairwise comparison of rules when showing that no earlier rule claims a printed line.
 */
module Dispatch {
  import opened Prelude
  import opened Regex
  import opened Json
  import opened Grammar

  function At(s: string, i: nat): char { if i < |s| then s[i] else '\0' }

  /** The only rule that may claim `s`, besides the catch-all, x-google-flag and trr-int rules. */
  function Expected(s: string): Option<Key> {
    match At(s, 2)
    case 'p' => Some(Rtp)
    case 't' => (
      match At(s, 1)
      case 'm' => Some(Fmtp)
      case 'x' => (
        match At(s, 6)
        case ':' => Some(Ext)
        case '-' => Some(ExtmapAllowMixed)
        case _ => None)
      case 'e' => Some(Setup)
      case 'c' => Some(Sctpmap)
      case _ => None)
    case 'n' => (
      match At(s, 5)
      case 'o' => Some(Control)
      case 'e' => Some(Direction)
      case 'n' => Some(Direction)
      case 'r' => Some(Fingerprint)
      case 'd' => Some(Candidates)
      case _ => None)
    case 'c' => (
      match At(s, 4)
      case ':' => Some(Rtcp)
      case '-' => (
        match At(s, 5)
        case 'f' => Some(RtcpFb)
        case 'm' => Some(RtcpMux)
        case 'r' => Some(RtcpRsize)
        case _ => None)
      case 'o' => Some(Direction)
      case _ => None)
    case 'y' => Some(Crypto)
    case 'd' => (
      match At(s, 0)
      case 'm' => (
        match At(s, 1)
        case 'i' => Some(Mid)
        case 'e' => Some(Mediaclk)
        case _ => None)
      case 'e' => Some(EndOfCandidates)
      case 'r' => Some(Rids)
      case _ => None)
    case 'i' => (
      match At(s, 4)
      case ':' => Some(Msid)
      case 'e' => Some(Ptime)
      case '-' => Some(MsidSemantic)
      case _ => None)
    case 'x' => Some(Maxptime)
    case 'a' => Some(Direction)
    case 'e' => (
      match At(s, 4)
      case 'l' => Some(Icelite)
      case 'u' => Some(IceUfrag)
      case 'p' => Some(IcePwd)
      case 'o' => Some(IceOptions)
      case _ => None)
    case 'm' => (
      match At(s, 10)
      case 'd' => Some(RemoteCandidates)
      case 's' => Some(Simulcast)
      case 'r' => Some(Simulcast)
      case ' ' => Some(Simulcast03)
      case _ => None)
    case 'r' => (
      match At(s, 4)
      case ':' => Some(Ssrcs)
      case '-' => Some(SsrcGroups)
      case _ => None)
    case 'o' => Some(Groups)
    case 'u' => Some(SourceFilter)
    case '-' => Some(TsRefclk)
    case _ => None
  }

  predicate Special(k: Key) { k == Invalid || k == XGoogleFlag || k == RtcpFbTrrInt || k == Simulcast }

  // What a rule of each group claims is expected to be that rule's.

  lemma EarlyCodecHeads(i: nat, s: string)
    requires i < 6 && i < |CODEC_RULES| && CODEC_RULES[i].re.Lit? && !Special(CODEC_RULES[i].key) && CODEC_RULES[i].re.text <= s
    ensures Expected(s) == Some(CODEC_RULES[i].key)
  {
    hide Match;
  }

  lemma LateCodecHeads(i: nat, s: string)
    requires 6 <= i < |CODEC_RULES| && CODEC_RULES[i].re.Lit? && !Special(CODEC_RULES[i].key) && CODEC_RULES[i].re.text <= s
    ensures Expected(s) == Some(CODEC_RULES[i].key)
  {
    hide Match;
  }

  lemma CodecRuleHeads(i: nat, s: string)
    requires i < |CODEC_RULES| && CODEC_RULES[i].re.Lit? && !Special(CODEC_RULES[i].key) && CODEC_RULES[i].re.text <= s
    ensures Expected(s) == Some(CODEC_RULES[i].key)
  {
    hide Expected, CODEC_RULES;
    if i < 6 { EarlyCodecHeads(i, s); } else { LateCodecHeads(i, s); }
  }

  lemma EarlySectionHeads(i: nat, s: string)
    requires i < 4 && i < |SECTION_RULES| && SECTION_RULES[i].re.Lit? && !Special(SECTION_RULES[i].key)
            && SECTION_RULES[i].re.text <= s
    ensures Expected(s) == Some(SECTION_RULES[i].key)
  {
    hide Match;
  }

  lemma LateSectionHeads(i: nat, s: string)
    requires 4 <= i < |SECTION_RULES| && SECTION_RULES[i].re.Lit? && !Special(SECTION_RULES[i].key) && SECTION_RULES[i].re.text <= s
    ensures Expected(s) == Some(SECTION_RULES[i].key)
  {
    hide Match;
  }

  lemma SectionRuleHeads(i: nat, s: string)
    requires i < |SECTION_RULES| && SECTION_RULES[i].re.Lit? && !Special(SECTION_RULES[i].key) && SECTION_RULES[i].re.text <= s
    ensures Expected(s) == Some(SECTION_RULES[i].key)
  {
    hide Expected, SECTION_RULES;
    if i < 4 { EarlySectionHeads(i, s); } else { LateSectionHeads(i, s); }
  }

  lemma EarlyIceHeads(i: nat, s: string)
    requires i < 4 && i < |ICE_RULES| && ICE_RULES[i].re.Lit? && !Special(ICE_RULES[i].key) && ICE_RULES[i].re.text <= s
    ensures Expected(s) == Some(ICE_RULES[i].key)
  {
    hide Match;
  }

  lemma LateIceHeads(i: nat, s: string)
    requires 4 <= i < |ICE_RULES| && ICE_RULES[i].re.Lit? && !Special(ICE_RULES[i].key) && ICE_RULES[i].re.text <= s
    ensures Expected(s) == Some(ICE_RULES[i].key)
  {
    hide Match;
  }

  lemma IceRuleHeads(i: nat, s: string)
    requires i < |ICE_RULES| && ICE_RULES[i].re.Lit? && !Special(ICE_RULES[i].key) && ICE_RULES[i].re.text <= s
    ensures Expected(s) == Some(ICE_RULES[i].key)
  {
    hide Expected, ICE_RULES;
    if i < 4 { EarlyIceHeads(i, s); } else { LateIceHeads(i, s); }
  }

  lemma EarlySsrcHeads(i: nat, s: string)
    requires i < 4 && i < |SSRC_RULES| && SSRC_RULES[i].re.Lit? && !Special(SSRC_RULES[i].key) && SSRC_RULES[i].re.text <= s
    ensures Expected(s) == Some(SSRC_RULES[i].key)
  {
    hide Match;
  }

  lemma LateSsrcHeads(i: nat, s: string)
    requires 4 <= i < |SSRC_RULES| && SSRC_RULES[i].re.Lit? && !Special(SSRC_RULES[i].key) && SSRC_RULES[i].re.text <= s
    ensures Expected(s) == Some(SSRC_RULES[i].key)
  {
    hide Match;
  }

  lemma SsrcRuleHeads(i: nat, s: string)
    requires i < |SSRC_RULES| && SSRC_RULES[i].re.Lit? && !Special(SSRC_RULES[i].key) && SSRC_RULES[i].re.text <= s
    ensures Expected(s) == Some(SSRC_RULES[i].key)
  {
    hide Expected, SSRC_RULES;
    if i < 4 { EarlySsrcHeads(i, s); } else { LateSsrcHeads(i, s); }
  }

  lemma EarlyLastHeads(i: nat, s: string)
    requires i < 3 && i < |LAST_RULES| && LAST_RULES[i].re.Lit? && !Special(LAST_RULES[i].key) && LAST_RULES[i].re.text <= s
    ensures Expected(s) == Some(LAST_RULES[i].key)
  {
    hide Match;
  }

  lemma LateLastHeads(i: nat, s: string)
    requires 3 <= i < |LAST_RULES| && LAST_RULES[i].re.Lit? && !Special(LAST_RULES[i].key) && LAST_RULES[i].re.text <= s
    ensures Expected(s) == Some(LAST_RULES[i].key)
  {
    hide Match;
  }

  lemma LastRuleHeads(i: nat, s: string)
    requires i < |LAST_RULES| && LAST_RULES[i].re.Lit? && !Special(LAST_RULES[i].key) && LAST_RULES[i].re.text <= s
    ensures Expected(s) == Some(LAST_RULES[i].key)
  {
    hide Expected, LAST_RULES;
    if i < 3 { EarlyLastHeads(i, s); } else { LateLastHeads(i, s); }
  }

  lemma FlagClaims(flag: Rule, s: string)
    requires flag in {EXTMAP_ALLOW_MIXED, ICELITE, END_OF_CANDIDATES, RTCP_MUX, RTCP_RSIZE} && Claims(flag, s)
    ensures Expected(s) == Some(flag.key)
  {}

  lemma DirectionClaims(s: string)
    requires Claims(DIRECTION, s)
    ensures Expected(s) == Some(Direction)
  {}

  lemma SimulcastClaims(s: string)
    requires Claims(SIMULCAST, s)
    ensures Expected(s) == Some(Simulcast)
  {
    hide Match;
    SimulcastRule();
    WayAfter("simulcast:", SIMULCAST.re.next.next, s);
    assert s[10..][0] == s[10];
  }

  lemma SimulcastRule()
    ensures SIMULCAST.anchored && SIMULCAST.re == Lit("simulcast:", Choice(["send", "recv"], SIMULCAST.re.next.next))
  {}

  lemma WayAfter(text: string, next: Re, s: string)
    requires Match(Lit(text, Choice(["send", "recv"], next)), s).Some?
    ensures text <= s && ("send" <= s[|text|..] || "recv" <= s[|text|..])
  {
    hide MatchRun;
    var rest := s[|text|..];
    assert ["send", "recv"][1..] == ["recv"] && ["recv"][1..] == [];
    assert Match(Choice([], next), rest) == None;
    assert !("recv" <= rest) ==> Match(Choice(["recv"], next), rest) == None;
  }

  lemma TrrIntClaims(s: string)
    requires Claims(RTCP_FB_TRR_INT, s)
    ensures Expected(s) == Some(RtcpFb)
  {
    hide Longest;
    assert "rtcp-fb:" <= s;
  }

  /** The position of a rule among the attribute rules. */
  function Position(k: Key): nat {
    match k
    case Rtp => 0 case Fmtp => 1 case Control => 2 case Rtcp => 3
    case RtcpFbTrrInt => 4 case RtcpFb => 5 case Ext => 6 case ExtmapAllowMixed => 7
    case Crypto => 8 case Setup => 9 case Mid => 10 case Msid => 11
    case Ptime => 12 case Maxptime => 13 case Direction => 14 case Icelite => 15
    case IceUfrag => 16 case IcePwd => 17 case Fingerprint => 18 case Candidates => 19
    case EndOfCandidates => 20 case RemoteCandidates => 21 case IceOptions => 22 case Ssrcs => 23
    case SsrcGroups => 24 case MsidSemantic => 25 case Groups => 26 case RtcpMux => 27
    case RtcpRsize => 28 case Sctpmap => 29 case XGoogleFlag => 30 case Rids => 31
    case Simulcast => 32 case Simulcast03 => 33 case SourceFilter => 34 case TsRefclk => 35
    case Mediaclk => 36 case Invalid => 37
    case _ => 38
  }

  lemma CodecPositions(i: nat)
    requires i < |CODEC_RULES|
    ensures Position(CODEC_RULES[i].key) == 0 + i
  {}

  lemma SectionPositions(i: nat)
    requires i < |SECTION_RULES|
    ensures Position(SECTION_RULES[i].key) == 9 + i
  {}

  lemma EarlyIcePositions(i: nat)
    requires i < 4 && i < |ICE_RULES|
    ensures Position(ICE_RULES[i].key) == 16 + i
  {}

  lemma LateIcePositions(i: nat)
    requires 4 <= i < |ICE_RULES|
    ensures Position(ICE_RULES[i].key) == 16 + i
  {}

  lemma IcePositions(i: nat)
    requires i < |ICE_RULES|
    ensures Position(ICE_RULES[i].key) == 16 + i
  {
    hide Position, ICE_RULES;
    if i < 4 { EarlyIcePositions(i); } else { LateIcePositions(i); }
  }

  lemma EarlySsrcPositions(i: nat)
    requires i < 4 && i < |SSRC_RULES|
    ensures Position(SSRC_RULES[i].key) == 23 + i
  {}

  lemma LateSsrcPositions(i: nat)
    requires 4 <= i < |SSRC_RULES|
    ensures Position(SSRC_RULES[i].key) == 23 + i
  {}

  lemma SsrcPositions(i: nat)
    requires i < |SSRC_RULES|
    ensures Position(SSRC_RULES[i].key) == 23 + i
  {
    hide Position, SSRC_RULES;
    if i < 4 { EarlySsrcPositions(i); } else { LateSsrcPositions(i); }
  }

  lemma EarlyLastPositions(i: nat)
    requires i < 4 && i < |LAST_RULES|
    ensures Position(LAST_RULES[i].key) == 31 + i
  {}

  lemma LateLastPositions(i: nat)
    requires 4 <= i < |LAST_RULES|
    ensures Position(LAST_RULES[i].key) == 31 + i
  {}

  lemma LastPositions(i: nat)
    requires i < |LAST_RULES|
    ensures Position(LAST_RULES[i].key) == 31 + i
  {
    hide Position, LAST_RULES;
    if i < 4 { EarlyLastPositions(i); } else { LateLastPositions(i); }
  }

  lemma LitClaims(rule: Rule, s: string)
    requires rule.re.Lit? && rule.anchored && Claims(rule, s)
    ensures rule.re.text <= s
  {}

  lemma CodecClaims(i: nat, s: string)
    requires i < |CODEC_RULES| && Claims(CODEC_RULES[i], s)
    ensures Expected(s) == Some(if i == 4 then RtcpFb else CODEC_RULES[i].key)
  {
    hide Expected, Claims;
    if i == 4 {
      TrrIntClaims(s);
    } else if i == 7 {
      FlagClaims(EXTMAP_ALLOW_MIXED, s);
    } else {
      LitClaims(CODEC_RULES[i], s);
      CodecRuleHeads(i, s);
    }
  }

  lemma SectionClaims(i: nat, s: string)
    requires i < |SECTION_RULES| && Claims(SECTION_RULES[i], s)
    ensures Expected(s) == Some(SECTION_RULES[i].key)
  {
    hide Expected, Claims;
    if i == 5 {
      DirectionClaims(s);
    } else if i == 6 {
      FlagClaims(ICELITE, s);
    } else {
      LitClaims(SECTION_RULES[i], s);
      SectionRuleHeads(i, s);
    }
  }

  lemma IceClaims(i: nat, s: string)
    requires i < |ICE_RULES| && Claims(ICE_RULES[i], s)
    ensures Expected(s) == Some(ICE_RULES[i].key)
  {
    hide Expected, Claims;
    if i == 4 {
      FlagClaims(END_OF_CANDIDATES, s);
    } else {
      LitClaims(ICE_RULES[i], s);
      IceRuleHeads(i, s);
    }
  }

  lemma SsrcClaims(i: nat, s: string)
    requires i < 7 && Claims(SSRC_RULES[i], s)
    ensures Expected(s) == Some(SSRC_RULES[i].key)
  {
    hide Expected, Claims;
    if i == 4 {
      FlagClaims(RTCP_MUX, s);
    } else if i == 5 {
      FlagClaims(RTCP_RSIZE, s);
    } else {
      LitClaims(SSRC_RULES[i], s);
      SsrcRuleHeads(i, s);
    }
  }

  lemma LastClaims(i: nat, s: string)
    requires i < 6 && Claims(LAST_RULES[i], s)
    ensures Expected(s) == Some(LAST_RULES[i].key)
  {
    hide Expected, Claims;
    if i == 1 {
      SimulcastClaims(s);
    } else {
      LitClaims(LAST_RULES[i], s);
      LastRuleHeads(i, s);
    }
  }

  lemma GroupOf(i: nat)
    requires i < 38
    ensures |ATTRIBUTES| == 38
    ensures |CODEC_RULES| == 9 && |SECTION_RULES| == 7 && |ICE_RULES| == 7 && |SSRC_RULES| == 8 && |LAST_RULES| == 7
    ensures ATTRIBUTES[i] ==
            if i < 9 then CODEC_RULES[i] else if i < 16 then SECTION_RULES[i - 9] else if i < 23 then ICE_RULES[i - 16]
            else if i < 31 then SSRC_RULES[i - 23] else LAST_RULES[i - 31]
  {}

  /** Where the rules of the round trips are. */
  lemma Places()
    ensures |ATTRIBUTES| == 38 && ATTRIBUTES[0] == RTP && ATTRIBUTES[1] == FMTP && ATTRIBUTES[5] == RTCP_FB
    ensures ATTRIBUTES[6] == EXT && ATTRIBUTES[7] == EXTMAP_ALLOW_MIXED && ATTRIBUTES[9] == SETUP && ATTRIBUTES[10] == MID
    ensures ATTRIBUTES[14] == DIRECTION && ATTRIBUTES[15] == ICELITE
  {
    GroupOf(0); GroupOf(1); GroupOf(5); GroupOf(6); GroupOf(7); GroupOf(9); GroupOf(10); GroupOf(14); GroupOf(15);
  }

  lemma MorePlaces()
    ensures |ATTRIBUTES| == 38 && ATTRIBUTES[16] == ICE_UFRAG && ATTRIBUTES[17] == ICE_PWD && ATTRIBUTES[18] == FINGERPRINT
    ensures ATTRIBUTES[19] == CANDIDATES && ATTRIBUTES[20] == END_OF_CANDIDATES && ATTRIBUTES[22] == ICE_OPTIONS
    ensures ATTRIBUTES[23] == SSRCS && ATTRIBUTES[24] == SSRC_GROUPS && ATTRIBUTES[25] == MSID_SEMANTIC
    ensures ATTRIBUTES[26] == GROUPS && ATTRIBUTES[27] == RTCP_MUX && ATTRIBUTES[28] == RTCP_RSIZE
    ensures ATTRIBUTES[31] == RIDS && ATTRIBUTES[32] == SIMULCAST
  {
    GroupOf(16); GroupOf(17); GroupOf(18); GroupOf(19); GroupOf(20); GroupOf(22);
    GroupOf(23); GroupOf(24); GroupOf(25); GroupOf(26); GroupOf(27); GroupOf(28);
    GroupOf(31); GroupOf(32);
  }

  lemma Positions(i: nat)
    requires i < 38
    ensures |ATTRIBUTES| == 38 && Position(ATTRIBUTES[i].key) == i
  {
    hide Position, ATTRIBUTES;
    GroupOf(i);
    if i < 9 { CodecPositions(i); }
    else if i < 16 { SectionPositions(i - 9); }
    else if i < 23 { IcePositions(i - 16); }
    else if i < 31 { SsrcPositions(i - 23); }
    else { LastPositions(i - 31); }
  }

  /** Apart from the catch-all and the x-google-flag rule, a rule that claims a text is the expected one. */
  lemma ClaimedIsExpected(i: nat, s: string)
    requires i < 37 && i != 30 && |ATTRIBUTES| == 38 && Claims(ATTRIBUTES[i], s)
    ensures Expected(s) == Some(if i == 4 then RtcpFb else ATTRIBUTES[i].key)
  {
    hide Expected, Claims, ATTRIBUTES;
    GroupOf(i);
    if i < 9 { CodecClaims(i, s); }
    else if i < 16 { SectionClaims(i - 9, s); }
    else if i < 23 { IceClaims(i - 16, s); }
    else if i < 31 { SsrcClaims(i - 23, s); }
    else { LastClaims(i - 31, s); }
  }

  lemma NotEarlier(i: nat, j: nat, s: string)
    requires i < j < 37 && j != 30 && j != 4 && |ATTRIBUTES| == 38
    requires Claims(ATTRIBUTES[j], s)
    requires j == 5 ==> !Claims(RTCP_FB_TRR_INT, s)
    requires j > 30 ==> !Claims(X_GOOGLE_FLAG, s)
    ensures !Claims(ATTRIBUTES[i], s)
  {
    hide Expected, Claims, Position;
    ClaimedIsExpected(j, s);
    Positions(j);
    Positions(i);
    GroupOf(i);
    if Claims(ATTRIBUTES[i], s) && i != 30 {
      ClaimedIsExpected(i, s);
      Positions(5);
      GroupOf(5);
    }
  }

  /**
    A text that is expected to be rule j's, and that rule j claims, is given to rule j: no earlier
    rule claims it, unless it is the trr-int rule or the one that is searched for anywhere.
   */
  lemma Dispatched(j: nat, s: string)
    requires j < 37 && j != 30 && j != 4 && |ATTRIBUTES| == 38
    requires Claims(ATTRIBUTES[j], s)
    requires j == 5 ==> !Claims(RTCP_FB_TRR_INT, s)
    requires j > 30 ==> !Claims(X_GOOGLE_FLAG, s)
    ensures FirstClaim(Rules('a'), s) == Some(ATTRIBUTES[j])
  {
    hide Expected, Claims, Position, ATTRIBUTES, FirstClaim;
    forall i | 0 <= i < j ensures !Claims(ATTRIBUTES[i], s) {
      NotEarlier(i, j, s);
    }
    FirstClaimAt(ATTRIBUTES, j, s);
  }

  // No attribute rule works on the location itself, and those that fill an array have names.

  predicate Keeps(rule: Rule) { !rule.target.Root? && (rule.target.Pushed? ==> rule.names != []) }

  lemma CodecKeeps(i: nat) requires i < |CODEC_RULES| ensures Keeps(CODEC_RULES[i]) {}
  lemma SectionKeeps(i: nat) requires i < |SECTION_RULES| ensures Keeps(SECTION_RULES[i]) {}
  lemma IceKeeps(i: nat) requires i < |ICE_RULES| ensures Keeps(ICE_RULES[i]) {}
  lemma SsrcKeeps(i: nat) requires i < |SSRC_RULES| ensures Keeps(SSRC_RULES[i]) {}
  lemma LastKeeps(i: nat) requires i < |LAST_RULES| ensures Keeps(LAST_RULES[i]) {}

  lemma AttributeKeeps(i: nat)
    requires i < 38
    ensures |ATTRIBUTES| == 38 && Keeps(ATTRIBUTES[i])
  {
    hide ATTRIBUTES, Keeps;
    GroupOf(i);
    if i < 9 { CodecKeeps(i); }
    else if i < 16 { SectionKeeps(i - 9); }
    else if i < 23 { IceKeeps(i - 16); }
    else if i < 31 { SsrcKeeps(i - 23); }
    else { LastKeeps(i - 31); }
  }

  /** The two rules that are left out would take lines from no rule of the table but the catch-all, and x-google-flag comes before them. */
  lemma ElsewhereIsApart(i: nat, s: string)
    requires ClaimedElsewhere(s) && i < 37 && i != 30 && |ATTRIBUTES| == 38
    ensures !Claims(ATTRIBUTES[i], s)
  {
    hide Match, Claims, ATTRIBUTES, Position;
    ElsewhereHeads(s);
    if Claims(ATTRIBUTES[i], s) {
      ClaimedIsExpected(i, s);
      Positions(i);
      Places();
      Positions(14);
      assert i == 14;
      NoDirection(s);
    }
  }

  lemma ElsewhereHeads(s: string)
    requires ClaimedElsewhere(s)
    ensures "imageattr:" <= s || "framerate:" <= s
    ensures Expected(s) == Some(Direction)
  {
    hide MatchRun;
  }

  lemma NoDirection(s: string)
    requires "imageattr:" <= s || "framerate:" <= s
    ensures !Claims(DIRECTION, s)
  {
    assert s[1] == 'm' || s[1] == 'r';
  }
}
