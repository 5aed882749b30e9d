/**
  Rule by rule: the line that a rule prints for well-formed members is given to that same rule,
  and reading it back yields the same members.
 */
module RuleRoundTrip {
  import opened Regex
  import opened Text
  import opened Json
  import opened Grammar
  import opened Writer
  import opened Parser
  import opened LineRoundTrip
  import opened Dispatch

  const T := Tail("")

  /** Members of the rule only, all of them strings and numbers that keep their text. */
  predicate Members(rule: Rule, o: Fields) { OnlyNames(rule, o) && Plain(rule, o) }

  predicate RtpFields(o: Fields) {
    Members(RTP, o) && All(Digit, P(o, Payload)) && All(Word("-."), P(o, Codec))
    && All(Digit, P(o, Rate)) && All(NonSpace, P(o, Encoding))
  }

  lemma {:induction false} ThenDone(re: Re)
    ensures Then(re, Done) == re
  {
    match re
    case Done =>
    case End =>
    case Lit(_, next) => ThenDone(next);
    case Cap(_, _, next) => ThenDone(next);
    case WordOrCap(_, _, next) => ThenDone(next);
    case Choice(_, next) => ThenDone(next);
    case Run(_, _, next) => ThenDone(next);
    case Opt(_, next) => ThenDone(next);
  }

  /** An optional group at the end of the line that is not there. */
  lemma Absent(body: Re, o: Fields, names: seq<Key>, i: nat)
    requires Match(body, "").None? && Blank(o, names, i, NumCaps(body)) && i + NumCaps(body) == |names|
    ensures Agrees(T, Opt(body, Done), o, names, i) && Filled(T, o, names, i)
    ensures forall c :: Ends(c, T, o, names, i)
  {
    AgreesAtEnd(o, names);
    ThenDone(body);
    Skipped(T, T, body, Done, o, names, i);
  }

  lemma NoMatchOfNothing(cls: Class, text: string, next: Re)
    requires text != ""
    ensures Match(Lit(text, next), "").None? && Match(Run(cls, Star, Lit(text, next)), "").None?
  {
    EmptyRun(cls, Star, Lit(text, next), "");
  }

  lemma ValueIsText(rule: Rule, o: Fields)
    requires Members(rule, o)
    ensures forall k :: HasValue(o, k) <==> P(o, k) != ""
  {
    forall k ensures HasValue(o, k) <==> P(o, k) != "" {
      if k in o {
        var i :| 0 <= i < |rule.names| && rule.names[i] == k;
        PrintedNumber(o, k);
      }
    }
  }

  /** What holds of a printed element of an attribute rule: it keeps its line, and its members when they are canonical. */
  ghost predicate RoundTrips(rule: Rule, o: Fields) {
    Stable('a', rule, Content(rule, o)) && (Exact(rule, o) ==> ReadsBack('a', rule, o))
  }

  lemma Element(j: nat, rule: Rule, o: Fields)
    requires j < 37 && j != 30 && j != 4 && |ATTRIBUTES| == 38 && ATTRIBUTES[j] == rule
    requires rule.target.Pushed? && rule.anchored && rule.names != [] && Distinct(rule.names) && Members(rule, o)
    requires Agrees(FormatOf(rule, o), rule.re, o, rule.names, 0)
    requires j == 5 ==> !Claims(RTCP_FB_TRR_INT, Content(rule, o))
    requires j > 30 ==> !Claims(X_GOOGLE_FLAG, Content(rule, o))
    ensures RoundTrips(rule, o)
  {
    hide Content, FormatOf, Plain, OnlyNames, Match, ATTRIBUTES, Rules, Exact, Distinct;
    ContentOfObject(rule, o);
    Dispatched(j, Content(rule, o));
    ElementLine('a', rule, o);
  }

  // ---- a=rtpmap ----

  lemma ThenLitCap(text: string, cls: Class, reps: Reps, k: Re)
    ensures Then(Lit(text, Cap(cls, reps, Done)), k) == Lit(text, Cap(cls, reps, k))
    ensures NumCaps(Lit(text, Cap(cls, reps, Done))) == 1
  {
    assert Then(Cap(cls, reps, Done), k) == Cap(cls, reps, k);
  }

  lemma ThenLitChoice(text: string, words: seq<string>, k: Re)
    ensures Then(Lit(text, Choice(words, Done)), k) == Lit(text, Choice(words, k))
    ensures NumCaps(Lit(text, Choice(words, Done))) == 1
  {
    assert Then(Choice(words, Done), k) == Choice(words, k);
    assert NumCaps(Choice(words, Done)) == 1;
  }

  function RtpFormat(f: Format): Format { Hole("rtpmap:", D, Hole(" ", S, f)) }

  lemma RtpHead(f: Format, o: Fields)
    requires RtpFields(o) && Agrees(f, Opt(RTP_RATE, Done), o, RTP.names, 2) && Ends(Word("-."), f, o, RTP.names, 2)
    ensures Agrees(RtpFormat(f), RTP.re, o, RTP.names, 0)
  {
    hide Match, Texts, Printed, HasValue, Ends, Plain, OnlyNames, Agrees, Filled;
    Field(" ", S, f, Word("-."), Star, Opt(RTP_RATE, Done), o, RTP.names, 1);
    Field("rtpmap:", D, Hole(" ", S, f), Digit, Star, RTP.re.next.next, o, RTP.names, 0);
  }

  lemma RtpRate(f: Format, o: Fields)
    requires RtpFields(o) && Agrees(f, Opt(RTP_ENCODING, Done), o, RTP.names, 3) && Ends(Digit, f, o, RTP.names, 3)
    ensures Agrees(RtpFormat(Hole("/", S, f)), RTP.re, o, RTP.names, 0)
  {
    hide Match, Texts, Printed, HasValue, Ends, Plain, OnlyNames, Agrees, Filled;
    ThenDone(RTP_RATE);
    Field("/", S, f, Digit, Star, Opt(RTP_ENCODING, Done), o, RTP.names, 2);
    Unpadded(Hole("/", S, f), Space, Star, RTP_RATE.next, o, RTP.names, 2);
    Taken(Hole("/", S, f), RTP_RATE, Done, o, RTP.names, 2);
    RtpHead(Hole("/", S, f), o);
  }

  lemma RtpFormatOf(o: Fields)
    ensures FormatOf(RTP, o) == RtpFormat(if HasValue(o, Encoding) then Hole("/", S, Hole("/", S, T))
                                          else if HasValue(o, Rate) then Hole("/", S, T) else T)
  {
    hide HasValue;
  }

  lemma RtpAgrees(o: Fields)
    requires RtpFields(o)
    ensures Agrees(FormatOf(RTP, o), RTP.re, o, RTP.names, 0)
  {
    hide Match, Texts, Printed, Ends, Agrees, Filled, FormatOf, HasValue, P;
    var n := RTP.names;
    RtpFormatOf(o);
    ValueIsText(RTP, o);
    NoMatchOfNothing(Space, "/", RTP_RATE.next.next);
    NoMatchOfNothing(Space, "/", RTP_ENCODING.next.next);
    if HasValue(o, Encoding) {
      ThenDone(RTP_ENCODING);
      AgreesAtEnd(o, n);
      Field("/", S, T, NonSpace, Star, Done, o, n, 3);
      Unpadded(Hole("/", S, T), Space, Star, RTP_ENCODING.next, o, n, 3);
      Taken(Hole("/", S, T), RTP_ENCODING, Done, o, n, 3);
      RtpRate(Hole("/", S, T), o);
    } else if HasValue(o, Rate) {
      Absent(RTP_ENCODING, o, n, 3);
      RtpRate(T, o);
    } else {
      Absent(RTP_RATE, o, n, 2);
      RtpHead(T, o);
    }
  }

  lemma RtpLine(o: Fields)
    requires RtpFields(o)
    ensures RoundTrips(RTP, o)
  {
    hide FormatOf, Agrees, Claims, Plain, RoundTrips, ATTRIBUTES, OnlyNames, Content, P;
    RtpAgrees(o);
    Places();
    Element(0, RTP, o);
  }

  // ---- a=fmtp ----

  predicate FmtpFields(o: Fields) { Members(FMTP, o) && All(Digit, P(o, Payload)) && All(Dot, P(o, Config)) }

  lemma FmtpLine(o: Fields)
    requires FmtpFields(o)
    ensures RoundTrips(FMTP, o)
  {
    hide Agrees, Claims, Plain, RoundTrips, ATTRIBUTES, OnlyNames, Content, Match, Ends, Filled, Printed, Texts;
    AgreesAtEnd(o, FMTP.names);
    Field(" ", S, T, Dot, Star, Done, o, FMTP.names, 1);
    Field("fmtp:", D, Hole(" ", S, T), Digit, Star, Lit(" ", ANY), o, FMTP.names, 0);
    Places();
    Element(1, FMTP, o);
  }

  // ---- a=ssrc ----

  predicate SsrcFields(o: Fields) {
    Members(SSRCS, o) && All(Digit, P(o, Id)) && All(Word("-"), P(o, Attribute)) && P(o, Attribute) != ""
    && All(Dot, P(o, Value))
  }

  lemma SsrcFormatOf(o: Fields)
    requires HasValue(o, Attribute)
    ensures FormatOf(SSRCS, o) == Hole("ssrc:", D, Hole(" ", S, if HasValue(o, Value) then Hole(":", S, T) else T))
  {
    hide HasValue;
  }

  lemma SsrcHead(f: Format, o: Fields)
    requires SsrcFields(o) && Agrees(f, Opt(SSRC_VALUE, Done), o, SSRCS.names, 2) && Ends(Word("-"), f, o, SSRCS.names, 2)
    ensures Agrees(Hole("ssrc:", D, Hole(" ", S, f)), SSRCS.re, o, SSRCS.names, 0)
  {
    hide Agrees, Match, Ends, Filled, Printed, Texts, Plain, OnlyNames, FormatOf, HasValue, P;
    Field(" ", S, f, Word("-"), Star, Opt(SSRC_VALUE, Done), o, SSRCS.names, 1);
    Field("ssrc:", D, Hole(" ", S, f), Digit, Star, SSRCS.re.next.next, o, SSRCS.names, 0);
  }

  lemma SsrcAgrees(o: Fields)
    requires SsrcFields(o)
    ensures Agrees(FormatOf(SSRCS, o), SSRCS.re, o, SSRCS.names, 0)
  {
    hide Agrees, Match, Ends, Filled, Printed, Texts, Plain, OnlyNames, FormatOf, HasValue, P;
    var n := SSRCS.names;
    ValueIsText(SSRCS, o);
    SsrcFormatOf(o);
    if HasValue(o, Value) {
      AgreesAtEnd(o, n);
      Field(":", S, T, Dot, Star, Done, o, n, 2);
      ThenDone(SSRC_VALUE);
      Taken(Hole(":", S, T), SSRC_VALUE, Done, o, n, 2);
      SsrcHead(Hole(":", S, T), o);
    } else {
      NoMatchOfNothing(Space, ":", ANY);
      Absent(SSRC_VALUE, o, n, 2);
      SsrcHead(T, o);
    }
  }

  lemma SsrcLine(o: Fields)
    requires SsrcFields(o)
    ensures RoundTrips(SSRCS, o)
  {
    hide FormatOf, Agrees, Claims, Plain, RoundTrips, ATTRIBUTES, OnlyNames, Content, P;
    SsrcAgrees(o);
    MorePlaces();
    Element(23, SSRCS, o);
  }

  // ---- a=ssrc-group and a=group ----

  predicate SsrcGroupFields(o: Fields) {
    Members(SSRC_GROUPS, o) && All(Word("!#$%&'*+,-."), P(o, Semantics)) && All(Dot, P(o, Ssrcs))
  }

  lemma SsrcGroupLine(o: Fields)
    requires SsrcGroupFields(o)
    ensures RoundTrips(SSRC_GROUPS, o)
  {
    hide Agrees, Claims, Plain, RoundTrips, ATTRIBUTES, OnlyNames, Content, Match, Ends, Filled, Printed, Texts;
    AgreesAtEnd(o, SSRC_GROUPS.names);
    Field(" ", S, T, Dot, Star, Done, o, SSRC_GROUPS.names, 1);
    Field("ssrc-group:", S, Hole(" ", S, T), Word("!#$%&'*+,-."), Star, Lit(" ", ANY), o, SSRC_GROUPS.names, 0);
    MorePlaces();
    Element(24, SSRC_GROUPS, o);
  }

  predicate GroupFields(o: Fields) { Members(GROUPS, o) && All(Word(""), P(o, Type)) && All(Dot, P(o, Mids)) }

  lemma GroupLine(o: Fields)
    requires GroupFields(o)
    ensures RoundTrips(GROUPS, o)
  {
    hide Agrees, Claims, Plain, RoundTrips, ATTRIBUTES, OnlyNames, Content, Match, Ends, Filled, Printed, Texts;
    AgreesAtEnd(o, GROUPS.names);
    Field(" ", S, T, Dot, Star, Done, o, GROUPS.names, 1);
    Field("group:", S, Hole(" ", S, T), Word(""), Star, Lit(" ", ANY), o, GROUPS.names, 0);
    MorePlaces();
    Element(26, GROUPS, o);
  }

  // ---- a=extmap ----

  predicate ExtFields(o: Fields) {
    Members(EXT, o) && All(Digit, P(o, Value)) && P(o, Value) != "" && All(Word(""), P(o, Direction))
    && (P(o, EncryptUri) == "" || P(o, EncryptUri) == ENCRYPT) && All(NonSpace, P(o, Uri)) && All(NonSpace, P(o, Config))
  }

  /** Without an encrypt-uri, the encrypt URI itself followed by a configuration reads as an encrypt-uri. */
  predicate ReadsAsEncrypted(o: Fields) { P(o, EncryptUri) == "" && P(o, Uri) == ENCRYPT && P(o, Config) != "" }

  function ExtFormat(direction: bool, encrypt: bool, config: bool): Format {
    var tail := Hole(" ", S, if config then Hole(" ", S, T) else T);
    var rest := if encrypt then Hole(" ", S, tail) else Hole("", V, tail);
    Hole("extmap:", D, if direction then Hole("/", S, rest) else Hole("", V, rest))
  }

  lemma ExtFormatOf(o: Fields)
    ensures FormatOf(EXT, o) == ExtFormat(HasValue(o, Direction), HasValue(o, EncryptUri), HasValue(o, Config))
  {
    hide HasValue;
  }

  function ExtTail(config: bool): Format { Hole(" ", S, if config then Hole(" ", S, T) else T) }

  lemma ExtTailAgrees(o: Fields)
    requires ExtFields(o)
    ensures Agrees(ExtTail(P(o, Config) != ""), EXT_TAIL, o, EXT.names, 3)
    ensures forall c :: !In(c, ' ') ==> Ends(c, ExtTail(P(o, Config) != ""), o, EXT.names, 3)
    ensures " " <= Printed(ExtTail(P(o, Config) != ""), o, EXT.names, 3)
  {
    hide Agrees, Match, Ends, Filled, Printed, Texts, Plain, OnlyNames, FormatOf, HasValue, P;
    var n := EXT.names;
    if P(o, Config) != "" {
      AgreesAtEnd(o, n);
      Field(" ", S, T, NonSpace, Star, Done, o, n, 4);
      ThenDone(EXT_CONFIG);
      Taken(Hole(" ", S, T), EXT_CONFIG, Done, o, n, 4);
      Field(" ", S, Hole(" ", S, T), NonSpace, Star, Opt(EXT_CONFIG, Done), o, n, 3);
    } else {
      NoMatchOfNothing(Space, " ", EXT_CONFIG.next);
      Absent(EXT_CONFIG, o, n, 4);
      Field(" ", S, T, NonSpace, Star, Opt(EXT_CONFIG, Done), o, n, 3);
    }
  }

  /** The encrypt group takes no part in a line without an encrypt-uri. */
  lemma NoEncrypt(o: Fields)
    requires ExtFields(o) && P(o, EncryptUri) == "" && !ReadsAsEncrypted(o)
    ensures Match(Then(EXT_ENCRYPT, EXT_TAIL), Printed(ExtTail(P(o, Config) != ""), o, EXT.names, 3)).None?
  {
    hide Match, Plain, OnlyNames, P, Then, All;
    var uri := P(o, Uri);
    var after := if P(o, Config) != "" then " " + P(o, Config) else "";
    assert Printed(ExtTail(P(o, Config) != ""), o, EXT.names, 3) == " " + (uri + after) by {
      assert Printed(T, o, EXT.names, 5) == "" && Printed(T, o, EXT.names, 4) == "";
      assert P(o, Config) != "" ==> Printed(Hole(" ", S, T), o, EXT.names, 4) == " " + P(o, Config) + "";
    }
    LitStep(" ", Choice([ENCRYPT], EXT_TAIL), uri + after);
    NoSpaceInEncrypt();
    NoWord(ENCRYPT, EXT_TAIL, uri, after);
    ThenLitChoice(" ", [ENCRYPT], EXT_TAIL);
  }

  lemma NoSpaceInEncrypt()
    ensures All(NonSpace, ENCRYPT)
  {}

  lemma NoWord(word: string, next: Re, uri: string, after: string)
    requires All(NonSpace, word) && All(NonSpace, uri) && (after == "" || (after[0] == ' ' && uri != word))
    requires next.Lit? && next.text == " "
    ensures Match(Choice([word], next), uri + after).None?
  {
    var s := uri + after;
    assert Match(Choice([], next), s).None?;
    if word <= s {
      assert forall k :: 0 <= k < |word| ==> word[k] == s[k] && word[k] in word;
      assert after != "" ==> s[|uri|] == ' ';
      assert |word| <= |uri|;
      var rest := s[|word|..];
      assert rest == uri[|word|..] + after;
      assert |uri| > |word| ==> rest[0] == uri[|word|] && uri[|word|] in uri;
      assert |uri| == |word| ==> uri == word;
      assert !(" " <= rest);
    }
  }

  lemma ExtRest(o: Fields)
    requires ExtFields(o) && !ReadsAsEncrypted(o)
    ensures var f := if P(o, EncryptUri) != "" then Hole(" ", S, ExtTail(P(o, Config) != "")) else Hole("", V, ExtTail(P(o, Config) != ""));
            Agrees(f, Opt(EXT_ENCRYPT, EXT_TAIL), o, EXT.names, 2) && " " <= Printed(f, o, EXT.names, 2)
            && forall c :: !In(c, ' ') ==> Ends(c, f, o, EXT.names, 2)
  {
    hide Agrees, Match, Ends, Filled, Printed, Texts, Plain, OnlyNames, FormatOf, HasValue, P;
    var n := EXT.names;
    var tail := ExtTail(P(o, Config) != "");
    ExtTailAgrees(o);
    ThenLitChoice(" ", [ENCRYPT], EXT_TAIL);
    if P(o, EncryptUri) != "" {
      assert !([ENCRYPT][0] <= "");
      ChoiceField(" ", S, tail, [ENCRYPT], 0, EXT_TAIL, o, n, 2);
      Taken(Hole(" ", S, tail), EXT_ENCRYPT, EXT_TAIL, o, n, 2);
    } else {
      NoEncrypt(o);
      VoidsPrint(1, tail, o, n, 2);
      Skipped(Voids(1, tail), tail, EXT_ENCRYPT, EXT_TAIL, o, n, 2);
      VoidEnds(tail, o, n, 2);
    }
  }

  lemma VoidEnds(f: Format, o: Fields, n: seq<Key>, i: nat)
    requires i < |n|
    ensures Printed(Hole("", V, f), o, n, i) == Printed(f, o, n, i + 1)
    ensures forall c :: Ends(c, f, o, n, i + 1) ==> Ends(c, Hole("", V, f), o, n, i)
  {}

  lemma ExtAgrees(o: Fields)
    requires ExtFields(o) && !ReadsAsEncrypted(o)
    ensures Agrees(FormatOf(EXT, o), EXT.re, o, EXT.names, 0)
  {
    hide Agrees, Match, Ends, Filled, Printed, Texts, Plain, OnlyNames, FormatOf, HasValue, P;
    var n := EXT.names;
    ValueIsText(EXT, o);
    ExtFormatOf(o);
    ExtRest(o);
    var rest := if P(o, EncryptUri) != "" then Hole(" ", S, ExtTail(P(o, Config) != "")) else Hole("", V, ExtTail(P(o, Config) != ""));
    var re := Opt(EXT_ENCRYPT, EXT_TAIL);
    ThenLitCap("/", Word(""), Plus, re);
    assert !In(Word(""), ' ') && !In(Digit, ' ');
    if P(o, Direction) != "" {
      Field("/", S, rest, Word(""), Plus, re, o, n, 1);
      Taken(Hole("/", S, rest), EXT_DIRECTION, re, o, n, 1);
      Field("extmap:", D, Hole("/", S, rest), Digit, Plus, Opt(EXT_DIRECTION, re), o, n, 0);
    } else {
      Clash("/", " ", 0, Printed(rest, o, n, 2));
      SkippedVoids(rest, "/", EXT_DIRECTION, re, o, n, 1);
      VoidEnds(rest, o, n, 1);
      Field("extmap:", D, Hole("", V, rest), Digit, Plus, Opt(EXT_DIRECTION, re), o, n, 0);
    }
  }

  lemma ExtLine(o: Fields)
    requires ExtFields(o) && !ReadsAsEncrypted(o)
    ensures RoundTrips(EXT, o)
  {
    hide FormatOf, Agrees, Claims, Plain, RoundTrips, ATTRIBUTES, OnlyNames, Content, P;
    ExtAgrees(o);
    Places();
    Element(6, EXT, o);
  }

  /** Two different objects with one line: at most one of them can be read back. */
  lemma SameLine(t: char, rule: Rule, o: Fields, o': Fields)
    requires Content(rule, o) == Content(rule, o') && o != o' && ReadsBack(t, rule, o')
    ensures !ReadsBack(t, rule, o)
  {
    hide Content, Claims, FirstClaim, Attached;
  }

  function Encrypted(o: Fields): Fields
    requires Config in o
  {
    (o - {Config})[EncryptUri := Str(ENCRYPT)][Uri := o[Config]]
  }

  /** Canonical members of the usual types keep their text. */
  lemma ExactIsPlain(rule: Rule, o: Fields)
    requires Exact(rule, o) && forall c <- rule.types :: c in "sdu"
    ensures Members(rule, o)
  {
    hide Print;
    forall i | 0 <= i < |rule.names| && rule.names[i] in o
      ensures (o[rule.names[i]].Str? || o[rule.names[i]].Num?) && StableText(P(o, rule.names[i]), rule.types[i])
    {
      assert rule.types[i] in rule.types;
    }
  }

  /** A canonical member is there exactly when it has a text. */
  lemma ExactMember(rule: Rule, o: Fields, i: nat)
    requires Exact(rule, o) && i < |rule.names|
    ensures rule.names[i] in o <==> P(o, rule.names[i]) != ""
    ensures rule.names[i] in o ==> Canonical(o[rule.names[i]], rule.types[i])
    ensures OnlyNames(rule, o)
  {
    hide Print;
  }

  lemma EncryptedExact(o: Fields)
    requires Exact(EXT, o) && ReadsAsEncrypted(o)
    ensures Config in o && EncryptUri !in o && Exact(EXT, Encrypted(o))
  {
    hide Canonical, P, Exact;
    ExactMember(EXT, o, 0);
    ExactMember(EXT, o, 1);
    ExactMember(EXT, o, 2);
    ExactMember(EXT, o, 4);
    StringIsCanonical(ENCRYPT);
    assert EXT.names[2] in EXT.names && EXT.names[3] in EXT.names;
    ExactFive(EXT, Encrypted(o));
  }

  lemma ExactFive(rule: Rule, o: Fields)
    requires |rule.names| == 5 && forall k :: k in o ==> k in rule.names
    requires forall i :: i in {0, 1, 2, 3, 4} && rule.names[i] in o ==> Canonical(o[rule.names[i]], rule.types[i])
    ensures Exact(rule, o)
  {
    hide Canonical;
  }

  lemma EncryptedFields(o: Fields)
    requires ExtFields(o) && Exact(EXT, o) && ReadsAsEncrypted(o)
    ensures Config in o && EncryptUri !in o
    ensures Exact(EXT, Encrypted(o)) && ExtFields(Encrypted(o)) && !ReadsAsEncrypted(Encrypted(o))
    ensures var o' := Encrypted(o);
            P(o', Value) == P(o, Value) && P(o', Direction) == P(o, Direction)
            && P(o', EncryptUri) == ENCRYPT && P(o', Uri) == P(o, Config) && P(o', Config) == ""
  {
    hide HasValue, Plain, OnlyNames, Exact;
    EncryptedExact(o);
    ExactIsPlain(EXT, Encrypted(o));
  }

  lemma EncryptedLine(o: Fields)
    requires ExtFields(o) && Exact(EXT, o) && ReadsAsEncrypted(o)
    ensures Config in o && Content(EXT, Encrypted(o)) == Content(EXT, o)
  {
    hide Content, FormatOf, Plain, OnlyNames, Exact, HasValue, P;
    EncryptedFields(o);
    var o' := Encrypted(o);
    var n := EXT.names;
    ValueIsText(EXT, o);
    ValueIsText(EXT, o');
    ExtFormatOf(o);
    ExtFormatOf(o');
    ContentOfObject(EXT, o);
    ContentOfObject(EXT, o');
    var rest, rest' := Hole("", V, ExtTail(true)), Hole(" ", S, ExtTail(false));
    assert Printed(ExtTail(true), o, n, 3) == " " + P(o, Uri) + Printed(Hole(" ", S, T), o, n, 4);
    assert Printed(ExtTail(false), o', n, 3) == " " + P(o', Uri) + Printed(T, o', n, 4);
    assert Printed(Hole(" ", S, T), o, n, 4) == " " + P(o, Config) + Printed(T, o, n, 5);
    assert Printed(rest, o, n, 2) == " " + ENCRYPT + (" " + P(o, Config) + "");
    assert Printed(rest', o', n, 2) == " " + ENCRYPT + (" " + P(o, Config) + "");
    if P(o, Direction) != "" {
      assert Printed(Hole("/", S, rest), o, n, 1) == Printed(Hole("/", S, rest'), o', n, 1);
    } else {
      assert Printed(Hole("", V, rest), o, n, 1) == Printed(Hole("", V, rest'), o', n, 1);
    }
  }

  /** An extmap line with canonical members is read back exactly when it is not the one that looks encrypted. */
  lemma ExtReadsBack(o: Fields)
    requires ExtFields(o) && Exact(EXT, o)
    ensures ReadsBack('a', EXT, o) <==> !ReadsAsEncrypted(o)
  {
    hide Content, Plain, Exact, HasValue, P, Stable;
    if ReadsAsEncrypted(o) {
      EncryptedFields(o);
      EncryptedLine(o);
      ExtLine(Encrypted(o));
      assert EncryptUri in Encrypted(o);
      SameLine('a', EXT, o, Encrypted(o));
    } else {
      ExtLine(o);
    }
  }

  const ENCRYPT_WITH_CONFIG: Fields := map[Value := Num(1), Uri := Str(ENCRYPT), Config := Str("key")]

  lemma EncryptTexts()
    ensures var o := ENCRYPT_WITH_CONFIG;
            P(o, Value) == Dec(1) && P(o, Direction) == "" && P(o, EncryptUri) == "" && P(o, Uri) == ENCRYPT && P(o, Config) == "key"
    ensures Exact(EXT, ENCRYPT_WITH_CONFIG)
  {
    hide Dec, ReadInt;
    NumberIsCanonical(1);
    StringIsCanonical(ENCRYPT);
    StringIsCanonical("key");
  }

  lemma EncryptClasses()
    ensures All(NonSpace, ENCRYPT) && All(NonSpace, "key") && All(Word(""), "") && All(Digit, Dec(1)) && Dec(1) != ""
  {
    NumberIsCanonical(1);
  }

  /** `a=extmap:1 urn:ietf:params:rtp-hdrext:encrypt key` with a configuration is not read back. */
  lemma EncryptUriIsNotReadBack()
    ensures ExtFields(ENCRYPT_WITH_CONFIG) && Exact(EXT, ENCRYPT_WITH_CONFIG) && !ReadsBack('a', EXT, ENCRYPT_WITH_CONFIG)
  {
    hide ReadsBack, P, Exact, All, Plain, OnlyNames, Dec;
    EncryptTexts();
    EncryptClasses();
    ExactIsPlain(EXT, ENCRYPT_WITH_CONFIG);
    ExtReadsBack(ENCRYPT_WITH_CONFIG);
  }
}
