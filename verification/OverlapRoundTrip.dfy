/**
  The rules whose lines another rule may claim first: rtcp-fb lines, after the trr-int rule, and
  rid and simulcast lines, after the x-google-flag rule, which is searched for anywhere.
 */
module OverlapRoundTrip {
  import opened Prelude
  import opened Regex
  import opened Json
  import opened Grammar
  import opened Writer
  import opened Parser
  import opened LineRoundTrip
  import opened Dispatch
  import opened RuleRoundTrip

  // ---- a=rtcp-fb ----

  predicate FbFields(o: Fields) {
    Members(RTCP_FB, o) && (P(o, Payload) == "*" || All(Digit, P(o, Payload)))
    && All(Word("-"), P(o, Type)) && All(Word("-"), P(o, Subtype))
  }

  /** Feedback of type trr-int with a subtype looks like a trr-int interval. */
  predicate LooksLikeInterval(o: Fields) { P(o, Type) == "trr-int" && P(o, Subtype) != "" }

  function FbFormat(subtype: bool): Format { Hole("rtcp-fb:", S, Hole(" ", S, if subtype then Hole(" ", S, T) else T)) }

  lemma FbFormatOf(o: Fields)
    ensures FormatOf(RTCP_FB, o) == FbFormat(HasValue(o, Subtype))
  {
    hide HasValue;
  }

  lemma NoStar(payload: string, rest: string)
    requires All(Digit, payload) || payload == "*"
    requires rest != "" && rest[0] == ' '
    ensures payload == "*" || !("*" <= payload + rest)
  {
    assert payload != "" ==> payload[0] in payload && (payload + rest)[0] == payload[0];
    assert payload == "" ==> (payload + rest)[0] == ' ';
  }

  lemma FbHead(f: Format, o: Fields)
    requires FbFields(o) && Agrees(f, Opt(FB_SUBTYPE, Done), o, RTCP_FB.names, 2) && Ends(Word("-"), f, o, RTCP_FB.names, 2)
    ensures Agrees(Hole("rtcp-fb:", S, Hole(" ", S, f)), RTCP_FB.re, o, RTCP_FB.names, 0)
  {
    hide Match, Texts, HasValue, Plain, OnlyNames, Agrees, Filled, P;
    var n := RTCP_FB.names;
    Field(" ", S, f, Word("-"), Star, Opt(FB_SUBTYPE, Done), o, n, 1);
    var rest := Printed(Hole(" ", S, f), o, n, 1);
    NoStar(P(o, Payload), rest);
    WordOrField("rtcp-fb:", S, Hole(" ", S, f), "*", Digit, RTCP_FB.re.next.next, o, n, 0);
  }

  lemma FbAgrees(o: Fields)
    requires FbFields(o)
    ensures Agrees(FormatOf(RTCP_FB, o), RTCP_FB.re, o, RTCP_FB.names, 0)
  {
    hide Match, Texts, Printed, Ends, Agrees, Filled, FormatOf, HasValue, P, Plain, OnlyNames;
    var n := RTCP_FB.names;
    ValueIsText(RTCP_FB, o);
    FbFormatOf(o);
    if HasValue(o, Subtype) {
      AgreesAtEnd(o, n);
      Field(" ", S, T, Word("-"), Star, Done, o, n, 2);
      ThenDone(FB_SUBTYPE);
      Taken(Hole(" ", S, T), FB_SUBTYPE, Done, o, n, 2);
      FbHead(Hole(" ", S, T), o);
    } else {
      NoMatchOfNothing(Space, " ", FB_SUBTYPE.next);
      Absent(FB_SUBTYPE, o, n, 2);
      FbHead(T, o);
    }
  }

  function After(o: Fields): string { if P(o, Subtype) != "" then " " + P(o, Subtype) else "" }

  lemma FbText(o: Fields)
    requires FbFields(o)
    ensures Content(RTCP_FB, o) == "rtcp-fb:" + (P(o, Payload) + (" " + (P(o, Type) + After(o))))
  {
    hide Content, FormatOf, HasValue, P, Plain, OnlyNames;
    ValueIsText(RTCP_FB, o);
    FbFormatOf(o);
    ContentOfObject(RTCP_FB, o);
    var n := RTCP_FB.names;
    var f := if P(o, Subtype) != "" then Hole(" ", S, T) else T;
    assert Printed(f, o, n, 2) == After(o) by {
      assert Printed(T, o, n, 3) == "" && " " + P(o, Subtype) + "" == " " + P(o, Subtype);
    }
    assert Printed(Hole(" ", S, f), o, n, 1) == " " + P(o, Type) + After(o);
    assert Printed(FbFormat(P(o, Subtype) != ""), o, n, 0) == "rtcp-fb:" + P(o, Payload) + (" " + P(o, Type) + After(o));
  }

  const TRR_INT := Lit(" trr-int ", Cap(Digit, Star, Done))

  /** What the payload pattern takes is the whole payload, since a blank follows. */
  lemma PayloadTaken(payload: string, head: string, rest: string)
    requires (payload == "*" || All(Digit, payload)) && (head == "*" || All(Digit, head))
    requires rest != "" && rest[0] == ' ' && head <= payload + rest
    requires |head| < |payload + rest| && (payload + rest)[|head|] == ' '
    ensures head == payload
  {
    var s := payload + rest;
    assert forall i :: 0 <= i < |payload| ==> s[i] == payload[i] && payload[i] in payload;
    assert forall i :: 0 <= i < |head| ==> s[i] == head[i] && head[i] in head;
    assert s[|payload|] == ' ';
    assert |head| == |payload|;
  }

  /** A text of word characters in front of a blank, or of nothing, that starts with "trr-int ". */
  lemma IntervalType(t: string, after: string)
    requires All(Word("-"), t) && (after == "" || after[0] == ' ') && "trr-int " <= t + after
    ensures t == "trr-int" && after != ""
  {
    var s := t + after;
    assert forall i :: 0 <= i < |t| ==> s[i] == t[i] && t[i] in t;
    assert s[7] == ' ' && forall i :: 0 <= i < 7 ==> s[i] == "trr-int "[i] && "trr-int "[i] != ' ';
    assert after != "" ==> s[|t|] == ' ';
    assert |t| == 7;
    assert forall i :: 0 <= i < 7 ==> t[i] == "trr-int"[i];
  }

  lemma IntervalClaims(o: Fields)
    requires FbFields(o)
    ensures Claims(RTCP_FB_TRR_INT, Content(RTCP_FB, o)) <==> LooksLikeInterval(o)
  {
    hide Content, P, Plain, OnlyNames, Match;
    FbText(o);
    var rest := " " + (P(o, Type) + After(o));
    var s := P(o, Payload) + rest;
    LitStep("rtcp-fb:", WordOrCap("*", Digit, TRR_INT), s);
    if Claims(RTCP_FB_TRR_INT, Content(RTCP_FB, o)) {
      var re := WordOrCap("*", Digit, TRR_INT);
      MatchSound(re, s);
      IntervalParts(P(o, Payload), P(o, Type), After(o), Match(re, s).value);
    }
    if LooksLikeInterval(o) {
      LooksClaimed(o);
    }
  }

  lemma IntervalParts(payload: string, t: string, after: string, caps: Caps)
    requires (payload == "*" || All(Digit, payload)) && All(Word("-"), t) && (after == "" || after[0] == ' ')
    requires Accepts(WordOrCap("*", Digit, TRR_INT), payload + (" " + (t + after)), caps)
    ensures t == "trr-int" && after != ""
  {
    var rest := " " + (t + after);
    var s := payload + rest;
    var head := caps.head;
    var tail := s[|head|..];
    assert Accepts(TRR_INT, tail, caps.tail);
    assert " trr-int " <= tail;
    assert tail[0] == ' ' && s[|head|] == tail[0];
    PayloadTaken(payload, head, rest);
    assert tail == rest;
    assert rest[1..] == t + after && " trr-int "[1..] == "trr-int ";
    assert forall i :: 0 <= i < 8 ==> (t + after)[i] == rest[i + 1];
    IntervalType(t, after);
  }

  lemma LooksClaimed(o: Fields)
    requires FbFields(o) && LooksLikeInterval(o)
    ensures Match(WordOrCap("*", Digit, TRR_INT), P(o, Payload) + (" " + (P(o, Type) + After(o)))).Some?
  {
    hide P, Plain, OnlyNames, Match;
    var payload, subtype := P(o, Payload), P(o, Subtype);
    assert " " + (P(o, Type) + After(o)) == " trr-int " + subtype;
    LitStep(" trr-int ", Cap(Digit, Star, Done), subtype);
    AnyRunMatches(subtype);
    NoStar(payload, " trr-int " + subtype);
    WordOrCapStep("*", Digit, TRR_INT, payload, " trr-int " + subtype);
  }

  lemma AnyRunMatches(s: string)
    ensures Match(Cap(Digit, Star, Done), s).Some?
  {}

  lemma FbLine(o: Fields)
    requires FbFields(o) && !LooksLikeInterval(o)
    ensures RoundTrips(RTCP_FB, o)
  {
    hide FormatOf, Agrees, Claims, Plain, RoundTrips, ATTRIBUTES, OnlyNames, Content, P;
    FbAgrees(o);
    IntervalClaims(o);
    Places();
    Element(5, RTCP_FB, o);
  }

  lemma {:induction false} FirstClaimBefore(rules: seq<Rule>, i: nat, s: string)
    requires i < |rules| && Claims(rules[i], s)
    ensures exists j: nat :: j <= i && FirstClaim(rules, s) == Some(rules[j])
  {
    hide Claims;
    if !Claims(rules[0], s) {
      FirstClaimBefore(rules[1..], i - 1, s);
      var j: nat :| j <= i - 1 && FirstClaim(rules[1..], s) == Some(rules[1..][j]);
      assert rules[1..][j] == rules[j + 1];
    } else {
      assert FirstClaim(rules, s) == Some(rules[0]);
    }
  }

  /** A line that an earlier rule claims is not given to rule j. */
  lemma EarlierClaimWins(i: nat, j: nat, s: string)
    requires i < j < 38 && |ATTRIBUTES| == 38 && Claims(ATTRIBUTES[i], s)
    ensures FirstClaim(Rules('a'), s) != Some(ATTRIBUTES[j])
  {
    hide Claims, Position, ATTRIBUTES;
    FirstClaimBefore(ATTRIBUTES, i, s);
    var k: nat :| k <= i && FirstClaim(ATTRIBUTES, s) == Some(ATTRIBUTES[k]);
    Positions(k);
    Positions(j);
  }

  /** An rtcp-fb line with canonical members is read back exactly when it does not look like an interval. */
  lemma FbReadsBack(o: Fields)
    requires FbFields(o) && Exact(RTCP_FB, o)
    ensures ReadsBack('a', RTCP_FB, o) <==> !LooksLikeInterval(o)
  {
    hide Content, Claims, Plain, OnlyNames, Exact, P, Attached, ATTRIBUTES, Rules, Stable;
    if LooksLikeInterval(o) {
      IntervalClaims(o);
      Places();
      GroupOf(4);
      EarlierClaimWins(4, 5, Content(RTCP_FB, o));
    } else {
      FbLine(o);
    }
  }

  // ---- x-google-flag, which is looked for anywhere in a text ----

  const FLAG := "x-google-flag:"

  ghost predicate Occurs(text: string, s: string) { exists p: nat :: p <= |s| && text <= s[p..] }

  lemma {:induction false} SearchFromIsOccurs(s: string)
    ensures SearchFrom(X_GOOGLE_FLAG.re, s).Some? <==> Occurs(FLAG, s)
  {
    FlagHere(s);
    if FLAG <= s {
      assert s[0..] == s;
    } else if s != "" {
      SearchFromIsOccurs(s[1..]);
      assert s[0..] == s;
      assert forall p: nat :: p < |s| ==> s[1..][p..] == s[p + 1..];
      if Occurs(FLAG, s[1..]) {
        var p: nat :| p <= |s[1..]| && FLAG <= s[1..][p..];
        assert FLAG <= s[p + 1..];
      }
      if Occurs(FLAG, s) {
        var p: nat :| p <= |s| && FLAG <= s[p..];
        assert p > 0 && FLAG <= s[1..][p - 1..];
      }
    } else {
      assert forall p: nat :: p <= |s| ==> s[p..] == "";
    }
  }

  lemma FlagHere(s: string)
    ensures Match(X_GOOGLE_FLAG.re, s).Some? <==> FLAG <= s
  {
    if FLAG <= s {
      assert s == FLAG + s[|FLAG|..];
      LitStep(FLAG, Cap(NonSpace, Star, Done), s[|FLAG|..]);
    }
  }

  lemma FlagAt(s: string, p: nat)
    requires p <= |s| && FLAG <= s[p..]
    ensures p + 1 < |s| && s[p] == 'x' && s[p + 1] == '-'
  {
    assert s[p..][0] == 'x' && s[p..][1] == '-';
  }

  /** The flag cannot start in a text without '-', unless its 'x' is the last character. */
  lemma OccursInTail(a: string, b: string)
    requires '-' !in a && (a == "" || a[|a| - 1] != 'x')
    ensures Occurs(FLAG, a + b) <==> Occurs(FLAG, b)
  {
    var s := a + b;
    assert forall i :: 0 <= i < |a| ==> s[i] == a[i] && a[i] in a;
    if Occurs(FLAG, b) {
      var p: nat :| p <= |b| && FLAG <= b[p..];
      assert s[|a| + p..] == b[p..];
    }
    if Occurs(FLAG, s) {
      var p: nat :| p <= |s| && FLAG <= s[p..];
      FlagAt(s, p);
      assert p >= |a|;
      assert s[p..] == b[p - |a|..];
    }
  }

  // ---- a=rid ----

  predicate RidFields(o: Fields) {
    Members(RIDS, o) && All(Word(""), P(o, Id)) && P(o, Id) != "" && All(Word(""), P(o, Direction)) && P(o, Direction) != ""
    && All(Dot, P(o, Params))
  }

  function RidFormat(params: bool): Format { Hole("rid:", S, Hole(" ", S, if params then Hole(" ", S, T) else T)) }

  lemma RidFormatOf(o: Fields)
    ensures FormatOf(RIDS, o) == RidFormat(HasValue(o, Params))
  {
    hide HasValue;
  }

  lemma RidHead(f: Format, o: Fields)
    requires RidFields(o) && Agrees(f, Opt(RID_PARAMS, Done), o, RIDS.names, 2) && Ends(Word(""), f, o, RIDS.names, 2)
    ensures Agrees(Hole("rid:", S, Hole(" ", S, f)), RIDS.re, o, RIDS.names, 0)
  {
    hide Match, Texts, HasValue, Plain, OnlyNames, Agrees, Filled, P, Printed, Ends;
    Field(" ", S, f, Word(""), Plus, Opt(RID_PARAMS, Done), o, RIDS.names, 1);
    Field("rid:", S, Hole(" ", S, f), Word(""), Plus, RIDS.re.next.next, o, RIDS.names, 0);
  }

  lemma RidAgrees(o: Fields)
    requires RidFields(o)
    ensures Agrees(FormatOf(RIDS, o), RIDS.re, o, RIDS.names, 0)
  {
    hide Match, Texts, Printed, Ends, Agrees, Filled, FormatOf, HasValue, P, Plain, OnlyNames;
    var n := RIDS.names;
    ValueIsText(RIDS, o);
    RidFormatOf(o);
    if HasValue(o, Params) {
      AgreesAtEnd(o, n);
      Field(" ", S, T, Dot, Star, Done, o, n, 2);
      ThenDone(RID_PARAMS);
      Taken(Hole(" ", S, T), RID_PARAMS, Done, o, n, 2);
      RidHead(Hole(" ", S, T), o);
    } else {
      NoMatchOfNothing(Space, " ", ANY);
      Absent(RID_PARAMS, o, n, 2);
      RidHead(T, o);
    }
  }

  lemma RidText(o: Fields)
    requires RidFields(o)
    ensures var start := "rid:" + P(o, Id) + " " + P(o, Direction);
            Content(RIDS, o) == if P(o, Params) != "" then (start + " ") + P(o, Params) else start + ""
  {
    hide Content, FormatOf, HasValue, P, Plain, OnlyNames;
    ValueIsText(RIDS, o);
    RidFormatOf(o);
    ContentOfObject(RIDS, o);
    var n := RIDS.names;
    var f := if P(o, Params) != "" then Hole(" ", S, T) else T;
    assert Printed(T, o, n, 3) == "" && Printed(T, o, n, 2) == "";
    assert Printed(f, o, n, 2) == if P(o, Params) != "" then " " + P(o, Params) + "" else "";
    assert Printed(Hole(" ", S, f), o, n, 1) == " " + P(o, Direction) + Printed(f, o, n, 2);
  }

  /** A rid line is claimed by the x-google-flag rule exactly when its parameters contain the flag. */
  lemma RidFlagged(o: Fields)
    requires RidFields(o)
    ensures Claims(X_GOOGLE_FLAG, Content(RIDS, o)) <==> Occurs(FLAG, P(o, Params))
  {
    hide Content, P, Plain, OnlyNames, SearchFrom, Occurs;
    RidText(o);
    var start := "rid:" + P(o, Id) + " " + P(o, Direction);
    SearchFromIsOccurs(Content(RIDS, o));
    assert forall i :: 0 <= i < |P(o, Id)| ==> P(o, Id)[i] in P(o, Id);
    assert '-' !in P(o, Id) && '-' !in P(o, Direction);
    if P(o, Params) != "" {
      OccursInTail(start + " ", P(o, Params));
    } else {
      NoFlagWithoutDash(start + "");
      NoFlagWithoutDash("");
    }
  }

  lemma NoFlagWithoutDash(s: string)
    ensures Occurs(FLAG, s) ==> '-' in s
  {
    if Occurs(FLAG, s) {
      var p: nat :| p <= |s| && FLAG <= s[p..];
      FlagAt(s, p);
    }
  }

  lemma RidLine(o: Fields)
    requires RidFields(o) && !Occurs(FLAG, P(o, Params))
    ensures RoundTrips(RIDS, o)
  {
    hide FormatOf, Agrees, Claims, Plain, RoundTrips, ATTRIBUTES, OnlyNames, Content, P, Occurs;
    RidAgrees(o);
    RidFlagged(o);
    MorePlaces();
    Element(31, RIDS, o);
  }

  /** A rid line with canonical members is read back exactly when its parameters do not contain x-google-flag. */
  lemma RidReadsBack(o: Fields)
    requires RidFields(o) && Exact(RIDS, o)
    ensures ReadsBack('a', RIDS, o) <==> !Occurs(FLAG, P(o, Params))
  {
    hide Content, Claims, Plain, OnlyNames, Exact, P, Attached, ATTRIBUTES, Rules, Stable, Occurs;
    if Occurs(FLAG, P(o, Params)) {
      RidFlagged(o);
      MorePlaces();
      GroupOf(30);
      EarlierClaimWins(30, 31, Content(RIDS, o));
    } else {
      RidLine(o);
    }
  }

  /** `a=rtcp-fb:98 trr-int 100` as a feedback with a subtype is not read back. */
  lemma IntervalIsNotReadBack()
    ensures var o := map[Payload := Str("98"), Type := Str("trr-int"), Subtype := Str("100")];
            FbFields(o) && Exact(RTCP_FB, o) && !ReadsBack('a', RTCP_FB, o)
  {
    hide ReadsBack;
    var o: Fields := map[Payload := Str("98"), Type := Str("trr-int"), Subtype := Str("100")];
    FbReadsBack(o);
  }

  const FLAG_RID: Fields := map[Id := Str("1"), Key.Direction := Str("send"), Params := Str("x-google-flag:conference")]

  lemma FlagRidTexts()
    ensures P(FLAG_RID, Id) == "1" && P(FLAG_RID, Key.Direction) == "send" && P(FLAG_RID, Params) == "x-google-flag:conference"
    ensures Exact(RIDS, FLAG_RID)
  {}

  lemma FlagRidClasses()
    ensures All(Word(""), "1") && All(Word(""), "send") && All(Dot, "x-google-flag:conference")
    ensures Occurs(FLAG, "x-google-flag:conference")
  {
    assert "x-google-flag:conference"[0..] == "x-google-flag:conference";
  }

  /** `a=rid:1 send x-google-flag:conference` is not read back as a rid. */
  lemma FlagInRidIsNotReadBack()
    ensures RidFields(FLAG_RID) && Exact(RIDS, FLAG_RID) && !ReadsBack('a', RIDS, FLAG_RID)
  {
    hide ReadsBack, P, Exact, All, Occurs, Plain, OnlyNames;
    FlagRidTexts();
    FlagRidClasses();
    ExactIsPlain(RIDS, FLAG_RID);
    RidReadsBack(FLAG_RID);
  }
}
