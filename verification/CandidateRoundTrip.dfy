/**
  The candidate rule: its optional chunks, and the chunk that the format does not keep a place for.
 */
module CandidateRoundTrip {
  import opened Regex
  import opened Text
  import opened Json
  import opened Grammar
  import opened Writer
  import opened Parser
  import opened LineRoundTrip
  import opened Dispatch
  import opened RuleRoundTrip

  /** The members of a candidate; a remote port comes with a remote address. */
  predicate CandidateFields(o: Fields) {
    Members(CANDIDATES, o)
    && All(NonSpace, P(o, Foundation)) && All(Digit, P(o, Component)) && All(NonSpace, P(o, Transport))
    && All(Digit, P(o, Priority)) && All(NonSpace, P(o, Ip)) && All(Digit, P(o, Port)) && All(NonSpace, P(o, Type))
    && All(NonSpace, P(o, Raddr)) && All(Digit, P(o, Rport)) && (P(o, Raddr) == "" ==> P(o, Rport) == "")
    && All(NonSpace, P(o, Tcptype)) && All(Digit, P(o, Generation))
    && All(Digit, P(o, NetworkId)) && All(Digit, P(o, NetworkCost))
  }

  /** The chunks that follow a missing generation are misplaced. */
  predicate Misplaced(o: Fields) {
    P(o, Generation) == "" && (P(o, NetworkId) != "" || P(o, NetworkCost) != "")
  }

  function Chunk(there: bool, prefix: Prefix, next: Format): Format { if there then Hole(prefix, D, next) else Hole("", V, next) }

  function NetworkChunks(id: bool, cost: bool): Format { Chunk(id, " network-id ", Chunk(cost, " network-cost ", T)) }

  function Head(o: Fields, end: Format): Format {
    Hole("candidate:", S, Hole(" ", D, Hole(" ", S, Hole(" ", D, Hole(" ", S, Hole(" ", D, Hole(" typ ", S,
      RaddrFormat(o, TcptypeFormat(o, end)))))))))
  }

  lemma CandidateFormat(o: Fields)
    requires Members(CANDIDATES, o)
    ensures var rest := NetworkChunks(P(o, NetworkId) != "", P(o, NetworkCost) != "");
            FormatOf(CANDIDATES, o) == Head(o, if P(o, Generation) != "" then Hole(" generation ", D, rest) else rest)
  {
    hide HasValue, P, Members;
    ValueIsText(CANDIDATES, o);
  }

  // ---- The chunks, from the last one back ----

  /** Nothing, or something that starts with a blank and one of these characters. */
  predicate Opens(chars: string, f: Format, o: Fields, i: nat) {
    var s := Printed(f, o, CANDIDATES.names, i);
    s == "" || (|s| >= 2 && s[0] == ' ' && s[1] in chars)
  }

  lemma OpensBlank(chars: string, f: Format, o: Fields, i: nat, text: string)
    requires Opens(chars, f, o, i)
    ensures forall c :: !In(c, ' ') ==> Ends(c, f, o, CANDIDATES.names, i)
    ensures |text| >= 2 && text[1] !in chars ==> !(text <= Printed(f, o, CANDIDATES.names, i))
  {}

  /** One optional chunk of one member that is there, or has a %v in its place. */
  lemma OneChunk(kind: Kind, text: Prefix, cls: Class, chars: string, f: Format, next: Re, o: Fields, i: nat)
    requires !kind.V? && !kind.Percent? && i < 13 && |text| >= 2 && text[0] == ' ' && text[1] !in chars
    requires Fits(cls, Star, P(o, CANDIDATES.names[i])) && !In(cls, ' ')
    requires Agrees(f, next, o, CANDIDATES.names, i + 1) && Opens(chars, f, o, i + 1)
    ensures var g := if P(o, CANDIDATES.names[i]) != "" then Hole(text, kind, f) else Hole("", V, f);
            Agrees(g, Opt(Lit(text, Cap(cls, Star, Done)), next), o, CANDIDATES.names, i) && Opens([text[1]] + chars, g, o, i)
  {
    hide Agrees, Filled, Texts, Match, P, Fits;
    var n := CANDIDATES.names;
    OpensBlank(chars, f, o, i + 1, text);
    ThenLitCap(text, cls, Star, next);
    if P(o, n[i]) != "" {
      Field(text, kind, f, cls, Star, next, o, n, i);
      Taken(Hole(text, kind, f), Lit(text, Cap(cls, Star, Done)), next, o, n, i);
    } else {
      SkippedVoids(f, text, Lit(text, Cap(cls, Star, Done)), next, o, n, i);
      VoidEnds(f, o, n, i);
    }
  }

  const NETWORK := Opt(NETWORK_ID, Opt(NETWORK_COST, Done))

  /** A chunk that is not written belongs to a blank member. */
  predicate Writes(id: bool, cost: bool, o: Fields) {
    (id || P(o, NetworkId) == "") && (cost || P(o, NetworkCost) == "")
  }

  lemma CostChunk(cost: bool, o: Fields)
    requires CandidateFields(o) && Writes(true, cost, o)
    ensures var f := Chunk(cost, " network-cost ", T);
            Agrees(f, Opt(NETWORK_COST, Done), o, CANDIDATES.names, 12) && Ends(Digit, f, o, CANDIDATES.names, 12)
            && (if cost then " network-cost " <= Printed(f, o, CANDIDATES.names, 12) else Printed(f, o, CANDIDATES.names, 12) == "")
  {
    hide Agrees, Filled, Texts, Match, P, Members;
    var n := CANDIDATES.names;
    AgreesAtEnd(o, n);
    ThenLitCap(" network-cost ", Digit, Star, Done);
    if cost {
      Field(" network-cost ", D, T, Digit, Star, Done, o, n, 12);
      Taken(Hole(" network-cost ", D, T), NETWORK_COST, Done, o, n, 12);
    } else {
      SkippedVoids(T, " network-cost ", NETWORK_COST, Done, o, n, 12);
    }
  }

  lemma IdChunk(f: Format, next: Re, id: bool, o: Fields)
    requires All(Digit, P(o, NetworkId)) && (id || P(o, NetworkId) == "")
    requires Agrees(f, next, o, CANDIDATES.names, 12) && Ends(Digit, f, o, CANDIDATES.names, 12)
    requires Printed(f, o, CANDIDATES.names, 12) == "" || " network-cost " <= Printed(f, o, CANDIDATES.names, 12)
    ensures Agrees(Chunk(id, " network-id ", f), Opt(NETWORK_ID, next), o, CANDIDATES.names, 11)
    ensures var s := Printed(Chunk(id, " network-id ", f), o, CANDIDATES.names, 11);
            s == "" || " network-id " <= s || " network-cost " <= s
  {
    hide Agrees, Texts, Match, P, Ends, Filled, Printed;
    var n := CANDIDATES.names;
    ThenLitCap(" network-id ", Digit, Star, next);
    if id {
      Field(" network-id ", D, f, Digit, Star, next, o, n, 11);
      Taken(Hole(" network-id ", D, f), NETWORK_ID, next, o, n, 11);
    } else {
      if Printed(f, o, n, 12) != "" {
        Clash(" network-id ", " network-cost ", 9, Printed(f, o, n, 12));
      }
      SkippedVoids(f, " network-id ", NETWORK_ID, next, o, n, 11);
    }
  }

  lemma NetworkAgrees(id: bool, cost: bool, o: Fields)
    requires CandidateFields(o) && Writes(id, cost, o)
    ensures Agrees(NetworkChunks(id, cost), NETWORK, o, CANDIDATES.names, 11) && Opens("n", NetworkChunks(id, cost), o, 11)
  {
    hide Agrees, P, Members, Ends, Printed;
    CostChunk(cost, o);
    IdChunk(Chunk(cost, " network-cost ", T), Opt(NETWORK_COST, Done), id, o);
  }

  lemma EndAgrees(o: Fields)
    requires CandidateFields(o) && !Misplaced(o)
    ensures var rest := NetworkChunks(P(o, NetworkId) != "", P(o, NetworkCost) != "");
            var f := if P(o, Generation) != "" then Hole(" generation ", D, rest) else rest;
            Agrees(f, CANDIDATE_END, o, CANDIDATES.names, 10) && Opens("gn", f, o, 10)
  {
    hide Agrees, Texts, Match, P, Members, Ends, Filled, Opens;
    var rest := NetworkChunks(P(o, NetworkId) != "", P(o, NetworkCost) != "");
    NetworkAgrees(P(o, NetworkId) != "", P(o, NetworkCost) != "", o);
    OneChunk(D, " generation ", Digit, "n", rest, NETWORK, o, 10);
    assert [" generation "[1]] + "n" == "gn";
    if P(o, Generation) == "" {
      NothingAgrees(o);
    }
  }

  lemma NothingAgrees(o: Fields)
    requires Agrees(Hole("", V, NetworkChunks(false, false)), CANDIDATE_END, o, CANDIDATES.names, 10)
    ensures Agrees(NetworkChunks(false, false), CANDIDATE_END, o, CANDIDATES.names, 10)
    ensures Opens("gn", NetworkChunks(false, false), o, 10)
  {
    hide Agrees, NetworkChunks;
    NothingPrinted(o);
    SamePrinted(Hole("", V, NetworkChunks(false, false)), NetworkChunks(false, false), CANDIDATE_END, o);
  }

  lemma NothingPrinted(o: Fields)
    ensures Printed(NetworkChunks(false, false), o, CANDIDATES.names, 10) == ""
    ensures Printed(Hole("", V, NetworkChunks(false, false)), o, CANDIDATES.names, 10) == ""
  {
    var n := CANDIDATES.names;
    assert forall i :: Printed(T, o, n, i) == "";
    assert forall i :: 0 <= i < 13 ==> Printed(Hole("", V, T), o, n, i) == "";
    assert forall i :: 0 <= i < 12 ==> Printed(NetworkChunks(false, false), o, n, i) == "";
  }

  /** Only the printed text matters. */
  lemma SamePrinted(f: Format, f': Format, re: Re, o: Fields)
    requires Agrees(f, re, o, CANDIDATES.names, 10) && Printed(f, o, CANDIDATES.names, 10) == Printed(f', o, CANDIDATES.names, 10)
    ensures Agrees(f', re, o, CANDIDATES.names, 10)
    ensures forall chars :: Opens(chars, f, o, 10) ==> Opens(chars, f', o, 10)
  {}

  function TcptypeFormat(o: Fields, end: Format): Format {
    if P(o, Tcptype) != "" then Hole(" tcptype ", S, end) else Hole("", V, end)
  }

  function RaddrFormat(o: Fields, f: Format): Format {
    if P(o, Raddr) != "" then Hole(" raddr ", S, Hole(" rport ", D, f)) else Hole("", V, Hole("", V, f))
  }

  lemma TcptypeAgrees(end: Format, o: Fields)
    requires CandidateFields(o) && Agrees(end, CANDIDATE_END, o, CANDIDATES.names, 10) && Opens("gn", end, o, 10)
    ensures Agrees(TcptypeFormat(o, end), Opt(TCPTYPE, CANDIDATE_END), o, CANDIDATES.names, 9)
    ensures Opens("tgn", TcptypeFormat(o, end), o, 9)
  {
    hide Agrees, Texts, Match, P, Members, Ends, Filled, Opens, Printed;
    OneChunk(S, " tcptype ", NonSpace, "gn", end, CANDIDATE_END, o, 9);
    assert [" tcptype "[1]] + "gn" == "tgn";
  }

  lemma RaddrTaken(f: Format, next: Re, o: Fields)
    requires All(NonSpace, P(o, Raddr)) && All(Digit, P(o, Rport)) && Ends(Digit, f, o, CANDIDATES.names, 9)
    requires Agrees(f, next, o, CANDIDATES.names, 9)
    ensures var g := Hole(" raddr ", S, Hole(" rport ", D, f));
            Agrees(g, Opt(RADDR, next), o, CANDIDATES.names, 7) && Ends(NonSpace, g, o, CANDIDATES.names, 7)
  {
    hide Agrees, Texts, Match, P, Ends, Filled, Printed;
    var n := CANDIDATES.names;
    assert !In(NonSpace, ' ');
    RaddrThen(next);
    Field(" rport ", D, f, Digit, Star, next, o, n, 8);
    Field(" raddr ", S, Hole(" rport ", D, f), NonSpace, Star, Lit(" rport ", Cap(Digit, Star, next)), o, n, 7);
    Taken(Hole(" raddr ", S, Hole(" rport ", D, f)), RADDR, next, o, n, 7);
  }

  lemma TwoVoids(f: Format)
    ensures Voids(2, f) == Hole("", V, Hole("", V, f))
  {
    assert Voids(1, f) == Hole("", V, f);
  }

  lemma RaddrBlank(o: Fields)
    requires P(o, Raddr) == "" && P(o, Rport) == ""
    ensures Blank(o, CANDIDATES.names, 7, 2)
  {
    hide P;
    var n := CANDIDATES.names;
    assert n[7] == Raddr && n[8] == Rport;
  }

  lemma Skip7(f: Format, next: Re, o: Fields)
    requires Blank(o, CANDIDATES.names, 7, 2) && NumCaps(RADDR) == 2
    requires !(" raddr " <= Printed(f, o, CANDIDATES.names, 9))
    requires Agrees(f, next, o, CANDIDATES.names, 9)
    ensures Agrees(Voids(2, f), Opt(RADDR, next), o, CANDIDATES.names, 7)
    ensures forall c :: Ends(c, f, o, CANDIDATES.names, 9) ==> Ends(c, Voids(2, f), o, CANDIDATES.names, 7)
  {
    hide Agrees, Texts, Match, P, Ends, Filled, Printed, Then, NumCaps, Voids, Blank;
    SkippedVoids(f, " raddr ", RADDR, next, o, CANDIDATES.names, 7);
  }

  lemma RaddrSkipped(f: Format, next: Re, o: Fields)
    requires P(o, Raddr) == "" && P(o, Rport) == "" && Opens("tgn", f, o, 9)
    requires Agrees(f, next, o, CANDIDATES.names, 9)
    ensures var g := Hole("", V, Hole("", V, f));
            Agrees(g, Opt(RADDR, next), o, CANDIDATES.names, 7) && Ends(NonSpace, g, o, CANDIDATES.names, 7)
  {
    hide Agrees, Texts, Match, P, Ends, Filled, Printed, Opens, Then, NumCaps, Voids, Blank;
    OpensBlank("tgn", f, o, 9, " raddr ");
    assert !In(NonSpace, ' ');
    RaddrThen(next);
    TwoVoids(f);
    RaddrBlank(o);
    assert RADDR.Lit? && RADDR.text == " raddr ";
    assert !(" raddr " <= Printed(f, o, CANDIDATES.names, 9));
    Skip7(f, next, o);
  }

  lemma RaddrAgrees(f: Format, o: Fields)
    requires CandidateFields(o) && Opens("tgn", f, o, 9)
    requires Agrees(f, Opt(TCPTYPE, CANDIDATE_END), o, CANDIDATES.names, 9)
    ensures Agrees(RaddrFormat(o, f), CANDIDATE_TAIL, o, CANDIDATES.names, 7)
    ensures Ends(NonSpace, RaddrFormat(o, f), o, CANDIDATES.names, 7)
  {
    hide Agrees, Members, Ends, Opens;
    OpensBlank("tgn", f, o, 9, "");
    assert !In(Digit, ' ');
    if P(o, Raddr) != "" {
      RaddrTaken(f, Opt(TCPTYPE, CANDIDATE_END), o);
    } else {
      RaddrSkipped(f, Opt(TCPTYPE, CANDIDATE_END), o);
    }
  }

  lemma RaddrThen(next: Re)
    ensures Then(RADDR, next) == Lit(" raddr ", Cap(NonSpace, Star, Lit(" rport ", Cap(Digit, Star, next)))) && NumCaps(RADDR) == 2
  {
    ThenLitCap(" rport ", Digit, Star, next);
    assert Then(Cap(NonSpace, Star, RADDR.next.next), next) == Cap(NonSpace, Star, Then(RADDR.next.next, next));
  }

  /** The members before the optional chunks. */
  lemma HeadAgrees(end: Format, o: Fields)
    requires CandidateFields(o) && Agrees(end, CANDIDATE_END, o, CANDIDATES.names, 10) && Opens("gn", end, o, 10)
    ensures Agrees(Head(o, end), CANDIDATES.re, o, CANDIDATES.names, 0)
  {
    hide Agrees, Texts, Match, P, Members, Ends, Filled, Opens, Printed;
    var n := CANDIDATES.names;
    TcptypeAgrees(end, o);
    RaddrAgrees(TcptypeFormat(o, end), o);
    assert !In(NonSpace, ' ') && !In(Digit, ' ');
    var k7 := Cap(NonSpace, Star, CANDIDATE_TAIL);
    var k6 := Lit(" typ ", k7);
    var k5 := Lit(" ", Cap(Digit, Star, k6));
    var k4 := Lit(" ", Cap(NonSpace, Star, k5));
    var k3 := Lit(" ", Cap(Digit, Star, k4));
    var k2 := Lit(" ", Cap(NonSpace, Star, k3));
    var k1 := Lit(" ", Cap(Digit, Star, k2));
    var f6 := Head(o, end).next.next.next.next.next.next;
    var f5 := Hole(" ", D, f6);
    var f4 := Hole(" ", S, f5);
    var f3 := Hole(" ", D, f4);
    var f2 := Hole(" ", S, f3);
    Field(" typ ", S, f6.next, NonSpace, Star, CANDIDATE_TAIL, o, n, 6);
    Field(" ", D, f6, Digit, Star, k6, o, n, 5);
    Field(" ", S, f5, NonSpace, Star, k5, o, n, 4);
    Field(" ", D, f4, Digit, Star, k4, o, n, 3);
    Field(" ", S, f3, NonSpace, Star, k3, o, n, 2);
    Field(" ", D, f2, Digit, Star, k2, o, n, 1);
    Field("candidate:", S, Hole(" ", D, f2), NonSpace, Star, k1, o, n, 0);
  }

  lemma CandidateAgrees(o: Fields)
    requires CandidateFields(o) && !Misplaced(o)
    ensures Agrees(FormatOf(CANDIDATES, o), CANDIDATES.re, o, CANDIDATES.names, 0)
  {
    hide Agrees, P, Members, Opens, FormatOf, Head, NetworkChunks;
    EndAgrees(o);
    CandidateFormat(o);
    var rest := NetworkChunks(P(o, NetworkId) != "", P(o, NetworkCost) != "");
    HeadAgrees(if P(o, Generation) != "" then Hole(" generation ", D, rest) else rest, o);
  }

  lemma CandidateLine(o: Fields)
    requires CandidateFields(o) && !Misplaced(o)
    ensures RoundTrips(CANDIDATES, o)
  {
    hide FormatOf, Agrees, Claims, Plain, RoundTrips, ATTRIBUTES, OnlyNames, Content, P, Distinct;
    CandidateAgrees(o);
    MorePlaces();
    DistinctCandidate();
    Element(19, CANDIDATES, o);
  }

  function Place(k: Key): nat {
    match k
    case Foundation => 0 case Component => 1 case Transport => 2 case Priority => 3 case Ip => 4 case Port => 5
    case Type => 6 case Raddr => 7 case Rport => 8 case Tcptype => 9 case Generation => 10 case NetworkId => 11
    case _ => 12
  }

  const FIELDS: seq<Key> := [
    Foundation, Component, Transport, Priority, Ip, Port, Type, Raddr, Rport, Tcptype, Generation, NetworkId, NetworkCost]

  lemma CandidateNames()
    ensures CANDIDATES.names == FIELDS
    ensures !CANDIDATES.target.Named?
  {}

  lemma EarlyPlaces(n: seq<Key>)
    requires n == FIELDS
    ensures forall i :: 0 <= i < 7 ==> Place(n[i]) == i
  {}

  lemma LatePlaces(n: seq<Key>)
    requires n == FIELDS
    ensures forall i :: 7 <= i < 13 ==> Place(n[i]) == i
  {}

  lemma DistinctCandidate()
    ensures Distinct(CANDIDATES.names)
  {
    hide Place;
    CandidateNames();
    EarlyPlaces(CANDIDATES.names);
    LatePlaces(CANDIDATES.names);
  }

  // ---- What happens to the chunks after a missing generation ----

  /** What a misplaced candidate reads back as: the network id is lost, or read as the network cost. */
  function Misread(o: Fields): Fields {
    var rest := o - {NetworkId, NetworkCost};
    if NetworkId in o && NetworkCost in o then rest[NetworkCost := o[NetworkId]] else rest
  }

  lemma MisreadExact(o: Fields)
    requires Exact(CANDIDATES, o) && Misplaced(o)
    ensures Exact(CANDIDATES, Misread(o)) && Misread(o) != o && Generation !in o
    ensures NetworkId in o <==> P(o, NetworkId) != ""
    ensures NetworkCost in o <==> P(o, NetworkCost) != ""
  {
    hide Canonical, P, Exact;
    MisplacedMembers(o);
    MisreadCanonical(o);
  }

  lemma LastTypes()
    ensures var n, ts := CANDIDATES.names, CANDIDATES.types;
            |n| == 13 && |ts| > 12 && n[10] == Generation && n[11] == NetworkId && n[12] == NetworkCost && ts[11] == ts[12]
  {}

  lemma MisplacedMembers(o: Fields)
    requires Exact(CANDIDATES, o) && Misplaced(o)
    ensures Generation !in o && (NetworkId in o <==> P(o, NetworkId) != "") && (NetworkCost in o <==> P(o, NetworkCost) != "")
  {
    hide Canonical, P, Exact;
    LastTypes();
    ExactMember(CANDIDATES, o, 10);
    ExactMember(CANDIDATES, o, 11);
    ExactMember(CANDIDATES, o, 12);
  }

  lemma MisreadCanonical(o: Fields)
    requires Exact(CANDIDATES, o) && Misplaced(o)
    ensures Exact(CANDIDATES, Misread(o))
  {
    hide Canonical, P, Misplaced, Exact, Distinct;
    LastTypes();
    DistinctCandidate();
    ExactWithout(CANDIDATES, o);
  }

  lemma ExactWithout(rule: Rule, o: Fields)
    requires Exact(rule, o) && Distinct(rule.names) && |rule.names| == 13
    requires rule.names[11] == NetworkId && rule.names[12] == NetworkCost && rule.types[11] == rule.types[12]
    ensures Exact(rule, Misread(o))
  {
    hide Canonical;
    var n, ts, o' := rule.names, rule.types, Misread(o);
    forall i | 0 <= i < |n| && n[i] in o' ensures Canonical(o'[n[i]], ts[i]) {
      assert i < 12 ==> n[i] != n[12];
    }
  }

  lemma MisreadTexts(o: Fields)
    ensures forall k :: k != NetworkId && k != NetworkCost ==> P(Misread(o), k) == P(o, k)
    ensures P(Misread(o), NetworkId) == ""
    ensures P(Misread(o), NetworkCost) == if NetworkId in o && NetworkCost in o then P(o, NetworkId) else ""
  {
    hide Print;
  }

  lemma MisreadFields(o: Fields)
    requires CandidateFields(o) && Exact(CANDIDATES, o) && Misplaced(o)
    ensures CandidateFields(Misread(o))
    ensures SameTexts(o, Misread(o))
    ensures P(Misread(o), Generation) == "" && P(Misread(o), NetworkId) == ""
    ensures P(Misread(o), NetworkCost) == if P(o, NetworkCost) != "" then P(o, NetworkId) else ""
  {
    hide Members, Exact, P, Misread;
    MisreadExact(o);
    MisreadTexts(o);
    ExactIsPlain(CANDIDATES, Misread(o));
    forall i | 0 <= i < 10 ensures P(Misread(o), CANDIDATES.names[i]) == P(o, CANDIDATES.names[i]) {
      EarlyNames(i);
    }
  }

  lemma EarlyNames(i: nat)
    requires i < 10
    ensures CANDIDATES.names[i] != NetworkId && CANDIDATES.names[i] != NetworkCost
  {}

  predicate SameTexts(o: Fields, o': Fields) { forall i :: 0 <= i < 10 ==> P(o', CANDIDATES.names[i]) == P(o, CANDIDATES.names[i]) }

  lemma SameOptions(o: Fields, o': Fields)
    requires SameTexts(o, o')
    ensures P(o, Raddr) == P(o', Raddr) && P(o, Tcptype) == P(o', Tcptype)
  {
    hide P;
    assert CANDIDATES.names[7] == Raddr && CANDIDATES.names[9] == Tcptype;
  }

  lemma SameStep(prefix: Prefix, kind: Kind, f: Format, f': Format, o: Fields, o': Fields, i: nat)
    requires i < 10 && SameTexts(o, o')
    requires Printed(f, o, CANDIDATES.names, i + 1) == Printed(f', o', CANDIDATES.names, i + 1)
    ensures Printed(Hole(prefix, kind, f), o, CANDIDATES.names, i) == Printed(Hole(prefix, kind, f'), o', CANDIDATES.names, i)
  {
    hide P;
  }

  lemma SameHead(o: Fields, o': Fields, end: Format, end': Format)
    requires SameTexts(o, o')
    requires Printed(end, o, CANDIDATES.names, 10) == Printed(end', o', CANDIDATES.names, 10)
    ensures Printed(Head(o, end), o, CANDIDATES.names, 0) == Printed(Head(o', end'), o', CANDIDATES.names, 0)
  {
    hide P, Printed, SameTexts;
    SameOptions(o, o');
    var f9, g9 := TcptypeFormat(o, end), TcptypeFormat(o', end');
    var f7, g7 := RaddrFormat(o, f9), RaddrFormat(o', g9);
    if P(o, Tcptype) != "" { SameStep(" tcptype ", S, end, end', o, o', 9); } else { SameStep("", V, end, end', o, o', 9); }
    if P(o, Raddr) != "" {
      SameStep(" rport ", D, f9, g9, o, o', 8);
      SameStep(" raddr ", S, Hole(" rport ", D, f9), Hole(" rport ", D, g9), o, o', 7);
    } else {
      SameStep("", V, f9, g9, o, o', 8);
      SameStep("", V, Hole("", V, f9), Hole("", V, g9), o, o', 7);
    }
    var f6, g6 := Hole(" typ ", S, f7), Hole(" typ ", S, g7);
    var f5, g5 := Hole(" ", D, f6), Hole(" ", D, g6);
    var f4, g4 := Hole(" ", S, f5), Hole(" ", S, g5);
    var f3, g3 := Hole(" ", D, f4), Hole(" ", D, g4);
    var f2, g2 := Hole(" ", S, f3), Hole(" ", S, g3);
    SameStep(" typ ", S, f7, g7, o, o', 6);
    SameStep(" ", D, f6, g6, o, o', 5);
    SameStep(" ", S, f5, g5, o, o', 4);
    SameStep(" ", D, f4, g4, o, o', 3);
    SameStep(" ", S, f3, g3, o, o', 2);
    SameStep(" ", D, f2, g2, o, o', 1);
    SameStep("candidate:", S, Hole(" ", D, f2), Hole(" ", D, g2), o, o', 0);
  }

  lemma ChunkPrinted(there: bool, prefix: Prefix, f: Format, o: Fields, n: seq<Key>, i: nat)
    requires i < |n|
    ensures Printed(Chunk(there, prefix, f), o, n, i) == if there then prefix + P(o, n[i]) + Printed(f, o, n, i + 1) else Printed(f, o, n, i + 1)
    ensures Printed(Hole("", V, f), o, n, i) == Printed(f, o, n, i + 1)
    ensures Printed(T, o, n, i + 1) == ""
  {
    hide P;
  }

  lemma MisreadCost(n: seq<Key>, o: Fields, o': Fields, cost: bool)
    requires |n| == 13 && (cost ==> P(o', n[12]) == P(o, n[11]))
    ensures var f := Chunk(cost, " network-cost ", T); Printed(f, o, n, 11) == Printed(f, o', n, 12)
  {
    hide P, Printed, Chunk;
    ChunkPrinted(cost, " network-cost ", T, o, n, 11);
    ChunkPrinted(cost, " network-cost ", T, o', n, 12);
  }

  lemma MisreadEnd(n: seq<Key>, o: Fields, o': Fields, id: bool, cost: bool)
    requires |n| == 13 && P(o, n[10]) == "" && P(o', n[11]) == "" && (cost ==> P(o', n[12]) == P(o, n[11]))
    ensures var f := NetworkChunks(id, cost); Printed(f, o, n, 10) == Printed(Hole("", V, f), o', n, 10)
  {
    hide P, Printed, Chunk;
    var f := Chunk(cost, " network-cost ", T);
    MisreadCost(n, o, o', cost);
    ChunkPrinted(id, " network-id ", f, o, n, 10);
    ChunkPrinted(id, " network-id ", f, o', n, 11);
    ChunkPrinted(false, "", NetworkChunks(id, cost), o', n, 10);
  }

  function MisreadFormat(o: Fields): Format {
    Head(Misread(o), Hole("", V, NetworkChunks(P(o, NetworkId) != "", P(o, NetworkCost) != "")))
  }

  lemma MisreadAgrees(o: Fields)
    requires CandidateFields(o) && Exact(CANDIDATES, o) && Misplaced(o)
    ensures Agrees(MisreadFormat(o), CANDIDATES.re, Misread(o), CANDIDATES.names, 0)
  {
    hide P, Members, Exact, Agrees, Opens, Printed, Head, Attached, NetworkChunks, Distinct, SameTexts, Misread;
    var o' := Misread(o);
    var id, cost := P(o, NetworkId) != "", P(o, NetworkCost) != "";
    var f := NetworkChunks(id, cost);
    MisreadFields(o);
    MisreadExact(o);
    NetworkAgrees(id, cost, o');
    OneChunk(D, " generation ", Digit, "n", f, NETWORK, o', 10);
    assert [" generation "[1]] + "n" == "gn";
    HeadAgrees(Hole("", V, f), o');
  }

  lemma MisreadContent(o: Fields)
    requires CandidateFields(o) && Exact(CANDIDATES, o) && Misplaced(o)
    ensures Content(CANDIDATES, o) == Printed(MisreadFormat(o), Misread(o), CANDIDATES.names, 0)
  {
    hide P, Members, Exact, Printed, FormatOf, Content, Head, NetworkChunks, SameTexts, Misread;
    var o' := Misread(o);
    var id, cost := P(o, NetworkId) != "", P(o, NetworkCost) != "";
    var f := NetworkChunks(id, cost);
    MisreadFields(o);
    MisreadExact(o);
    LastTypes();
    MisreadEnd(CANDIDATES.names, o, o', id, cost);
    SameHead(o, o', f, Hole("", V, f));
    CandidateFormat(o);
    ContentOfObject(CANDIDATES, o);
  }

  /** The line of a misplaced candidate is the line of nothing else than what it is misread as. */
  lemma MisreadLine(o: Fields)
    requires CandidateFields(o) && Exact(CANDIDATES, o) && Misplaced(o)
    ensures Claims(CANDIDATES, Content(CANDIDATES, o))
    ensures Attached(map[], CANDIDATES, CapsOf(CANDIDATES, Content(CANDIDATES, o))) == Misread(o)
  {
    hide P, Members, Exact, Agrees, Printed, Content, MisreadFormat, Attached, Distinct, Misread, CandidateFields, Misplaced;
    MisreadAgrees(o);
    MisreadContent(o);
    MisreadExact(o);
    DistinctCandidate();
    AgreesMeans(MisreadFormat(o), Misread(o), Content(CANDIDATES, o));
    AttachedExact(CANDIDATES, Misread(o));
  }

  lemma AgreesMeans(f: Format, o: Fields, line: string)
    requires Agrees(f, CANDIDATES.re, o, CANDIDATES.names, 0) && Printed(f, o, CANDIDATES.names, 0) == line
    ensures Claims(CANDIDATES, line) && CapsOf(CANDIDATES, line) == Texts(o, CANDIDATES.names, 0)
  {
    hide Match, Texts, Printed;
  }

  /**
    A candidate with canonical members is read back exactly when it has a generation, or neither
    a network id nor a network cost.
   */
  lemma CandidateReadsBack(o: Fields)
    requires CandidateFields(o) && Exact(CANDIDATES, o)
    ensures ReadsBack('a', CANDIDATES, o) <==> !Misplaced(o)
  {
    hide Members, Exact, Content, Attached, Claims, Misplaced, CandidateFields, Stable, FirstClaim;
    if Misplaced(o) {
      MisreadLine(o);
      MisreadExact(o);
    } else {
      CandidateLine(o);
    }
  }

  /** A candidate with a network id and no generation. */
  const NO_GENERATION: Fields := map[
    Foundation := Str("0"), Component := Num(1), Transport := Str("UDP"), Priority := Num(1), Ip := Str("1.1.1.1"),
    Port := Num(1), Type := Str("host"), NetworkId := Num(3)]

  lemma NoGenerationTexts()
    ensures var o := NO_GENERATION;
            P(o, Foundation) == "0" && P(o, Component) == Dec(1) && P(o, Transport) == "UDP" && P(o, Priority) == Dec(1)
            && P(o, Ip) == "1.1.1.1" && P(o, Port) == Dec(1) && P(o, Type) == "host" && P(o, Raddr) == "" && P(o, Rport) == ""
            && P(o, Tcptype) == "" && P(o, Generation) == "" && P(o, NetworkId) == Dec(3) && P(o, NetworkCost) == ""
  {
    hide Dec;
  }

  lemma NoGenerationExact()
    ensures Exact(CANDIDATES, NO_GENERATION)
  {
    hide Dec, ReadInt, ToType, Print;
    NumberIsCanonical(1);
    NumberIsCanonical(3);
    StringIsCanonical("0");
    StringIsCanonical("UDP");
    StringIsCanonical("1.1.1.1");
    StringIsCanonical("host");
  }

  lemma NoGenerationClasses()
    ensures All(NonSpace, "0") && All(NonSpace, "UDP") && All(NonSpace, "1.1.1.1") && All(NonSpace, "host") && All(NonSpace, "")
    ensures All(Digit, Dec(1)) && All(Digit, Dec(3)) && All(Digit, "") && Dec(3) != ""
  {
    NumberIsCanonical(1);
    NumberIsCanonical(3);
  }

  /** It is printed with an empty network id, and read back without any. */
  lemma NoGenerationIsNotReadBack()
    ensures CandidateFields(NO_GENERATION) && Exact(CANDIDATES, NO_GENERATION) && !ReadsBack('a', CANDIDATES, NO_GENERATION)
    ensures Claims(CANDIDATES, Content(CANDIDATES, NO_GENERATION))
    ensures Attached(map[], CANDIDATES, CapsOf(CANDIDATES, Content(CANDIDATES, NO_GENERATION))) == NO_GENERATION - {NetworkId}
  {
    hide ReadsBack, P, Exact, All, Plain, OnlyNames, Dec, Attached, Claims, Content;
    NoGenerationTexts();
    NoGenerationExact();
    NoGenerationClasses();
    ExactIsPlain(CANDIDATES, NO_GENERATION);
    CandidateReadsBack(NO_GENERATION);
    MisreadLine(NO_GENERATION);
    MisreadNoGeneration();
  }

  lemma MisreadNoGeneration()
    ensures Misread(NO_GENERATION) == NO_GENERATION - {NetworkId}
  {}
}
