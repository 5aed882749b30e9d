/** The normal form of whole sessions: the session's own lines, then each media section. */
module SessionRoundTrip {
  import opened Prelude
  import opened Regex
  import opened Text
  import opened Json
  import opened Grammar
  import opened Writer
  import opened Parser
  import opened LineRoundTrip
  import opened Dispatch
  import opened RuleRoundTrip
  import opened NamedRoundTrip
  import opened NormalForm

  // ---- m= lines ----

  predicate MediaFields(m: Fields) {
    Plain(MEDIA, m) && All(Word(""), P(m, Type)) && All(Digit, P(m, Port)) && All(Digit, P(m, NumPorts))
    && All(Word("/"), P(m, Protocol)) && All(Dot, P(m, Payloads))
  }

  lemma ValueOfName(rule: Rule, o: Fields, i: nat)
    requires Plain(rule, o) && i < |rule.names|
    ensures HasValue(o, rule.names[i]) <==> P(o, rule.names[i]) != ""
  {
    PrintedNumber(o, rule.names[i]);
  }

  const MEDIA_REST := Hole(" ", S, Hole(" ", S, T))

  function MediaFormat(numPorts: bool): Format {
    Hole("", S, Hole(" ", D, if numPorts then Hole("/", D, MEDIA_REST) else Hole("", V, MEDIA_REST)))
  }

  lemma MediaFormatOf(m: Fields)
    ensures FormatOf(MEDIA, m) == MediaFormat(HasValue(m, NumPorts))
  {
    hide HasValue;
  }

  const PROTOCOL_RE := Lit(" ", Cap(Word("/"), Star, Opt(PAYLOADS, Done)))

  lemma MediaRestAgrees(m: Fields)
    requires MediaFields(m)
    ensures Agrees(MEDIA_REST, PROTOCOL_RE, m, MEDIA.names, 3) && " " <= Printed(MEDIA_REST, m, MEDIA.names, 3)
    ensures forall c :: !In(c, ' ') ==> Ends(c, MEDIA_REST, m, MEDIA.names, 3)
  {
    hide Match, Texts, Printed, Agrees, Filled, P, Plain, Ends;
    var n := MEDIA.names;
    AgreesAtEnd(m, n);
    assert !In(Word("/"), ' ');
    Field(" ", S, T, Dot, Star, Done, m, n, 4);
    ThenDone(PAYLOADS);
    Taken(Hole(" ", S, T), PAYLOADS, Done, m, n, 4);
    Field(" ", S, Hole(" ", S, T), Word("/"), Star, Opt(PAYLOADS, Done), m, n, 3);
  }

  lemma MediaHead(f: Format, m: Fields)
    requires MediaFields(m) && Agrees(f, Opt(NUM_PORTS, PROTOCOL_RE), m, MEDIA.names, 2) && Ends(Digit, f, m, MEDIA.names, 2)
    ensures Agrees(Hole("", S, Hole(" ", D, f)), MEDIA.re, m, MEDIA.names, 0)
  {
    hide Match, Texts, Printed, Agrees, Filled, P, Plain, Ends;
    assert !In(Word(""), ' ');
    Field(" ", D, f, Digit, Star, Opt(NUM_PORTS, PROTOCOL_RE), m, MEDIA.names, 1);
    Field("", S, Hole(" ", D, f), Word(""), Star, MEDIA.re.next, m, MEDIA.names, 0);
  }

  lemma PortsTaken(m: Fields)
    requires MediaFields(m)
    ensures Agrees(Hole("/", D, MEDIA_REST), Opt(NUM_PORTS, PROTOCOL_RE), m, MEDIA.names, 2)
    ensures Ends(Digit, Hole("/", D, MEDIA_REST), m, MEDIA.names, 2)
  {
    hide Match, Texts, Printed, Agrees, Filled, P, Plain, Ends;
    MediaRestAgrees(m);
    assert !In(Digit, ' ') && !In(Digit, '/');
    ThenLitCap("/", Digit, Star, PROTOCOL_RE);
    Field("/", D, MEDIA_REST, Digit, Star, PROTOCOL_RE, m, MEDIA.names, 2);
    Taken(Hole("/", D, MEDIA_REST), NUM_PORTS, PROTOCOL_RE, m, MEDIA.names, 2);
  }

  lemma PortsSkipped(m: Fields)
    requires MediaFields(m) && P(m, NumPorts) == ""
    ensures Agrees(Hole("", V, MEDIA_REST), Opt(NUM_PORTS, PROTOCOL_RE), m, MEDIA.names, 2)
    ensures Ends(Digit, Hole("", V, MEDIA_REST), m, MEDIA.names, 2)
  {
    hide Match, Texts, Printed, Agrees, Filled, P, Plain, Ends;
    MediaRestAgrees(m);
    assert MEDIA.names[2] == NumPorts && !In(Digit, ' ');
    Clash("/", " ", 0, Printed(MEDIA_REST, m, MEDIA.names, 3));
    SkippedVoids(MEDIA_REST, "/", NUM_PORTS, PROTOCOL_RE, m, MEDIA.names, 2);
    VoidEnds(MEDIA_REST, m, MEDIA.names, 2);
  }

  lemma MediaAgrees(m: Fields)
    requires MediaFields(m)
    ensures Agrees(FormatOf(MEDIA, m), MEDIA.re, m, MEDIA.names, 0)
  {
    hide Match, Texts, Printed, Agrees, Filled, P, Plain, Ends, HasValue, FormatOf, MediaFields;
    assert Plain(MEDIA, m) && MEDIA.names[2] == NumPorts by { MediaPlain(m); }
    ValueOfName(MEDIA, m, 2);
    MediaFormatOf(m);
    if HasValue(m, NumPorts) {
      PortsTaken(m);
      MediaHead(Hole("/", D, MEDIA_REST), m);
    } else {
      PortsSkipped(m);
      MediaHead(Hole("", V, MEDIA_REST), m);
    }
  }

  lemma MediaPlain(m: Fields)
    requires MediaFields(m)
    ensures Plain(MEDIA, m)
  {}

  /** Sections with the same members of the m= line print the same m= line. */
  lemma SameMediaLine(m: Fields, r: Fields)
    requires forall k <- MEDIA.names :: P(r, k) == P(m, k) && (HasValue(r, k) <==> HasValue(m, k))
    ensures Content(MEDIA, r) == Content(MEDIA, m)
  {
    hide FormatOf, P, HasValue, Printed, Content;
    assert MEDIA.names[2] == NumPorts && MEDIA.names[2] in MEDIA.names;
    MediaFormatOf(m);
    MediaFormatOf(r);
    ContentOfObject(MEDIA, m);
    ContentOfObject(MEDIA, r);
    PrintedSame(FormatOf(MEDIA, m), m, r, MEDIA.names, 0);
  }

  /** The section that the parser opens at an m= line. */
  function Opened(line: string): Fields
    requires Claims(MEDIA, line)
  {
    Attached(NEW_MEDIA, MEDIA, CapsOf(MEDIA, line))
  }

  /** The members of the m= line have values that their own texts read back as. */
  predicate CanonicalHead(m: Fields) {
    forall i :: 0 <= i < |MEDIA.names| && MEDIA.names[i] in m ==> Canonical(m[MEDIA.names[i]], MEDIA.types[i])
  }

  lemma AttachedCanonical(m: Fields)
    requires CanonicalHead(m)
    ensures var r := Attached(NEW_MEDIA, MEDIA, Texts(m, MEDIA.names, 0));
            forall k <- MEDIA.names :: (k in r <==> k in m) && (k in m ==> r[k] == m[k])
  {
    hide ToType, Print, Attach, Texts;
    MediaNames();
    AttachTexts(NEW_MEDIA, m, MEDIA.names, MEDIA.types, 0);
    var r := Attached(NEW_MEDIA, MEDIA, Texts(m, MEDIA.names, 0));
    forall k <- MEDIA.names ensures (k in r <==> k in m) && (k in m ==> r[k] == m[k]) {
      var j :| 0 <= j < |MEDIA.names| && MEDIA.names[j] == k;
    }
  }

  /**
    The m= line is read back as a section: every member of the line has its text again, and its
    value when the text determines it; nothing else is there but the two arrays of a new section.
   */
  lemma MediaLine(m: Fields)
    requires MediaFields(m)
    ensures Claims(MEDIA, Content(MEDIA, m)) && FirstClaim(Rules('m'), Content(MEDIA, m)) == Some(MEDIA)
    ensures var r := Opened(Content(MEDIA, m));
            (forall k <- MEDIA.names :: P(r, k) == P(m, k) && (HasValue(r, k) <==> HasValue(m, k)))
            && (forall k :: k !in MEDIA.names ==> (k in r <==> k in NEW_MEDIA) && (k in r ==> r[k] == NEW_MEDIA[k]))
            && (CanonicalHead(m) ==> forall k <- MEDIA.names :: (k in r <==> k in m) && (k in m ==> r[k] == m[k]))
  {
    hide FormatOf, P, HasValue, Printed, Content, Plain, Rules, Attached, Texts, Match, Distinct, CanonicalHead;
    if CanonicalHead(m) { AttachedCanonical(m); }
    MediaAgrees(m);
    ContentOfObject(MEDIA, m);
    MoreSingleRules();
    SingleRule('m', MEDIA, Content(MEDIA, m));
    MediaNames();
    AttachedPlain(MEDIA, NEW_MEDIA, m);
  }

  lemma MediaNames()
    ensures Distinct(MEDIA.names) && forall k <- MEDIA.names :: k !in NEW_MEDIA
  {}

  // ---- Whole sessions ----

  /** What the catch-all rule prints is not what a rule left out of the table would claim. */
  predicate Unclaimed(loc: Fields) {
    Invalid in loc && loc[Invalid].Arr? ==> forall e <- loc[Invalid].elems :: !ClaimedElsewhere(Content(INVALID, FieldsOf(e)))
  }

  ghost predicate StableLocation(order: string, loc: Fields) {
    Unclaimed(loc) && StableEntries(Entries(order), loc) && forall l <- LocationLines(order, loc) :: Clean(l) && l.kind != 'm'
  }

  ghost predicate StableMedia(m: Fields) {
    MediaFields(m) && '\n' !in Content(MEDIA, m) && StableLocation(INNER_ORDER, m)
  }

  /** Every line of the session keeps its text, and the lines that the printer insists on are there. */
  ghost predicate StableSession(s: Fields) {
    StableLocation(OUTER_ORDER, s) && Version in s && s[Version] != Null && Name in s && s[Name] != Null
    && Media in s && s[Media].Arr? && forall m <- s[Media].elems :: StableMedia(FieldsOf(m))
  }

  lemma ReadStable(order: string, es: seq<Entry>, loc: Fields, base: Fields)
    requires es == Entries(order) && Separate(es) && StableLocation(order, loc) && forall e <- es :: Fresh(e.rule, base)
    ensures HeldSoFar(es, |es|, loc, base, ReadAt(base, LocationLines(order, loc)))
  {
    hide RuleLines, Holds, Fresh, StableRule, ReadAt, Entries, Separate;
    LocationLinesAreEntryLines(order, loc);
    assert es[..|es|] == es;
    ReadEntries(es, |es|, loc, base);
  }

  /** Members that no rule of the location reads can change without changing its lines. */
  lemma SameLocationLines(order: string, es: seq<Entry>, loc: Fields, r: Fields, r': Fields, key: Key)
    requires es == Entries(order) && StableLocation(order, loc) && SameBut(key, r, r')
    requires Untouched(es, key)
    requires forall i :: 0 <= i < |es| ==> Holds(es[i].rule, RuleLines(es[i].kind, es[i].rule, loc), r)
    ensures LocationLines(order, r') == LocationLines(order, loc)
  {
    hide RuleLines, Holds, StableRule, Entries, SameBut;
    forall i | 0 <= i < |es| ensures Holds(es[i].rule, RuleLines(es[i].kind, es[i].rule, loc), r') {
      assert es[i] in es;
      HoldsFrame(es[i].rule, RuleLines(es[i].kind, es[i].rule, loc), key, r, r');
    }
    HeldLines(es, |es|, loc, r');
    assert es[..|es|] == es;
    LocationLinesAreEntryLines(order, loc);
    LocationLinesAreEntryLines(order, r');
  }

  // ---- The media sections ----

  /** The section that is read from the lines of `m`. */
  function Reread(m: Fields): Fields
    requires Claims(MEDIA, Content(MEDIA, m))
  {
    ReadAt(Opened(Content(MEDIA, m)), LocationLines(INNER_ORDER, m))
  }

  lemma ReadMediaLine(st: State, m: Fields)
    requires MediaFields(m)
    ensures Claims(MEDIA, Content(MEDIA, m))
    ensures ParseContent(st, 'm', Content(MEDIA, m)) == st.(media := st.media + [Opened(Content(MEDIA, m))])
  {
    hide FirstClaim, Rules, Content, Attached, Claims, CapsOf, MediaFields;
    MediaLine(m);
    var line := Content(MEDIA, m);
    var st' := st.(media := st.media + [NEW_MEDIA]);
    assert Store(MEDIA, NEW_MEDIA, CapsOf(MEDIA, line)) == Opened(line);
    assert st'.Location() == NEW_MEDIA;
    assert st'.media[|st'.media| - 1 := Opened(line)] == st.media + [Opened(line)];
  }

  lemma ReadSection(st: State, m: Fields)
    requires StableMedia(m)
    ensures Claims(MEDIA, Content(MEDIA, m))
    ensures ReadLines(st, [Line('m', Content(MEDIA, m))] + LocationLines(INNER_ORDER, m)) == st.(media := st.media + [Reread(m)])
  {
    hide ParseContent, LocationLines, ReadAt, MediaFields, Content, Claims, Opened, StableEntries;
    var head := [Line('m', Content(MEDIA, m))];
    ReadMediaLine(st, m);
    ReadLinesAppend(st, head, LocationLines(INNER_ORDER, m));
    assert head[..0] == [];
    assert ReadLines(st, head) == ParseContent(st, 'm', Content(MEDIA, m));
    var st' := ReadLines(st, head);
    ReadLocation(st', LocationLines(INNER_ORDER, m));
  }

  ghost predicate StableSections(media: seq<Json>) { forall i :: 0 <= i < |media| ==> StableMedia(FieldsOf(media[i])) }

  lemma SectionClaims(m: Fields)
    requires StableMedia(m)
    ensures Claims(MEDIA, Content(MEDIA, m))
  {
    hide Content, Claims, MediaFields, StableLocation;
    MediaLine(m);
  }

  /** All the sections that are read from the lines of `media`. */
  ghost function Rereads(media: seq<Json>): (rs: seq<Fields>)
    requires StableSections(media)
    ensures |rs| == |media|
  {
    if media == [] then []
    else
      var m := FieldsOf(media[|media| - 1]);
      SectionClaims(m);
      Rereads(media[..|media| - 1]) + [Reread(m)]
  }

  lemma {:induction false} RereadsAt(media: seq<Json>, i: nat)
    requires StableSections(media) && i < |media|
    ensures Claims(MEDIA, Content(MEDIA, FieldsOf(media[i])))
    ensures Rereads(media)[i] == Reread(FieldsOf(media[i]))
  {
    hide StableMedia, Reread, Claims, Content;
    SectionClaims(FieldsOf(media[i]));
    if i < |media| - 1 {
      RereadsAt(media[..|media| - 1], i);
    }
  }

  lemma {:induction false} ReadSections(st: State, media: seq<Json>)
    requires StableSections(media)
    ensures ReadLines(st, MediaLines(media)) == st.(media := st.media + Rereads(media))
  {
    hide LocationLines, StableMedia, Content, Claims, Reread, ParseContent;
    if media == [] {
      assert st.media + [] == st.media;
    } else {
      var front, m := media[..|media| - 1], FieldsOf(media[|media| - 1]);
      ReadSections(st, front);
      var st' := ReadLines(st, MediaLines(front));
      ReadSection(st', m);
      var lines := [Line('m', Content(MEDIA, m))] + LocationLines(INNER_ORDER, m);
      assert MediaLines(media) == MediaLines(front) + lines;
      ReadLinesAppend(st, MediaLines(front), lines);
    }
  }

  lemma InnerSeparated()
    ensures Entries(INNER_ORDER) == INNER + EntriesOf('a', ATTRIBUTES) && Separate(Entries(INNER_ORDER))
  {
    hide Separate, Entries, ATTRIBUTES, INNER;
    InnerEntries();
    InnerSeparate();
    WithAttributes(INNER);
  }

  lemma RereadHeld(m: Fields)
    requires StableMedia(m)
    ensures Claims(MEDIA, Content(MEDIA, m))
    ensures HeldSoFar(Entries(INNER_ORDER), |Entries(INNER_ORDER)|, m, Opened(Content(MEDIA, m)), Reread(m))
  {
    hide MediaFields, Content, Claims, Opened, StableLocation, ReadAt, LocationLines, Entries, P, HasValue, HeldSoFar,
      Separate, Fresh, ATTRIBUTES, INNER;
    MediaLine(m);
    InnerSeparated();
    InnerFresh(Opened(Content(MEDIA, m)));
    ReadStable(INNER_ORDER, Entries(INNER_ORDER), m, Opened(Content(MEDIA, m)));
  }

  /** A section that was read prints the same lines as the section it was read from. */
  lemma RereadLines(m: Fields)
    requires StableMedia(m)
    ensures Claims(MEDIA, Content(MEDIA, m))
    ensures var r := FieldsOf(WithPayloads(Obj(Reread(m))));
            Content(MEDIA, r) == Content(MEDIA, m) && LocationLines(INNER_ORDER, r) == LocationLines(INNER_ORDER, m)
  {
    hide MediaFields, Content, Claims, Holds, StableLocation, Reread, LocationLines, Entries, RuleLines, SameBut, HeldSoFar,
      ATTRIBUTES, INNER, WithPayloads;
    RereadHeld(m);
    RereadHead(m, Reread(m));
    var r := Reread(m);
    InnerSeparated();
    NotInner(Payloads);
    PayloadsAdded(r);
    HeldMeans(Entries(INNER_ORDER), m, Opened(Content(MEDIA, m)), r);
    SameLocationLines(INNER_ORDER, Entries(INNER_ORDER), m, r, FieldsOf(WithPayloads(Obj(r))), Payloads);
  }

  lemma HeldMeans(es: seq<Entry>, loc: Fields, base: Fields, r: Fields)
    requires HeldSoFar(es, |es|, loc, base, r)
    ensures forall i :: 0 <= i < |es| ==> Holds(es[i].rule, RuleLines(es[i].kind, es[i].rule, loc), r)
    ensures forall k :: Untouched(es, k) ==> (k in r <==> k in base) && (k in r ==> r[k] == base[k])
  {
    hide Holds, RuleLines, Untouched;
  }

  lemma RereadHead(m: Fields, r: Fields)
    requires MediaFields(m) && Claims(MEDIA, Content(MEDIA, m))
    requires HeldSoFar(Entries(INNER_ORDER), |Entries(INNER_ORDER)|, m, Opened(Content(MEDIA, m)), r)
    ensures Content(MEDIA, FieldsOf(WithPayloads(Obj(r)))) == Content(MEDIA, m)
  {
    hide MediaFields, Content, Claims, Opened, Holds, Entries, RuleLines, P, HasValue, HeldSoFar, ATTRIBUTES, INNER, WithPayloads;
    var base := Opened(Content(MEDIA, m));
    var r' := FieldsOf(WithPayloads(Obj(r)));
    MediaLine(m);
    InnerSeparated();
    HeldMeans(Entries(INNER_ORDER), m, base, r);
    forall k <- MEDIA.names ensures P(r', k) == P(m, k) && (HasValue(r', k) <==> HasValue(m, k)) {
      NotInner(k);
      SameMember(r, base, k);
      PayloadsKeep(r, k);
    }
    SameMediaLine(m, r');
  }

  lemma SameMember(r: Fields, base: Fields, k: Key)
    requires (k in r <==> k in base) && (k in r ==> r[k] == base[k])
    ensures P(r, k) == P(base, k) && (HasValue(r, k) <==> HasValue(base, k))
  {}

  lemma PayloadsAdded(r: Fields)
    ensures SameBut(Payloads, r, FieldsOf(WithPayloads(Obj(r))))
  {}

  lemma PayloadsKeep(r: Fields, k: Key)
    ensures var r' := FieldsOf(WithPayloads(Obj(r))); P(r', k) == P(r, k) && (HasValue(r', k) <==> HasValue(r, k))
  {}

  lemma InnerKey(i: nat, k: Key)
    requires i < 3 && k in MEDIA.names + [Rtp, Fmtp, Media]
    ensures |INNER| == 3 && INNER[i].rule.key != k
  {}

  lemma NoAttributePlace(k: Key)
    requires k in MEDIA.names || k == Media
    ensures Position(k) == 38
  {}

  /** No rule inside a section uses the members of the m= line. */
  lemma NotInner(k: Key)
    requires k in MEDIA.names
    ensures Untouched(INNER + EntriesOf('a', ATTRIBUTES), k)
  {
    hide ATTRIBUTES, Position, INNER;
    var es := INNER + EntriesOf('a', ATTRIBUTES);
    NoAttributePlace(k);
    InnerKey(0, k);
    Positions(0);
    forall i | 0 <= i < |es| ensures es[i].rule.key != k {
      if i < 3 { InnerKey(i, k); } else { Positions(i - 3); }
    }
  }

  lemma FreshKey(rule: Rule, base: Fields)
    requires forall k :: k !in MEDIA.names ==> (k in base <==> k in NEW_MEDIA) && (k in base ==> base[k] == NEW_MEDIA[k])
    requires rule.key !in MEDIA.names && (rule.key == Rtp || rule.key == Fmtp ==> rule.target.Pushed?)
    ensures Fresh(rule, base)
  {}

  lemma AttributeFresh(i: nat, base: Fields)
    requires i < 38 && |ATTRIBUTES| == 38
    requires forall k :: k !in MEDIA.names ==> (k in base <==> k in NEW_MEDIA) && (k in base ==> base[k] == NEW_MEDIA[k])
    ensures Fresh(ATTRIBUTES[i], base)
  {
    hide ATTRIBUTES, Position, Fresh;
    var rule := ATTRIBUTES[i];
    Positions(i);
    if rule.key in MEDIA.names { NoAttributePlace(rule.key); }
    RtpPlaces();
    if i < 2 { Places(); }
    FreshKey(rule, base);
  }

  lemma RtpPlaces()
    ensures Position(Rtp) == 0 && Position(Fmtp) == 1 && RTP.target.Pushed? && FMTP.target.Pushed?
  {}

  lemma InnerFresh(base: Fields)
    requires forall k :: k !in MEDIA.names ==> (k in base <==> k in NEW_MEDIA) && (k in base ==> base[k] == NEW_MEDIA[k])
    ensures forall e <- INNER + EntriesOf('a', ATTRIBUTES) :: Fresh(e.rule, base)
  {
    hide ATTRIBUTES, INNER, Fresh;
    var es := INNER + EntriesOf('a', ATTRIBUTES);
    Positions(0);
    InnerKey(0, Rtp);
    forall i | 0 <= i < |es| ensures Fresh(es[i].rule, base) {
      if i < 3 {
        var rule := INNER[i].rule;
        InnerKey(i, Rtp);
        InnerKey(i, Fmtp);
        if rule.key in MEDIA.names { InnerKey(i, rule.key); }
        FreshKey(rule, base);
      } else {
        AttributeFresh(i - 3, base);
      }
    }
  }

  // ---- The theorem ----

  lemma NotOuter()
    ensures Untouched(OUTER + EntriesOf('a', ATTRIBUTES), Media)
  {
    hide ATTRIBUTES, Position, OUTER;
    var es := OUTER + EntriesOf('a', ATTRIBUTES);
    NoAttributePlace(Media);
    Positions(0);
    OuterPlace(0);
    forall i | 0 <= i < |es| ensures es[i].rule.key != Media {
      if i < 12 { OuterNotMedia(i); } else { Positions(i - 12); }
    }
  }

  lemma OuterNotMedia(i: nat)
    requires i < 12
    ensures |OUTER| == 12 && OUTER[i].rule.key != Media
  {}

  /** The session's own lines are read back to the same lines; its version and name are there. */
  lemma RereadOuter(s: Fields, media: seq<Json>)
    requires StableSession(s)
    ensures var r := ReadAt(map[], LocationLines(OUTER_ORDER, s));
            LocationLines(OUTER_ORDER, r[Media := Arr(media)]) == LocationLines(OUTER_ORDER, s) && Version in r && Name in r
  {
    hide Holds, StableEntries, ReadAt, LocationLines, Entries, RuleLines, ATTRIBUTES, OUTER, StableMedia;
    var es := OUTER + EntriesOf('a', ATTRIBUTES);
    var r := ReadAt(map[], LocationLines(OUTER_ORDER, s));
    OuterEntries();
    OuterSeparate();
    WithAttributes(OUTER);
    ReadStable(OUTER_ORDER, es, s, map[]);
    NotOuter();
    assert SameBut(Media, r, r[Media := Arr(media)]);
    SameLocationLines(OUTER_ORDER, es, s, r, r[Media := Arr(media)], Media);
    FirstEntries();
    assert es[0] == Entry('v', VERSION) && es[2] == Entry('s', TextRule(Name));
    HeldIsThere('v', VERSION, s, r);
    HeldIsThere('s', TextRule(Name), s, r);
  }

  lemma FirstEntries()
    ensures |OUTER| == 12 && OUTER[0] == Entry('v', VERSION) && OUTER[2] == Entry('s', TextRule(Name))
  {}

  lemma HeldIsThere(t: char, rule: Rule, s: Fields, r: Fields)
    requires rule.target.Named? && rule.key in s && s[rule.key] != Null && Holds(rule, RuleLines(t, rule, s), r)
    ensures rule.key in r
  {
    hide Content, Claims;
  }

  lemma {:induction false} SameMediaLines(media: seq<Json>, media': seq<Json>)
    requires |media'| == |media|
    requires forall i :: 0 <= i < |media| ==>
      Content(MEDIA, FieldsOf(media'[i])) == Content(MEDIA, FieldsOf(media[i]))
      && LocationLines(INNER_ORDER, FieldsOf(media'[i])) == LocationLines(INNER_ORDER, FieldsOf(media[i]))
    ensures MediaLines(media') == MediaLines(media)
  {
    hide Content, LocationLines;
    if media != [] {
      SameMediaLines(media[..|media| - 1], media'[..|media| - 1]);
    }
  }

  lemma {:induction false} MediaLinesClean(media: seq<Json>)
    requires StableSections(media)
    ensures forall l <- MediaLines(media) :: Clean(l)
  {
    hide LocationLines, Content, MediaFields, StableEntries;
    if media != [] {
      MediaLinesClean(media[..|media| - 1]);
    }
  }

  /** What parsing the printed session yields. */
  lemma ParsedSession(s: Fields)
    requires StableSession(s)
    ensures Parsed(Writer.Text(SessionLines(s)))
         == Linked(State(ReadAt(map[], LocationLines(OUTER_ORDER, s)), Rereads(s[Media].elems)))
  {
    hide LocationLines, MediaLines, StableMedia, ReadAt, ReadLines, ParseLines, Tokens, Linked, Rereads, StableEntries;
    var lines, media := LocationLines(OUTER_ORDER, s), s[Media].elems;
    MediaLinesClean(media);
    ParseOfText(State(map[], []), SessionLines(s));
    ReadLinesAppend(State(map[], []), lines, MediaLines(media));
    ReadLocation(State(map[], []), lines);
    ReadSections(State(ReadAt(map[], lines), []), media);
    assert [] + Rereads(media) == Rereads(media);
  }

  lemma RereadMedia(media: seq<Json>)
    requires StableSections(media)
    ensures var rs := Rereads(media);
            MediaLines(seq(|rs|, i requires 0 <= i < |rs| => WithPayloads(Obj(rs[i])))) == MediaLines(media)
  {
    hide LocationLines, StableMedia, Rereads, Reread, Content, Claims, MediaLines, WithPayloads;
    var rs := Rereads(media);
    var media' := seq(|rs|, i requires 0 <= i < |rs| => WithPayloads(Obj(rs[i])));
    forall i | 0 <= i < |media|
      ensures Content(MEDIA, FieldsOf(media'[i])) == Content(MEDIA, FieldsOf(media[i]))
      ensures LocationLines(INNER_ORDER, FieldsOf(media'[i])) == LocationLines(INNER_ORDER, FieldsOf(media[i]))
    {
      RereadsAt(media, i);
      RereadLines(FieldsOf(media[i]));
    }
    SameMediaLines(media, media');
  }

  lemma DefaultsOfLinked(r: Fields, rs: seq<Fields>)
    requires Version in r && Name in r
    ensures Defaults(Linked(State(r, rs))) == r[Media := Arr(seq(|rs|, i requires 0 <= i < |rs| => WithPayloads(Obj(rs[i]))))]
  {
    hide WithPayloads;
    var p := Linked(State(r, rs));
    assert p[Media] == Arr(seq(|rs|, i requires 0 <= i < |rs| => Obj(rs[i])));
    var media := MediaOf(p);
    assert |media| == |rs| && forall i :: 0 <= i < |rs| ==> media[i] == Obj(rs[i]);
    assert seq(|media|, i requires 0 <= i < |media| => WithPayloads(media[i]))
        == seq(|rs|, i requires 0 <= i < |rs| => WithPayloads(Obj(rs[i])));
  }

  /**
    Printing is a normal form. A session whose completed lines keep their text, one by one, is
    printed, parsed and printed again as the same text, although the members of the parsed session
    can have other JSON types.
   */
  lemma PrintIsNormalForm(session: Fields)
    requires StableSession(Defaults(session))
    ensures Written(Parsed(Written(session))) == Written(session)
  {
    hide LocationLines, MediaLines, StableMedia, ReadAt, StableLocation, Rereads, Parsed, Linked, Defaults, Writer.Text, WithPayloads;
    var s := Defaults(session);
    var rs := Rereads(s[Media].elems);
    var r := ReadAt(map[], LocationLines(OUTER_ORDER, s));
    var media' := seq(|rs|, i requires 0 <= i < |rs| => WithPayloads(Obj(rs[i])));
    ParsedSession(s);
    RereadOuter(s, media');
    DefaultsOfLinked(r, rs);
    RereadMedia(s[Media].elems);
  }
}
