/** Every session description that is printed over a run is in normal form. */
module SdpNormalForm {
  import opened Prelude
  import opened Regex
  import opened Text
  import opened Json
  import opened Grammar
  import opened Writer
  import opened LineRoundTrip
  import opened RuleRoundTrip
  import opened NamedRoundTrip
  import opened WellFormedness
  import opened RtpParams
  import opened Sections
  import opened MediaObjects
  import opened SdpState
  import opened SdpRuns

  predicate FingerprintFits(f: CertFingerprintType) {
    All(NonSpace, f.algorithm) && f.algorithm != "" && All(NonSpace, f.value) && f.value != ""
  }

  type CertFingerprintType = RtpParams.Fingerprint

  predicate IceFits(ice: IceParameters) { All(NonSpace, ice.usernameFragment) && All(NonSpace, ice.password) }

  predicate TransportIsFit(t: Transport) { TransportFits(t.ice, t.candidates) && FingerprintFits(t.fingerprint) }

  /** What a step brings in has the form that its lines need. */
  predicate StepFits(step: Step) {
    match step
    case Send(offer, answer, options) => OfferMediaFits(offer) && ParametersFit(answer)
    case SendData(offer) => OfferMediaFits(offer)
    case Receive(mid, kind, params, streamId, trackId) =>
      All(Word(""), kind) && ParametersFit(params) && SourceFits(params.cname, streamId + " " + trackId)
    case SetIce(ice) => IceFits(ice)
    case _ => true
  }

  /** All sections and all copies are well formed. */
  ghost predicate AllFit(st: State) {
    TransportIsFit(st.transport) && (forall s <- st.sections :: WellFormed(s.fields)) && forall m <- st.media :: WellFormed(m)
  }

  lemma PlaceFits(st: State, s: Section)
    requires Inv(st) && AllFit(st) && Identified(s.fields) && WellFormed(s.fields)
    ensures AllFit(Place(st, s)) && AllFit(Add(st, s))
  {
    hide Bundled, IsClosed, MidFits, MidOf, Disabled, WellFormed, TransportIsFit, OpenMids;
  }

  lemma ChangeFits(st: State, mid: string)
    requires Inv(st) && AllFit(st) && mid in st.midToIndex
    ensures AllFit(DisableSection(st, mid)) && AllFit(CloseSection(st, mid))
  {
    hide Bundled, IsClosed, MidFits, MidOf, Disabled, Closed, WellFormed, TransportIsFit, OpenMids;
    var idx := st.midToIndex[mid];
    assert st.sections[idx] in st.sections;
    ClosedFits(st.sections[idx].fields);
  }

  lemma IceUpdateFits(st: State, ice: IceParameters)
    requires AllFit(st) && IceFits(ice)
    ensures AllFit(UpdateIce(st, ice))
  {
    hide WellFormed, WithIce, All, CandidateFits;
    var st' := UpdateIce(st, ice);
    forall i | 0 <= i < |st.sections| ensures WellFormed(st'.sections[i].fields) {
      assert st.sections[i] in st.sections;
      WithIceFits(st.sections[i].fields, ice);
    }
  }

  lemma RoleUpdateFits(st: State, role: string)
    requires AllFit(st)
    ensures AllFit(UpdateRole(st, role))
  {
    hide WellFormed, WithRole, All, CandidateFits;
    var st' := UpdateRole(st, role);
    forall i | 0 <= i < |st.sections| ensures WellFormed(st'.sections[i].fields) {
      assert st.sections[i] in st.sections;
      WithRoleFits(st.sections[i].offer, st.sections[i].fields, role);
    }
  }

  lemma NoParametersFit()
    ensures ParametersFit(NO_PARAMETERS) && SourceFits(None, "" + " " + "") && All(Word(""), "application") && MidFits("datachannel")
  {}

  lemma SectionsFit(t: Transport, step: Step)
    requires TransportIsFit(t) && StepFits(step)
    ensures step.Send? && MidFits(step.offer.mid) ==> WellFormed(AnswerSection(t, step.offer, step.answer, step.options).fields)
    ensures step.SendData? && MidFits(step.offer.mid) ==> WellFormed(AnswerSection(t, step.offer, NO_PARAMETERS, None).fields)
    ensures step.Receive? && MidFits(step.mid) && IsMedia(step.kind) && step.params.encodings != [] ==>
              WellFormed(OfferSection(t, step.mid, step.kind, step.params, step.streamId, step.trackId).fields)
    ensures WellFormed(DataOfferSection(t).fields)
  {
    hide WellFormed, TransportFits, OfferMediaFits, ParametersFit, SourceFits, All, MidFits, Identified, AnswerObject, OfferObject;
    NoParametersFit();
    if step.Send? && MidFits(step.offer.mid) {
      AnswerFits(t.ice, t.candidates, t.role, t.sctp, step.offer, step.answer, step.options);
    }
    if step.SendData? && MidFits(step.offer.mid) {
      AnswerFits(t.ice, t.candidates, t.role, t.sctp, step.offer, NO_PARAMETERS, None);
    }
    if step.Receive? && MidFits(step.mid) && IsMedia(step.kind) && step.params.encodings != [] {
      OfferFits(t.ice, t.candidates, None, step.mid, step.kind, step.params, step.streamId, step.trackId);
    }
    OfferFits(t.ice, t.candidates, Some(t.sctp), "datachannel", "application", NO_PARAMETERS, "", "");
  }

  lemma TransportOf(st: State)
    requires AllFit(st)
    ensures TransportIsFit(st.transport)
  {}

  lemma SendFits(st: State, step: Step)
    requires Inv(st) && Allowed(st, step) && AllFit(st) && StepFits(step) && (step.Send? || step.SendData?)
    ensures AllFit(Next(st, step))
  {
    IndexedMeans(st);
    TransportOf(st);
    hide Inv, AllFit, AnswerSection, OfferSection, DataOfferSection, Add, Place, Good, MidFits, MidOf, IsClosed, WellFormed,
      TransportIsFit, OfferMediaFits, ParametersFit, SourceFits, All, FirstClosed;
    SectionsFit(st.transport, step);
    var s := if step.Send? then AnswerSection(st.transport, step.offer, step.answer, step.options)
             else AnswerSection(st.transport, step.offer, NO_PARAMETERS, None);
    AnswerIsGood(st.transport, step.offer, if step.Send? then step.answer else NO_PARAMETERS, if step.Send? then step.options else None);
    GoodMeans(s);
    PlaceFits(st, s);
  }

  lemma ReceiveFits(st: State, step: Step)
    requires Inv(st) && Allowed(st, step) && AllFit(st) && StepFits(step) && (step.Receive? || step.ReceiveData?)
    ensures AllFit(Next(st, step))
  {
    IndexedMeans(st);
    TransportOf(st);
    hide Inv, AllFit, AnswerSection, OfferSection, DataOfferSection, Add, Place, Good, MidFits, MidOf, IsClosed, WellFormed,
      TransportIsFit, OfferMediaFits, ParametersFit, SourceFits, All, FirstClosed;
    SectionsFit(st.transport, step);
    if step.Receive? {
      OfferIsGood(st.transport, step.mid, step.kind, step.params, step.streamId, step.trackId);
      GoodMeans(OfferSection(st.transport, step.mid, step.kind, step.params, step.streamId, step.trackId));
      PlaceFits(st, OfferSection(st.transport, step.mid, step.kind, step.params, step.streamId, step.trackId));
    } else {
      DataIsGood(st.transport);
      GoodMeans(DataOfferSection(st.transport));
      PlaceFits(st, DataOfferSection(st.transport));
    }
  }

  lemma PrintFits(st: State)
    requires Inv(st) && AllFit(st)
    ensures AllFit(SdpState.Printed(st))
  {
    PrintInv(st);
    hide Inv, WellFormed, TransportIsFit;
    assert SdpState.Printed(st).transport == st.transport;
  }

  lemma NextFits(st: State, step: Step)
    requires Inv(st) && Allowed(st, step) && AllFit(st) && StepFits(step)
    ensures AllFit(Next(st, step))
  {
    hide Inv, Allowed, AllFit, StepFits, Next;
    if step.Send? || step.SendData? { SendFits(st, step); }
    else if step.Receive? || step.ReceiveData? { ReceiveFits(st, step); }
    else { OtherFits(st, step); }
  }

  lemma OtherFits(st: State, step: Step)
    requires Inv(st) && Allowed(st, step) && AllFit(st) && StepFits(step)
    requires !step.Send? && !step.SendData? && !step.Receive? && !step.ReceiveData?
    ensures AllFit(Next(st, step))
  {
    hide Inv, AllFit, DisableSection, CloseSection, UpdateIce, UpdateRole, SdpState.Printed, IceFits;
    match step
    case Disable(mid) => ChangeFits(st, mid);
    case Close(mid) => ChangeFits(st, mid);
    case SetIce(ice) => IceUpdateFits(st, ice);
    case SetRole(role) => RoleUpdateFits(st, role);
    case GetSdp => PrintFits(st);
  }

  /** Over a run with fitting inputs, every section and copy stays well formed. */
  lemma {:induction false} RunFits(t: Transport, steps: seq<Step>)
    requires TransportIsFit(t) && (forall step <- steps :: StepFits(step)) && After(t, steps).Some?
    ensures AllFit(After(t, steps).value)
  {
    hide Next, Inv, Allowed, TransportIsFit, WellFormed, StepFits;
    if steps != [] {
      var front := steps[..|steps| - 1];
      assert steps[|steps| - 1] in steps && forall step <- front :: step in steps;
      RunFits(t, front);
      NextFits(After(t, front).value, steps[|steps| - 1]);
    }
  }

  // ---- The session around the sections ----

  const TIMING_OBJECT: Fields := map[Start := Num(0), Stop := Num(0)]

  function OriginObject(version: nat): Fields {
    map[Address := Str("0.0.0.0"), IpVer := Num(4), NetType := Str("IN"), SessionId := Num(10000),
        SessionVersion := Num(version), Username := Str("libmediasoupclient")]
  }

  lemma OriginTexts(version: nat)
    ensures var o := OriginObject(version);
            P(o, Address) == "0.0.0.0" && P(o, IpVer) == Dec(4) && P(o, NetType) == "IN" && P(o, SessionId) == Dec(10000)
            && P(o, SessionVersion) == Dec(version) && P(o, Username) == "libmediasoupclient"
  {
    hide Dec;
  }

  lemma OriginMembers(version: nat)
    requires version <= MAX_INT64
    ensures Members(ORIGIN, OriginObject(version))
  {
    hide Dec, Print, StableText;
    NumberIsCanonical(4);
    NumberIsCanonical(10000);
    NumberIsCanonical(version);
    AnyText("0.0.0.0");
    AnyText("IN");
    AnyText("libmediasoupclient");
  }

  lemma OriginClasses()
    ensures All(NonSpace, "0.0.0.0") && All(NonSpace, "IN") && All(NonSpace, "libmediasoupclient") && Dec(4) == "4"
  {}

  lemma OriginComplete(version: nat)
    requires version <= MAX_INT64
    ensures OriginFields(OriginObject(version))
  {
    hide Dec, Print, StableText, P, Members, OriginObject, All;
    OriginMembers(version);
    OriginTexts(version);
    OriginClasses();
    NumberIsCanonical(4);
    NumberIsCanonical(10000);
    NumberIsCanonical(version);
    OriginHas(version);
  }

  lemma OriginHas(version: nat)
    ensures forall k <- ORIGIN.names :: k in OriginObject(version)
  {}

  lemma TimingComplete()
    ensures TimingFields(TIMING_OBJECT)
  {
    hide StableText;
    NumberIsCanonical(0);
  }

  lemma SemanticFits()
    ensures MemberFits(MsidSemantic, Obj(map[Semantic := Str("WMS"), Token := Str("*")]))
  {
    hide StableText;
    AnyText("WMS");
    AnyText("*");
  }

  lemma FingerprintMember(f: CertFingerprintType)
    requires FingerprintFits(f)
    ensures MemberFits(Key.Fingerprint, Obj(map[Type := Str(f.algorithm), Hash := Str(f.value)]))
  {
    hide StableText, All;
    AnyText(f.algorithm);
    AnyText(f.value);
  }

  lemma BundleElement(bundle: string)
    requires All(Dot, bundle)
    ensures MemberFits(Groups, Arr([Obj(map[Type := Str("BUNDLE"), Mids := Str(bundle)])]))
  {
    hide StableText;
    AnyText("BUNDLE");
    AnyText(bundle);
  }

  lemma BundleIsDot(st: State)
    requires Inv(st)
    ensures All(Dot, st.bundle)
  {
    hide OpenMids, Join, Mirrored, Anchored;
    OpenMidsAreMids(st.sections);
    forall mid | mid in OpenMids(st.sections) ensures All(Dot, mid) {
      assert MidFits(mid);
    }
    JoinIsDot(OpenMids(st.sections), ' ');
  }

  lemma IceliteFits()
    ensures MemberFits(Icelite, Str("ice-lite"))
  {}

  const SEMANTIC := Obj(map[Semantic := Str("WMS"), Token := Str("*")])

  function FingerprintOf(st: State): Json {
    Obj(map[Type := Str(st.transport.fingerprint.algorithm), Hash := Str(st.transport.fingerprint.value)])
  }

  function GroupsOf(st: State): Json { Arr([Obj(map[Type := Str("BUNDLE"), Mids := Str(st.bundle)])]) }

  lemma SdpObjectMembers(st: State)
    ensures var s := SdpObject(st);
            s.Keys <= {Version, Origin, Name, Timing, Media, MsidSemantic, Key.Fingerprint, Groups, Icelite}
            && {Version, Origin, Name, Timing, Media, MsidSemantic, Key.Fingerprint, Groups} <= s.Keys
            && s[Version] == Num(0) && s[Name] == Str("-") && s[Origin] == Obj(OriginObject(st.sessionVersion))
            && s[Timing] == Obj(TIMING_OBJECT) && s[MsidSemantic] == SEMANTIC && s[Key.Fingerprint] == FingerprintOf(st)
            && s[Groups] == GroupsOf(st) && (Icelite in s ==> s[Icelite] == Str("ice-lite"))
            && s[Media] == Arr(seq(|st.media|, i requires 0 <= i < |st.media| => Obj(st.media[i])))
  {}

  /** The members that have rules of their own. */
  lemma KeyFits(st: State, s: Fields, k: Key)
    requires All(Dot, st.bundle) && FingerprintFits(st.transport.fingerprint)
    requires s.Keys <= {Version, Origin, Name, Timing, Media, MsidSemantic, Key.Fingerprint, Groups, Icelite} && k in s
    requires MsidSemantic in s ==> s[MsidSemantic] == SEMANTIC
    requires Key.Fingerprint in s ==> s[Key.Fingerprint] == FingerprintOf(st)
    requires Groups in s ==> s[Groups] == GroupsOf(st)
    requires Icelite in s ==> s[Icelite] == Str("ice-lite")
    ensures SessionKey(k) && (OwnLine(k) || MemberFits(k, s[k]))
  {
    hide MemberFits, FingerprintFits, All, SEMANTIC;
    if k == MsidSemantic { SemanticMember(); }
    else if k == Key.Fingerprint { FingerprintMember(st.transport.fingerprint); }
    else if k == Groups { BundleElement(st.bundle); }
    else if k == Icelite { IceliteFits(); }
  }

  lemma SemanticMember()
    ensures MemberFits(MsidSemantic, SEMANTIC)
  {
    SemanticFits();
  }

  lemma FingerprintIsFit(st: State)
    requires AllFit(st)
    ensures FingerprintFits(st.transport.fingerprint)
  {}

  lemma CopiesFit(st: State)
    requires AllFit(st)
    ensures forall m <- seq(|st.media|, i requires 0 <= i < |st.media| => Obj(st.media[i])) :: WellFormed(FieldsOf(m))
  {
    hide WellFormed, TransportIsFit;
    var elems := seq(|st.media|, i requires 0 <= i < |st.media| => Obj(st.media[i]));
    forall m | m in elems ensures WellFormed(FieldsOf(m)) {
      var i :| 0 <= i < |st.media| && m == Obj(st.media[i]);
      assert st.media[i] in st.media;
    }
  }

  lemma SmallVersion(st: State)
    requires Inv(st)
    ensures st.sessionVersion <= MAX_INT64
  {}

  /** The session that is printed is well formed. */
  lemma SessionFits(st: State)
    requires Inv(st) && AllFit(st)
    ensures WellFormedSession(SdpObject(st))
  {
    hide Inv, AllFit, MemberFits, OriginFields, TimingFields, WellFormed, SessionKey, OwnLine, SdpObject, OriginObject,
      FingerprintFits, All,
      FingerprintOf, GroupsOf, SEMANTIC;
    SmallVersion(st);
    BundleIsDot(st);
    FingerprintIsFit(st);
    CopiesFit(st);
    OriginComplete(st.sessionVersion);
    TimingComplete();
    SdpObjectMembers(st);
    forall k | k in SdpObject(st).Keys ensures SessionKey(k) && (OwnLine(k) || MemberFits(k, SdpObject(st)[k])) {
      KeyFits(st, SdpObject(st), k);
    }
  }

  /** Whatever a run prints is parsed and printed again as the same text. */
  lemma EverySdpIsNormal(t: Transport, steps: seq<Step>)
    requires TransportIsFit(t) && (forall step <- steps :: StepFits(step)) && After(t, steps).Some?
    ensures var sdp := Written(SdpObject(After(t, steps).value)); Written(Parser.Parsed(sdp)) == sdp
  {
    hide Next, Inv, Allowed, AllFit, WellFormedSession, SdpObject, Written, TransportIsFit, StepFits, After;
    RunFits(t, steps);
    SessionFits(After(t, steps).value);
    WellFormedPrints(SdpObject(After(t, steps).value));
  }
}
