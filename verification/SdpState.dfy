/**
  The remote session description as a state machine (mssdk/sdputil/RemoteSdp.cpp). The state
  keeps four views of the same media sections: the sections themselves, the index of each mid, a
  copy of each section's object for printing, and the mids of the BUNDLE group.
 */
module SdpState {
  import opened Prelude
  import opened Text
  import opened Json
  import opened Writer
  import opened RtpParams
  import opened Sections
  import opened MediaObjects

  /** A media section: an offer or an answer, and its object. */
  datatype Section = Section(offer: bool, fields: Fields)

  /** The parameters of the transport. */
  datatype Transport = Transport(
    ice: IceParameters, candidates: seq<IceCandidate>, role: string, fingerprint: Fingerprint, sctp: SctpParameters)

  datatype State = State(
    transport: Transport,
    sections: seq<Section>,
    midToIndex: map<string, nat>,
    firstMid: string,
    media: seq<Fields>,        // sdpObject["media"]
    bundle: string,            // sdpObject["groups"][0]["mids"]
    sessionVersion: nat,       // sdpObject["origin"]["sessionVersion"]
    icelite: bool)             // whether sdpObject has "icelite"

  function Initial(transport: Transport): State {
    State(transport, [], map[], "", [], "", 0, transport.ice.iceLite)
  }

  /** The session that is printed. */
  function SdpObject(st: State): Fields {
    var session := map[
      Version := Num(0),
      Origin := Obj(map[Address := Str("0.0.0.0"), IpVer := Num(4), NetType := Str("IN"), SessionId := Num(10000),
                        SessionVersion := Num(st.sessionVersion), Username := Str("libmediasoupclient")]),
      Name := Str("-"),
      Timing := Obj(map[Start := Num(0), Stop := Num(0)]),
      Media := Arr(seq(|st.media|, i requires 0 <= i < |st.media| => Obj(st.media[i]))),
      MsidSemantic := Obj(map[Semantic := Str("WMS"), Token := Str("*")]),
      Key.Fingerprint := Obj(map[Type := Str(st.transport.fingerprint.algorithm), Hash := Str(st.transport.fingerprint.value)]),
      Groups := Arr([Obj(map[Type := Str("BUNDLE"), Mids := Str(st.bundle)])])];
    if st.icelite then session[Icelite := Str("ice-lite")] else session
  }

  // ---- The mids of the open sections ----

  function OpenMids(sections: seq<Section>): seq<string>
    requires AllIdentified(sections)
  {
    if sections == [] then []
    else
      var last := sections[|sections| - 1].fields;
      OpenMids(sections[..|sections| - 1]) + if IsClosed(last) then [] else [MidOf(last)]
  }

  predicate AllIdentified(sections: seq<Section>) { forall i :: 0 <= i < |sections| ==> Identified(sections[i].fields) }

  function MidAt(st: State, i: nat): string
    requires i < |st.sections| && Identified(st.sections[i].fields)
  {
    MidOf(st.sections[i].fields)
  }

  predicate ClosedAt(st: State, i: nat)
    requires i < |st.sections|
  {
    IsClosed(st.sections[i].fields)
  }

  function Bundled(sections: seq<Section>): string
    requires AllIdentified(sections)
  {
    Join(OpenMids(sections), ' ')
  }

  /** The first closed section, or the number of sections. */
  function FirstClosed(sections: seq<Section>): (n: nat)
    ensures n <= |sections| && (n < |sections| ==> IsClosed(sections[n].fields))
    ensures forall i :: 0 <= i < n ==> !IsClosed(sections[i].fields)
  {
    if sections == [] || IsClosed(sections[0].fields) then 0 else 1 + FirstClosed(sections[1..])
  }

  // ---- Steps ----

  /** std::map's operator[]: a mid that is not there is inserted with index 0. */
  function Looked(midToIndex: map<string, nat>, mid: string): map<string, nat> {
    if mid in midToIndex then midToIndex else midToIndex[mid := 0]
  }

  function Add(st: State, s: Section): State
    requires AllIdentified(st.sections) && Identified(s.fields)
  {
    var mid := MidOf(s.fields);
    var sections := st.sections + [s];
    st.(firstMid := if st.firstMid == "" then mid else st.firstMid,
        sections := sections,
        midToIndex := st.midToIndex[mid := |st.sections|],
        media := st.media + [s.fields],
        bundle := Bundled(sections))
  }

  function Replace(st: State, s: Section, reuseMid: string): State
    requires AllIdentified(st.sections) && Identified(s.fields)
    requires Looked(st.midToIndex, reuseMid)[reuseMid] < |st.sections| == |st.media|
  {
    var looked := Looked(st.midToIndex, reuseMid);
    var idx := looked[reuseMid];
    var sections := st.sections[idx := s];
    st.(sections := sections,
        midToIndex := (looked - {MidAt(st, idx)})[MidOf(s.fields) := idx],
        media := st.media[idx := s.fields],
        bundle := Bundled(sections))
  }

  /** A new section takes the place of the first closed one, if there is one. */
  function Place(st: State, s: Section): State
    requires AllIdentified(st.sections) && Identified(s.fields) && |st.media| == |st.sections|
    requires forall i :: 0 <= i < |st.sections| ==> MidAt(st, i) in st.midToIndex && st.midToIndex[MidAt(st, i)] == i
  {
    var idx := FirstClosed(st.sections);
    if idx < |st.sections| then Replace(st, s, MidAt(st, idx)) else Add(st, s)
  }

  predicate InRange(st: State, mid: string) { Looked(st.midToIndex, mid)[mid] < |st.sections| == |st.media| }

  function DisableSection(st: State, mid: string): State
    requires InRange(st, mid)
  {
    var looked := Looked(st.midToIndex, mid);
    var idx := looked[mid];
    st.(sections := st.sections[idx := st.sections[idx].(fields := Disabled(st.sections[idx].fields))], midToIndex := looked)
  }

  /** The object of a closed section; the first section is only disabled. */
  function CloseObject(st: State, mid: string, m: Fields): Fields { if mid == st.firstMid then Disabled(m) else Closed(m) }

  lemma ChangedIdentified(m: Fields)
    requires Identified(m)
    ensures Identified(Disabled(m)) && MidOf(Disabled(m)) == MidOf(m) && (IsClosed(Disabled(m)) <==> IsClosed(m))
    ensures Identified(Closed(m)) && MidOf(Closed(m)) == MidOf(m) && IsClosed(Closed(m))
    ensures Disabled(Disabled(m)) == Disabled(m)
  {
    hide MidFits;
  }

  function CloseSection(st: State, mid: string): State
    requires AllIdentified(st.sections) && InRange(st, mid)
  {
    var looked := Looked(st.midToIndex, mid);
    var idx := looked[mid];
    ChangedIdentified(st.sections[idx].fields);
    var fields := CloseObject(st, mid, st.sections[idx].fields);
    var sections := st.sections[idx := st.sections[idx].(fields := fields)];
    st.(sections := sections, midToIndex := looked, media := st.media[idx := fields], bundle := Bundled(sections))
  }

  function WithIceAll(sections: seq<Section>, ice: IceParameters): seq<Section> {
    seq(|sections|, i requires 0 <= i < |sections| => sections[i].(fields := WithIce(sections[i].fields, ice)))
  }

  function WithRoleAll(sections: seq<Section>, role: string): seq<Section> {
    seq(|sections|, i requires 0 <= i < |sections| => sections[i].(fields := WithRole(sections[i].offer, sections[i].fields, role)))
  }

  function Objects(sections: seq<Section>): seq<Fields> { seq(|sections|, i requires 0 <= i < |sections| => sections[i].fields) }

  function UpdateIce(st: State, ice: IceParameters): State {
    var sections := WithIceAll(st.sections, ice);
    st.(transport := st.transport.(ice := ice), icelite := st.icelite || ice.iceLite, sections := sections, media := Objects(sections))
  }

  function UpdateRole(st: State, role: string): State {
    var sections := WithRoleAll(st.sections, role);
    st.(transport := st.transport.(role := role), icelite := st.icelite || st.transport.ice.iceLite,
        sections := sections, media := Objects(sections))
  }

  function CompletedAll(media: seq<Fields>): seq<Fields> {
    seq(|media|, i requires 0 <= i < |media| => FieldsOf(WithPayloads(Obj(media[i]))))
  }

  /** Printing first counts the version up, as an unsigned 32-bit number, and fills in missing payloads. */
  function Printed(st: State): State {
    st.(sessionVersion := (st.sessionVersion + 1) % TWO_32, media := CompletedAll(st.media))
  }

  /** What the application can do with the session. */
  datatype Step =
    | Send(offer: OfferMedia, answer: RtpParameters, options: Option<CodecOptions>)
    | SendData(offer: OfferMedia)
    | Receive(mid: string, kind: string, params: RtpParameters, streamId: string, trackId: string)
    | ReceiveData
    | Disable(mid: string)
    | Close(mid: string)
    | SetIce(ice: IceParameters)
    | SetRole(role: string)
    | GetSdp

  const NO_PARAMETERS := RtpParameters([], [], [], None)

  function AnswerSection(t: Transport, offer: OfferMedia, answer: RtpParameters, options: Option<CodecOptions>): Section {
    Section(false, AnswerObject(t.ice, t.candidates, t.role, t.sctp, offer, answer, options))
  }

  function OfferSection(t: Transport, mid: string, kind: string, params: RtpParameters, streamId: string, trackId: string): Section
    requires params.encodings != []
    requires IsMedia(kind)
  {
    Section(true, OfferObject(t.ice, t.candidates, None, mid, kind, params, streamId, trackId))
  }

  function DataOfferSection(t: Transport): Section {
    Section(true, OfferObject(t.ice, t.candidates, Some(t.sctp), "datachannel", "application", NO_PARAMETERS, "", ""))
  }

  /** A mid for a new section: a good one that is not in use. */
  predicate Fresh(st: State, mid: string) { MidFits(mid) && mid !in st.midToIndex }

  /** What the code relies on in each step; the mid of a sent section may also be the one it replaces. */
  predicate Allowed(st: State, step: Step)
    requires AllIdentified(st.sections)
  {
    match step
    case Send(offer, answer, options) =>
      IsMedia(offer.kind) && MidFits(offer.mid)
      && (offer.mid !in st.midToIndex
          || (FirstClosed(st.sections) < |st.sections| && offer.mid == MidAt(st, FirstClosed(st.sections))))
    case SendData(offer) => offer.kind == "application" && Fresh(st, offer.mid)
    case Receive(mid, kind, params, _, _) => IsMedia(kind) && params.encodings != [] && Fresh(st, mid)
    case ReceiveData => Fresh(st, "datachannel")
    case Disable(mid) => mid in st.midToIndex
    case Close(mid) => mid in st.midToIndex
    case _ => true
  }

  // ---- The invariant ----

  /** The index of the mids is the inverse of the sections. */
  predicate Indexed(st: State) {
    AllIdentified(st.sections)
    && (forall i :: 0 <= i < |st.sections| ==> MidAt(st, i) in st.midToIndex && st.midToIndex[MidAt(st, i)] == i)
    && forall mid <- st.midToIndex.Keys :: st.midToIndex[mid] < |st.sections| && MidAt(st, st.midToIndex[mid]) == mid
  }

  /** The first section carries the first mid and is open. */
  predicate Anchored(st: State)
    requires AllIdentified(st.sections)
  {
    if st.sections == [] then st.firstMid == "" else st.firstMid == MidAt(st, 0) && !ClosedAt(st, 0)
  }

  /** The printed copies are the sections' objects, except that a disabled section may not be copied yet. */
  predicate Mirrored(st: State) {
    |st.media| == |st.sections|
    && forall i :: 0 <= i < |st.sections| ==>
         st.media[i] == st.sections[i].fields || Disabled(st.media[i]) == st.sections[i].fields
  }

  predicate Inv(st: State) {
    Indexed(st) && Anchored(st) && Mirrored(st) && st.bundle == Bundled(st.sections) && st.sessionVersion < TWO_32
    && (forall i :: 0 <= i < |st.sections| ==> Payloads in st.sections[i].fields)
    && forall m <- st.media :: Payloads in m
  }

  lemma InitialInv(t: Transport)
    ensures Inv(Initial(t))
  {
    assert Initial(t).sections == [];
  }

  // ---- New sections ----

  predicate Good(s: Section) { Identified(s.fields) && !IsClosed(s.fields) && Payloads in s.fields }

  lemma AnswerIsGood(t: Transport, offer: OfferMedia, answer: RtpParameters, options: Option<CodecOptions>)
    requires MidFits(offer.mid) && (IsMedia(offer.kind) || offer.kind == "application")
    ensures Good(AnswerSection(t, offer, answer, options)) && MidOf(AnswerSection(t, offer, answer, options).fields) == offer.mid
  {
    AnswerIdentified(t.ice, t.candidates, t.role, t.sctp, offer, answer, options);
    hide MidFits, Common, TunedAll, RtpList, FmtpList, FeedbackList, PayloadsText, ExtList, Offered, RidList, SimulcastObject, SetupOf;
  }

  lemma OfferIsGood(t: Transport, mid: string, kind: string, params: RtpParameters, streamId: string, trackId: string)
    requires MidFits(mid) && IsMedia(kind) && params.encodings != []
    ensures Good(OfferSection(t, mid, kind, params, streamId, trackId))
    ensures MidOf(OfferSection(t, mid, kind, params, streamId, trackId).fields) == mid
  {
    OfferIdentified(t.ice, t.candidates, None, mid, kind, params, streamId, trackId);
    hide MidFits, Common, RtpList, FmtpList, FeedbackList, PayloadsText, ExtList, SsrcList, GroupList;
  }

  lemma DataIsGood(t: Transport)
    ensures Good(DataOfferSection(t)) && MidOf(DataOfferSection(t).fields) == "datachannel"
  {
    OfferIdentified(t.ice, t.candidates, Some(t.sctp), "datachannel", "application", NO_PARAMETERS, "", "");
    hide MidFits, Common;
  }

  lemma AddIndexed(st: State, s: Section)
    requires Indexed(st) && Good(s) && MidOf(s.fields) !in st.midToIndex
    ensures Indexed(Add(st, s))
  {
    hide Bundled, MidFits, IsClosed, Identified, MidOf;
    GoodMeans(s);
    var st' := Add(st, s);
    assert forall i :: 0 <= i < |st.sections| ==> st'.sections[i] == st.sections[i];
    assert forall i :: 0 <= i < |st.sections| ==> MidAt(st', i) == MidAt(st, i);
    assert MidAt(st', |st.sections|) == MidOf(s.fields);
  }

  lemma MidIsNotEmpty(m: Fields)
    requires Identified(m)
    ensures MidOf(m) != ""
  {}

  lemma AddInv(st: State, s: Section)
    requires Inv(st) && Good(s) && MidOf(s.fields) !in st.midToIndex
    ensures Inv(Add(st, s))
  {
    hide Bundled, Disabled, IsClosed, MidFits, Identified, MidOf, Indexed;
    IndexedMeans(st);
    GoodMeans(s);
    AddIndexed(st, s);
    var st' := Add(st, s);
    IndexedIdentified(st');
    assert forall i :: 0 <= i < |st.sections| ==> st'.sections[i] == st.sections[i] && st'.media[i] == st.media[i];
    if st.sections != [] { MidIsNotEmpty(st.sections[0].fields); }
  }

  lemma ReplaceIndexed(st: State, s: Section, idx: nat)
    requires Indexed(st) && |st.media| == |st.sections| && Good(s) && idx < |st.sections|
    requires MidOf(s.fields) !in st.midToIndex || MidOf(s.fields) == MidAt(st, idx)
    ensures Indexed(Replace(st, s, MidAt(st, idx)))
  {
    hide Bundled, MidFits, Disabled, IsClosed, Identified, MidOf;
    GoodMeans(s);
    var st' := Replace(st, s, MidAt(st, idx));
    assert forall i :: 0 <= i < |st.sections| && i != idx ==> st'.sections[i] == st.sections[i];
    assert forall i :: 0 <= i < |st.sections| && i != idx ==> MidAt(st', i) == MidAt(st, i);
    assert MidAt(st', idx) == MidOf(s.fields);
    assert st'.midToIndex == (st.midToIndex - {MidAt(st, idx)})[MidOf(s.fields) := idx];
  }

  lemma ReplaceInv(st: State, s: Section, idx: nat)
    requires Inv(st) && Good(s) && idx < |st.sections| && ClosedAt(st, idx)
    requires MidOf(s.fields) !in st.midToIndex || MidOf(s.fields) == MidAt(st, idx)
    ensures Inv(Replace(st, s, MidAt(st, idx)))
  {
    hide Bundled, MidFits, Disabled, IsClosed, Identified, MidOf, Indexed;
    IndexedMeans(st);
    GoodMeans(s);
    ReplaceIndexed(st, s, idx);
    var st' := Replace(st, s, MidAt(st, idx));
    IndexedIdentified(st');
    assert forall i :: 0 <= i < |st.sections| && i != idx ==> st'.sections[i] == st.sections[i] && st'.media[i] == st.media[i];
    assert idx != 0;
  }

  lemma IndexedIdentified(st: State)
    requires Indexed(st)
    ensures AllIdentified(st.sections)
  {}

  lemma PlaceInv(st: State, s: Section)
    requires Inv(st) && Good(s)
    requires MidOf(s.fields) !in st.midToIndex
             || (FirstClosed(st.sections) < |st.sections| && MidOf(s.fields) == MidAt(st, FirstClosed(st.sections)))
    ensures Inv(Place(st, s))
  {
    hide Add, Replace, Inv, Good;
    IndexedMeans(st);
    GoodMeans(s);
    var idx := FirstClosed(st.sections);
    if idx < |st.sections| { ReplaceInv(st, s, idx); } else { AddInv(st, s); }
  }

  lemma IndexedMeans(st: State)
    requires Inv(st)
    ensures AllIdentified(st.sections) && |st.media| == |st.sections|
    ensures forall i :: 0 <= i < |st.sections| ==> MidAt(st, i) in st.midToIndex && st.midToIndex[MidAt(st, i)] == i
    ensures forall mid <- st.midToIndex.Keys :: st.midToIndex[mid] < |st.sections| && MidAt(st, st.midToIndex[mid]) == mid
  {}

  lemma GoodMeans(s: Section)
    requires Good(s)
    ensures Identified(s.fields)
  {}

  // ---- Changed sections ----

  /** A section that keeps its mid and is as open as before keeps the BUNDLE group. */
  lemma {:induction false} SameOpenMids(a: seq<Section>, b: seq<Section>)
    requires |a| == |b| && AllIdentified(a) && AllIdentified(b)
    requires forall i :: 0 <= i < |a| ==> MidOf(a[i].fields) == MidOf(b[i].fields) && (IsClosed(a[i].fields) <==>
            IsClosed(b[i].fields))
    ensures OpenMids(a) == OpenMids(b)
  {
    if a != [] {
      SameOpenMids(a[..|a| - 1], b[..|b| - 1]);
    }
  }

  lemma DisabledKeepsPayloads(m: Fields)
    ensures Payloads in m ==> Payloads in Disabled(m) && Payloads in Closed(m)
  {}

  lemma DisableInv(st: State, mid: string)
    requires Inv(st) && mid in st.midToIndex
    ensures Inv(DisableSection(st, mid))
  {
    hide OpenMids, Join, MidFits, Disabled, IsClosed, MidOf, Identified;
    var idx := st.midToIndex[mid];
    var st' := DisableSection(st, mid);
    ChangedIdentified(st.sections[idx].fields);
    DisabledTwice(st.media[idx]);
    DisabledKeepsPayloads(st.sections[idx].fields);
    assert forall i :: 0 <= i < |st.sections| && i != idx ==> st'.sections[i] == st.sections[i];
    assert forall i :: 0 <= i < |st.sections| ==> MidAt(st', i) == MidAt(st, i) && (ClosedAt(st', i) <==> ClosedAt(st, i));
    SameOpenMids(st.sections, st'.sections);
  }

  lemma DisabledTwice(m: Fields)
    ensures Disabled(Disabled(m)) == Disabled(m)
  {}

  lemma CloseInv(st: State, mid: string)
    requires Inv(st) && mid in st.midToIndex
    ensures Inv(CloseSection(st, mid))
  {
    hide OpenMids, Join, MidFits, Disabled, Closed, IsClosed, MidOf, Identified;
    var idx := st.midToIndex[mid];
    var st' := CloseSection(st, mid);
    ChangedIdentified(st.sections[idx].fields);
    DisabledKeepsPayloads(st.sections[idx].fields);
    assert forall i :: 0 <= i < |st.sections| && i != idx ==> st'.sections[i] == st.sections[i] && st'.media[i] == st.media[i];
    assert forall i :: 0 <= i < |st.sections| ==> MidAt(st', i) == MidAt(st, i);
    assert mid == MidAt(st, idx);
  }

  lemma UpdatedIdentified(m: Fields, ice: IceParameters, offer: bool, role: string)
    requires Identified(m)
    ensures Identified(WithIce(m, ice)) && MidOf(WithIce(m, ice)) == MidOf(m) && (IsClosed(WithIce(m, ice)) <==> IsClosed(m))
    ensures Identified(WithRole(offer, m, role)) && MidOf(WithRole(offer, m, role)) == MidOf(m)
    ensures IsClosed(WithRole(offer, m, role)) <==> IsClosed(m)
    ensures Payloads in m ==> Payloads in WithIce(m, ice) && Payloads in WithRole(offer, m, role)
  {
    hide MidFits, SetupOf;
  }

  /** An update of every section that keeps mids and which sections are open keeps the invariant. */
  lemma UpdateInv(st: State, sections: seq<Section>, st': State)
    requires Inv(st) && |sections| == |st.sections| && AllIdentified(sections)
    requires forall i :: 0 <= i < |sections| ==>
      MidOf(sections[i].fields) == MidAt(st, i) && (IsClosed(sections[i].fields) <==> ClosedAt(st, i))
        && Payloads in sections[i].fields
    requires st' == st.(transport := st'.transport, icelite := st'.icelite, sections := sections, media := Objects(sections))
    ensures Inv(st')
  {
    hide OpenMids, Join, MidFits, Disabled, IsClosed, MidOf, Identified;
    SameOpenMids(st.sections, sections);
    assert forall i :: 0 <= i < |sections| ==> MidAt(st', i) == MidAt(st, i);
  }

  lemma PrintInv(st: State)
    requires Inv(st)
    ensures Inv(Printed(st)) && Printed(st).media == st.media && Printed(st).sections == st.sections
  {
    hide OpenMids, Join, MidFits, Disabled, IsClosed, MidOf, Identified;
    forall i | 0 <= i < |st.media| ensures FieldsOf(WithPayloads(Obj(st.media[i]))) == st.media[i] {
      assert st.media[i] in st.media;
    }
    var st' := Printed(st);
    assert st'.media == st.media;
    assert forall i :: 0 <= i < |st.sections| ==> MidAt(st', i) == MidAt(st, i);
  }

  /** The state after a step. */
  function Next(st: State, step: Step): State
    requires Inv(st) && Allowed(st, step)
  {
    match step
    case Send(offer, answer, options) =>
      AnswerIsGood(st.transport, offer, answer, options);
      Place(st, AnswerSection(st.transport, offer, answer, options))
    case SendData(offer) =>
      AnswerIsGood(st.transport, offer, NO_PARAMETERS, None);
      Add(st, AnswerSection(st.transport, offer, NO_PARAMETERS, None))
    case Receive(mid, kind, params, streamId, trackId) =>
      OfferIsGood(st.transport, mid, kind, params, streamId, trackId);
      Place(st, OfferSection(st.transport, mid, kind, params, streamId, trackId))
    case ReceiveData =>
      DataIsGood(st.transport);
      Add(st, DataOfferSection(st.transport))
    case Disable(mid) => DisableSection(st, mid)
    case Close(mid) => CloseSection(st, mid)
    case SetIce(ice) => UpdateIce(st, ice)
    case SetRole(role) => UpdateRole(st, role)
    case GetSdp => Printed(st)
  }

  /** Every step keeps the four views in agreement. */
  lemma NextInv(st: State, step: Step)
    requires Inv(st) && Allowed(st, step)
    ensures Inv(Next(st, step))
  {
    hide Inv, AnswerSection, OfferSection, DataOfferSection, Add, Place, DisableSection, CloseSection, Printed, WithIce,
      WithRole, MidFits, IsClosed, MidOf, Good;
    match step
    case Send(offer, answer, options) =>
      AnswerIsGood(st.transport, offer, answer, options);
      PlaceInv(st, AnswerSection(st.transport, offer, answer, options));
    case SendData(offer) =>
      AnswerIsGood(st.transport, offer, NO_PARAMETERS, None);
      AddInv(st, AnswerSection(st.transport, offer, NO_PARAMETERS, None));
    case Receive(mid, kind, params, streamId, trackId) =>
      OfferIsGood(st.transport, mid, kind, params, streamId, trackId);
      PlaceInv(st, OfferSection(st.transport, mid, kind, params, streamId, trackId));
    case ReceiveData =>
      DataIsGood(st.transport);
      AddInv(st, DataOfferSection(st.transport));
    case Disable(mid) => DisableInv(st, mid);
    case Close(mid) => CloseInv(st, mid);
    case SetIce(ice) => SetIceInv(st, ice);
    case SetRole(role) => SetRoleInv(st, role);
    case GetSdp => PrintInv(st);
  }

  lemma SetIceInv(st: State, ice: IceParameters)
    requires Inv(st)
    ensures Inv(UpdateIce(st, ice))
  {
    hide OpenMids, Join, MidFits, Disabled, IsClosed, MidOf, Identified, WithIce, WithRole;
    forall i | 0 <= i < |st.sections| {
      UpdatedIdentified(st.sections[i].fields, ice, false, "");
    }
    UpdateInv(st, WithIceAll(st.sections, ice), UpdateIce(st, ice));
  }

  lemma SetRoleInv(st: State, role: string)
    requires Inv(st)
    ensures Inv(UpdateRole(st, role))
  {
    hide OpenMids, Join, MidFits, Disabled, IsClosed, MidOf, Identified, WithIce, WithRole;
    forall i | 0 <= i < |st.sections| {
      UpdatedIdentified(st.sections[i].fields, st.transport.ice, st.sections[i].offer, role);
    }
    UpdateInv(st, WithRoleAll(st.sections, role), UpdateRole(st, role));
  }
}
