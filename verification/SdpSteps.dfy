/**
  What closing, disabling and new ICE parameters do to the sections and to what is printed of them,
  told by the members of the sections, and the ICE parameters over whole runs.
 */
module SdpSteps {
  import opened Prelude
  import opened Json
  import opened RtpParams
  import opened MediaObjects
  import opened SdpState
  import opened SdpRuns
  import opened Text
  import SectionContents
  import Writer

  /** Nothing but section `i` and its copy may have changed, and it is an offer or an answer as before. */
  predicate OthersStay(st: State, after: State, i: nat) {
    |after.sections| == |st.sections| == |st.media| == |after.media| && i < |st.sections|
    && after.sections[i].offer == st.sections[i].offer
    && forall k :: 0 <= k < |st.sections| && k != i ==> after.sections[k] == st.sections[k] && after.media[k] == st.media[k]
  }

  /** A section that is stopped and says nothing any more about what was sent in it. */
  function Stopped(m: Fields): Fields {
    m + map[Key.Direction := Str("inactive")] - {Ext, Key.Ssrcs, Key.SsrcGroups, Key.Simulcast, Key.Rids}
  }

  /** A section that is rejected by port 0 as well. */
  function Rejected(m: Fields): Fields { Stopped(m) + map[Port := Num(0)] - {Key.ExtmapAllowMixed} }

  lemma CloseObjectMeans(st: State, mid: string, m: Fields)
    ensures CloseObject(st, mid, m) == if mid == st.firstMid then Stopped(m) else Rejected(m)
    ensures Disabled(m) == Stopped(m)
  {
    SectionContents.ClosedContents(m);
    hide Closed, Disabled;
    assert m + map[Key.Direction := Str("inactive"), Port := Num(0)]
           - {Ext, Key.Ssrcs, Key.SsrcGroups, Key.Simulcast, Key.Rids, Key.ExtmapAllowMixed} == Rejected(m);
  }

  /**
    Closing a mid stops its section, which keeps its port when it is the first one and is rejected
    otherwise; the printed copy says the same. Only a section that is not the first gets closed.
   */
  lemma CloseMeans(st: State, mid: string)
    requires Inv(st) && mid in st.midToIndex
    ensures Allowed(st, Close(mid))
    ensures var i, after := st.midToIndex[mid], Next(st, Close(mid));
            i < |st.sections| && MidAt(st, i) == mid && OthersStay(st, after, i)
            && after.sections[i].fields == (if i == 0 then Stopped(st.sections[i].fields) else Rejected(st.sections[i].fields))
            && after.media[i] == after.sections[i].fields
            && (IsClosed(after.sections[i].fields) <==> i != 0)
  {
    hide OpenMids, Join, MidFits, Disabled, Closed, IsClosed, MidOf, Identified, Stopped, Rejected;
    var i := st.midToIndex[mid];
    CloseObjectMeans(st, mid, st.sections[i].fields);
    ChangedIdentified(st.sections[i].fields);
    assert MidAt(st, i) == mid;
    assert i != 0 ==> MidAt(st, 0) in st.midToIndex && st.midToIndex[MidAt(st, 0)] == 0;
    assert mid == st.firstMid <==> i == 0;
  }

  /** Disabling a mid stops its section, and its printed copy stays as it was. */
  lemma DisableMeans(st: State, mid: string)
    requires Inv(st) && mid in st.midToIndex
    ensures Allowed(st, Disable(mid))
    ensures var i, after := st.midToIndex[mid], Next(st, Disable(mid));
            i < |st.sections| && MidAt(st, i) == mid && OthersStay(st, after, i)
            && after.sections[i].fields == Stopped(st.sections[i].fields) && after.media == st.media
  {
    hide OpenMids, Join, MidFits, Disabled, Closed, IsClosed, MidOf, Identified, Stopped;
    var i := st.midToIndex[mid];
    CloseObjectMeans(st, mid, st.sections[i].fields);
  }

  /** The place of a new section: the first closed one, or behind all sections when none is closed. */
  predicate NewPlace(st: State, i: nat) {
    i <= |st.sections| && (forall k :: 0 <= k < i ==> !ClosedAt(st, k)) && (i < |st.sections| ==> ClosedAt(st, i))
  }

  /** Nothing but place `i`, which may be a new one, has changed, and it is there and in the printed copies. */
  predicate PutAt(st: State, after: State, i: nat, s: Section) {
    |after.sections| == |after.media| == (if i == |st.sections| then |st.sections| + 1 else |st.sections|) && i <= |st.sections|
    && |st.media| == |st.sections| && after.sections[i] == s && after.media[i] == s.fields
    && forall k :: 0 <= k < |st.sections| && k != i ==> after.sections[k] == st.sections[k] && after.media[k] == st.media[k]
  }

  lemma PlaceMeans(st: State, s: Section) returns (i: nat)
    requires Inv(st) && Identified(s.fields)
    ensures NewPlace(st, i) && PutAt(st, Place(st, s), i, s)
  {
    hide Bundled, MidOf, Identified, IsClosed;
    i := FirstClosed(st.sections);
  }

  /** A section for data never takes the place of a closed one. */
  lemma AddMeans(st: State, s: Section)
    requires Inv(st) && Identified(s.fields)
    ensures PutAt(st, Add(st, s), |st.sections|, s)
  {
    hide Bundled, MidOf, Identified, IsClosed;
  }

  /** Sending puts an answer for the offer there: with what the transport has now, the answered codecs, and the options in them. */
  lemma SendMeans(st: State, offer: OfferMedia, answer: RtpParameters, options: Option<CodecOptions>) returns (i: nat, s: Section)
    requires Inv(st) && Allowed(st, Send(offer, answer, options))
    ensures NewPlace(st, i) && PutAt(st, Next(st, Send(offer, answer, options)), i, s) && !s.offer
    ensures s.fields == WithRole(false, SectionContents.Start(st.transport.ice, st.transport.candidates, offer.mid, offer.kind, offer.protocol),
                                 st.transport.role)
                        + SectionContents.Answered(offer, TunedAll(answer.codecs, options), answer.headerExtensions)
  {
    hide Inv, AnswerObject, Identified, MidOf, MidFits, IsClosed, Good, Place, PutAt, WithRole, SectionContents.Start,
      SectionContents.Answered;
    s := AnswerSection(st.transport, offer, answer, options);
    AnswerIsGood(st.transport, offer, answer, options);
    GoodMeans(s);
    i := PlaceMeans(st, s);
    SectionContents.MediaAnswerContents(st.transport.ice, st.transport.candidates, st.transport.role, st.transport.sctp, offer, answer, options);
  }

  /** Receiving puts an offer there. */
  lemma ReceiveMeans(st: State, mid: string, kind: string, params: RtpParameters, streamId: string, trackId: string) returns (i: nat, s: Section)
    requires Inv(st) && Allowed(st, Receive(mid, kind, params, streamId, trackId))
    ensures NewPlace(st, i) && PutAt(st, Next(st, Receive(mid, kind, params, streamId, trackId)), i, s) && s.offer
    ensures s.fields == SectionContents.Start(st.transport.ice, st.transport.candidates, mid, kind, "UDP/TLS/RTP/SAVPF")
                        + SectionContents.SetupMember("actpass") + SectionContents.Sending(params, streamId + " " + trackId)
  {
    hide Inv, OfferObject, Identified, MidOf, MidFits, IsClosed, Good, Place, PutAt, SectionContents.Start, SectionContents.Sending;
    s := OfferSection(st.transport, mid, kind, params, streamId, trackId);
    OfferIsGood(st.transport, mid, kind, params, streamId, trackId);
    GoodMeans(s);
    i := PlaceMeans(st, s);
    SectionContents.MediaOfferContents(st.transport.ice, st.transport.candidates, mid, kind, params, streamId, trackId);
  }

  /** Data sections go to the end; the one that is received has a mid of its own. */
  lemma DataMeans(st: State, offer: OfferMedia)
    requires Inv(st)
    ensures Allowed(st, SendData(offer)) ==>
              PutAt(st, Next(st, SendData(offer)), |st.sections|,
                    Section(false, WithRole(false, SectionContents.Start(st.transport.ice, st.transport.candidates, offer.mid, "application",
                                                                         offer.protocol), st.transport.role)
                                   + SectionContents.DataMembers(st.transport.sctp)))
    ensures Allowed(st, ReceiveData) ==>
              PutAt(st, Next(st, ReceiveData), |st.sections|,
                    Section(true, SectionContents.Start(st.transport.ice, st.transport.candidates, "datachannel", "application", "UDP/DTLS/SCTP")
                                  + SectionContents.SetupMember("actpass") + SectionContents.DataMembers(st.transport.sctp)))
  {
    hide Inv, AnswerObject, OfferObject, Identified, MidOf, MidFits, IsClosed, Good, Add, PutAt, WithRole, SectionContents.Start,
      SectionContents.DataMembers;
    var t := st.transport;
    IndexedMeans(st);
    if Allowed(st, SendData(offer)) {
      AnswerIsGood(t, offer, NO_PARAMETERS, None);
      GoodMeans(AnswerSection(t, offer, NO_PARAMETERS, None));
      AddMeans(st, AnswerSection(t, offer, NO_PARAMETERS, None));
      SectionContents.DataAnswerContents(t.ice, t.candidates, t.role, t.sctp, offer, NO_PARAMETERS, None);
    }
    if Allowed(st, ReceiveData) {
      DataIsGood(t);
      GoodMeans(DataOfferSection(t));
      AddMeans(st, DataOfferSection(t));
      SectionContents.DataOfferContents(t.ice, t.candidates, t.sctp, "datachannel", NO_PARAMETERS, "", "");
    }
  }

  // ---- ICE parameters ----

  predicate IceIs(m: Fields, ice: IceParameters) {
    IceUfrag in m && m[IceUfrag] == Str(ice.usernameFragment) && IcePwd in m && m[IcePwd] == Str(ice.password)
  }

  /** Every section and its printed copy carry the ICE parameters. */
  predicate AllCarry(st: State, ice: IceParameters) {
    |st.media| == |st.sections| && forall i :: 0 <= i < |st.sections| ==> IceIs(st.sections[i].fields, ice) && IceIs(st.media[i], ice)
  }

  /** The ICE parameters that were set last; the transport has some to start with. */
  function LastIce(t: Transport, steps: seq<Step>): IceParameters {
    if steps == [] then t.ice
    else if steps[|steps| - 1].SetIce? then steps[|steps| - 1].ice
    else LastIce(t, steps[..|steps| - 1])
  }

  /** Whether ICE parameters that mention ICE lite have ever been given. */
  predicate EverLite(t: Transport, steps: seq<Step>) {
    t.ice.iceLite || exists i :: 0 <= i < |steps| && steps[i].SetIce? && steps[i].ice.iceLite
  }

  lemma IceStays(m: Fields, ice: IceParameters, offer: bool, role: string)
    requires IceIs(m, ice)
    ensures IceIs(Closed(m), ice) && IceIs(Disabled(m), ice) && IceIs(WithRole(offer, m, role), ice)
    ensures IceIs(FieldsOf(Writer.WithPayloads(Obj(m))), ice)
  {}

  lemma StartCarries(t: Transport, mid: string, kind: string, protocol: string, role: string, m: Fields)
    requires SectionContents.NoneOfTransport(m)
    ensures var start := SectionContents.Start(t.ice, t.candidates, mid, kind, protocol);
            IceIs(WithRole(false, start, role) + m, t.ice) && IceIs(start + SectionContents.SetupMember("actpass") + m, t.ice)
  {
    var start := SectionContents.Start(t.ice, t.candidates, mid, kind, protocol);
    assert IceIs(start, t.ice);
    hide SectionContents.Start;
    assert IceIs(WithRole(false, start, role), t.ice);
    assert IceIs(start + SectionContents.SetupMember("actpass"), t.ice);
    hide WithRole, SectionContents.SetupMember;
  }

  lemma AnswerCarries(t: Transport, offer: OfferMedia, answer: RtpParameters, options: Option<CodecOptions>)
    requires IsMedia(offer.kind) || offer.kind == "application"
    ensures IceIs(AnswerSection(t, offer, answer, options).fields, t.ice)
  {
    hide AnswerObject, SectionContents.Start, WithRole, SectionContents.Answered, TunedAll, IceIs;
    if IsMedia(offer.kind) {
      var answered := SectionContents.Answered(offer, TunedAll(answer.codecs, options), answer.headerExtensions);
      SectionContents.MediaAnswerContents(t.ice, t.candidates, t.role, t.sctp, offer, answer, options);
      SectionContents.AnsweredMembers(offer, TunedAll(answer.codecs, options), answer.headerExtensions);
      StartCarries(t, offer.mid, offer.kind, offer.protocol, t.role, answered);
    } else {
      SectionContents.DataAnswerContents(t.ice, t.candidates, t.role, t.sctp, offer, answer, options);
      StartCarries(t, offer.mid, offer.kind, offer.protocol, t.role, SectionContents.DataMembers(t.sctp));
    }
  }

  lemma OfferCarries(t: Transport, mid: string, kind: string, params: RtpParameters, streamId: string, trackId: string)
    requires IsMedia(kind) && params.encodings != []
    ensures IceIs(OfferSection(t, mid, kind, params, streamId, trackId).fields, t.ice)
    ensures IceIs(DataOfferSection(t).fields, t.ice)
  {
    hide OfferObject, SectionContents.Start, SectionContents.SetupMember, SectionContents.Sending, IceIs;
    SectionContents.MediaOfferContents(t.ice, t.candidates, mid, kind, params, streamId, trackId);
    SectionContents.SendingMembers(params, streamId + " " + trackId);
    StartCarries(t, mid, kind, "UDP/TLS/RTP/SAVPF", "", SectionContents.Sending(params, streamId + " " + trackId));
    SectionContents.DataOfferContents(t.ice, t.candidates, t.sctp, "datachannel", NO_PARAMETERS, "", "");
    StartCarries(t, "datachannel", "application", "UDP/DTLS/SCTP", "", SectionContents.DataMembers(t.sctp));
  }

  lemma AddCarries(st: State, s: Section, ice: IceParameters)
    requires Inv(st) && Identified(s.fields) && AllCarry(st, ice) && IceIs(s.fields, ice)
    ensures AllCarry(Add(st, s), ice) && AllCarry(Place(st, s), ice)
  {
    hide Bundled, MidOf, IsClosed, IceIs, Identified;
  }

  lemma ChangeCarries(st: State, mid: string, ice: IceParameters)
    requires Inv(st) && mid in st.midToIndex && AllCarry(st, ice)
    ensures AllCarry(DisableSection(st, mid), ice) && AllCarry(CloseSection(st, mid), ice)
  {
    hide Bundled, MidOf, IsClosed, IceIs, Identified, Closed, Disabled;
    IceStays(st.sections[st.midToIndex[mid]].fields, ice, false, "");
  }

  lemma SetIceCarries(st: State, ice: IceParameters)
    ensures AllCarry(UpdateIce(st, ice), ice)
  {}

  lemma SetRoleCarries(st: State, role: string, ice: IceParameters)
    requires AllCarry(st, ice)
    ensures AllCarry(UpdateRole(st, role), ice)
  {
    hide IceIs, WithRole;
    forall i | 0 <= i < |st.sections| ensures IceIs(WithRole(st.sections[i].offer, st.sections[i].fields, role), ice) {
      IceStays(st.sections[i].fields, ice, st.sections[i].offer, role);
    }
  }

  lemma PrintCarries(st: State, ice: IceParameters)
    requires AllCarry(st, ice)
    ensures AllCarry(SdpState.Printed(st), ice)
  {
    hide IceIs, Writer.WithPayloads;
    forall i | 0 <= i < |st.sections| ensures IceIs(SdpState.Printed(st).media[i], ice) {
      IceStays(st.media[i], ice, false, "");
    }
  }

  lemma SendCarries(st: State, step: Step)
    requires Inv(st) && Allowed(st, step) && AllCarry(st, st.transport.ice) && (step.Send? || step.SendData?)
    ensures AllCarry(Next(st, step), st.transport.ice) && Next(st, step).transport == st.transport && Next(st, step).icelite == st.icelite
  {
    hide Inv, AllCarry, AnswerSection, Identified, MidOf, MidFits, IsClosed, Good;
    if step.Send? {
      AnswerIsGood(st.transport, step.offer, step.answer, step.options);
      GoodMeans(AnswerSection(st.transport, step.offer, step.answer, step.options));
      AnswerCarries(st.transport, step.offer, step.answer, step.options);
      AddCarries(st, AnswerSection(st.transport, step.offer, step.answer, step.options), st.transport.ice);
    } else {
      AnswerIsGood(st.transport, step.offer, NO_PARAMETERS, None);
      GoodMeans(AnswerSection(st.transport, step.offer, NO_PARAMETERS, None));
      AnswerCarries(st.transport, step.offer, NO_PARAMETERS, None);
      AddCarries(st, AnswerSection(st.transport, step.offer, NO_PARAMETERS, None), st.transport.ice);
    }
  }

  lemma ReceiveCarries(st: State, step: Step)
    requires Inv(st) && Allowed(st, step) && AllCarry(st, st.transport.ice) && (step.Receive? || step.ReceiveData?)
    ensures AllCarry(Next(st, step), st.transport.ice) && Next(st, step).transport == st.transport && Next(st, step).icelite == st.icelite
  {
    hide Inv, AllCarry, OfferSection, DataOfferSection, Identified, MidOf, MidFits, IsClosed, Good;
    if step.Receive? {
      OfferIsGood(st.transport, step.mid, step.kind, step.params, step.streamId, step.trackId);
      GoodMeans(OfferSection(st.transport, step.mid, step.kind, step.params, step.streamId, step.trackId));
      OfferCarries(st.transport, step.mid, step.kind, step.params, step.streamId, step.trackId);
      AddCarries(st, OfferSection(st.transport, step.mid, step.kind, step.params, step.streamId, step.trackId), st.transport.ice);
    } else {
      DataIsGood(st.transport);
      GoodMeans(DataOfferSection(st.transport));
      OfferCarries(st.transport, "a", "audio", ONE_SOURCE, "", "");
      AddCarries(st, DataOfferSection(st.transport), st.transport.ice);
    }
  }

  lemma StepCarries(st: State, step: Step)
    requires Inv(st) && Allowed(st, step) && AllCarry(st, st.transport.ice)
    ensures AllCarry(Next(st, step), Next(st, step).transport.ice)
    ensures Next(st, step).transport.ice == if step.SetIce? then step.ice else st.transport.ice
    ensures (st.transport.ice.iceLite ==> st.icelite) ==>
              (Next(st, step).icelite <==> st.icelite || (step.SetIce? && step.ice.iceLite))
  {
    IndexedMeans(st);
    hide Inv, AllCarry, AnswerSection, OfferSection, DataOfferSection, Identified, MidOf, MidFits, IsClosed, Good;
    var ice := st.transport.ice;
    match step
    case Send(_, _, _) => SendCarries(st, step);
    case SendData(_) => SendCarries(st, step);
    case Receive(_, _, _, _, _) => ReceiveCarries(st, step);
    case ReceiveData => ReceiveCarries(st, step);
    case Disable(mid) => ChangeCarries(st, mid, ice);
    case Close(mid) => ChangeCarries(st, mid, ice);
    case SetIce(new_) => SetIceCarries(st, new_);
    case SetRole(role) => SetRoleCarries(st, role, ice);
    case GetSdp => PrintCarries(st, ice);
  }

  /**
    In every reachable state every section and its printed copy carry the ICE parameters set last, and
    the session says ice-lite exactly when some that were given mention it.
   */
  lemma {:induction false} IceIsCarried(t: Transport, steps: seq<Step>)
    requires After(t, steps).Some?
    ensures After(t, steps).value.transport.ice == LastIce(t, steps)
    ensures AllCarry(After(t, steps).value, LastIce(t, steps))
    ensures After(t, steps).value.icelite <==> EverLite(t, steps)
  {
    hide Next, Allowed, Inv, AllCarry;
    if steps == [] {
      NothingCarried(t);
    } else {
      var front := steps[..|steps| - 1];
      IceIsCarried(t, front);
      LastIsEver(t, front);
      StepCarries(After(t, front).value, steps[|steps| - 1]);
      assert EverLite(t, steps) <==> EverLite(t, front) || (steps[|steps| - 1].SetIce? && steps[|steps| - 1].ice.iceLite) by {
        assert steps == front + [steps[|steps| - 1]];
      }
    }
  }

  lemma NothingCarried(t: Transport)
    ensures Initial(t).transport.ice == t.ice && AllCarry(Initial(t), t.ice) && (Initial(t).icelite <==> t.ice.iceLite)
  {}

  lemma {:induction false} LastIsEver(t: Transport, steps: seq<Step>)
    ensures LastIce(t, steps).iceLite ==> EverLite(t, steps)
  {
    if steps != [] {
      LastIsEver(t, steps[..|steps| - 1]);
      assert forall i :: 0 <= i < |steps| - 1 ==> steps[i] == steps[..|steps| - 1][i];
    }
  }
}
