/** The setup attribute over whole runs of the remote session description, told by the role last set. */
module SdpRoles {
  import opened Prelude
  import opened Json
  import opened RtpParams
  import opened MediaObjects
  import opened SdpState
  import opened SdpRuns
  import SectionContents
  import Writer

  predicate SetupIs(m: Fields, setup: string) { Setup in m && m[Setup] == Str(setup) }

  /** Offers are actpass; in answers a client is active, a server passive, and auto leaves it open (section 4.1 of RFC 4145). */
  predicate SpeaksFor(offer: bool, m: Fields, role: string) {
    (offer ==> SetupIs(m, "actpass"))
    && (!offer && role == "client" ==> SetupIs(m, "active"))
    && (!offer && role == "server" ==> SetupIs(m, "passive"))
    && (!offer && role == "auto" ==> SetupIs(m, "actpass"))
  }

  /** Every section speaks for the role, and so does its printed copy. */
  predicate AllSpeak(st: State, role: string) {
    |st.media| == |st.sections|
    && forall i :: 0 <= i < |st.sections| ==>
         SpeaksFor(st.sections[i].offer, st.sections[i].fields, role) && SpeaksFor(st.sections[i].offer, st.media[i], role)
  }

  lemma RoleSpeaks(offer: bool, m: Fields, role: string)
    ensures SpeaksFor(offer, WithRole(offer, m, role), role)
  {}

  predicate SameSetup(a: Fields, b: Fields) { (Setup in a <==> Setup in b) && (Setup in a ==> a[Setup] == b[Setup]) }

  lemma SameSpeaks(offer: bool, a: Fields, b: Fields, role: string)
    requires SpeaksFor(offer, a, role) && SameSetup(a, b)
    ensures SpeaksFor(offer, b, role)
  {}

  /** Closing, disabling, new ICE parameters and printing leave the setup attribute alone. */
  lemma SetupStays(m: Fields, ice: IceParameters)
    ensures SameSetup(m, Closed(m)) && SameSetup(m, Disabled(m)) && SameSetup(m, WithIce(m, ice))
    ensures SameSetup(m, FieldsOf(Writer.WithPayloads(Obj(m))))
  {}

  lemma AnswerSpeaks(t: Transport, offer: OfferMedia, answer: RtpParameters, options: Option<CodecOptions>)
    requires IsMedia(offer.kind) || offer.kind == "application"
    ensures !AnswerSection(t, offer, answer, options).offer && SpeaksFor(false, AnswerSection(t, offer, answer, options).fields, t.role)
  {
    hide SectionContents.Start, WithRole, AnswerObject, SectionContents.Answered, TunedAll, SpeaksFor;
    var start := WithRole(false, SectionContents.Start(t.ice, t.candidates, offer.mid, offer.kind, offer.protocol), t.role);
    RoleSpeaks(false, SectionContents.Start(t.ice, t.candidates, offer.mid, offer.kind, offer.protocol), t.role);
    if IsMedia(offer.kind) {
      SectionContents.MediaAnswerContents(t.ice, t.candidates, t.role, t.sctp, offer, answer, options);
      SectionContents.AnsweredMembers(offer, TunedAll(answer.codecs, options), answer.headerExtensions);
      SameSpeaks(false, start, AnswerSection(t, offer, answer, options).fields, t.role);
    } else {
      SectionContents.DataAnswerContents(t.ice, t.candidates, t.role, t.sctp, offer, answer, options);
      SameSpeaks(false, start, AnswerSection(t, offer, answer, options).fields, t.role);
    }
  }

  lemma OfferSpeaks(t: Transport, mid: string, kind: string, params: RtpParameters, streamId: string, trackId: string, role: string)
    requires IsMedia(kind) && params.encodings != []
    ensures OfferSection(t, mid, kind, params, streamId, trackId).offer && DataOfferSection(t).offer
    ensures SpeaksFor(true, OfferSection(t, mid, kind, params, streamId, trackId).fields, role)
    ensures SpeaksFor(true, DataOfferSection(t).fields, role)
  {
    hide OfferObject, SectionContents.Start, SectionContents.Sending;
    SectionContents.MediaOfferContents(t.ice, t.candidates, mid, kind, params, streamId, trackId);
    SectionContents.SendingMembers(params, streamId + " " + trackId);
    SectionContents.DataOfferContents(t.ice, t.candidates, t.sctp, "datachannel", NO_PARAMETERS, "", "");
  }

  lemma AddSpeaks(st: State, s: Section, role: string)
    requires Inv(st) && Identified(s.fields) && AllSpeak(st, role) && SpeaksFor(s.offer, s.fields, role)
    ensures AllSpeak(Add(st, s), role) && AllSpeak(Place(st, s), role)
  {
    hide Bundled, MidOf, IsClosed, SpeaksFor, Identified;
  }

  lemma ChangeSpeaks(st: State, mid: string, role: string)
    requires Inv(st) && mid in st.midToIndex && AllSpeak(st, role)
    ensures AllSpeak(DisableSection(st, mid), role) && AllSpeak(CloseSection(st, mid), role)
  {
    hide Bundled, MidOf, IsClosed, SpeaksFor, Identified, Closed, Disabled, SameSetup;
    var idx := st.midToIndex[mid];
    var m := st.sections[idx].fields;
    SetupStays(m, st.transport.ice);
    SameSpeaks(st.sections[idx].offer, m, Closed(m), role);
    SameSpeaks(st.sections[idx].offer, m, Disabled(m), role);
  }

  lemma IceSpeaks(st: State, ice: IceParameters, role: string)
    requires Inv(st) && AllSpeak(st, role)
    ensures AllSpeak(UpdateIce(st, ice), role)
  {
    hide SpeaksFor, WithIce, SameSetup;
    forall i | 0 <= i < |st.sections| ensures SpeaksFor(st.sections[i].offer, WithIce(st.sections[i].fields, ice), role) {
      SetupStays(st.sections[i].fields, ice);
      SameSpeaks(st.sections[i].offer, st.sections[i].fields, WithIce(st.sections[i].fields, ice), role);
    }
  }

  /** Setting a role makes every section speak for it, whatever was set before. */
  lemma SetRoleSpeaks(st: State, role: string)
    ensures AllSpeak(UpdateRole(st, role), role)
  {
    hide SpeaksFor, WithRole;
    forall i | 0 <= i < |st.sections| ensures SpeaksFor(st.sections[i].offer, WithRole(st.sections[i].offer, st.sections[i].fields, role), role) {
      RoleSpeaks(st.sections[i].offer, st.sections[i].fields, role);
    }
  }

  lemma PrintSpeaks(st: State, role: string)
    requires AllSpeak(st, role)
    ensures AllSpeak(SdpState.Printed(st), role)
  {
    hide SpeaksFor, Writer.WithPayloads, SameSetup;
    forall i | 0 <= i < |st.sections| ensures SpeaksFor(st.sections[i].offer, SdpState.Printed(st).media[i], role) {
      SetupStays(st.media[i], st.transport.ice);
      SameSpeaks(st.sections[i].offer, st.media[i], SdpState.Printed(st).media[i], role);
    }
  }

  /** The role that was set last; the transport has one to start with. */
  function LastRole(t: Transport, steps: seq<Step>): string {
    if steps == [] then t.role
    else if steps[|steps| - 1].SetRole? then steps[|steps| - 1].role
    else LastRole(t, steps[..|steps| - 1])
  }

  lemma SendSpeaks(st: State, step: Step)
    requires Inv(st) && Allowed(st, step) && AllSpeak(st, st.transport.role) && (step.Send? || step.SendData?)
    ensures AllSpeak(Next(st, step), st.transport.role) && Next(st, step).transport == st.transport
  {
    hide Inv, AllSpeak, AnswerSection, Identified, MidOf, MidFits, IsClosed, Good;
    if step.Send? {
      AnswerIsGood(st.transport, step.offer, step.answer, step.options);
      GoodMeans(AnswerSection(st.transport, step.offer, step.answer, step.options));
      AnswerSpeaks(st.transport, step.offer, step.answer, step.options);
      AddSpeaks(st, AnswerSection(st.transport, step.offer, step.answer, step.options), st.transport.role);
    } else {
      AnswerIsGood(st.transport, step.offer, NO_PARAMETERS, None);
      GoodMeans(AnswerSection(st.transport, step.offer, NO_PARAMETERS, None));
      AnswerSpeaks(st.transport, step.offer, NO_PARAMETERS, None);
      AddSpeaks(st, AnswerSection(st.transport, step.offer, NO_PARAMETERS, None), st.transport.role);
    }
  }

  lemma ReceiveSpeaks(st: State, step: Step)
    requires Inv(st) && Allowed(st, step) && AllSpeak(st, st.transport.role) && (step.Receive? || step.ReceiveData?)
    ensures AllSpeak(Next(st, step), st.transport.role) && Next(st, step).transport == st.transport
  {
    hide Inv, AllSpeak, OfferSection, DataOfferSection, Identified, MidOf, MidFits, IsClosed, Good;
    if step.Receive? {
      OfferIsGood(st.transport, step.mid, step.kind, step.params, step.streamId, step.trackId);
      GoodMeans(OfferSection(st.transport, step.mid, step.kind, step.params, step.streamId, step.trackId));
      OfferSpeaks(st.transport, step.mid, step.kind, step.params, step.streamId, step.trackId, st.transport.role);
      AddSpeaks(st, OfferSection(st.transport, step.mid, step.kind, step.params, step.streamId, step.trackId), st.transport.role);
    } else {
      DataIsGood(st.transport);
      GoodMeans(DataOfferSection(st.transport));
      OfferSpeaks(st.transport, "a", "audio", ONE_SOURCE, "", "", st.transport.role);
      AddSpeaks(st, DataOfferSection(st.transport), st.transport.role);
    }
  }

  lemma StepSpeaks(st: State, step: Step)
    requires Inv(st) && Allowed(st, step) && AllSpeak(st, st.transport.role)
    ensures AllSpeak(Next(st, step), Next(st, step).transport.role)
    ensures Next(st, step).transport.role == if step.SetRole? then step.role else st.transport.role
  {
    IndexedMeans(st);
    hide Inv, AllSpeak, AnswerSection, OfferSection, DataOfferSection, Identified, MidOf, MidFits, IsClosed, Good;
    var role := st.transport.role;
    match step
    case Send(_, _, _) => SendSpeaks(st, step);
    case SendData(_) => SendSpeaks(st, step);
    case Receive(_, _, _, _, _) => ReceiveSpeaks(st, step);
    case ReceiveData => ReceiveSpeaks(st, step);
    case Disable(mid) => ChangeSpeaks(st, mid, role);
    case Close(mid) => ChangeSpeaks(st, mid, role);
    case SetIce(ice) => IceSpeaks(st, ice, role);
    case SetRole(r) => SetRoleSpeaks(st, r);
    case GetSdp => PrintSpeaks(st, role);
  }

  /**
    In every reachable state each answer section and its printed copy say what the role last set
    stands for, sections that were added later among them, and each offer section says actpass.
   */
  lemma {:induction false} RolesAreSpoken(t: Transport, steps: seq<Step>)
    requires After(t, steps).Some?
    ensures After(t, steps).value.transport.role == LastRole(t, steps)
    ensures AllSpeak(After(t, steps).value, LastRole(t, steps))
  {
    hide Next, Allowed, Inv, AllSpeak;
    if steps == [] {
      NothingSpoken(t);
    } else {
      RolesAreSpoken(t, steps[..|steps| - 1]);
      StepSpeaks(After(t, steps[..|steps| - 1]).value, steps[|steps| - 1]);
    }
  }

  lemma NothingSpoken(t: Transport)
    ensures Initial(t).transport.role == t.role && AllSpeak(Initial(t), t.role)
  {}

  /** A role that means nothing leaves every answer as it was. */
  lemma OtherRole(st: State, role: string, i: nat)
    requires Inv(st) && role != "client" && role != "server" && role != "auto" && i < |st.sections| && !st.sections[i].offer
    ensures Allowed(st, SetRole(role)) && i < |Next(st, SetRole(role)).sections| && Next(st, SetRole(role)).sections[i] == st.sections[i]
  {}
}
