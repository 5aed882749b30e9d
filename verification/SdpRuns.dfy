/** What holds over whole runs of the remote session description. */
module SdpRuns {
  import opened Prelude
  import opened Regex
  import opened Text
  import opened RtpParams
  import opened MediaObjects
  import opened SdpState

  /** The state after some steps from the start; none when a step breaks what the code relies on. */
  function After(t: Transport, steps: seq<Step>): (r: Option<State>)
    ensures r.Some? ==> Inv(r.value)
  {
    if steps == [] then
      InitialInv(t);
      Some(Initial(t))
    else
      match After(t, steps[..|steps| - 1])
      case None => None
      case Some(st) =>
        var step := steps[|steps| - 1];
        if Allowed(st, step) then
          NextInv(st, step);
          Some(Next(st, step))
        else None
  }

  // ---- The BUNDLE group ----

  lemma {:induction false} OpenMidsAreMids(sections: seq<Section>)
    requires AllIdentified(sections)
    ensures forall mid <- OpenMids(sections) :: MidFits(mid)
    ensures |OpenMids(sections)| <= |sections|
  {
    hide MidFits, IsClosed;
    if sections != [] {
      assert Identified(sections[|sections| - 1].fields);
      OpenMidsAreMids(sections[..|sections| - 1]);
    }
  }

  /** Splitting the BUNDLE group at its blanks gives the mids of the open sections, in their order. */
  lemma BundleIsOpenMids(st: State)
    requires Inv(st)
    ensures Tokens(st.bundle, ' ') == OpenMids(st.sections)
  {
    hide OpenMids, Tokens, Join, Mirrored, Anchored;
    var mids := OpenMids(st.sections);
    OpenMidsAreMids(st.sections);
    forall mid | mid in mids ensures ' ' !in mid && mid != "" {
      assert MidFits(mid);
    }
    assert mids != [] ==> mids[|mids| - 1] in mids;
    SplitUndoesJoin(mids, ' ');
  }

  // ---- Slots ----

  function OpenCount(sections: seq<Section>): (n: nat)
    ensures n <= |sections|
  {
    if sections == [] then 0
    else OpenCount(sections[..|sections| - 1]) + if IsClosed(sections[|sections| - 1].fields) then 0 else 1
  }

  function Max(a: nat, b: nat): nat { if a < b then b else a }

  /** The largest number of sections that were open at the same time. */
  function MaxOpen(t: Transport, steps: seq<Step>): nat
    requires After(t, steps).Some?
  {
    var now := OpenCount(After(t, steps).value.sections);
    if steps == [] then now else Max(MaxOpen(t, steps[..|steps| - 1]), now)
  }

  predicate AllAreOpen(sections: seq<Section>) { FirstClosed(sections) == |sections| }

  lemma CountsAll(sections: seq<Section>)
    ensures OpenCount(sections) == |sections| <==> AllAreOpen(sections)
  {
    hide IsClosed;
    AllOpen(sections);
    FirstClosedMeans(sections);
  }

  lemma {:induction false} FirstClosedMeans(sections: seq<Section>)
    ensures FirstClosed(sections) == |sections| <==> forall i :: 0 <= i < |sections| ==> !IsClosed(sections[i].fields)
  {
    hide IsClosed;
    if sections != [] { FirstClosedMeans(sections[1..]); }
  }

  predicate AddsData(step: Step) { step.SendData? || step.ReceiveData? }

  /**
    Sections for data never take the place of a closed one. Here, since all sections were last open
    at once, none has been added while one was closed.
   */
  predicate NoWaste(t: Transport, steps: seq<Step>)
    requires After(t, steps).Some?
  {
    AllAreOpen(After(t, steps).value.sections)
    || (steps != []
        && (AddsData(steps[|steps| - 1]) ==> AllAreOpen(After(t, steps[..|steps| - 1]).value.sections))
        && NoWaste(t, steps[..|steps| - 1]))
  }

  lemma {:induction false} AllOpen(sections: seq<Section>)
    ensures OpenCount(sections) == |sections| <==> forall i :: 0 <= i < |sections| ==> !IsClosed(sections[i].fields)
  {
    hide IsClosed;
    if sections != [] {
      AllOpen(sections[..|sections| - 1]);
    }
  }

  predicate Adds(st: State, step: Step)
    requires AllIdentified(st.sections)
  {
    step.SendData? || step.ReceiveData? || ((step.Send? || step.Receive?) && FirstClosed(st.sections) == |st.sections|)
  }

  /** A step opens one more section at the end, or keeps the number of sections. */
  lemma StepLength(st: State, step: Step)
    requires Inv(st) && Allowed(st, step)
    ensures var st' := Next(st, step);
            if Adds(st, step) then |st'.sections| == |st.sections| + 1 && st'.sections[..|st.sections|] == st.sections
                                   && !IsClosed(st'.sections[|st.sections|].fields)
            else |st'.sections| == |st.sections|
  {
    hide Bundled, IsClosed, MidOf, MidFits, AnswerSection, OfferSection, DataOfferSection, WithIceAll, WithRoleAll, Disabled,
      CloseObject;
    match step
    case Send(offer, answer, options) => AnswerIsGood(st.transport, offer, answer, options);
    case SendData(offer) => AnswerIsGood(st.transport, offer, NO_PARAMETERS, None);
    case Receive(mid, kind, params, streamId, trackId) => OfferIsGood(st.transport, mid, kind, params, streamId, trackId);
    case ReceiveData => DataIsGood(st.transport);
    case SetIce(ice) => assert |WithIceAll(st.sections, ice)| == |st.sections| by { SameLength(st.sections, ice, ""); }
    case SetRole(role) => assert |WithRoleAll(st.sections, role)| == |st.sections| by { SameLength(st.sections, st.transport.ice, role); }
    case _ =>
  }

  lemma SameLength(sections: seq<Section>, ice: IceParameters, role: string)
    ensures |WithIceAll(sections, ice)| == |sections| == |WithRoleAll(sections, role)|
  {}

  /**
    The number of sections is never smaller than the largest number that were open at once. It is
    that number exactly when no data section was added while another section was closed, or all
    sections were open again later.
   */
  lemma {:induction false} SlotsAreNeeded(t: Transport, steps: seq<Step>)
    requires After(t, steps).Some?
    ensures var n := |After(t, steps).value.sections|; MaxOpen(t, steps) <= n && (MaxOpen(t, steps) == n <==> NoWaste(t, steps))
  {
    hide Next, Allowed, Inv, FirstClosed, IsClosed, Initial;
    if steps == [] {
      assert After(t, []).value.sections == [] by { NothingAtFirst(t); }
    } else {
      var front, step := steps[..|steps| - 1], steps[|steps| - 1];
      var st := After(t, front).value;
      SlotsAreNeeded(t, front);
      IndexedMeans(st);
      StepLength(st, step);
      var st' := Next(st, step);
      CountsAll(st.sections);
      CountsAll(st'.sections);
      if Adds(st, step) {
        assert st'.sections == st.sections + [st'.sections[|st.sections|]];
        FirstClosedMeans(st'.sections);
        OpenTail(st.sections, st'.sections);
      }
    }
  }

  lemma NothingAtFirst(t: Transport)
    ensures Initial(t).sections == []
  {}

  lemma OpenTail(a: seq<Section>, b: seq<Section>)
    requires |b| == |a| + 1 && b[..|a|] == a && !IsClosed(b[|a|].fields)
    ensures FirstClosed(a) == |a| ==> forall i :: 0 <= i < |b| ==> !IsClosed(b[i].fields)
  {
    hide IsClosed;
  }

  lemma {:induction false} NoDataNoWaste(t: Transport, steps: seq<Step>)
    requires After(t, steps).Some? && forall step <- steps :: !AddsData(step)
    ensures NoWaste(t, steps)
  {
    hide Next, Allowed, Inv, Initial;
    if steps == [] {
      NothingAtFirst(t);
    } else {
      assert steps[|steps| - 1] in steps && forall step <- steps[..|steps| - 1] :: step in steps;
      NoDataNoWaste(t, steps[..|steps| - 1]);
    }
  }

  /** In a run without data sections, there are as many sections as were open at once, and no more. */
  lemma SlotsAreOptimal(t: Transport, steps: seq<Step>)
    requires After(t, steps).Some? && forall step <- steps :: !AddsData(step)
    ensures |After(t, steps).value.sections| == MaxOpen(t, steps)
  {
    hide MaxOpen, NoWaste, AddsData;
    SlotsAreNeeded(t, steps);
    NoDataNoWaste(t, steps);
  }

  // ---- Stability of the slots ----

  /**
    What one step can change: sections are never removed, the mid of a slot changes only when a
    closed section is replaced by an open one, a section is closed only by its own mid and never
    the first one, the first mid stays, and printing counts the version up.
   */
  predicate StableStep(st: State, step: Step, st': State) {
    AllIdentified(st.sections) && AllIdentified(st'.sections) && |st.sections| <= |st'.sections|
    && (forall i :: 0 <= i < |st.sections| && MidAt(st', i) != MidAt(st, i) ==> ClosedAt(st, i) && !ClosedAt(st', i))
    && (forall i :: 0 <= i < |st.sections| && ClosedAt(st', i) && !ClosedAt(st, i) ==> step == Close(MidAt(st, i)) && i != 0)
    && (st.sections != [] ==> st'.firstMid == st.firstMid)
    && st'.sessionVersion == (if step.GetSdp? then (st.sessionVersion + 1) % TWO_32 else st.sessionVersion)
  }

  lemma AddIsStable(st: State, step: Step, s: Section)
    requires Inv(st) && Good(s) && !step.GetSdp?
    ensures StableStep(st, step, Add(st, s))
  {
    hide Bundled, IsClosed, MidFits, MidOf, Mirrored, Disabled;
    var st' := Add(st, s);
    assert forall i :: 0 <= i < |st.sections| ==> st'.sections[i] == st.sections[i];
    if st.sections != [] { FirstMidFits(st); }
  }

  lemma FirstMidFits(st: State)
    requires Inv(st) && st.sections != []
    ensures MidFits(MidAt(st, 0)) && st.firstMid != ""
  {
    hide Bundled, IsClosed, Mirrored, Disabled, All;
    assert Identified(st.sections[0].fields);
  }

  lemma PlaceIsStable(st: State, step: Step, s: Section)
    requires Inv(st) && Good(s) && !step.GetSdp?
    ensures StableStep(st, step, Place(st, s))
  {
    hide Bundled, IsClosed, MidFits, MidOf, Disabled, Add;
    var idx := FirstClosed(st.sections);
    if idx < |st.sections| {
      var st' := Replace(st, s, MidAt(st, idx));
      assert forall i :: 0 <= i < |st.sections| && i != idx ==> st'.sections[i] == st.sections[i];
    } else {
      AddIsStable(st, step, s);
    }
  }

  lemma DisableIsStable(st: State, mid: string)
    requires Inv(st) && mid in st.midToIndex
    ensures StableStep(st, Disable(mid), DisableSection(st, mid))
  {
    hide Bundled, IsClosed, MidFits, MidOf, Disabled;
    var idx := st.midToIndex[mid];
    ChangedIdentified(st.sections[idx].fields);
    assert forall i :: 0 <= i < |st.sections| && i != idx ==> DisableSection(st, mid).sections[i] == st.sections[i];
  }

  lemma CloseIsStable(st: State, mid: string)
    requires Inv(st) && mid in st.midToIndex
    ensures StableStep(st, Close(mid), CloseSection(st, mid))
  {
    hide Bundled, IsClosed, MidFits, MidOf, Disabled, Closed;
    var idx := st.midToIndex[mid];
    ChangedIdentified(st.sections[idx].fields);
    assert forall i :: 0 <= i < |st.sections| && i != idx ==> CloseSection(st, mid).sections[i] == st.sections[i];
    assert mid == MidAt(st, idx);
  }

  lemma UpdateIsStable(st: State, ice: IceParameters, role: string)
    requires Inv(st)
    ensures StableStep(st, SetIce(ice), UpdateIce(st, ice)) && StableStep(st, SetRole(role), UpdateRole(st, role))
  {
    hide Bundled, IsClosed, MidFits, MidOf, Disabled, Mirrored, WithIce, WithRole;
    forall i | 0 <= i < |st.sections| {
      UpdatedIdentified(st.sections[i].fields, ice, st.sections[i].offer, role);
    }
  }

  lemma PrintIsStable(st: State)
    requires Inv(st)
    ensures StableStep(st, GetSdp, SdpState.Printed(st))
  {
    hide Bundled, IsClosed, MidFits, MidOf, Disabled, Mirrored;
  }

  lemma SendIsStable(st: State, offer: OfferMedia, answer: RtpParameters, options: Option<CodecOptions>)
    requires Inv(st) && Allowed(st, Send(offer, answer, options))
    ensures StableStep(st, Send(offer, answer, options), Next(st, Send(offer, answer, options)))
  {
    hide StableStep, Inv, AnswerSection, Place, MidFits, MidOf, Good;
    AnswerIsGood(st.transport, offer, answer, options);
    PlaceIsStable(st, Send(offer, answer, options), AnswerSection(st.transport, offer, answer, options));
  }

  lemma ReceiveIsStable(st: State, mid: string, kind: string, params: RtpParameters, streamId: string, trackId: string)
    requires Inv(st) && Allowed(st, Receive(mid, kind, params, streamId, trackId))
    ensures StableStep(st, Receive(mid, kind, params, streamId, trackId), Next(st, Receive(mid, kind, params, streamId, trackId)))
  {
    hide StableStep, Inv, OfferSection, Place, MidFits, MidOf, Good;
    OfferIsGood(st.transport, mid, kind, params, streamId, trackId);
    PlaceIsStable(st, Receive(mid, kind, params, streamId, trackId), OfferSection(st.transport, mid, kind, params, streamId, trackId));
  }

  lemma DataIsStable(st: State, offer: OfferMedia)
    requires Inv(st)
    ensures Allowed(st, SendData(offer)) ==> StableStep(st, SendData(offer), Next(st, SendData(offer)))
    ensures Allowed(st, ReceiveData) ==> StableStep(st, ReceiveData, Next(st, ReceiveData))
  {
    hide StableStep, Inv, AnswerSection, DataOfferSection, Add, MidFits, MidOf, Good;
    IndexedMeans(st);
    if Allowed(st, SendData(offer)) {
      AnswerIsGood(st.transport, offer, NO_PARAMETERS, None);
      AddIsStable(st, SendData(offer), AnswerSection(st.transport, offer, NO_PARAMETERS, None));
    }
    if Allowed(st, ReceiveData) {
      DataIsGood(st.transport);
      AddIsStable(st, ReceiveData, DataOfferSection(st.transport));
    }
  }

  lemma ChangeIsStable(st: State, step: Step)
    requires Inv(st) && Allowed(st, step) && (step.Disable? || step.Close? || step.SetIce? || step.SetRole? || step.GetSdp?)
    ensures StableStep(st, step, Next(st, step))
  {
    hide StableStep, Inv, DisableSection, CloseSection, UpdateIce, UpdateRole, SdpState.Printed;
    match step
    case Disable(mid) => DisableIsStable(st, mid);
    case Close(mid) => CloseIsStable(st, mid);
    case SetIce(ice) => UpdateIsStable(st, ice, "");
    case SetRole(role) => UpdateIsStable(st, st.transport.ice, role);
    case GetSdp => PrintIsStable(st);
  }

  lemma StepIsStable(st: State, step: Step)
    requires Inv(st) && Allowed(st, step)
    ensures StableStep(st, step, Next(st, step)) && Inv(Next(st, step))
  {
    NextInv(st, step);
    hide StableStep, Inv, Next, Allowed;
    match step
    case Send(offer, answer, options) => SendIsStable(st, offer, answer, options);
    case SendData(offer) => DataIsStable(st, offer);
    case Receive(mid, kind, params, streamId, trackId) => ReceiveIsStable(st, mid, kind, params, streamId, trackId);
    case ReceiveData => DataIsStable(st, OfferMedia("", "", "", [], false, None));
    case _ => ChangeIsStable(st, step);
  }

  /** Whether the slot is open after each of the steps from `more` on. */
  predicate StaysOpen(t: Transport, steps: seq<Step>, more: seq<Step>, i: nat)
    requires After(t, steps + more).Some?
    decreases |more|
  {
    var st := After(t, steps + more).value;
    i < |st.sections| && !ClosedAt(st, i)
    && (more == [] || (FrontOf(t, steps, more); StaysOpen(t, steps, more[..|more| - 1], i)))
  }

  lemma FrontOf(t: Transport, steps: seq<Step>, more: seq<Step>)
    requires more != []
    ensures (steps + more)[..|steps + more| - 1] == steps + more[..|more| - 1]
    ensures After(t, steps + more).Some? ==> After(t, steps + more[..|more| - 1]).Some?
  {
    hide Next, Allowed, Inv, Initial;
    assert (steps + more)[..|steps + more| - 1] == steps + more[..|more| - 1];
  }

  /** How often the session has been printed. */
  function Prints(steps: seq<Step>): nat {
    if steps == [] then 0 else Prints(steps[..|steps| - 1]) + if steps[|steps| - 1].GetSdp? then 1 else 0
  }

  /** Later in a run there are no fewer sections, and a slot that stayed open carries the same mid. */
  lemma {:induction false} SlotsAreStable(t: Transport, steps: seq<Step>, more: seq<Step>)
    requires After(t, steps + more).Some?
    ensures After(t, steps).Some?
    ensures var st, st' := After(t, steps).value, After(t, steps + more).value;
            |st.sections| <= |st'.sections|
            && (forall i :: 0 <= i < |st.sections| && StaysOpen(t, steps, more, i) ==> MidAt(st', i) == MidAt(st, i))
            && (st.sections != [] ==> st'.firstMid == st.firstMid == MidAt(st', 0) && !ClosedAt(st', 0))
    decreases |more|
  {
    hide Next, Allowed, Initial, IsClosed, MidOf, Mirrored, Indexed, Bundled;
    if more == [] {
      assert steps + more == steps;
      var st := After(t, steps).value;
      assert Indexed(st);
    } else {
      var front, step := more[..|more| - 1], more[|more| - 1];
      FrontOf(t, steps, more);
      SlotsAreStable(t, steps, front);
      assert (steps + more)[|steps + more| - 1] == step;
      var st := After(t, steps + front).value;
      StepIsStable(st, step);
    }
  }

  /** The version of the printed session is the number of times it was printed, as a 32-bit number. */
  lemma {:induction false} VersionCountsPrints(t: Transport, steps: seq<Step>)
    requires After(t, steps).Some?
    ensures After(t, steps).value.sessionVersion == Prints(steps) % TWO_32
  {
    hide Next, Allowed, Inv, MidAt, ClosedAt;
    if steps != [] {
      var front, step := steps[..|steps| - 1], steps[|steps| - 1];
      VersionCountsPrints(t, front);
      StepIsStable(After(t, front).value, step);
    }
  }

  // ---- The printed copies ----

  /** The slots whose printed copy may be behind: disabled, and not copied since. */
  function Stale(t: Transport, steps: seq<Step>): set<nat>
    requires After(t, steps).Some?
  {
    if steps == [] then {}
    else
      var st, stale := After(t, steps[..|steps| - 1]).value, Stale(t, steps[..|steps| - 1]);
      match steps[|steps| - 1]
      case Disable(mid) => if mid in st.midToIndex then stale + {st.midToIndex[mid]} else stale
      case Close(mid) => if mid in st.midToIndex then stale - {st.midToIndex[mid]} else stale
      case SetIce(_) => {}
      case SetRole(_) => {}
      case Send(_, _, _) => stale - {FirstClosed(st.sections)}
      case Receive(_, _, _, _, _) => stale - {FirstClosed(st.sections)}
      case _ => stale
  }

  predicate Copied(st: State, i: nat) { i < |st.media| && i < |st.sections| && st.media[i] == st.sections[i].fields }

  lemma PlaceCopies(st: State, s: Section, i: nat)
    requires Inv(st) && Identified(s.fields)
    ensures Copied(st, i) || i == FirstClosed(st.sections) ==> Copied(Place(st, s), i)
    ensures Copied(st, i) || i == |st.sections| ==> Copied(Add(st, s), i)
  {
    hide Bundled, IsClosed, MidFits, MidOf, Disabled;
  }

  lemma ChangeCopies(st: State, mid: string, i: nat)
    requires Inv(st) && mid in st.midToIndex && i < |st.sections|
    ensures Copied(st, i) && i != st.midToIndex[mid] ==> Copied(DisableSection(st, mid), i)
    ensures Copied(st, i) || i == st.midToIndex[mid] ==> Copied(CloseSection(st, mid), i)
  {
    hide Bundled, IsClosed, MidFits, MidOf, Disabled, Closed;
  }

  lemma UpdateCopies(st: State, ice: IceParameters, role: string, i: nat)
    requires i < |st.sections|
    ensures Copied(UpdateIce(st, ice), i) && Copied(UpdateRole(st, role), i)
  {
    hide WithIce, WithRole;
  }

  /** The slots that a step copies. */
  predicate Copies(st: State, step: Step, i: nat) {
    match step
    case Close(mid) => mid in st.midToIndex && i == st.midToIndex[mid]
    case SetIce(_) => true
    case SetRole(_) => true
    case Send(_, _, _) => i == FirstClosed(st.sections)
    case Receive(_, _, _, _, _) => i == FirstClosed(st.sections)
    case SendData(_) => i == |st.sections|
    case ReceiveData => i == |st.sections|
    case _ => false
  }

  /** A step keeps copies current, except that disabling does not copy. */
  lemma StepCopies(st: State, step: Step, i: nat)
    requires Inv(st) && Allowed(st, step) && i < |Next(st, step).sections|
    requires Copied(st, i) || Copies(st, step, i)
    requires step.Disable? ==> i != st.midToIndex[step.mid]
    ensures Copied(Next(st, step), i)
  {
    IndexedMeans(st);
    StepLength(st, step);
    hide Copied, Inv, AnswerSection, OfferSection, DataOfferSection, Add, Place, DisableSection, CloseSection, UpdateIce,
      UpdateRole, SdpState.Printed, Good, MidFits, MidOf, IsClosed;
    match step
    case Send(offer, answer, options) =>
      AnswerIsGood(st.transport, offer, answer, options);
      GoodMeans(AnswerSection(st.transport, offer, answer, options));
      PlaceCopies(st, AnswerSection(st.transport, offer, answer, options), i);
    case SendData(offer) =>
      AnswerIsGood(st.transport, offer, NO_PARAMETERS, None);
      GoodMeans(AnswerSection(st.transport, offer, NO_PARAMETERS, None));
      PlaceCopies(st, AnswerSection(st.transport, offer, NO_PARAMETERS, None), i);
    case Receive(mid, kind, params, streamId, trackId) =>
      OfferIsGood(st.transport, mid, kind, params, streamId, trackId);
      GoodMeans(OfferSection(st.transport, mid, kind, params, streamId, trackId));
      PlaceCopies(st, OfferSection(st.transport, mid, kind, params, streamId, trackId), i);
    case ReceiveData =>
      DataIsGood(st.transport);
      GoodMeans(DataOfferSection(st.transport));
      PlaceCopies(st, DataOfferSection(st.transport), i);
    case Disable(mid) => ChangeCopies(st, mid, i);
    case Close(mid) => ChangeCopies(st, mid, i);
    case SetIce(ice) => UpdateCopies(st, ice, "", i);
    case SetRole(role) => UpdateCopies(st, st.transport.ice, role, i);
    case GetSdp => PrintCopies(st, i);
  }

  lemma PrintCopies(st: State, i: nat)
    requires Inv(st) && Copied(st, i)
    ensures Copied(SdpState.Printed(st), i)
  {
    PrintInv(st);
    hide SdpState.Printed, Inv;
  }

  /** In every reachable state the printed copy of a slot is its section's object, unless it was disabled since. */
  lemma {:induction false} CopiesAreCurrent(t: Transport, steps: seq<Step>, i: nat)
    requires After(t, steps).Some? && i < |After(t, steps).value.sections|
    ensures i !in Stale(t, steps) ==> Copied(After(t, steps).value, i)
  {
    hide Next, Inv, FirstClosed, Copied, Allowed, Initial;
    if steps == [] {
      NothingAtFirst(t);
    } else if i !in Stale(t, steps) {
      var front, step := steps[..|steps| - 1], steps[|steps| - 1];
      var st := After(t, front).value;
      StepLength(st, step);
      IndexedMeans(st);
      if i < |st.sections| { CopiesAreCurrent(t, front, i); }
      KnownMid(st, step);
      if i == |st.sections| { AddedIsCopied(st, step); }
      StepCopies(st, step, i);
    }
  }

  lemma KnownMid(st: State, step: Step)
    requires Inv(st) && Allowed(st, step)
    ensures step.Disable? || step.Close? ==> step.mid in st.midToIndex
  {}

  lemma AddedIsCopied(st: State, step: Step)
    requires Inv(st) && AllIdentified(st.sections) && Adds(st, step)
    ensures Copies(st, step, |st.sections|)
  {}

  // ---- Mids that are not known ----

  /** Closing or disabling a mid that is not known breaks the index of the mids; a known mid never does. */
  lemma UnknownMid(st: State, mid: string)
    requires Inv(st) && st.sections != []
    ensures Inv(CloseSection(st, mid)) <==> mid in st.midToIndex
    ensures Inv(DisableSection(st, mid)) <==> mid in st.midToIndex
    ensures mid !in st.midToIndex ==> ClosedAt(CloseSection(st, mid), 0)
  {
    hide Bundled, MidFits, Disabled, Closed, IsClosed, MidOf;
    if mid in st.midToIndex {
      CloseInv(st, mid);
      DisableInv(st, mid);
    } else {
      ChangedIdentified(st.sections[0].fields);
      assert MidAt(CloseSection(st, mid), 0) == MidAt(st, 0) == st.firstMid;
      assert MidAt(DisableSection(st, mid), 0) == MidAt(st, 0);
      assert CloseSection(st, mid).midToIndex[mid] == 0 && DisableSection(st, mid).midToIndex[mid] == 0;
    }
  }

  lemma Snoc(t: Transport, steps: seq<Step>, step: Step)
    requires After(t, steps).Some? && Allowed(After(t, steps).value, step)
    ensures After(t, steps + [step]) == Some(Next(After(t, steps).value, step))
  {
    hide Inv, Allowed, Next, Initial;
    assert (steps + [step])[..|steps|] == steps;
  }

  lemma DataSectionOnly(t: Transport)
    ensures AllIdentified(Initial(t).sections) && Identified(DataOfferSection(t).fields)
    ensures var run := After(t, [ReceiveData]); run.Some? && run.value == Add(Initial(t), DataOfferSection(t))
    ensures |Add(Initial(t), DataOfferSection(t)).sections| == 1
    ensures Add(Initial(t), DataOfferSection(t)).midToIndex == map["datachannel" := 0]
  {
    hide DataOfferSection, Bundled, Identified, MidOf;
    DataIsGood(t);
    assert "datachannel" != "" && MidFits("datachannel");
    Snoc(t, [], ReceiveData);
    assert [] + [ReceiveData] == [ReceiveData];
  }

  /** In the session that has just a data section, closing or disabling the mid "x" breaks the index. */
  lemma UnknownMidBreaks(t: Transport)
    ensures var run := After(t, [ReceiveData]);
            run.Some? && "x" !in run.value.midToIndex && InRange(run.value, "x")
            && !Inv(CloseSection(run.value, "x")) && !Inv(DisableSection(run.value, "x")) && ClosedAt(CloseSection(run.value, "x"), 0)
  {
    hide Inv, CloseSection, DisableSection, DataOfferSection, Add;
    DataSectionOnly(t);
    IndexedMeans(After(t, [ReceiveData]).value);
    UnknownMid(After(t, [ReceiveData]).value, "x");
  }

  // ---- A data section that wastes a slot ----

  const ONE_SOURCE := RtpParameters([], [], [RtpEncoding(1, None)], None)
  const RECEIVE_A := Receive("a", "audio", ONE_SOURCE, "", "")
  const RECEIVE_B := Receive("b", "audio", ONE_SOURCE, "", "")

  function ReceivedA(t: Transport): Section { OfferSection(t, "a", "audio", ONE_SOURCE, "", "") }

  function ReceivedB(t: Transport): Section { OfferSection(t, "b", "audio", ONE_SOURCE, "", "") }

  lemma TwoOpen(t: Transport)
    ensures Good(ReceivedA(t)) && Good(ReceivedB(t)) && Identified(ReceivedA(t).fields) && Identified(ReceivedB(t).fields)
    ensures MidOf(ReceivedA(t).fields) == "a" && MidOf(ReceivedB(t).fields) == "b"
    ensures AllIdentified([ReceivedA(t)])
    ensures After(t, [RECEIVE_A] + [RECEIVE_B]) == Some(Add(Add(Initial(t), ReceivedA(t)), ReceivedB(t)))
  {
    hide OfferSection, Bundled, MidOf;
    assert MidFits("a") && MidFits("b");
    OfferIsGood(t, "a", "audio", ONE_SOURCE, "", "");
    OfferIsGood(t, "b", "audio", ONE_SOURCE, "", "");
    Snoc(t, [], RECEIVE_A);
    assert [] + [RECEIVE_A] == [RECEIVE_A];
    Snoc(t, [RECEIVE_A], RECEIVE_B);
  }

  lemma TwoSections(t: Transport, a: Section, b: Section)
    requires Identified(a.fields) && Identified(b.fields) && MidOf(a.fields) == "a" && MidOf(b.fields) == "b" && AllIdentified([a])
    ensures var st := Add(Add(Initial(t), a), b);
            |st.sections| == 2 && st.firstMid == "a" && st.midToIndex == map["a" := 0, "b" := 1]
  {
    hide Bundled, MidOf, Identified;
    assert Initial(t).sections == [];
  }

  lemma ClosingCloses(st: State, mid: string)
    requires Inv(st) && mid in st.midToIndex && mid != st.firstMid
    ensures !AllAreOpen(CloseSection(st, mid).sections) && |CloseSection(st, mid).sections| == |st.sections|
    ensures CloseSection(st, mid).midToIndex == st.midToIndex
  {
    hide Bundled, MidOf, Closed, Disabled, IsClosed;
    ChangedIdentified(st.sections[st.midToIndex[mid]].fields);
    assert IsClosed(CloseSection(st, mid).sections[st.midToIndex[mid]].fields);
    FirstClosedMeans(CloseSection(st, mid).sections);
  }

  lemma ThenClosed(t: Transport)
    ensures var run := After(t, [RECEIVE_A] + [RECEIVE_B] + [Close("b")]);
            run.Some? && !AllAreOpen(run.value.sections) && |run.value.sections| == 2 && "datachannel" !in run.value.midToIndex
  {
    hide After, ReceivedA, ReceivedB, Add, CloseSection, AllAreOpen, Inv, Initial;
    TwoOpen(t);
    TwoSections(t, ReceivedA(t), ReceivedB(t));
    Snoc(t, [RECEIVE_A] + [RECEIVE_B], Close("b"));
    ClosingCloses(After(t, [RECEIVE_A] + [RECEIVE_B]).value, "b");
  }

  /** A data section received while a section is closed is a third section, though no three were ever open. */
  lemma DataWastesSlot(t: Transport)
    ensures var steps := [RECEIVE_A] + [RECEIVE_B] + [Close("b")] + [ReceiveData];
            After(t, steps).Some? && |After(t, steps).value.sections| == 3 && MaxOpen(t, steps) < 3
  {
    hide Inv, MaxOpen, DataOfferSection, Bundled, MidOf, IsClosed, Identified;
    var front := [RECEIVE_A] + [RECEIVE_B] + [Close("b")];
    var steps := front + [ReceiveData];
    ThenClosed(t);
    var st := After(t, front).value;
    assert MidFits("datachannel");
    Snoc(t, front, ReceiveData);
    DataIsGood(t);
    assert steps[..|steps| - 1] == front;
    IndexedMeans(After(t, steps).value);
    FirstClosedMeans(st.sections);
    FirstClosedMeans(After(t, steps).value.sections);
    assert After(t, steps).value.sections[..2] == st.sections;
    SlotsAreNeeded(t, steps);
  }
}
