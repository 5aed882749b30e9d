/**
  The remote session description object (mssdk/sdputil/RemoteSdp.cpp): it owns its media sections
  and keeps the index of their mids and the printed session beside them.
 */
module RemoteSdpClass {
  import opened Prelude
  import opened Text
  import opened Json
  import opened Writer
  import opened RtpParams
  import opened MediaObjects
  import opened MediaSectionClass
  import opened SdpState

  /** Each created section is in the vector once, or was deleted once. */
  ghost predicate OwnedBy(sections: seq<MediaSection>, deleted: seq<MediaSection>, created: set<MediaSection>) {
    (forall i, j :: 0 <= i < j < |sections| ==> sections[i] != sections[j])
    && (forall i, j :: 0 <= i < j < |deleted| ==> deleted[i] != deleted[j])
    && (forall s <- sections :: s !in deleted && s in created) && (forall s <- deleted :: s in created)
    && forall s <- created :: s in sections || s in deleted
  }

  lemma OwnedAdd(sections: seq<MediaSection>, deleted: seq<MediaSection>, created: set<MediaSection>, s: MediaSection)
    requires OwnedBy(sections, deleted, created) && s !in created
    ensures OwnedBy(sections + [s], deleted, created + {s})
  {}

  lemma OwnedReplace(sections: seq<MediaSection>, deleted: seq<MediaSection>, created: set<MediaSection>, idx: nat, s: MediaSection)
    requires OwnedBy(sections, deleted, created) && s !in created && idx < |sections|
    ensures OwnedBy(sections[idx := s], deleted + [sections[idx]], created + {s})
  {
    var now := sections[idx := s];
    assert sections[idx] in sections;
    forall x | x in now ensures x !in deleted + [sections[idx]] && x in created + {s} {
      var j :| 0 <= j < |now| && now[j] == x;
      if j != idx { assert sections[j] in sections && sections[j] != sections[idx]; }
    }
    assert forall j :: 0 <= j < |now| && j != idx ==> now[j] in sections;
    forall x | x in created + {s} ensures x in now || x in deleted + [sections[idx]] {
      if x in sections && x != sections[idx] {
        var i :| 0 <= i < |sections| && sections[i] == x;
        assert now[i] == x;
      } else if x == s {
        assert now[idx] == s;
      }
    }
  }

  lemma OwnedApart(sections: seq<MediaSection>, deleted: seq<MediaSection>, created: set<MediaSection>)
    requires OwnedBy(sections, deleted, created)
    ensures forall i, j :: 0 <= i < j < |sections| ==> sections[i] != sections[j]
    ensures forall s <- sections :: s in created
  {}

  class RemoteSdp {
    var transport: Transport
    var mediaSections: seq<MediaSection>
    var midToIndex: map<string, nat>
    var firstMid: string

    // The members of sdpObject that change.
    var media: seq<Fields>
    var bundleMids: string
    var sessionVersion: nat
    var icelite: bool

    /** Every section that was ever created here, and those that were deleted, in that order. */
    ghost var created: set<MediaSection>
    ghost var deleted: seq<MediaSection>

    ghost function Contents(): seq<Section>
      reads this, mediaSections
    {
      seq(|mediaSections|, i requires 0 <= i < |mediaSections| reads this, mediaSections =>
        Section(mediaSections[i].isOffer, mediaSections[i].mediaObject))
    }

    ghost function Abstract(): State
      reads this, mediaSections
    {
      State(transport, Contents(), midToIndex, firstMid, media, bundleMids, sessionVersion, icelite)
    }

    ghost predicate Owned()
      reads this
    {
      OwnedBy(mediaSections, deleted, created)
    }

    ghost predicate Valid()
      reads this, mediaSections
    {
      Owned() && Inv(Abstract())
    }

    constructor (t: Transport)
      ensures Valid() && Abstract() == Initial(t) && mediaSections == []
    {
      transport := t;
      mediaSections := [];
      midToIndex := map[];
      firstMid := "";
      media := [];
      bundleMids := "";
      sessionVersion := 0;
      icelite := t.ice.iceLite;
      created := {};
      deleted := [];
      new;
      assert Abstract() == Initial(t);
      InitialInv(t);
    }

    /** What is reused next: the first closed section, else a new one without a mid. */
    method GetNextMediaSectionIdx() returns (idx: nat, reuseMid: string)
      requires Valid()
      ensures idx == FirstClosed(Contents())
      ensures reuseMid == if idx < |mediaSections| then MidAt(Abstract(), idx) else ""
    {
      hide Inv, IsClosed, MidOf;
      IndexedMeans(Abstract());
      idx := 0;
      while idx < |mediaSections|
        invariant idx <= |mediaSections| && forall i :: 0 <= i < idx ==> !IsClosed(mediaSections[i].mediaObject)
      {
        var closed := mediaSections[idx].Closed();
        if closed {
          assert Contents()[idx].fields == mediaSections[idx].mediaObject;
          reuseMid := mediaSections[idx].GetMid();
          return;
        }
        idx := idx + 1;
      }
      reuseMid := "";
    }

    lemma StartedBundle(sections: seq<Section>)
      requires AllIdentified(sections)
      ensures Bundled(sections) == "" <==> OpenMids(sections) == []
    {
      hide IsClosed;
      var mids := OpenMids(sections);
      if mids != [] {
        OpenMidIsThere(sections);
        assert mids[0] in mids && mids[0] != "";
        assert |mids| > 1 ==> Bundled(sections) == mids[0] + [' '] + Join(mids[1..], ' ');
      }
    }

    lemma {:induction false} OpenMidIsThere(sections: seq<Section>)
      requires AllIdentified(sections)
      ensures forall mid <- OpenMids(sections) :: mid != ""
    {
      hide IsClosed;
      if sections != [] {
        assert Identified(sections[|sections| - 1].fields);
        OpenMidIsThere(sections[..|sections| - 1]);
      }
    }

    lemma BundleStep(sections: seq<Section>, i: nat)
      requires i < |sections| && AllIdentified(sections)
      ensures AllIdentified(sections[..i]) && AllIdentified(sections[..i + 1])
      ensures var before, m := Bundled(sections[..i]), sections[i].fields;
              Bundled(sections[..i + 1]) == if IsClosed(m) then before else if before == "" then MidOf(m) else before + " " + MidOf(m)
    {
      hide IsClosed, Join, MidFits;
      var before, m := sections[..i], sections[i].fields;
      assert sections[..i + 1][..i] == before && sections[..i + 1][i] == sections[i];
      assert OpenMids(before) + [] == OpenMids(before);
      assert OpenMids(sections[..i + 1]) == OpenMids(before) + if IsClosed(m) then [] else [MidOf(m)];
      StartedBundle(before);
      JoinAppend(OpenMids(before), MidOf(m), ' ');
    }

    /** The loop that joins the mids of the open sections. */
    method RegenerateBundleMids()
      requires AllIdentified(Contents())
      modifies this`bundleMids
      ensures Contents() == old(Contents()) && AllIdentified(Contents()) && bundleMids == Bundled(Contents())
    {
      hide IsClosed, Join, MidFits, Bundled, MidOf;
      var mids := "";
      ghost var sections := Contents();
      assert sections[..0] == [] && Bundled([]) == "" by { NothingBundled(); }
      for i := 0 to |mediaSections|
        invariant AllIdentified(sections[..i]) && mids == Bundled(sections[..i])
      {
        assert sections[i].fields == mediaSections[i].mediaObject;
        BundleStep(sections, i);
        var closed := mediaSections[i].Closed();
        if !closed {
          var mid := mediaSections[i].GetMid();
          if mids == "" {
            mids := mid;
          } else {
            mids := mids + " " + mid;
          }
        }
      }
      assert sections[..|mediaSections|] == sections;
      bundleMids := mids;
      assert Contents() == sections;
    }

    lemma NothingBundled()
      ensures Bundled([]) == ""
    {}

    /** A new section goes to the end. */
    method AddMediaSection(s: MediaSection)
      requires Valid() && s !in created && Good(Section(s.isOffer, s.mediaObject)) && MidOf(s.mediaObject) !in midToIndex
      modifies this
      ensures Valid() && Abstract() == Add(old(Abstract()), Section(s.isOffer, s.mediaObject))
      ensures mediaSections == old(mediaSections) + [s]
      ensures created == old(created) + {s} && deleted == old(deleted)
    {
      hide Inv, MidOf, IsClosed, MidFits, Bundled, OwnedBy, Good, Add, AllIdentified, Identified;
      ghost var st, added := Abstract(), Section(s.isOffer, s.mediaObject);
      AddFields(st, added);
      ghost var st' := Add(st, added);
      var mid := s.GetMid();
      if firstMid == "" {
        firstMid := mid;
      }
      AppendMediaSection(s);
      midToIndex := midToIndex[mid := |mediaSections| - 1];
      assert Contents() == st'.sections;
      RegenerateBundleMids();
    }

    /** Puts a section at the end of the vector and of the printed session. */
    method AppendMediaSection(s: MediaSection)
      requires Owned() && s !in created
      modifies this`mediaSections, this`media, this`created
      ensures Owned() && mediaSections == old(mediaSections) + [s] && created == old(created) + {s}
      ensures Contents() == old(Contents()) + [Section(s.isOffer, s.mediaObject)]
      ensures media == old(media) + [s.mediaObject]
    {
      hide OwnedBy;
      OwnedAdd(mediaSections, deleted, created, s);
      mediaSections := mediaSections + [s];
      created := created + {s};
      media := media + [s.mediaObject];
    }

    lemma AddFields(st: State, s: Section)
      requires Inv(st) && Good(s) && MidOf(s.fields) !in st.midToIndex
      ensures AllIdentified(st.sections) && Identified(s.fields)
              && var st' := Add(st, s);
                 Inv(st') && AllIdentified(st'.sections) && st'.sections == st.sections + [s]
                 && st'.firstMid == (if st.firstMid == "" then MidOf(s.fields) else st.firstMid)
                 && st'.midToIndex == st.midToIndex[MidOf(s.fields) := |st.sections|]
                 && st'.media == st.media + [s.fields] && st'.bundle == Bundled(st'.sections)
                 && st' == st.(sections := st'.sections, firstMid := st'.firstMid, midToIndex := st'.midToIndex,
                               media := st'.media, bundle := st'.bundle)
    {
      hide MidOf, IsClosed, MidFits, Bundled, Mirrored, Anchored;
      IndexedMeans(st);
      AddInv(st, s);
      IndexedMeans(Add(st, s));
    }

    /** A new section takes the place of a closed one, which is deleted. */
    method ReplaceMediaSection(s: MediaSection, reuseMid: string)
      requires Valid() && s !in created && Good(Section(s.isOffer, s.mediaObject)) && reuseMid in midToIndex
      requires midToIndex[reuseMid] < |mediaSections| && ClosedAt(Abstract(), midToIndex[reuseMid])
      requires MidOf(s.mediaObject) !in midToIndex || MidOf(s.mediaObject) == reuseMid
      modifies this
      ensures Valid() && Abstract() == Replace(old(Abstract()), Section(s.isOffer, s.mediaObject), reuseMid)
      ensures mediaSections == old(mediaSections)[old(midToIndex)[reuseMid] := s]
      ensures created == old(created) + {s} && deleted == old(deleted) + [old(mediaSections)[old(midToIndex)[reuseMid]]]
    {
      hide Inv, MidOf, IsClosed, MidFits, Bundled, OwnedBy, Good, Replace, AllIdentified, Identified, MidAt;
      ghost var st, added := Abstract(), Section(s.isOffer, s.mediaObject);
      var idx := midToIndex[reuseMid];
      ReplaceFields(st, added, reuseMid);
      ghost var st' := Replace(st, added, reuseMid);
      var oldMid := mediaSections[idx].GetMid();
      var newMid := s.GetMid();
      StoreMediaSection(idx, s);
      midToIndex := midToIndex - {oldMid};
      midToIndex := midToIndex[newMid := idx];
      assert Contents() == st'.sections;
      RegenerateBundleMids();
      assert Abstract() == st';
    }

    /** Puts a section into the vector and into the printed session, and deletes the one that was there. */
    method StoreMediaSection(idx: nat, s: MediaSection)
      requires Owned() && idx < |mediaSections| == |media| && s !in created
      modifies this`mediaSections, this`media, this`deleted, this`created
      ensures Owned() && mediaSections == old(mediaSections)[idx := s]
      ensures deleted == old(deleted) + [old(mediaSections)[idx]] && created == old(created) + {s}
      ensures Contents() == old(Contents())[idx := Section(s.isOffer, s.mediaObject)]
      ensures media == old(media)[idx := s.mediaObject]
    {
      hide OwnedBy;
      OwnedReplace(mediaSections, deleted, created, idx, s);
      deleted := deleted + [mediaSections[idx]];
      mediaSections := mediaSections[idx := s];
      created := created + {s};
      media := media[idx := s.mediaObject];
    }

    lemma ReplaceFields(st: State, s: Section, reuseMid: string)
      requires Inv(st) && Good(s) && reuseMid in st.midToIndex
      requires st.midToIndex[reuseMid] < |st.sections| && ClosedAt(st, st.midToIndex[reuseMid])
      requires MidOf(s.fields) !in st.midToIndex || MidOf(s.fields) == reuseMid
      ensures var idx := st.midToIndex[reuseMid];
              AllIdentified(st.sections) && Identified(st.sections[idx].fields) && Identified(s.fields)
              && InRange(st, reuseMid)
              && var st' := Replace(st, s, reuseMid);
                 Inv(st') && AllIdentified(st'.sections) && st'.sections == st.sections[idx := s]
                 && st'.midToIndex == (st.midToIndex - {MidOf(st.sections[idx].fields)})[MidOf(s.fields) := idx]
                 && st'.media == st.media[idx := s.fields] && st'.bundle == Bundled(st'.sections)
                 && st' == st.(sections := st'.sections, midToIndex := st'.midToIndex, media := st'.media, bundle := st'.bundle)
    {
      hide MidOf, IsClosed, MidFits, Bundled, Mirrored, Anchored;
      var idx := st.midToIndex[reuseMid];
      IndexedMeans(st);
      ReplaceInv(st, s, idx);
      IndexedMeans(Replace(st, s, reuseMid));
    }

    /** Add the section, or put it in the place of the first closed one. */
    method PlaceMediaSection(s: MediaSection)
      requires Valid() && s !in created && Good(Section(s.isOffer, s.mediaObject))
      requires MidOf(s.mediaObject) !in midToIndex
               || (FirstClosed(Contents()) < |mediaSections| && MidOf(s.mediaObject) == MidAt(Abstract(), FirstClosed(Contents())))
      modifies this
      ensures Valid()
      ensures Abstract() == (IndexedMeans(old(Abstract())); GoodMeans(Section(s.isOffer, s.mediaObject));
                             Place(old(Abstract()), Section(s.isOffer, s.mediaObject)))
    {
      hide Inv, MidOf, IsClosed, MidFits, Add, Replace;
      IndexedMeans(Abstract());
      var idx, reuseMid := GetNextMediaSectionIdx();
      if idx < |mediaSections| {
        ReplaceMediaSection(s, reuseMid);
      } else {
        AddMediaSection(s);
      }
    }

    /** A section for media that the client sends, in the place that GetNextMediaSectionIdx gave. */
    method Send(offer: OfferMedia, reuseMid: string, offered: seq<Codec>, answer: RtpParameters, options: Option<CodecOptions>)
      returns (changed: seq<Codec>)
      requires Valid() && Allowed(Abstract(), Step.Send(offer, answer, options))
      requires var idx := FirstClosed(Contents()); reuseMid == if idx < |mediaSections| then MidAt(Abstract(), idx) else ""
      requires options.Some? ==> AllOffered(offered, answer.codecs)
      modifies this
      ensures Valid() && Abstract() == Next(old(Abstract()), Step.Send(offer, answer, options))
      ensures changed == OfferTunedAll(offered, answer.codecs, options)
    {
      hide Inv, MidOf, IsClosed, MidFits, Place, Good, AllOffered, OfferTunedAll;
      ghost var st := Abstract();
      IndexedMeans(st);
      AnswerIsGood(transport, offer, answer, options);
      var s := new MediaSection.Answer(transport.ice, transport.candidates, transport.role, transport.sctp, offer, answer, options);
      var tuned: seq<Codec>;
      tuned, changed := TuneCodecs(offered, answer.codecs, options);
      assert Section(s.isOffer, s.mediaObject) == AnswerSection(transport, offer, answer, options);
      PlaceAt(s, reuseMid);
    }

    /** Add the section, or put it in the place of the one with the given mid. */
    method PlaceAt(s: MediaSection, reuseMid: string)
      requires Valid() && s !in created && Good(Section(s.isOffer, s.mediaObject))
      requires var idx := FirstClosed(Contents()); reuseMid == if idx < |mediaSections| then MidAt(Abstract(), idx) else ""
      requires MidOf(s.mediaObject) !in midToIndex
               || (FirstClosed(Contents()) < |mediaSections| && MidOf(s.mediaObject) == MidAt(Abstract(), FirstClosed(Contents())))
      modifies this
      ensures Valid()
      ensures Abstract() == (IndexedMeans(old(Abstract())); GoodMeans(Section(s.isOffer, s.mediaObject));
                             Place(old(Abstract()), Section(s.isOffer, s.mediaObject)))
    {
      hide Inv, MidOf, IsClosed, MidFits, Add, Replace;
      IndexedMeans(Abstract());
      NoEmptyMid(Abstract());
      if reuseMid != "" {
        ReplaceMediaSection(s, reuseMid);
      } else {
        AddMediaSection(s);
      }
    }

    lemma NoEmptyMid(st: State)
      requires AllIdentified(st.sections)
      ensures forall i :: 0 <= i < |st.sections| ==> MidAt(st, i) != ""
    {}

    /** A section for data that the client sends; it is always added. */
    method SendSctpAssociation(offer: OfferMedia)
      requires Valid() && Allowed(Abstract(), SendData(offer))
      modifies this
      ensures Valid() && Abstract() == Next(old(Abstract()), SendData(offer))
    {
      hide Inv, MidOf, IsClosed, MidFits, Add, Good;
      IndexedMeans(Abstract());
      AnswerIsGood(transport, offer, NO_PARAMETERS, None);
      var s := new MediaSection.Answer(transport.ice, transport.candidates, transport.role, transport.sctp, offer, NO_PARAMETERS, None);
      AddMediaSection(s);
    }

    method RecvSctpAssociation()
      requires Valid() && Allowed(Abstract(), ReceiveData)
      modifies this
      ensures Valid() && Abstract() == Next(old(Abstract()), ReceiveData)
    {
      hide Inv, MidOf, IsClosed, MidFits, Add, Good;
      IndexedMeans(Abstract());
      DataIsGood(transport);
      var s := new MediaSection.Offer(transport.ice, transport.candidates, Some(transport.sctp), "datachannel", "application", NO_PARAMETERS, "", "");
      AddMediaSection(s);
    }

    /** A section for media that the client receives. */
    method Receive(mid: string, kind: string, params: RtpParameters, streamId: string, trackId: string)
      requires Valid() && Allowed(Abstract(), Step.Receive(mid, kind, params, streamId, trackId))
      modifies this
      ensures Valid() && Abstract() == Next(old(Abstract()), Step.Receive(mid, kind, params, streamId, trackId))
    {
      hide Inv, MidOf, IsClosed, MidFits, Place, Good;
      IndexedMeans(Abstract());
      OfferIsGood(transport, mid, kind, params, streamId, trackId);
      var s := new MediaSection.Offer(transport.ice, transport.candidates, None, mid, kind, params, streamId, trackId);
      PlaceMediaSection(s);
    }

    method UpdateIceParameters(ice: IceParameters)
      requires Valid()
      modifies this, mediaSections
      ensures Valid() && Abstract() == UpdateIce(old(Abstract()), ice) && mediaSections == old(mediaSections)
    {
      hide Inv, WithIceAll, OwnedBy;
      ghost var st := Abstract();
      SetIceInv(st, ice);
      IndexedMeans(st);
      transport := transport.(ice := ice);
      if ice.iceLite {
        icelite := true;
      }
      assert Contents() == st.sections;
      SetIceInSections(ice);
    }

    /** The loop that gives every section, and its copy, the parameters. */
    method SetIceInSections(ice: IceParameters)
      requires Owned() && |media| == |mediaSections|
      modifies this`media, mediaSections
      ensures Contents() == WithIceAll(old(Contents()), ice) && media == Objects(Contents())
    {
      hide WithIce, OwnedBy;
      OwnedApart(mediaSections, deleted, created);
      ghost var sections := Contents();
      for idx := 0 to |mediaSections|
        invariant |media| == |mediaSections|
        invariant forall i :: 0 <= i < |mediaSections| ==> mediaSections[i].isOffer == sections[i].offer
        invariant forall i :: 0 <= i < idx ==> mediaSections[i].mediaObject == media[i] == WithIce(sections[i].fields, ice)
        invariant forall i :: idx <= i < |mediaSections| ==> mediaSections[i].mediaObject == sections[i].fields
      {
        mediaSections[idx].SetIceParameters(ice);
        media := media[idx := mediaSections[idx].mediaObject];
      }
      assert Contents() == WithIceAll(sections, ice);
      assert media == Objects(WithIceAll(sections, ice));
    }

    method UpdateDtlsRole(role: string)
      requires Valid()
      modifies this, mediaSections
      ensures Valid() && Abstract() == UpdateRole(old(Abstract()), role) && mediaSections == old(mediaSections)
    {
      hide Inv, WithRoleAll, OwnedBy;
      ghost var st := Abstract();
      SetRoleInv(st, role);
      IndexedMeans(st);
      transport := transport.(role := role);
      if transport.ice.iceLite {
        icelite := true;
      }
      assert Contents() == st.sections;
      SetRoleInSections(role);
    }

    /** The loop that gives every section, and its copy, the role. */
    method SetRoleInSections(role: string)
      requires Owned() && |media| == |mediaSections|
      modifies this`media, mediaSections
      ensures Contents() == WithRoleAll(old(Contents()), role) && media == Objects(Contents())
    {
      hide WithRole, OwnedBy;
      OwnedApart(mediaSections, deleted, created);
      ghost var sections := Contents();
      for idx := 0 to |mediaSections|
        invariant |media| == |mediaSections|
        invariant forall i :: 0 <= i < |mediaSections| ==> mediaSections[i].isOffer == sections[i].offer
        invariant forall i :: 0 <= i < idx ==>
          mediaSections[i].mediaObject == media[i] == WithRole(sections[i].offer, sections[i].fields, role)
        invariant forall i :: idx <= i < |mediaSections| ==> mediaSections[i].mediaObject == sections[i].fields
      {
        mediaSections[idx].SetDtlsRole(role);
        media := media[idx := mediaSections[idx].mediaObject];
      }
      assert Contents() == WithRoleAll(sections, role);
      assert media == Objects(WithRoleAll(sections, role));
    }

    method DisableMediaSection(mid: string)
      requires Valid() && mid in midToIndex
      modifies this, mediaSections
      ensures Valid() && Abstract() == DisableSection(old(Abstract()), mid) && mediaSections == old(mediaSections)
    {
      hide Inv, Disabled;
      ghost var st := Abstract();
      IndexedMeans(st);
      DisableInv(st, mid);
      var idx := midToIndex[mid];
      mediaSections[idx].Disable();
      assert Contents() == st.sections[idx := st.sections[idx].(fields := Disabled(st.sections[idx].fields))];
    }

    method CloseMediaSection(mid: string)
      requires Valid() && mid in midToIndex
      modifies this, mediaSections
      ensures Valid() && Abstract() == CloseSection(old(Abstract()), mid) && mediaSections == old(mediaSections)
    {
      hide Inv, Disabled, MediaObjects.Closed, Bundled, IsClosed, MidFits, MidOf;
      ghost var st := Abstract();
      IndexedMeans(st);
      CloseInv(st, mid);
      var idx := midToIndex[mid];
      ChangedIdentified(st.sections[idx].fields);
      if mid == firstMid {
        mediaSections[idx].Disable();
      } else {
        mediaSections[idx].Close();
      }
      media := media[idx := mediaSections[idx].mediaObject];
      assert Contents() == st.sections[idx := st.sections[idx].(fields := CloseObject(st, mid, st.sections[idx].fields))];
      RegenerateBundleMids();
    }

    /** The next version of the session, printed. */
    method PrintedSdp() returns (sdp: string)
      requires Valid()
      modifies this
      ensures Valid() && Abstract() == SdpState.Printed(old(Abstract())) && mediaSections == old(mediaSections)
      ensures sdp == Written(SdpObject(Abstract()))
    {
      hide Inv, Written, Defaults, Writer.Text, LocationLines, MediaLines;
      ghost var st := Abstract();
      PrintInv(st);
      sessionVersion := (sessionVersion + 1) % TWO_32;
      var session := SdpObject(State(transport, [], midToIndex, firstMid, media, bundleMids, sessionVersion, icelite));
      assert session == SdpObject(Abstract());
      assert st.media == SdpState.Printed(st).media;
      var completed: Fields;
      sdp, completed := Write(session);
      var copies, printed: seq<Fields> := media, [];
      for i := 0 to |copies|
        invariant printed == CompletedAll(copies[..i])
      {
        printed := printed + [FieldsOf(WithPayloads(Obj(copies[i])))];
      }
      assert copies[..|copies|] == copies;
      media := printed;
      assert Abstract() == SdpState.Printed(st);
    }
  }
}
