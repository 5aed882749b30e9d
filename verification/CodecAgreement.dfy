/** The codecs of an answer section are always found among the offered ones, and what the options do to those. */
module CodecAgreement {
  import opened Prelude
  import opened RtpParams
  import opened MediaObjects
  import opened Capabilities
  import opened Negotiation
  import opened SendReceive
  import opened MediaSectionClass

  /** RTP parameters whose codecs have the payload types of negotiated ones, in order. */
  predicate TypesOf(cs: seq<Codec>, sent: seq<SendCodec>) {
    |cs| == |sent| && forall i :: 0 <= i < |cs| ==> cs[i].payloadType == sent[i].payloadType
  }

  lemma {:induction false} IndexOfType(cs: seq<Codec>, i: nat)
    requires i < |cs|
    ensures CodecIndex(cs, cs[i].payloadType) <= i
  {
    if i > 0 && cs[0].payloadType != cs[i].payloadType { IndexOfType(cs[1..], i - 1); }
  }

  /**
    For every negotiation, whenever the kind can be sent, the unchecked search of the answer section
    for the offered codec of each of its codecs succeeds.
   */
  lemma AnswerCodecsAreOffered(local: RtpCapabilities, remote: RtpCapabilities, calls: H264Calls, kind: string,
                               offered: seq<Codec>, answers: seq<Codec>)
    requires Directed(remote.exts) && Valids(local.codecs)
    requires CanSend(Negotiated(local, remote, calls), kind)
    requires Sending(Negotiated(local, remote, calls), kind).codecs != []
            && SendingRemote(Negotiated(local, remote, calls), kind).codecs != []
    requires TypesOf(offered, FirstCodecs(Sending(Negotiated(local, remote, calls), kind).codecs))
    requires TypesOf(answers, FirstCodecs(SendingRemote(Negotiated(local, remote, calls), kind).codecs))
    ensures AllOffered(offered, answers)
  {
    hide Negotiated, Sending, SendingRemote, FirstCodecs, CanSend, Valids;
    NegotiatedOfferAndAnswerAgree(local, remote, calls, kind);
    forall a | a in answers ensures CodecIndex(offered, a.payloadType) < |offered| {
      var i :| 0 <= i < |answers| && answers[i] == a;
      IndexOfType(offered, i);
    }
  }

  // ---- The options in the offered codecs ----

  /** The first offered codec with its payload type. */
  predicate FirstOfType(offered: seq<Codec>, i: nat) {
    i < |offered| && forall k :: 0 <= k < i ==> offered[k].payloadType != offered[i].payloadType
  }

  lemma OneOffered(offered: seq<Codec>, answer: Codec, options: CodecOptions, i: nat)
    requires CodecIndex(offered, answer.payloadType) < |offered| && i < |offered|
    ensures OfferTuned(offered, answer, Some(options))[i]
         == if FirstOfType(offered, i) && offered[i].payloadType == answer.payloadType
            then offered[i].(parameters := OfferParameters(answer, offered[i].parameters, options))
            else offered[i]
  {
    hide OfferParameters;
  }

  /** No two answered codecs have the same payload type. */
  predicate TypesDiffer(cs: seq<Codec>) { forall i, j :: 0 <= i < j < |cs| ==> cs[i].payloadType != cs[j].payloadType }

  predicate HasType(cs: seq<Codec>, payloadType: nat) { exists k :: 0 <= k < |cs| && cs[k].payloadType == payloadType }

  /**
    When the answered codecs have distinct payload types, each offered codec that is the first of its type
    gets the options as the answered codec of the type has it, and every other offered codec stays.
   */
  lemma {:induction false} OfferedCodecs(offered: seq<Codec>, answers: seq<Codec>, options: CodecOptions, i: nat)
    requires AllOffered(offered, answers) && TypesDiffer(answers) && i < |offered|
    ensures !(FirstOfType(offered, i) && HasType(answers, offered[i].payloadType)) ==>
              OfferTunedAll(offered, answers, Some(options))[i] == offered[i]
    ensures forall k :: 0 <= k < |answers| && FirstOfType(offered, i) && answers[k].payloadType == offered[i].payloadType ==>
              OfferTunedAll(offered, answers, Some(options))[i]
              == offered[i].(parameters := OfferParameters(answers[k], offered[i].parameters, options))
  {
    hide OfferParameters, OfferTuned, CodecIndex, HasType;
    if answers == [] {
      NothingOfType(offered[i].payloadType);
    } else {
      var front, last := answers[..|answers| - 1], answers[|answers| - 1];
      assert last in answers && forall a <- front :: a in answers;
      OfferedCodecs(offered, front, options, i);
      var before := OfferTunedAll(offered, front, Some(options));
      SameIndex(offered, before, last.payloadType);
      OneOffered(before, last, options, i);
      assert FirstOfType(before, i) <==> FirstOfType(offered, i);
      TypeOfLast(answers, offered[i].payloadType);
      hide FirstOfType;
    }
  }

  lemma NothingOfType(payloadType: nat)
    ensures !HasType([], payloadType)
  {}

  lemma TypeOfLast(cs: seq<Codec>, payloadType: nat)
    requires cs != [] && TypesDiffer(cs)
    ensures TypesDiffer(cs[..|cs| - 1])
    ensures HasType(cs, payloadType) <==> HasType(cs[..|cs| - 1], payloadType) || cs[|cs| - 1].payloadType == payloadType
    ensures cs[|cs| - 1].payloadType == payloadType ==> !HasType(cs[..|cs| - 1], payloadType)
  {
    var front := cs[..|cs| - 1];
    assert forall k :: 0 <= k < |front| ==> front[k] == cs[k];
  }
}
