/**
  What validation accepts and what it fills in, told member by member and without the functions that
  validate (mssdk/sdputil/jsonvalidate.cpp, lines 33-234).
 */
module CapabilityDefaults {
  import opened Prelude
  import opened Regex
  import opened Json
  import opened RtpParams
  import opened Capabilities

  predicate HasText(o: Fields, key: Key) { key in o && o[key].Str? }

  predicate HasNumber(o: Fields, key: Key) { key in o && o[key].Num? }

  /** Every other member is as it was. */
  predicate SameBut(before: Fields, after: Fields, changed: set<Key>) {
    (forall k <- before.Keys :: k !in changed ==> k in after && after[k] == before[k])
    && forall k <- after.Keys :: k !in changed ==> k in before
  }

  // ---- Feedback ----

  predicate FeedbackFits(fb: Json) { fb.Obj? && HasText(fb.fields, Type) }

  /** The parameter of a feedback defaults to the empty text. */
  predicate FeedbackFilled(fb: Json, r: Json) {
    fb.Obj? && r.Obj? && SameBut(fb.fields, r.fields, {Parameter}) && Parameter in r.fields
    && r.fields[Parameter] == if HasText(fb.fields, Parameter) then fb.fields[Parameter] else Str("")
  }

  lemma FeedbackMeans(fb: Json)
    ensures ValidatedFeedback(fb).Ok? <==> FeedbackFits(fb)
    ensures ValidatedFeedback(fb).Ok? ==> FeedbackFilled(fb, ValidatedFeedback(fb).value)
  {}

  lemma {:induction false} FeedbacksMean(fbs: seq<Json>)
    ensures ValidatedFeedbacks(fbs).Ok? <==> forall fb <- fbs :: FeedbackFits(fb)
    ensures ValidatedFeedbacks(fbs).Ok? ==>
              var r := ValidatedFeedbacks(fbs).value; |r| == |fbs| && forall i :: 0 <= i < |fbs| ==> FeedbackFilled(fbs[i], r[i])
  {
    if fbs != [] {
      var front, fb := fbs[..|fbs| - 1], fbs[|fbs| - 1];
      FeedbacksMean(front);
      FeedbackMeans(fb);
      assert fbs == front + [fb];
      hide ValidatedFeedback, FeedbackFits, FeedbackFilled;
    }
  }

  // ---- Codecs ----

  /** "audio/" or "video/" in any case, and then something in one line. */
  predicate MimeFits(s: string) {
    |s| > 6 && (Lower(s[..6]) == "audio/" || Lower(s[..6]) == "video/") && forall i :: 6 <= i < |s| ==> s[i] != '\n' && s[i] != '\r'
  }

  lemma MimeKindMeans(s: string)
    ensures MimeKind(s) == if MimeFits(s) then Some(s[..5]) else None
  {
    if |s| > 6 {
      AllDots(s[6..]);
      assert forall i :: 6 <= i < |s| ==> s[i] == s[6..][i - 6];
    }
    hide Lower, All;
  }

  lemma {:induction false} AllDots(s: string)
    ensures All(Dot, s) <==> forall i :: 0 <= i < |s| ==> s[i] != '\n' && s[i] != '\r'
  {
    assert forall i :: 0 <= i < |s| ==> (In(Dot, s[i]) <==> s[i] != '\n' && s[i] != '\r');
  }

  /** Parameters are texts, numbers or null, and apt is an integer. */
  predicate ParameterFits(key: Key, v: Json) { if key.Apt? then v.Num? else v.Str? || v.Num? || v.Float? || v.Null? }

  predicate ParametersFit(o: Fields) {
    Parameters in o && o[Parameters].Obj? ==> forall key <- o[Parameters].fields.Keys :: ParameterFits(key, o[Parameters].fields[key])
  }

  predicate FeedbacksFit(o: Fields) {
    Key.RtcpFeedback in o && o[Key.RtcpFeedback].Arr? ==> forall fb <- o[Key.RtcpFeedback].elems :: FeedbackFits(fb)
  }

  predicate CodecFits(codec: Json) {
    codec.Obj?
    && var o := codec.fields;
       HasText(o, MimeType) && MimeFits(o[MimeType].s) && (PreferredPayloadType in o ==> o[PreferredPayloadType].Num?)
       && HasNumber(o, ClockRate) && ParametersFit(o) && FeedbacksFit(o)
  }

  predicate ChannelsFilled(kind: string, o: Fields, r: Fields) {
    if kind == "audio" then Channels in r && r[Channels] == if HasNumber(o, Channels) then o[Channels] else Num(1)
    else Channels !in r
  }

  predicate FeedbacksFilled(o: Fields, r: Fields) {
    Key.RtcpFeedback in r && r[Key.RtcpFeedback].Arr?
    && if Key.RtcpFeedback in o && o[Key.RtcpFeedback].Arr? then
         var before, after := o[Key.RtcpFeedback].elems, r[Key.RtcpFeedback].elems;
         |after| == |before| && forall i :: 0 <= i < |before| ==> FeedbackFilled(before[i], after[i])
       else r[Key.RtcpFeedback].elems == []
  }

  predicate ParametersFilled(o: Fields, r: Fields) {
    Parameters in r && r[Parameters] == if Parameters in o && o[Parameters].Obj? then o[Parameters] else Obj(map[])
  }

  /**
    The kind is what the MIME type begins with, as it is written there; an audio codec has one channel
    unless it says otherwise, and no other codec has channels.
   */
  predicate CodecFilled(codec: Json, r: Json)
    requires CodecFits(codec)
  {
    var o := codec.fields;
    r.Obj? && SameBut(o, r.fields, {Key.Kind, Channels, Parameters, Key.RtcpFeedback})
    && Key.Kind in r.fields && r.fields[Key.Kind] == Str(o[MimeType].s[..5])
    && ChannelsFilled(o[MimeType].s[..5], o, r.fields) && ParametersFilled(o, r.fields) && FeedbacksFilled(o, r.fields)
  }

  lemma CodecAccepted(codec: Json)
    ensures ValidatedCodec(codec).Ok? <==> CodecFits(codec)
  {
    hide MimeKind, MimeFits, FeedbackFits, ValidatedFeedbacks, WithChannels;
    if codec.Obj? && HasText(codec.fields, MimeType) {
      MimeKindMeans(codec.fields[MimeType].s);
      FeedbacksMean(ArrayOr(codec.fields, Key.RtcpFeedback));
    }
  }

  lemma CodecMeans(codec: Json)
    ensures ValidatedCodec(codec).Ok? <==> CodecFits(codec)
    ensures ValidatedCodec(codec).Ok? ==> CodecFilled(codec, ValidatedCodec(codec).value)
  {
    CodecAccepted(codec);
    hide MimeKind, MimeFits, FeedbackFits, FeedbackFilled, ValidatedFeedbacks, ParametersFit, FeedbacksFit, ParametersValid;
    if CodecFits(codec) {
      MimeKindMeans(codec.fields[MimeType].s);
      FeedbacksMean(ArrayOr(codec.fields, Key.RtcpFeedback));
    }
  }

  // ---- Header extensions ----

  predicate ExtFits(ext: Json) {
    ext.Obj?
    && var o := ext.fields;
       HasText(o, Key.Kind) && (o[Key.Kind].s == "audio" || o[Key.Kind].s == "video") && HasText(o, Uri) && o[Uri].s != ""
       && HasNumber(o, PreferredId) && (PreferredEncrypt in o ==> o[PreferredEncrypt].Bool?)
       && (Key.Direction in o ==> o[Key.Direction].Str?)
  }

  /** An extension is not encrypted and goes both ways unless it says otherwise. */
  predicate ExtFilled(ext: Json, r: Json) {
    ext.Obj? && r.Obj? && SameBut(ext.fields, r.fields, {PreferredEncrypt, Key.Direction})
    && PreferredEncrypt in r.fields && Key.Direction in r.fields
    && r.fields[PreferredEncrypt] == (if PreferredEncrypt in ext.fields then ext.fields[PreferredEncrypt] else Bool(false))
    && r.fields[Key.Direction] == if Key.Direction in ext.fields then ext.fields[Key.Direction] else Str("sendrecv")
  }

  lemma ExtMeans(ext: Json)
    ensures ValidatedExt(ext).Ok? <==> ExtFits(ext)
    ensures ValidatedExt(ext).Ok? ==> ExtFilled(ext, ValidatedExt(ext).value)
  {}

  // ---- Capabilities ----

  lemma {:induction false} CodecsMean(codecs: seq<Json>)
    ensures ValidatedCodecs(codecs).Ok? <==> forall codec <- codecs :: CodecFits(codec)
    ensures ValidatedCodecs(codecs).Ok? ==>
              var r := ValidatedCodecs(codecs).value;
              |r| == |codecs| && forall i :: 0 <= i < |codecs| ==> CodecFits(codecs[i]) && CodecFilled(codecs[i], r[i])
  {
    if codecs != [] {
      var front, codec := codecs[..|codecs| - 1], codecs[|codecs| - 1];
      CodecsMean(front);
      CodecMeans(codec);
      assert codecs == front + [codec];
      hide ValidatedCodec, CodecFits, CodecFilled;
    }
  }

  lemma {:induction false} ExtsMean(exts: seq<Json>)
    ensures ValidatedExts(exts).Ok? <==> forall ext <- exts :: ExtFits(ext)
    ensures ValidatedExts(exts).Ok? ==>
              var r := ValidatedExts(exts).value; |r| == |exts| && forall i :: 0 <= i < |exts| ==> ExtFilled(exts[i], r[i])
  {
    if exts != [] {
      var front, ext := exts[..|exts| - 1], exts[|exts| - 1];
      ExtsMean(front);
      ExtMeans(ext);
      assert exts == front + [ext];
      hide ValidatedExt, ExtFits, ExtFilled;
    }
  }

  /** A missing list is an empty one; a member that is no list is refused. */
  predicate CapsFit(caps: Json) {
    caps.Obj?
    && (Key.Codecs in caps.fields ==>
          caps.fields[Key.Codecs].Arr? && forall codec <- caps.fields[Key.Codecs].elems :: CodecFits(codec))
    && (Key.HeaderExtensions in caps.fields ==>
          caps.fields[Key.HeaderExtensions].Arr? && forall ext <- caps.fields[Key.HeaderExtensions].elems :: ExtFits(ext))
  }

  predicate CodecsFilled(caps: Fields, r: Fields) {
    Key.Codecs in r && r[Key.Codecs].Arr?
    && var before, after := if Key.Codecs in caps && caps[Key.Codecs].Arr? then caps[Key.Codecs].elems else [], r[Key.Codecs].elems;
       |after| == |before| && forall i :: 0 <= i < |before| ==> CodecFits(before[i]) && CodecFilled(before[i], after[i])
  }

  predicate ExtsFilled(caps: Fields, r: Fields) {
    Key.HeaderExtensions in r && r[Key.HeaderExtensions].Arr?
    && var before, after := if Key.HeaderExtensions in caps && caps[Key.HeaderExtensions].Arr?
                            then caps[Key.HeaderExtensions].elems else [], r[Key.HeaderExtensions].elems;
       |after| == |before| && forall i :: 0 <= i < |before| ==> ExtFilled(before[i], after[i])
  }

  /**
    Capabilities are accepted exactly when every codec and every header extension is, and then each
    of them is there with its defaults, in its place, and no other member has changed.
   */
  lemma CapsMean(caps: Json)
    ensures Validated(caps).Ok? <==> CapsFit(caps)
    ensures Validated(caps).Ok? ==>
              Validated(caps).value.Obj? && SameBut(caps.fields, Validated(caps).value.fields, {Key.Codecs, Key.HeaderExtensions})
              && CodecsFilled(caps.fields, Validated(caps).value.fields) && ExtsFilled(caps.fields, Validated(caps).value.fields)
  {
    hide ValidatedCodecs, ValidatedExts, CodecFits, CodecFilled, ExtFits, ExtFilled;
    if caps.Obj? {
      CodecsMean(ArrayOr(caps.fields, Key.Codecs));
      ExtsMean(ArrayOr(caps.fields, Key.HeaderExtensions));
    }
  }

  // ---- Records ----

  lemma {:induction false} FeedbackRecords(fbs: seq<Feedback>)
    ensures FeedbacksOf(FeedbacksJson(fbs)) == Some(fbs)
  {
    if fbs != [] {
      FeedbackRecords(fbs[..|fbs| - 1]);
      assert FeedbacksJson(fbs)[..|fbs| - 1] == FeedbacksJson(fbs[..|fbs| - 1]);
      assert fbs == fbs[..|fbs| - 1] + [fbs[|fbs| - 1]];
    }
  }

  /** The record of a codec has the codec's own members, and writing it as an object and reading it again changes nothing. */
  lemma RecordRoundTrip(c: Capability)
    ensures CodecOf(CodecJson(c)) == Some(c)
  {
    hide FeedbacksOf, FeedbacksJson;
    FeedbackRecords(c.rtcpFeedback);
  }

  lemma RecordMembers(codec: Json)
    requires CodecOf(codec).Some?
    ensures var o, c := FieldsOf(codec), CodecOf(codec).value;
            MimeType in o && o[MimeType] == Str(c.mimeType) && Key.Kind in o && o[Key.Kind] == Str(c.kind)
            && PreferredPayloadType in o && o[PreferredPayloadType] == Num(c.payloadType)
            && ClockRate in o && o[ClockRate] == Num(c.clockRate) && Parameters in o && o[Parameters] == Obj(c.parameters)
            && (if c.channels.Some? then Channels in o && o[Channels] == Num(c.channels.value) else Channels !in o)
  {
    hide FeedbacksOf;
  }
}
