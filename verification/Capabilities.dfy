/**
  RTP capabilities: their validation, which fills in defaults (mssdk/sdputil/jsonvalidate.cpp,
  lines 33-234), and validated capabilities as records.
 */
module Capabilities {
  import opened Prelude
  import opened Regex
  import opened Json
  import opened RtpParams

  // ---- Validation ----

  /** The media component of a MIME type "audio/..." or "video/..." in any case. */
  function MimeKind(mimeType: string): Option<string> {
    if |mimeType| > 6 && (Lower(mimeType[..6]) == "audio/" || Lower(mimeType[..6]) == "video/") && All(Dot, mimeType[6..])
    then Some(mimeType[..5]) else None
  }

  function ValidatedFeedback(fb: Json): Result<Json> {
    if !fb.Obj? then Err("fb is not an object")
    else if !(Type in fb.fields && fb.fields[Type].Str?) then Err("missing fb.type")
    else if Parameter in fb.fields && fb.fields[Parameter].Str? then Ok(fb)
    else Ok(Obj(fb.fields[Parameter := Str("")]))
  }

  function ValidatedFeedbacks(fbs: seq<Json>): Result<seq<Json>> {
    if fbs == [] then Ok([])
    else
      match ValidatedFeedbacks(fbs[..|fbs| - 1])
      case Err(reason) => Err(reason)
      case Ok(front) =>
        match ValidatedFeedback(fbs[|fbs| - 1])
        case Err(reason) => Err(reason)
        case Ok(fb) => Ok(front + [fb])
  }

  predicate ParameterValue(key: Key, v: Json) {
    (v.Str? || v.Num? || v.Float? || v.Null?) && (key.Apt? ==> v.Num?)
  }

  predicate ParametersValid(ps: Fields) { forall key <- ps.Keys :: ParameterValue(key, ps[key]) }

  /** The channels of an audio codec default to 1; any other codec loses them. The kind is compared as it is written. */
  function WithChannels(codec: Fields, kind: string): Fields {
    if kind == "audio" then
      if Channels in codec && codec[Channels].Num? then codec else codec[Channels := Num(1)]
    else codec - {Channels}
  }

  function ObjectOr(codec: Fields, key: Key): Fields { if key in codec && codec[key].Obj? then codec[key].fields else map[] }

  function ArrayOr(o: Fields, key: Key): seq<Json> { if key in o && o[key].Arr? then o[key].elems else [] }

  function ValidatedCodec(codec: Json): Result<Json> {
    if !codec.Obj? then Err("codec is not an object")
    else
      var o := codec.fields;
      if !(MimeType in o && o[MimeType].Str?) then Err("missing codec.mimeType")
      else if MimeKind(o[MimeType].s).None? then Err("invalid codec.mimeType")
      else if PreferredPayloadType in o && !o[PreferredPayloadType].Num? then Err("invalid codec.preferredPayloadType")
      else if !(ClockRate in o && o[ClockRate].Num?) then Err("missing codec.clockRate")
      else
        var kind := MimeKind(o[MimeType].s).value;
        var parameters := ObjectOr(o, Parameters);
        if !ParametersValid(parameters) then Err("invalid codec parameter")
        else
          match ValidatedFeedbacks(ArrayOr(o, Key.RtcpFeedback))
          case Err(reason) => Err(reason)
          case Ok(fbs) =>
            Ok(Obj(WithChannels(o[Key.Kind := Str(kind)], kind)[Parameters := Obj(parameters)][Key.RtcpFeedback := Arr(fbs)]))
  }

  function ValidatedExt(ext: Json): Result<Json> {
    if !ext.Obj? then Err("ext is not an object")
    else
      var o := ext.fields;
      if !(Key.Kind in o && o[Key.Kind].Str?) then Err("missing ext.kind")
      else if !IsMedia(o[Key.Kind].s) then Err("invalid ext.kind")
      else if !(Uri in o && o[Uri].Str? && o[Uri].s != "") then Err("missing ext.uri")
      else if !(PreferredId in o && o[PreferredId].Num?) then Err("missing ext.preferredId")
      else if PreferredEncrypt in o && !o[PreferredEncrypt].Bool? then Err("invalid ext.preferredEncrypt")
      else if Key.Direction in o && !o[Key.Direction].Str? then Err("invalid ext.direction")
      else
        var o1 := if PreferredEncrypt in o then o else o[PreferredEncrypt := Bool(false)];
        Ok(Obj(if Key.Direction in o then o1 else o1[Key.Direction := Str("sendrecv")]))
  }

  function ValidatedCodecs(codecs: seq<Json>): Result<seq<Json>> {
    if codecs == [] then Ok([])
    else
      match ValidatedCodecs(codecs[..|codecs| - 1])
      case Err(reason) => Err(reason)
      case Ok(front) =>
        match ValidatedCodec(codecs[|codecs| - 1])
        case Err(reason) => Err(reason)
        case Ok(codec) => Ok(front + [codec])
  }

  function ValidatedExts(exts: seq<Json>): Result<seq<Json>> {
    if exts == [] then Ok([])
    else
      match ValidatedExts(exts[..|exts| - 1])
      case Err(reason) => Err(reason)
      case Ok(front) =>
        match ValidatedExt(exts[|exts| - 1])
        case Err(reason) => Err(reason)
        case Ok(ext) => Ok(front + [ext])
  }

  /** The capabilities with their defaults, or the reason why they are refused. */
  function Validated(caps: Json): Result<Json> {
    if !caps.Obj? then Err("caps is not an object")
    else if Key.Codecs in caps.fields && !caps.fields[Key.Codecs].Arr? then Err("caps.codecs is not an array")
    else
      match ValidatedCodecs(ArrayOr(caps.fields, Key.Codecs))
      case Err(reason) => Err(reason)
      case Ok(codecs) =>
        if Key.HeaderExtensions in caps.fields && !caps.fields[Key.HeaderExtensions].Arr?
        then Err("caps.headerExtensions is not an array")
        else
          match ValidatedExts(ArrayOr(caps.fields, Key.HeaderExtensions))
          case Err(reason) => Err(reason)
          case Ok(exts) => Ok(Obj(caps.fields[Key.Codecs := Arr(codecs)][Key.HeaderExtensions := Arr(exts)]))
  }

  /** validateRtpCapabilities: the loops over the codecs and the header extensions. */
  method ValidateRtpCapabilities(caps: Json) returns (r: Result<Json>)
    ensures r == Validated(caps)
  {
    hide ValidatedCodec, ValidatedExt;
    if !caps.Obj? {
      return Err("caps is not an object");
    }
    if Key.Codecs in caps.fields && !caps.fields[Key.Codecs].Arr? {
      return Err("caps.codecs is not an array");
    }
    var codecs := ArrayOr(caps.fields, Key.Codecs);
    var validCodecs: seq<Json> := [];
    for i := 0 to |codecs|
      invariant ValidatedCodecs(codecs[..i]) == Ok(validCodecs)
    {
      assert codecs[..i + 1][..i] == codecs[..i];
      var codec := ValidatedCodec(codecs[i]);
      if codec.Err? {
        CodecsFail(codecs, i + 1);
        return Err(codec.reason);
      }
      validCodecs := validCodecs + [codec.value];
    }
    assert codecs[..|codecs|] == codecs;
    if Key.HeaderExtensions in caps.fields && !caps.fields[Key.HeaderExtensions].Arr? {
      return Err("caps.headerExtensions is not an array");
    }
    var exts := ArrayOr(caps.fields, Key.HeaderExtensions);
    var validExts: seq<Json> := [];
    for i := 0 to |exts|
      invariant ValidatedExts(exts[..i]) == Ok(validExts)
    {
      assert exts[..i + 1][..i] == exts[..i];
      var ext := ValidatedExt(exts[i]);
      if ext.Err? {
        ExtsFail(exts, i + 1);
        return Err(ext.reason);
      }
      validExts := validExts + [ext.value];
    }
    assert exts[..|exts|] == exts;
    return Ok(Obj(caps.fields[Key.Codecs := Arr(validCodecs)][Key.HeaderExtensions := Arr(validExts)]));
  }

  lemma {:induction false} CodecsFail(codecs: seq<Json>, i: nat)
    requires i <= |codecs| && ValidatedCodecs(codecs[..i]).Err?
    ensures ValidatedCodecs(codecs) == Err(ValidatedCodecs(codecs[..i]).reason)
    decreases |codecs|
  {
    hide ValidatedCodec;
    if i < |codecs| {
      assert codecs[..|codecs| - 1][..i] == codecs[..i];
      CodecsFail(codecs[..|codecs| - 1], i);
    } else {
      assert codecs[..i] == codecs;
    }
  }

  lemma {:induction false} ExtsFail(exts: seq<Json>, i: nat)
    requires i <= |exts| && ValidatedExts(exts[..i]).Err?
    ensures ValidatedExts(exts) == Err(ValidatedExts(exts[..i]).reason)
    decreases |exts|
  {
    hide ValidatedExt;
    if i < |exts| {
      assert exts[..|exts| - 1][..i] == exts[..i];
      ExtsFail(exts[..|exts| - 1], i);
    } else {
      assert exts[..i] == exts;
    }
  }

  // ---- Validation is idempotent ----

  lemma {:induction false} FeedbacksStay(fbs: seq<Json>)
    requires ValidatedFeedbacks(fbs).Ok?
    ensures ValidatedFeedbacks(ValidatedFeedbacks(fbs).value) == ValidatedFeedbacks(fbs)
  {
    if fbs != [] {
      FeedbacksStay(fbs[..|fbs| - 1]);
      var v := ValidatedFeedbacks(fbs).value;
      assert v[..|v| - 1] == ValidatedFeedbacks(fbs[..|fbs| - 1]).value;
    }
  }

  lemma CodecStays(codec: Json)
    requires ValidatedCodec(codec).Ok?
    ensures ValidatedCodec(ValidatedCodec(codec).value) == ValidatedCodec(codec)
  {
    hide MimeKind, ParametersValid, ValidatedFeedbacks;
    var o := codec.fields;
    FeedbacksStay(ArrayOr(o, Key.RtcpFeedback));
    var v := ValidatedCodec(codec).value.fields;
    var kind := MimeKind(o[MimeType].s).value;
    assert v[MimeType] == o[MimeType] && v[ClockRate] == o[ClockRate] && v[Key.Kind] == Str(kind);
    assert ObjectOr(v, Parameters) == ObjectOr(o, Parameters);
    assert v[Key.Kind := Str(kind)] == v;
    assert WithChannels(v, kind) == v;
    assert v[Parameters := v[Parameters]][Key.RtcpFeedback := v[Key.RtcpFeedback]] == v;
  }

  lemma {:induction false} CodecsStay(codecs: seq<Json>)
    requires ValidatedCodecs(codecs).Ok?
    ensures ValidatedCodecs(ValidatedCodecs(codecs).value) == ValidatedCodecs(codecs)
  {
    hide ValidatedCodec;
    if codecs != [] {
      CodecsStay(codecs[..|codecs| - 1]);
      CodecStays(codecs[|codecs| - 1]);
      var v := ValidatedCodecs(codecs).value;
      assert v[..|v| - 1] == ValidatedCodecs(codecs[..|codecs| - 1]).value;
    }
  }

  lemma {:induction false} ExtsStay(exts: seq<Json>)
    requires ValidatedExts(exts).Ok?
    ensures ValidatedExts(ValidatedExts(exts).value) == ValidatedExts(exts)
  {
    if exts != [] {
      ExtsStay(exts[..|exts| - 1]);
      var v := ValidatedExts(exts).value;
      assert v[..|v| - 1] == ValidatedExts(exts[..|exts| - 1]).value;
    }
  }

  /** Validated capabilities are valid, and validating them again changes nothing. */
  lemma ValidatedStays(caps: Json)
    requires Validated(caps).Ok?
    ensures Validated(Validated(caps).value) == Validated(caps)
  {
    hide ValidatedCodecs, ValidatedExts;
    CodecsStay(ArrayOr(caps.fields, Key.Codecs));
    ExtsStay(ArrayOr(caps.fields, Key.HeaderExtensions));
    var v := Validated(caps).value.fields;
    assert v[Key.Codecs := v[Key.Codecs]][Key.HeaderExtensions := v[Key.HeaderExtensions]] == v;
  }

  // ---- Validated capabilities as records ----

  datatype Capability = Capability(
    mimeType: string, kind: string, payloadType: int, clockRate: int, channels: Option<int>,
    parameters: Fields, rtcpFeedback: seq<Feedback>)

  datatype ExtCapability = ExtCapability(kind: string, uri: string, id: int, encrypt: bool, direction: string)

  datatype RtpCapabilities = RtpCaps(codecs: seq<Capability>, exts: seq<ExtCapability>)

  function FeedbackJson(fb: Feedback): Json { Obj(map[Type := Str(fb.kind), Parameter := Str(fb.parameter)]) }

  function FeedbacksJson(fbs: seq<Feedback>): seq<Json> { seq(|fbs|, i requires 0 <= i < |fbs| => FeedbackJson(fbs[i])) }

  function CodecJson(c: Capability): Json {
    var o := map[MimeType := Str(c.mimeType), Key.Kind := Str(c.kind), PreferredPayloadType := Num(c.payloadType),
                 ClockRate := Num(c.clockRate), Parameters := Obj(c.parameters), Key.RtcpFeedback := Arr(FeedbacksJson(c.rtcpFeedback))];
    Obj(if c.channels.Some? then o[Channels := Num(c.channels.value)] else o)
  }

  function CodecsJson(cs: seq<Capability>): seq<Json> { seq(|cs|, i requires 0 <= i < |cs| => CodecJson(cs[i])) }

  function ExtJson(ext: ExtCapability): Json {
    Obj(map[Key.Kind := Str(ext.kind), Uri := Str(ext.uri), PreferredId := Num(ext.id), PreferredEncrypt := Bool(ext.encrypt),
            Key.Direction := Str(ext.direction)])
  }

  function ExtsJson(exts: seq<ExtCapability>): seq<Json> { seq(|exts|, i requires 0 <= i < |exts| => ExtJson(exts[i])) }

  function CapsJson(caps: RtpCapabilities): Json {
    Obj(map[Key.Codecs := Arr(CodecsJson(caps.codecs)), Key.HeaderExtensions := Arr(ExtsJson(caps.exts))])
  }

  function FeedbackOf(fb: Json): Option<Feedback> {
    if fb.Obj? && Type in fb.fields && fb.fields[Type].Str? && Parameter in fb.fields && fb.fields[Parameter].Str?
    then Some(Feedback(fb.fields[Type].s, fb.fields[Parameter].s)) else None
  }

  function FeedbacksOf(fbs: seq<Json>): Option<seq<Feedback>> {
    if fbs == [] then Some([])
    else
      match (FeedbacksOf(fbs[..|fbs| - 1]), FeedbackOf(fbs[|fbs| - 1]))
      case (Some(front), Some(fb)) => Some(front + [fb])
      case _ => None
  }

  /** The record of a codec that carries a payload type. */
  function CodecOf(codec: Json): Option<Capability> {
    var o := FieldsOf(codec);
    if !(MimeType in o && o[MimeType].Str? && Key.Kind in o && o[Key.Kind].Str? && PreferredPayloadType in o
         && o[PreferredPayloadType].Num? && ClockRate in o && o[ClockRate].Num? && Parameters in o && o[Parameters].Obj?
         && (Channels in o ==> o[Channels].Num?)) then None
    else
      match FeedbacksOf(ArrayOr(o, Key.RtcpFeedback))
      case None => None
      case Some(fbs) =>
        Some(Capability(o[MimeType].s, o[Key.Kind].s, o[PreferredPayloadType].n, o[ClockRate].n,
                        if Channels in o then Some(o[Channels].n) else None, o[Parameters].fields, fbs))
  }

  /** What validation makes sure of. */
  predicate ValidCodec(c: Capability) {
    MimeKind(c.mimeType) == Some(c.kind) && (c.channels.Some? <==> c.kind == "audio") && ParametersValid(c.parameters)
  }

  predicate ValidExt(ext: ExtCapability) { IsMedia(ext.kind) && ext.uri != "" }

  lemma {:induction false} FeedbacksAreRecords(fbs: seq<Json>)
    requires ValidatedFeedbacks(fbs).Ok?
    ensures FeedbacksOf(ValidatedFeedbacks(fbs).value).Some?
  {
    if fbs != [] {
      FeedbacksAreRecords(fbs[..|fbs| - 1]);
      var v := ValidatedFeedbacks(fbs).value;
      assert v[..|v| - 1] == ValidatedFeedbacks(fbs[..|fbs| - 1]).value;
    }
  }

  /** A validated codec with a payload type is a valid record: its kind comes from its MIME type, and it has channels just for "audio". */
  lemma ValidatedIsRecord(codec: Json)
    requires ValidatedCodec(codec).Ok? && PreferredPayloadType in codec.fields
    ensures CodecOf(ValidatedCodec(codec).value).Some? && ValidCodec(CodecOf(ValidatedCodec(codec).value).value)
  {
    hide MimeKind, ParametersValid, ValidatedFeedbacks, FeedbacksOf;
    FeedbacksAreRecords(ArrayOr(codec.fields, Key.RtcpFeedback));
  }

  /** The MIME type of the same kind in capitals passes validation but loses its channels. */
  lemma CapitalKindLosesChannels(codec: Json)
    requires ValidatedCodec(codec).Ok?
    ensures Channels in ValidatedCodec(codec).value.fields <==> codec.fields[MimeType].s[..5] == "audio"
  {
    hide ParametersValid, ValidatedFeedbacks;
  }

  /** Opus with two channels, its kind in capitals. */
  const CAPITAL_OPUS: Json := Obj(map[MimeType := Str("AUDIO/opus"), ClockRate := Num(48000), Channels := Num(2)])

  lemma CapitalOpusLosesChannels()
    ensures ValidatedCodec(CAPITAL_OPUS).Ok? && Channels in CAPITAL_OPUS.fields
            && Channels !in ValidatedCodec(CAPITAL_OPUS).value.fields
  {
    var mime := "AUDIO/opus";
    assert Lower(mime[..6]) == "audio/";
    assert mime[6..] == "opus" && mime[..5] == "AUDIO";
    CapitalKindLosesChannels(CAPITAL_OPUS);
  }

  // ---- Records are accepted ----

  lemma {:induction false} FeedbacksAccepted(fbs: seq<Feedback>)
    ensures ValidatedFeedbacks(FeedbacksJson(fbs)) == Ok(FeedbacksJson(fbs))
  {
    if fbs != [] {
      FeedbacksAccepted(fbs[..|fbs| - 1]);
      assert FeedbacksJson(fbs)[..|fbs| - 1] == FeedbacksJson(fbs[..|fbs| - 1]);
      assert FeedbacksJson(fbs) == FeedbacksJson(fbs[..|fbs| - 1]) + [FeedbackJson(fbs[|fbs| - 1])];
    }
  }

  /** Missing channels of an audio codec are filled in. */
  function Filled(c: Capability): Capability { if c.kind == "audio" && c.channels.None? then c.(channels := Some(1)) else c }

  function FilledAll(cs: seq<Capability>): seq<Capability> { seq(|cs|, i requires 0 <= i < |cs| => Filled(cs[i])) }

  function FilledCaps(caps: RtpCapabilities): RtpCapabilities { caps.(codecs := FilledAll(caps.codecs)) }

  /** A record that validation accepts: everything but the channels of an audio codec is there. */
  predicate Acceptable(c: Capability) {
    MimeKind(c.mimeType) == Some(c.kind) && (c.channels.Some? ==> c.kind == "audio") && ParametersValid(c.parameters)
  }

  lemma RecordAccepted(c: Capability)
    requires Acceptable(c)
    ensures ValidatedCodec(CodecJson(c)) == Ok(CodecJson(Filled(c)))
  {
    hide MimeKind, ParametersValid, ValidatedFeedbacks, FeedbacksJson;
    FeedbacksAccepted(c.rtcpFeedback);
    var o := CodecJson(c).fields;
    assert o[Key.Kind := Str(c.kind)] == o;
    assert WithChannels(o, c.kind) == CodecJson(Filled(c)).fields;
    var v := CodecJson(Filled(c)).fields;
    assert v[Parameters := v[Parameters]][Key.RtcpFeedback := v[Key.RtcpFeedback]] == v;
  }

  lemma {:induction false} RecordsAccepted(cs: seq<Capability>)
    requires forall c <- cs :: Acceptable(c)
    ensures ValidatedCodecs(CodecsJson(cs)) == Ok(CodecsJson(FilledAll(cs)))
  {
    hide ValidatedCodec, Acceptable, CodecJson, Filled;
    if cs != [] {
      var front, c := cs[..|cs| - 1], cs[|cs| - 1];
      assert c in cs && forall x <- front :: x in cs;
      RecordsAccepted(front);
      RecordAccepted(c);
      assert CodecsJson(cs)[..|cs| - 1] == CodecsJson(front);
      assert FilledAll(cs) == FilledAll(front) + [Filled(c)];
      assert CodecsJson(FilledAll(cs)) == CodecsJson(FilledAll(front)) + [CodecJson(Filled(c))];
    }
  }

  lemma ExtAccepted(ext: ExtCapability)
    requires ValidExt(ext)
    ensures ValidatedExt(ExtJson(ext)) == Ok(ExtJson(ext))
  {}

  lemma {:induction false} ExtsAccepted(exts: seq<ExtCapability>)
    requires forall ext <- exts :: ValidExt(ext)
    ensures ValidatedExts(ExtsJson(exts)) == Ok(ExtsJson(exts))
  {
    hide ValidatedExt, ValidExt, ExtJson;
    if exts != [] {
      var front, ext := exts[..|exts| - 1], exts[|exts| - 1];
      assert ext in exts && forall x <- front :: x in exts;
      ExtsAccepted(front);
      assert ExtsJson(exts)[..|exts| - 1] == ExtsJson(front);
      assert ExtsJson(exts) == ExtsJson(front) + [ExtJson(ext)];
      ExtAccepted(ext);
    }
  }

  /** Validation accepts such capabilities and fills in nothing but channels. */
  lemma CapsAccepted(caps: RtpCapabilities)
    requires (forall c <- caps.codecs :: Acceptable(c)) && forall ext <- caps.exts :: ValidExt(ext)
    ensures Validated(CapsJson(caps)) == Ok(CapsJson(FilledCaps(caps)))
  {
    hide ValidatedCodecs, ValidatedExts, Acceptable, ValidExt, CodecsJson, ExtsJson, FilledAll;
    RecordsAccepted(caps.codecs);
    ExtsAccepted(caps.exts);
    var o := CapsJson(caps).fields;
    assert ArrayOr(o, Key.Codecs) == CodecsJson(caps.codecs) && ArrayOr(o, Key.HeaderExtensions) == ExtsJson(caps.exts);
    assert o[Key.Codecs := Arr(CodecsJson(FilledCaps(caps).codecs))][Key.HeaderExtensions := Arr(ExtsJson(caps.exts))]
        == CapsJson(FilledCaps(caps)).fields;
  }
}
