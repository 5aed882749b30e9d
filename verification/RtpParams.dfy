/** RTP parameters, and the parameters of a transport, as the media sections are given them. */
module RtpParams {
  import opened Prelude
  import opened Params

  datatype Feedback = Feedback(kind: string, parameter: string)

  datatype Codec = RtpCodec(
    mimeType: string, payloadType: nat, clockRate: nat, channels: Option<nat>,
    parameters: seq<Param>, rtcpFeedback: seq<Feedback>)

  datatype HeaderExtension = HeaderExtension(uri: string, id: nat)

  datatype Encoding = RtpEncoding(ssrc: nat, rtx: Option<nat>)

  datatype RtpParameters = RtpParameters(
    codecs: seq<Codec>, headerExtensions: seq<HeaderExtension>, encodings: seq<Encoding>, cname: Option<string>)

  datatype IceParameters = IceParameters(usernameFragment: string, password: string, iceLite: bool)

  datatype IceCandidate = IceCandidate(
    foundation: string, address: string, port: nat, priority: nat, protocol: string, kind: string, tcpType: Option<string>)

  datatype Fingerprint = CertFingerprint(algorithm: string, value: string)

  datatype SctpParameters = SctpParameters(port: nat, maxMessageSize: nat)

  /** What an answer section looks at in the section of the local offer. */
  datatype OfferMedia = OfferMedia(
    kind: string, mid: string, protocol: string, extUris: seq<string>, extmapAllowMixed: bool, simulcast: Option<OfferSimulcast>)

  datatype OfferSimulcast = OfferSimulcast(list1: string, rids: seq<OfferRid>)

  datatype OfferRid = OfferRid(id: string, direction: string)

  datatype CodecOptions = CodecOptions(
    opusStereo: Option<bool>, opusFec: Option<bool>, opusDtx: Option<bool>, opusCbr: Option<bool>,
    opusMaxPlaybackRate: Option<nat>, opusMaxAverageBitrate: Option<nat>, opusPtime: Option<nat>,
    videoGoogleStartBitrate: Option<nat>, videoGoogleMaxBitrate: Option<nat>, videoGoogleMinBitrate: Option<nat>)

  /** std::tolower of the C locale. */
  function ToLower(c: char): char { if 'A' <= c <= 'Z' then (c as int + 32) as char else c }

  function Lower(s: string): (r: string)
    ensures |r| == |s|
  {
    seq(|s|, i requires 0 <= i < |s| => ToLower(s[i]))
  }

  /** The codec's name: the MIME type without a leading "audio/" or "video/" in any case. */
  function CodecName(mimeType: string): string {
    if |mimeType| >= 6 && (Lower(mimeType[..6]) == "audio/" || Lower(mimeType[..6]) == "video/") then mimeType[6..] else mimeType
  }

  predicate IsMedia(kind: string) { kind == "audio" || kind == "video" }
}
