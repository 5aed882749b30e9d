/**
  JSON values as the SDP and ORTC code uses them. Member names are constructors of `Key`, so
  that distinct names are distinct; a name that no code asks for by itself is `Other`.
 */
module Json {
  import opened Text

  datatype Key =
    // session and media members that a grammar rule reads or writes
    | Version | Origin | Name | Description | Uri | Email | Phone | Timezones | Repeats | Timing
    | Connection | Bandwidth | Media | Rtp | Fmtp | Control | Rtcp | RtcpFbTrrInt | RtcpFb | Ext
    | ExtmapAllowMixed | Crypto | Setup | Mid | Msid | Ptime | Maxptime | Direction | Icelite
    | IceUfrag | IcePwd | Fingerprint | Candidates | EndOfCandidates | RemoteCandidates | IceOptions
    | Ssrcs | SsrcGroups | MsidSemantic | Groups | RtcpMux | RtcpRsize | Sctpmap | XGoogleFlag | Rids
    | Simulcast | Simulcast03 | SourceFilter | TsRefclk | Mediaclk | Invalid
    // members inside them
    | Username | SessionId | SessionVersion | NetType | IpVer | Address | Start | Stop | Ip | Ttl
    | Type | Limit | Port | NumPorts | Protocol | Payloads | Payload | Codec | Rate | Encoding | Config
    | Value | Subtype | EncryptUri | Id | Suite | SessionConfig | Hash | Foundation | Component
    | Transport | Priority | Raddr | Rport | Tcptype | Generation | NetworkId | NetworkCost | Attribute
    | Semantics | Semantic | Token | Mids | SctpmapNumber | App | MaxMessageSize | Params | Dir1 | List1
    | Dir2 | List2 | FilterMode | AddressTypes | DestAddress | SrcList | SctpPort
    // members of RTP capabilities and parameters
    | Codecs | HeaderExtensions | MimeType | Kind | PreferredPayloadType | ClockRate | Channels
    | Parameters | RtcpFeedback | Parameter | PreferredId | PreferredEncrypt | Apt | ProfileLevelId
    | PacketizationMode | LevelAsymmetryAllowed | ProfileId
    | Other(text: string)

  datatype Json =
    | Null
    | Bool(b: bool)
    | Num(n: int)
    | Float(lexeme: string)
    | Str(s: string)
    | Arr(elems: seq<Json>)
    | Obj(fields: Fields)

  type Fields = map<Key, Json>

  /** The members `find` looks through: none in a value that is not an object. */
  function FieldsOf(j: Json): Fields { if j.Obj? then j.fields else map[] }

  /** `hasValue` of the grammar: a member that is a number or a string that is not empty. */
  predicate HasValue(o: Fields, key: Key) {
    key in o && (if o[key].Str? then o[key].s != "" else o[key].Num? || o[key].Float?)
  }

  /** What `<<` prints for a value: a string without its quotes. Arrays and objects are never printed. */
  function Print(j: Json): string {
    match j
    case Null => "null"
    case Bool(b) => if b then "true" else "false"
    case Num(n) => DecInt(n)
    case Float(lexeme) => lexeme
    case Str(s) => s
    case Arr(_) => "[]"
    case Obj(_) => "{}"
  }
}
