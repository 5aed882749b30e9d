# The signalling core of a mediasoup client

A model of the parts of the client that carry logic of their own, with proofs:

- **SDP text** (`Json`, `Regex`, `Grammar`, `Writer`, `Parser`): the table-driven printer and parser
  of session descriptions. Regular expressions are data with the backtracking semantics of the
  original; formats are cut at their placeholders. `Dispatch`, `LineRoundTrip`, `RuleRoundTrip`,
  `CandidateRoundTrip`, `OverlapRoundTrip` and `NamedRoundTrip` prove the rules one by one,
  `RemainingRules` the rest of the table, `NormalForm` and `SessionRoundTrip` whole sessions,
  `SectionText` what the lines look like, and `SessionText` a whole session.
- **The remote session description** (`Sections`, `MediaObjects`, `MediaSection`, `SdpState`,
  `RemoteSdp`): the object that keeps media sections, the index of their mids, the printed copy and
  the BUNDLE group. The classes are proved against the state machine; `SdpRuns` and
  `SdpNormalForm` prove what holds over whole runs. `SectionContents` lists the members of every
  section, `SdpSteps` and `SdpRoles` follow them through steps and runs.
- **Codec parameters** (`Params`, `ParamForms`): their form in a=fmtp lines.
- **Capability negotiation** (`Capabilities`, `Negotiation`, `SendReceive`, `CodecAgreement`).
  `CapabilityDefaults`, `CodecMatching` and `NegotiatedContents` say what comes out of it in terms of
  the members of what goes in.
- **Sources and encodings** (`Ssrc`, `SimulcastLines`, `SourceReading`).
- **Video frames** (`Pictures`, `Frame`): crop and overlay in one buffer.
- **Requests and responses** (`Signal`).

Loops and in-place changes of the source are methods and classes here; each is proved equal to a
function of its inputs or of the old state, and the properties are proved about those functions.

## Where the code differs from what it says

The model follows the code.

- The comment at `mssdk/json/grammar.cpp:1057` says that an attribute line that is not understood is
  kept verbatim. Three overlaps take lines away from the rule they are written for:
  rtcp-fb of type trr-int (`OverlapRoundTrip.FbReadsBack`, with the input `98 trr-int 100` in
  `OverlapRoundTrip.IntervalIsNotReadBack`), the encrypt URI with a configuration
  (`RuleRoundTrip.ExtReadsBack`, `RuleRoundTrip.EncryptUriIsNotReadBack`), and x-google-flag: inside a
  rid line (`OverlapRoundTrip.RidReadsBack`, `OverlapRoundTrip.FlagInRidIsNotReadBack`).
- A candidate without generation but with a network id or cost is printed, and misread
  (`CandidateRoundTrip.CandidateReadsBack`, `CandidateRoundTrip.MisreadLine`; network-id 3 in
  `CandidateRoundTrip.NoGenerationIsNotReadBack`).
- Closing or disabling an unknown mid works on section 0, and inserts the mid into the index
  (`SdpRuns.UnknownMid`, `SdpRuns.UnknownMidBreaks`).
- A data section never takes the place of a closed one, and so can waste a slot
  (`SdpRuns.SlotsAreNeeded`, `SdpRuns.DataWastesSlot`).
- A MIME type in capitals passes validation, but an audio codec loses its channels
  (`Capabilities.CapitalKindLosesChannels`, `Capabilities.CapitalOpusLosesChannels`).
- A packetization-mode that is no number becomes 0 (`Params.ConfigRoundTrip`, `Params.ModeThatIsNoNumber`).
- Legacy simulcast reads back wrongly when the ranges of sources and retransmissions meet
  (`Ssrcs.SimulcastReadsBack`, `Ssrcs.OverlapDoesNotReadBack`).
- getCname takes the first line with any attribute, which need not be a cname (`Ssrcs.SameCname`,
  `Ssrcs.MsidFirstChangesCname`).
- A message under an id that is still in use replaces the older one, and a message with the id 0 is
  sent without waiting for its response (`SignalState.StepConserves`, `SignalState.ReusedIdLoses`,
  `SignalState.ZeroIdLoses`).

## Model

| member | source | states |
|---|---|---|
| `Text.Split` | mssdk/json/Utils.hpp:82-92 | the loop over std::getline yields the tokens; a trailing delimiter opens no last, empty token |
| `Text.JoinStrings` | mssdk/json/Utils.hpp:94-107 | the joining loop writes the delimiter between the elements only |
| `Text.JoinNumbers` | mssdk/json/Utils.hpp:109-122 | the same for decimal numbers |
| `Text.SplitUndoesJoin` | mssdk/json/Utils.hpp:82-107 | for delimiter-free tokens, splitting gives back what was joined if and only if the last token is not empty |
| `Text.ReadDecInt` | mssdk/json/parser.cpp:309-321 | signed: a printed integer reads back as itself if and only if it is in the range of the type; otherwise the reading fails |
| `Text.ReadDecUnsigned` | mssdk/json/parser.cpp:297-308 | unsigned: a printed integer reads back as itself if and only if it is not negative and below 2^64; a negative one wraps around |
| `Regex.MatchSound` | mssdk/json/parser.cpp:225-227 | whatever the backtracking, leftmost-greedy matcher finds is a match in the declarative meaning of the pattern |
| `Regex.MatchComplete` | mssdk/json/parser.cpp:225-227 | when the pattern has a match at all, the matcher finds one |
| `Grammar.FirstClaimAt` | mssdk/json/parser.cpp:80-91 | a rule is chosen exactly when it claims the line and no earlier rule does |
| `Dispatch.ClaimedIsExpected` | mssdk/json/grammar.cpp:297-1072 | which rule can claim a line is decided by how the line begins, for every attribute rule but the unanchored and the catch-all one |
| `Dispatch.Dispatched` | mssdk/json/grammar.cpp:297-1072 | a line that an attribute rule claims is given to that rule and no earlier one; only the two known overlaps have to be excluded |
| `Dispatch.ElsewhereIsApart` | mssdk/json/grammar.cpp:906-1006 | imageattr and framerate, the two rules outside the table, claim no line that a rule of the table claims, but for x-google-flag, which comes before them, and the catch-all |
| `Writer.ExpandAll` | mssdk/json/writer.cpp:163-205 | the loop over the placeholders: prefix then argument, a %v takes an argument, a placeholder without argument is printed bare, text after the last one is dropped |
| `Writer.MakeLine` | mssdk/json/writer.cpp:111-210 | one line is appended: the content that the rule round trips and the line texts pin down for each rule, between its type and CRLF |
| `Writer.Write` | mssdk/json/writer.cpp:15-109 | the printed text is that of the completed session: outer lines in the order of the standard, then each section with its own lines; `SessionText.SdpText` writes it out |
| `SectionText.LinesInOrder` | mssdk/json/writer.cpp:15-60 | all the lines of a session, and of a section, come in the fixed order of the line types |
| `SectionText.OriginText` | mssdk/json/grammar.cpp:32-51 | the o= line of section 5.2 of RFC 8866: only its version depends on the state of the session |
| `SectionText.RtpText` | mssdk/json/grammar.cpp:299-321 | the rtpmap line of section 6.6 of RFC 8866: payload type, encoding name without its kind, clock rate, and channels only when there are several |
| `SectionText.FmtpText` | mssdk/json/grammar.cpp:324-339 | the fmtp line of section 6.15 of RFC 8866 |
| `SectionText.FeedbackText` | mssdk/json/grammar.cpp:396-416 | the rtcp-fb line of section 4.2 of RFC 4585, without the blank when there is no parameter |
| `SectionText.ExtText` | mssdk/json/grammar.cpp:419-445 | the extmap line of section 5 of RFC 8285: identifier then URI, the unused %v placeholders leave no trace |
| `SectionText.CandidateText` | mssdk/json/grammar.cpp:645-681 | the candidate line of section 5.1 of RFC 8839, field by field, with the TCP type only when there is one |
| `SectionText.SsrcText` | mssdk/json/grammar.cpp:732-761 | the ssrc line of section 4.1 of RFC 5576, with a colon only before a value |
| `SectionText.GroupText` | mssdk/json/grammar.cpp:763-779 | the ssrc-group line of section 4.2 of RFC 5576 |
| `SectionText.GroupLineText` | mssdk/json/grammar.cpp:796-811 | the BUNDLE group line lists the mids |
| `SectionText.RidLineText` | mssdk/json/grammar.cpp:883-904 | the rid line of an answer receives |
| `SectionText.TimingText` | mssdk/json/grammar.cpp:199-219 | the t= line |
| `SectionText.ConnectionText` | mssdk/json/grammar.cpp:220-247 | the c= line, with a time to live only when there is one |
| `SectionText.FingerprintText` | mssdk/json/grammar.cpp:627-642 | the fingerprint line: algorithm, then hash |
| `SectionText.MsidSemanticText` | mssdk/json/grammar.cpp:778-793 | the msid-semantic line, with its blank |
| `SectionText.SimulcastText` | mssdk/json/grammar.cpp:938-972 | the simulcast line of an answer |
| `Parser.AttachProperties` | mssdk/json/parser.cpp:244-266 | a capture sets the member of its name with the type of its name; an empty capture sets nothing |
| `Parser.ParseReg` | mssdk/json/parser.cpp:212-242 | an array rule appends one object, a named rule fills its object or value, the m= rule works on the section itself |
| `Parser.FirstRule` | mssdk/json/parser.cpp:80-91 | the loop over the rules of a line type stops at the first one whose pattern is found |
| `Parser.Parse` | mssdk/json/parser.cpp:37-97 | the loop over the lines: lines that are no SDP lines are skipped, an m= line opens a section, later lines go to the last section |
| `RuleRoundTrip.RtpLine` | mssdk/json/grammar.cpp:297-321 | a=rtpmap: the printed line is given to this rule and to no earlier one, reads back as exactly the members printed (when their values are the reader's own form), and is printed again as the same line |
| `RuleRoundTrip.FmtpLine` | mssdk/json/grammar.cpp:322-338 | a=fmtp: the printed line is given to this rule and to no earlier one, reads back as exactly the members printed (when their values are the reader's own form), and is printed again as the same line |
| `OverlapRoundTrip.FbLine` | mssdk/json/grammar.cpp:394-416 | a=rtcp-fb, unless it looks like a trr-int interval: the printed line is given to this rule and to no earlier one, reads back as exactly the members printed (when their values are the reader's own form), and is printed again as the same line |
| `OverlapRoundTrip.FbReadsBack` | mssdk/json/grammar.cpp:378-416 | an a=rtcp-fb line reads back if and only if it is not a trr-int with a subtype, which the earlier rule claims |
| `OverlapRoundTrip.IntervalIsNotReadBack` | mssdk/json/grammar.cpp:378-416 | feedback 98 trr-int 100 meets all the conditions on members and does not read back |
| `RuleRoundTrip.ExtLine` | mssdk/json/grammar.cpp:417-443 | a=extmap, unless its URI is read as an encrypt-uri: the printed line is given to this rule and to no earlier one, reads back as exactly the members printed (when their values are the reader's own form), and is printed again as the same line |
| `RuleRoundTrip.ExtReadsBack` | mssdk/json/grammar.cpp:417-443 | an a=extmap line reads back if and only if it is not the encrypt URI followed by a configuration |
| `RuleRoundTrip.EncryptUriIsNotReadBack` | mssdk/json/grammar.cpp:417-443 | the encrypt URI with the configuration key does not read back |
| `CandidateRoundTrip.CandidateLine` | mssdk/json/grammar.cpp:643-681 | a=candidate, unless chunks follow a missing generation: the printed line is given to this rule and to no earlier one, reads back as exactly the members printed (when their values are the reader's own form), and is printed again as the same line |
| `CandidateRoundTrip.CandidateReadsBack` | mssdk/json/grammar.cpp:643-681 | a candidate reads back if and only if it has a generation, or neither network-id nor network-cost: no %v stands for a missing generation |
| `CandidateRoundTrip.MisreadLine` | mssdk/json/grammar.cpp:643-681 | what any other candidate reads back as: the network id is lost, or read as the network cost |
| `CandidateRoundTrip.NoGenerationIsNotReadBack` | mssdk/json/grammar.cpp:643-681 | a candidate with network-id 3 and no generation is claimed and read back without its network-id |
| `RuleRoundTrip.SsrcLine` | mssdk/json/grammar.cpp:730-760 | a=ssrc: the printed line is given to this rule and to no earlier one, reads back as exactly the members printed (when their values are the reader's own form), and is printed again as the same line |
| `RuleRoundTrip.SsrcGroupLine` | mssdk/json/grammar.cpp:761-777 | a=ssrc-group: the printed line is given to this rule and to no earlier one, reads back as exactly the members printed (when their values are the reader's own form), and is printed again as the same line |
| `RuleRoundTrip.GroupLine` | mssdk/json/grammar.cpp:794-809 | a=group: the printed line is given to this rule and to no earlier one, reads back as exactly the members printed (when their values are the reader's own form), and is printed again as the same line |
| `OverlapRoundTrip.RidLine` | mssdk/json/grammar.cpp:881-903 | a=rid, unless x-google-flag occurs in it: the printed line is given to this rule and to no earlier one, reads back as exactly the members printed (when their values are the reader's own form), and is printed again as the same line |
| `OverlapRoundTrip.RidReadsBack` | mssdk/json/grammar.cpp:865-903 | an a=rid line reads back if and only if its parameters do not contain x-google-flag:, which the unanchored earlier rule finds anywhere |
| `OverlapRoundTrip.FlagInRidIsNotReadBack` | mssdk/json/grammar.cpp:865-903 | rid 1 send x-google-flag:conference does not read back |
| `OverlapRoundTrip.EarlierClaimWins` | mssdk/json/parser.cpp:80-91 | a line that an earlier rule claims never reads back through a later one |
| `NamedRoundTrip.SimulcastLine` | mssdk/json/grammar.cpp:938-972 | a=simulcast with one or two lists: the printed line is given to this rule and to no earlier one, reads back as exactly the members printed (when their values are the reader's own form), and is printed again as the same line |
| `NamedRoundTrip.OriginLine` | mssdk/json/grammar.cpp:33-53 | o=: the printed line is given to this rule and to no earlier one, reads back as exactly the members printed (when their values are the reader's own form), and is printed again as the same line |
| `NamedRoundTrip.TimingLine` | mssdk/json/grammar.cpp:199-219 | t=: the printed line is given to this rule and to no earlier one, reads back as exactly the members printed (when their values are the reader's own form), and is printed again as the same line |
| `NamedRoundTrip.ConnectionLine` | mssdk/json/grammar.cpp:220-247 | c= with or without a TTL: the printed line is given to this rule and to no earlier one, reads back as exactly the members printed (when their values are the reader's own form), and is printed again as the same line |
| `NamedRoundTrip.FingerprintLine` | mssdk/json/grammar.cpp:627-642 | a=fingerprint: the printed line is given to this rule and to no earlier one, reads back as exactly the members printed (when their values are the reader's own form), and is printed again as the same line |
| `NamedRoundTrip.MsidSemanticLine` | mssdk/json/grammar.cpp:778-793 | a=msid-semantic, whose printed blank the pattern allows: the printed line is given to this rule and to no earlier one, reads back as exactly the members printed (when their values are the reader's own form), and is printed again as the same line |
| `NamedRoundTrip.VersionLine` | mssdk/json/grammar.cpp:12-32 | v=: the printed line is given to this rule and to no earlier one, reads back as exactly the members printed (when their values are the reader's own form), and is printed again as the same line |
| `NamedRoundTrip.NameLine` | mssdk/json/grammar.cpp:54-74 | s=: the printed line is given to this rule and to no earlier one, reads back as exactly the members printed (when their values are the reader's own form), and is printed again as the same line |
| `NamedRoundTrip.SetupLine` | mssdk/json/grammar.cpp:483-498 | a=setup: the printed line is given to this rule and to no earlier one, reads back as exactly the members printed (when their values are the reader's own form), and is printed again as the same line |
| `NamedRoundTrip.MidLine` | mssdk/json/grammar.cpp:499-514 | a=mid: the printed line is given to this rule and to no earlier one, reads back as exactly the members printed (when their values are the reader's own form), and is printed again as the same line |
| `NamedRoundTrip.IceUfragLine` | mssdk/json/grammar.cpp:595-610 | a=ice-ufrag: the printed line is given to this rule and to no earlier one, reads back as exactly the members printed (when their values are the reader's own form), and is printed again as the same line |
| `NamedRoundTrip.IcePwdLine` | mssdk/json/grammar.cpp:611-626 | a=ice-pwd: the printed line is given to this rule and to no earlier one, reads back as exactly the members printed (when their values are the reader's own form), and is printed again as the same line |
| `NamedRoundTrip.IceOptionsLine` | mssdk/json/grammar.cpp:714-729 | a=ice-options: the printed line is given to this rule and to no earlier one, reads back as exactly the members printed (when their values are the reader's own form), and is printed again as the same line |
| `NamedRoundTrip.DirectionLine` | mssdk/json/grammar.cpp:563-578 | the four direction lines: the printed line is given to this rule and to no earlier one, reads back as exactly the members printed (when their values are the reader's own form), and is printed again as the same line |
| `NamedRoundTrip.FlagLines` | mssdk/json/grammar.cpp:444-459 | ice-lite, end-of-candidates, extmap-allow-mixed, rtcp-mux and rtcp-rsize keep their lines and are read back as the values they were |
| `NamedRoundTrip.InvalidLine` | mssdk/json/grammar.cpp:1057-1070 | a line that no other rule claims, imageattr and framerate included, is kept verbatim |
| `RemainingRules.RtcpLine` | mssdk/json/grammar.cpp:356-380 | a=rtcp: the printed line is given to this rule and to no earlier one, reads back as the members printed, and is printed again as the same line |
| `RemainingRules.RtcpText` | mssdk/json/grammar.cpp:356-380 | the rtcp line: the port, then network type, IP version and address exactly when there is an address |
| `RemainingRules.DefaultRtcp` | mssdk/json/grammar.cpp:356-380 | the line of every WebRTC offer is rtcp:9 IN IP4 0.0.0.0, letter by letter |
| `RemainingRules.SctpmapLine` | mssdk/json/grammar.cpp:844-866 | a=sctpmap: the printed line is given to this rule and to no earlier one, reads back as the members printed, and is printed again as the same line |
| `RemainingRules.SctpmapText` | mssdk/json/grammar.cpp:844-866 | the sctpmap line, with the size only when there is one |
| `RemainingRules.CryptoLine` | mssdk/json/grammar.cpp:462-484 | a=crypto: the printed line is given to this rule and to no earlier one, reads back as the members printed, and is printed again as the same line |
| `RemainingRules.CryptoText` | mssdk/json/grammar.cpp:462-484 | the crypto line, with session parameters only when there are some |
| `RemainingRules.BandwidthLine` | mssdk/json/grammar.cpp:248-268 | b=: the printed line is given to this rule and to no earlier one, reads back as the members printed, and is printed again as the same line |
| `RemainingRules.BandwidthText` | mssdk/json/grammar.cpp:248-268 | the b= line: type, colon, limit |
| `RemainingRules.PtimeLines` | mssdk/json/grammar.cpp:531-562 | a=ptime and a=maxptime: the printed line is given to this rule and to no earlier one, reads back as the members printed, and is printed again as the same line, and their text |
| `RemainingRules.TextAttributeLines` | mssdk/json/grammar.cpp:515-530 | a=msid, a=control and a=remote-candidates: the printed line is given to this rule and to no earlier one, reads back as the members printed, and is printed again as the same line, and their text |
| `RemainingRules.ClockLines` | mssdk/json/grammar.cpp:1023-1056 | a=ts-refclk and a=mediaclk: the same |
| `RemainingRules.TextLine` | mssdk/json/grammar.cpp:54-198 | the seven line types that are one text: the same |
| `RemainingRules.FilterLine` | mssdk/json/grammar.cpp:1007-1022 | a=source-filter: the printed line is given to this rule and to no earlier one, reads back as the members printed, and is printed again as the same line |
| `RemainingRules.FilterText` | mssdk/json/grammar.cpp:1007-1022 | the source-filter line, field by field |
| `RemainingRules.OldSimulcastLine` | mssdk/json/grammar.cpp:974-990 | a=simulcast of draft 03: the printed line is given to this rule and to no earlier one, reads back as the members printed, and is printed again as the same line |
| `RemainingRules.IntervalLine` | mssdk/json/grammar.cpp:378-394 | a=rtcp-fb trr-int: the printed line is given to this rule and to no earlier one, reads back as the members printed, and is printed again as the same line |
| `RemainingRules.FlagLine` | mssdk/json/grammar.cpp:865-880 | a=x-google-flag: the printed line is given to this rule and to no earlier one, reads back as the members printed, and is printed again as the same line |
| `SessionRoundTrip.MediaLine` | mssdk/json/grammar.cpp:269-294 | m=: the line is claimed, and the section it opens has the same printed members, with and without a number of ports; members whose texts determine them are recovered as they were, absent ones stay absent |
| `NormalForm.ParseOfText` | mssdk/json/parser.cpp:37-97 | parsing the text of clean lines is reading the lines one by one |
| `NormalForm.ReadRule` | mssdk/json/parser.cpp:212-266 | reading the lines of one rule changes nothing but the member of that rule |
| `NormalForm.HeldIsPrinted` | mssdk/json/writer.cpp:46-71 | what was read from the lines of a rule is printed as the same lines |
| `SessionRoundTrip.ParsedSession` | mssdk/json/parser.cpp:37-97 | what parsing a printed session yields, line by line and section by section |
| `SessionRoundTrip.RereadLines` | mssdk/json/writer.cpp:74-106 | a section that was read prints the same lines as the section it was read from |
| `SessionRoundTrip.PrintIsNormalForm` | mssdk/json/writer.cpp:15-210 | printing is a normal form: write(parse(write(s))) == write(s) for every session whose lines keep their text, although JSON types may change on the way |
| `WellFormedness.WellFormedIsStable` | mssdk/json/writer.cpp:74-106 | every section whose members have the form the constructors give them keeps all its lines |
| `WellFormedness.WellFormedPrints` | mssdk/json/writer.cpp:15-210 | the normal form for every session of the kind that RemoteSdp keeps |
| `SessionText.MissingMembers` | mssdk/json/writer.cpp:26-35 | a missing version is printed as 0 and a missing name as -; all other members are printed as they are |
| `SessionText.MissingPayloads` | mssdk/json/writer.cpp:37-41 | a section without payloads is printed with none, any other one as it is |
| `SessionText.ParsedHasLists` | mssdk/json/parser.cpp:55-78 | every section of a parsed text, whatever the text, has its lists of codecs and of their parameters |
| `Params.PutSets` | mssdk/sdputil/MediaSection.cpp:186-262 | assignment to a JSON object keeps its names in order, sets the one name and no other |
| `Params.WriteConfig` | mssdk/sdputil/MediaSection.cpp:271-298 | the loop over the items writes name=value pairs with ; between them |
| `Params.ParseParams` | mssdk/json/parser.cpp:99-116 | the loop over the tokens: each is trimmed, empty ones are skipped, the others are inserted |
| `Params.ConfigIsRead` | mssdk/json/parser.cpp:359-395 | a written configuration reads back with the same names, each value as its text reads for that name |
| `Params.ConfigRoundTrip` | mssdk/sdputil/MediaSection.cpp:476-497 | names are always kept, in order; the text of a value that does not read as a floating-point number is kept if and only if it is no number in another form than the writer's and a packetization-mode is such a number; kept texts give the same config |
| `Params.ModeThatIsNoNumber` | mssdk/json/parser.cpp:359-395 | packetization-mode=x reads back as 0 |
| `ParamForms.SpacedParam` | mssdk/json/parser.cpp:323-395 | a parameter with blanks around it and spaces around = is put under its name with its value |
| `ParamForms.BareParam` | mssdk/json/parser.cpp:323-395 | a name without = has an empty value |
| `ParamForms.BlankParam` | mssdk/json/parser.cpp:99-116 | nothing between two semicolons adds nothing |
| `ParamForms.ValueTextMeans` | mssdk/sdputil/MediaSection.cpp:271-298 | what is written for each kind of value |
| `ParamForms.SignedNumber` | mssdk/json/parser.cpp:309-321 | a sign may stand before the digits of a number |
| `ParamForms.NoNumber` | mssdk/json/parser.cpp:309-321 | and nothing else is read as a number |
| `MediaSectionClass.BuildCodecs` | mssdk/sdputil/MediaSection.cpp:149-305 | the loops over the codecs and their feedback build the rtp, rtcpFb and fmtp elements; a codec without parameters gets no fmtp |
| `MediaSectionClass.TuneCodecs` | mssdk/sdputil/MediaSection.cpp:170-262 | the options of the application go into the answered codec and into the offered codec of the same payload type, and nowhere else |
| `MediaSectionClass.BuildPayloads` | mssdk/sdputil/MediaSection.cpp:307-320 | the payload types, cut down to bytes, separated by blanks |
| `MediaSectionClass.BuildOfferedExts` | mssdk/sdputil/MediaSection.cpp:320-341 | the header extensions of the answer that the offer has too, in order |
| `Sections.OfferedMeans` | mssdk/sdputil/MediaSection.cpp:320-341 | a header extension is in the answer section if and only if it is in the answer and its URI is in the offer |
| `MediaSectionClass.MediaSection.Answer` | mssdk/sdputil/MediaSection.cpp:111-397 | the object of an answer section, whose members `SectionContents.MediaAnswerContents` and `SectionContents.DataAnswerContents` list one by one |
| `MediaSectionClass.MediaSection.Offer` | mssdk/sdputil/MediaSection.cpp:411-589 | the object of an offer section: always actpass, codecs, extensions, and the source lines of its encoding |
| `MediaSectionClass.MediaSection.Disable` | mssdk/sdputil/MediaSection.cpp:83-94 | disabling makes the section inactive and erases five members, and keeps the port |
| `MediaSectionClass.MediaSection.Close` | mssdk/sdputil/MediaSection.cpp:96-109 | closing also sets the port to 0 and erases extmapAllowMixed |
| `MediaSectionClass.MediaSection.SetDtlsRole` | mssdk/sdputil/MediaSection.cpp:399-410 | the setup of an answer is that of `SectionContents.RoleContents` for the role; an offer stays actpass |
| `MediaObjects.AnswerFits` | mssdk/sdputil/MediaSection.cpp:111-397 | every answer section built from well-formed inputs is well formed, is open and carries the mid of the offer |
| `MediaObjects.OfferFits` | mssdk/sdputil/MediaSection.cpp:411-589 | the same for every offer section |
| `MediaObjects.ClosedFits` | mssdk/sdputil/MediaSection.cpp:83-109 | closing and disabling keep a section well formed |
| `SectionContents.MediaAnswerContents` | mssdk/sdputil/MediaSection.cpp:111-397 | the members of an answer section for media, one by one: those of the transport, the setup of the role, codecs, extensions, simulcast and muxing |
| `SectionContents.DataAnswerContents` | mssdk/sdputil/MediaSection.cpp:111-397 | the members of an answer section for data |
| `SectionContents.MediaOfferContents` | mssdk/sdputil/MediaSection.cpp:411-589 | the members of an offer section for media |
| `SectionContents.DataOfferContents` | mssdk/sdputil/MediaSection.cpp:411-589 | the members of an offer section for data |
| `SectionContents.RoleContents` | mssdk/sdputil/MediaSection.cpp:399-410 | client is active, server passive, auto actpass, any other role changes nothing; an offer is actpass |
| `SectionContents.ClosedContents` | mssdk/sdputil/MediaSection.cpp:83-109 | closing and disabling drop exactly these members and set exactly these |
| `SectionContents.SourceContents` | mssdk/sdputil/MediaSection.cpp:541-581 | the source lines of an offer and its FID group, number by number |
| `SectionContents.CodecListContents` | mssdk/sdputil/MediaSection.cpp:149-305 | there is an fmtp element for exactly the codecs with parameters, and an rtcp-fb element for exactly each feedback of each codec |
| `SectionContents.PayloadContents` | mssdk/sdputil/MediaSection.cpp:307-320 | splitting the payloads at the blanks gives the payload types as bytes, in order |
| `SectionContents.RidContents` | mssdk/sdputil/MediaSection.cpp:355-386 | the identifiers to receive are exactly those the offer sends |
| `SectionContents.CodecNameMeans` | mssdk/sdputil/MediaSection.cpp:603-612 | the name of a codec is what follows audio/ or video/ in any case |
| `SectionContents.OpusOptions` | mssdk/sdputil/MediaSection.cpp:186-240 | which option of Opus goes into which parameter of the answered codec, and that no other parameter changes |
| `SectionContents.VideoOptions` | mssdk/sdputil/MediaSection.cpp:241-262 | the same for the bitrates of the four video codecs |
| `SectionContents.OfferedOptions` | mssdk/sdputil/MediaSection.cpp:186-240 | the same for the offered codec, where stereo goes into sprop-stereo |
| `CodecAgreement.OfferedCodecs` | mssdk/sdputil/MediaSection.cpp:170-262 | over the whole loop: just the first offered codec of each answered payload type gets the options, all others stay |
| `SectionText.AnswerText` | mssdk/sdputil/MediaSection.cpp:83-397 | the m= line of an answer section has the kind and protocol of the offer, port 7 and the payload types of the answered codecs whatever the options, and it receives only; closing only changes the port to 0, disabling nothing of it, and both make it inactive |
| `SectionText.OfferText` | mssdk/sdputil/MediaSection.cpp:411-589 | an offer section sends only, over UDP/TLS/RTP/SAVPF, with the payload types of its codecs in order |
| `SdpState.InitialInv` | mssdk/sdputil/RemoteSdp.cpp:14-78 | the four views agree at the start |
| `SdpState.AddInv` | mssdk/sdputil/RemoteSdp.cpp:290-307 | adding a section with a fresh mid keeps the four views in agreement |
| `SdpState.ReplaceInv` | mssdk/sdputil/RemoteSdp.cpp:309-333 | replacing a closed section keeps them in agreement, also when the new mid is the old one |
| `SdpState.CloseInv` | mssdk/sdputil/RemoteSdp.cpp:257-276 | closing a known mid keeps them in agreement; the first section is only disabled |
| `SdpState.DisableInv` | mssdk/sdputil/RemoteSdp.cpp:247-255 | disabling a known mid keeps them in agreement, up to the copy that is not refreshed |
| `SdpState.NextInv` | mssdk/sdputil/RemoteSdp.cpp:90-349 | every step keeps the invariant: the index is exactly the inverse of the sections, mids are distinct, the first section is open and carries firstMid, BUNDLE is the open mids, copies mirror the sections |
| `SdpRuns.BundleIsOpenMids` | mssdk/sdputil/RemoteSdp.cpp:351-369 | in every reachable state, splitting the BUNDLE string at its blanks gives the mids of the open sections in m-line order |
| `SdpRuns.SlotsAreNeeded` | mssdk/sdputil/RemoteSdp.cpp:130-245 | over any run the number of sections is at least the largest number open at once, and equal to it if and only if, since all were last open, no data section was added while one was closed |
| `SdpRuns.SlotsAreOptimal` | mssdk/sdputil/RemoteSdp.cpp:130-245 | in a run without data sections the number of sections is the largest number open at once |
| `SdpRuns.DataWastesSlot` | mssdk/sdputil/RemoteSdp.cpp:177-208 | two sections received, one closed, then a data section: three sections though no three were open |
| `SdpRuns.StepIsStable` | mssdk/sdputil/RemoteSdp.cpp:247-349 | what a step can change: no section is removed, a slot changes its mid only when an open section replaces a closed one, only its own mid closes a section, never the first |
| `SdpRuns.SlotsAreStable` | mssdk/sdputil/RemoteSdp.cpp:257-333 | over whole runs: a slot that stayed open carries the same mid, slot 0 carries firstMid and is open |
| `SdpRuns.VersionCountsPrints` | mssdk/sdputil/RemoteSdp.cpp:278-288 | the session version is the number of times the session was printed, modulo 2^32 |
| `SdpRuns.CopiesAreCurrent` | mssdk/sdputil/RemoteSdp.cpp:247-349 | in every reachable state the printed copy of a slot is its section's object, unless the slot was disabled and not refreshed since |
| `SdpRuns.UnknownMid` | mssdk/sdputil/RemoteSdp.cpp:247-276 | closing or disabling keeps the invariant if and only if the mid is known; an unknown mid closes section 0 |
| `SdpRuns.UnknownMidBreaks` | mssdk/sdputil/RemoteSdp.cpp:247-276 | in the reachable session that has just a data section, closing or disabling an unknown mid breaks the index and closes section 0 |
| `SdpNormalForm.NextFits` | mssdk/sdputil/RemoteSdp.cpp:90-349 | every step keeps all sections and copies well formed |
| `SdpNormalForm.EverySdpIsNormal` | mssdk/sdputil/RemoteSdp.cpp:278-288 | whatever a run prints is parsed and printed again as the same text |
| `SdpRoles.RolesAreSpoken` | mssdk/sdputil/RemoteSdp.cpp:110-128 | over any run: each answer section and its printed copy is active, passive or actpass as the role last set asks, sections added later too, and each offer section is actpass |
| `SdpRoles.SetRoleSpeaks` | mssdk/sdputil/RemoteSdp.cpp:110-128 | setting a role makes every section and copy speak for it, whatever was set before |
| `SdpRoles.OtherRole` | mssdk/sdputil/MediaSection.cpp:399-410 | a role that means nothing leaves the answer sections as they were |
| `SdpSteps.IceIsCarried` | mssdk/sdputil/RemoteSdp.cpp:90-108 | over any run: every section and copy carries the ICE parameters set last, and the session has ice-lite if and only if some given ones mention it |
| `SdpSteps.CloseMeans` | mssdk/sdputil/RemoteSdp.cpp:257-276 | closing the first mid makes its section inactive, keeps its port and drops five members; closing another one also sets the port to 0 and drops a sixth; the copy is the same, all other sections stay |
| `SdpSteps.DisableMeans` | mssdk/sdputil/RemoteSdp.cpp:247-255 | disabling makes the section inactive and drops five members; no copy changes |
| `SdpSteps.SendMeans` | mssdk/sdputil/RemoteSdp.cpp:147-175 | sending puts a section with exactly these members into the first closed slot or at the end, and changes no other |
| `SdpSteps.ReceiveMeans` | mssdk/sdputil/RemoteSdp.cpp:210-245 | the same for receiving |
| `SdpSteps.DataMeans` | mssdk/sdputil/RemoteSdp.cpp:177-208 | data sections go to the end, with exactly these members |
| `SessionText.HeaderLines` | mssdk/sdputil/RemoteSdp.cpp:14-78 | exactly which lines a session has before its media sections |
| `SessionText.SdpText` | mssdk/sdputil/RemoteSdp.cpp:278-288 | over any run, the printed text letter by letter up to the media sections: version counter, ice-lite, fingerprint and BUNDLE |
| `RemoteSdpClass.RemoteSdp.GetNextMediaSectionIdx` | mssdk/sdputil/RemoteSdp.cpp:130-145 | the first closed section with its mid, else the next index without one |
| `RemoteSdpClass.RemoteSdp.RegenerateBundleMids` | mssdk/sdputil/RemoteSdp.cpp:351-369 | the loop that joins the mids of the open sections |
| `RemoteSdpClass.RemoteSdp.AddMediaSection` | mssdk/sdputil/RemoteSdp.cpp:290-307 | all four views are extended; the section is owned from then on |
| `RemoteSdpClass.RemoteSdp.ReplaceMediaSection` | mssdk/sdputil/RemoteSdp.cpp:309-333 | all four views are updated at the slot; the old section is deleted, once |
| `RemoteSdpClass.RemoteSdp.Send` | mssdk/sdputil/RemoteSdp.cpp:147-175 | the step of the state machine, with the offered codecs changed by the options |
| `RemoteSdpClass.RemoteSdp.SendSctpAssociation` | mssdk/sdputil/RemoteSdp.cpp:177-191 | a data section is always added, never put in the place of a closed one |
| `RemoteSdpClass.RemoteSdp.RecvSctpAssociation` | mssdk/sdputil/RemoteSdp.cpp:193-208 | the same for a data section to be received, with the fixed mid |
| `RemoteSdpClass.RemoteSdp.Receive` | mssdk/sdputil/RemoteSdp.cpp:210-245 | the first closed section is recycled, else the section is added |
| `RemoteSdpClass.RemoteSdp.UpdateIceParameters` | mssdk/sdputil/RemoteSdp.cpp:90-108 | every section and every copy gets the new ICE parameters |
| `RemoteSdpClass.RemoteSdp.UpdateDtlsRole` | mssdk/sdputil/RemoteSdp.cpp:110-128 | every answer and every copy gets the setup of the new role, as `SdpRoles.RolesAreSpoken` spells out |
| `RemoteSdpClass.RemoteSdp.DisableMediaSection` | mssdk/sdputil/RemoteSdp.cpp:247-255 | the section is disabled, its copy is not |
| `RemoteSdpClass.RemoteSdp.CloseMediaSection` | mssdk/sdputil/RemoteSdp.cpp:257-276 | section, copy and BUNDLE change together |
| `RemoteSdpClass.RemoteSdp.PrintedSdp` | mssdk/sdputil/RemoteSdp.cpp:278-288 | the version is counted up and the session with it is printed; the sections stay |
| `Ssrcs.GetRtpEncodings` | mssdk/sdputil/sdputil.cpp:407-470 | the loops over the lines and groups: sources without repeats, retransmissions taken out, one encoding for each source left; no result where the code throws |
| `Ssrcs.AddLegacySimulcast` | mssdk/sdputil/sdputil.cpp:214-380 | the loops that build the groups and lines of n streams, numbered as `SimulcastLines.LinesAreConsecutive` and `SimulcastLines.GroupsAreConsecutive` say; the reasons to throw |
| `Ssrcs.LinesReadBack` | mssdk/sdputil/sdputil.cpp:407-470 | source lines with FID groups read back as one encoding for each source, in order, if and only if no retransmission is also a source |
| `Ssrcs.SimulcastReadsBack` | mssdk/sdputil/sdputil.cpp:214-470 | for every accepted section and 2 <= n < 256: the n encodings with consecutive sources and retransmissions (wrapping at 2^32), if and only if the two ranges share no number; the cname is kept |
| `Ssrcs.OverlapDoesNotReadBack` | mssdk/sdputil/sdputil.cpp:214-470 | source 1 with retransmission 2 and three streams: accepted, and not read back |
| `Ssrcs.SameCname` | mssdk/sdputil/sdputil.cpp:382-405 | for every accepted section, what getCname finds stays the same if and only if the first line with an attribute has the value of the first cname line with a number |
| `Ssrcs.MsidFirstChangesCname` | mssdk/sdputil/sdputil.cpp:382-405 | with the msid line first, getCname finds the msid before and the cname after |
| `Ssrcs.OfferReadsBack` | mssdk/sdputil/MediaSection.cpp:541-581 | the source lines of an offer read back as that one encoding if and only if its retransmission is not the source itself, and the cname reads back |
| `Ssrcs.OfferSectionReadsBack` | mssdk/sdputil/MediaSection.cpp:536-589 | the same for the object of a whole offer section |
| `SimulcastLines.EncodingsAreConsecutive` | mssdk/sdputil/sdputil.cpp:214-470 | encoding i has the source o.ssrc + i and, with retransmission, o.rtx + i, modulo 2^32, when the two sequences share no number |
| `SimulcastLines.NoneSharedMeans` | mssdk/sdputil/sdputil.cpp:296-303 | which is exactly when the distance of the two first numbers, modulo 2^32, is at least n both ways |
| `SimulcastLines.LinesAreConsecutive` | mssdk/sdputil/sdputil.cpp:293-380 | for each number a cname and an msid line with the values found |
| `SimulcastLines.GroupsAreConsecutive` | mssdk/sdputil/sdputil.cpp:305-360 | the SIM group lists the n sources, each FID group one source and its retransmission |
| `SimulcastLines.OriginMeans` | mssdk/sdputil/sdputil.cpp:220-293 | where source, cname, msid and retransmission are taken from |
| `SourceReading.EncodingsExist` | mssdk/sdputil/sdputil.cpp:407-470 | for any section: there are encodings if and only if there is a line, every line has a number and every group says what it has to |
| `SourceReading.EncodingsMean` | mssdk/sdputil/sdputil.cpp:407-470 | for any such section: one encoding, in the order of the lines, for exactly each run of one id that no group makes a retransmission, with what the last group for its id says |
| `SourceReading.StoullMeans` | mssdk/sdputil/sdputil.cpp:430-456 | the numbers of a group: blanks, a sign, digits, and what follows |
| `SourceReading.PairMeans` | mssdk/sdputil/sdputil.cpp:430-456 | the first two numbers of a group count |
| `Capabilities.ValidateRtpCapabilities` | mssdk/sdputil/jsonvalidate.cpp:33-72 | the loops over codecs and header extensions: defaults filled in, or the reason for refusal |
| `Capabilities.ValidatedStays` | mssdk/sdputil/jsonvalidate.cpp:33-234 | validation is idempotent on every input it accepts |
| `CapabilityDefaults.CapsMean` | mssdk/sdputil/jsonvalidate.cpp:33-72 | capabilities are accepted if and only if every codec and every extension is; each is then there with its defaults, in its place |
| `CapabilityDefaults.CodecMeans` | mssdk/sdputil/jsonvalidate.cpp:79-162 | the exact condition for a codec, and its defaults: kind, channels, parameters and feedback |
| `CapabilityDefaults.ExtMeans` | mssdk/sdputil/jsonvalidate.cpp:191-234 | the exact condition for a header extension, and its defaults: not encrypted, sendrecv |
| `CapabilityDefaults.FeedbackMeans` | mssdk/sdputil/jsonvalidate.cpp:169-187 | the exact condition for a feedback, and its default: an empty parameter |
| `CapabilityDefaults.RecordRoundTrip` | mssdk/sdputil/jsonvalidate.cpp:79-162 | the record of a codec written as an object and read again is the same record |
| `Capabilities.ValidatedIsRecord` | mssdk/sdputil/jsonvalidate.cpp:79-162 | what validation makes sure of: the kind comes from the MIME type, channels are there exactly for "audio", parameters are plain values and apt a number |
| `Capabilities.CapitalKindLosesChannels` | mssdk/sdputil/jsonvalidate.cpp:99-126 | the kind is compared as written: a validated codec has channels if and only if its MIME type begins with audio in small letters |
| `Capabilities.CapitalOpusLosesChannels` | mssdk/sdputil/jsonvalidate.cpp:99-126 | AUDIO/opus with two channels is accepted and loses them |
| `Negotiation.GetExtendedRtpCapabilities` | mssdk/sdputil/jsonvalidate.cpp:942-1084 | the three loops: matching, which changes H264 codecs on both sides, RTX pairing, and header extensions; `CodecMatching` says what comes out |
| `Negotiation.OthersAreIntersection` | mssdk/sdputil/jsonvalidate.cpp:961-1000 | matching H264 codecs in place does not disturb the codecs matched for anything else |
| `Negotiation.InIntersection` | mssdk/sdputil/jsonvalidate.cpp:961-1000 | a codec is in the intersection if and only if it is a remote codec, neither RTX nor H264, with the first local codec that matches it |
| `Negotiation.NegotiatedIsIntersection` | mssdk/sdputil/jsonvalidate.cpp:961-1040 | apart from H264 the negotiated codecs are exactly that intersection, in remote order, with RTX on both sides or on none |
| `Negotiation.ReduceRtcpFeedback` | mssdk/sdputil/jsonvalidate.cpp:1684-1705 | the loop keeps the feedback of the first codec that the second has too |
| `Negotiation.CommonMeans` | mssdk/sdputil/jsonvalidate.cpp:1684-1705 | a feedback is in the reduced list if and only if both codecs have it; nothing is lost or reordered when the second has all of it |
| `Negotiation.MatchingIsSymmetric` | mssdk/sdputil/jsonvalidate.cpp:1584-1672 | apart from H264, which side asks does not matter, and a codec matches itself |
| `Negotiation.ProfilesAgree` | mssdk/sdputil/jsonvalidate.cpp:1636-1655 | whatever WebRTC answers and however often codecs are rewritten, both sides of a negotiated H264 codec have one profile-level-id or none |
| `CodecMatching.NegotiatedAgree` | mssdk/sdputil/jsonvalidate.cpp:961-1040 | apart from H264: every negotiated codec comes from a remote codec and the first local one with the same MIME type in small letters, clock rate, channels and VP9 profile, and every remote codec with such a partner is negotiated |
| `CodecMatching.NegotiatedH264` | mssdk/sdputil/jsonvalidate.cpp:961-1040 | H264: exactly the pairs with equal packetization modes for which WebRTC, asked with the local side first, says the same profile and gives an answer |
| `CodecMatching.LocalAtMeans` | mssdk/sdputil/jsonvalidate.cpp:961-1000 | only an H264 match changes a local codec, only the one that matched, and only its profile-level-id |
| `CodecMatching.RtxIsNegotiated` | mssdk/sdputil/jsonvalidate.cpp:1003-1040 | a codec has retransmission if and only if both sides have an RTX codec for it, and then the first of each side |
| `CodecMatching.NegotiatedInOrder` | mssdk/sdputil/jsonvalidate.cpp:961-1000 | the negotiated codecs are in the order of the remote ones |
| `SendReceive.GetRecvRtpCapabilities` | mssdk/sdputil/jsonvalidate.cpp:1092-1174 | the loops that derive the capabilities for receiving |
| `SendReceive.NegotiatedIsSound` | mssdk/sdputil/jsonvalidate.cpp:961-1040 | every negotiated codec owes its payload type to a codec of the other side, and its RTX codec names it in apt; when the remote payload types are distinct, so are those of the negotiated codecs |
| `SendReceive.RecvPayloadTypes` | mssdk/sdputil/jsonvalidate.cpp:1104-1149 | each payload type for receiving is remote; if the remote ones are distinct, so are these; if they are bytes, every RTX codec directly follows the codec its apt names |
| `SendReceive.RecvIsAccepted` | mssdk/sdputil/jsonvalidate.cpp:1092-1174 | validation accepts the capabilities for receiving of any negotiation and only gives audio RTX codecs one channel |
| `SendReceive.GetSendingRtpParameters` | mssdk/sdputil/jsonvalidate.cpp:1181-1268 | the loop stops after the first codec of the kind |
| `SendReceive.EraseFeedback` | mssdk/sdputil/jsonvalidate.cpp:1372-1435 | erasing while walking equals an order-preserving filter |
| `SendReceive.GetSendingRemoteRtpParameters` | mssdk/sdputil/jsonvalidate.cpp:1273-1436 | all codecs of the kind, with the feedback that the header extensions leave |
| `SendReceive.KeptMeans` | mssdk/sdputil/jsonvalidate.cpp:1358-1437 | exactly the feedback that is kept is left, nothing else is lost |
| `SendReceive.CongestionFeedback` | mssdk/sdputil/jsonvalidate.cpp:1358-1437 | no answer has both kinds of congestion feedback, nor one without the header extension for it |
| `SendReceive.OfferAndAnswerAgree` | mssdk/sdputil/jsonvalidate.cpp:1534-1567 | whenever the kind can be sent, the first codecs of the offer and of the answer have the same MIME types, payload types, clock rates and channels |
| `SendReceive.NegotiatedOfferAndAnswerAgree` | mssdk/sdputil/jsonvalidate.cpp:1181-1332 | the same for every negotiation |
| `SendReceive.SentComesFromBothSides` | mssdk/sdputil/jsonvalidate.cpp:1181-1332 | for every negotiation, a codec that is sent (not H264) is the first local codec matching some remote one, with its own parameters; the answer has it with those of the remote codec |
| `SendReceive.ExtensionDirections` | mssdk/sdputil/jsonvalidate.cpp:1042-1082 | for any two lists of header extensions: one is for receiving exactly when the other side sends it and it is known here, with the remote id, and for sending exactly when the other side receives it, with the local id |
| `NegotiatedContents.ReceivingAgrees` | mssdk/sdputil/jsonvalidate.cpp:1092-1174 | for every negotiation: the codecs for receiving are exactly those of the pairs that go together and their retransmissions, field by field |
| `NegotiatedContents.SendingAgrees` | mssdk/sdputil/jsonvalidate.cpp:1181-1268 | what is sent is the first negotiated codec of the kind as the local side has it, with its retransmission when both sides have one; nothing when there is none |
| `NegotiatedContents.AnsweringAgrees` | mssdk/sdputil/jsonvalidate.cpp:1273-1437 | the codecs of the answer are exactly those of the pairs of the kind and their retransmissions, with remote parameters and the common feedback that the header extensions leave |
| `NegotiatedContents.KeptInOrder` | mssdk/sdputil/jsonvalidate.cpp:1358-1437 | feedback is kept, in order, if and only if it is no transport-cc without its extension and no goog-remb without abs-send-time or besides the transport-cc extension |
| `CodecAgreement.AnswerCodecsAreOffered` | mssdk/sdputil/MediaSection.cpp:174-180 | for every negotiation the unchecked search for the offered codec of each answered codec succeeds |
| `Frames.PlanesFill` | mssdk/lazyutil/lbframe.h:302-434 | with even sizes the planes start where fill_video puts them and fill the buffer exactly |
| `Frames.CutMeans` | mssdk/lazyutil/lbscale.h:451-466 | the cut starts at the even place before the one asked for and has the largest even size that fits and was asked for |
| `Frames.Frame.LumaPixel` | mssdk/lazyutil/lbframe.h:184-258 | the pixel at (j, i) is the byte i*width+j |
| `Frames.Frame.UPixel` | mssdk/lazyutil/lbframe.h:184-258 | the same for the second plane, behind its start |
| `Frames.Frame.VPixel` | mssdk/lazyutil/lbframe.h:184-258 | the same for the third plane |
| `Frames.Frame.FillVideo` | mssdk/lazyutil/lbframe.h:184-258 | the frame takes over the buffer in the layout without gaps |
| `Frames.CopyRows` | mssdk/lazyutil/lbscale.h:467-490 | a loop of memcpy calls with both pointers advanced by their line sizes: the rows are written and nothing else, inside both buffers |
| `Frames.Frame.CropPlanes` | mssdk/lazyutil/lbscale.h:451-524 | the cut part, made even and clamped to the frame, of all three planes of an I420 frame |
| `Frames.Frame.CropPacked` | mssdk/lazyutil/lbscale.h:559-596 | the same for packed pixels of three or four bytes |
| `Frames.Frame.Overlay` | mssdk/lazyutil/lbscale.h:746-787 | all three planes are overlaid; every copy stays inside both buffers |
| `Pictures.CropUndoesOverlay` | mssdk/lazyutil/lbscale.h:451-787 | cropping the rectangle of an overlay gives back what was overlaid |
| `Pictures.OverlayStaysInside` | mssdk/lazyutil/lbscale.h:746-787 | an overlay changes no pixel outside its rectangle |
| `Pictures.OverlaidPixel` | mssdk/lazyutil/lbscale.h:746-787 | inside the rectangle an overlay shows the top picture, pixel by pixel |
| `Pictures.CroppedPixel` | mssdk/lazyutil/lbscale.h:451-524 | a cropped picture starts at the corner, pixel by pixel |
| `Pictures.WritingOverlays` | mssdk/lazyutil/lbscale.h:760-787 | copying rows to the start y*w+x of a plane is the overlay at (x, y) |
| `Pictures.ReadingCrops` | mssdk/lazyutil/lbscale.h:467-490 | reading rows from the start y*w+x of a plane is the crop at (x, y) |
| `Frames.OverlayThenCrop` | mssdk/lazyutil/lbscale.h:451-787 | overlay and then crop of the same rectangle: all three planes of the source |
| `SignalState.StepConserves` | mssdk/mssignal/mssignal.cpp:16-156 | a step conserves the messages if and only if it does not take a used place in a list or send a message with the id 0 |
| `SignalState.ReusedIdLoses` | mssdk/mssignal/mssignal.cpp:84-93 | two messages submitted under one id: a message is lost |
| `SignalState.ZeroIdLoses` | mssdk/mssignal/mssignal.cpp:16-41 | a message with the id 0 is sent and then in none of the three places |
| `SignalState.RequestsAreConserved` | mssdk/mssignal/mssignal.cpp:16-156 | over any interleaving with distinct ids other than 0, each request is in exactly one of queued, awaiting or answered; `SignalState.ResponsesArrive` says in which |
| `SignalState.ResponsesAreFinal` | mssdk/mssignal/mssignal.cpp:128-156 | a promise is set at most once, only for a request that waits, and only by a message of its own id |
| `SignalState.SubmitMeans` | mssdk/mssignal/mssignal.cpp:84-93 | the text and the wish for a response are stored as given, under the id |
| `SignalState.TransmitMeans` | mssdk/mssignal/mssignal.cpp:16-41 | a message goes onto the wire and is recorded unless its id is 0 |
| `SignalState.ReceiveMeans` | mssdk/mssignal/mssignal.cpp:128-156 | the message that waits under the id is answered, waits no longer and, when wanted, has the text as its response; nothing else changes, and nothing at all when none waits |
| `SignalState.ResponsesArrive` | mssdk/mssignal/mssignal.cpp:16-156 | over any run with distinct ids other than 0: a wanted request has a response if and only if it was sent and one arrived after that, and it is the first one |
| `SignalState.SubmittedInOrder` | mssdk/mssignal/mssignal.cpp:84-93 | the submitted messages are those of the run, in order |
| `SignalState.TransmissionsDrain` | mssdk/mssignal/mssignal.cpp:187-201 | whatever get_msg picks, k transmissions take k messages off the list and put them on the wire in that order |
| `Signal.MSSignal.Send` | mssdk/mssignal/mssignal.cpp:84-93 | the message waits under its id and replaces one that waited under the same id |
| `Signal.MSSignal.GetMsg` | mssdk/mssignal/mssignal.cpp:187-201 | some message is taken off the list, none if the list is empty |
| `Signal.MSSignal.Transmit` | mssdk/mssignal/mssignal.cpp:16-41 | a message is sent and recorded, unless its id is 0 |
| `Signal.MSSignal.OnTextMessage` | mssdk/mssignal/mssignal.cpp:128-156 | the request that waits under the id gets the text, a text without one changes nothing |

## Left out

- Params.ConfigRoundTrip: does not say how values that read as floating-point numbers print; whether a text does is a parameter. `long` has 32 bits, as on the system the client is built for.
- RemoteSdpClass.RemoteSdp.Send: takes the slot that GetNextMediaSectionIdx gives for the same state, as the callers do, and media sections only; the branch of ReplaceMediaSection for an empty mid cannot be reached with mids that are not empty.
- RemoteSdpClass.RemoteSdp.CloseMediaSection: requires a known mid; `SdpRuns.UnknownMid` says what happens otherwise.
- MediaSectionClass.MediaSection.Answer: an offer with simulcast but without rids, for which the JSON library throws, cannot be represented.
- Negotiation.Matched: a profile-level-id or profile-id of JSON null, for which the code throws, reads as an empty text; the two H264 calls of WebRTC are parameters.
- Negotiation.GetExtendedRtpCapabilities: works on validated records with payload types, apt for RTX, and one of the four directions for each header extension, as the code relies on; `Capabilities.ValidatedIsRecord` is the link from JSON.
- Frames.Frame.CropPlanes: even sizes and line sizes without gaps, no overflow of the 32-bit sizes; freeing the old buffer is not modelled.
- Frames.Frame.Overlay: I420 on I420 with even offsets; a frame is not overlaid on itself.
- Ssrcs.GetRtpEncodings: indexing past the tokens of a group, which the code does not check, counts as throwing.
- Signal.MSSignal.OnTextMessage: one atomic step, like sending together with recording; the source reads the list of waiting requests here without its lock.
- Storing and printing imageattr and framerate lines; which lines those two rules claim is modelled, so that no other line is given to the catch-all rule by mistake. parsePayloads, parseImageAttributes and parseSimulcastStreamList.
- Floating-point numbers: they are carried as their text.
- Cutting format strings at their placeholders: formats are written down already cut.
- The printed form of JSON arrays and objects, which no format asks for; details of std::regex beyond ordered, greedy backtracking on characters.
- sctpPort and maxMessageSize of data sections are set but no rule prints them.
- The destructor of RemoteSdp; the const views of JSON that throw for missing members.
- reduceCodecs with a preferred codec, whose test is always true; generateProbatorRtpParameters; canReceive; the other validate functions.
- applyCodecParameters and the extraction of capabilities and DTLS parameters from session descriptions.
- Crop for YV12, NV12 and NV21, overlay of packed pixels and of ARGB on I420, scaling, audio frames.
- close of the signalling channel, which drops all messages, and the dispatch of received messages to the application.
- WebRTC, libyuv, OpenSSL, Win32 and websocket calls, threads and sockets, logging, the user interface.
- The copies of the same code in mssdk/sdptransform, deps/libsdptransform, mssdk/sdputil/Utils.cpp and the second half of mssdk/json/parser.cpp.
