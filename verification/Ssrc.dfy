/**
  Sources and their retransmissions in a media section: legacy simulcast, and reading the
  encodings back from the a=ssrc and a=ssrc-group lines (mssdk/sdputil/sdputil.cpp, lines 214-470).
 */
module Ssrcs {
  import opened Prelude
  import opened Regex
  import opened Text
  import opened Json
  import opened RtpParams
  import opened Sections
  import opened MediaObjects

  // ---- Reading members ----

  function StringOf(line: Json, key: Key): Option<string> {
    if key in FieldsOf(line) && FieldsOf(line)[key].Str? then Some(FieldsOf(line)[key].s) else None
  }

  /** get<uint32_t> of a number. */
  function NumberOf(line: Json, key: Key): Option<nat> {
    if key in FieldsOf(line) && FieldsOf(line)[key].Num? then Some(FieldsOf(line)[key].n % TWO_32) else None
  }

  /** std::stoull: blanks, a sign and digits, whatever follows them. A minus sign counts down from 2^64. */
  function Stoull(s: string): Option<nat> {
    var t := s[Longest(Space, s)..];
    var body := if t != "" && (t[0] == '-' || t[0] == '+') then t[1..] else t;
    var digits := body[..Longest(Digit, body)];
    if digits == "" || DigitsValue(digits) > MAX_UINT64 then None
    else if t[0] == '-' then Some((0 - DigitsValue(digits)) % (MAX_UINT64 + 1))
    else Some(DigitsValue(digits))
  }

  lemma StoullOfDec(n: nat)
    requires n <= MAX_UINT64
    ensures Stoull(Dec(n)) == Some(n)
  {
    DecRoundTrip(n);
    DecDigits(n);
    var s := Dec(n);
    assert s[0] in s && s + "" == s;
    LongestStops(Digit, s, "");
    assert s[0..] == s;
    assert Longest(Space, s) == 0;
  }

  /** The two numbers of a group: the source and its retransmission, as unsigned 32-bit numbers. */
  function Pair(ssrcs: string): Option<(nat, nat)> {
    var v := Tokens(ssrcs, ' ');
    if |v| < 2 || Stoull(v[0]).None? || Stoull(v[1]).None? then None
    else Some((Stoull(v[0]).value % TWO_32, Stoull(v[1]).value % TWO_32))
  }

  lemma PairOfDecs(a: nat, b: nat)
    requires a < TWO_32 && b < TWO_32
    ensures Pair(Dec(a) + " " + Dec(b)) == Some((a, b))
  {
    hide Stoull, Tokens, Dec;
    DecDigits(a);
    DecDigits(b);
    StoullOfDec(a);
    StoullOfDec(b);
    TwoTokens(Dec(a), Dec(b));
  }

  lemma TwoTokens(a: string, b: string)
    requires ' ' !in a && ' ' !in b && b != ""
    ensures Tokens(a + " " + b, ' ') == [a, b]
  {
    hide Tokens;
    assert DelimiterFree([a, b], ' ');
    assert Join([a, b], ' ') == a + [' '] + b;
    SplitUndoesJoin([a, b], ' ');
  }

  // ---- getRtpEncodings ----

  /** The ids of the lines; a line without a number throws. */
  function Ids(lines: seq<Json>): Option<seq<nat>> {
    if lines == [] then Some([])
    else
      match (Ids(lines[..|lines| - 1]), NumberOf(lines[|lines| - 1], Id))
      case (Some(ids), Some(id)) => Some(ids + [id])
      case _ => None
  }

  /** std::list::unique: of equal neighbours, only the first stays. */
  function Unique(ids: seq<nat>): seq<nat> {
    if ids == [] then []
    else
      var front, last := ids[..|ids| - 1], ids[|ids| - 1];
      if front != [] && front[|front| - 1] == last then Unique(front) else Unique(front) + [last]
  }

  function Without(ids: seq<nat>, id: nat): seq<nat> {
    if ids == [] then []
    else Without(ids[..|ids| - 1], id) + if ids[|ids| - 1] == id then [] else [ids[|ids| - 1]]
  }

  /** The list of sources and the map to their retransmissions after some groups. */
  datatype Assigned = Assigned(ids: seq<nat>, rtx: map<nat, nat>)

  function AfterGroup(group: Json, a: Assigned): Option<Assigned> {
    match (StringOf(group, Semantics), StringOf(group, Key.Ssrcs))
    case (Some(semantics), ssrcs) =>
      if semantics != "FID" then Some(a)
      else if ssrcs.None? || Pair(ssrcs.value).None? then None
      else
        var (ssrc, rtx) := Pair(ssrcs.value).value;
        Some(Assigned(Without(a.ids, rtx), a.rtx[ssrc := rtx]))
    case _ => None
  }

  function AfterGroups(groups: seq<Json>, a: Assigned): Option<Assigned> {
    if groups == [] then Some(a)
    else
      match AfterGroups(groups[..|groups| - 1], a)
      case None => None
      case Some(before) => AfterGroup(groups[|groups| - 1], before)
  }

  function EncodingsOf(a: Assigned): seq<Encoding> {
    seq(|a.ids|, i requires 0 <= i < |a.ids| =>
      RtpEncoding(a.ids[i], if a.ids[i] in a.rtx then Some(a.rtx[a.ids[i]]) else None))
  }

  function ArrayOf(m: Fields, key: Key): seq<Json> { if key in m && m[key].Arr? then m[key].elems else [] }

  /** The encodings of a section, or none when the code throws. */
  function Encodings(m: Fields): Option<seq<Encoding>> {
    match Ids(ArrayOf(m, Key.Ssrcs))
    case None => None
    case Some(ids) =>
      if ids == [] then None
      else
        match AfterGroups(ArrayOf(m, Key.SsrcGroups), Assigned(Unique(ids), map[]))
        case None => None
        case Some(a) => Some(EncodingsOf(a))
  }

  method GetRtpEncodings(m: Fields) returns (r: Option<seq<Encoding>>)
    ensures r == Encodings(m)
  {
    hide AfterGroup, Unique, NumberOf;
    var lines, groups := ArrayOf(m, Key.Ssrcs), ArrayOf(m, Key.SsrcGroups);
    var ids: seq<nat> := [];
    for i := 0 to |lines|
      invariant Ids(lines[..i]) == Some(ids)
    {
      assert lines[..i + 1][..i] == lines[..i];
      var id := NumberOf(lines[i], Id);
      if id.None? {
        IdsFail(lines, i + 1);
        return None;
      }
      ids := ids + [id.value];
    }
    assert lines[..|lines|] == lines;
    if ids == [] {
      return None;
    }
    var a := Assigned(Unique(ids), map[]);
    ghost var start := a;
    for i := 0 to |groups|
      invariant AfterGroups(groups[..i], start) == Some(a)
    {
      assert groups[..i + 1][..i] == groups[..i];
      var next := AfterGroup(groups[i], a);
      if next.None? {
        GroupsFail(groups, i + 1, start);
        return None;
      }
      a := next.value;
    }
    assert groups[..|groups|] == groups;
    var encodings: seq<Encoding> := [];
    for i := 0 to |a.ids|
      invariant encodings == EncodingsOf(a)[..i]
    {
      var ssrc := a.ids[i];
      encodings := encodings + [RtpEncoding(ssrc, if ssrc in a.rtx then Some(a.rtx[ssrc]) else None)];
    }
    assert EncodingsOf(a)[..|a.ids|] == EncodingsOf(a);
    return Some(encodings);
  }

  lemma {:induction false} IdsFail(lines: seq<Json>, i: nat)
    requires i <= |lines| && Ids(lines[..i]).None?
    ensures Ids(lines).None?
    decreases |lines|
  {
    if i < |lines| {
      assert lines[..|lines| - 1][..i] == lines[..i];
      IdsFail(lines[..|lines| - 1], i);
    } else {
      assert lines[..i] == lines;
    }
  }

  lemma {:induction false} GroupsFail(groups: seq<Json>, i: nat, a: Assigned)
    requires i <= |groups| && AfterGroups(groups[..i], a).None?
    ensures AfterGroups(groups, a).None?
    decreases |groups|
  {
    if i < |groups| {
      assert groups[..|groups| - 1][..i] == groups[..i];
      GroupsFail(groups[..|groups| - 1], i, a);
    } else {
      assert groups[..i] == groups;
    }
  }

  // ---- getCname ----

  /** The value of the first line with an attribute, whatever attribute that is; "" when there is none. */
  function Cname(lines: seq<Json>): Option<string> {
    if lines == [] then Some("")
    else if StringOf(lines[0], Attribute).Some? then StringOf(lines[0], Value)
    else Cname(lines[1..])
  }

  // ---- Lines of sources with retransmissions ----

  /** The lines of the sources: a cname and an msid line each. */
  function SourceLines(ids: seq<nat>, cname: string, msid: string): seq<Json> {
    if ids == [] then []
    else
      var id := ids[|ids| - 1];
      SourceLines(ids[..|ids| - 1], cname, msid) + [Obj(SsrcObject(id, "cname", cname)), Obj(SsrcObject(id, "msid", msid))]
  }

  function FidGroups(ids: seq<nat>, rtx: seq<nat>): seq<Json>
    requires |rtx| <= |ids|
  {
    seq(|rtx|, i requires 0 <= i < |rtx| => Obj(GroupObject(Dec(ids[i]) + " " + Dec(rtx[i]))))
  }

  predicate Small(ids: seq<nat>) { forall id <- ids :: id < TWO_32 }

  predicate NoRepeats(ids: seq<nat>) { forall i, j :: 0 <= i < j < |ids| ==> ids[i] != ids[j] }

  function Doubled(ids: seq<nat>): seq<nat> {
    if ids == [] then [] else Doubled(ids[..|ids| - 1]) + [ids[|ids| - 1], ids[|ids| - 1]]
  }

  lemma IdOfLine(id: nat, attribute: string, value: string)
    requires id < TWO_32
    ensures NumberOf(Obj(SsrcObject(id, attribute, value)), Id) == Some(id)
  {}

  lemma TwoMoreIds(lines: seq<Json>, one: Json, two: Json)
    ensures Ids(lines).Some? && NumberOf(one, Id).Some? && NumberOf(two, Id).Some? ==>
              Ids(lines + [one, two]) == Some(Ids(lines).value + [NumberOf(one, Id).value, NumberOf(two, Id).value])
  {
    hide NumberOf;
    assert lines + [one, two] == lines + [one] + [two];
    assert (lines + [one] + [two])[..|lines| + 1] == lines + [one] && (lines + [one])[..|lines|] == lines;
    if Ids(lines).Some? && NumberOf(one, Id).Some? && NumberOf(two, Id).Some? {
      assert Ids(lines + [one]) == Some(Ids(lines).value + [NumberOf(one, Id).value]);
      var ids, a, b := Ids(lines).value, NumberOf(one, Id).value, NumberOf(two, Id).value;
      assert ids + [a] + [b] == ids + [a, b];
    }
  }

  lemma {:induction false} IdsOfLines(ids: seq<nat>, cname: string, msid: string)
    requires Small(ids)
    ensures Ids(SourceLines(ids, cname, msid)) == Some(Doubled(ids))
  {
    hide Ids, NumberOf, SsrcObject;
    if ids != [] {
      var front, id := ids[..|ids| - 1], ids[|ids| - 1];
      assert id in ids && forall x <- front :: x in ids;
      IdsOfLines(front, cname, msid);
      IdOfLine(id, "cname", cname);
      IdOfLine(id, "msid", msid);
      TwoMoreIds(SourceLines(front, cname, msid), Obj(SsrcObject(id, "cname", cname)), Obj(SsrcObject(id, "msid", msid)));
    } else {
      NoIds();
    }
  }

  lemma NoIds()
    ensures Ids([]) == Some([])
  {}

  lemma {:induction false} UniqueOfDoubled(ids: seq<nat>)
    ensures Unique(Doubled(ids)) == Unique(ids)
    ensures ids != [] ==> |Doubled(ids)| > 0 && Doubled(ids)[|Doubled(ids)| - 1] == ids[|ids| - 1]
  {
    if ids != [] {
      var front, id := ids[..|ids| - 1], ids[|ids| - 1];
      UniqueOfDoubled(front);
      var d := Doubled(front);
      assert Doubled(ids) == d + [id] + [id];
      assert (d + [id] + [id])[..|d| + 1] == d + [id] && (d + [id])[..|d|] == d;
    }
  }

  lemma {:induction false} UniqueKeeps(ids: seq<nat>)
    ensures NoRepeats(ids) ==> Unique(ids) == ids
    ensures forall id :: id in Unique(ids) <==> id in ids
  {
    if ids != [] {
      var front := ids[..|ids| - 1];
      UniqueKeeps(front);
      assert ids == front + [ids[|ids| - 1]];
    }
  }

  lemma {:induction false} WithoutMeans(ids: seq<nat>, id: nat)
    ensures forall x :: x in Without(ids, id) <==> x in ids && x != id
    ensures id !in ids ==> Without(ids, id) == ids
  {
    if ids != [] {
      var front := ids[..|ids| - 1];
      WithoutMeans(front, id);
      assert ids == front + [ids[|ids| - 1]];
    }
  }

  lemma {:induction false} WithoutLast(ids: seq<nat>, id: nat, rest: seq<nat>)
    requires id !in ids && id !in rest
    ensures Without(ids + [id] + rest, id) == ids + rest
  {
    if rest == [] {
      WithoutMeans(ids, id);
      assert (ids + [id] + rest)[..|ids|] == ids && ids + rest == ids;
    } else {
      var all, front, last := ids + [id] + rest, rest[..|rest| - 1], rest[|rest| - 1];
      assert all[..|all| - 1] == ids + [id] + front && last in rest;
      assert forall x <- front :: x in rest;
      WithoutLast(ids, id, front);
      assert ids + front + [last] == ids + rest;
    }
  }

  /** Retransmissions in the order of their sources. */
  function RtxMap(ids: seq<nat>, rtx: seq<nat>): map<nat, nat>
    requires |rtx| <= |ids|
  {
    if rtx == [] then map[] else RtxMap(ids, rtx[..|rtx| - 1])[ids[|rtx| - 1] := rtx[|rtx| - 1]]
  }

  lemma {:induction false} RtxMapMeans(ids: seq<nat>, rtx: seq<nat>)
    requires |rtx| <= |ids| && NoRepeats(ids)
    ensures forall i :: 0 <= i < |rtx| ==> ids[i] in RtxMap(ids, rtx) && RtxMap(ids, rtx)[ids[i]] == rtx[i]
    ensures forall i :: |rtx| <= i < |ids| ==> ids[i] !in RtxMap(ids, rtx)
  {
    if rtx != [] { RtxMapMeans(ids, rtx[..|rtx| - 1]); }
  }

  lemma FidGroupStep(ssrc: nat, rtx: nat, a: Assigned)
    requires ssrc < TWO_32 && rtx < TWO_32
    ensures AfterGroup(Obj(GroupObject(Dec(ssrc) + " " + Dec(rtx))), a) == Some(Assigned(Without(a.ids, rtx), a.rtx[ssrc := rtx]))
  {
    hide Pair, Dec;
    PairOfDecs(ssrc, rtx);
  }

  /** What the FID groups leave of a list of sources: everything but the retransmissions. */
  lemma {:induction false} AfterFidGroups(ids: seq<nat>, rtx: seq<nat>, list: seq<nat>)
    requires |rtx| <= |ids| && Small(ids) && Small(rtx)
    ensures AfterGroups(FidGroups(ids, rtx), Assigned(list, map[])).Some?
    ensures var a := AfterGroups(FidGroups(ids, rtx), Assigned(list, map[])).value;
            a.rtx == RtxMap(ids, rtx) && forall x :: x in a.ids <==> x in list && x !in rtx
  {
    hide AfterGroup, Dec, GroupObject, Without;
    if rtx != [] {
      var front, n := rtx[..|rtx| - 1], |rtx| - 1;
      assert forall x <- front :: x in rtx;
      AfterFidGroups(ids, front, list);
      var a := AfterGroups(FidGroups(ids, front), Assigned(list, map[])).value;
      assert FidGroups(ids, rtx)[..n] == FidGroups(ids, front);
      assert ids[n] in ids && rtx[n] in rtx && rtx == front + [rtx[n]];
      FidGroupStep(ids[n], rtx[n], a);
      WithoutMeans(a.ids, rtx[n]);
    }
  }

  lemma WithoutNext(ids: seq<nat>, rtx: seq<nat>, n: nat)
    requires n < |rtx| && NoRepeats(rtx) && forall x <- rtx :: x !in ids
    ensures Without(ids + rtx[n..], rtx[n]) == ids + rtx[n + 1..]
  {
    hide Without;
    assert ids + rtx[n..] == ids + [rtx[n]] + rtx[n + 1..];
    assert rtx[n] in rtx;
    var rest := rtx[n + 1..];
    assert forall j :: 0 <= j < |rest| ==> rest[j] == rtx[n + 1 + j];
    WithoutLast(ids, rtx[n], rest);
  }

  /** With retransmissions of their own, exactly the sources are left, in their order. */
  lemma {:induction false} FidGroupsLeaveSources(ids: seq<nat>, rtx: seq<nat>, n: nat)
    requires n <= |rtx| <= |ids| && Small(ids) && Small(rtx) && NoRepeats(rtx) && forall x <- rtx :: x !in ids
    ensures AfterGroups(FidGroups(ids, rtx)[..n], Assigned(ids + rtx, map[])) == Some(Assigned(ids + rtx[n..], RtxMap(ids, rtx[..n])))
  {
    hide AfterGroup, Dec, Without, GroupObject;
    if n == 0 {
      assert rtx[0..] == rtx && FidGroups(ids, rtx)[..0] == [];
    } else {
      FidGroupsLeaveSources(ids, rtx, n - 1);
      assert FidGroups(ids, rtx)[..n][..n - 1] == FidGroups(ids, rtx)[..n - 1];
      assert rtx[..n][..n - 1] == rtx[..n - 1] && ids[n - 1] in ids && rtx[n - 1] in rtx;
      FidGroupStep(ids[n - 1], rtx[n - 1], Assigned(ids + rtx[n - 1..], RtxMap(ids, rtx[..n - 1])));
      WithoutNext(ids, rtx, n - 1);
    }
  }

  /** The encodings that the sources stand for. */
  function Expected(ids: seq<nat>, rtx: seq<nat>): seq<Encoding> {
    seq(|ids|, i requires 0 <= i < |ids| => RtpEncoding(ids[i], if i < |rtx| then Some(rtx[i]) else None))
  }

  predicate Apart(ids: seq<nat>, rtx: seq<nat>) { forall x <- rtx :: x !in ids }

  lemma NoRepeatsTogether(ids: seq<nat>, rtx: seq<nat>)
    requires NoRepeats(ids) && NoRepeats(rtx) && Apart(ids, rtx)
    ensures NoRepeats(ids + rtx)
  {
    var all := ids + rtx;
    forall i, j | 0 <= i < j < |all| ensures all[i] != all[j] {
      if i < |ids| <= j { assert ids[i] in ids && rtx[j - |ids|] in rtx; }
    }
  }

  lemma ApartReadsBack(ids: seq<nat>, rtx: seq<nat>)
    requires (rtx == [] || |rtx| == |ids|) && Small(ids) && Small(rtx) && NoRepeats(ids) && NoRepeats(rtx) && Apart(ids, rtx)
    ensures var r := AfterGroups(FidGroups(ids, rtx), Assigned(Unique(ids + rtx), map[]));
            r.Some? && EncodingsOf(r.value) == Expected(ids, rtx)
  {
    hide AfterGroup, AfterGroups, Unique, RtxMap, Dec;
    NoRepeatsTogether(ids, rtx);
    UniqueKeeps(ids + rtx);
    FidGroupsLeaveSources(ids, rtx, |rtx|);
    assert FidGroups(ids, rtx)[..|rtx|] == FidGroups(ids, rtx) && rtx[..|rtx|] == rtx && rtx[|rtx|..] == [] && ids + [] == ids;
    RtxMapMeans(ids, rtx);
    assert EncodingsOf(Assigned(ids, RtxMap(ids, rtx))) == Expected(ids, rtx);
  }

  lemma SharedDoesNotReadBack(ids: seq<nat>, rtx: seq<nat>)
    requires |rtx| <= |ids| && Small(ids) && Small(rtx) && !Apart(ids, rtx)
    ensures var r := AfterGroups(FidGroups(ids, rtx), Assigned(Unique(ids + rtx), map[]));
            r.Some? && EncodingsOf(r.value) != Expected(ids, rtx)
  {
    hide AfterGroup, AfterGroups, Unique, RtxMap, Dec;
    var x :| x in rtx && x in ids;
    AfterFidGroups(ids, rtx, Unique(ids + rtx));
    var a := AfterGroups(FidGroups(ids, rtx), Assigned(Unique(ids + rtx), map[])).value;
    var i :| 0 <= i < |ids| && ids[i] == x;
    var encodings := EncodingsOf(a);
    assert Expected(ids, rtx)[i].ssrc == x && x !in a.ids;
    assert i < |encodings| ==> encodings[i].ssrc == a.ids[i] && a.ids[i] in a.ids;
  }

  /**
    Lines of sources and of retransmissions, with FID groups that pair them, read back as one
    encoding for each source, in order, exactly when no retransmission is also a source.
   */
  lemma LinesReadBack(m: Fields, ids: seq<nat>, rtx: seq<nat>, other: seq<Json>, cname: string, msid: string)
    requires ids != [] && (rtx == [] || |rtx| == |ids|) && Small(ids) && Small(rtx) && NoRepeats(ids) && NoRepeats(rtx)
    requires ArrayOf(m, Key.Ssrcs) == SourceLines(ids + rtx, cname, msid)
    requires ArrayOf(m, Key.SsrcGroups) == other + FidGroups(ids, rtx)
    requires forall a :: AfterGroups(other, a) == Some(a)
    ensures Encodings(m) == Some(Expected(ids, rtx)) <==> Apart(ids, rtx)
  {
    hide AfterGroup, AfterGroups, Unique, Doubled, Ids, SourceLines, EncodingsOf, Expected, FidGroups, Apart, NoRepeats, Small;
    var all := ids + rtx;
    SmallTogether(ids, rtx);
    IdsOfLines(all, cname, msid);
    UniqueOfDoubled(all);
    GroupsAfter(other, FidGroups(ids, rtx), Assigned(Unique(all), map[]));
    if Apart(ids, rtx) { ApartReadsBack(ids, rtx); } else { SharedDoesNotReadBack(ids, rtx); }
  }

  lemma SmallTogether(ids: seq<nat>, rtx: seq<nat>)
    requires Small(ids) && Small(rtx)
    ensures Small(ids + rtx)
  {}

  lemma {:induction false} GroupsAfter(a: seq<Json>, b: seq<Json>, start: Assigned)
    requires AfterGroups(a, start) == Some(start)
    ensures AfterGroups(a + b, start) == AfterGroups(b, start)
  {
    hide AfterGroup;
    if b == [] {
      assert a + b == a;
    } else {
      assert (a + b)[..|a + b| - 1] == a + b[..|b| - 1];
      GroupsAfter(a, b[..|b| - 1], start);
    }
  }

  // ---- The lines of an offer ----

  lemma OfferLines(e: Encoding, cname: string, msid: string)
    ensures |RtxOf(e)| <= 1 && SsrcList(e, cname, msid) == SourceLines([Ssrc(e)] + RtxOf(e), cname, msid)
    ensures GroupList(e) == FidGroups([Ssrc(e)], RtxOf(e))
  {
    hide SsrcObject, GroupObject, Dec;
    var one, two := [Ssrc(e)], [Ssrc(e), RtxSsrc(e)];
    assert one[..0] == [] && two[..1] == one && [Ssrc(e)] + [RtxSsrc(e)] == two && one + [] == one;
    assert SourceLines(one, cname, msid) == [Obj(SsrcObject(Ssrc(e), "cname", cname)), Obj(SsrcObject(Ssrc(e), "msid", msid))];
  }

  function RtxOf(e: Encoding): seq<nat> { if RtxSsrc(e) != 0 then [RtxSsrc(e)] else [] }

  lemma OfferMembers(m: Fields, e: Encoding, cname: string, msid: string)
    ensures var m' := WithSources(m, e, Some(cname), msid);
            ArrayOf(m', Key.Ssrcs) == SsrcList(e, cname, msid) && ArrayOf(m', Key.SsrcGroups) == GroupList(e)
            && Cname(ArrayOf(m', Key.Ssrcs)) == Some(cname)
  {
    hide Dec, GroupObject;
    assert SsrcList(e, cname, msid)[0] == Obj(SsrcObject(Ssrc(e), "cname", cname));
  }

  lemma OneExpected(e: Encoding)
    ensures Expected([Ssrc(e)], RtxOf(e)) == [RtpEncoding(Ssrc(e), if RtxSsrc(e) != 0 then Some(RtxSsrc(e)) else None)]
    ensures Apart([Ssrc(e)], RtxOf(e)) <==> Ssrc(e) != RtxSsrc(e) || RtxSsrc(e) == 0
  {
    hide Ssrc, RtxSsrc;
    assert RtxSsrc(e) != 0 ==> RtxSsrc(e) in RtxOf(e);
    assert Ssrc(e) in [Ssrc(e)] && forall x <- RtxOf(e) :: x == RtxSsrc(e) && x != 0;
  }

  lemma OneSmall(e: Encoding)
    ensures Small([Ssrc(e)]) && Small(RtxOf(e)) && NoRepeats([Ssrc(e)]) && NoRepeats(RtxOf(e))
    ensures RtxOf(e) == [] || |RtxOf(e)| == 1
  {}

  /**
    The sources that an offer section writes for an encoding are read back as that one encoding,
    exactly when its retransmission is not the source itself, and its cname is read back too.
   */
  lemma OfferReadsBack(m: Fields, e: Encoding, cname: string, msid: string)
    ensures var m' := WithSources(m, e, Some(cname), msid);
            (Encodings(m') == Some([RtpEncoding(Ssrc(e), if RtxSsrc(e) != 0 then Some(RtxSsrc(e)) else None)]) <==>
              Ssrc(e) != RtxSsrc(e) || RtxSsrc(e) == 0)
            && Cname(ArrayOf(m', Key.Ssrcs)) == Some(cname)
  {
    hide Dec, GroupObject, SsrcList, GroupList, Encodings, WithSources, SourceLines, FidGroups, Expected, Ssrc, RtxSsrc,
      RtxOf, Apart, Small, NoRepeats,
      Cname, ArrayOf, AfterGroups;
    var m' := WithSources(m, e, Some(cname), msid);
    OfferLines(e, cname, msid);
    OfferMembers(m, e, cname, msid);
    OneExpected(e);
    OneSmall(e);
    assert [] + GroupList(e) == GroupList(e);
    forall a ensures AfterGroups([], a) == Some(a) { NoGroups(a); }
    LinesReadBack(m', [Ssrc(e)], RtxOf(e), [], cname, msid);
  }

  lemma NoGroups(a: Assigned)
    ensures AfterGroups([], a) == Some(a)
  {}

  /** The object of a whole offer section, for media with a cname. */
  lemma OfferSectionReadsBack(ice: IceParameters, candidates: seq<IceCandidate>, mid: string, kind: string, params: RtpParameters,
                              streamId: string, trackId: string)
    requires IsMedia(kind) && params.encodings != [] && params.cname.Some?
    ensures var m, e := OfferObject(ice, candidates, None, mid, kind, params, streamId, trackId), params.encodings[0];
            (Encodings(m) == Some([RtpEncoding(Ssrc(e), if RtxSsrc(e) != 0 then Some(RtxSsrc(e)) else None)]) <==>
              Ssrc(e) != RtxSsrc(e) || RtxSsrc(e) == 0)
            && Cname(ArrayOf(m, Key.Ssrcs)) == params.cname
  {
    hide Encodings, Cname, Described, WithCodecs, WithMux, WithSources, Ssrc, RtxSsrc, ExtList, MediaObjects.Common, WithRole;
    var described := Described(MediaObjects.Common(ice, candidates), mid, kind, "UDP/TLS/RTP/SAVPF");
    var m := WithMux(WithCodecs(WithRole(true, described, ""), "sendonly", params.codecs)[Ext := Arr(ExtList(params.headerExtensions))]);
    OfferReadsBack(m, params.encodings[0], params.cname.value, streamId + " " + trackId);
  }

  // ---- Legacy simulcast ----

  /** The index of the first line with the attribute, or the number of lines. */
  function LineWith(lines: seq<Json>, attribute: string, withId: bool): (n: nat)
    ensures n <= |lines|
    ensures n < |lines| ==> StringOf(lines[n], Attribute) == Some(attribute)
  {
    if lines == [] || (StringOf(lines[0], Attribute) == Some(attribute) && (withId ==> HasNumber(lines[0]))) then 0
    else 1 + LineWith(lines[1..], attribute, withId)
  }

  predicate HasNumber(line: Json) {
    Id in FieldsOf(line) && (FieldsOf(line)[Id].Num? || FieldsOf(line)[Id].Float?)
  }

  /** What the search for the retransmission of a source finds: 0 when there is none; none when the code throws. */
  function FirstRtx(groups: seq<Json>, ssrc: nat): Option<nat> {
    if groups == [] then Some(0)
    else
      match (StringOf(groups[0], Semantics), StringOf(groups[0], Key.Ssrcs))
      case (Some(_), Some(ssrcs)) =>
        var v := Tokens(ssrcs, ' ');
        if v == [] || Stoull(v[0]).None? then None
        else if Stoull(v[0]).value != ssrc then FirstRtx(groups[1..], ssrc)
        else if |v| < 2 || Stoull(v[1]).None? then None
        else Some(Stoull(v[1]).value % TWO_32)
      case _ => FirstRtx(groups[1..], ssrc)
  }

  /** What is taken from the section: the stream and track, the first source and retransmission, and the cname. */
  datatype Origin = SimulcastOrigin(msid: string, ssrc: nat, rtx: nat, cname: string)

  function OriginOf(m: Fields): Result<Origin> {
    var lines := ArrayOf(m, Key.Ssrcs);
    var i, j := LineWith(lines, "msid", false), LineWith(lines, "cname", true);
    if i == |lines| then Err("a=ssrc line with msid information not found")
    else
      match (StringOf(lines[i], Value), NumberOf(lines[i], Id))
      case (Some(msid), Some(ssrc)) =>
        var v := Tokens(msid, ' ');
        if |v| < 2 then Err("no track")
        else
          var rtx := FirstRtx(ArrayOf(m, Key.SsrcGroups), ssrc);
          if rtx.None? then Err("no number")
          else if j == |lines| then Err("CNAME line not found")
          else
            (match StringOf(lines[j], Value)
             case Some(cname) => Ok(SimulcastOrigin(v[0] + " " + v[1], ssrc, rtx.value, cname))
             case None => Err("no cname"))
      case _ => Err("no msid")
  }

  /** Consecutive unsigned 32-bit numbers; they wrap around. */
  function Range(first: nat, n: nat): seq<nat> { seq(n, i requires 0 <= i < n => (first + i) % TWO_32) }

  function SimGroup(ids: seq<nat>): Json { Obj(map[Semantics := Str("SIM"), Key.Ssrcs := Str(Join(Decs(ids), ' '))]) }

  /** The section with n streams; one stream is what there is already. */
  function Simulcast(m: Fields, n: nat): Result<Fields> {
    if n <= 1 then Ok(m)
    else
      match OriginOf(m)
      case Err(reason) => Err(reason)
      case Ok(o) =>
        var ids, rtx := Range(o.ssrc, n), if o.rtx != 0 then Range(o.rtx, n) else [];
        Ok(m[Key.SsrcGroups := Arr([SimGroup(ids)] + FidGroups(ids, rtx))]
            [Key.Ssrcs := Arr(SourceLines(ids + rtx, o.cname, o.msid))])
  }

  /** addLegacySimulcast. */
  method AddLegacySimulcast(m: Fields, numStreams: nat) returns (r: Result<Fields>)
    requires numStreams < 256
    ensures r == Simulcast(m, numStreams)
  {
    hide OriginOf, Dec, SsrcObject, GroupObject, SourceLines, FidGroups, Join, Decs;
    if numStreams <= 1 {
      return Ok(m);
    }
    var origin := OriginOf(m);
    if origin.Err? {
      return Err(origin.reason);
    }
    var o := origin.value;
    var ids: seq<nat>, rtx: seq<nat> := [], [];
    for i := 0 to numStreams
      invariant ids == Range(o.ssrc, i) && rtx == if o.rtx != 0 then Range(o.rtx, i) else []
    {
      ids := ids + [(o.ssrc + i) % TWO_32];
      if o.rtx != 0 {
        rtx := rtx + [(o.rtx + i) % TWO_32];
      }
    }
    var ssrcsLine := JoinNumbers(ids, ' ');
    var groups := [Obj(map[Semantics := Str("SIM"), Key.Ssrcs := Str(ssrcsLine)])];
    var lines := AddSourceLines([], ids, o.cname, o.msid);
    var fids := BuildFidGroups(ids, rtx);
    groups := groups + fids;
    var rtxLines := AddSourceLines(lines, rtx, o.cname, o.msid);
    SourceLinesAppend(ids, rtx, o.cname, o.msid);
    assert groups == [SimGroup(ids)] + FidGroups(ids, rtx);
    assert rtxLines == SourceLines(ids + rtx, o.cname, o.msid);
    return Ok(m[Key.SsrcGroups := Arr(groups)][Key.Ssrcs := Arr(rtxLines)]);
  }

  /** The loop over the sources, or over the retransmissions. */
  method AddSourceLines(before: seq<Json>, ids: seq<nat>, cname: string, msid: string) returns (lines: seq<Json>)
    ensures lines == before + SourceLines(ids, cname, msid)
  {
    hide SsrcObject;
    lines := before;
    for i := 0 to |ids|
      invariant lines == before + SourceLines(ids[..i], cname, msid)
    {
      assert ids[..i + 1][..i] == ids[..i];
      lines := lines + [Obj(SsrcObject(ids[i], "cname", cname))];
      lines := lines + [Obj(SsrcObject(ids[i], "msid", msid))];
    }
    assert ids[..|ids|] == ids;
  }

  method BuildFidGroups(ids: seq<nat>, rtx: seq<nat>) returns (groups: seq<Json>)
    requires |rtx| <= |ids|
    ensures groups == FidGroups(ids, rtx)
  {
    hide GroupObject, Dec;
    groups := [];
    for i := 0 to |rtx|
      invariant groups == FidGroups(ids, rtx)[..i]
    {
      groups := groups + [Obj(GroupObject(Dec(ids[i]) + " " + Dec(rtx[i])))];
    }
    assert FidGroups(ids, rtx)[..|rtx|] == FidGroups(ids, rtx);
  }

  lemma {:induction false} SourceLinesAppend(a: seq<nat>, b: seq<nat>, cname: string, msid: string)
    ensures SourceLines(a + b, cname, msid) == SourceLines(a, cname, msid) + SourceLines(b, cname, msid)
  {
    hide SsrcObject;
    if b == [] {
      assert a + b == a;
    } else {
      assert (a + b)[..|a + b| - 1] == a + b[..|b| - 1];
      SourceLinesAppend(a, b[..|b| - 1], cname, msid);
    }
  }

  lemma ModApart(a: nat, b: nat)
    requires a < b < a + TWO_32
    ensures a % TWO_32 != b % TWO_32
  {}

  lemma RangeMeans(first: nat, n: nat)
    requires n < TWO_32
    ensures Small(Range(first, n)) && NoRepeats(Range(first, n))
  {
    var r := Range(first, n);
    forall i, j | 0 <= i < j < |r| ensures r[i] != r[j] {
      ModApart(first + i, first + j);
    }
  }

  lemma SimGroupIsSkipped(ids: seq<nat>, a: Assigned)
    ensures AfterGroups([SimGroup(ids)], a) == Some(a)
  {
    hide Join, Decs;
    assert [SimGroup(ids)][..0] == [];
    assert AfterGroup(SimGroup(ids), a) == Some(a);
  }

  lemma {:induction false} CnameOfLines(ids: seq<nat>, cname: string, msid: string)
    requires ids != []
    ensures Cname(SourceLines(ids, cname, msid)) == Some(cname)
    ensures SourceLines(ids, cname, msid)[0] == Obj(SsrcObject(ids[0], "cname", cname))
  {
    if |ids| > 1 {
      CnameOfLines(ids[..|ids| - 1], cname, msid);
    }
  }

  /**
    For every section that the code accepts, legacy simulcast and then reading the encodings gives
    the n encodings with the sources that follow the first one, each with the retransmission that
    follows the first one if there is one, exactly when the two ranges share no number. Numbers
    wrap around at 2^32. The cname is kept.
   */
  lemma SimulcastReadsBack(m: Fields, n: nat)
    requires 2 <= n < 256 && Simulcast(m, n).Ok?
    ensures OriginOf(m).Ok?
    ensures var m', o := Simulcast(m, n).value, OriginOf(m).value;
            var ids, rtx := Range(o.ssrc, n), if o.rtx != 0 then Range(o.rtx, n) else [];
            (Encodings(m') == Some(Expected(ids, rtx)) <==> Apart(ids, rtx))
            && Cname(ArrayOf(m', Key.Ssrcs)) == Some(o.cname)
  {
    hide OriginOf, Encodings, Expected, Apart, SourceLines, FidGroups, Range, SimGroup, Cname;
    var m', o := Simulcast(m, n).value, OriginOf(m).value;
    var ids, rtx := Range(o.ssrc, n), if o.rtx != 0 then Range(o.rtx, n) else [];
    RangeMeans(o.ssrc, n);
    RangeMeans(o.rtx, n);
    RangeLength(o.ssrc, n);
    RangeLength(o.rtx, n);
    forall a ensures AfterGroups([SimGroup(ids)], a) == Some(a) { SimGroupIsSkipped(ids, a); }
    assert ArrayOf(m', Key.Ssrcs) == SourceLines(ids + rtx, o.cname, o.msid);
    assert ArrayOf(m', Key.SsrcGroups) == [SimGroup(ids)] + FidGroups(ids, rtx);
    LinesReadBack(m', ids, rtx, [SimGroup(ids)], o.cname, o.msid);
    CnameOfLines(ids + rtx, o.cname, o.msid);
  }

  lemma RangeLength(first: nat, n: nat)
    ensures |Range(first, n)| == n
  {}

  /** The index of the first line with an attribute, or the number of lines. */
  function FirstAttribute(lines: seq<Json>): (n: nat)
    ensures n <= |lines| && (n < |lines| ==> StringOf(lines[n], Attribute).Some?)
    ensures forall i :: 0 <= i < n ==> StringOf(lines[i], Attribute).None?
  {
    if lines == [] || StringOf(lines[0], Attribute).Some? then 0 else 1 + FirstAttribute(lines[1..])
  }

  lemma {:induction false} CnameIsFirst(lines: seq<Json>)
    ensures var i := FirstAttribute(lines); Cname(lines) == if i == |lines| then Some("") else StringOf(lines[i], Value)
  {
    if lines != [] && StringOf(lines[0], Attribute).None? { CnameIsFirst(lines[1..]); }
  }

  lemma OriginCname(m: Fields)
    requires OriginOf(m).Ok?
    ensures var lines := ArrayOf(m, Key.Ssrcs);
            var j := LineWith(lines, "cname", true);
            FirstAttribute(lines) <= j < |lines| && StringOf(lines[j], Value) == Some(OriginOf(m).value.cname)
  {
    hide FirstRtx, Tokens, FirstAttribute, NumberOf, StringOf;
    var lines := ArrayOf(m, Key.Ssrcs);
    assert FirstAttribute(lines) <= |lines|;
  }

  /**
    getCname takes the first line with an attribute, and simulcast the first cname line with a
    number. Legacy simulcast leaves what getCname finds as it was exactly when those two have the
    same value: when the cname line comes first, or when the line before it happens to say the same.
   */
  lemma SameCname(m: Fields, n: nat)
    requires 2 <= n < 256 && Simulcast(m, n).Ok?
    ensures var lines, after := ArrayOf(m, Key.Ssrcs), ArrayOf(Simulcast(m, n).value, Key.Ssrcs);
            var first, cname := FirstAttribute(lines), LineWith(lines, "cname", true);
            first <= cname < |lines| && Cname(after) == StringOf(lines[cname], Value)
            && (Cname(after) == Cname(lines) <==> StringOf(lines[first], Value) == StringOf(lines[cname], Value))
  {
    hide Simulcast, Cname, Range, Encodings, Expected, OriginOf, FirstAttribute, LineWith, StringOf, ArrayOf;
    SimulcastReadsBack(m, n);
    OriginCname(m);
    CnameIsFirst(ArrayOf(m, Key.Ssrcs));
  }

  /** A section with one source, its retransmission, and the lines of its sources. */
  function Example(lines: seq<Json>, rtx: nat): Fields {
    map[Key.Ssrcs := Arr(lines), Key.SsrcGroups := Arr([Obj(GroupObject(Dec(1) + " " + Dec(rtx)))])]
  }

  lemma ExampleRtx(rtx: nat)
    requires 0 < rtx < TWO_32
    ensures FirstRtx([Obj(GroupObject(Dec(1) + " " + Dec(rtx)))], 1) == Some(rtx)
  {
    hide Stoull, Dec, Tokens;
    DecDigits(1);
    DecDigits(rtx);
    assert Dec(1) + [' '] + Dec(rtx) == Dec(1) + " " + Dec(rtx);
    TokensStep(Dec(1), ' ', Dec(rtx));
    SplitOfOne(Dec(rtx), ' ');
    StoullOfDec(1);
    StoullOfDec(rtx);
  }

  lemma StreamAndTrack()
    ensures Tokens("s t", ' ') == ["s", "t"]
  {
    hide Tokens;
    assert "s" + [' '] + "t" == "s t";
    TokensStep("s", ' ', "t");
    SplitOfOne("t", ' ');
  }

  const CNAME_LINE: Json := Obj(SsrcObject(1, "cname", "c"))
  const MSID_LINE: Json := Obj(SsrcObject(1, "msid", "s t"))

  lemma FoundAt(attribute: string, withId: bool, second: bool)
    requires attribute == "msid" || attribute == "cname"
    ensures var line, other := if attribute == "msid" then MSID_LINE else CNAME_LINE, if attribute == "msid" then CNAME_LINE else MSID_LINE;
            var lines := if second then [other, line] else [line, other];
            LineWith(lines, attribute, withId) == (if second then 1 else 0)
  {
    var line, other := if attribute == "msid" then MSID_LINE else CNAME_LINE, if attribute == "msid" then CNAME_LINE else MSID_LINE;
    assert [other, line][1..] == [line];
    assert StringOf(line, Attribute) == Some(attribute) && StringOf(other, Attribute) != Some(attribute);
  }

  lemma ExampleOrigin(cnameFirst: bool, rtx: nat)
    requires 0 < rtx < TWO_32
    ensures var lines := if cnameFirst then [CNAME_LINE, MSID_LINE] else [MSID_LINE, CNAME_LINE];
            OriginOf(Example(lines, rtx)) == Ok(SimulcastOrigin("s t", 1, rtx, "c"))
  {
    hide FirstRtx, Tokens, Dec;
    ExampleRtx(rtx);
    StreamAndTrack();
    FoundAt("msid", false, cnameFirst);
    FoundAt("cname", true, !cnameFirst);
    hide LineWith;
    assert "s" + " " + "t" == "s t";
  }

  /** With the source 1 and the retransmission 2, the second source is the first retransmission, and three streams do not read back. */
  lemma OverlapDoesNotReadBack()
    ensures var m := Example([CNAME_LINE, MSID_LINE], 2);
            Simulcast(m, 3).Ok? && Encodings(Simulcast(m, 3).value) != Some(Expected(Range(1, 3), Range(2, 3)))
  {
    hide Encodings, Expected, SourceLines, FidGroups, OriginOf, SimGroup, Example;
    ExampleOrigin(true, 2);
    assert Range(2, 3)[0] == 2 == Range(1, 3)[1];
    assert Range(2, 3)[0] in Range(2, 3) && Range(1, 3)[1] in Range(1, 3) && !Apart(Range(1, 3), Range(2, 3));
    SimulcastReadsBack(Example([CNAME_LINE, MSID_LINE], 2), 3);
  }

  /** When the msid line comes first, getCname finds the msid before legacy simulcast and the cname after it. */
  lemma MsidFirstChangesCname()
    ensures var m := Example([MSID_LINE, CNAME_LINE], 9);
            Cname(ArrayOf(m, Key.Ssrcs)) == Some("s t")
            && Simulcast(m, 3).Ok? && Cname(ArrayOf(Simulcast(m, 3).value, Key.Ssrcs)) == Some("c")
  {
    hide SourceLines, FidGroups, OriginOf, SimGroup;
    var m := Example([MSID_LINE, CNAME_LINE], 9);
    ExampleOrigin(false, 9);
    SimulcastReadsBack(m, 3);
  }
}
