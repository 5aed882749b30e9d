/**
  What the encodings of a section are, told by its lines and groups: getRtpEncodings of any section
  (mssdk/sdputil/sdputil.cpp, lines 402-470), not only of one that was written here.
 */
module SourceReading {
  import opened Prelude
  import opened Regex
  import opened Text
  import opened Json
  import opened RtpParams
  import opened Sections
  import opened Ssrcs

  // ---- Numbers in groups ----

  predicate Blank(s: string) { forall c <- s :: c == ' ' || '\t' <= c <= '\r' }

  predicate Digits(s: string) { s != "" && forall c <- s :: '0' <= c <= '9' }

  lemma StoullOfParts(s: string, t: string, body: string, digits: string)
    requires t == s[Longest(Space, s)..] && t != "" && body == (if t[0] == '-' || t[0] == '+' then t[1..] else t)
    requires digits == body[..Longest(Digit, body)] && digits != ""
    ensures All(Digit, digits)
    ensures Stoull(s) == if DigitsValue(digits) > MAX_UINT64 then None
                         else if t[0] == '-' && DigitsValue(digits) > 0 then Some(MAX_UINT64 + 1 - DigitsValue(digits))
                         else Some(DigitsValue(digits))
  {
    hide DigitsValue, Longest;
    if 0 < DigitsValue(digits) <= MAX_UINT64 { CountedDown(DigitsValue(digits)); }
  }

  /** Blanks before the number and anything but digits behind it are passed over; a minus sign counts down from 2^64. */
  lemma StoullMeans(blanks: string, sign: string, digits: string, rest: string)
    requires Blank(blanks) && (sign == "" || sign == "+" || sign == "-") && Digits(digits) && (rest == "" || !('0' <= rest[0] <= '9'))
    ensures All(Digit, digits)
    ensures Stoull(blanks + sign + digits + rest)
         == if DigitsValue(digits) > MAX_UINT64 then None
            else if sign == "-" && DigitsValue(digits) > 0 then Some(MAX_UINT64 + 1 - DigitsValue(digits))
            else Some(DigitsValue(digits))
  {
    hide DigitsValue, Stoull, Longest;
    var body := digits + rest;
    var t := sign + body;
    var s := blanks + sign + digits + rest;
    assert s == blanks + t;
    assert digits[0] in digits && t[0] == if sign == "" then digits[0] else sign[0];
    LongestStops(Space, blanks, t);
    assert s[|blanks|..] == t;
    LongestStops(Digit, digits, rest);
    assert body[..|digits|] == digits;
    assert sign != "" ==> t[1..] == body;
    StoullOfParts(s, t, body, digits);
  }

  lemma CountedDown(n: nat)
    requires 0 < n <= MAX_UINT64
    ensures (0 - n) % (MAX_UINT64 + 1) == MAX_UINT64 + 1 - n
  {}

  /** A group names its two numbers first; what follows them does not matter. */
  lemma PairMeans(v: seq<string>)
    requires forall t <- v :: ' ' !in t && t != ""
    ensures Pair(Join(v, ' '))
         == if |v| < 2 || Stoull(v[0]).None? || Stoull(v[1]).None? then None
            else Some((Stoull(v[0]).value % TWO_32, Stoull(v[1]).value % TWO_32))
  {
    hide Stoull, Tokens, Join;
    assert v != [] ==> v[|v| - 1] in v;
    SplitUndoesJoin(v, ' ');
  }

  // ---- Lines and groups ----

  predicate HasId(line: Json) { line.Obj? && Id in line.fields && line.fields[Id].Num? }

  /** The id of a line, as an unsigned 32-bit number. */
  function IdOf(line: Json): nat
    requires HasId(line)
  {
    line.fields[Id].n % TWO_32
  }

  predicate IsFid(group: Json) { group.Obj? && Semantics in group.fields && group.fields[Semantics] == Str("FID") }

  /** A group that says what it is for, and names two numbers when that is retransmission. */
  predicate GroupFits(group: Json) {
    group.Obj? && Semantics in group.fields && group.fields[Semantics].Str?
    && (IsFid(group) ==> Key.Ssrcs in group.fields && group.fields[Key.Ssrcs].Str? && Pair(group.fields[Key.Ssrcs].s).Some?)
  }

  /** A group that makes the source `rtx` the retransmission of the source `ssrc`. */
  predicate Retransmits(group: Json, ssrc: nat, rtx: nat) {
    IsFid(group) && GroupFits(group) && Pair(group.fields[Key.Ssrcs].s) == Some((ssrc, rtx))
  }

  predicate IsRetransmission(group: Json, id: nat) {
    IsFid(group) && GroupFits(group) && Pair(group.fields[Key.Ssrcs].s).value.1 == id
  }

  predicate HasRetransmission(group: Json, id: nat) {
    IsFid(group) && GroupFits(group) && Pair(group.fields[Key.Ssrcs].s).value.0 == id
  }

  predicate AnyRetransmission(groups: seq<Json>, id: nat) { exists k :: 0 <= k < |groups| && IsRetransmission(groups[k], id) }

  /** The last group that gives the source a retransmission gives it this one. */
  predicate LastSays(groups: seq<Json>, ssrc: nat, rtx: nat) {
    exists k :: 0 <= k < |groups| && Retransmits(groups[k], ssrc, rtx) && NoneBehind(groups, k, ssrc)
  }

  predicate NoneBehind(groups: seq<Json>, k: int, ssrc: nat) {
    forall j :: k < j < |groups| && 0 <= j ==> !HasRetransmission(groups[j], ssrc)
  }

  predicate NoneSays(groups: seq<Json>, ssrc: nat) { forall k :: 0 <= k < |groups| ==> !HasRetransmission(groups[k], ssrc) }

  // ---- Lists that are picked out of another ----

  /** `list` is what stands at the places `places` of `base`, in that order. */
  predicate Picked(list: seq<nat>, base: seq<nat>, places: seq<nat>) {
    |list| == |places| && (forall k :: 0 <= k < |places| ==> places[k] < |base| && list[k] == base[places[k]])
    && forall k, m :: 0 <= k < m < |places| ==> places[k] < places[m]
  }

  lemma PickedMore(list: seq<nat>, base: seq<nat>, places: seq<nat>, x: nat)
    requires Picked(list, base, places)
    ensures Picked(list, base + [x], places) && Picked(list + [x], base + [x], places + [|base|])
    ensures forall i: nat :: i in places + [|base|] <==> i in places || i == |base|
  {}

  predicate StartsRun(ids: seq<nat>, i: nat) { i < |ids| && (i == 0 || ids[i - 1] != ids[i]) }

  lemma {:induction false} UniqueIsPicked(ids: seq<nat>) returns (places: seq<nat>)
    ensures Picked(Unique(ids), ids, places)
    ensures forall i: nat :: i in places <==> StartsRun(ids, i)
  {
    if ids == [] {
      places := [];
    } else {
      var front, last := ids[..|ids| - 1], ids[|ids| - 1];
      var before := UniqueIsPicked(front);
      PickedMore(Unique(front), front, before, last);
      assert front + [last] == ids;
      forall i: nat | i < |ids| ensures StartsRun(ids, i) <==> StartsRun(front, i) || (i == |front| && (i == 0 || front[i - 1] != last)) {}
      places := if front != [] && front[|front| - 1] == last then before else before + [|front|];
      hide Picked, StartsRun;
    }
  }

  predicate AllBefore(places: seq<nat>, place: nat) { forall k :: 0 <= k < |places| ==> places[k] < place }

  lemma PickedOne(list: seq<nat>, base: seq<nat>, places: seq<nat>, place: nat)
    requires Picked(list, base, places) && place < |base| && AllBefore(places, place)
    ensures Picked(list + [base[place]], base, places + [place])
    ensures forall i: nat :: i in places + [place] <==> i in places || i == place
  {}

  lemma PickedFront(list: seq<nat>, base: seq<nat>, places: seq<nat>)
    requires Picked(list, base, places) && list != []
    ensures places != [] && Picked(list[..|list| - 1], base, places[..|list| - 1])
    ensures var place := places[|list| - 1];
            place < |base| && list[|list| - 1] == base[place] && AllBefore(places[..|list| - 1], place)
            && forall i: nat :: i in places <==> i in places[..|list| - 1] || i == place
  {
    assert places == places[..|list| - 1] + [places[|list| - 1]];
  }

  lemma {:induction false} WithoutIsPicked(list: seq<nat>, base: seq<nat>, places: seq<nat>, id: nat) returns (left: seq<nat>)
    requires Picked(list, base, places)
    ensures Picked(Without(list, id), base, left)
    ensures forall i: nat :: i in left <==> i in places && i < |base| && base[i] != id
  {
    if list == [] {
      left := [];
    } else {
      var n := |list| - 1;
      PickedFront(list, base, places);
      hide Picked;
      var front := WithoutIsPicked(list[..n], base, places[..n], id);
      if list[n] == id {
        left := front;
      } else {
        assert AllBefore(front, places[n]) by {
          assert forall k :: 0 <= k < |front| ==> front[k] in front && front[k] in places[..n];
        }
        PickedOne(Without(list[..n], id), base, front, places[n]);
        left := front + [places[n]];
      }
    }
  }

  // ---- The groups ----

  lemma GroupMeans(group: Json, a: Assigned)
    ensures AfterGroup(group, a).Some? <==> GroupFits(group)
    ensures GroupFits(group) && !IsFid(group) ==> AfterGroup(group, a) == Some(a)
    ensures GroupFits(group) && IsFid(group) ==>
              var (ssrc, rtx) := Pair(group.fields[Key.Ssrcs].s).value;
              AfterGroup(group, a) == Some(Assigned(Without(a.ids, rtx), a.rtx[ssrc := rtx]))
  {
    hide Pair;
  }

  lemma {:induction false} GroupsFit(groups: seq<Json>, a: Assigned)
    ensures AfterGroups(groups, a).Some? <==> forall g <- groups :: GroupFits(g)
  {
    hide AfterGroup, GroupFits;
    if groups != [] {
      var front, last := groups[..|groups| - 1], groups[|groups| - 1];
      GroupsFit(front, a);
      assert groups == front + [last];
      if AfterGroups(front, a).Some? { GroupMeans(last, AfterGroups(front, a).value); }
    }
  }

  /** The sources that are left, and their retransmissions. */
  ghost predicate AssignedBy(groups: seq<Json>, base: seq<nat>, places: seq<nat>, a: Assigned, left: seq<nat>) {
    Picked(a.ids, base, left)
    && (forall i: nat :: i in left <==> i in places && i < |base| && !AnyRetransmission(groups, base[i]))
    && (forall s: nat :: s !in a.rtx ==> NoneSays(groups, s))
    && (forall s: nat :: s in a.rtx ==> LastSays(groups, s, a.rtx[s]))
  }

  lemma OneMoreGroup(groups: seq<Json>, last: Json, s: nat)
    ensures AnyRetransmission(groups + [last], s) <==> AnyRetransmission(groups, s) || IsRetransmission(last, s)
    ensures NoneSays(groups + [last], s) <==> NoneSays(groups, s) && !HasRetransmission(last, s)
    ensures forall rtx :: LastSays(groups, s, rtx) && !HasRetransmission(last, s) ==> LastSays(groups + [last], s, rtx)
    ensures forall rtx :: Retransmits(last, s, rtx) ==> LastSays(groups + [last], s, rtx)
  {
    hide IsRetransmission, HasRetransmission, Retransmits;
    var all := groups + [last];
    assert all[|groups|] == last && forall k :: 0 <= k < |groups| ==> all[k] == groups[k];
    if AnyRetransmission(groups, s) {
      var k :| 0 <= k < |groups| && IsRetransmission(groups[k], s);
      assert all[k] == groups[k];
    }
    forall rtx | LastSays(groups, s, rtx) && !HasRetransmission(last, s) ensures LastSays(all, s, rtx) {
      var k :| 0 <= k < |groups| && Retransmits(groups[k], s, rtx) && NoneBehind(groups, k, s);
      assert all[k] == groups[k] && NoneBehind(all, k, s);
    }
    forall rtx | Retransmits(last, s, rtx) ensures LastSays(all, s, rtx) {
      assert Retransmits(all[|groups|], s, rtx) && NoneBehind(all, |groups|, s);
    }
  }

  lemma AssignedAtFirst(base: seq<nat>, places: seq<nat>, ids: seq<nat>)
    requires Picked(ids, base, places) && forall i <- places :: i < |base|
    ensures AssignedBy([], base, places, Assigned(ids, map[]), places)
  {
    hide Picked;
  }

  /** One more group: the sources that it makes retransmissions go, and its own source has one. */
  lemma AssignedNext(groups: seq<Json>, last: Json, base: seq<nat>, places: seq<nat>, a: Assigned, left: seq<nat>) returns (after: seq<nat>)
    requires AssignedBy(groups, base, places, a, left) && GroupFits(last)
    ensures AfterGroup(last, a).Some? && AssignedBy(groups + [last], base, places, AfterGroup(last, a).value, after)
  {
    hide Picked, Pair, AnyRetransmission, NoneSays, LastSays, AfterGroup;
    GroupMeans(last, a);
    forall s: nat ensures AnyRetransmission(groups + [last], s) <==> AnyRetransmission(groups, s) || IsRetransmission(last, s)
      ensures NoneSays(groups + [last], s) <==> NoneSays(groups, s) && !HasRetransmission(last, s)
    {
      OneMoreGroup(groups, last, s);
    }
    forall s: nat, rtx: nat ensures LastSays(groups, s, rtx) && !HasRetransmission(last, s) ==> LastSays(groups + [last], s, rtx)
      ensures Retransmits(last, s, rtx) ==> LastSays(groups + [last], s, rtx)
    {
      OneMoreGroup(groups, last, s);
    }
    if IsFid(last) {
      after := WithoutIsPicked(a.ids, base, left, Pair(last.fields[Key.Ssrcs].s).value.1);
    } else {
      after := left;
    }
  }

  lemma {:induction false} AssignedMeans(groups: seq<Json>, base: seq<nat>, places: seq<nat>, ids: seq<nat>) returns (left: seq<nat>)
    requires Picked(ids, base, places) && (forall i <- places :: i < |base|) && forall g <- groups :: GroupFits(g)
    ensures AfterGroups(groups, Assigned(ids, map[])).Some?
    ensures AssignedBy(groups, base, places, AfterGroups(groups, Assigned(ids, map[])).value, left)
  {
    hide Picked, GroupFits, AssignedBy, AfterGroup;
    if groups == [] {
      AssignedAtFirst(base, places, ids);
      left := places;
    } else {
      var front, last := groups[..|groups| - 1], groups[|groups| - 1];
      assert last in groups && forall g <- front :: g in groups;
      var before := AssignedMeans(front, base, places, ids);
      left := AssignedNext(front, last, base, places, AfterGroups(front, Assigned(ids, map[])).value, before);
      assert front + [last] == groups;
    }
  }

  // ---- The encodings ----

  function IdsOf(lines: seq<Json>): (ids: seq<nat>)
    requires forall line <- lines :: HasId(line)
    ensures |ids| == |lines|
  {
    seq(|lines|, i requires 0 <= i < |lines| => assert lines[i] in lines; IdOf(lines[i]))
  }

  lemma {:induction false} IdsMean(lines: seq<Json>)
    ensures Ids(lines).Some? <==> forall line <- lines :: HasId(line)
    ensures (forall line <- lines :: HasId(line)) ==> Ids(lines) == Some(IdsOf(lines))
  {
    if lines != [] {
      var front, last := lines[..|lines| - 1], lines[|lines| - 1];
      IdsMean(front);
      assert lines == front + [last];
      assert NumberOf(last, Id).Some? <==> HasId(last);
      if forall line <- lines :: HasId(line) {
        assert IdsOf(lines) == IdsOf(front) + [IdOf(last)];
      }
    }
  }

  predicate Readable(m: Fields) {
    ArrayOf(m, Key.Ssrcs) != [] && (forall line <- ArrayOf(m, Key.Ssrcs) :: HasId(line))
    && forall group <- ArrayOf(m, Key.SsrcGroups) :: GroupFits(group)
  }

  /** There are encodings exactly when every line has a number, there is a line, and every group says what it has to. */
  lemma EncodingsExist(m: Fields)
    ensures Encodings(m).Some? <==> Readable(m)
  {
    hide AfterGroups, GroupFits, HasId, Unique;
    IdsMean(ArrayOf(m, Key.Ssrcs));
    if Ids(ArrayOf(m, Key.Ssrcs)).Some? {
      GroupsFit(ArrayOf(m, Key.SsrcGroups), Assigned(Unique(Ids(ArrayOf(m, Key.Ssrcs)).value), map[]));
    }
  }

  /**
    Then there is one encoding, in the order of the lines, for every run of lines with one id that no
    group makes a retransmission, and its retransmission is what the last group for its id says.
   */
  lemma EncodingsMean(m: Fields) returns (places: seq<nat>)
    requires Readable(m)
    ensures Encodings(m).Some?
    ensures var es, lines, groups := Encodings(m).value, ArrayOf(m, Key.Ssrcs), ArrayOf(m, Key.SsrcGroups);
            |places| == |es| && (forall k, n :: 0 <= k < n < |places| ==> places[k] < places[n])
            && (forall i: nat :: i in places <==> StartsRun(IdsOf(lines), i) && !AnyRetransmission(groups, IdsOf(lines)[i]))
            && (forall k :: 0 <= k < |es| ==> places[k] < |lines| && es[k].ssrc == IdOf(lines[places[k]]))
            && forall k :: 0 <= k < |es| ==>
                 if es[k].rtx.Some? then LastSays(groups, es[k].ssrc, es[k].rtx.value) else NoneSays(groups, es[k].ssrc)
  {
    hide AfterGroups, GroupFits, HasId, Unique, StartsRun, LastSays, NoneSays, AnyRetransmission;
    var lines, groups := ArrayOf(m, Key.Ssrcs), ArrayOf(m, Key.SsrcGroups);
    EncodingsExist(m);
    IdsMean(lines);
    var ids := IdsOf(lines);
    var runs := UniqueIsPicked(ids);
    RunsInside(ids, runs);
    places := AssignedMeans(groups, ids, runs, Unique(ids));
  }

  lemma RunsInside(ids: seq<nat>, runs: seq<nat>)
    requires forall i: nat :: i in runs <==> StartsRun(ids, i)
    ensures forall i <- runs :: i < |ids|
  {}
}
