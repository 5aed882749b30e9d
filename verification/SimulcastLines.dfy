/**
  Legacy simulcast in numbers: which sources, retransmissions, groups and lines a section has after
  it, and what is read back, told from the first source and retransmission of the section.
 */
module SimulcastLines {
  import opened Prelude
  import opened Text
  import opened Json
  import opened RtpParams
  import opened Sections
  import opened MediaObjects
  import opened Ssrcs

  /** n encodings with consecutive 32-bit sources, and retransmissions when there is one to start with. */
  predicate Consecutive(es: seq<Encoding>, ssrc: nat, rtx: nat, n: nat) {
    |es| == n
    && forall i :: 0 <= i < n ==>
         es[i].ssrc == (ssrc + i) % TWO_32 && es[i].rtx == if rtx != 0 then Some((rtx + i) % TWO_32) else None
  }

  function Nth(first: nat, i: nat): nat { (first + i) % TWO_32 }

  predicate NoneShared(ssrc: nat, rtx: nat, n: nat) {
    rtx == 0 || forall i, j :: 0 <= i < n && 0 <= j < n ==> Nth(ssrc, i) != Nth(rtx, j)
  }

  lemma Wraps(a: int, b: int)
    requires a == b || a == b + TWO_32 || b == a + TWO_32
    ensures a % TWO_32 == b % TWO_32
  {}

  /** The two rows share no number exactly when they start n apart or more, counted in 32 bits in both directions. */
  lemma NoneSharedMeans(ssrc: nat, rtx: nat, n: nat)
    requires ssrc < TWO_32 && 0 < rtx < TWO_32 && n < 256
    ensures NoneShared(ssrc, rtx, n) <==> n == 0 || n <= (rtx - ssrc) % TWO_32 <= TWO_32 - n
  {
    var d := (rtx - ssrc) % TWO_32;
    assert d == if rtx >= ssrc then rtx - ssrc else rtx - ssrc + TWO_32;
    if d < n {
      Wraps(ssrc + d, rtx);
      assert Nth(ssrc, d) == Nth(rtx, 0);
    } else if n > 0 && d > TWO_32 - n {
      Wraps(ssrc, rtx + (TWO_32 - d));
      assert Nth(ssrc, 0) == Nth(rtx, TWO_32 - d);
    } else {
      forall i, j | 0 <= i < n && 0 <= j < n ensures Nth(ssrc, i) != Nth(rtx, j) {
        NotShared(ssrc, rtx, n, i, j);
      }
    }
  }

  lemma NotShared(ssrc: nat, rtx: nat, n: nat, i: nat, j: nat)
    requires ssrc < TWO_32 && rtx < TWO_32 && n <= (rtx - ssrc) % TWO_32 <= TWO_32 - n && i < n && j < n
    ensures Nth(ssrc, i) != Nth(rtx, j)
  {}

  lemma ExpectedIsConsecutive(ssrc: nat, rtx: nat, n: nat, es: seq<Encoding>)
    ensures es == Expected(Range(ssrc, n), if rtx != 0 then Range(rtx, n) else []) <==> Consecutive(es, ssrc, rtx, n)
  {
    var expected := Expected(Range(ssrc, n), if rtx != 0 then Range(rtx, n) else []);
    assert forall i :: 0 <= i < n ==> expected[i] == RtpEncoding(Nth(ssrc, i), if rtx != 0 then Some(Nth(rtx, i)) else None);
    if Consecutive(es, ssrc, rtx, n) {
      assert forall i :: 0 <= i < n ==> es[i] == expected[i];
    }
  }

  lemma ApartIsNoneShared(ssrc: nat, rtx: nat, n: nat)
    ensures Apart(Range(ssrc, n), if rtx != 0 then Range(rtx, n) else []) <==> NoneShared(ssrc, rtx, n)
  {
    var a, b := Range(ssrc, n), if rtx != 0 then Range(rtx, n) else [];
    if rtx != 0 {
      assert forall j :: 0 <= j < n ==> b[j] in b && b[j] == Nth(rtx, j);
      assert forall i :: 0 <= i < n ==> a[i] in a && a[i] == Nth(ssrc, i);
    }
  }

  /**
    After legacy simulcast with n streams of a section whose first source is `ssrc` and whose
    retransmission is `rtx` (0 for none), the encodings read back are the n with sources ssrc + i and
    retransmissions rtx + i, in 32 bits, exactly when no number is in both rows.
   */
  lemma EncodingsAreConsecutive(m: Fields, n: nat)
    requires 2 <= n < 256 && Ssrcs.Simulcast(m, n).Ok?
    ensures OriginOf(m).Ok?
    ensures var m', o := Ssrcs.Simulcast(m, n).value, OriginOf(m).value;
            (Encodings(m').Some? && Consecutive(Encodings(m').value, o.ssrc, o.rtx, n)) <==> NoneShared(o.ssrc, o.rtx, n)
  {
    hide Ssrcs.Simulcast, OriginOf, Encodings, Expected, Apart, Range, Consecutive, NoneShared;
    SimulcastReadsBack(m, n);
    var m', o := Ssrcs.Simulcast(m, n).value, OriginOf(m).value;
    ApartIsNoneShared(o.ssrc, o.rtx, n);
    if Encodings(m').Some? { ExpectedIsConsecutive(o.ssrc, o.rtx, n, Encodings(m').value); }
  }

  // ---- The lines and groups ----

  lemma {:induction false} SourceLinesMean(ids: seq<nat>, cname: string, msid: string)
    ensures var lines := SourceLines(ids, cname, msid);
            |lines| == 2 * |ids|
            && forall i :: 0 <= i < |ids| ==>
                 lines[2 * i] == Obj(map[Id := Num(ids[i]), Attribute := Str("cname"), Value := Str(cname)])
                 && lines[2 * i + 1] == Obj(map[Id := Num(ids[i]), Attribute := Str("msid"), Value := Str(msid)])
  {
    if ids != [] {
      var n := |ids| - 1;
      SourceLinesMean(ids[..n], cname, msid);
      assert forall i :: 0 <= i < n ==> ids[..n][i] == ids[i];
    }
  }

  /** Every source has its cname line and its msid line, the sources first and then the retransmissions. */
  lemma LinesAreConsecutive(m: Fields, n: nat, i: nat)
    requires 2 <= n < 256 && Ssrcs.Simulcast(m, n).Ok? && OriginOf(m).Ok?
    requires i < (if OriginOf(m).value.rtx != 0 then 2 * n else n)
    ensures var lines, o := ArrayOf(Ssrcs.Simulcast(m, n).value, Key.Ssrcs), OriginOf(m).value;
            var id := if i < n then (o.ssrc + i) % TWO_32 else (o.rtx + (i - n)) % TWO_32;
            |lines| == (if o.rtx != 0 then 4 * n else 2 * n)
            && lines[2 * i] == Obj(map[Id := Num(id), Attribute := Str("cname"), Value := Str(o.cname)])
            && lines[2 * i + 1] == Obj(map[Id := Num(id), Attribute := Str("msid"), Value := Str(o.msid)])
  {
    hide OriginOf, SourceLines, FidGroups, SimGroup;
    var o := OriginOf(m).value;
    var ids, rtx := Range(o.ssrc, n), if o.rtx != 0 then Range(o.rtx, n) else [];
    SourceLinesMean(ids + rtx, o.cname, o.msid);
    assert i < n ==> (ids + rtx)[i] == ids[i];
    assert i >= n ==> (ids + rtx)[i] == rtx[i - n];
  }

  lemma TokensOfRange(first: nat, n: nat)
    ensures Tokens(Join(Decs(Range(first, n)), ' '), ' ') == seq(n, i requires 0 <= i < n => Dec((first + i) % TWO_32))
  {
    hide Tokens, Join, Dec;
    var v := Decs(Range(first, n));
    forall t | t in v ensures ' ' !in t && t != "" {
      var i :| 0 <= i < n && v[i] == t;
      DecDigits((first + i) % TWO_32);
    }
    assert v != [] ==> v[|v| - 1] in v;
    SplitUndoesJoin(v, ' ');
    assert v == seq(n, i requires 0 <= i < n => Dec((first + i) % TWO_32));
  }

  /** One SIM group lists the sources in order; then comes one FID group for each source with its retransmission. */
  lemma GroupsAreConsecutive(m: Fields, n: nat)
    requires 2 <= n < 256 && Ssrcs.Simulcast(m, n).Ok? && OriginOf(m).Ok?
    ensures var groups, o := ArrayOf(Ssrcs.Simulcast(m, n).value, Key.SsrcGroups), OriginOf(m).value;
            |groups| == (if o.rtx != 0 then n + 1 else 1)
            && StringOf(groups[0], Semantics) == Some("SIM") && StringOf(groups[0], Key.Ssrcs).Some?
            && Tokens(StringOf(groups[0], Key.Ssrcs).value, ' ') == seq(n, i requires 0 <= i < n => Dec((o.ssrc + i) % TWO_32))
            && forall i :: 1 <= i < |groups| ==>
                 groups[i] == Obj(map[Semantics := Str("FID"),
                                      Key.Ssrcs := Str(Dec((o.ssrc + (i - 1)) % TWO_32) + " " + Dec((o.rtx + (i - 1)) % TWO_32))])
  {
    hide OriginOf, SourceLines, Tokens, Dec, Join, Decs;
    var o := OriginOf(m).value;
    TokensOfRange(o.ssrc, n);
    var ids, rtx := Range(o.ssrc, n), if o.rtx != 0 then Range(o.rtx, n) else [];
    var groups := ArrayOf(Ssrcs.Simulcast(m, n).value, Key.SsrcGroups);
    assert groups == [SimGroup(ids)] + FidGroups(ids, rtx);
    forall i | 1 <= i < |groups| ensures groups[i] == FidGroups(ids, rtx)[i - 1] {}
  }

  // ---- What a section starts from ----

  /** The first line with an attribute, and for a cname with a number too. */
  predicate FirstLine(lines: seq<Json>, attribute: string, numbered: bool, i: nat) {
    i < |lines| && StringOf(lines[i], Attribute) == Some(attribute) && (numbered ==> HasNumber(lines[i]))
    && forall k :: 0 <= k < i ==> StringOf(lines[k], Attribute) != Some(attribute) || (numbered && !HasNumber(lines[k]))
  }

  lemma {:induction false} LineWithIsFirst(lines: seq<Json>, attribute: string, numbered: bool)
    ensures var n := LineWith(lines, attribute, numbered); n < |lines| ==> FirstLine(lines, attribute, numbered, n)
    ensures LineWith(lines, attribute, numbered) == |lines| ==>
              forall k :: 0 <= k < |lines| ==> StringOf(lines[k], Attribute) != Some(attribute) || (numbered && !HasNumber(lines[k]))
  {
    hide StringOf, HasNumber;
    if lines != [] {
      LineWithIsFirst(lines[1..], attribute, numbered);
      assert forall k :: 0 < k < |lines| ==> lines[k] == lines[1..][k - 1];
    }
  }

  /** The two numbers of a group, as the code reads them. */
  predicate GroupOf(group: Json, ssrc: nat, rtx: nat) {
    StringOf(group, Semantics).Some? && StringOf(group, Key.Ssrcs).Some?
    && var v := Tokens(StringOf(group, Key.Ssrcs).value, ' ');
       |v| >= 2 && Stoull(v[0]) == Some(ssrc) && Stoull(v[1]).Some? && Stoull(v[1]).value % TWO_32 == rtx
  }

  /** A group for another source, or one that is skipped. */
  predicate OtherGroup(group: Json, ssrc: nat) {
    StringOf(group, Semantics).Some? && StringOf(group, Key.Ssrcs).Some? ==>
      var v := Tokens(StringOf(group, Key.Ssrcs).value, ' '); v != [] && Stoull(v[0]).Some? && Stoull(v[0]).value != ssrc
  }

  lemma {:induction false} FirstRtxMeans(groups: seq<Json>, ssrc: nat, rtx: nat, g: nat)
    ensures (forall k :: 0 <= k < |groups| ==> OtherGroup(groups[k], ssrc)) ==> FirstRtx(groups, ssrc) == Some(0)
    ensures g < |groups| && GroupOf(groups[g], ssrc, rtx) && (forall k :: 0 <= k < g ==> OtherGroup(groups[k], ssrc)) ==>
              FirstRtx(groups, ssrc) == Some(rtx)
  {
    hide Tokens, Stoull, StringOf;
    if groups != [] {
      FirstRtxMeans(groups[1..], ssrc, rtx, if g > 0 then g - 1 else 0);
      assert forall k :: 0 < k < |groups| ==> groups[k] == groups[1..][k - 1];
    }
  }

  /**
    Legacy simulcast starts from the number and the first two words of the first msid line, the value
    of the first numbered cname line, and the retransmission of the first group for that number.
   */
  lemma OriginMeans(m: Fields)
    requires OriginOf(m).Ok?
    ensures var lines, o := ArrayOf(m, Key.Ssrcs), OriginOf(m).value;
            (exists i: nat :: FirstLine(lines, "msid", false, i) && NumberOf(lines[i], Id) == Some(o.ssrc)
               && StringOf(lines[i], Value).Some? && var v := Tokens(StringOf(lines[i], Value).value, ' ');
                  |v| >= 2 && o.msid == v[0] + " " + v[1])
            && (exists j: nat :: FirstLine(lines, "cname", true, j) && StringOf(lines[j], Value) == Some(o.cname))
            && FirstRtx(ArrayOf(m, Key.SsrcGroups), o.ssrc) == Some(o.rtx)
  {
    hide Tokens, FirstRtx, FirstLine, LineWith, StringOf, NumberOf;
    var lines := ArrayOf(m, Key.Ssrcs);
    LineWithIsFirst(lines, "msid", false);
    LineWithIsFirst(lines, "cname", true);
    var i, j := LineWith(lines, "msid", false), LineWith(lines, "cname", true);
    assert FirstLine(lines, "msid", false, i) && FirstLine(lines, "cname", true, j);
  }
}
