/**
  Printing is a normal form: a session whose lines keep their text one by one is printed, parsed
  and printed again as the same text.
 */
module NormalForm {
  import opened Text
  import opened Json
  import opened Grammar
  import opened Writer
  import opened Parser
  import opened LineRoundTrip
  import opened Dispatch

  // ---- From the text back to its lines ----

  function ReadLines(st: State, lines: seq<Line>): State {
    if lines == [] then st
    else
      var last := lines[|lines| - 1];
      ParseContent(ReadLines(st, lines[..|lines| - 1]), last.kind, last.content)
  }

  /** A line that the parser can cut out of a text. */
  predicate Clean(line: Line) { 'a' <= line.kind <= 'z' && '\n' !in line.content }

  function Raw(line: Line): string { [line.kind] + "=" + line.content + "\r" }

  function RawLines(lines: seq<Line>): seq<string> { seq(|lines|, i requires 0 <= i < |lines| => Raw(lines[i])) }

  lemma LineIsRaw(line: Line)
    requires Clean(line)
    ensures LineText(line) == Raw(line) + ['\n'] && '\n' !in Raw(line)
  {}

  lemma {:induction false} TokensOfText(lines: seq<Line>)
    requires forall l <- lines :: Clean(l)
    ensures Tokens(Writer.Text(lines), '\n') == RawLines(lines)
  {
    hide Tokens, Raw, LineText, Clean;
    if lines == [] {
      SplitOfOne("", '\n');
    } else {
      var first, rest := lines[0], lines[1..];
      assert lines == [first] + rest && first in lines;
      assert forall l <- rest :: l in lines;
      TokensOfText(rest);
      TextAppend([first], rest);
      TextOfOne(first);
      LineIsRaw(first);
      TokensStep(Raw(first), '\n', Writer.Text(rest));
      assert RawLines(lines) == [Raw(first)] + RawLines(rest);
    }
  }

  lemma RawLine(st: State, line: Line)
    requires Clean(line)
    ensures ParseLine(st, Raw(line)) == ParseContent(st, line.kind, line.content)
  {
    hide ParseContent;
    assert WithoutCr(Raw(line)) == [line.kind] + "=" + line.content;
    assert ([line.kind] + "=" + line.content)[2..] == line.content;
  }

  lemma {:induction false} ReadRawLines(st: State, lines: seq<Line>)
    requires forall l <- lines :: Clean(l)
    ensures ParseLines(st, RawLines(lines)) == ReadLines(st, lines)
  {
    hide ParseLine, ParseContent, Clean, Raw;
    if lines != [] {
      var front, last := lines[..|lines| - 1], lines[|lines| - 1];
      assert forall l <- front :: l in lines;
      ReadRawLines(st, front);
      assert last in lines;
      RawLine(ReadLines(st, front), last);
      assert RawLines(lines)[..|lines| - 1] == RawLines(front);
    }
  }

  /** Parsing the text of clean lines is reading the lines. */
  lemma ParseOfText(st: State, lines: seq<Line>)
    requires forall l <- lines :: Clean(l)
    ensures ParseLines(st, Tokens(Writer.Text(lines), '\n')) == ReadLines(st, lines)
  {
    hide ParseLines, Tokens, ReadLines;
    TokensOfText(lines);
    ReadRawLines(st, lines);
  }

  lemma {:induction false} ReadLinesAppend(st: State, a: seq<Line>, b: seq<Line>)
    ensures ReadLines(st, a + b) == ReadLines(ReadLines(st, a), b)
  {
    hide ParseContent;
    if b == [] {
      assert a + b == a;
    } else {
      assert (a + b)[..|a + b| - 1] == a + b[..|b| - 1];
      ReadLinesAppend(st, a, b[..|b| - 1]);
    }
  }

  // ---- One location ----

  function ReadLine(loc: Fields, line: Line): Fields {
    match FirstClaim(Rules(line.kind), line.content)
    case None => loc
    case Some(rule) =>
      FirstClaimClaims(Rules(line.kind), line.content);
      Store(rule, loc, CapsOf(rule, line.content))
  }

  function ReadAt(loc: Fields, lines: seq<Line>): Fields {
    if lines == [] then loc else ReadLine(ReadAt(loc, lines[..|lines| - 1]), lines[|lines| - 1])
  }

  /** Lines of a location go to that location. */
  lemma {:induction false} ReadLocation(st: State, lines: seq<Line>)
    requires forall l <- lines :: l.kind != 'm'
    ensures ReadLines(st, lines) == st.WithLocation(ReadAt(st.Location(), lines))
  {
    hide FirstClaim, Store, Rules, CapsOf, Claims;
    if lines != [] {
      var front, last := lines[..|lines| - 1], lines[|lines| - 1];
      assert last in lines && forall l <- front :: l in lines;
      ReadLocation(st, front);
    }
  }

  lemma {:induction false} ReadAtAppend(loc: Fields, a: seq<Line>, b: seq<Line>)
    ensures ReadAt(loc, a + b) == ReadAt(ReadAt(loc, a), b)
  {
    hide ReadLine;
    if b == [] {
      assert a + b == a;
    } else {
      assert (a + b)[..|a + b| - 1] == a + b[..|b| - 1];
      ReadAtAppend(loc, a, b[..|b| - 1]);
    }
  }

  /** All lines that the rule prints for the location keep their text. */
  ghost predicate StableRule(t: char, rule: Rule, loc: Fields) {
    forall l <- RuleLines(t, rule, loc) :: Stable(t, rule, l.content)
  }

  /** What `r` keeps for the rule is what was read from the rule's lines `lines`. */
  ghost predicate Holds(rule: Rule, lines: seq<Line>, r: Fields) {
    (forall l <- lines :: Claims(rule, l.content))
    && match rule.target
       case Named =>
         if lines == [] then rule.key !in r
         else |lines| == 1 && rule.key in r && r[rule.key] == Stored(rule, CapsOf(rule, lines[0].content))
       case Pushed =>
         (rule.key in r ==> r[rule.key].Arr?) && (lines != [] ==> rule.key in r) && |Elements(r, rule)| == |lines|
         && forall i :: 0 <= i < |lines| ==> Elements(r, rule)[i] == Stored(rule, CapsOf(rule, lines[i].content))
       case Root => false
  }

  /** The location has nothing for the rule. */
  predicate Fresh(rule: Rule, r: Fields) {
    if rule.target.Pushed? then rule.key in r ==> r[rule.key] == Arr([]) else rule.key !in r
  }

  ghost predicate SameBut(key: Key, r: Fields, r': Fields) {
    forall k :: k != key ==> (k in r <==> k in r') && (k in r ==> r[k] == r'[k])
  }

  lemma ReadElement(t: char, rule: Rule, line: Line, r: Fields)
    requires rule.target.Pushed? && rule.names != [] && line.kind == t && Stable(t, rule, line.content)
    ensures ReadLine(r, line) == r[rule.key := Arr(Elements(r, rule) + [Stored(rule, CapsOf(rule, line.content))])]
  {
    hide Claims, CapsOf, FirstClaim, Rules, Attached, Reprints;
  }

  lemma ElementAdded(rule: Rule, front: seq<Line>, last: Line, r: Fields)
    requires rule.target.Pushed? && Holds(rule, front, r) && Claims(rule, last.content)
    ensures var r' := r[rule.key := Arr(Elements(r, rule) + [Stored(rule, CapsOf(rule, last.content))])];
            Holds(rule, front + [last], r') && SameBut(rule.key, r, r')
  {
    hide Claims, CapsOf, Stored;
    var r' := r[rule.key := Arr(Elements(r, rule) + [Stored(rule, CapsOf(rule, last.content))])];
    var lines := front + [last];
    assert Elements(r', rule) == Elements(r, rule) + [Stored(rule, CapsOf(rule, last.content))];
    forall i | 0 <= i < |lines|
      ensures Claims(rule, lines[i].content) && Elements(r', rule)[i] == Stored(rule, CapsOf(rule, lines[i].content))
    {
      if i < |front| { assert lines[i] == front[i] && front[i] in front; }
    }
  }

  lemma StableClaims(t: char, rule: Rule, line: string)
    requires Stable(t, rule, line)
    ensures Claims(rule, line)
  {}

  lemma {:induction false} ReadElements(t: char, rule: Rule, lines: seq<Line>, r: Fields)
    requires rule.target.Pushed? && Fresh(rule, r) && rule.names != []
    requires forall l <- lines :: l.kind == t && Stable(t, rule, l.content)
    ensures SameBut(rule.key, r, ReadAt(r, lines)) && Holds(rule, lines, ReadAt(r, lines))
  {
    hide Claims, CapsOf, Stored, ReadLine, Stable, Holds, Fresh, Elements;
    if lines == [] {
      NothingRead(rule, r);
    } else {
      var front, last := lines[..|lines| - 1], lines[|lines| - 1];
      assert last in lines && forall l <- front :: l in lines;
      ReadElements(t, rule, front, r);
      ReadElement(t, rule, last, ReadAt(r, front));
      StableClaims(t, rule, last.content);
      ElementAdded(rule, front, last, ReadAt(r, front));
      assert front + [last] == lines;
    }
  }

  lemma ReadNamed(t: char, rule: Rule, line: Line, r: Fields)
    requires rule.target.Named? && Fresh(rule, r) && line.kind == t && Stable(t, rule, line.content)
    ensures SameBut(rule.key, r, ReadAt(r, [line])) && Holds(rule, [line], ReadAt(r, [line]))
  {
    hide Claims, CapsOf, FirstClaim, Rules, Attached, Reprints;
    assert [line][..0] == [];
    assert ReadAt(r, [line]) == ReadLine(r, line);
  }

  /** Reading the lines of one rule changes nothing but what the rule keeps. */
  lemma ReadRule(t: char, rule: Rule, loc: Fields, r: Fields)
    requires !rule.target.Root? && (rule.target.Pushed? ==> rule.names != []) && Fresh(rule, r) && StableRule(t, rule, loc)
    ensures var r' := ReadAt(r, RuleLines(t, rule, loc)); SameBut(rule.key, r, r') && Holds(rule, RuleLines(t, rule, loc), r')
  {
    hide Content, Stable, Holds, SameBut, Fresh, ReadAt;
    var lines := RuleLines(t, rule, loc);
    if lines == [] {
      NothingRead(rule, r);
    } else if rule.target.Named? {
      assert lines == [lines[0]];
      ReadNamed(t, rule, lines[0], r);
    } else {
      ReadElements(t, rule, lines, r);
    }
  }

  lemma NothingRead(rule: Rule, r: Fields)
    requires Fresh(rule, r) && !rule.target.Root?
    ensures ReadAt(r, []) == r && SameBut(rule.key, r, r) && Holds(rule, [], r)
  {}

  /** What is kept depends on the rule's own member only. */
  lemma HoldsFrame(rule: Rule, lines: seq<Line>, key: Key, r: Fields, r': Fields)
    requires Holds(rule, lines, r) && SameBut(key, r, r') && key != rule.key
    ensures Holds(rule, lines, r')
  {
    hide Claims, CapsOf, Stored;
  }

  /** What was read from stable lines is printed as the same lines. */
  lemma HeldIsPrinted(t: char, rule: Rule, loc: Fields, r: Fields)
    requires StableRule(t, rule, loc) && Holds(rule, RuleLines(t, rule, loc), r)
    ensures RuleLines(t, rule, r) == RuleLines(t, rule, loc)
  {
    hide Claims, CapsOf, Stored, Content, FirstClaim, Rules;
    var lines := RuleLines(t, rule, loc);
    assert forall i :: 0 <= i < |lines| ==> lines[i] in lines;
  }

  // ---- All the rules of a location, in print order ----

  datatype Entry = Entry(kind: char, rule: Rule)

  function EntriesOf(t: char, rules: seq<Rule>): seq<Entry> { seq(|rules|, i requires 0 <= i < |rules| => Entry(t, rules[i])) }

  function Entries(order: string): seq<Entry> {
    if order == "" then []
    else Entries(order[..|order| - 1]) + EntriesOf(order[|order| - 1], Rules(order[|order| - 1]))
  }

  function EntryLines(es: seq<Entry>, loc: Fields): seq<Line> {
    if es == [] then []
    else EntryLines(es[..|es| - 1], loc) + RuleLines(es[|es| - 1].kind, es[|es| - 1].rule, loc)
  }

  lemma {:induction false} EntryLinesAppend(a: seq<Entry>, b: seq<Entry>, loc: Fields)
    ensures EntryLines(a + b, loc) == EntryLines(a, loc) + EntryLines(b, loc)
  {
    hide RuleLines;
    if b == [] {
      assert a + b == a;
    } else {
      assert (a + b)[..|a + b| - 1] == a + b[..|b| - 1];
      EntryLinesAppend(a, b[..|b| - 1], loc);
    }
  }

  lemma {:induction false} RulesLinesAreEntryLines(t: char, rules: seq<Rule>, loc: Fields)
    ensures RulesLines(t, rules, loc) == EntryLines(EntriesOf(t, rules), loc)
  {
    hide RuleLines;
    if rules != [] {
      var front := rules[..|rules| - 1];
      RulesLinesAreEntryLines(t, front, loc);
      assert EntriesOf(t, rules)[..|rules| - 1] == EntriesOf(t, front);
    }
  }

  lemma {:induction false} LocationLinesAreEntryLines(order: string, loc: Fields)
    ensures LocationLines(order, loc) == EntryLines(Entries(order), loc)
  {
    hide RuleLines, RulesLines, Rules, EntryLines, EntriesOf;
    if order == "" {
      assert EntryLines([], loc) == [] by { NoEntries(loc); }
    } else {
      var front, t := order[..|order| - 1], order[|order| - 1];
      LocationLinesAreEntryLines(front, loc);
      RulesLinesAreEntryLines(t, Rules(t), loc);
      EntryLinesAppend(Entries(front), EntriesOf(t, Rules(t)), loc);
    }
  }

  lemma NoEntries(loc: Fields)
    ensures EntryLines([], loc) == []
  {}

  predicate DistinctKeys(es: seq<Entry>) { forall i, j :: 0 <= i < j < |es| ==> es[i].rule.key != es[j].rule.key }

  /** The rules can be told apart by their members, and each keeps its data in its member. */
  predicate Separate(es: seq<Entry>) { DistinctKeys(es) && forall e <- es :: Keeps(e.rule) }

  ghost predicate StableEntries(es: seq<Entry>, loc: Fields) { forall e <- es :: StableRule(e.kind, e.rule, loc) }

  ghost predicate HeldSoFar(es: seq<Entry>, n: nat, loc: Fields, base: Fields, r: Fields)
    requires n <= |es|
  {
    (forall i :: 0 <= i < n ==> Holds(es[i].rule, RuleLines(es[i].kind, es[i].rule, loc), r))
    && (forall i :: n <= i < |es| ==> Fresh(es[i].rule, r))
    && forall k :: Untouched(es, k) ==> (k in r <==> k in base) && (k in r ==> r[k] == base[k])
  }

  predicate Untouched(es: seq<Entry>, k: Key) { forall e <- es :: e.rule.key != k }

  lemma FreshFrame(rule: Rule, key: Key, r: Fields, r': Fields)
    requires Fresh(rule, r) && SameBut(key, r, r') && key != rule.key
    ensures Fresh(rule, r')
  {}

  lemma {:induction false} ReadEntries(es: seq<Entry>, n: nat, loc: Fields, base: Fields)
    requires n <= |es| && Separate(es) && StableEntries(es, loc) && forall e <- es :: Fresh(e.rule, base)
    ensures HeldSoFar(es, n, loc, base, ReadAt(base, EntryLines(es[..n], loc)))
  {
    hide RuleLines, Holds, Fresh, StableRule, ReadAt, Keeps, SameBut;
    if n == 0 {
      NoEntries(loc);
      assert es[..0] == [];
      ReadNothing(base);
    } else {
      ReadEntries(es, n - 1, loc, base);
      var e := es[n - 1];
      assert e in es;
      var r := ReadAt(base, EntryLines(es[..n - 1], loc));
      var lines := RuleLines(e.kind, e.rule, loc);
      assert es[..n][..n - 1] == es[..n - 1];
      ReadAtAppend(base, EntryLines(es[..n - 1], loc), lines);
      KeepsMeans(e.rule);
      ReadRule(e.kind, e.rule, loc, r);
      OneMore(es, n, loc, base, r, ReadAt(r, lines));
    }
  }

  lemma KeepsMeans(rule: Rule)
    requires Keeps(rule)
    ensures !rule.target.Root? && (rule.target.Pushed? ==> rule.names != [])
  {}

  lemma ReadNothing(r: Fields)
    ensures ReadAt(r, []) == r
  {}

  lemma OneMore(es: seq<Entry>, n: nat, loc: Fields, base: Fields, r: Fields, r': Fields)
    requires 0 < n <= |es| && DistinctKeys(es) && HeldSoFar(es, n - 1, loc, base, r)
    requires SameBut(es[n - 1].rule.key, r, r') && Holds(es[n - 1].rule, RuleLines(es[n - 1].kind, es[n - 1].rule, loc), r')
    ensures HeldSoFar(es, n, loc, base, r')
  {
    hide RuleLines, Holds, Fresh;
    var key := es[n - 1].rule.key;
    assert es[n - 1] in es;
    forall i | 0 <= i < n - 1 ensures Holds(es[i].rule, RuleLines(es[i].kind, es[i].rule, loc), r') {
      HoldsFrame(es[i].rule, RuleLines(es[i].kind, es[i].rule, loc), key, r, r');
    }
    forall i | n <= i < |es| ensures Fresh(es[i].rule, r') {
      FreshFrame(es[i].rule, key, r, r');
    }
  }

  /** Locations that keep the same for every rule print the same lines. */
  lemma {:induction false} HeldLines(es: seq<Entry>, n: nat, loc: Fields, r: Fields)
    requires n <= |es| && StableEntries(es, loc)
    requires forall i :: 0 <= i < n ==> Holds(es[i].rule, RuleLines(es[i].kind, es[i].rule, loc), r)
    ensures EntryLines(es[..n], r) == EntryLines(es[..n], loc)
  {
    hide RuleLines, Holds, StableRule;
    if n > 0 {
      HeldLines(es, n - 1, loc, r);
      assert es[..n][..n - 1] == es[..n - 1] && es[n - 1] in es;
      HeldIsPrinted(es[n - 1].kind, es[n - 1].rule, loc, r);
    }
  }

  // ---- The rules of a session and of a section can be told apart ----

  lemma Grow(order: string, t: char, rule: Rule)
    requires Rules(t) == [rule]
    ensures Entries(order + [t]) == Entries(order) + [Entry(t, rule)]
  {
    hide Rules;
    assert (order + [t])[..|order|] == order;
    assert EntriesOf(t, [rule]) == [Entry(t, rule)];
  }

  const OUTER: seq<Entry> := [
    Entry('v', VERSION), Entry('o', ORIGIN), Entry('s', TextRule(Name)), Entry('i', TextRule(Description)),
    Entry('u', TextRule(Uri)), Entry('e', TextRule(Email)), Entry('p', TextRule(Phone)), Entry('c', CONNECTION),
    Entry('b', BANDWIDTH), Entry('t', TIMING), Entry('r', TextRule(Repeats)), Entry('z', TextRule(Timezones))]

  const INNER: seq<Entry> := [Entry('i', TextRule(Description)), Entry('c', CONNECTION), Entry('b', BANDWIDTH)]

  lemma SingleRules()
    ensures Rules('v') == [VERSION] && Rules('o') == [ORIGIN] && Rules('s') == [TextRule(Name)]
    ensures Rules('i') == [TextRule(Description)] && Rules('u') == [TextRule(Uri)] && Rules('e') == [TextRule(Email)]
    ensures Rules('p') == [TextRule(Phone)] && Rules('c') == [CONNECTION] && Rules('b') == [BANDWIDTH]
  {}

  lemma MoreSingleRules()
    ensures Rules('t') == [TIMING] && Rules('r') == [TextRule(Repeats)] && Rules('z') == [TextRule(Timezones)]
    ensures Rules('m') == [MEDIA] && Rules('a') == ATTRIBUTES
  {}

  lemma OuterEntries()
    ensures Entries(OUTER_ORDER) == OUTER + EntriesOf('a', ATTRIBUTES)
  {
    hide Rules, ATTRIBUTES, Entries;
    SingleRules();
    MoreSingleRules();
    EmptyEntries();
    Grow("", 'v', VERSION);
    Grow("" + ['v'], 'o', ORIGIN);
    Grow("vo", 's', TextRule(Name));
    Grow("vos", 'i', TextRule(Description));
    Grow("vosi", 'u', TextRule(Uri));
    Grow("vosiu", 'e', TextRule(Email));
    Grow("vosiue", 'p', TextRule(Phone));
    Grow("vosiuep", 'c', CONNECTION);
    Grow("vosiuepc", 'b', BANDWIDTH);
    Grow("vosiuepcb", 't', TIMING);
    Grow("vosiuepcbt", 'r', TextRule(Repeats));
    Grow("vosiuepcbtr", 'z', TextRule(Timezones));
    assert "" + ['v'] + ['o'] == "vo" && "vo" + ['s'] == "vos" && "vos" + ['i'] == "vosi" && "vosi" + ['u'] == "vosiu";
    assert "vosiu" + ['e'] == "vosiue" && "vosiue" + ['p'] == "vosiuep" && "vosiuep" + ['c'] == "vosiuepc";
    assert "vosiuepc" + ['b'] == "vosiuepcb" && "vosiuepcb" + ['t'] == "vosiuepcbt" && "vosiuepcbt" + ['r'] == "vosiuepcbtr";
    assert "vosiuepcbtr" + ['z'] == "vosiuepcbtrz" && "vosiuepcbtrz" + "a" == OUTER_ORDER;
    LastEntries("vosiuepcbtrz");
  }

  lemma EmptyEntries()
    ensures Entries("") == []
  {}

  lemma LastEntries(order: string)
    ensures Entries(order + "a") == Entries(order) + EntriesOf('a', ATTRIBUTES)
  {
    hide ATTRIBUTES;
    assert (order + "a")[..|order|] == order;
  }

  lemma InnerEntries()
    ensures Entries(INNER_ORDER) == INNER + EntriesOf('a', ATTRIBUTES)
  {
    hide Rules, ATTRIBUTES, Entries;
    SingleRules();
    MoreSingleRules();
    EmptyEntries();
    Grow("", 'i', TextRule(Description));
    Grow("" + ['i'], 'c', CONNECTION);
    Grow("ic", 'b', BANDWIDTH);
    assert "" + ['i'] + ['c'] == "ic" && "ic" + ['b'] == "icb" && "icb" + "a" == INNER_ORDER;
    LastEntries("icb");
  }

  /** The place of a session-level member among the rules with a line type of their own. */
  function Place(k: Key): nat {
    match k
    case Version => 0 case Origin => 1 case Name => 2 case Description => 3 case Uri => 4 case Email => 5
    case Phone => 6 case Connection => 7 case Bandwidth => 8 case Timing => 9 case Repeats => 10 case _ => 11
  }

  lemma OuterPlace(i: nat)
    requires i < 12
    ensures |OUTER| == 12 && Place(OUTER[i].rule.key) == i && Keeps(OUTER[i].rule)
  {}

  lemma OuterPosition(i: nat)
    requires i < 12
    ensures |OUTER| == 12 && Position(OUTER[i].rule.key) == 38
  {
    hide Place;
  }

  lemma OuterSeparate()
    ensures Separate(OUTER) && forall e <- OUTER :: Position(e.rule.key) == 38
  {
    hide Place, Position, OUTER, Keeps;
    OuterPlace(0);
    forall i, j | 0 <= i < j < 12 ensures OUTER[i].rule.key != OUTER[j].rule.key {
      OuterPlace(i);
      OuterPlace(j);
    }
    forall i | 0 <= i < 12 ensures Keeps(OUTER[i].rule) && Position(OUTER[i].rule.key) == 38 {
      OuterPlace(i);
      OuterPosition(i);
    }
  }

  lemma InnerSeparate()
    ensures Separate(INNER) && forall e <- INNER :: Position(e.rule.key) == 38
  {}

  /** Attribute rules have members of their own. */
  lemma WithAttributes(es: seq<Entry>)
    requires Separate(es) && forall e <- es :: Position(e.rule.key) == 38
    ensures Separate(es + EntriesOf('a', ATTRIBUTES))
  {
    hide ATTRIBUTES, Position, Keeps;
    var all := es + EntriesOf('a', ATTRIBUTES);
    Positions(0);
    forall i, j | 0 <= i < j < |all| ensures all[i].rule.key != all[j].rule.key {
      if j >= |es| { Positions(j - |es|); }
      if i >= |es| { Positions(i - |es|); }
    }
    forall i | 0 <= i < |all| ensures Keeps(all[i].rule) {
      if i >= |es| { AttributeKeeps(i - |es|); }
    }
  }
}
