/** The printer (mssdk/json/writer.cpp). */
module Writer {
  import opened Json
  import opened Grammar

  const OUTER_ORDER := "vosiuepcbtrza"
  const INNER_ORDER := "icba"

  datatype Line = Line(kind: char, content: string)

  /** One argument of a line: the member inside the rule's own object, else the location's member, else "". */
  function Arg(rule: Rule, name: Key, loc: Fields): Json {
    if rule.target.Named? && rule.key in loc && name in FieldsOf(loc[rule.key]) then FieldsOf(loc[rule.key])[name]
    else if name in loc then loc[name]
    else Str("")
  }

  function Args(rule: Rule, loc: Fields): seq<Json> {
    var names := rule.names;
    if names != [] then seq(|names|, i requires 0 <= i < |names| => Arg(rule, names[i], loc))
    else if rule.target.Named? && rule.key in loc then [loc[rule.key]]
    else []
  }

  /** The object that the rule's format function looks at. */
  function FormatObject(rule: Rule, loc: Fields): Fields {
    if rule.target.Named? && rule.key in loc then FieldsOf(loc[rule.key]) else loc
  }

  function Placeholder(kind: Kind): string {
    match kind case S => "%s" case D => "%d" case V => "%v" case Percent => "%%"
  }

  function Substitute(kind: Kind, arg: Json): string {
    match kind case S => Print(arg) case D => Print(arg) case V => "" case Percent => "%"
  }

  /**
    What the placeholders of `f` print, from argument `i` on. Each one takes an argument, a %v
    too; once they are used up the placeholder itself is printed, without its prefix. The text
    after the last placeholder is never printed.
   */
  function Expand(f: Format, args: seq<Json>, i: nat): string {
    match f
    case Tail(_) => ""
    case Hole(prefix, kind, next) =>
      if i >= |args| then Placeholder(kind) + Expand(next, args, i)
      else prefix + Substitute(kind, args[i]) + Expand(next, args, i + 1)
  }

  /** The text of the line that a rule prints for a location, after the type and '='. */
  function Content(rule: Rule, loc: Fields): string {
    Expand(FormatOf(rule, FormatObject(rule, loc)), Args(rule, loc), 0)
  }

  /** The lines of one rule for one location. */
  function RuleLines(t: char, rule: Rule, loc: Fields): seq<Line> {
    if rule.target.Named? && rule.key in loc && loc[rule.key] != Null then [Line(t, Content(rule, loc))]
    else if rule.target.Pushed? && rule.key in loc && loc[rule.key].Arr? then ElementLines(t, rule, loc[rule.key].elems)
    else []
  }

  function ElementLines(t: char, rule: Rule, elems: seq<Json>): seq<Line> {
    seq(|elems|, i requires 0 <= i < |elems| => Line(t, Content(rule, FieldsOf(elems[i]))))
  }

  function RulesLines(t: char, rules: seq<Rule>, loc: Fields): seq<Line> {
    if rules == [] then [] else RulesLines(t, rules[..|rules| - 1], loc) + RuleLines(t, rules[|rules| - 1], loc)
  }

  /** The lines of a location, type by type, and rule by rule within a type. */
  function LocationLines(order: string, loc: Fields): seq<Line> {
    if order == "" then []
    else LocationLines(order[..|order| - 1], loc) + RulesLines(order[|order| - 1], Rules(order[|order| - 1]), loc)
  }

  function MediaLines(media: seq<Json>): seq<Line> {
    if media == [] then []
    else
      var m := FieldsOf(media[|media| - 1]);
      MediaLines(media[..|media| - 1]) + [Line('m', Content(MEDIA, m))] + LocationLines(INNER_ORDER, m)
  }

  function WithPayloads(m: Json): Json { Obj(FieldsOf(m)[Payloads := if Payloads in FieldsOf(m) then FieldsOf(m)[Payloads] else Str("")]) }

  function MediaOf(session: Fields): seq<Json> {
    if Media in session && session[Media].Arr? then session[Media].elems else []
  }

  /** The session with the members that `write` inserts when they are missing. */
  function Defaults(session: Fields): Fields {
    var s1 := if Version in session then session else session[Version := Num(0)];
    var s2 := if Name in s1 then s1 else s1[Name := Str("-")];
    var media := MediaOf(session);
    s2[Media := Arr(seq(|media|, i requires 0 <= i < |media| => WithPayloads(media[i])))]
  }

  /** All the lines of a session, in print order. */
  function SessionLines(session: Fields): seq<Line> {
    LocationLines(OUTER_ORDER, session) + MediaLines(MediaOf(session))
  }

  function Text(lines: seq<Line>): string {
    if lines == [] then ""
    else Text(lines[..|lines| - 1]) + LineText(lines[|lines| - 1])
  }

  function LineText(line: Line): string { [line.kind] + "=" + line.content + "\r\n" }

  /** The text `write` returns. */
  function Written(session: Fields): string { Text(SessionLines(Defaults(session))) }

  lemma {:induction false} TextAppend(a: seq<Line>, b: seq<Line>)
    ensures Text(a + b) == Text(a) + Text(b)
  {
    if b == [] {
      assert a + b == a;
    } else {
      assert (a + b)[..|a + b| - 1] == a + b[..|b| - 1];
      TextAppend(a, b[..|b| - 1]);
    }
  }

  lemma Associative(a: string, b: string, c: string)
    ensures a + (b + c) == a + b + c
  {}

  /** makeLine: walks over the placeholders of the format with an index into the arguments. */
  method MakeLine(sdp: string, t: char, rule: Rule, loc: Fields) returns (out: string)
    ensures out == sdp + LineText(Line(t, Content(rule, loc)))
  {
    hide FormatOf, Args, FormatObject, Print;
    var format := FormatOf(rule, FormatObject(rule, loc));
    var args := Args(rule, loc);
    var line := ExpandAll(format, args);
    out := sdp + ([t] + "=" + line + "\r\n");
  }

  method ExpandAll(format: Format, args: seq<Json>) returns (line: string)
    ensures line == Expand(format, args, 0)
  {
    hide Print;
    line := "";
    var i := 0;
    var it := format;
    while it.Hole?
      invariant Expand(format, args, 0) == line + Expand(it, args, i)
      decreases it
    {
      if i >= |args| {
        Associative(line, Placeholder(it.kind), Expand(it.next, args, i));
        line := line + Placeholder(it.kind);
      } else {
        var written := if it.kind.Percent? then "%" else if it.kind.V? then "" else Print(args[i]);
        Associative(line, it.prefix + written, Expand(it.next, args, i + 1));
        line := line + (it.prefix + written);
        i := i + 1;
      }
      it := it.next;
    }
  }

  lemma TextOfOne(line: Line)
    ensures Text([line]) == LineText(line)
  {
    assert [line][..0] == [];
  }

  /** The innermost loops of `write`: one rule, for one location. */
  method WriteRule(sdp: string, t: char, rule: Rule, loc: Fields) returns (out: string)
    ensures out == sdp + Text(RuleLines(t, rule, loc))
  {
    hide Content, LineText;
    if rule.target.Named? && rule.key in loc && loc[rule.key] != Null {
      out := MakeLine(sdp, t, rule, loc);
      TextOfOne(Line(t, Content(rule, loc)));
    } else if rule.target.Pushed? && rule.key in loc && loc[rule.key].Arr? {
      out := sdp;
      var elems := loc[rule.key].elems;
      ghost var lines := ElementLines(t, rule, elems);
      for e := 0 to |elems|
        invariant out == sdp + Text(lines[..e])
      {
        out := MakeLine(out, t, rule, FieldsOf(elems[e]));
        assert lines[..e + 1] == lines[..e] + [lines[e]];
        TextAppend(lines[..e], [lines[e]]);
        TextOfOne(lines[e]);
      }
      assert lines[..|elems|] == lines;
    } else {
      out := sdp;
    }
  }

  method WriteRules(sdp: string, t: char, rules: seq<Rule>, loc: Fields) returns (out: string)
    ensures out == sdp + Text(RulesLines(t, rules, loc))
  {
    hide RuleLines, LineText;
    out := sdp;
    for j := 0 to |rules|
      invariant out == sdp + Text(RulesLines(t, rules[..j], loc))
    {
      out := WriteRule(out, t, rules[j], loc);
      assert rules[..j + 1][..j] == rules[..j];
      TextAppend(RulesLines(t, rules[..j], loc), RuleLines(t, rules[j], loc));
    }
    assert rules[..|rules|] == rules;
  }

  /** The loops of `write` over one location: its types in order, the rules of each type in order. */
  method WriteLocation(sdp: string, order: string, loc: Fields) returns (out: string)
    ensures out == sdp + Text(LocationLines(order, loc))
  {
    hide RulesLines, Rules, LineText;
    out := sdp;
    for i := 0 to |order|
      invariant out == sdp + Text(LocationLines(order[..i], loc))
    {
      out := WriteRules(out, order[i], Rules(order[i]), loc);
      assert order[..i + 1][..i] == order[..i];
      TextAppend(LocationLines(order[..i], loc), RulesLines(order[i], Rules(order[i]), loc));
    }
    assert order[..|order|] == order;
  }

  method WriteMedia(sdp: string, media: seq<Json>) returns (out: string)
    ensures out == sdp + Text(MediaLines(media))
  {
    hide LocationLines, LineText, Content;
    out := sdp;
    for i := 0 to |media|
      invariant out == sdp + Text(MediaLines(media[..i]))
    {
      var m := FieldsOf(media[i]);
      ghost var head := [Line('m', Content(MEDIA, m))];
      out := MakeLine(out, 'm', MEDIA, m);
      TextOfOne(Line('m', Content(MEDIA, m)));
      TextAppend(MediaLines(media[..i]), head);
      out := WriteLocation(out, INNER_ORDER, m);
      TextAppend(MediaLines(media[..i]) + head, LocationLines(INNER_ORDER, m));
      assert media[..i + 1][..i] == media[..i];
    }
    assert media[..|media|] == media;
  }

  /** `write`: completes the session and prints it. */
  method Write(session: Fields) returns (sdp: string, completed: Fields)
    ensures completed == Defaults(session) && sdp == Written(session)
  {
    hide LocationLines, MediaLines, Text;
    completed := session;
    if Version !in completed {
      completed := completed[Version := Num(0)];
    }
    if Name !in completed {
      completed := completed[Name := Str("-")];
    }
    var media := MediaOf(session);
    var lines: seq<Json> := [];
    for i := 0 to |media|
      invariant lines == seq(i, j requires 0 <= j < i => WithPayloads(media[j]))
    {
      lines := lines + [WithPayloads(media[i])];
    }
    completed := completed[Media := Arr(lines)];
    sdp := WriteLocation("", OUTER_ORDER, completed);
    sdp := WriteMedia(sdp, lines);
    TextAppend(LocationLines(OUTER_ORDER, completed), MediaLines(lines));
  }
}
