/** The parser (mssdk/json/parser.cpp, lines 37-340). */
module Parser {
  import opened Prelude
  import opened Regex
  import opened Text
  import opened Json
  import opened Grammar

  /** A text as a value of a rule's type: a number that cannot be read is 0. */
  function ToType(s: string, t: char): Json {
    match t
    case 's' => Str(s)
    case 'u' => var n := ReadUnsigned(s); Num(if n.Some? then n.value else 0)
    case 'd' => var n := ReadInt(s, MIN_INT64, MAX_INT64); Num(if n.Some? then n.value else 0)
    case 'f' => Float(s)
    case _ => Null
  }

  /** The members that the captures from index `i` on add; an empty capture adds nothing. */
  function Attach(o: Fields, names: seq<Key>, types: string, caps: Caps, i: nat): Fields
    requires |names| <= |types|
    decreases |names| - i
  {
    if i >= |names| || caps.Nil? then o
    else
      var o' := if caps.head == "" then o else o[names[i] := ToType(caps.head, types[i])];
      Attach(o', names, types, caps.tail, i + 1)
  }

  function Attached(o: Fields, rule: Rule, caps: Caps): Fields {
    Attach(o, rule.names, rule.types, caps, 0)
  }

  function Elements(loc: Fields, rule: Rule): seq<Json> { if rule.key in loc && loc[rule.key].Arr? then loc[rule.key].elems else [] }

  /** The location after a rule has stored the captures of a line. */
  function Store(rule: Rule, loc: Fields, caps: Caps): Fields {
    match rule.target
    case Pushed => loc[rule.key := Arr(Elements(loc, rule) + [Obj(Attached(map[], rule, caps))])]
    case Named =>
      if rule.names == [] then loc[rule.key := ToType(if caps.Cons? then caps.head else "", rule.types[0])]
      else loc[rule.key := Obj(Attached(if rule.key in loc then FieldsOf(loc[rule.key]) else map[], rule, caps))]
    case Root => Attached(loc, rule, caps)
  }

  /** The captures of a line that a rule claims. */
  function CapsOf(rule: Rule, s: string): Caps
    requires Claims(rule, s)
  {
    Search(rule, s).value
  }

  /** What parsing has built so far. New lines go to the last media section, if there is one. */
  datatype State = State(session: Fields, media: seq<Fields>) {
    function Location(): Fields { if media == [] then session else media[|media| - 1] }

    function WithLocation(loc: Fields): State {
      if media == [] then this.(session := loc) else this.(media := media[|media| - 1 := loc])
    }
  }

  const NEW_MEDIA: Fields := map[Rtp := Arr([]), Fmtp := Arr([])]

  /** One line, given as its type and its content. */
  function ParseContent(st: State, t: char, content: string): State {
    var st := if t == 'm' then st.(media := st.media + [NEW_MEDIA]) else st;
    match FirstClaim(Rules(t), content)
    case None => st
    case Some(rule) =>
      FirstClaimClaims(Rules(t), content);
      st.WithLocation(Store(rule, st.Location(), CapsOf(rule, content)))
  }

  lemma FirstClaimClaims(rules: seq<Rule>, s: string)
    ensures var k := FirstClaim(rules, s); k.Some? ==> k.value in rules && Claims(k.value, s)
  {
    hide Claims;
  }

  function WithoutCr(line: string): string {
    if line != "" && line[|line| - 1] == '\r' then line[..|line| - 1] else line
  }

  /** The lines the parser looks at: a small letter, '=', and anything. */
  predicate ValidLine(line: string) { |line| >= 2 && 'a' <= line[0] <= 'z' && line[1] == '=' }

  function ParseLine(st: State, raw: string): State {
    var line := WithoutCr(raw);
    if ValidLine(line) then ParseContent(st, line[0], line[2..]) else st
  }

  function ParseLines(st: State, lines: seq<string>): State {
    if lines == [] then st else ParseLine(ParseLines(st, lines[..|lines| - 1]), lines[|lines| - 1])
  }

  function Linked(st: State): Fields {
    st.session[Media := Arr(seq(|st.media|, i requires 0 <= i < |st.media| => Obj(st.media[i])))]
  }

  /** The session that `parse` returns. */
  function Parsed(sdp: string): Fields { Linked(ParseLines(State(map[], []), Tokens(sdp, '\n'))) }

  // ---- The loops of the parser ----

  /** attachProperties, for a rule with names. */
  method AttachProperties(caps: Caps, location: Fields, names: seq<Key>, types: string) returns (o: Fields)
    requires |names| <= |types|
    ensures o == Attach(location, names, types, caps, 0)
  {
    o := location;
    var i := 0;
    var rest := caps;
    while i < |names|
      invariant i <= |names|
      invariant Attach(o, names, types, rest, i) == Attach(location, names, types, caps, 0)
    {
      if rest.Cons? {
        if rest.head != "" {
          o := o[names[i] := ToType(rest.head, types[i])];
        }
        rest := rest.tail;
      }
      i := i + 1;
    }
  }

  /** parseReg. */
  method ParseReg(rule: Rule, location: Fields, content: string) returns (updated: Fields)
    requires Claims(rule, content)
    ensures updated == Store(rule, location, CapsOf(rule, content))
  {
    hide Attach;
    updated := location;
    var needsBlank := rule.target.Named? && rule.names != [];
    if rule.target.Pushed? && rule.key !in updated {
      updated := updated[rule.key := Arr([])];
    } else if needsBlank && rule.key !in updated {
      updated := updated[rule.key := Obj(map[])];
    }
    var caps := Search(rule, content).value;
    if rule.target.Pushed? {
      var blank := AttachProperties(caps, map[], rule.names, rule.types);
      updated := updated[rule.key := Arr(Elements(updated, rule) + [Obj(blank)])];
    } else if needsBlank {
      var blank := AttachProperties(caps, FieldsOf(updated[rule.key]), rule.names, rule.types);
      updated := updated[rule.key := Obj(blank)];
    } else if rule.target.Named? {
      updated := updated[rule.key := ToType(if caps.Cons? then caps.head else "", rule.types[0])];
    } else {
      updated := AttachProperties(caps, updated, rule.names, rule.types);
    }
  }

  /** The loop over the rules of a line type, which stops at the first one whose pattern is found. */
  method FirstRule(rules: seq<Rule>, content: string) returns (found: Option<Rule>)
    ensures found == FirstClaim(rules, content)
  {
    hide Claims;
    var j := 0;
    while j < |rules|
      invariant j <= |rules|
      invariant FirstClaim(rules, content) == FirstClaim(rules[j..], content)
    {
      if Claims(rules[j], content) {
        return Some(rules[j]);
      }
      assert rules[j..][1..] == rules[j + 1..];
      j := j + 1;
    }
    return None;
  }

  /** What `parse` does with one line. */
  method ReadLine(session: Fields, media: seq<Fields>, raw: string) returns (session': Fields, media': seq<Fields>)
    ensures State(session', media') == ParseLine(State(session, media), raw)
  {
    hide FirstClaim, Claims, Rules, Store, CapsOf;
    session', media' := session, media;
    var line := WithoutCr(raw);
    if ValidLine(line) {
      var t := line[0];
      var content := line[2..];
      if t == 'm' {
        media' := media' + [NEW_MEDIA];
      }
      var found := FirstRule(Rules(t), content);
      if found.Some? {
        FirstClaimClaims(Rules(t), content);
        if media' == [] {
          session' := ParseReg(found.value, session', content);
        } else {
          var m := ParseReg(found.value, media'[|media'| - 1], content);
          media' := media'[|media'| - 1 := m];
        }
      }
    }
  }

  /** `parse`. */
  method Parse(sdp: string) returns (result: Fields)
    ensures result == Parsed(sdp)
  {
    hide ParseLine, Tokens;
    var session: Fields := map[];
    var media: seq<Fields> := [];
    var lines := Split(sdp, '\n');
    for n := 0 to |lines|
      invariant State(session, media) == ParseLines(State(map[], []), lines[..n])
    {
      assert lines[..n + 1][..n] == lines[..n];
      session, media := ReadLine(session, media, lines[n]);
    }
    assert lines[..|lines|] == lines;
    result := Linked(State(session, media));
  }
}
