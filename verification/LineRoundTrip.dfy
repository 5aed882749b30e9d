/**
  What a rule prints for an object and what it reads back from that line, in general: the part
  that does not depend on the rule. `Agrees` relates a format and a pattern from a member on.
 */
module LineRoundTrip {
  import opened Prelude
  import opened Regex
  import opened Text
  import opened Json
  import opened Grammar
  import opened Writer
  import opened Parser

  /** The text of a member; a missing one prints nothing. */
  function P(o: Fields, k: Key): string { if k in o then Print(o[k]) else "" }

  /** The texts of the members named from index `i` on: what the pattern has to capture. */
  function Texts(o: Fields, names: seq<Key>, i: nat): Caps
    decreases |names| - i
  {
    if i >= |names| then Nil else Cons(P(o, names[i]), Texts(o, names, i + 1))
  }

  /** What the format prints for the members of `o`, from the one with index `i` on. */
  function Printed(f: Format, o: Fields, names: seq<Key>, i: nat): string {
    match f
    case Tail(_) => ""
    case Hole(prefix, kind, next) =>
      if i >= |names| then Placeholder(kind) + Printed(next, o, names, i)
      else prefix + (match kind case V => "" case Percent => "%" case _ => P(o, names[i])) + Printed(next, o, names, i + 1)
  }

  lemma PrintedHole(prefix: Prefix, kind: Kind, next: Format, o: Fields, names: seq<Key>, i: nat)
    requires i < |names| && (kind.S? || kind.D?)
    ensures Printed(Hole(prefix, kind, next), o, names, i) == prefix + P(o, names[i]) + Printed(next, o, names, i + 1)
    ensures Printed(Tail(""), o, names, i) == ""
  {
    hide P;
  }

  /** Every placeholder that prints a member prints one that is there. */
  predicate Filled(f: Format, o: Fields, names: seq<Key>, i: nat) {
    f.Tail? || (i < |names| && (f.kind.V? || names[i] in o) && Filled(f.next, o, names, i + 1))
  }

  lemma {:induction false} ExpandIsPrinted(f: Format, args: seq<Json>, o: Fields, names: seq<Key>, i: nat)
    requires |args| == |names| && forall j :: 0 <= j < |names| ==> Print(args[j]) == P(o, names[j])
    ensures Expand(f, args, i) == Printed(f, o, names, i)
  {
    hide Print, P;
    if f.Hole? {
      ExpandIsPrinted(f.next, args, o, names, if i >= |args| then i else i + 1);
    }
  }

  lemma {:induction false} ExpandFilled(f: Format, args: seq<Json>, o: Fields, names: seq<Key>, i: nat)
    requires |args| == |names| && forall j :: 0 <= j < |names| && names[j] in o ==> args[j] == o[names[j]]
    requires Filled(f, o, names, i)
    ensures Expand(f, args, i) == Printed(f, o, names, i)
  {
    hide Print;
    if f.Hole? {
      ExpandFilled(f.next, args, o, names, i + 1);
    }
  }

  /** The line of an element of an array, or of the section itself. */
  lemma ContentOfObject(rule: Rule, o: Fields)
    requires !rule.target.Named? && rule.names != []
    ensures Content(rule, o) == Printed(FormatOf(rule, o), o, rule.names, 0)
  {
    hide Expand, FormatOf;
    ExpandIsPrinted(FormatOf(rule, o), Args(rule, o), o, rule.names, 0);
  }

  /** The line of a named object, whatever else is in the location. */
  lemma ContentOfNamed(rule: Rule, loc: Fields, o: Fields)
    requires rule.target.Named? && rule.names != [] && rule.key in loc && loc[rule.key] == Obj(o)
    requires Filled(FormatOf(rule, o), o, rule.names, 0)
    ensures Content(rule, loc) == Printed(FormatOf(rule, o), o, rule.names, 0)
  {
    hide Expand, FormatOf;
    ExpandFilled(FormatOf(rule, o), Args(rule, loc), o, rule.names, 0);
  }

  // ---- What is read back ----

  predicate Distinct(names: seq<Key>) { forall i, j :: 0 <= i < j < |names| ==> names[i] != names[j] }

  /** A member of `r` is what the text of that member of `o` reads as; an empty text adds nothing. */
  ghost predicate Restored(base: Fields, o: Fields, r: Fields, names: seq<Key>, types: string, i: nat)
    requires |names| <= |types|
  {
    forall j :: i <= j < |names| ==>
      if P(o, names[j]) == "" then (names[j] in r <==> names[j] in base) && (names[j] in r ==> r[names[j]] == base[names[j]])
      else names[j] in r && r[names[j]] == ToType(P(o, names[j]), types[j])
  }

  ghost predicate SameOutside(base: Fields, r: Fields, names: seq<Key>, i: nat)
    requires i <= |names|
  {
    forall k :: k !in names[i..] ==> (k in r <==> k in base) && (k in r ==> r[k] == base[k])
  }

  lemma {:induction false} AttachTexts(base: Fields, o: Fields, names: seq<Key>, types: string, i: nat)
    requires |names| <= |types| && i <= |names| && Distinct(names)
    ensures var r := Attach(base, names, types, Texts(o, names, i), i);
            Restored(base, o, r, names, types, i) && SameOutside(base, r, names, i)
    decreases |names| - i
  {
    hide ToType, P, Print;
    if i < |names| {
      var text := P(o, names[i]);
      var next := if text == "" then base else base[names[i] := ToType(text, types[i])];
      AttachTexts(next, o, names, types, i + 1);
      assert names[i] !in names[i + 1..];
      assert forall k :: k in names[i + 1..] ==> k in names[i..];
      assert forall j :: i < j < |names| ==> names[j] != names[i];
    }
  }

  /** A value that its own text reads back as. */
  predicate Canonical(v: Json, t: char) {
    Print(v) != "" && ToType(Print(v), t) == v
  }

  lemma NumberIsCanonical(n: nat)
    requires n <= MAX_INT64
    ensures Print(Num(n)) == Dec(n) && All(Digit, Dec(n)) && Dec(n) != ""
    ensures Canonical(Num(n), 'd') && Canonical(Num(n), 'u') && StableText(Dec(n), 'd') && StableText(Dec(n), 'u')
  {
    hide ReadInt, ReadUnsigned, Dec;
    DecRoundTrip(n);
    DecDigits(n);
    ReadDecInt(n, MIN_INT64, MAX_INT64);
    ReadDecUnsigned(n);
  }

  lemma StringIsCanonical(s: string)
    requires s != ""
    ensures Canonical(Str(s), 's')
  {}

  /** An object made of members of the rule, each with a canonical value. */
  predicate Exact(rule: Rule, o: Fields) {
    (forall k :: k in o ==> k in rule.names)
    && forall i :: 0 <= i < |rule.names| && rule.names[i] in o ==> Canonical(o[rule.names[i]], rule.types[i])
  }

  lemma AttachedExact(rule: Rule, o: Fields)
    requires Distinct(rule.names) && Exact(rule, o)
    ensures Attached(map[], rule, Texts(o, rule.names, 0)) == o
  {
    hide ToType, Print, Attach, Texts;
    AttachTexts(map[], o, rule.names, rule.types, 0);
    var r := Attached(map[], rule, Texts(o, rule.names, 0));
    assert rule.names[0..] == rule.names;
    forall k ensures (k in r <==> k in o) && (k in r ==> r[k] == o[k]) {
      if k in rule.names {
        var j :| 0 <= j < |rule.names| && rule.names[j] == k;
      }
    }
  }

  /** A text that stays the same when it is read as the type and printed. */
  predicate StableText(s: string, t: char) { Print(ToType(s, t)) == s && (ToType(s, t).Str? || ToType(s, t).Num?) }

  /** The members of the rule are strings and numbers with stable texts. */
  predicate Plain(rule: Rule, o: Fields) {
    forall i :: 0 <= i < |rule.names| && rule.names[i] in o ==>
      (o[rule.names[i]].Str? || o[rule.names[i]].Num?)
      && (P(o, rule.names[i]) != "" ==> StableText(P(o, rule.names[i]), rule.types[i]))
  }

  /** Reading back keeps every printed member and which members have a value. */
  lemma AttachedPlain(rule: Rule, base: Fields, o: Fields)
    requires Distinct(rule.names) && Plain(rule, o) && forall k <- rule.names :: k !in base
    ensures var r := Attached(base, rule, Texts(o, rule.names, 0));
            (forall k <- rule.names :: P(r, k) == P(o, k) && (HasValue(r, k) <==> HasValue(o, k)))
            && (forall k <- rule.names :: k in r <==> P(o, k) != "")
            && (forall k :: k !in rule.names ==> (k in r <==> k in base) && (k in r ==> r[k] == base[k]))
  {
    hide ToType, Attach, Texts;
    AttachTexts(base, o, rule.names, rule.types, 0);
    var r := Attached(base, rule, Texts(o, rule.names, 0));
    assert rule.names[0..] == rule.names;
    forall k <- rule.names ensures P(r, k) == P(o, k) && (HasValue(r, k) <==> HasValue(o, k)) && (k in r <==> P(o, k) != "") {
      var j :| 0 <= j < |rule.names| && rule.names[j] == k;
      PrintedNumber(o, k);
    }
  }

  lemma PrintedNumber(o: Fields, k: Key)
    ensures k in o && o[k].Num? ==> P(o, k) != ""
  {
    if k in o && o[k].Num? {
      DecDigits(if o[k].n < 0 then -o[k].n else o[k].n);
    }
  }

  lemma {:induction false} PrintedSame(f: Format, o: Fields, r: Fields, names: seq<Key>, i: nat)
    requires forall k <- names :: P(r, k) == P(o, k)
    ensures Printed(f, r, names, i) == Printed(f, o, names, i)
  {
    hide P;
    if f.Hole? {
      PrintedSame(f.next, o, r, names, if i >= |names| then i else i + 1);
    }
  }

  // ---- Agreement of a format and a pattern ----

  /** The pattern captures, from what the format prints, exactly the texts of the members. */
  ghost predicate Agrees(f: Format, re: Re, o: Fields, names: seq<Key>, i: nat) {
    Match(re, Printed(f, o, names, i)) == Some(Texts(o, names, i))
  }

  /** A run that the following text ends. */
  predicate Ends(cls: Class, f: Format, o: Fields, names: seq<Key>, i: nat) {
    var rest := Printed(f, o, names, i);
    rest == "" || !In(cls, rest[0])
  }

  predicate Fits(cls: Class, reps: Reps, s: string) { All(cls, s) && Lo(reps) <= |s| && Hi(reps, |s|) == |s| }

  lemma AgreesAtEnd(o: Fields, names: seq<Key>)
    ensures Agrees(Tail(""), Done, o, names, |names|)
    ensures forall c, i :: Ends(c, Tail(""), o, names, i)
    ensures Printed(Tail(""), o, names, |names|) == ""
    ensures Filled(Tail(""), o, names, |names|)
  {}

  /** One captured member behind a literal prefix. */
  lemma Field(prefix: Prefix, kind: Kind, f: Format, cls: Class, reps: Reps, re: Re, o: Fields, names: seq<Key>, i: nat)
    requires i < |names| && (kind.S? || kind.D?)
    requires Fits(cls, reps, P(o, names[i])) && Ends(cls, f, o, names, i + 1)
    requires Agrees(f, re, o, names, i + 1)
    ensures Agrees(Hole(prefix, kind, f), Lit(prefix, Cap(cls, reps, re)), o, names, i)
    ensures prefix == "" ==> Agrees(Hole(prefix, kind, f), Cap(cls, reps, re), o, names, i)
    ensures forall c :: prefix != "" && !In(c, prefix[0]) ==> Ends(c, Hole(prefix, kind, f), o, names, i)
    ensures prefix <= Printed(Hole(prefix, kind, f), o, names, i)
    ensures names[i] in o && Filled(f, o, names, i + 1) ==> Filled(Hole(prefix, kind, f), o, names, i)
  {
    hide Match, P;
    var rest := Printed(f, o, names, i + 1);
    var text := P(o, names[i]);
    assert Printed(Hole(prefix, kind, f), o, names, i) == prefix + (text + rest);
    CapStep(cls, reps, re, text, rest);
    LitStep(prefix, Cap(cls, reps, re), text + rest);
    assert prefix == "" ==> prefix + (text + rest) == text + rest;
  }

  /** One captured member that is one of a few words. */
  lemma ChoiceField(prefix: Prefix, kind: Kind, f: Format, words: seq<string>, w: nat, re: Re, o: Fields, names: seq<Key>, i: nat)
    requires i < |names| && (kind.S? || kind.D?)
    requires w < |words| && P(o, names[i]) == words[w]
    requires forall j :: 0 <= j < w ==> !(words[j] <= words[w] + Printed(f, o, names, i + 1))
    requires Agrees(f, re, o, names, i + 1)
    ensures Agrees(Hole(prefix, kind, f), Lit(prefix, Choice(words, re)), o, names, i)
    ensures prefix == "" ==> Agrees(Hole(prefix, kind, f), Choice(words, re), o, names, i)
    ensures forall c :: prefix != "" && !In(c, prefix[0]) ==> Ends(c, Hole(prefix, kind, f), o, names, i)
    ensures prefix <= Printed(Hole(prefix, kind, f), o, names, i)
    ensures names[i] in o && Filled(f, o, names, i + 1) ==> Filled(Hole(prefix, kind, f), o, names, i)
  {
    hide Match, P;
    var rest := Printed(f, o, names, i + 1);
    assert Printed(Hole(prefix, kind, f), o, names, i) == prefix + (words[w] + rest);
    ChoiceStep(words, re, w, rest);
    LitStep(prefix, Choice(words, re), words[w] + rest);
    assert prefix == "" ==> prefix + (words[w] + rest) == words[w] + rest;
  }

  /** One captured member that is a given word or a run. */
  lemma WordOrField(prefix: Prefix, kind: Kind, f: Format, word: string, cls: Class, re: Re, o: Fields, names: seq<Key>, i: nat)
    requires i < |names| && (kind.S? || kind.D?)
    requires P(o, names[i]) == word
             || (Fits(cls, Star, P(o, names[i])) && Ends(cls, f, o, names, i + 1)
                 && !(word <= P(o, names[i]) + Printed(f, o, names, i + 1)))
    requires Agrees(f, re, o, names, i + 1)
    ensures Agrees(Hole(prefix, kind, f), Lit(prefix, WordOrCap(word, cls, re)), o, names, i)
  {
    hide Match, P;
    var rest := Printed(f, o, names, i + 1);
    var text := P(o, names[i]);
    assert Printed(Hole(prefix, kind, f), o, names, i) == prefix + (text + rest);
    WordOrCapStep(word, cls, re, text, rest);
    LitStep(prefix, WordOrCap(word, cls, re), text + rest);
  }

  /** An optional group that is there. */
  lemma Taken(f: Format, body: Re, next: Re, o: Fields, names: seq<Key>, i: nat)
    requires Agrees(f, Then(body, next), o, names, i)
    ensures Agrees(f, Opt(body, next), o, names, i)
  {}

  function NumCaps(re: Re): nat {
    match re
    case Done => 0
    case End => 0
    case Lit(_, next) => NumCaps(next)
    case Cap(_, _, next) => 1 + NumCaps(next)
    case WordOrCap(_, _, next) => 1 + NumCaps(next)
    case Choice(_, next) => 1 + NumCaps(next)
    case Run(_, _, next) => NumCaps(next)
    case Opt(body, next) => NumCaps(body) + NumCaps(next)
  }

  predicate Blank(o: Fields, names: seq<Key>, i: nat, n: nat) {
    i + n <= |names| && forall j :: i <= j < i + n ==> P(o, names[j]) == ""
  }

  lemma {:induction false} BlanksAreTexts(body: Re, o: Fields, names: seq<Key>, i: nat)
    requires Blank(o, names, i, NumCaps(body))
    ensures Blanks(body, Texts(o, names, i + NumCaps(body))) == Texts(o, names, i)
  {
    hide P;
    match body
    case Done =>
    case End =>
    case Lit(_, next) => BlanksAreTexts(next, o, names, i);
    case Cap(_, _, next) => BlanksAreTexts(next, o, names, i + 1);
    case WordOrCap(_, _, next) => BlanksAreTexts(next, o, names, i + 1);
    case Choice(_, next) => BlanksAreTexts(next, o, names, i + 1);
    case Run(_, _, next) => BlanksAreTexts(next, o, names, i);
    case Opt(inner, next) =>
      BlanksAreTexts(next, o, names, i + NumCaps(inner));
      BlanksAreTexts(inner, o, names, i);
  }

  /** An optional group that is not there: its members are blank, and f and f' print the same. */
  lemma Skipped(f: Format, f': Format, body: Re, next: Re, o: Fields, names: seq<Key>, i: nat)
    requires Match(Then(body, next), Printed(f, o, names, i)).None?
    requires Blank(o, names, i, NumCaps(body))
    requires Printed(f, o, names, i) == Printed(f', o, names, i + NumCaps(body))
    requires Agrees(f', next, o, names, i + NumCaps(body))
    ensures Agrees(f, Opt(body, next), o, names, i)
  {
    hide Match, Texts, Printed, P, Blanks;
    BlanksAreTexts(body, o, names, i);
    SkippedOption(body, next, Printed(f, o, names, i));
  }

  lemma SkippedOption(body: Re, next: Re, s: string)
    requires Match(Then(body, next), s).None? && Match(next, s).Some?
    ensures Match(Opt(body, next), s) == Some(Blanks(body, Match(next, s).value))
  {}

  lemma EmptyRun(cls: Class, reps: Reps, next: Re, s: string)
    requires Lo(reps) == 0 && (s == "" || !In(cls, s[0]))
    ensures Match(Run(cls, reps, next), s) == Match(next, s)
  {
    assert s[0..] == s;
    assert Longest(cls, s) == 0;
  }

  function Voids(n: nat, f: Format): Format { if n == 0 then f else Hole("", V, Voids(n - 1, f)) }

  lemma {:induction false} VoidsPrint(n: nat, f: Format, o: Fields, names: seq<Key>, i: nat)
    requires i + n <= |names|
    ensures Printed(Voids(n, f), o, names, i) == Printed(f, o, names, i + n)
    ensures Filled(f, o, names, i + n) ==> Filled(Voids(n, f), o, names, i)
  {
    if n > 0 { VoidsPrint(n - 1, f, o, names, i + 1); }
  }

  lemma NoLiteral(body: Re, next: Re, text: string, s: string)
    requires body.Lit? && body.text == text && !(text <= s)
    ensures Match(Then(body, next), s).None?
  {}

  /** An optional group that is not there and whose members get a %v each. */
  lemma SkippedVoids(f: Format, text: string, body: Re, next: Re, o: Fields, names: seq<Key>, i: nat)
    requires body.Lit? && body.text == text && Blank(o, names, i, NumCaps(body))
    requires !(text <= Printed(f, o, names, i + NumCaps(body)))
    requires Agrees(f, next, o, names, i + NumCaps(body))
    ensures Agrees(Voids(NumCaps(body), f), Opt(body, next), o, names, i)
    ensures forall c :: Ends(c, f, o, names, i + NumCaps(body)) ==> Ends(c, Voids(NumCaps(body), f), o, names, i)
    ensures Printed(Voids(NumCaps(body), f), o, names, i) == Printed(f, o, names, i + NumCaps(body))
    ensures Filled(f, o, names, i + NumCaps(body)) ==> Filled(Voids(NumCaps(body), f), o, names, i)
  {
    hide P, Texts, Match, Voids;
    VoidsPrint(NumCaps(body), f, o, names, i);
    NoLiteral(body, next, text, Printed(f, o, names, i + NumCaps(body)));
    Skipped(Voids(NumCaps(body), f), f, body, next, o, names, i);
  }

  /** Two literals that differ at index k do not start the same text. */
  lemma Clash(a: string, b: string, k: nat, s: string)
    requires b <= s && k < |a| && k < |b| && a[k] != b[k]
    ensures !(a <= s)
  {}

  /** Padding that the pattern allows and the format does not write. */
  lemma Unpadded(f: Format, cls: Class, reps: Reps, next: Re, o: Fields, names: seq<Key>, i: nat)
    requires Lo(reps) == 0 && Ends(cls, f, o, names, i)
    requires Agrees(f, next, o, names, i)
    ensures Agrees(f, Run(cls, reps, next), o, names, i)
  {
    EmptyRun(cls, reps, next, Printed(f, o, names, i));
  }

  // ---- Whole lines ----

  /** The line of `o` is given to its rule, and reading it back yields exactly the members of `o`. */
  ghost predicate ReadsBack(t: char, rule: Rule, o: Fields) {
    var line := Content(rule, o);
    FirstClaim(Rules(t), line) == Some(rule) && Claims(rule, line) && Attached(map[], rule, CapsOf(rule, line)) == o
  }

  /** What the rule stores for a line at a location that has nothing for the rule yet. */
  function Stored(rule: Rule, caps: Caps): Json {
    if rule.names == [] then ToType(if caps.Cons? then caps.head else "", rule.types[0]) else Obj(Attached(map[], rule, caps))
  }

  /** A line of a rule: it is given to the rule, and what is read back is printed as the same line. */
  ghost predicate Stable(t: char, rule: Rule, line: string) {
    FirstClaim(Rules(t), line) == Some(rule) && Claims(rule, line) && Reprints(rule, Stored(rule, CapsOf(rule, line)), line)
  }

  ghost predicate Reprints(rule: Rule, stored: Json, line: string) {
    match rule.target
    case Pushed => Content(rule, FieldsOf(stored)) == line
    case Named => stored != Null && forall loc: Fields :: rule.key in loc && loc[rule.key] == stored ==> Content(rule, loc) == line
    case Root => false
  }

  lemma SameFormat(rule: Rule, o: Fields, r: Fields)
    requires forall k :: HasValue(o, k) <==> HasValue(r, k)
    ensures FormatOf(rule, o) == FormatOf(rule, r)
  {
    hide HasValue;
  }

  predicate OnlyNames(rule: Rule, o: Fields) { forall k :: k in o ==> k in rule.names }

  /** An array element whose format and pattern agree is read back; stays the same line when its values are plain. */
  lemma ElementLine(t: char, rule: Rule, o: Fields)
    requires rule.target.Pushed? && rule.anchored && rule.names != [] && Distinct(rule.names)
    requires Agrees(FormatOf(rule, o), rule.re, o, rule.names, 0)
    requires FirstClaim(Rules(t), Content(rule, o)) == Some(rule)
    ensures Exact(rule, o) ==> ReadsBack(t, rule, o)
    ensures Plain(rule, o) && OnlyNames(rule, o) ==> Stable(t, rule, Content(rule, o))
  {
    hide FormatOf, Content, Attached, HasValue, P, Canonical, Print, Rules, FirstClaim;
    ContentOfObject(rule, o);
    if Exact(rule, o) {
      AttachedExact(rule, o);
    }
    if Plain(rule, o) && OnlyNames(rule, o) {
      AttachedPlain(rule, map[], o);
      var r := Attached(map[], rule, Texts(o, rule.names, 0));
      forall k ensures HasValue(o, k) <==> HasValue(r, k) {
        if k !in rule.names { NoValue(o, k); NoValue(r, k); }
      }
      SameFormat(rule, o, r);
      ContentOfObject(rule, r);
      PrintedSame(FormatOf(rule, o), o, r, rule.names, 0);
    }
  }

  lemma NoValue(o: Fields, k: Key)
    ensures k !in o ==> !HasValue(o, k)
  {}

  lemma {:induction false} FilledSame(f: Format, o: Fields, r: Fields, names: seq<Key>, i: nat)
    requires Filled(f, o, names, i) && forall k <- names :: k in o ==> k in r
    ensures Filled(f, r, names, i)
  {
    if f.Hole? {
      FilledSame(f.next, o, r, names, i + 1);
    }
  }

  /** The line that a rule prints for its named object. */
  function NamedText(rule: Rule, o: Fields): string { Printed(FormatOf(rule, o), o, rule.names, 0) }

  lemma NamedLine(t: char, rule: Rule, o: Fields)
    requires rule.target.Named? && rule.anchored && rule.names != [] && Distinct(rule.names)
    requires Agrees(FormatOf(rule, o), rule.re, o, rule.names, 0) && Filled(FormatOf(rule, o), o, rule.names, 0)
    requires FirstClaim(Rules(t), NamedText(rule, o)) == Some(rule)
    requires Plain(rule, o) && OnlyNames(rule, o) && forall k <- rule.names :: k in o ==> P(o, k) != ""
    ensures forall loc: Fields :: rule.key in loc && loc[rule.key] == Obj(o) ==> Content(rule, loc) == NamedText(rule, o)
    ensures Stable(t, rule, NamedText(rule, o))
    ensures Exact(rule, o) ==> Stored(rule, CapsOf(rule, NamedText(rule, o))) == Obj(o)
  {
    hide FormatOf, Content, Attached, HasValue, P, Canonical, Print, Rules, FirstClaim;
    forall loc: Fields | rule.key in loc && loc[rule.key] == Obj(o) ensures Content(rule, loc) == NamedText(rule, o) {
      ContentOfNamed(rule, loc, o);
    }
    if Exact(rule, o) {
      AttachedExact(rule, o);
    }
    AttachedPlain(rule, map[], o);
    var r := Attached(map[], rule, Texts(o, rule.names, 0));
    forall k ensures HasValue(o, k) <==> HasValue(r, k) {
      if k !in rule.names { NoValue(o, k); NoValue(r, k); }
    }
    SameFormat(rule, o, r);
    FilledSame(FormatOf(rule, o), o, r, rule.names, 0);
    PrintedSame(FormatOf(rule, o), o, r, rule.names, 0);
    forall loc: Fields | rule.key in loc && loc[rule.key] == Obj(r) ensures Content(rule, loc) == NamedText(rule, o) {
      ContentOfNamed(rule, loc, r);
    }
  }

  /** A rule without names keeps one value behind a fixed head. */
  lemma ScalarLine(t: char, rule: Rule, head: Prefix, v: Json)
    requires rule.target.Named? && rule.anchored && rule.names == []
    requires rule.format.Fixed? && rule.format.format.Hole? && rule.format.format.prefix == head
    requires !rule.format.format.kind.V? && !rule.format.format.kind.Percent? && rule.format.format.next.Tail?
    requires Match(rule.re, head + Print(v)) == Some(Cons(Print(v), Nil))
    requires StableText(Print(v), rule.types[0])
    requires FirstClaim(Rules(t), head + Print(v)) == Some(rule)
    ensures forall loc: Fields :: rule.key in loc && loc[rule.key] == v ==> Content(rule, loc) == head + Print(v)
    ensures Stable(t, rule, head + Print(v))
    ensures Canonical(v, rule.types[0]) ==> Stored(rule, CapsOf(rule, head + Print(v))) == v
  {
    hide Print, ToType, Rules, FirstClaim, Match;
    forall loc: Fields, w | rule.key in loc && loc[rule.key] == w && Print(w) == Print(v)
      ensures Content(rule, loc) == head + Print(v)
    {
      assert Args(rule, loc) == [w];
      assert Expand(rule.format.format.next, [w], 1) == "";
      assert head + Print(w) + "" == head + Print(w);
    }
  }
}
