/**
  The regular expressions of the SDP grammar (mssdk/json/grammar.cpp) as data, and the
  backtracking, leftmost-greedy matcher that std::regex_search runs on an anchored pattern.
  A match does not have to consume its whole input.
 */
module Regex {
  import opened Prelude

  datatype Class =
    | Digit                      // \d
    | Word(extra: string)        // \w and the extra characters
    | NonSpace                   // \S
    | Space                      // \s
    | Dot                        // .
    | Except(chars: string)      // [^...]

  datatype Reps = Star | Plus | One | Maybe

  datatype Re =
    | Done
    | End                                             // $
    | Lit(text: string, next: Re)
    | Cap(cls: Class, reps: Reps, next: Re)           // (\d*), (\S*), ...
    | WordOrCap(word: string, cls: Class, next: Re)   // (\*|\d*)
    | Choice(words: seq<string>, next: Re)            // (send|recv)
    | Run(cls: Class, reps: Reps, next: Re)           // \s*, outside any group
    | Opt(body: Re, next: Re)                         // (?:...)?

  /** The capture groups of a match, in order; a group that took no part holds "". */
  datatype Caps = Nil | Cons(head: string, tail: Caps)

  predicate IsDigit(c: char) { '0' <= c <= '9' }

  predicate IsWord(c: char) { IsDigit(c) || 'a' <= c <= 'z' || 'A' <= c <= 'Z' || c == '_' }

  predicate IsSpace(c: char) { c == ' ' || '\t' <= c <= '\r' }

  predicate In(cls: Class, c: char) {
    match cls
    case Digit => IsDigit(c)
    case Word(extra) => IsWord(c) || c in extra
    case NonSpace => !IsSpace(c)
    case Space => IsSpace(c)
    case Dot => c != '\n' && c != '\r'
    case Except(chars) => c !in chars
  }

  predicate All(cls: Class, s: string) { forall c <- s :: In(cls, c) }

  function Lo(reps: Reps): nat { if reps.Plus? || reps.One? then 1 else 0 }

  function Hi(reps: Reps, n: nat): nat { if (reps.One? || reps.Maybe?) && n > 1 then 1 else n }

  /** How many leading characters of `s` are in the class. */
  function Longest(cls: Class, s: string): (n: nat)
    ensures n <= |s| && All(cls, s[..n]) && (n < |s| ==> !In(cls, s[n]))
  {
    if s == "" || !In(cls, s[0]) then 0
    else
      var n := 1 + Longest(cls, s[1..]);
      assert s[..n] == [s[0]] + s[1..][..n - 1];
      n
  }

  function Size(re: Re): nat {
    match re
    case Done => 0
    case End => 0
    case Lit(_, next) => 1 + Size(next)
    case Cap(_, _, next) => 1 + Size(next)
    case WordOrCap(_, _, next) => 2 + Size(next)
    case Choice(words, next) => 1 + |words| + Size(next)
    case Run(_, _, next) => 1 + Size(next)
    case Opt(body, next) => 1 + Size(body) + Size(next)
  }

  /** The pattern `a` followed by the pattern `k`. */
  function Then(a: Re, k: Re): (r: Re)
    ensures Size(r) <= Size(a) + Size(k)
  {
    match a
    case Done => k
    case End => End
    case Lit(text, next) => Lit(text, Then(next, k))
    case Cap(cls, reps, next) => Cap(cls, reps, Then(next, k))
    case WordOrCap(word, cls, next) => WordOrCap(word, cls, Then(next, k))
    case Choice(words, next) => Choice(words, Then(next, k))
    case Run(cls, reps, next) => Run(cls, reps, Then(next, k))
    case Opt(body, next) => Opt(body, Then(next, k))
  }

  /** The captures of an optional group that took no part, in front of `caps`. */
  function Blanks(body: Re, caps: Caps): Caps {
    match body
    case Done => caps
    case End => caps
    case Lit(_, next) => Blanks(next, caps)
    case Cap(_, _, next) => Cons("", Blanks(next, caps))
    case WordOrCap(_, _, next) => Cons("", Blanks(next, caps))
    case Choice(_, next) => Cons("", Blanks(next, caps))
    case Run(_, _, next) => Blanks(next, caps)
    case Opt(inner, next) => Blanks(inner, Blanks(next, caps))
  }

  function Match(re: Re, s: string): Option<Caps>
    decreases Size(re), 0
  {
    match re
    case Done => Some(Nil)
    case End => if s == "" then Some(Nil) else None
    case Lit(text, next) =>
      if text <= s then Match(next, s[|text|..]) else None
    case Cap(cls, reps, next) =>
      MatchRun(true, Lo(reps), next, s, Hi(reps, Longest(cls, s)))
    case WordOrCap(word, cls, next) =>
      var first := if word <= s then Prepend(word, Match(next, s[|word|..])) else None;
      if first.Some? then first else MatchRun(true, 0, next, s, Longest(cls, s))
    case Choice(words, next) =>
      if words == [] then None
      else
        var first := if words[0] <= s then Prepend(words[0], Match(next, s[|words[0]|..])) else None;
        if first.Some? then first else Match(Choice(words[1..], next), s)
    case Run(cls, reps, next) =>
      MatchRun(false, Lo(reps), next, s, Hi(reps, Longest(cls, s)))
    case Opt(body, next) =>
      var taken := Match(Then(body, next), s);
      if taken.Some? then taken
      else
        match Match(next, s)
        case Some(caps) => Some(Blanks(body, caps))
        case None => None
  }

  /** Tries a run of `n` characters, then shorter ones down to `lo`. */
  function MatchRun(captured: bool, lo: nat, next: Re, s: string, n: nat): Option<Caps>
    requires n <= |s|
    decreases Size(next), n + 1
  {
    if n < lo then None
    else
      match Match(next, s[n..])
      case Some(caps) => Some(if captured then Cons(s[..n], caps) else caps)
      case None => if n == 0 then None else MatchRun(captured, lo, next, s, n - 1)
  }

  function Prepend(text: string, caps: Option<Caps>): Option<Caps> {
    if caps.Some? then Some(Cons(text, caps.value)) else None
  }

  // ---- What a match means, without any order of trials ----

  /** `s` starts with a text of the pattern whose groups hold `caps`. */
  ghost predicate Accepts(re: Re, s: string, caps: Caps)
    decreases Size(re)
  {
    match re
    case Done => caps == Nil
    case End => s == "" && caps == Nil
    case Lit(text, next) => text <= s && Accepts(next, s[|text|..], caps)
    case Cap(cls, reps, next) =>
      caps.Cons? && caps.head <= s && All(cls, caps.head) && Lo(reps) <= |caps.head| <= Hi(reps, |s|)
      && Accepts(next, s[|caps.head|..], caps.tail)
    case WordOrCap(word, cls, next) =>
      caps.Cons? && caps.head <= s && (caps.head == word || All(cls, caps.head))
      && Accepts(next, s[|caps.head|..], caps.tail)
    case Choice(words, next) =>
      caps.Cons? && caps.head <= s && caps.head in words && Accepts(next, s[|caps.head|..], caps.tail)
    case Run(cls, reps, next) =>
      exists n: nat :: n <= |s| && All(cls, s[..n]) && Lo(reps) <= n <= Hi(reps, |s|) && Accepts(next, s[n..], caps)
    case Opt(body, next) =>
      Accepts(Then(body, next), s, caps)
      || exists rest :: caps == Blanks(body, rest) && Accepts(next, s, rest)
  }

  /** Whatever the matcher finds is a match. */
  lemma {:induction false} MatchSound(re: Re, s: string)
    ensures Match(re, s).Some? ==> Accepts(re, s, Match(re, s).value)
    decreases Size(re), 0
  {
    match re
    case Done =>
    case End =>
    case Lit(text, next) =>
      if text <= s { MatchSound(next, s[|text|..]); }
    case Cap(cls, reps, next) =>
      RunSound(true, cls, Lo(reps), next, s, Hi(reps, Longest(cls, s)));
    case WordOrCap(word, cls, next) =>
      if word <= s { MatchSound(next, s[|word|..]); }
      RunSound(true, cls, 0, next, s, Longest(cls, s));
    case Choice(words, next) =>
      if words != [] {
        if words[0] <= s { MatchSound(next, s[|words[0]|..]); }
        MatchSound(Choice(words[1..], next), s);
      }
    case Run(cls, reps, next) =>
      RunSound(false, cls, Lo(reps), next, s, Hi(reps, Longest(cls, s)));
    case Opt(body, next) =>
      MatchSound(Then(body, next), s);
      MatchSound(next, s);
  }

  lemma {:induction false} RunSound(captured: bool, cls: Class, lo: nat, next: Re, s: string, n: nat)
    requires n <= |s| && All(cls, s[..n])
    ensures var m := MatchRun(captured, lo, next, s, n);
            m.Some? && captured ==> m.value.Cons? && m.value.head <= s && All(cls, m.value.head)
                                    && lo <= |m.value.head| <= n && Accepts(next, s[|m.value.head|..], m.value.tail)
    ensures var m := MatchRun(captured, lo, next, s, n);
            m.Some? && !captured ==>
              exists k: nat :: lo <= k <= n && All(cls, s[..k]) && Accepts(next, s[k..], m.value)
    decreases Size(next), n + 1
  {
    hide Accepts, In, Match;
    if n >= lo {
      MatchSound(next, s[n..]);
      if Match(next, s[n..]).None? && n > 0 {
        assert forall c <- s[..n - 1] :: c in s[..n];
        RunSound(captured, cls, lo, next, s, n - 1);
      }
    }
  }

  /** When the matcher gives up, nothing matches. */
  lemma {:induction false} MatchComplete(re: Re, s: string, caps: Caps)
    requires Accepts(re, s, caps)
    ensures Match(re, s).Some?
    decreases Size(re), 0
  {
    match re
    case Done =>
    case End =>
    case Lit(text, next) => MatchComplete(next, s[|text|..], caps);
    case Cap(cls, reps, next) =>
      LongestIsLongest(cls, s, |caps.head|);
      RunComplete(true, Lo(reps), next, s, Hi(reps, Longest(cls, s)), |caps.head|, caps.tail);
    case WordOrCap(word, cls, next) =>
      if caps.head == word {
        MatchComplete(next, s[|word|..], caps.tail);
      } else {
        LongestIsLongest(cls, s, |caps.head|);
        RunComplete(true, 0, next, s, Longest(cls, s), |caps.head|, caps.tail);
      }
    case Choice(words, next) =>
      if caps.head == words[0] {
        MatchComplete(next, s[|words[0]|..], caps.tail);
      } else {
        MatchComplete(Choice(words[1..], next), s, caps);
      }
    case Run(cls, reps, next) =>
      var n: nat :| n <= |s| && All(cls, s[..n]) && Lo(reps) <= n <= Hi(reps, |s|) && Accepts(next, s[n..], caps);
      LongestIsLongest(cls, s, n);
      RunComplete(false, Lo(reps), next, s, Hi(reps, Longest(cls, s)), n, caps);
    case Opt(body, next) =>
      if Accepts(Then(body, next), s, caps) {
        MatchComplete(Then(body, next), s, caps);
      } else {
        var rest :| caps == Blanks(body, rest) && Accepts(next, s, rest);
        MatchComplete(next, s, rest);
      }
  }

  lemma {:induction false} RunComplete(captured: bool, lo: nat, next: Re, s: string, n: nat, k: nat, caps: Caps)
    requires lo <= k <= n <= |s| && Accepts(next, s[k..], caps)
    ensures MatchRun(captured, lo, next, s, n).Some?
    decreases Size(next), n + 1
  {
    if n == k {
      MatchComplete(next, s[k..], caps);
    } else if Match(next, s[n..]).None? {
      RunComplete(captured, lo, next, s, n - 1, k, caps);
    }
  }

  lemma {:induction false} LongestIsLongest(cls: Class, s: string, n: nat)
    requires n <= |s| && All(cls, s[..n])
    ensures n <= Longest(cls, s)
  {
    if n > 0 {
      assert s[..n][0] == s[0] && s[1..][..n - 1] == s[..n][1..];
      LongestIsLongest(cls, s[1..], n - 1);
    }
  }

  // ---- One step of a match, for text cut where the pattern cuts it ----

  /** A greedy run stops at the first character outside its class. */
  lemma {:induction false} LongestStops(cls: Class, v: string, rest: string)
    requires All(cls, v) && (rest == "" || !In(cls, rest[0]))
    ensures Longest(cls, v + rest) == |v|
  {
    if v == "" {
      assert v + rest == rest;
    } else {
      assert (v + rest)[1..] == v[1..] + rest;
      LongestStops(cls, v[1..], rest);
    }
  }

  lemma LitStep(text: string, next: Re, rest: string)
    ensures Match(Lit(text, next), text + rest) == Match(next, rest)
  {
    assert (text + rest)[|text|..] == rest;
  }

  lemma CapStep(cls: Class, reps: Reps, next: Re, v: string, rest: string)
    requires All(cls, v) && Lo(reps) <= |v| && Hi(reps, |v|) == |v|
    requires rest == "" || !In(cls, rest[0])
    requires Match(next, rest).Some?
    ensures Match(Cap(cls, reps, next), v + rest) == Some(Cons(v, Match(next, rest).value))
  {
    LongestStops(cls, v, rest);
    assert (v + rest)[|v|..] == rest && (v + rest)[..|v|] == v;
  }

  lemma WordOrCapStep(word: string, cls: Class, next: Re, v: string, rest: string)
    requires v == word || (All(cls, v) && !(word <= v + rest) && (rest == "" || !In(cls, rest[0])))
    requires Match(next, rest).Some?
    ensures Match(WordOrCap(word, cls, next), v + rest) == Some(Cons(v, Match(next, rest).value))
  {
    assert (v + rest)[|v|..] == rest && (v + rest)[..|v|] == v;
    if v != word {
      LongestStops(cls, v, rest);
    }
  }

  /** The first listed word that starts the text is taken. */
  lemma {:induction false} ChoiceStep(words: seq<string>, next: Re, i: nat, rest: string)
    requires i < |words| && (forall j :: 0 <= j < i ==> !(words[j] <= words[i] + rest))
    requires Match(next, rest).Some?
    ensures Match(Choice(words, next), words[i] + rest) == Some(Cons(words[i], Match(next, rest).value))
  {
    if i == 0 {
      assert (words[0] + rest)[|words[0]|..] == rest;
    } else {
      assert words[1..][i - 1] == words[i];
      ChoiceStep(words[1..], next, i - 1, rest);
    }
  }

  lemma RunStep(cls: Class, reps: Reps, next: Re, v: string, rest: string)
    requires All(cls, v) && Lo(reps) <= |v| && Hi(reps, |v|) == |v|
    requires rest == "" || !In(cls, rest[0])
    requires Match(next, rest).Some?
    ensures Match(Run(cls, reps, next), v + rest) == Match(next, rest)
  {
    LongestStops(cls, v, rest);
    assert (v + rest)[|v|..] == rest;
  }
}
