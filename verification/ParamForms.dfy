/**
  The forms of a parameter that parseParams understands, with blanks around it and without a value,
  and what is written for each kind of value (mssdk/json/parser.cpp and mssdk/sdputil/MediaSection.cpp).
 */
module ParamForms {
  import opened Prelude
  import opened Regex
  import opened Text
  import opened Json
  import opened Parser
  import opened LineRoundTrip
  import opened Params
  import SourceReading

  /** Blanks at both ends do not matter. */
  lemma TrimMeans(before: string, s: string, after: string)
    requires SourceReading.Blank(before) && SourceReading.Blank(after)
    requires s != "" ==> !IsSpace(s[0]) && !IsSpace(s[|s| - 1])
    ensures Trim(before + s + after) == s
  {
    hide Longest, TrimRight;
    if s == "" {
      assert before + s + after == (before + after) + "";
      LongestStops(Space, before + after, "");
      assert TrimRight("") == "" by { NothingToTrim(); }
    } else {
      assert before + s + after == before + (s + after) && (s + after)[0] == s[0];
      LongestStops(Space, before, s + after);
      RightTrimmed(s, after);
    }
  }

  lemma NothingToTrim()
    ensures TrimRight("") == ""
  {}

  lemma {:induction false} RightTrimmed(s: string, after: string)
    requires SourceReading.Blank(after) && s != "" && !IsSpace(s[|s| - 1])
    ensures TrimRight(s + after) == s
  {
    if after == "" {
      assert s + after == s;
    } else {
      var front := after[..|after| - 1];
      assert after[|after| - 1] in after && forall c :: c in front ==> c in after;
      assert (s + after)[..|s + after| - 1] == s + front;
      RightTrimmed(s, front);
    }
  }

  predicate Spaces(s: string) { forall c <- s :: c == ' ' }

  lemma RunOf(blanks: string, next: Re, s: string)
    requires Spaces(blanks) && (s == "" || !IsSpace(s[0])) && Match(next, s).Some?
    ensures Match(Run(Space, Star, next), blanks + s) == Match(next, s)
  {
    hide Longest;
    LongestStops(Space, blanks, s);
    assert (blanks + s)[|blanks|..] == s;
  }

  /** Nothing is read into the value when there is no '='. */
  lemma NameAlone(name: string)
    requires name != "" && All(NonSpace, name) && '=' !in name
    ensures Match(KEY_VALUE, name) == Some(Cons(name, Cons("", Nil)))
  {
    NothingLeft();
    hide Match;
    assert forall c <- name :: c != '=' && !IsSpace(c);
    assert name[0] in name && name + "" == name;
    CapStep(Except("= "), Plus, Opt(VALUE_PART, End), name, "");
    NoRun(Cap(Except("= "), Plus, Opt(VALUE_PART, End)), name);
  }

  lemma NothingLeft()
    ensures Match(Opt(VALUE_PART, End), "") == Some(Cons("", Nil))
  {
    ValueThen();
    assert Match(Then(VALUE_PART, End), "") == None;
  }

  /** Spaces around '=' do not matter. */
  lemma SpacedPair(name: string, before: string, after: string, value: string)
    requires name != "" && All(NonSpace, name) && '=' !in name && value != "" && All(NonSpace, value)
    requires Spaces(before) && Spaces(after)
    ensures Match(KEY_VALUE, name + before + "=" + after + value) == Some(Cons(name, Cons(value, Nil)))
  {
    hide Match;
    var cap := Cap(Except(" "), Plus, End);
    var assign := Lit("=", Run(Space, Star, cap));
    assert value[0] in value && value + "" == value && name[0] in name;
    EndMatchesNothing();
    CapStep(Except(" "), Plus, End, value, "");
    RunOf(after, cap, value);
    LitStep("=", Run(Space, Star, cap), after + value);
    var rest := "=" + (after + value);
    RunOf(before, assign, rest);
    ValueThen();
    OptTaken(VALUE_PART, End, before + rest);
    assert forall c <- name :: c != '=' && !IsSpace(c);
    var all := name + (before + rest);
    assert before + rest != "" && ((before + rest)[0] == ' ' || (before + rest)[0] == '=') by {
      assert before != "" ==> before[0] in before;
    }
    CapStep(Except("= "), Plus, Opt(VALUE_PART, End), name, before + rest);
    NoRun(Cap(Except("= "), Plus, Opt(VALUE_PART, End)), all);
    assert all == name + before + "=" + after + value;
  }

  /** A parameter with blanks around it and around '=' is put under its name. */
  lemma SpacedParam(ps: seq<Param>, first: string, name: string, before: string, after: string, value: string, last: string,
                    isFloat: string -> bool)
    requires name != "" && All(NonSpace, name) && '=' !in name && value != "" && All(NonSpace, value)
    requires Spaces(before) && Spaces(after) && SourceReading.Blank(first) && SourceReading.Blank(last)
    ensures Step(ps, first + (name + before + "=" + after + value) + last, isFloat)
         == Put(ps, name, ToType(value, TypeOf(name, value, isFloat)))
  {
    hide Match, Put, ToType, Trim;
    var token := name + before + "=" + after + value;
    assert name[0] in name && value[|value| - 1] in value;
    assert token[0] == name[0] && token[|token| - 1] == value[|value| - 1];
    TrimMeans(first, token, last);
    SpacedPair(name, before, after, value);
  }

  /** A name without a value has an empty one. */
  lemma BareParam(ps: seq<Param>, first: string, name: string, last: string, isFloat: string -> bool)
    requires name != "" && All(NonSpace, name) && '=' !in name && SourceReading.Blank(first) && SourceReading.Blank(last)
    ensures Step(ps, first + name + last, isFloat) == Put(ps, name, ToType("", TypeOf(name, "", isFloat)))
  {
    hide Match, Put, ToType, Trim;
    assert name[0] in name && name[|name| - 1] in name;
    TrimMeans(first, name, last);
    NameAlone(name);
  }

  /** Nothing between two semicolons adds nothing. */
  lemma BlankParam(ps: seq<Param>, blanks: string, isFloat: string -> bool)
    requires SourceReading.Blank(blanks)
    ensures Step(ps, blanks, isFloat) == ps
  {
    hide Insert, Trim;
    TrimMeans(blanks, "", "");
    assert blanks + "" + "" == blanks;
  }

  /** Texts and numbers are written as they are, and nothing is written for any other value. */
  lemma ValueTextMeans(v: Json)
    ensures v.Str? ==> ValueText(v) == v.s
    ensures v.Num? && v.n >= 0 ==> ValueText(v) == Dec(v.n)
    ensures v.Num? && v.n < 0 ==> ValueText(v) == "-" + Dec(-v.n)
    ensures v.Float? ==> ValueText(v) == v.lexeme
    ensures v.Null? || v.Bool? || v.Arr? || v.Obj? ==> ValueText(v) == ""
  {
    hide Dec;
  }

  /** A sign may stand before the digits of a number. */
  lemma SignedNumber(sign: string, digits: string, lo: int, hi: int)
    requires (sign == "" || sign == "+" || sign == "-") && SourceReading.Digits(digits)
    ensures All(Digit, digits)
    ensures var v: int := if sign == "-" then 0 - DigitsValue(digits) else DigitsValue(digits);
            ReadInt(sign + digits, lo, hi) == if lo <= v <= hi then Some(v) else None
  {
    hide DigitsValue;
    var s := sign + digits;
    assert digits[0] in digits && s[0] == if sign == "" then digits[0] else sign[0];
    assert sign != "" ==> s[1..] == digits;
    assert sign == "" ==> s == digits;
  }

  /** Nothing else is a number: digits have to follow the sign, up to the end. */
  lemma NoNumber(s: string, lo: int, hi: int)
    ensures ReadInt(s, lo, hi).Some? ==>
              exists sign, digits :: (sign == "" || sign == "+" || sign == "-") && SourceReading.Digits(digits) && s == sign + digits
  {
    hide DigitsValue;
    if ReadInt(s, lo, hi).Some? {
      var signed := s[0] == '-' || s[0] == '+';
      var digits := if signed then s[1..] else s;
      var sign := if signed then [s[0]] else "";
      assert s == sign + digits && SourceReading.Digits(digits);
    }
  }
}
