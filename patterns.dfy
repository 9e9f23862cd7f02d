/**
 * The three fixed annotation patterns of main.py, each applied with
 * `re.match` (anchored at the start of the text, not at its end) and
 * `re.IGNORECASE`, written out as scanners that consume a prefix of the
 * text and hand on what remains. Every token class these patterns use is
 * disjoint from the token that follows it, so greedy scanning finds
 * exactly the match Python's backtracking engine finds.
 */
module Patterns {
  import opened Wrappers
  import opened PyText

  /** What a range declaration yields: slides `start`..`end` share `minutes`. */
  datatype RangeDecl = RangeDecl(start: nat, end: nat, minutes: nat)

  /** A run of digits that was consumed, and the text after it. */
  datatype Token = Token(text: string, rest: string)

  /** Lower case for the letters the three patterns spell (ASCII, and `Ó`). */
  function Lower(c: char): char {
    if 'A' <= c <= 'Z' then (c as int + 32) as char else if c == 'Ó' then 'ó' else c
  }

  /** The text character `c` matches the pattern character `p` under `re.IGNORECASE`. */
  predicate SameIgnoringCase(c: char, p: char) {
    Lower(c) == Lower(p)
  }

  /** `s` begins with `lit`, character by character, ignoring case. */
  predicate StartsWithIgnoringCase(s: string, lit: string)
    decreases |lit|
  {
    |lit| <= |s| && (lit == [] || (SameIgnoringCase(s[0], lit[0]) && StartsWithIgnoringCase(s[1..], lit[1..])))
  }

  /** Beginning with a literal means agreeing with it at each of its positions. */
  lemma {:induction false} StartsWithIgnoringCaseSpec(s: string, lit: string)
    ensures StartsWithIgnoringCase(s, lit) <==> |lit| <= |s| && forall k :: 0 <= k < |lit| ==> SameIgnoringCase(s[k], lit[k])
    decreases |lit|
  {
    if lit != [] && |lit| <= |s| {
      StartsWithIgnoringCaseSpec(s[1..], lit[1..]);
      assert forall k :: 1 <= k < |lit| ==> s[k] == s[1..][k - 1] && lit[k] == lit[1..][k - 1];
    }
  }

  /** A literal, ignoring case; the text after it. */
  function Literal(s: string, lit: string): (r: Option<string>)
    ensures r.Some? <==> StartsWithIgnoringCase(s, lit)
    ensures r.Some? ==> r.value == s[|lit|..]
  {
    if StartsWithIgnoringCase(s, lit) then Some(s[|lit|..]) else None
  }

  /** `\s+`: at least one whitespace character, and all that follow. */
  function Spaces1(s: string): (r: Option<string>)
    ensures r.Some? <==> s != [] && IsSpace(s[0])
    ensures r.Some? ==> r.value == LStripSpaces(s)
  {
    var r := LStripSpaces(s);
    if |r| < |s| then Some(r) else None
  }

  /** `\d*`: the longest prefix of digits. */
  function LeadingDigits(s: string): (d: string)
    ensures |d| <= |s| && d == s[..|d|] && AllDigits(d)
    ensures |d| == |s| || !IsDigit(s[|d|])
  {
    if s != [] && IsDigit(s[0]) then
      var d := LeadingDigits(s[1..]);
      assert s[1..][..|d|] == s[1..|d| + 1];
      [s[0]] + d
    else []
  }

  /** `\d+` */
  function Digits1(s: string): (r: Option<Token>)
    ensures r.Some? <==> s != [] && IsDigit(s[0])
    ensures r.Some? ==> r.value.text == LeadingDigits(s) && s == r.value.text + r.value.rest
  {
    var d := LeadingDigits(s);
    if d != [] then Some(Token(d, s[|d|..])) else None
  }

  predicate IsDash(c: char) { c == '–' || c == '—' || c == '-' }

  /** `[–—-]` */
  function Dash(s: string): (r: Option<string>)
    ensures r.Some? <==> s != [] && IsDash(s[0])
  {
    if s != [] && IsDash(s[0]) then Some(s[1..]) else None
  }

  /** A number that was read, and the text after what was consumed. */
  datatype Read = Read(value: nat, rest: string)

  /**
   * RANGE_PATTERN (main.py:50):
   * `Diapositivas\s+<start>\s*[–—-]\s*<end>\s+Para esta lección,\s*planifique aproximadamente:\s*<minutes>\s+minutos`,
   * read in four stages.
   */
  function MatchRange(t: string): (r: Option<RangeDecl>)
    ensures r.Some? ==> StartsWithIgnoringCase(t, "Diapositivas")
  {
    var start :- ScanStart(t);
    var end :- ScanEnd(start.rest);
    var beforeMinutes :- ScanPara(end.rest);
    var minutes :- ScanMinutes(beforeMinutes);
    Some(RangeDecl(start.value, end.value, minutes))
  }

  /** `Diapositivas\s+<start>` */
  function ScanStart(t: string): (r: Option<Read>)
    ensures r.Some? ==> StartsWithIgnoringCase(t, "Diapositivas")
  {
    var afterWord :- Literal(t, "Diapositivas");
    var beforeStart :- Spaces1(afterWord);
    var start :- Digits1(beforeStart);
    Some(Read(DigitsValue(start.text), start.rest))
  }

  /** `\s*[–—-]\s*<end>\s+` */
  function ScanEnd(s: string): Option<Read> {
    var afterDash :- Dash(LStripSpaces(s));
    var end :- Digits1(LStripSpaces(afterDash));
    var beforePara :- Spaces1(end.rest);
    Some(Read(DigitsValue(end.text), beforePara))
  }

  /** `Para esta lección,\s*planifique aproximadamente:\s*` */
  function ScanPara(s: string): Option<string> {
    var afterPara :- Literal(s, "Para esta lección,");
    var afterPlan :- Literal(LStripSpaces(afterPara), "planifique aproximadamente:");
    Some(LStripSpaces(afterPlan))
  }

  /** `<minutes>\s+minutos` */
  function ScanMinutes(s: string): Option<nat> {
    var minutes :- Digits1(s);
    var beforeUnit :- Spaces1(minutes.rest);
    var _ :- Literal(beforeUnit, "minutos");
    Some(DigitsValue(minutes.text))
  }

  /**
   * SPEAKER_NOTES_PATTERN (main.py:51) as far as group 3, the number:
   * `(tiempo sugerido|suggested time)\s*[:\-]?\s*(\d+(?:\.\d+)?)`.
   * Everything after group 3 is optional, so it never decides whether the
   * pattern matches nor what group 3 holds. The result is group 3's text.
   */
  function MatchSuggested(t: string): (r: Option<string>)
    ensures r.Some? ==> StartsWithIgnoringCase(t, "tiempo sugerido") || StartsWithIgnoringCase(t, "suggested time")
    ensures r.Some? ==> r.value != [] && IsDigit(r.value[0])
  {
    var afterPhrase :- if StartsWithIgnoringCase(t, "tiempo sugerido") then Literal(t, "tiempo sugerido")
                       else Literal(t, "suggested time");
    SuggestedNumber(afterPhrase)
  }

  /** `\s*[:\-]?`, then the number. */
  function SuggestedNumber(s: string): (r: Option<string>)
    ensures r.Some? ==> r.value != [] && IsDigit(r.value[0])
  {
    var t := LStripSpaces(s);
    SuggestedDigits(if t != [] && (t[0] == ':' || t[0] == '-') then t[1..] else t)
  }

  /** `\s*(\d+(?:\.\d+)?)`: the text of the number. */
  function SuggestedDigits(s: string): (r: Option<string>)
    ensures r.Some? ==> r.value != [] && IsDigit(r.value[0])
  {
    var whole :- Digits1(LStripSpaces(s));
    Some(NumberText(whole))
  }

  /** The whole part, and `.` with the fraction when a digit follows the point. */
  function NumberText(whole: Token): string {
    var r := whole.rest;
    if |r| > 1 && r[0] == '.' && IsDigit(r[1]) then whole.text + "." + LeadingDigits(r[1..]) else whole.text
  }

  /** The index of the first line break, or the length: how far `.*` can reach. */
  function LineEnd(t: string): (e: nat)
    ensures e <= |t| && (e == |t| || t[e] == '\n')
  {
    if t == [] || t[0] == '\n' then 0 else 1 + LineEnd(t[1..])
  }

  /** There is no line break before the end of the first line. */
  lemma {:induction false} LineEndFirst(t: string)
    ensures forall k :: 0 <= k < LineEnd(t) ==> t[k] != '\n'
  {
    if t != [] && t[0] != '\n' {
      LineEndFirst(t[1..]);
      assert forall k :: 1 <= k < LineEnd(t) ==> t[k] == t[1..][k - 1];
    }
  }

  /** `para\s+diapositivas\b` at the start of `s`. */
  predicate ParaDiapositivas(s: string)
    ensures ParaDiapositivas(s) ==> |"para diapositivas"| <= |s|
  {
    match Literal(s, "para")
    case None => false
    case Some(afterPara) =>
      match Spaces1(afterPara)
      case None => false
      case Some(beforeWord) =>
        match Literal(beforeWord, "diapositivas")
        case None => false
        case Some(rest) => rest == [] || !IsWordChar(rest[0])
  }

  /** `\bpara\s+diapositivas\b` at position `p` of `t`. */
  predicate GuardAt(t: string, p: nat)
    requires p <= |t|
  {
    (p == 0 || !IsWordChar(t[p - 1])) && ParaDiapositivas(t[p..])
  }

  /**
   * UNWANTED_PATTERN (main.py:52): `.*\bpara\s+diapositivas\b[\s\S]*`.
   * `.` stops at a line break, so "para" must start on the first line; the
   * whitespace after it may span lines, and `[\s\S]*` accepts any rest.
   * The guard is tried at each position of the first line in turn.
   */
  predicate Unwanted(t: string)
    ensures Unwanted(t) ==> |"para diapositivas"| <= |t|
  {
    GuardFrom(t, 0)
  }

  /** The guard matches at some position from `q` to the end of the first line. */
  predicate GuardFrom(t: string, q: nat)
    ensures GuardFrom(t, q) ==> q + |"para diapositivas"| <= |t|
    decreases |t| - q
  {
    q <= LineEnd(t) && (GuardAt(t, q) || GuardFrom(t, q + 1))
  }

  /** The scan finds the guard iff it occurs somewhere on the first line. */
  lemma UnwantedSpec(t: string)
    ensures Unwanted(t) <==> exists p :: 0 <= p <= LineEnd(t) && GuardAt(t, p)
  {
    GuardFromSpec(t, 0);
  }

  lemma {:induction false} GuardFromSpec(t: string, q: nat)
    ensures GuardFrom(t, q) <==> exists p :: q <= p <= LineEnd(t) && GuardAt(t, p)
    decreases |t| - q
  {
    if q <= LineEnd(t) {
      GuardFromSpec(t, q + 1);
      if !GuardAt(t, q) && !GuardFrom(t, q + 1) {
        forall p | q <= p <= LineEnd(t) ensures !GuardAt(t, p) {
          if p > q {
            assert !(q + 1 <= p <= LineEnd(t) && GuardAt(t, p));
          }
        }
      }
    }
  }

  // ----- Scanning text written as the patterns expect -----

  /** `w` spells `lit` letter for letter, in any case. */
  predicate Spelled(w: string, lit: string) {
    |w| == |lit| && StartsWithIgnoringCase(w, lit)
  }

  /** A run of whitespace, as `\s*` consumes it. */
  predicate Blank(w: string) {
    forall i :: 0 <= i < |w| ==> IsSpace(w[i])
  }

  lemma {:induction false} SpelledSelf(lit: string)
    ensures Spelled(lit, lit)
    decreases |lit|
  {
    if lit != [] {
      SpelledSelf(lit[1..]);
    }
  }

  /** What follows a prefix does not change whether the prefix spells the literal. */
  lemma {:induction false} StartsWithAppend(s: string, lit: string, u: string)
    requires StartsWithIgnoringCase(s, lit)
    ensures StartsWithIgnoringCase(s + u, lit)
    decreases |lit|
  {
    if lit != [] {
      assert (s + u)[1..] == s[1..] + u;
      StartsWithAppend(s[1..], lit[1..], u);
    }
  }

  /** A word spelled as the literal, in any case, is consumed by it. */
  lemma LiteralOf(w: string, lit: string, rest: string)
    requires Spelled(w, lit)
    ensures Literal(w + rest, lit) == Some(rest)
  {
    StartsWithAppend(w, lit, rest);
    assert (w + rest)[|lit|..] == rest;
  }

  /** A word spelled as a literal that begins with a letter begins with that letter, so not with whitespace. */
  lemma SpelledHead(w: string, lit: string, rest: string)
    requires Spelled(w, lit) && lit != [] && 'a' <= Lower(lit[0]) <= 'z'
    ensures w != [] && (w + rest)[0] == w[0] && Lower(w[0]) == Lower(lit[0]) && !IsSpace(w[0])
  {
  }

  lemma NothingToStrip(s: string)
    requires s == [] || !IsSpace(s[0])
    ensures LStripSpaces(s) == s
  {
  }

  /** `lstrip` removes a whole run of whitespace and stops at what follows it. */
  lemma {:induction false} StripBlank(w: string, rest: string)
    requires Blank(w) && (rest == [] || !IsSpace(rest[0]))
    ensures LStripSpaces(w + rest) == rest
    decreases |w|
  {
    if w == [] {
      assert w + rest == rest;
      NothingToStrip(rest);
    } else {
      assert (w + rest)[0] == w[0];
      assert (w + rest)[1..] == w[1..] + rest;
      assert Blank(w[1..]) by {
        forall i | 0 <= i < |w[1..]| ensures IsSpace(w[1..][i]) {
          assert w[1..][i] == w[i + 1];
        }
      }
      StripBlank(w[1..], rest);
    }
  }

  /** `\s+` over a non-empty run of whitespace. */
  lemma SpacesOf(w: string, rest: string)
    requires Blank(w) && w != [] && (rest == [] || !IsSpace(rest[0]))
    ensures Spaces1(w + rest) == Some(rest)
  {
    StripBlank(w, rest);
    assert (w + rest)[0] == w[0];
  }

  /** Two runs of whitespace make one. */
  lemma BlankAppend(a: string, b: string)
    requires Blank(a) && Blank(b)
    ensures Blank(a + b)
  {
    forall i | 0 <= i < |a + b| ensures IsSpace((a + b)[i]) {
      if i >= |a| {
        assert (a + b)[i] == b[i - |a|];
      }
    }
  }

  lemma {:induction false} LeadingDigitsOf(w: string, rest: string)
    requires AllDigits(w)
    requires rest == [] || !IsDigit(rest[0])
    ensures LeadingDigits(w + rest) == w
  {
    if w != [] {
      assert (w + rest)[1..] == w[1..] + rest;
      LeadingDigitsOf(w[1..], rest);
    }
  }

  /** A number written in digits, with no digit after it, is consumed whole. */
  lemma DigitsOf(w: string, rest: string)
    requires |w| > 0 && AllDigits(w)
    requires rest == [] || !IsDigit(rest[0])
    ensures Digits1(w + rest) == Some(Token(w, rest))
  {
    LeadingDigitsOf(w, rest);
    assert (w + rest)[|w|..] == rest;
  }

  /** A run of digits: the shape of `str(n)` for a natural number. */
  predicate Numeral(w: string) {
    |w| > 0 && AllDigits(w)
  }

  /**
   * How a range declaration is written: each word in any case, the
   * whitespace between its parts, and its dash.
   */
  datatype RangeForm = RangeForm(
    word: string, gap1: string, gap2: string, dash: char, gap3: string, gap4: string,
    para: string, gap5: string, plan: string, gap6: string, gap7: string, unit: string)

  /** What RANGE_PATTERN allows: `\s+` runs are non-empty, `\s*` runs may be empty. */
  predicate RangeFormOk(f: RangeForm) {
    && Spelled(f.word, "Diapositivas") && Blank(f.gap1) && f.gap1 != []
    && Blank(f.gap2) && IsDash(f.dash) && Blank(f.gap3) && Blank(f.gap4) && f.gap4 != []
    && Spelled(f.para, "Para esta lección,") && Blank(f.gap5)
    && Spelled(f.plan, "planifique aproximadamente:") && Blank(f.gap6)
    && Blank(f.gap7) && f.gap7 != [] && Spelled(f.unit, "minutos")
  }

  /** A range declaration written in form `f`, followed by `rest` (nested to the right). */
  function RangeLine(f: RangeForm, start: string, end: string, minutes: string, rest: string): string {
    f.word + (f.gap1 + (start + (f.gap2 + ([f.dash] + (f.gap3 + (end + (f.gap4
    + (f.para + (f.gap5 + (f.plan + (f.gap6 + (minutes + (f.gap7 + (f.unit + rest))))))))))))))
  }

  /** The wording the deck's authors use: single spaces, a hyphen. */
  lemma PlainRangeForm()
    ensures RangeFormOk(RangeForm("Diapositivas", " ", " ", '-', " ", " ", "Para esta lección,", " ",
                                  "planifique aproximadamente:", " ", " ", "minutos"))
  {
    SpelledSelf("Diapositivas");
    SpelledSelf("Para esta lección,");
    SpelledSelf("planifique aproximadamente:");
    SpelledSelf("minutos");
  }

  lemma StartOf(word: string, gap: string, w: string, rest: string)
    requires Spelled(word, "Diapositivas") && Blank(gap) && gap != [] && Numeral(w)
    requires rest == [] || !IsDigit(rest[0])
    ensures ScanStart(word + (gap + (w + rest))) == Some(Read(DigitsValue(w), rest))
  {
    LiteralOf(word, "Diapositivas", gap + (w + rest));
    GapThenNumber(gap, w, rest);
    StartSteps(word + (gap + (w + rest)), gap + (w + rest), w, rest);
  }

  /** Whitespace, then a number: `\s+` and `(\d+)` read them in turn. */
  lemma GapThenNumber(gap: string, w: string, rest: string)
    requires Blank(gap) && gap != [] && Numeral(w)
    requires rest == [] || !IsDigit(rest[0])
    ensures Spaces1(gap + (w + rest)) == Some(w + rest) && Digits1(w + rest) == Some(Token(w, rest))
  {
    assert (w + rest)[0] == w[0] && IsDigit(w[0]);
    SpacesOf(gap, w + rest);
    DigitsOf(w, rest);
  }

  /** The three steps of `ScanStart`, each leaving the text the next one reads. */
  lemma StartSteps(t: string, afterWord: string, w: string, rest: string)
    requires Literal(t, "Diapositivas") == Some(afterWord) && Spaces1(afterWord) == Some(w + rest)
    requires Digits1(w + rest) == Some(Token(w, rest))
    ensures ScanStart(t) == Some(Read(DigitsValue(w), rest))
  {
  }

  lemma EndOf(gap2: string, dash: char, gap3: string, w: string, gap4: string, rest: string)
    requires Blank(gap2) && IsDash(dash) && Blank(gap3) && Numeral(w) && Blank(gap4) && gap4 != []
    requires rest == [] || !IsSpace(rest[0])
    ensures ScanEnd(gap2 + ([dash] + (gap3 + (w + (gap4 + rest))))) == Some(Read(DigitsValue(w), rest))
  {
    var u := gap3 + (w + (gap4 + rest));
    DashOf(gap2, dash, u);
    NumberThenGap(gap3, w, gap4, rest);
    EndSteps(gap2 + ([dash] + u), u, Token(w, gap4 + rest), rest);
  }

  /** Whitespace, then the dash: `\s*[–—-]` reads them. */
  lemma DashOf(gap: string, dash: char, u: string)
    requires Blank(gap) && IsDash(dash)
    ensures Dash(LStripSpaces(gap + ([dash] + u))) == Some(u)
  {
    assert ([dash] + u)[0] == dash && ([dash] + u)[1..] == u;
    StripBlank(gap, [dash] + u);
  }

  /** Whitespace, a number, then whitespace again: `\s*(\d+)\s+` reads them. */
  lemma NumberThenGap(gap3: string, w: string, gap4: string, rest: string)
    requires Blank(gap3) && Numeral(w) && Blank(gap4) && gap4 != []
    requires rest == [] || !IsSpace(rest[0])
    ensures Digits1(LStripSpaces(gap3 + (w + (gap4 + rest)))) == Some(Token(w, gap4 + rest))
    ensures Spaces1(gap4 + rest) == Some(rest)
  {
    assert (w + (gap4 + rest))[0] == w[0] && IsDigit(w[0]);
    StripBlank(gap3, w + (gap4 + rest));
    assert (gap4 + rest)[0] == gap4[0];
    DigitsOf(w, gap4 + rest);
    SpacesOf(gap4, rest);
  }

  /** The three steps of `ScanEnd`, each leaving the text the next one reads. */
  lemma EndSteps(s: string, afterDash: string, end: Token, rest: string)
    requires Dash(LStripSpaces(s)) == Some(afterDash) && Digits1(LStripSpaces(afterDash)) == Some(end)
    requires Spaces1(end.rest) == Some(rest)
    ensures ScanEnd(s) == Some(Read(DigitsValue(end.text), rest))
  {
  }

  lemma ParaOf(para: string, gap5: string, plan: string, gap6: string, rest: string)
    requires Spelled(para, "Para esta lección,") && Blank(gap5)
    requires Spelled(plan, "planifique aproximadamente:") && Blank(gap6)
    requires rest == [] || !IsSpace(rest[0])
    ensures ScanPara(para + (gap5 + (plan + (gap6 + rest)))) == Some(rest)
  {
    LiteralOf(para, "Para esta lección,", gap5 + (plan + (gap6 + rest)));
    SpelledHead(plan, "planifique aproximadamente:", gap6 + rest);
    StripBlank(gap5, plan + (gap6 + rest));
    LiteralOf(plan, "planifique aproximadamente:", gap6 + rest);
    StripBlank(gap6, rest);
  }

  lemma MinutesOf(w: string, gap7: string, unit: string, rest: string)
    requires Numeral(w) && Blank(gap7) && gap7 != [] && Spelled(unit, "minutos")
    ensures ScanMinutes(w + (gap7 + (unit + rest))) == Some(DigitsValue(w))
  {
    assert (gap7 + (unit + rest))[0] == gap7[0];
    DigitsOf(w, gap7 + (unit + rest));
    SpelledHead(unit, "minutos", rest);
    SpacesOf(gap7, unit + rest);
    LiteralOf(unit, "minutos", rest);
  }

  /** Any allowed wording, any numerals, and anything after: the declaration is read back as their values. */
  lemma RangeRoundTrip(f: RangeForm, S: string, E: string, M: string, rest: string)
    requires RangeFormOk(f) && Numeral(S) && Numeral(E) && Numeral(M)
    ensures MatchRange(RangeLine(f, S, E, M, rest))
            == Some(RangeDecl(DigitsValue(S), DigitsValue(E), DigitsValue(M)))
  {
    var u3 := M + (f.gap7 + (f.unit + rest));
    var u2 := f.para + (f.gap5 + (f.plan + (f.gap6 + u3)));
    var u1 := f.gap2 + ([f.dash] + (f.gap3 + (E + (f.gap4 + u2))));
    DashAhead(f.gap2, f.dash, f.gap3 + (E + (f.gap4 + u2)));
    StartOf(f.word, f.gap1, S, u1);
    EndPart(f, E, u3);
    ParaPart(f.para, f.gap5, f.plan, f.gap6, M, f.gap7, f.unit, rest);
    ScansCompose(RangeLine(f, S, E, M, rest), u1, u2, u3, DigitsValue(S), DigitsValue(E), DigitsValue(M));
  }

  /** What follows the start number begins with whitespace or the dash, so not with a digit. */
  lemma DashAhead(gap: string, dash: char, u: string)
    requires Blank(gap) && IsDash(dash)
    ensures var v := gap + ([dash] + u); v != [] && !IsDigit(v[0])
  {
    var v := gap + ([dash] + u);
    assert v[0] == if gap != [] then gap[0] else dash;
  }

  /** After the start number: the gap, the dash, the end number, and the whitespace before `Para`. */
  lemma EndPart(f: RangeForm, E: string, u3: string)
    requires RangeFormOk(f) && Numeral(E)
    ensures var u2 := f.para + (f.gap5 + (f.plan + (f.gap6 + u3)));
            ScanEnd(f.gap2 + ([f.dash] + (f.gap3 + (E + (f.gap4 + u2))))) == Some(Read(DigitsValue(E), u2))
  {
    var u2 := f.para + (f.gap5 + (f.plan + (f.gap6 + u3)));
    SpelledHead(f.para, "Para esta lección,", f.gap5 + (f.plan + (f.gap6 + u3)));
    EndOf(f.gap2, f.dash, f.gap3, E, f.gap4, u2);
  }

  /** The fixed wording, then the minutes and `minutos`. */
  lemma ParaPart(para: string, gap5: string, plan: string, gap6: string, M: string, gap7: string, unit: string, rest: string)
    requires Spelled(para, "Para esta lección,") && Blank(gap5)
    requires Spelled(plan, "planifique aproximadamente:") && Blank(gap6)
    requires Numeral(M) && Blank(gap7) && gap7 != [] && Spelled(unit, "minutos")
    ensures var u3 := M + (gap7 + (unit + rest));
            && ScanPara(para + (gap5 + (plan + (gap6 + u3)))) == Some(u3)
            && ScanMinutes(u3) == Some(DigitsValue(M))
  {
    var u3 := M + (gap7 + (unit + rest));
    assert u3[0] == M[0];
    ParaOf(para, gap5, plan, gap6, u3);
    MinutesOf(M, gap7, unit, rest);
  }

  /** The four scans of `MatchRange`, each leaving the text the next one reads. */
  lemma ScansCompose(t: string, u1: string, u2: string, u3: string, start: nat, end: nat, minutes: nat)
    requires ScanStart(t) == Some(Read(start, u1)) && ScanEnd(u1) == Some(Read(end, u2))
    requires ScanPara(u2) == Some(u3) && ScanMinutes(u3) == Some(minutes)
    ensures MatchRange(t) == Some(RangeDecl(start, end, minutes))
  {
  }

  /** Text that cannot continue a number: no digit, and no `.` followed by a digit. */
  predicate EndsNumber(rest: string) {
    rest == [] || (!IsDigit(rest[0]) && !(|rest| > 1 && rest[0] == '.' && IsDigit(rest[1])))
  }

  /** How a suggestion is written: the phrase in any case, and the separator with the whitespace around it. */
  datatype NoteForm = NoteForm(phrase: string, gap1: string, sep: string, gap2: string)

  /** What `(tiempo sugerido|suggested time)\s*[:\-]?\s*` allows. */
  predicate NoteFormOk(f: NoteForm) {
    && (Spelled(f.phrase, "tiempo sugerido") || Spelled(f.phrase, "suggested time"))
    && Blank(f.gap1) && (f.sep == "" || f.sep == ":" || f.sep == "-") && Blank(f.gap2)
  }

  /** A suggestion written in form `f`: the number `w`, then `rest`. */
  function SuggestionLine(f: NoteForm, w: string, rest: string): string {
    f.phrase + (f.gap1 + (f.sep + (f.gap2 + (w + rest))))
  }

  /** Either phrase, in any case, leads to the same reading of what follows it. */
  lemma PhraseOf(phrase: string, u: string)
    requires Spelled(phrase, "tiempo sugerido") || Spelled(phrase, "suggested time")
    ensures MatchSuggested(phrase + u) == SuggestedNumber(u)
  {
    if Spelled(phrase, "tiempo sugerido") {
      SpanishPhrase(phrase, u);
    } else {
      EnglishPhrase(phrase, u);
    }
  }

  lemma SpanishPhrase(phrase: string, u: string)
    requires Spelled(phrase, "tiempo sugerido")
    ensures MatchSuggested(phrase + u) == SuggestedNumber(u)
  {
    LiteralOf(phrase, "tiempo sugerido", u);
  }

  lemma EnglishPhrase(phrase: string, u: string)
    requires Spelled(phrase, "suggested time")
    ensures MatchSuggested(phrase + u) == SuggestedNumber(u)
  {
    LiteralOf(phrase, "suggested time", u);
    SpelledHead(phrase, "suggested time", u);
    NotSpanish(phrase + u);
  }

  lemma NotSpanish(t: string)
    requires t != [] && Lower(t[0]) == 's'
    ensures !StartsWithIgnoringCase(t, "tiempo sugerido")
  {
  }

  /** The separator and the whitespace around it are skipped, whichever are present. */
  lemma SeparatorOf(gap1: string, sep: string, gap2: string, u: string)
    requires Blank(gap1) && (sep == "" || sep == ":" || sep == "-") && Blank(gap2)
    requires u != [] && IsDigit(u[0])
    ensures SuggestedNumber(gap1 + (sep + (gap2 + u))) == SuggestedDigits(u)
  {
    if sep == "" {
      NoSeparator(gap1, gap2, u);
    } else {
      WithSeparator(gap1, sep[0], gap2, u);
    }
  }

  lemma NoSeparator(gap1: string, gap2: string, u: string)
    requires Blank(gap1) && Blank(gap2) && u != [] && IsDigit(u[0])
    ensures SuggestedNumber(gap1 + ("" + (gap2 + u))) == SuggestedDigits(u)
  {
    assert gap1 + ("" + (gap2 + u)) == (gap1 + gap2) + u;
    BlankAppend(gap1, gap2);
    StripBlank(gap1 + gap2, u);
    NumberAt((gap1 + gap2) + u, u);
  }

  lemma WithSeparator(gap1: string, sep: char, gap2: string, u: string)
    requires Blank(gap1) && (sep == ':' || sep == '-') && Blank(gap2) && u != [] && IsDigit(u[0])
    ensures SuggestedNumber(gap1 + ([sep] + (gap2 + u))) == SuggestedDigits(u)
  {
    var t := [sep] + (gap2 + u);
    assert t[0] == sep && t[1..] == gap2 + u;
    StripBlank(gap1, t);
    NumberAfterSeparator(gap1 + t, t);
    DigitsAfterBlank(gap2, u);
  }

  /** Whitespace before the number does not change what `SuggestedDigits` reads. */
  lemma DigitsAfterBlank(gap: string, u: string)
    requires Blank(gap) && u != [] && IsDigit(u[0])
    ensures SuggestedDigits(gap + u) == SuggestedDigits(u)
  {
    StripBlank(gap, u);
    NothingToStrip(u);
  }

  /** With nothing but whitespace before it, the number is read where it starts. */
  lemma NumberAt(s: string, u: string)
    requires LStripSpaces(s) == u && u != [] && IsDigit(u[0])
    ensures SuggestedNumber(s) == SuggestedDigits(u)
  {
  }

  /** A `:` or `-` after the whitespace is skipped. */
  lemma NumberAfterSeparator(s: string, t: string)
    requires LStripSpaces(s) == t && t != [] && (t[0] == ':' || t[0] == '-')
    ensures SuggestedNumber(s) == SuggestedDigits(t[1..])
  {
  }

  lemma NumberRoundTrip(w: string, rest: string)
    requires Numeral(w) && EndsNumber(rest)
    ensures SuggestedDigits(w + rest) == Some(w)
  {
    assert (w + rest)[0] == w[0] && IsDigit(w[0]);
    NothingToStrip(w + rest);
    DigitsOf(w, rest);
    assert NumberText(Token(w, rest)) == w;
  }

  /** A whole part, a point and a fraction: group 3 holds all three. */
  lemma FractionRoundTrip(w: string, f: string, rest: string)
    requires Numeral(w) && Numeral(f)
    requires rest == [] || !IsDigit(rest[0])
    ensures SuggestedDigits(w + ("." + (f + rest))) == Some(w + "." + f)
  {
    assert (w + ("." + (f + rest)))[0] == w[0] && IsDigit(w[0]);
    NothingToStrip(w + ("." + (f + rest)));
    DigitsOf(w, "." + (f + rest));
    assert ("." + (f + rest))[1..] == f + rest;
    LeadingDigitsOf(f, rest);
    assert NumberText(Token(w, "." + (f + rest))) == w + "." + f;
  }

  /** Group 3 of a whole-number suggestion is exactly `str(n)`; no unit word is needed. */
  lemma SuggestionRoundTrip(form: NoteForm, n: nat, rest: string)
    requires NoteFormOk(form) && EndsNumber(rest)
    ensures MatchSuggested(SuggestionLine(form, NatString(n), rest)) == Some(NatString(n))
  {
    var W := NatString(n);
    PhraseOf(form.phrase, form.gap1 + (form.sep + (form.gap2 + (W + rest))));
    assert (W + rest)[0] == W[0];
    SeparatorOf(form.gap1, form.sep, form.gap2, W + rest);
    NumberRoundTrip(W, rest);
  }

  /**
   * A suggestion with a decimal part, "Tiempo sugerido: 2.5": the pattern
   * matches, and group 3 is text that `int()` cannot read.
   */
  lemma DecimalSuggestion(form: NoteForm, whole: nat, fraction: nat, rest: string)
    requires NoteFormOk(form)
    requires rest == [] || !IsDigit(rest[0])
    ensures MatchSuggested(SuggestionLine(form, NatString(whole), "." + (NatString(fraction) + rest)))
            == Some(NatString(whole) + "." + NatString(fraction))
    ensures ParseInt(NatString(whole) + "." + NatString(fraction)).Err?
  {
    var W, F := NatString(whole), NatString(fraction);
    var u := W + ("." + (F + rest));
    assert W + "." + (F + rest) == u;
    PhraseOf(form.phrase, form.gap1 + (form.sep + (form.gap2 + u)));
    assert u[0] == W[0];
    SeparatorOf(form.gap1, form.sep, form.gap2, u);
    FractionRoundTrip(W, F, rest);
    ParseIntRejectsPoint(W + "." + F, |W|);
  }

  // ----- The shape of group 3 -----

  /** `\d+(?:\.\d+)?`: a run of digits, or two runs joined by a point. */
  predicate DecimalText(g: string) {
    var w := LeadingDigits(g);
    w != [] && (w == g || (|w| + 1 < |g| && g[|w|] == '.' && AllDigits(g[|w| + 1..])))
  }

  /** What the number scanner keeps always has that shape. */
  lemma SuggestedDigitsShape(s: string)
    ensures SuggestedDigits(s).Some? ==> DecimalText(SuggestedDigits(s).value)
  {
    var t := LStripSpaces(s);
    if t != [] && IsDigit(t[0]) {
      var whole := Digits1(t).value;
      var w, r := whole.text, whole.rest;
      if |r| > 1 && r[0] == '.' && IsDigit(r[1]) {
        var f := LeadingDigits(r[1..]);
        var g := w + "." + f;
        assert g == w + ("." + f);
        LeadingDigitsOf(w, "." + f);
        assert g[|w|] == '.' && g[|w| + 1..] == f;
      } else {
        assert w + [] == w;
        LeadingDigitsOf(w, []);
      }
    }
  }

  /** Group 3 of every match has that shape. */
  lemma MatchSuggestedShape(t: string)
    ensures MatchSuggested(t).Some? ==> DecimalText(MatchSuggested(t).value)
  {
    var after := if StartsWithIgnoringCase(t, "tiempo sugerido") then Literal(t, "tiempo sugerido")
                 else Literal(t, "suggested time");
    if after.Some? {
      var u := LStripSpaces(after.value);
      SuggestedDigitsShape(if u != [] && (u[0] == ':' || u[0] == '-') then u[1..] else u);
    }
  }

  /** `int()` reads group 3 exactly when it has no point, and then reads its digits. */
  lemma ParseIntOfDecimal(g: string)
    requires DecimalText(g)
    ensures ParseInt(g).Err? <==> '.' in g
    ensures '.' !in g ==> ParseInt(g) == Ok(DigitsValue(g))
  {
    var w := LeadingDigits(g);
    if w == g {
      assert forall i | 0 <= i < |g| :: g[i] != '.';
      ParseIntDigits(g);
    } else {
      ParseIntRejectsPoint(g, |w|);
    }
  }

  // ----- The guard -----

  /**
   * "para", whitespace and "diapositivas", in any case, each a whole word,
   * with no line break before them: the guard fires, whatever follows.
   */
  lemma GuardHit(pre: string, para: string, gap: string, word: string, post: string)
    requires forall k :: 0 <= k < |pre| ==> pre[k] != '\n'
    requires pre == [] || !IsWordChar(pre[|pre| - 1])
    requires Spelled(para, "para") && Blank(gap) && gap != [] && Spelled(word, "diapositivas")
    requires post == [] || !IsWordChar(post[0])
    ensures Unwanted(pre + (para + (gap + (word + post))))
  {
    var u := para + (gap + (word + post));
    var t := pre + u;
    assert t[|pre|..] == u;
    LiteralOf(para, "para", gap + (word + post));
    SpelledHead(word, "diapositivas", post);
    SpacesOf(gap, word + post);
    LiteralOf(word, "diapositivas", post);
    assert ParaDiapositivas(u);
    if |pre| > 0 {
      assert t[|pre| - 1] == pre[|pre| - 1];
    }
    LineEndAfter(pre, u);
    assert GuardAt(t, |pre|);
    UnwantedSpec(t);
  }

  /** A first line with no line break in `pre` reaches at least past `pre`. */
  lemma {:induction false} LineEndAfter(pre: string, u: string)
    requires forall k :: 0 <= k < |pre| ==> pre[k] != '\n'
    ensures |pre| <= LineEnd(pre + u)
  {
    if pre != [] {
      assert (pre + u)[0] == pre[0];
      assert (pre + u)[1..] == pre[1..] + u;
      LineEndAfter(pre[1..], u);
    }
  }

  /** Where "pa" never occurs, in any case, the guard cannot fire. */
  lemma GuardMiss(t: string)
    requires forall k :: 0 <= k < |t| - 1 ==> !(Lower(t[k]) == 'p' && Lower(t[k + 1]) == 'a')
    ensures !Unwanted(t)
  {
    UnwantedSpec(t);
    forall p | 0 <= p <= LineEnd(t) ensures !GuardAt(t, p) {
      StartsWithIgnoringCaseSpec(t[p..], "para");
      if p + 1 < |t| {
        assert t[p..][0] == t[p] && t[p..][1] == t[p + 1];
      }
    }
  }

  // ----- The note as the deck's authors write it -----

  /** "Tiempo sugerido: <n>", a speaker note in its plainest form. */
  function PlainSuggestion(n: nat): string {
    "Tiempo sugerido: " + NatString(n)
  }

  /** The plain note matches SPEAKER_NOTES_PATTERN with group 3 the number, and not UNWANTED_PATTERN. */
  lemma PlainSuggestionRead(n: nat)
    ensures MatchSuggested(PlainSuggestion(n)) == Some(NatString(n))
    ensures !Unwanted(PlainSuggestion(n))
  {
    var form := NoteForm("Tiempo sugerido", "", ":", " ");
    CapitalSpelled();
    PlainSuggestionLine(NatString(n));
    SuggestionRoundTrip(form, n, "");
    NoPara(n);
    GuardMiss(PlainSuggestion(n));
  }

  /** The capital T is allowed under `re.IGNORECASE`. */
  lemma CapitalSpelled()
    ensures Spelled("Tiempo sugerido", "tiempo sugerido")
  {
    var tail := "iempo sugerido";
    assert "Tiempo sugerido" == ['T'] + tail && "tiempo sugerido" == ['t'] + tail;
    SpelledSelf(tail);
  }

  /** The plain note is written in the form "Tiempo sugerido", no space, ":", one space. */
  lemma PlainSuggestionLine(w: string)
    ensures "Tiempo sugerido: " + w == SuggestionLine(NoteForm("Tiempo sugerido", "", ":", " "), w, "")
  {
    assert "" + (":" + (" " + (w + ""))) == ": " + w;
    assert "Tiempo sugerido" + (": " + w) == ("Tiempo sugerido" + ": ") + w;
    assert "Tiempo sugerido" + ": " == "Tiempo sugerido: ";
  }

  /** "Tiempo sugerido: " has no `a`, and a number has no letter, so "pa" never occurs. */
  lemma NoPara(n: nat)
    ensures var t := PlainSuggestion(n);
            forall k :: 0 <= k < |t| - 1 ==> !(Lower(t[k]) == 'p' && Lower(t[k + 1]) == 'a')
  {
    var L, W := "Tiempo sugerido: ", NatString(n);
    var t := L + W;
    forall j | 0 <= j < |t| ensures Lower(t[j]) != 'a' {
      if j < |L| {
        assert t[j] == L[j];
      } else {
        assert t[j] == W[j - |L|] && IsDigit(W[j - |L|]);
      }
    }
  }

  // ----- What a match is made of -----

  /** A literal that matched was spelled, in some case, by the text it consumed. */
  lemma LiteralParts(s: string, lit: string) returns (w: string)
    requires Literal(s, lit).Some?
    ensures Spelled(w, lit) && s == w + Literal(s, lit).value
  {
    w := s[..|lit|];
    StartsWithIgnoringCaseSpec(s, lit);
    StartsWithIgnoringCaseSpec(w, lit);
    assert s == w + s[|lit|..];
  }

  /** `lstrip` splits the text into the whitespace it drops and the text it keeps. */
  lemma StripParts(s: string) returns (gap: string)
    ensures Blank(gap) && s == gap + LStripSpaces(s)
  {
    LStripDropsSpaces(s);
    gap := s[..|s| - |LStripSpaces(s)|];
    assert s == gap + s[|s| - |LStripSpaces(s)|..];
  }

  /** `\s+` consumed a non-empty run of whitespace. */
  lemma SpacesParts(s: string) returns (gap: string)
    requires Spaces1(s).Some?
    ensures Blank(gap) && gap != [] && s == gap + Spaces1(s).value
  {
    gap := StripParts(s);
  }

  /** `Diapositivas\s+<start>`, as `ScanStart` read it. */
  lemma StartParts(t: string) returns (word: string, gap1: string, S: string)
    requires ScanStart(t).Some?
    ensures Spelled(word, "Diapositivas") && Blank(gap1) && gap1 != [] && Numeral(S)
    ensures ScanStart(t).value.value == DigitsValue(S)
    ensures t == word + (gap1 + (S + ScanStart(t).value.rest))
  {
    var afterWord := Literal(t, "Diapositivas").value;
    word := LiteralParts(t, "Diapositivas");
    gap1 := SpacesParts(afterWord);
    S := Digits1(Spaces1(afterWord).value).value.text;
  }

  /** `\s*[–—-]\s*<end>\s+`, as `ScanEnd` read it. */
  lemma EndParts(s: string) returns (gap2: string, dash: char, gap3: string, E: string, gap4: string)
    requires ScanEnd(s).Some?
    ensures Blank(gap2) && IsDash(dash) && Blank(gap3) && Numeral(E) && Blank(gap4) && gap4 != []
    ensures ScanEnd(s).value.value == DigitsValue(E)
    ensures s == gap2 + ([dash] + (gap3 + (E + (gap4 + ScanEnd(s).value.rest))))
  {
    var s1 := LStripSpaces(s);
    gap2 := StripParts(s);
    dash := s1[0];
    var afterDash := s1[1..];
    assert s1 == [dash] + afterDash;
    gap3 := StripParts(afterDash);
    var end := Digits1(LStripSpaces(afterDash)).value;
    E := end.text;
    gap4 := SpacesParts(end.rest);
  }

  /** `Para esta lección,\s*planifique aproximadamente:\s*`, as `ScanPara` read it. */
  lemma ParaParts(s: string) returns (para: string, gap5: string, plan: string, gap6: string)
    requires ScanPara(s).Some?
    ensures Spelled(para, "Para esta lección,") && Blank(gap5)
    ensures Spelled(plan, "planifique aproximadamente:") && Blank(gap6)
    ensures s == para + (gap5 + (plan + (gap6 + ScanPara(s).value)))
  {
    var afterPara := Literal(s, "Para esta lección,").value;
    para := LiteralParts(s, "Para esta lección,");
    gap5 := StripParts(afterPara);
    var afterPlan := Literal(LStripSpaces(afterPara), "planifique aproximadamente:").value;
    plan := LiteralParts(LStripSpaces(afterPara), "planifique aproximadamente:");
    gap6 := StripParts(afterPlan);
  }

  /** `<minutes>\s+minutos`, as `ScanMinutes` read it. */
  lemma MinutesParts(s: string) returns (M: string, gap7: string, unit: string, rest: string)
    requires ScanMinutes(s).Some?
    ensures Numeral(M) && Blank(gap7) && gap7 != [] && Spelled(unit, "minutos")
    ensures ScanMinutes(s).value == DigitsValue(M)
    ensures s == M + (gap7 + (unit + rest))
  {
    var minutes := Digits1(s).value;
    M := minutes.text;
    gap7 := SpacesParts(minutes.rest);
    var beforeUnit := Spaces1(minutes.rest).value;
    unit := LiteralParts(beforeUnit, "minutos");
    rest := Literal(beforeUnit, "minutos").value;
  }

  /** The four scans of a match, put back together as one declaration. */
  lemma RangeParts(t: string) returns (f: RangeForm, S: string, E: string, M: string, rest: string)
    requires MatchRange(t).Some?
    ensures RangeFormOk(f) && Numeral(S) && Numeral(E) && Numeral(M) && t == RangeLine(f, S, E, M, rest)
    ensures MatchRange(t).value == RangeDecl(DigitsValue(S), DigitsValue(E), DigitsValue(M))
  {
    var start := ScanStart(t).value;
    var end := ScanEnd(start.rest).value;
    var u3 := ScanPara(end.rest).value;
    var word, gap1;
    word, gap1, S := StartParts(t);
    var gap2, dash, gap3, gap4;
    gap2, dash, gap3, E, gap4 := EndParts(start.rest);
    var para, gap5, plan, gap6 := ParaParts(end.rest);
    var gap7, unit;
    M, gap7, unit, rest := MinutesParts(u3);
    f := RangeForm(word, gap1, gap2, dash, gap3, gap4, para, gap5, plan, gap6, gap7, unit);
  }

  /**
   * RANGE_PATTERN matches exactly the declarations written in an allowed
   * form, and reads each as the values of its three numerals.
   */
  lemma RangeMatches(t: string, d: RangeDecl)
    ensures MatchRange(t) == Some(d) <==>
            exists f, S, E, M, rest :: && RangeFormOk(f) && Numeral(S) && Numeral(E) && Numeral(M)
                                       && t == RangeLine(f, S, E, M, rest)
                                       && d == RangeDecl(DigitsValue(S), DigitsValue(E), DigitsValue(M))
  {
    if MatchRange(t) == Some(d) {
      var f, S, E, M, rest := RangeParts(t);
      assert t == RangeLine(f, S, E, M, rest);
    }
    if exists f, S, E, M, rest :: && RangeFormOk(f) && Numeral(S) && Numeral(E) && Numeral(M)
                                  && t == RangeLine(f, S, E, M, rest)
                                  && d == RangeDecl(DigitsValue(S), DigitsValue(E), DigitsValue(M)) {
      var f, S, E, M, rest :| && RangeFormOk(f) && Numeral(S) && Numeral(E) && Numeral(M)
                              && t == RangeLine(f, S, E, M, rest)
                              && d == RangeDecl(DigitsValue(S), DigitsValue(E), DigitsValue(M));
      RangeRoundTrip(f, S, E, M, rest);
    }
  }

  /** `(tiempo sugerido|suggested time)`, as `MatchSuggested` read it. */
  lemma PhraseParts(t: string) returns (phrase: string, after: string)
    requires MatchSuggested(t).Some?
    ensures Spelled(phrase, "tiempo sugerido") || Spelled(phrase, "suggested time")
    ensures t == phrase + after && MatchSuggested(t) == SuggestedNumber(after)
  {
    if StartsWithIgnoringCase(t, "tiempo sugerido") {
      after := Literal(t, "tiempo sugerido").value;
      phrase := LiteralParts(t, "tiempo sugerido");
    } else {
      after := Literal(t, "suggested time").value;
      phrase := LiteralParts(t, "suggested time");
    }
  }

  /** `\s*[:\-]?\s*` before the number, as `SuggestedNumber` read it. */
  lemma SeparatorParts(s: string) returns (gap1: string, sep: string, gap2: string, u: string)
    requires SuggestedNumber(s).Some?
    ensures Blank(gap1) && (sep == "" || sep == ":" || sep == "-") && Blank(gap2)
    ensures s == gap1 + (sep + (gap2 + u)) && u != [] && IsDigit(u[0])
    ensures SuggestedNumber(s) == SuggestedDigits(u)
  {
    gap1 := StripParts(s);
    var v;
    sep, v := SeparatorSplit(LStripSpaces(s));
    gap2 := StripParts(v);
    u := LStripSpaces(v);
    DigitsStart(v);
  }

  /** `[:\-]?` takes a `:` or a `-` when there is one. */
  lemma SeparatorSplit(t: string) returns (sep: string, v: string)
    ensures (sep == "" || sep == ":" || sep == "-") && t == sep + v
    ensures v == if t != [] && (t[0] == ':' || t[0] == '-') then t[1..] else t
  {
    if t != [] && (t[0] == ':' || t[0] == '-') {
      sep, v := [t[0]], t[1..];
    } else {
      sep, v := "", t;
    }
  }

  /** After the whitespace `SuggestedDigits` skips comes a digit, and reading from it gives the same number. */
  lemma DigitsStart(v: string)
    requires SuggestedDigits(v).Some?
    ensures var u := LStripSpaces(v); u != [] && IsDigit(u[0]) && SuggestedDigits(v) == SuggestedDigits(u)
  {
    NothingToStrip(LStripSpaces(v));
  }

  /**
   * Where group 3 stops: no digit follows it, and when it has no fraction,
   * no `.` followed by a digit does either.
   */
  predicate NumberStops(g: string, rest: string) {
    (rest == [] || !IsDigit(rest[0])) && ('.' in g || EndsNumber(rest))
  }

  /** `(\d+(?:\.\d+)?)` as `SuggestedDigits` read it, from a digit on. */
  lemma NumberParts(u: string) returns (rest: string)
    requires u != [] && IsDigit(u[0])
    ensures SuggestedDigits(u).Some?
    ensures u == SuggestedDigits(u).value + rest && NumberStops(SuggestedDigits(u).value, rest)
  {
    NothingToStrip(u);
    var whole := Digits1(u).value;
    if |whole.rest| > 1 && whole.rest[0] == '.' && IsDigit(whole.rest[1]) {
      rest := FractionParts(whole.text, whole.rest);
    } else {
      WholeParts(u, whole.text, whole.rest);
      rest := whole.rest;
    }
  }

  /** A point and a digit after the whole part: the fraction runs to the next non-digit. */
  lemma FractionParts(w: string, r: string) returns (rest: string)
    requires |r| > 1 && r[0] == '.' && IsDigit(r[1])
    ensures var g := w + "." + LeadingDigits(r[1..]);
            w + r == g + rest && '.' in g && (rest == [] || !IsDigit(rest[0]))
  {
    var f := LeadingDigits(r[1..]);
    rest := r[1..][|f|..];
    assert r == "." + (f + rest);
    assert w + r == (w + "." + f) + rest;
    assert (w + "." + f)[|w|] == '.';
  }

  /** No fraction after the whole part: the number is the digits alone. */
  lemma WholeParts(u: string, w: string, r: string)
    requires w == LeadingDigits(u) && u == w + r
    requires !(|r| > 1 && r[0] == '.' && IsDigit(r[1]))
    ensures NumberStops(w, r)
  {
    if r != [] {
      assert r[0] == u[|w|];
    }
    assert forall i | 0 <= i < |w| :: w[i] != '.';
  }

  /** A number of the shape of group 3 that stops where the pattern stops is read whole. */
  lemma DecimalRoundTrip(g: string, rest: string)
    requires DecimalText(g) && NumberStops(g, rest)
    ensures SuggestedDigits(g + rest) == Some(g)
  {
    var w := LeadingDigits(g);
    if w == g {
      assert forall i | 0 <= i < |g| :: g[i] != '.';
      NumberRoundTrip(g, rest);
    } else {
      var f := g[|w| + 1..];
      assert g == w + ("." + f) == w + "." + f;
      assert g + rest == w + ("." + (f + rest));
      FractionRoundTrip(w, f, rest);
    }
  }

  /** The phrase, the separator and group 3 of a match, put back together as one suggestion. */
  lemma SuggestionParts(t: string) returns (form: NoteForm, rest: string)
    requires MatchSuggested(t).Some?
    ensures NoteFormOk(form) && t == SuggestionLine(form, MatchSuggested(t).value, rest)
    ensures NumberStops(MatchSuggested(t).value, rest)
  {
    var phrase, after := PhraseParts(t);
    var gap1, sep, gap2, u := SeparatorParts(after);
    rest := NumberParts(u);
    form := NoteForm(phrase, gap1, sep, gap2);
  }

  /**
   * SPEAKER_NOTES_PATTERN matches exactly the notes that begin with a
   * suggestion written in an allowed form, and group 3 is that suggestion's
   * number, taken as far as the pattern takes it.
   */
  lemma SuggestionMatches(t: string, g: string)
    ensures MatchSuggested(t) == Some(g) <==>
            DecimalText(g) && exists form, rest :: NoteFormOk(form) && t == SuggestionLine(form, g, rest) && NumberStops(g, rest)
  {
    if MatchSuggested(t) == Some(g) {
      MatchSuggestedShape(t);
      var form, rest := SuggestionParts(t);
      assert t == SuggestionLine(form, g, rest);
    }
    if DecimalText(g) && exists form, rest :: NoteFormOk(form) && t == SuggestionLine(form, g, rest) && NumberStops(g, rest) {
      var form, rest :| NoteFormOk(form) && t == SuggestionLine(form, g, rest) && NumberStops(g, rest);
      PhraseOf(form.phrase, form.gap1 + (form.sep + (form.gap2 + (g + rest))));
      assert (g + rest)[0] == g[0];
      SeparatorOf(form.gap1, form.sep, form.gap2, g + rest);
      DecimalRoundTrip(g, rest);
    }
  }

  /**
   * `t` is `pre`, then "para", whitespace and "diapositivas" in any case,
   * then `post`: no line break in `pre`, and no word character right
   * before "para" or right after "diapositivas".
   */
  predicate GuardLine(t: string, pre: string, para: string, gap: string, word: string, post: string) {
    && t == pre + (para + (gap + (word + post)))
    && (forall k :: 0 <= k < |pre| ==> pre[k] != '\n')
    && (pre == [] || !IsWordChar(pre[|pre| - 1]))
    && Spelled(para, "para") && Blank(gap) && gap != [] && Spelled(word, "diapositivas")
    && (post == [] || !IsWordChar(post[0]))
  }

  /** `para\s+diapositivas\b`, as `ParaDiapositivas` read it. */
  lemma ParaDiapositivasParts(s: string) returns (para: string, gap: string, word: string, post: string)
    requires ParaDiapositivas(s)
    ensures Spelled(para, "para") && Blank(gap) && gap != [] && Spelled(word, "diapositivas")
    ensures (post == [] || !IsWordChar(post[0])) && s == para + (gap + (word + post))
  {
    var afterPara := Literal(s, "para").value;
    para := LiteralParts(s, "para");
    gap := SpacesParts(afterPara);
    var beforeWord := Spaces1(afterPara).value;
    word := LiteralParts(beforeWord, "diapositivas");
    post := Literal(beforeWord, "diapositivas").value;
  }

  /** A position where the guard holds splits the text as `GuardLine` says. */
  lemma GuardAtParts(t: string, p: nat) returns (pre: string, para: string, gap: string, word: string, post: string)
    requires p <= LineEnd(t) && GuardAt(t, p)
    ensures GuardLine(t, pre, para, gap, word, post)
  {
    para, gap, word, post := ParaDiapositivasParts(t[p..]);
    pre := BeforeGuard(t, p);
  }

  /** What `.*\b` consumed before "para": part of the first line, ending at a word boundary. */
  lemma BeforeGuard(t: string, p: nat) returns (pre: string)
    requires p <= LineEnd(t) && (p == 0 || !IsWordChar(t[p - 1]))
    ensures t == pre + t[p..] && (forall k :: 0 <= k < |pre| ==> pre[k] != '\n')
    ensures pre == [] || !IsWordChar(pre[|pre| - 1])
  {
    pre := t[..p];
    LineEndFirst(t);
    assert t == pre + t[p..];
    if p > 0 {
      assert pre[|pre| - 1] == t[p - 1];
    }
  }

  /** UNWANTED_PATTERN matches exactly the texts written that way. */
  lemma UnwantedForm(t: string)
    ensures Unwanted(t) <==> exists pre, para, gap, word, post :: GuardLine(t, pre, para, gap, word, post)
  {
    UnwantedSpec(t);
    if Unwanted(t) {
      var p :| 0 <= p <= LineEnd(t) && GuardAt(t, p);
      var pre, para, gap, word, post := GuardAtParts(t, p);
    }
    if exists pre, para, gap, word, post :: GuardLine(t, pre, para, gap, word, post) {
      var pre, para, gap, word, post :| GuardLine(t, pre, para, gap, word, post);
      GuardHit(pre, para, gap, word, post);
    }
  }
}
