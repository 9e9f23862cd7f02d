/**
 * The Python string and integer primitives the timer engine leans on:
 * `int(...)`, `str(...)`, `str.lstrip("p")`, `str.partition` and
 * `str.split(...)[0]`, and the character classes of Python's `re`.
 */
module PyText {
  import opened Wrappers

  /** The exceptions the engine raises and never catches: each aborts the run. */
  datatype Failure =
    | ValueError(text: string)  // int() of something that is not an integer literal
    | ZeroDivisionError         // a range whose end is one less than its start
    | KeyError(key: string)     // a duration missing from TIMER_VIDEOS, or a missing "objectId"

  predicate IsDigit(c: char) { '0' <= c <= '9' }

  /** Python's `str.isspace`, which is also what `\s` matches. */
  predicate IsSpace(c: char) {
    c == ' ' || '\t' <= c <= '\r' || '\U{1C}' <= c <= '\U{1F}' || c == '\U{85}' || c == '\U{A0}'
    || c == '\U{1680}' || '\U{2000}' <= c <= '\U{200A}' || c == '\U{2028}' || c == '\U{2029}'
    || c == '\U{202F}' || c == '\U{205F}' || c == '\U{3000}'
  }

  /**
   * The whitespace `int()` skips around a numeral. CPython turns every
   * non-ASCII `isspace` character into a space and then skips only the space
   * and `\t` to `\r`, so the ASCII separators U+001C to U+001F stay and make
   * the text unreadable.
   */
  predicate IsIntSpace(c: char) {
    IsSpace(c) && !('\U{1C}' <= c <= '\U{1F}')
  }

  /** A `\w` character: letters, digits and `_` (ASCII and Latin-1 only). */
  predicate IsWordChar(c: char) {
    'a' <= c <= 'z' || 'A' <= c <= 'Z' || IsDigit(c) || c == '_'
    || c == '\U{AA}' || c == '\U{B2}' || c == '\U{B3}' || c == '\U{B5}' || c == '\U{B9}' || c == '\U{BA}'
    || '\U{BC}' <= c <= '\U{BE}' || ('\U{C0}' <= c <= '\U{FF}' && c != '\U{D7}' && c != '\U{F7}')
  }

  predicate AllDigits(s: string) {
    forall i :: 0 <= i < |s| ==> IsDigit(s[i])
  }

  function DigitValue(c: char): (d: nat)
    requires IsDigit(c)
    ensures d < 10
  {
    c as int - '0' as int
  }

  function DigitChar(d: nat): (c: char)
    requires d < 10
    ensures IsDigit(c) && DigitValue(c) == d
  {
    ('0' as int + d) as char
  }

  /** The value of a string of decimal digits, most significant first. */
  function DigitsValue(s: string): nat
    requires AllDigits(s)
  {
    if s == [] then 0 else DigitsValue(s[..|s| - 1]) * 10 + DigitValue(s[|s| - 1])
  }

  /**
   * The digit part `int()` accepts: decimal digits, where one `_` may stand
   * between two digits ("1_000"). Read from the end: a digit, after either
   * grouped digits or grouped digits and a `_`.
   */
  predicate Grouped(s: string)
    decreases |s|
  {
    |s| > 0 && IsDigit(s[|s| - 1])
    && (|s| == 1 || Grouped(s[..|s| - 1]) || (|s| >= 3 && s[|s| - 2] == '_' && Grouped(s[..|s| - 2])))
  }

  /** The value of grouped digits, read the way `Grouped` reads them. */
  function GroupedValue(s: string): nat
    requires Grouped(s)
    decreases |s|
  {
    if |s| == 1 then DigitValue(s[0])
    else if Grouped(s[..|s| - 1]) then GroupedValue(s[..|s| - 1]) * 10 + DigitValue(s[|s| - 1])
    else GroupedValue(s[..|s| - 2]) * 10 + DigitValue(s[|s| - 1])
  }

  /** ... which is the value of its digits once the underscores are dropped. */
  lemma {:induction false} GroupedValueSpec(s: string)
    requires Grouped(s)
    ensures AllDigits(Ungroup(s)) && GroupedValue(s) == DigitsValue(Ungroup(s))
    decreases |s|
  {
    var last := s[|s| - 1];
    var init := s[..|s| - 1];
    assert Ungroup(s) == Ungroup(init) + [last];
    if |s| == 1 {
      assert Ungroup(init) == [];
    } else if Grouped(init) {
      GroupedValueSpec(init);
      DigitsValueSnoc(Ungroup(init), last);
    } else {
      var front := s[..|s| - 2];
      GroupedValueSpec(front);
      assert init[..|init| - 1] == front;
      assert Ungroup(init) == Ungroup(front);
      DigitsValueSnoc(Ungroup(front), last);
    }
  }

  /** One more digit at the end: ten times the value, plus that digit. */
  lemma DigitsValueSnoc(d: string, c: char)
    requires AllDigits(d) && IsDigit(c)
    ensures AllDigits(d + [c]) && DigitsValue(d + [c]) == DigitsValue(d) * 10 + DigitValue(c)
  {
    assert (d + [c])[..|d|] == d;
  }

  /** Grouped digits are digits and underscores, and start with a digit. */
  lemma {:induction false} GroupedChars(s: string)
    requires Grouped(s)
    ensures IsDigit(s[0])
    ensures forall i :: 0 <= i < |s| ==> IsDigit(s[i]) || s[i] == '_'
    decreases |s|
  {
    if |s| > 1 {
      var k := if Grouped(s[..|s| - 1]) then |s| - 1 else |s| - 2;
      var init := s[..k];
      GroupedChars(init);
      assert forall i :: 0 <= i < k ==> s[i] == init[i];
    }
  }

  /** A run of digits is grouped digits (with no underscore at all). */
  lemma {:induction false} DigitsGrouped(s: string)
    requires |s| > 0 && AllDigits(s)
    ensures Grouped(s)
    decreases |s|
  {
    if |s| > 1 {
      var init := s[..|s| - 1];
      assert forall i :: 0 <= i < |init| ==> init[i] == s[i];
      DigitsGrouped(init);
    }
  }

  /** The characters of `s` other than `_`, in order. */
  function Ungroup(s: string): (d: string)
    ensures |d| <= |s|
  {
    if s == [] then [] else Ungroup(s[..|s| - 1]) + (if s[|s| - 1] == '_' then [] else [s[|s| - 1]])
  }

  /** Digits and underscores leave digits. */
  lemma {:induction false} UngroupDigits(s: string)
    requires forall i :: 0 <= i < |s| ==> IsDigit(s[i]) || s[i] == '_'
    ensures AllDigits(Ungroup(s))
  {
    if s != [] {
      var init := s[..|s| - 1];
      assert forall i :: 0 <= i < |init| ==> init[i] == s[i];
      UngroupDigits(init);
    }
  }

  /** Digits alone are left as they are. */
  lemma {:induction false} UngroupPlain(s: string)
    requires AllDigits(s)
    ensures Ungroup(s) == s
  {
    if s != [] {
      var init := s[..|s| - 1];
      assert AllDigits(init) by {
        assert forall i :: 0 <= i < |init| ==> init[i] == s[i];
      }
      UngroupPlain(init);
      assert s == init + [s[|s| - 1]];
    }
  }

  lemma {:induction false} UngroupAppend(a: string, b: string)
    ensures Ungroup(a + b) == Ungroup(a) + Ungroup(b)
    decreases |b|
  {
    if b == [] {
      assert a + b == a;
    } else {
      var init := b[..|b| - 1];
      assert (a + b)[..|a + b| - 1] == a + init;
      UngroupAppend(a, init);
    }
  }

  /** `str(n)` for a non-negative `n`. */
  function NatString(n: nat): (s: string)
    ensures |s| > 0 && AllDigits(s)
  {
    if n < 10 then [DigitChar(n)] else NatString(n / 10) + [DigitChar(n % 10)]
  }

  /** `str(n)`: an optional minus sign and then the digits. */
  function DecimalString(n: int): (s: string)
    ensures |s| > 0
    ensures s[0] == '-' <==> n < 0
  {
    if n < 0 then "-" + NatString(-n) else NatString(n)
  }

  lemma DecimalZero()
    ensures DecimalString(0) == "0"
  {
    assert NatString(0) == [DigitChar(0)];
  }

  lemma {:induction false} NatStringRoundTrip(n: nat)
    ensures DigitsValue(NatString(n)) == n
  {
    if n >= 10 {
      NatStringRoundTrip(n / 10);
      var s := NatString(n);
      assert s[..|s| - 1] == NatString(n / 10);
    }
  }

  /** `t` is what remains of `s` once some leading characters are dropped. */
  predicate IsSuffix(t: string, s: string) {
    |t| <= |s| && t == s[|s| - |t|..]
  }

  /** `str.lstrip()` with no argument. */
  function LStripSpaces(s: string): (t: string)
    ensures |t| <= |s|
    ensures t == [] || !IsSpace(t[0])
  {
    if s != [] && IsSpace(s[0]) then LStripSpaces(s[1..]) else s
  }

  /** `lstrip` keeps a suffix, and what it drops is whitespace. */
  lemma {:induction false} LStripDropsSpaces(s: string)
    ensures IsSuffix(LStripSpaces(s), s)
    ensures forall i :: 0 <= i < |s| - |LStripSpaces(s)| ==> IsSpace(s[i])
  {
    if s != [] && IsSpace(s[0]) {
      LStripDropsSpaces(s[1..]);
    }
  }

  /** The leading whitespace `int()` skips. */
  function LStripIntSpaces(s: string): (t: string)
    ensures |t| <= |s|
    ensures t == [] || !IsIntSpace(t[0])
  {
    if s != [] && IsIntSpace(s[0]) then LStripIntSpaces(s[1..]) else s
  }

  /** What `int()` skips in front is a prefix of its whitespace. */
  lemma {:induction false} LStripDropsIntSpaces(s: string)
    ensures IsSuffix(LStripIntSpaces(s), s)
    ensures forall i :: 0 <= i < |s| - |LStripIntSpaces(s)| ==> IsIntSpace(s[i])
  {
    if s != [] && IsIntSpace(s[0]) {
      LStripDropsIntSpaces(s[1..]);
    }
  }

  /** The trailing whitespace `int()` skips. */
  function RStripIntSpaces(s: string): (t: string)
    ensures t <= s
    ensures t == [] || !IsIntSpace(t[|t| - 1])
  {
    if s != [] && IsIntSpace(s[|s| - 1]) then RStripIntSpaces(s[..|s| - 1]) else s
  }

  /** What `int()` skips at the end is its whitespace. */
  lemma {:induction false} RStripDropsIntSpaces(s: string)
    ensures forall i :: |RStripIntSpaces(s)| <= i < |s| ==> IsIntSpace(s[i])
  {
    if s != [] && IsIntSpace(s[|s| - 1]) {
      RStripDropsIntSpaces(s[..|s| - 1]);
    }
  }

  /**
   * `int(s)` for a string: surrounding whitespace, an optional sign, then
   * decimal digits, single underscores allowed between them; anything else
   * raises ValueError.
   */
  function ParseInt(s: string): (r: Result<int, Failure>)
    ensures r.Err? ==> r.error == ValueError(s)
    ensures r.Ok? && s != [] && IsDigit(s[0]) ==> r.value >= 0
  {
    var t := RStripIntSpaces(LStripIntSpaces(s));
    assert s != [] && IsDigit(s[0]) ==> !IsIntSpace(s[0]) && LStripIntSpaces(s) == s;
    assert s != [] && IsDigit(s[0]) && t != [] ==> t[0] == s[0];
    var signed := |t| > 0 && (t[0] == '-' || t[0] == '+');
    var body := if signed then t[1..] else t;
    if Grouped(body) then
      var magnitude: int := GroupedValue(body);
      Ok(if signed && t[0] == '-' then -magnitude else magnitude)
    else
      Err(ValueError(s))
  }

  /** A bare string of digits parses to its value. */
  lemma ParseIntDigits(s: string)
    requires |s| > 0 && AllDigits(s)
    ensures ParseInt(s) == Ok(DigitsValue(s))
  {
    DigitsGrouped(s);
    UngroupPlain(s);
    ParseIntOfGrouped(s, s);
  }

  lemma ParseIntRoundTrip(n: int)
    ensures ParseInt(DecimalString(n)) == Ok(n)
  {
    var d := NatString(if n < 0 then -n else n);
    NatStringRoundTrip(if n < 0 then -n else n);
    if n >= 0 {
      ParseIntDigits(d);
    } else {
      var s := "-" + d;
      assert s[1..] == d;
      ParseIntNegative(s);
    }
  }

  /** A minus sign and then digits read as the negated digits. */
  lemma ParseIntNegative(s: string)
    requires |s| > 1 && s[0] == '-' && AllDigits(s[1..])
    ensures ParseInt(s) == Ok(-(DigitsValue(s[1..]) as int))
  {
    var digits := s[1..];
    UngroupPlain(digits);
    DigitsGrouped(digits);
    GroupedValueSpec(digits);
    assert IsDigit(digits[|digits| - 1]);
    assert LStripIntSpaces(s) == s;
    assert RStripIntSpaces(s) == s;
  }

  /** Digits grouped by underscores, with nothing around them, read as their digits. */
  lemma ParseIntOfGrouped(s: string, d: string)
    requires Grouped(s) && AllDigits(d) && Ungroup(s) == d
    ensures ParseInt(s) == Ok(DigitsValue(d))
  {
    GroupedChars(s);
    GroupedValueSpec(s);
    ParseIntUnsigned(s);
  }

  /** Grouped digits with nothing around them read as their value. */
  lemma ParseIntUnsigned(s: string)
    requires Grouped(s) && IsDigit(s[0])
    ensures ParseInt(s) == Ok(GroupedValue(s) as int)
  {
    assert IsDigit(s[|s| - 1]);
    NoIntSpaces(s);
  }

  /** Text that starts and ends with a digit has no whitespace for `int()` to skip. */
  lemma NoIntSpaces(s: string)
    requires s != [] && IsDigit(s[0]) && IsDigit(s[|s| - 1])
    ensures RStripIntSpaces(LStripIntSpaces(s)) == s
  {
    assert LStripIntSpaces(s) == s;
  }

  /** Two digit groups joined by `_` are grouped digits. */
  lemma {:induction false} GroupedJoin(w: string, v: string)
    requires |w| > 0 && AllDigits(w) && |v| > 0 && AllDigits(v)
    ensures Grouped(w + "_" + v)
    decreases |v|
  {
    var s := w + "_" + v;
    if |v| == 1 {
      assert s[..|s| - 2] == w;
      DigitsGrouped(w);
    } else {
      var init := v[..|v| - 1];
      assert s[..|s| - 1] == w + "_" + init;
      GroupedJoin(w, init);
    }
  }

  /** ... whose digits are the two groups together. */
  lemma UngroupJoin(w: string, v: string)
    requires AllDigits(w) && AllDigits(v)
    ensures Ungroup(w + "_" + v) == w + v
  {
    var a, u := Ungroup(w), Ungroup("_");
    UngroupPlain(w);
    UngroupPlain(v);
    assert u == [] by {
      assert "_"[..0] == [];
    }
    UngroupAppend(w, "_");
    UngroupAppend(w + "_", v);
  }

  /** Underscores between digit groups are dropped: "1_0" reads as 10. */
  lemma ParseIntUnderscore(w: string, v: string)
    requires |w| > 0 && AllDigits(w) && |v| > 0 && AllDigits(v)
    ensures ParseInt(w + "_" + v) == Ok(DigitsValue(w + v))
  {
    GroupedJoin(w, v);
    UngroupJoin(w, v);
    assert AllDigits(w + v);
    ParseIntOfGrouped(w + "_" + v, w + v);
  }

  /** Text that `int()` accepts is made of whitespace, signs, digits and underscores only. */
  lemma ParseIntAcceptedChars(s: string)
    requires ParseInt(s).Ok?
    ensures forall k :: 0 <= k < |s| ==> IsIntSpace(s[k]) || IsDigit(s[k]) || s[k] == '-' || s[k] == '+' || s[k] == '_'
  {
    var l := LStripIntSpaces(s);
    var t := RStripIntSpaces(l);
    var signed := |t| > 0 && (t[0] == '-' || t[0] == '+');
    var body := if signed then t[1..] else t;
    var off := |s| - |l|;
    GroupedChars(body);
    LStripDropsIntSpaces(s);
    RStripDropsIntSpaces(l);
    forall k | 0 <= k < |s| ensures IsIntSpace(s[k]) || IsDigit(s[k]) || s[k] == '-' || s[k] == '+' || s[k] == '_' {
      if k >= off {
        var j := k - off;
        assert l[j] == s[k];
        if j < |t| {
          assert t[j] == s[k];
          if signed && j > 0 {
            assert body[j - 1] == s[k];
          } else if !signed {
            assert body[j] == s[k];
          }
        }
      }
    }
  }

  /** `int()` rejects any text with a `.` in it, such as "2.5". */
  lemma ParseIntRejectsPoint(s: string, i: nat)
    requires i < |s| && s[i] == '.'
    ensures ParseInt(s) == Err(ValueError(s))
  {
    if ParseInt(s).Ok? {
      ParseIntAcceptedChars(s);
      assert false;
    }
  }

  /** `int()` rejects text holding one of the separators U+001C to U+001F, even at its ends: `int("\x1c5")` raises. */
  lemma ParseIntRejectsSeparator(s: string, i: nat)
    requires i < |s| && '\U{1C}' <= s[i] <= '\U{1F}'
    ensures ParseInt(s) == Err(ValueError(s))
  {
    if ParseInt(s).Ok? {
      ParseIntAcceptedChars(s);
      assert false;
    }
  }

  /** `str.lstrip(c)`: drop every leading `c`. */
  function LStripChar(s: string, c: char): (t: string)
    ensures |t| <= |s|
    ensures t == [] || t[0] != c
  {
    if s != [] && s[0] == c then LStripChar(s[1..], c) else s
  }

  /** What `lstrip(c)` keeps is the input's own suffix. */
  lemma {:induction false} LStripCharSuffix(s: string, c: char)
    ensures IsSuffix(LStripChar(s, c), s)
    ensures forall i :: 0 <= i < |s| - |LStripChar(s, c)| ==> s[i] == c
  {
    if s != [] && s[0] == c {
      LStripCharSuffix(s[1..], c);
    }
  }

  predicate OccursAt(s: string, pat: string, i: int) {
    0 <= i && i + |pat| <= |s| && s[i..i + |pat|] == pat
  }

  lemma NotOccursAt(s: string, pat: string, j: nat)
    requires |pat| > 0 && j < |s| && s[j] != pat[0]
    ensures !OccursAt(s, pat, j)
  {
    if j + |pat| <= |s| {
      assert s[j..j + |pat|][0] == s[j];
    }
  }

  /** The first index at or after `i` where `pat` occurs in `s`. */
  function FindFrom(s: string, pat: string, i: nat): (r: Option<nat>)
    ensures r.Some? ==> i <= r.value && OccursAt(s, pat, r.value)
    ensures r.Some? ==> forall j :: i <= j < r.value ==> !OccursAt(s, pat, j)
    ensures r.None? ==> forall j :: i <= j ==> !OccursAt(s, pat, j)
    decreases |s| - i
  {
    if i + |pat| > |s| then None
    else if s[i..i + |pat|] == pat then Some(i)
    else FindFrom(s, pat, i + 1)
  }

  /** `s.partition(sep)[2]`: what follows the first `sep`, or "" when there is none. */
  function PartitionTail(s: string, sep: string): (r: string)
    requires |sep| > 0
    ensures (forall j :: !OccursAt(s, sep, j)) ==> r == []
    ensures forall i :: OccursAt(s, sep, i) && (forall j :: 0 <= j < i ==> !OccursAt(s, sep, j))
                        ==> r == s[i + |sep|..]
  {
    match FindFrom(s, sep, 0)
    case None => []
    case Some(i) => s[i + |sep|..]
  }

  /** `s.split(sep)[0]`: what precedes the first `sep`, or all of `s`. */
  function SplitHead(s: string, sep: string): (r: string)
    requires |sep| > 0
    ensures (forall j :: !OccursAt(s, sep, j)) ==> r == s
    ensures forall i :: OccursAt(s, sep, i) && (forall j :: 0 <= j < i ==> !OccursAt(s, sep, j))
                        ==> r == s[..i]
  {
    match FindFrom(s, sep, 0)
    case None => s
    case Some(i) => s[..i]
  }

  /** `partition` splits at the first `sep`: when the text is `head + rest` and `head` ends with the first `sep`. */
  lemma PartitionAtFirst(head: string, sep: string, rest: string)
    requires |sep| > 0 && |sep| <= |head| && head[|head| - |sep|..] == sep
    requires forall j :: 0 <= j < |head| - |sep| ==> !OccursAt(head, sep, j)
    ensures PartitionTail(head + rest, sep) == rest
  {
    var s := head + rest;
    var i := |head| - |sep|;
    assert s[..|head|] == head;
    assert s[i..i + |sep|] == sep;
    assert OccursAt(s, sep, i);
    forall j | 0 <= j < i ensures !OccursAt(s, sep, j) {
      assert !OccursAt(head, sep, j);
      assert s[j..j + |sep|] == s[..|head|][j..j + |sep|];
    }
    assert s[|head|..] == rest;
  }

  /** `split` keeps what precedes the first `sep`: when `sep` starts the tail, or the tail is empty. */
  lemma SplitBefore(head: string, sep: string, tail: string)
    requires |sep| > 0
    requires forall j :: 0 <= j < |head| ==> !OccursAt(head + tail, sep, j)
    requires tail == [] || (|sep| <= |tail| && tail[..|sep|] == sep)
    ensures SplitHead(head + tail, sep) == head
  {
    var s := head + tail;
    if tail != [] {
      assert s[|head|..|head| + |sep|] == tail[..|sep|];
      assert OccursAt(s, sep, |head|);
    } else {
      assert s == head;
    }
    assert s[..|head|] == head;
  }
}
