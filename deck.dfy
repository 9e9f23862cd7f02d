/**
 * The read-only part of the timer engine (main.py:99-206): the deck as the
 * Slides API returns it, the text of a page element, the first range
 * declaration on a slide, a slide's own suggested time, slide numbers, the
 * per-slide average of a range and the sum of suggestions in a range.
 */
module Deck {
  import opened Wrappers
  import opened PyText
  import opened Patterns

  // ----- The deck -----
  // A key the API response may omit is an Option; a list it may omit
  // (`.get(..., [])`) is a sequence that is then empty.

  datatype TextRun = TextRun(content: Option<string>)

  datatype TextElement = TextElement(textRun: Option<TextRun>)

  datatype TextBody = TextBody(textElements: seq<TextElement>)

  datatype Shape = Shape(text: Option<TextBody>)

  /** A page element; `video` says whether it carries a "video" key. */
  datatype PageElement = PageElement(objectId: string, shape: Option<Shape>, video: bool)

  /** A slide: its own page elements, and those of its speaker-notes page. */
  datatype Slide = Slide(objectId: Option<string>, pageElements: seq<PageElement>, notes: seq<PageElement>)

  // ----- Text flattening (main.py:105-113, main.py:152-160) -----

  /** What one text element adds: its run's content, or nothing. */
  function Content(e: TextElement): string {
    match e.textRun
    case None => ""
    case Some(run) => match run.content case None => "" case Some(c) => c
  }

  /** The contents of the runs, in order. */
  function Flatten(els: seq<TextElement>): string {
    if |els| == 0 then "" else Flatten(els[..|els| - 1]) + Content(els[|els| - 1])
  }

  /** The `full_text += content` loop. */
  method FlattenText(els: seq<TextElement>) returns (fullText: string)
    ensures fullText == Flatten(els)
  {
    fullText := "";
    for i := 0 to |els|
      invariant fullText == Flatten(els[..i])
    {
      assert els[..i + 1][..i] == els[..i];
      if els[i].textRun.None? {
        continue;
      }
      var runData := els[i].textRun.value;
      if runData.content.None? {
        continue;
      }
      fullText := fullText + runData.content.value;
    }
    assert els[..|els|] == els;
  }

  /** Flattening distributes over concatenation: text is never lost or reordered. */
  lemma {:induction false} FlattenAppend(a: seq<TextElement>, b: seq<TextElement>)
    ensures Flatten(a + b) == Flatten(a) + Flatten(b)
    decreases |b|
  {
    if b == [] {
      assert a + b == a;
    } else {
      var b' := b[..|b| - 1];
      FlattenAppend(a, b');
      assert (a + b)[..|a + b| - 1] == a + b';
    }
  }

  /** An element with no `textRun`, or a run with no `content`, adds nothing. */
  lemma {:induction false} FlattenSkips(a: seq<TextElement>, e: TextElement, b: seq<TextElement>)
    requires e.textRun.None? || e.textRun.value.content.None?
    ensures Flatten(a + [e] + b) == Flatten(a + b)
    decreases |b|
  {
    if |b| == 0 {
      assert a + [e] + b == a + [e];
      assert (a + [e])[..|a|] == a;
      assert a + b == a;
    } else {
      var b' := b[..|b| - 1];
      FlattenSkips(a, e, b');
      assert (a + [e] + b)[..|a + [e] + b| - 1] == a + [e] + b';
      assert (a + b)[..|a + b| - 1] == a + b';
    }
  }

  /** A single run's content is the whole text. */
  lemma FlattenOne(c: string)
    ensures Flatten([TextElement(Some(TextRun(Some(c))))]) == c
  {
    var els := [TextElement(Some(TextRun(Some(c))))];
    assert els[..0] == [];
  }

  // ----- get_range (main.py:100-122) -----

  /** The text of a slide element, with `{}` and `[]` for what is missing (main.py:102-104). */
  function ElementText(pe: PageElement): string {
    match pe.shape
    case None => ""
    case Some(shape) => match shape.text case None => "" case Some(body) => Flatten(body.textElements)
  }

  /** The index of the first element that satisfies `p`: what a loop that returns early finds. */
  function FirstIndex<T>(xs: seq<T>, p: T -> bool): (r: Option<nat>)
    ensures r.Some? ==> r.value < |xs| && p(xs[r.value])
    decreases |xs|
  {
    if |xs| == 0 then None
    else if p(xs[0]) then Some(0)
    else
      match FirstIndex(xs[1..], p)
      case None => None
      case Some(i) => Some(i + 1)
  }

  /** The search finds an element that satisfies `p` with none before it, or finds nothing when none does. */
  lemma {:induction false} FirstIndexSpec<T>(xs: seq<T>, p: T -> bool)
    ensures FirstIndex(xs, p).Some? ==>
              p(xs[FirstIndex(xs, p).value]) && forall j :: 0 <= j < FirstIndex(xs, p).value ==> !p(xs[j])
    ensures FirstIndex(xs, p).None? ==> forall j :: 0 <= j < |xs| ==> !p(xs[j])
    decreases |xs|
  {
    if |xs| > 0 && !p(xs[0]) {
      FirstIndexSpec(xs[1..], p);
      assert forall j :: 1 <= j < |xs| ==> xs[j] == xs[1..][j - 1];
    }
  }

  /** The search stops at the first element that satisfies `p`. */
  lemma {:induction false} FirstIndexAt<T>(xs: seq<T>, p: T -> bool, i: nat)
    requires i < |xs| && p(xs[i]) && forall j :: 0 <= j < i ==> !p(xs[j])
    ensures FirstIndex(xs, p) == Some(i)
    decreases i
  {
    if i > 0 {
      assert !p(xs[0]);
      FirstIndexAt(xs[1..], p, i - 1);
    }
  }

  /** A search that found nothing in the first `i` elements finds the next one if it satisfies `p`. */
  lemma {:induction false} FirstIndexFound<T>(xs: seq<T>, p: T -> bool, i: nat)
    requires i < |xs| && FirstIndex(xs[..i], p) == None && p(xs[i])
    ensures FirstIndex(xs, p) == Some(i)
    decreases i
  {
    if i > 0 {
      assert xs[..i][0] == xs[0];
      assert xs[..i][1..] == xs[1..][..i - 1];
      FirstIndexFound(xs[1..], p, i - 1);
    }
  }

  /** ... and otherwise still finds nothing in the first `i + 1`. */
  lemma {:induction false} FirstIndexNext<T>(xs: seq<T>, p: T -> bool, i: nat)
    requires i < |xs| && FirstIndex(xs[..i], p) == None && !p(xs[i])
    ensures FirstIndex(xs[..i + 1], p) == None
    decreases i
  {
    assert xs[..i + 1][0] == xs[0];
    if i == 0 {
      assert xs[..1][1..] == [];
    } else {
      assert xs[..i][0] == xs[0];
      assert xs[..i][1..] == xs[1..][..i - 1];
      assert xs[..i + 1][1..] == xs[1..][..i];
      FirstIndexNext(xs[1..], p, i - 1);
    }
  }


  predicate DeclaresRange(pe: PageElement) {
    MatchRange(ElementText(pe)).Some?
  }

  /** The declaration of the first element whose text matches RANGE_PATTERN. */
  function FirstRange(els: seq<PageElement>): Option<RangeDecl> {
    match FirstIndex(els, DeclaresRange)
    case None => None
    case Some(i) => MatchRange(ElementText(els[i]))
  }

  /** A slide declares no range iff none of its elements matches. */
  lemma FirstRangeNone(els: seq<PageElement>)
    ensures FirstRange(els).None? <==> forall j :: 0 <= j < |els| ==> !DeclaresRange(els[j])
  {
    var p := DeclaresRange;
    FirstIndexSpec(els, p);
    var r := FirstIndex(els, p);
    if r.Some? {
      assert p(els[r.value]);
    }
  }

  /** Otherwise the first element that matches supplies the declaration. */
  lemma FirstRangeIsFirst(els: seq<PageElement>, i: nat)
    requires i < |els| && DeclaresRange(els[i])
    requires forall j :: 0 <= j < i ==> !DeclaresRange(els[j])
    ensures FirstRange(els) == MatchRange(ElementText(els[i]))
  {
    var p := DeclaresRange;
    assert forall j :: 0 <= j < i ==> !p(els[j]);
    FirstIndexAt(els, p, i);
  }

  method GetRange(slide: Slide) returns (r: Option<RangeDecl>)
    ensures r == FirstRange(slide.pageElements)
  {
    var els := slide.pageElements;
    for i := 0 to |els|
      invariant FirstIndex(els[..i], DeclaresRange) == None
    {
      var textElements := match els[i].shape
        case None => []
        case Some(shape) => match shape.text case None => [] case Some(body) => body.textElements;
      var fullText := FlattenText(textElements);
      assert fullText == ElementText(els[i]);
      var m := MatchRange(fullText);
      if m.Some? {
        FirstIndexFound(els, DeclaresRange, i);
        return m;
      }
      FirstIndexNext(els, DeclaresRange, i);
    }
    assert els[..|els|] == els;
    return None;
  }

  // ----- get_suggested_time_for_slide (main.py:138-167) -----

  /** The text of a notes element; None for an element the loop skips (main.py:144-150). */
  function NoteText(pe: PageElement): Option<string> {
    match pe.shape
    case None => None
    case Some(shape) => match shape.text case None => None case Some(body) => Some(Flatten(body.textElements))
  }

  /** SPEAKER_NOTES_PATTERN matches and UNWANTED_PATTERN does not. */
  predicate Qualifies(pe: PageElement)
    ensures Qualifies(pe) ==> NoteText(pe).Some? && |"suggested time"| < |NoteText(pe).value|
  {
    NoteText(pe).Some? && MatchSuggested(NoteText(pe).value).Some? && !Unwanted(NoteText(pe).value)
  }

  /** `int(match.group(3))` for a qualifying element. */
  function ReadSuggestion(pe: PageElement): (r: Result<Option<int>, Failure>)
    requires Qualifies(pe)
    ensures r.Ok? ==> r.value.Some? && r.value.value >= 0
  {
    var group3 := MatchSuggested(NoteText(pe).value).value;
    var v :- ParseInt(group3);
    Ok(Some(v))
  }

  /** The suggestion of the first qualifying element; None when no element qualifies. */
  function SuggestedTime(notes: seq<PageElement>): (r: Result<Option<int>, Failure>)
    ensures r.Ok? && r.value.Some? ==> r.value.value >= 0
  {
    match FirstIndex(notes, Qualifies)
    case None => Ok(None)
    case Some(i) => ReadSuggestion(notes[i])
  }

  /** No suggestion iff no notes element qualifies. */
  lemma SuggestedTimeNone(notes: seq<PageElement>)
    ensures SuggestedTime(notes) == Ok(None) <==> forall j :: 0 <= j < |notes| ==> !Qualifies(notes[j])
  {
    var p := Qualifies;
    FirstIndexSpec(notes, p);
    var r := FirstIndex(notes, p);
    if r.Some? {
      assert p(notes[r.value]);
    }
  }

  /** Otherwise the first qualifying element decides, even when a later one would parse. */
  lemma SuggestedTimeIsFirst(notes: seq<PageElement>, i: nat)
    requires i < |notes| && Qualifies(notes[i])
    requires forall j :: 0 <= j < i ==> !Qualifies(notes[j])
    ensures SuggestedTime(notes) == ReadSuggestion(notes[i])
  {
    var p := Qualifies;
    assert forall j :: 0 <= j < i ==> !p(notes[j]);
    FirstIndexAt(notes, p, i);
  }

  /**
   * The plainest note, "Tiempo sugerido: " + str(n), as the
   * first element of the notes page: the slide's suggestion is n.
   */
  lemma PlainNoteSuggests(pe: PageElement, others: seq<PageElement>, n: nat)
    requires NoteText(pe) == Some(PlainSuggestion(n))
    ensures SuggestedTime([pe] + others) == Ok(Some(n))
  {
    PlainSuggestionRead(n);
    assert Qualifies(pe);
    NatStringRoundTrip(n);
    ParseIntDigits(NatString(n));
    SuggestedTimeIsFirst([pe] + others, 0);
  }

  method GetSuggestedTime(slide: Slide) returns (r: Result<Option<int>, Failure>)
    ensures r == SuggestedTime(slide.notes)
  {
    var els := slide.notes;
    for i := 0 to |els|
      invariant FirstIndex(els[..i], Qualifies) == None
    {
      if els[i].shape.None? {
        FirstIndexNext(els, Qualifies, i);
        continue;
      }
      var shape := els[i].shape.value;
      if shape.text.None? {
        FirstIndexNext(els, Qualifies, i);
        continue;
      }
      var fullText := FlattenText(shape.text.value.textElements);
      assert NoteText(els[i]) == Some(fullText);
      var m := MatchSuggested(fullText);
      if m.Some? && !Unwanted(fullText) {
        FirstIndexFound(els, Qualifies, i);
        var v := ParseInt(m.value);
        if v.Err? {
          return Err(v.error);
        }
        return Ok(Some(v.value));
      }
      FirstIndexNext(els, Qualifies, i);
    }
    assert els[..|els|] == els;
    return Ok(None);
  }

  // ----- Slide numbers (main.py:199-206) -----

  /** `int(slide["objectId"].lstrip("p"))` */
  function SlideNumber(slide: Slide): (r: Result<int, Failure>)
    ensures slide.objectId.None? ==> r == Err(KeyError("objectId"))
  {
    match slide.objectId
    case None => Err(KeyError("objectId"))
    case Some(id) => ParseInt(LStripChar(id, 'p'))
  }

  predicate InRange(k: int, start: int, end: int) {
    k >= start && k <= end
  }

  function IsSlideInRange(slide: Slide, start: int, end: int): (r: Result<bool, Failure>)
    ensures r.Err? <==> SlideNumber(slide).Err?
    ensures r.Ok? ==> r.value == InRange(SlideNumber(slide).value, start, end)
  {
    var n :- SlideNumber(slide);
    Ok(n >= start && n <= end)
  }

  /** A slide id "p<k>" numbers the slide k, and that slide is in a range iff k lies between its ends. */
  lemma SlideNumberRoundTrip(k: int, pageElements: seq<PageElement>, notes: seq<PageElement>, start: int, end: int)
    ensures SlideNumber(Slide(Some("p" + DecimalString(k)), pageElements, notes)) == Ok(k)
    ensures IsSlideInRange(Slide(Some("p" + DecimalString(k)), pageElements, notes), start, end) == Ok(InRange(k, start, end))
  {
    var d := DecimalString(k);
    assert ("p" + d)[1..] == d;
    assert LStripChar("p" + d, 'p') == d;
    ParseIntRoundTrip(k);
  }

  /** The bare id "p" leaves nothing for `int()`, which raises. */
  lemma SlideNumberOfBareP(pageElements: seq<PageElement>, notes: seq<PageElement>)
    ensures SlideNumber(Slide(Some("p"), pageElements, notes)) == Err(ValueError(""))
  {
    assert "p"[1..] == [];
    assert LStripChar("p", 'p') == [];
    assert RStripIntSpaces(LStripIntSpaces([])) == [];
  }

  /** An id such as "p5" followed by one of the separators U+001C to U+001F is not a number: `int()` raises. */
  lemma SlideNumberWithSeparator(k: nat, c: char, pageElements: seq<PageElement>, notes: seq<PageElement>)
    requires '\U{1C}' <= c <= '\U{1F}'
    ensures SlideNumber(Slide(Some("p" + NatString(k) + [c]), pageElements, notes)) == Err(ValueError(NatString(k) + [c]))
  {
    var d := NatString(k);
    var u := d + [c];
    assert ("p" + d + [c])[1..] == u && u[0] == d[0];
    assert LStripChar("p" + d + [c], 'p') == u;
    ParseIntRejectsSeparator(u, |d|);
  }

  // ----- Range arithmetic (main.py:126-134) -----

  function NumSlidesInRange(start: int, end: int): (n: int)
    ensures n == 0 <==> end == start - 1
    ensures n > 0 <==> start <= end
  {
    end - start + 1
  }

  /** The slide numbers from start to end. */
  function Numbers(start: int, end: int): set<int>
    decreases end - start
  {
    if end < start then {} else Numbers(start, end - 1) + {end}
  }

  lemma {:induction false} NumbersInRange(start: int, end: int, k: int)
    ensures k in Numbers(start, end) <==> InRange(k, start, end)
    decreases end - start
  {
    if end >= start {
      NumbersInRange(start, end - 1, k);
    }
  }

  /** When the range is not reversed, the count is the number of slide numbers from start to end. */
  lemma {:induction false} NumSlidesCount(start: int, end: int)
    requires start <= end + 1
    ensures NumSlidesInRange(start, end) == |Numbers(start, end)|
    decreases end - start
  {
    if start <= end {
      NumSlidesCount(start, end - 1);
      NumbersInRange(start, end - 1, end);
    }
  }

  /** Python's `//`, which rounds toward minus infinity. */
  function FloorDiv(a: int, b: int): (q: int)
    requires b != 0
    ensures b > 0 ==> q * b <= a < (q + 1) * b
    ensures b < 0 ==> q * -b <= -a < (q + 1) * -b
  {
    if b > 0 then a / b else (-a) / (-b)
  }

  /** `int(x / 2)` for a whole number x: halve, cutting toward zero. */
  function HalfTowardZero(h: int): (r: int)
    ensures h >= 0 ==> 2 * r <= h <= 2 * r + 1
    ensures h < 0 ==> 2 * r - 1 <= h <= 2 * r
  {
    if h >= 0 then h / 2 else -((-h) / 2)
  }

  /**
   * `int(math.floor(minutes / num_slides * 2) / 2)`: the average rounded
   * down to a half, then cut to a whole number toward zero.
   */
  function AvgMinsPerSlide(numSlides: int, minutes: int): (r: Result<int, Failure>)
    ensures r.Err? <==> numSlides == 0
    ensures r.Err? ==> r.error == ZeroDivisionError
  {
    if numSlides == 0 then Err(ZeroDivisionError)
    else Ok(HalfTowardZero(FloorDiv(2 * minutes, numSlides)))
  }

  /** For slides to share, the average is the whole minutes per slide, rounded down. */
  lemma AvgPositive(numSlides: int, minutes: int)
    requires numSlides > 0 && minutes >= 0
    ensures AvgMinsPerSlide(numSlides, minutes).Ok?
    ensures var r := AvgMinsPerSlide(numSlides, minutes).value;
            r * numSlides <= minutes < (r + 1) * numSlides
  {
    var n := numSlides;
    var h := FloorDiv(2 * minutes, n);
    var r := HalfTowardZero(h);
    assert h >= 0;
    MulLe(2 * r, h, n);
    MulLe(h + 1, 2 * r + 2, n);
    Twice(r, n);
  }

  lemma Twice(r: int, n: int)
    ensures (2 * r) * n == 2 * (r * n) && (2 * r + 2) * n == 2 * ((r + 1) * n)
  {
  }

  lemma MulLe(x: int, y: int, n: int)
    requires x <= y && n >= 0
    ensures x * n <= y * n
  {
  }

  /** The quotient is the only whole number whose multiples bracket the dividend. */
  lemma DivUnique(a: int, n: int, q: int)
    requires n > 0 && q * n <= a < (q + 1) * n
    ensures a / n == q
  {
    var d := a / n;
    if d < q {
      MulLe(d + 1, q, n);
    } else if d > q {
      MulLe(q + 1, d, n);
    }
  }

  /** The average is `minutes // num_slides`: the half the cast drops never counts. */
  lemma AvgIsQuotient(numSlides: int, minutes: int)
    requires numSlides > 0 && minutes >= 0
    ensures AvgMinsPerSlide(numSlides, minutes) == Ok(minutes / numSlides)
  {
    AvgPositive(numSlides, minutes);
    DivUnique(minutes, numSlides, AvgMinsPerSlide(numSlides, minutes).value);
  }

  /**
   * A reversed range (end below start - 1) gives a negative count -d; the
   * result is then minus the quotient m/d rounded half down: within half a
   * minute of -m/d.
   */
  lemma AvgNegative(numSlides: int, minutes: int)
    requires numSlides < 0 && minutes >= 0
    ensures AvgMinsPerSlide(numSlides, minutes).Ok?
    ensures var q := -AvgMinsPerSlide(numSlides, minutes).value;
            (2 * q - 1) * -numSlides < 2 * minutes <= (2 * q + 1) * -numSlides
  {
    var d := -numSlides;
    var h := FloorDiv(2 * minutes, numSlides);
    var q := -HalfTowardZero(h);
    assert h * d <= -2 * minutes < (h + 1) * d;
    assert h <= 0;
    assert -2 * q - 1 <= h <= -2 * q;
    assert (2 * q - 1) * d <= (-h - 1) * d < 2 * minutes;
    assert 2 * minutes <= -h * d <= (2 * q + 1) * d;
  }

  /** A range given fewer minutes than it has slides averages 0 minutes per slide. */
  lemma AvgZero(numSlides: int, minutes: int)
    requires 0 <= minutes < numSlides
    ensures AvgMinsPerSlide(numSlides, minutes) == Ok(0)
  {
    AvgIsQuotient(numSlides, minutes);
    DivUnique(minutes, numSlides, 0);
  }

  /** 10 minutes over slides 3 to 6: 2.5 floors to the half 2.5, and the cast drops the half. */
  lemma AvgDropsHalf()
    ensures AvgMinsPerSlide(NumSlidesInRange(3, 6), 10) == Ok(2)
  {
    AvgIsQuotient(4, 10);
  }

  // ----- Counting and summing (main.py:171-195) -----

  method GetTotalSlides(slides: seq<Slide>) returns (total: int)
    ensures total == |slides|
  {
    total := 0;
    for i := 0 to |slides|
      invariant total == i
    {
      total := total + 1;
    }
  }

  /** What one slide adds to the sum: its suggestion if it has an id in range, else 0. */
  function SlideSuggestion(slide: Slide, start: int, end: int): (r: Result<int, Failure>)
    ensures r.Ok? ==> r.value >= 0
  {
    match slide.objectId
    case None => Ok(0)
    case Some(id) =>
      var n :- ParseInt(LStripChar(id, 'p'));
      if n >= start && n <= end then
        var t :- SuggestedTime(slide.notes);
        Ok(if t.Some? then t.value else 0)
      else Ok(0)
  }

  function Contribution(start: int, end: int): Slide -> Result<int, Failure> {
    slide => SlideSuggestion(slide, start, end)
  }

  /** Adding one more contribution: an exception already raised, or raised now, wins. */
  function Total(acc: Result<int, Failure>, c: Result<int, Failure>): Result<int, Failure> {
    var x :- acc;
    var y :- c;
    Ok(x + y)
  }

  /** The contributions of `xs` added up in order; the first exception ends the sum. */
  function SumOver<T>(xs: seq<T>, f: T -> Result<int, Failure>): Result<int, Failure>
    decreases |xs|
  {
    if |xs| == 0 then Ok(0)
    else
      var acc :- SumOver(xs[..|xs| - 1], f);
      var c :- f(xs[|xs| - 1]);
      Ok(acc + c)
  }

  lemma TotalAssociative(a: Result<int, Failure>, b: Result<int, Failure>, c: Result<int, Failure>)
    ensures Total(Total(a, b), c) == Total(a, Total(b, c))
  {
  }

  /** Summing in two parts: the sums add up, and the first part's exception comes first. */
  lemma {:induction false} SumOverAppend<T>(a: seq<T>, b: seq<T>, f: T -> Result<int, Failure>)
    ensures SumOver(a + b, f) == Total(SumOver(a, f), SumOver(b, f))
    decreases |b|
  {
    if |b| == 0 {
      assert a + b == a;
    } else {
      var b' := b[..|b| - 1];
      SumOverAppend(a, b', f);
      assert (a + b)[..|a + b| - 1] == a + b';
      assert (a + b)[|a + b| - 1] == b[|b| - 1];
      TotalAssociative(SumOver(a, f), SumOver(b', f), f(b[|b| - 1]));
    }
  }

  /** An element that contributes 0 can be dropped from the sum. */
  lemma {:induction false} SumOverSkips<T>(a: seq<T>, x: T, b: seq<T>, f: T -> Result<int, Failure>)
    requires f(x) == Ok(0)
    ensures SumOver(a + [x] + b, f) == SumOver(a + b, f)
    decreases |b|
  {
    if |b| == 0 {
      assert a + [x] + b == a + [x];
      assert (a + [x])[..|a|] == a;
      assert a + b == a;
    } else {
      var b' := b[..|b| - 1];
      SumOverSkips(a, x, b', f);
      assert (a + [x] + b)[..|a + [x] + b| - 1] == a + [x] + b';
      assert (a + b)[..|a + b| - 1] == a + b';
    }
  }

  /** One more element summed: its exception, or its value added to the sum of the prefix. */
  lemma SumOverStep<T>(xs: seq<T>, f: T -> Result<int, Failure>, i: nat, acc: int, c: Result<int, Failure>)
    requires i < |xs| && SumOver(xs[..i], f) == Ok(acc) && f(xs[i]) == c
    ensures SumOver(xs[..i + 1], f) == if c.Err? then Err(c.error) else Ok(acc + c.value)
  {
    assert xs[..i + 1][..i] == xs[..i];
  }

  /** Once a prefix raises, so does the whole sequence, with the same exception. */
  lemma SumOverStops<T>(xs: seq<T>, f: T -> Result<int, Failure>, n: nat)
    requires n <= |xs| && SumOver(xs[..n], f).Err?
    ensures SumOver(xs, f) == SumOver(xs[..n], f)
  {
    SumOverAppend(xs[..n], xs[n..], f);
    assert xs[..n] + xs[n..] == xs;
  }

  /** Non-negative contributions give a non-negative sum. */
  lemma {:induction false} SumOverNonNegative<T>(xs: seq<T>, f: T -> Result<int, Failure>)
    requires forall x :: f(x).Ok? ==> f(x).value >= 0
    ensures SumOver(xs, f).Ok? ==> SumOver(xs, f).value >= 0
    decreases |xs|
  {
    if |xs| > 0 {
      SumOverNonNegative(xs[..|xs| - 1], f);
    }
  }

  /** `add_all_suggested_times_in_range`: the sum in slide order, the first exception ending it. */
  function SuggestedSum(slides: seq<Slide>, start: int, end: int): Result<int, Failure> {
    SumOver(slides, Contribution(start, end))
  }

  /** Suggestions are non-negative, and so is their sum. */
  lemma SuggestedSumNonNegative(slides: seq<Slide>, start: int, end: int)
    ensures SuggestedSum(slides, start, end).Ok? ==> SuggestedSum(slides, start, end).value >= 0
  {
    SumOverNonNegative(slides, Contribution(start, end));
  }

  /** One slide's contribution, from its number and, when in range, its suggestion. */
  lemma ContributionOf(slide: Slide, start: int, end: int, n: int, t: Result<Option<int>, Failure>)
    requires SlideNumber(slide) == Ok(n) && slide.objectId.Some?
    requires InRange(n, start, end) ==> SuggestedTime(slide.notes) == t
    ensures !InRange(n, start, end) ==> Contribution(start, end)(slide) == Ok(0)
    ensures InRange(n, start, end) && t.Err? ==> Contribution(start, end)(slide) == Err(t.error)
    ensures InRange(n, start, end) && t.Ok? ==> Contribution(start, end)(slide) == Ok(if t.value.Some? then t.value.value else 0)
  {
  }

  /** A slide whose number does not parse raises that ValueError. */
  lemma ContributionBadNumber(slide: Slide, start: int, end: int)
    requires slide.objectId.Some? && SlideNumber(slide).Err?
    ensures Contribution(start, end)(slide) == Err(SlideNumber(slide).error)
  {
  }

  /** A slide without an objectId contributes nothing. */
  lemma ContributionNoId(slide: Slide, start: int, end: int)
    requires slide.objectId.None?
    ensures Contribution(start, end)(slide) == Ok(0)
  {
  }

  method AddAllSuggestedTimes(slides: seq<Slide>, start: int, end: int) returns (r: Result<int, Failure>)
    ensures r == SuggestedSum(slides, start, end)
  {
    var total := 0;
    for i := 0 to |slides|
      invariant SumOver(slides[..i], Contribution(start, end)) == Ok(total)
    {
      var next := AddNextSlide(slides, i, start, end, total);
      if next.Err? {
        SumOverStops(slides, Contribution(start, end), i + 1);
        return next;
      }
      total := next.value;
    }
    assert slides[..|slides|] == slides;
    return Ok(total);
  }

  /** One turn of the loop: the running total, with slide `i` added, or the exception it raises. */
  method AddNextSlide(slides: seq<Slide>, i: nat, start: int, end: int, total: int) returns (next: Result<int, Failure>)
    requires i < |slides| && SumOver(slides[..i], Contribution(start, end)) == Ok(total)
    ensures next == SumOver(slides[..i + 1], Contribution(start, end))
  {
    var c := AddSlideSuggestion(slides[i], start, end);
    SumOverStep(slides, Contribution(start, end), i, total, c);
    next := if c.Err? then Err(c.error) else Ok(total + c.value);
  }

  /**
   * The body of the loop of `add_all_suggested_times_in_range` for one slide:
   * skip it without an objectId, read its number, and add its suggestion
   * when it lies in the range; an exception leaves the loop.
   */
  method AddSlideSuggestion(slide: Slide, start: int, end: int) returns (c: Result<int, Failure>)
    ensures c == Contribution(start, end)(slide)
  {
    if slide.objectId.None? {
      ContributionNoId(slide, start, end);
      return Ok(0);
    }
    var slideNumber := ParseInt(LStripChar(slide.objectId.value, 'p'));
    if slideNumber.Err? {
      ContributionBadNumber(slide, start, end);
      return Err(slideNumber.error);
    }
    var slideInRange := slideNumber.value >= start && slideNumber.value <= end;
    if !slideInRange {
      ContributionOf(slide, start, end, slideNumber.value, Ok(None));
      return Ok(0);
    }
    var suggestedTime := GetSuggestedTime(slide);
    ContributionOf(slide, start, end, slideNumber.value, suggestedTime);
    if suggestedTime.Err? {
      return Err(suggestedTime.error);
    }
    return Ok(if suggestedTime.value.Some? then suggestedTime.value.value else 0);
  }

  /** Summing a deck in two parts. */
  lemma SuggestedSumAppend(a: seq<Slide>, b: seq<Slide>, start: int, end: int)
    ensures SuggestedSum(a + b, start, end) == Total(SuggestedSum(a, start, end), SuggestedSum(b, start, end))
  {
    SumOverAppend(a, b, Contribution(start, end));
  }

  /** A slide without an objectId, or numbered outside the range, adds nothing: removing it changes nothing. */
  lemma SuggestedSumSkips(a: seq<Slide>, slide: Slide, b: seq<Slide>, start: int, end: int)
    requires slide.objectId.None? || (SlideNumber(slide).Ok? && !InRange(SlideNumber(slide).value, start, end))
    ensures SuggestedSum(a + [slide] + b, start, end) == SuggestedSum(a + b, start, end)
  {
    var f := Contribution(start, end);
    assert f(slide) == Ok(0);
    SumOverSkips(a, slide, b, f);
  }


}
