/**
 * The resolution loop of `add_videos` (main.py:210-368): for each slide, pick
 * up a range declaration, decide how long the slide lasts, and insert the
 * timer video of that many minutes. The loop's local variables are the fields
 * of `TimerState`; the operator's answer to the console prompt is a parameter.
 */
module Engine {
  import opened Wrappers
  import opened PyText
  import opened Patterns
  import opened Timers
  import opened Deck

  /** The local variables of `add_videos` that carry over from slide to slide. */
  datatype TimerState = TimerState(
    rangeStart: int,
    rangeEnd: int,
    rangeTotalMins: int,
    rangeAvgMinsPerSlide: int,
    minsAssignedSoFar: int,
    rangeMinsAssignedSoFar: int,
    rangeInfoSlideNumber: int,
    slideSuggestedMins: int,
    slideDuration: int,
    insertedCount: int)

  const Initial := TimerState(0, 0, 0, 0, 0, 0, 0, 0, 0, 0)

  /** What the console prompt shows when a slide in a range has its own suggestion. */
  datatype Prompt = Prompt(
    slideNumber: int,
    suggestedMins: int,
    rangeTotalMins: int,
    rangeStart: int,
    rangeEnd: int,
    rangeInfoSlideNumber: int,
    rangeAvgMinsPerSlide: int)

  /** The operator: the number of minutes typed in answer to a prompt. */
  type Operator = Prompt -> int

  /** One timer video inserted on a slide: the slide's page id, the YouTube id and the minutes it counts down. */
  datatype Insertion = Insertion(pageId: string, videoId: string, minutes: int)

  /** A slide processed without an exception: the new state and the video inserted, if any. */
  datatype Stepped = Stepped(state: TimerState, insertion: Option<Insertion>)

  // ----- One slide (main.py:227-291, 366-368) -----

  /** The minutes counted so far, the inserted count and the per-slide variables agree. */
  predicate SameCounters(a: TimerState, b: TimerState) {
    a.minsAssignedSoFar == b.minsAssignedSoFar && a.rangeMinsAssignedSoFar == b.rangeMinsAssignedSoFar
    && a.slideSuggestedMins == b.slideSuggestedMins && a.slideDuration == b.slideDuration
    && a.insertedCount == b.insertedCount
  }

  /** A range declaration on the slide replaces start, end, total, average and info slide (main.py:236-253). */
  function Declare(slides: seq<Slide>, st: TimerState, slide: Slide, n: int): (r: Result<TimerState, Failure>)
    ensures FirstRange(slide.pageElements).None? ==> r == Ok(st)
    ensures r.Ok? ==> SameCounters(r.value, st)
    ensures r.Ok? && FirstRange(slide.pageElements).Some? ==>
              var decl := FirstRange(slide.pageElements).value;
              r.value.rangeStart == decl.start && r.value.rangeEnd == decl.end && r.value.rangeTotalMins == decl.minutes
              && r.value.rangeInfoSlideNumber == n
              && Ok(r.value.rangeAvgMinsPerSlide) == AvgMinsPerSlide(NumSlidesInRange(decl.start, decl.end), decl.minutes)
    ensures r.Err? ==> FirstRange(slide.pageElements).Some?
    ensures r.Err? ==> var decl := FirstRange(slide.pageElements).value;
              AvgMinsPerSlide(NumSlidesInRange(decl.start, decl.end), decl.minutes) == Err(r.error)
              || SuggestedSum(slides, decl.start, decl.end) == Err(r.error)
  {
    match FirstRange(slide.pageElements)
    case None => Ok(st)
    case Some(decl) =>
      var avg :- AvgMinsPerSlide(NumSlidesInRange(decl.start, decl.end), decl.minutes);
      var _ :- SuggestedSum(slides, decl.start, decl.end);
      Ok(st.(rangeInfoSlideNumber := n, rangeStart := decl.start, rangeEnd := decl.end,
             rangeTotalMins := decl.minutes, rangeAvgMinsPerSlide := avg))
  }

  /** The state once the slide's own suggestion, if it has one, is read (main.py:257-259). */
  function Suggest(st: TimerState, sugg: Option<int>): TimerState {
    if sugg.Some? then st.(slideSuggestedMins := sugg.value) else st
  }

  function PromptOf(n: int, st: TimerState): Prompt {
    Prompt(n, st.slideSuggestedMins, st.rangeTotalMins, st.rangeStart, st.rangeEnd,
           st.rangeInfoSlideNumber, st.rangeAvgMinsPerSlide)
  }

  /** The duration of the slide, or None when it is skipped (main.py:262-286). */
  function Resolve(n: int, st: TimerState, inRange: bool, op: Operator): (r: Option<int>)
    ensures r.None? <==> !inRange && st.slideSuggestedMins == 0
  {
    if !inRange && st.slideSuggestedMins == 0 then None
    else if inRange && st.slideSuggestedMins != 0 then Some(op(PromptOf(n, st)))
    else if inRange then Some(st.rangeAvgMinsPerSlide)
    else Some(st.slideSuggestedMins)
  }

  /** The range fields are those of `b`. */
  predicate SameRange(a: TimerState, b: TimerState) {
    a.rangeStart == b.rangeStart && a.rangeEnd == b.rangeEnd && a.rangeTotalMins == b.rangeTotalMins
    && a.rangeAvgMinsPerSlide == b.rangeAvgMinsPerSlide && a.rangeInfoSlideNumber == b.rangeInfoSlideNumber
  }

  /** No suggestion or duration is pending from an earlier slide. */
  predicate Ready(st: TimerState) {
    st.slideSuggestedMins == 0 && st.slideDuration == 0
  }

  /** An inserted video is the one the table files under its duration. */
  predicate Timed(ins: Insertion) {
    ins.minutes in TimerMinutes && ins.videoId == TimerId(ins.minutes)
  }

  /** Count the slide's duration: in the total always, in the range's total only for a slide in range (main.py:262-286). */
  function Count(st: TimerState, inRange: bool, d: int): (r: TimerState)
    ensures SameRange(r, st) && r.insertedCount == st.insertedCount && r.slideSuggestedMins == st.slideSuggestedMins
    ensures r.slideDuration == d && r.minsAssignedSoFar == st.minsAssignedSoFar + d
    ensures r.rangeMinsAssignedSoFar == st.rangeMinsAssignedSoFar + (if inRange then d else 0)
  {
    st.(slideDuration := d, minsAssignedSoFar := st.minsAssignedSoFar + d,
        rangeMinsAssignedSoFar := if inRange then st.rangeMinsAssignedSoFar + d else st.rangeMinsAssignedSoFar)
  }

  /**
   * Look the counted duration's video up, insert it and reset the per-slide
   * variables (main.py:288-293, 366-368): a duration without a timer video
   * raises KeyError, and every other one inserts exactly one video.
   */
  function Insert(counted: TimerState, pageId: string): (r: Result<Stepped, Failure>)
    ensures r.Err? <==> counted.slideDuration !in TimerMinutes
    ensures r.Err? ==> r.error == KeyError(DecimalString(counted.slideDuration))
    ensures r.Ok? ==> r.value.insertion.Some? && Timed(r.value.insertion.value)
    ensures r.Ok? ==> r.value.insertion.value.pageId == pageId && r.value.insertion.value.minutes == counted.slideDuration
    ensures r.Ok? ==> var next := r.value.state;
              SameRange(next, counted) && Ready(next) && next.insertedCount == counted.insertedCount + 1
              && next.minsAssignedSoFar == counted.minsAssignedSoFar
              && next.rangeMinsAssignedSoFar == counted.rangeMinsAssignedSoFar
  {
    TimerVideoDefined(counted.slideDuration);
    var url :- TimerVideo(counted.slideDuration);
    TimerVideoInsertable(counted.slideDuration);
    if url == [] then
      assert false;
      Ok(Stepped(counted, None))
    else
      Ok(Stepped(counted.(insertedCount := counted.insertedCount + 1, slideSuggestedMins := 0, slideDuration := 0),
                 Some(Insertion(pageId, GetVideoId(url), counted.slideDuration))))
  }

  /** One iteration of the `for slide in slides` loop of `add_videos`; an Err aborts the run. */
  function Step(slides: seq<Slide>, st: TimerState, slide: Slide, op: Operator): (r: Result<Stepped, Failure>)
    ensures r.Ok? && r.value.insertion.Some? ==> slide.objectId == Some(r.value.insertion.value.pageId)
  {
    match slide.objectId
    case None => Ok(Stepped(st, None))
    case Some(pageId) =>
      var n :- SlideNumber(slide);
      var declared :- Declare(slides, st, slide, n);
      var inRange := InRange(n, declared.rangeStart, declared.rangeEnd);
      var sugg :- SuggestedTime(slide.notes);
      var ready := Suggest(declared, sugg);
      Assign(n, ready, inRange, pageId, op)
  }

  /** Skip the slide, or count its duration and insert its video. */
  function Assign(n: int, st: TimerState, inRange: bool, pageId: string, op: Operator): (r: Result<Stepped, Failure>)
    ensures r.Ok? && r.value.insertion.None? ==> r.value.state == st && st.slideSuggestedMins == 0 && !inRange
    ensures r.Ok? && r.value.insertion.Some? ==>
              var ins := r.value.insertion.value;
              Timed(ins) && ins.pageId == pageId
              && r.value.state.minsAssignedSoFar == st.minsAssignedSoFar + ins.minutes
              && r.value.state.rangeMinsAssignedSoFar == st.rangeMinsAssignedSoFar + (if inRange then ins.minutes else 0)
              && r.value.state.insertedCount == st.insertedCount + 1
              && Ready(r.value.state)
  {
    match Resolve(n, st, inRange, op)
    case None => Ok(Stepped(st, None))
    case Some(d) => Insert(Count(st, inRange, d), pageId)
  }

  // ----- The whole loop -----

  /**
   * The state after a prefix of the deck, the videos inserted so far, and the
   * exception that ended the run, if any. After an exception `state` is the
   * state before the failing slide. The source has by then added that slide's
   * duration to `mins_assigned_so_far` and `range_mins_assigned_so_far`
   * (main.py:274-275, 280-281, 286) before the lookup at main.py:291 raises;
   * the exception ends the run, so nothing reads those counters again.
   */
  datatype Outcome = Outcome(state: TimerState, inserted: seq<Insertion>, failure: Option<Failure>)

  /** The slides processed in order by `step`, stopping at the first exception. */
  function Fold<X>(xs: seq<X>, step: (TimerState, X) -> Result<Stepped, Failure>): (r: Outcome)
    ensures |r.inserted| <= |xs|
    decreases |xs|
  {
    if |xs| == 0 then Outcome(Initial, [], None)
    else
      var prev := Fold(xs[..|xs| - 1], step);
      if prev.failure.Some? then prev else Then(prev, step(prev.state, xs[|xs| - 1]))
  }

  /** Record one more processed slide after a run that has not failed. */
  function Then(prev: Outcome, r: Result<Stepped, Failure>): Outcome {
    match r
    case Err(e) => prev.(failure := Some(e))
    case Ok(s) => Outcome(s.state, prev.inserted + (if s.insertion.Some? then [s.insertion.value] else []), None)
  }

  /** The step of `add_videos` on a given deck and operator. */
  function StepOf(slides: seq<Slide>, op: Operator): (TimerState, Slide) -> Result<Stepped, Failure> {
    (st, slide) => Step(slides, st, slide, op)
  }

  /** `add_videos` over a whole deck. */
  function Run(slides: seq<Slide>, op: Operator): (r: Outcome)
    ensures |r.inserted| <= |slides|
  {
    Fold(slides, StepOf(slides, op))
  }

  lemma FoldNext<X>(xs: seq<X>, step: (TimerState, X) -> Result<Stepped, Failure>, i: nat)
    requires i < |xs| && Fold(xs[..i], step).failure.None?
    ensures Fold(xs[..i + 1], step) == Then(Fold(xs[..i], step), step(Fold(xs[..i], step).state, xs[i]))
  {
    assert xs[..i + 1][..i] == xs[..i];
  }

  /** Once a slide has raised, the rest of the deck changes nothing. */
  lemma {:induction false} FoldFailureSticks<X>(xs: seq<X>, step: (TimerState, X) -> Result<Stepped, Failure>, k: nat)
    requires k <= |xs| && Fold(xs[..k], step).failure.Some?
    ensures Fold(xs, step) == Fold(xs[..k], step)
    decreases |xs| - k
  {
    if k < |xs| {
      assert xs[..|xs| - 1][..k] == xs[..k];
      FoldFailureSticks(xs[..|xs| - 1], step, k);
    } else {
      assert xs[..k] == xs;
    }
  }

  // ----- What one slide does -----

  /** The operator is consulted only for a slide in range that also has its own suggestion. */
  lemma OperatorOnlyOnConflict(n: int, st: TimerState, inRange: bool, op1: Operator, op2: Operator)
    requires !(inRange && st.slideSuggestedMins != 0)
    ensures Resolve(n, st, inRange, op1) == Resolve(n, st, inRange, op2)
  {
  }

  /** The four branches: skip, the operator's answer, the range average, the slide's own suggestion. */
  lemma ResolveBranches(n: int, st: TimerState, inRange: bool, op: Operator)
    ensures !inRange && st.slideSuggestedMins == 0 ==> Resolve(n, st, inRange, op).None?
    ensures inRange && st.slideSuggestedMins != 0 ==> Resolve(n, st, inRange, op) == Some(op(PromptOf(n, st)))
    ensures inRange && st.slideSuggestedMins == 0 ==> Resolve(n, st, inRange, op) == Some(st.rangeAvgMinsPerSlide)
    ensures !inRange && st.slideSuggestedMins != 0 ==> Resolve(n, st, inRange, op) == Some(st.slideSuggestedMins)
  {
  }

  /** How one processed slide moves the counters. */
  predicate Advances(st: TimerState, s: Stepped) {
    match s.insertion
    case None =>
      s.state.minsAssignedSoFar == st.minsAssignedSoFar
      && s.state.rangeMinsAssignedSoFar == st.rangeMinsAssignedSoFar
      && s.state.insertedCount == st.insertedCount
      && (Ready(st) ==> Ready(s.state))
    case Some(ins) =>
      ins.minutes in TimerMinutes
      && s.state.minsAssignedSoFar == st.minsAssignedSoFar + ins.minutes
      && (s.state.rangeMinsAssignedSoFar == st.rangeMinsAssignedSoFar
          || s.state.rangeMinsAssignedSoFar == st.rangeMinsAssignedSoFar + ins.minutes)
      && s.state.insertedCount == st.insertedCount + 1
      && Ready(s.state)
  }

  /**
   * A slide either inserts nothing and leaves the totals alone, or inserts
   * one tabulated video and adds its minutes to the presentation total and
   * possibly to the range total; a new range declaration never resets the
   * range total.
   */
  lemma StepAdvances(slides: seq<Slide>, st: TimerState, slide: Slide, op: Operator)
    requires Step(slides, st, slide, op).Ok?
    ensures Advances(st, Step(slides, st, slide, op).value)
    ensures Step(slides, st, slide, op).value.insertion.Some? ==>
              slide.objectId == Some(Step(slides, st, slide, op).value.insertion.value.pageId)
    ensures Step(slides, st, slide, op).value.state.rangeMinsAssignedSoFar >= st.rangeMinsAssignedSoFar
  {
    if slide.objectId.Some? {
      var n := SlideNumber(slide).value;
      var declared := Declare(slides, st, slide, n).value;
      var inRange := InRange(n, declared.rangeStart, declared.rangeEnd);
      var ready := Suggest(declared, SuggestedTime(slide.notes).value);
      assert Step(slides, st, slide, op) == Assign(n, ready, inRange, slide.objectId.value, op);
      AssignAdvances(n, ready, inRange, op, st, slide);
    }
  }

  lemma AssignAdvances(n: int, ready: TimerState, inRange: bool, op: Operator, st: TimerState, slide: Slide)
    requires slide.objectId.Some? && Assign(n, ready, inRange, slide.objectId.value, op).Ok?
    requires ready.minsAssignedSoFar == st.minsAssignedSoFar && ready.rangeMinsAssignedSoFar == st.rangeMinsAssignedSoFar
    requires ready.insertedCount == st.insertedCount && ready.slideDuration == st.slideDuration
    ensures Advances(st, Assign(n, ready, inRange, slide.objectId.value, op).value)
    ensures Assign(n, ready, inRange, slide.objectId.value, op).value.state.rangeMinsAssignedSoFar >= st.rangeMinsAssignedSoFar
  {
    var r := Assign(n, ready, inRange, slide.objectId.value, op).value;
    if r.insertion.Some? {
      var ins := r.insertion.value;
      TimerMinutesBounds(ins.minutes);
      assert r.state.rangeMinsAssignedSoFar == st.rangeMinsAssignedSoFar + (if inRange then ins.minutes else 0);
    }
  }

  /** A range declared on a slide already governs that slide: without its own suggestion it gets the range average. */
  lemma DeclarationCoversItsSlide(slides: seq<Slide>, st: TimerState, slide: Slide, op: Operator, decl: RangeDecl)
    requires slide.objectId.Some? && SlideNumber(slide).Ok?
    requires FirstRange(slide.pageElements) == Some(decl)
    requires InRange(SlideNumber(slide).value, decl.start, decl.end)
    requires SuggestedTime(slide.notes) == Ok(None) && Ready(st)
    requires Step(slides, st, slide, op).Ok?
    ensures var s := Step(slides, st, slide, op).value;
            s.insertion.Some?
            && Ok(s.insertion.value.minutes) == AvgMinsPerSlide(NumSlidesInRange(decl.start, decl.end), decl.minutes)
            && s.state.rangeStart == decl.start && s.state.rangeEnd == decl.end && s.state.rangeTotalMins == decl.minutes
            && s.state.rangeInfoSlideNumber == SlideNumber(slide).value
            && s.state.rangeMinsAssignedSoFar == st.rangeMinsAssignedSoFar + s.insertion.value.minutes
  {
    var n := SlideNumber(slide).value;
    var declared := Declare(slides, st, slide, n).value;
    assert Step(slides, st, slide, op) == Assign(n, declared, true, slide.objectId.value, op);
  }

  /**
   * A range given fewer minutes than it has slides averages 0 minutes, and
   * there is no 0-minute video: its first slide without a suggestion of its
   * own raises KeyError('0').
   */
  lemma ShortRangeAborts(slides: seq<Slide>, st: TimerState, slide: Slide, op: Operator, decl: RangeDecl)
    requires slide.objectId.Some? && SlideNumber(slide).Ok?
    requires FirstRange(slide.pageElements) == Some(decl)
    requires InRange(SlideNumber(slide).value, decl.start, decl.end)
    requires SuggestedTime(slide.notes) == Ok(None) && Ready(st)
    requires SuggestedSum(slides, decl.start, decl.end).Ok?
    requires decl.minutes < NumSlidesInRange(decl.start, decl.end)
    ensures Step(slides, st, slide, op) == Err(KeyError("0"))
  {
    var n := SlideNumber(slide).value;
    AvgZero(NumSlidesInRange(decl.start, decl.end), decl.minutes);
    var declared := Declare(slides, st, slide, n).value;
    assert declared.rangeAvgMinsPerSlide == 0;
    assert Step(slides, st, slide, op) == Assign(n, declared, true, slide.objectId.value, op);
    AverageZeroAborts(n, declared, slide.objectId.value, op);
  }

  /** A slide in range, without a suggestion, in a range averaging 0 minutes: KeyError('0'). */
  lemma AverageZeroAborts(n: int, st: TimerState, pageId: string, op: Operator)
    requires st.slideSuggestedMins == 0 && st.rangeAvgMinsPerSlide == 0
    ensures Assign(n, st, true, pageId, op) == Err(KeyError("0"))
  {
    var counted := Count(st, true, 0);
    assert Resolve(n, st, true, op) == Some(0);
    assert Assign(n, st, true, pageId, op) == Insert(counted, pageId);
    InsertZero(counted, pageId);
  }

  /** There is no 0-minute video: inserting one raises KeyError('0'). */
  lemma InsertZero(counted: TimerState, pageId: string)
    requires counted.slideDuration == 0
    ensures Insert(counted, pageId) == Err(KeyError("0"))
  {
    assert 0 !in TimerMinutes;
    DecimalZero();
  }

  /** Outside every range, a slide's own suggestion is its duration and the range total is untouched. */
  lemma OwnSuggestionOutsideRange(slides: seq<Slide>, st: TimerState, slide: Slide, op: Operator, m: int)
    requires slide.objectId.Some? && SlideNumber(slide).Ok?
    requires FirstRange(slide.pageElements).None?
    requires !InRange(SlideNumber(slide).value, st.rangeStart, st.rangeEnd)
    requires SuggestedTime(slide.notes) == Ok(Some(m)) && m in TimerMinutes
    ensures Step(slides, st, slide, op).Ok?
    ensures var s := Step(slides, st, slide, op).value;
            s.insertion.Some? && s.insertion.value.minutes == m && s.insertion.value.videoId == TimerId(m)
            && s.state.rangeMinsAssignedSoFar == st.rangeMinsAssignedSoFar
  {
    var n := SlideNumber(slide).value;
    var ready := st.(slideSuggestedMins := m);
    assert Step(slides, st, slide, op) == Assign(n, ready, false, slide.objectId.value, op);
    AssignOwnSuggestion(n, ready, slide.objectId.value, op);
  }

  lemma AssignOwnSuggestion(n: int, st: TimerState, pageId: string, op: Operator)
    requires st.slideSuggestedMins in TimerMinutes
    ensures Assign(n, st, false, pageId, op).Ok?
    ensures var s := Assign(n, st, false, pageId, op).value;
            s.insertion.Some? && s.insertion.value.minutes == st.slideSuggestedMins
            && s.insertion.value.videoId == TimerId(st.slideSuggestedMins)
            && s.state.rangeMinsAssignedSoFar == st.rangeMinsAssignedSoFar
  {
    assert Resolve(n, st, false, op) == Some(st.slideSuggestedMins);
  }

  /** A slide in range with a suggestion of its own lasts what the operator answers, shown both figures. */
  lemma OperatorDecidesConflict(slides: seq<Slide>, st: TimerState, slide: Slide, op: Operator, m: int)
    requires slide.objectId.Some? && SlideNumber(slide).Ok?
    requires FirstRange(slide.pageElements).None?
    requires InRange(SlideNumber(slide).value, st.rangeStart, st.rangeEnd)
    requires SuggestedTime(slide.notes) == Ok(Some(m)) && m != 0
    ensures var ask := PromptOf(SlideNumber(slide).value, st.(slideSuggestedMins := m));
            ask.suggestedMins == m && ask.rangeAvgMinsPerSlide == st.rangeAvgMinsPerSlide
            && (op(ask) in TimerMinutes <==> Step(slides, st, slide, op).Ok?)
            && (Step(slides, st, slide, op).Ok? ==>
                  var ins := Step(slides, st, slide, op).value.insertion.value;
                  ins.minutes == op(ask) && ins.videoId == TimerId(op(ask)))
  {
    var n := SlideNumber(slide).value;
    var ready := st.(slideSuggestedMins := m);
    assert Step(slides, st, slide, op) == Assign(n, ready, true, slide.objectId.value, op);
    assert Resolve(n, ready, true, op) == Some(op(PromptOf(n, ready)));
  }

  // ----- What the whole run does -----

  /** The minutes of the inserted videos, added up. */
  function Minutes(ins: seq<Insertion>): int {
    if |ins| == 0 then 0 else Minutes(ins[..|ins| - 1]) + ins[|ins| - 1].minutes
  }

  /** The counters of `add_videos` agree with the videos inserted so far. */
  predicate Consistent(o: Outcome) {
    o.state.insertedCount == |o.inserted|
    && o.state.minsAssignedSoFar == Minutes(o.inserted)
    && 0 <= o.state.rangeMinsAssignedSoFar <= o.state.minsAssignedSoFar
    && Ready(o.state)
    && forall j :: 0 <= j < |o.inserted| ==> o.inserted[j].minutes in TimerMinutes
  }

  /** A step that advances the counters as `Advances` says keeps them consistent over any sequence of slides. */
  lemma {:induction false} FoldKeepsConsistent<X>(xs: seq<X>, step: (TimerState, X) -> Result<Stepped, Failure>)
    requires forall st: TimerState, x: X :: step(st, x).Ok? ==> Advances(st, step(st, x).value)
    ensures Consistent(Fold(xs, step))
    ensures |Fold(xs, step).inserted| <= |xs|
    decreases |xs|
  {
    if |xs| > 0 {
      var prev := Fold(xs[..|xs| - 1], step);
      FoldKeepsConsistent(xs[..|xs| - 1], step);
      if prev.failure.None? {
        var r := step(prev.state, xs[|xs| - 1]);
        assert Fold(xs, step) == Then(prev, r);
        ThenKeepsConsistent(prev, r);
      }
    }
  }

  /** One more slide processed as `Advances` says keeps the counters consistent. */
  lemma ThenKeepsConsistent(prev: Outcome, r: Result<Stepped, Failure>)
    requires Consistent(prev) && (r.Ok? ==> Advances(prev.state, r.value))
    ensures Consistent(Then(prev, r))
    ensures |Then(prev, r).inserted| <= |prev.inserted| + 1
  {
    if r.Ok? && r.value.insertion.Some? {
      var ins := prev.inserted + [r.value.insertion.value];
      assert ins[..|ins| - 1] == prev.inserted;
      assert Minutes(ins) == Minutes(prev.inserted) + r.value.insertion.value.minutes;
      assert forall j :: 0 <= j < |prev.inserted| ==> ins[j] == prev.inserted[j];
    } else if r.Ok? {
      assert prev.inserted + [] == prev.inserted;
    }
  }

  /**
   * After `add_videos`, finished or aborted: the inserted count is the number
   * of videos inserted, at most one per slide; the minutes assigned are their
   * sum; the range minutes are between 0 and that sum; no suggestion or
   * duration is pending; every video is one of the table's.
   */
  lemma RunConsistent(slides: seq<Slide>, op: Operator)
    ensures Consistent(Run(slides, op))
    ensures |Run(slides, op).inserted| <= |slides|
  {
    var step := StepOf(slides, op);
    forall st: TimerState, x: Slide | step(st, x).Ok? ensures Advances(st, step(st, x).value) {
      StepAdvances(slides, st, x, op);
    }
    FoldKeepsConsistent(slides, step);
  }

  /** A step that only ever inserts videos satisfying `ok` leaves a run whose every video satisfies it. */
  lemma {:induction false} FoldInsertsOnly<X>(xs: seq<X>, step: (TimerState, X) -> Result<Stepped, Failure>, ok: Insertion -> bool)
    requires forall st: TimerState, x: X :: step(st, x).Ok? && step(st, x).value.insertion.Some? ==> ok(step(st, x).value.insertion.value)
    ensures forall j :: 0 <= j < |Fold(xs, step).inserted| ==> ok(Fold(xs, step).inserted[j])
    decreases |xs|
  {
    if |xs| > 0 {
      var prev := Fold(xs[..|xs| - 1], step);
      FoldInsertsOnly(xs[..|xs| - 1], step, ok);
      if prev.failure.None? {
        var r := step(prev.state, xs[|xs| - 1]);
        assert Fold(xs, step) == Then(prev, r);
        if r.Ok? && r.value.insertion.Some? {
          var ins := prev.inserted + [r.value.insertion.value];
          assert forall j :: 0 <= j < |prev.inserted| ==> ins[j] == prev.inserted[j];
        } else if r.Ok? {
          assert prev.inserted + [] == prev.inserted;
        }
      }
    }
  }

  /** A slide's video, when it gets one, is the video the table files under the minutes it was given. */
  lemma StepTimed(slides: seq<Slide>, st: TimerState, slide: Slide, op: Operator)
    requires Step(slides, st, slide, op).Ok? && Step(slides, st, slide, op).value.insertion.Some?
    ensures Timed(Step(slides, st, slide, op).value.insertion.value)
  {
    var n := SlideNumber(slide).value;
    var declared := Declare(slides, st, slide, n).value;
    var inRange := InRange(n, declared.rangeStart, declared.rangeEnd);
    var ready := Suggest(declared, SuggestedTime(slide.notes).value);
    assert Step(slides, st, slide, op) == Assign(n, ready, inRange, slide.objectId.value, op);
  }

  /** Every video `add_videos` inserts counts down the minutes it was inserted for, finished or aborted. */
  lemma RunTimed(slides: seq<Slide>, op: Operator)
    ensures forall j :: 0 <= j < |Run(slides, op).inserted| ==> Timed(Run(slides, op).inserted[j])
  {
    var step := StepOf(slides, op);
    var ok := (ins: Insertion) => Timed(ins);
    forall st: TimerState, x: Slide | step(st, x).Ok? && step(st, x).value.insertion.Some?
      ensures ok(step(st, x).value.insertion.value)
    {
      StepTimed(slides, st, x, op);
    }
    FoldInsertsOnly(slides, step, ok);
  }

  /**
   * The j-th inserted video sits on slide `at[j]` of the deck; the indices
   * rise strictly, so no slide gets two videos and they follow the deck's order.
   */
  predicate PlacedOn(slides: seq<Slide>, inserted: seq<Insertion>, at: seq<nat>) {
    && |at| == |inserted|
    && (forall j :: 0 <= j < |at| ==> at[j] < |slides| && slides[at[j]].objectId == Some(inserted[j].pageId))
    && (forall j, k :: 0 <= j < k < |at| ==> at[j] < at[k])
  }

  /** A step that only puts a video on the slide it is given places the fold's videos one slide each. */
  lemma {:induction false} FoldPlaces(xs: seq<Slide>, step: (TimerState, Slide) -> Result<Stepped, Failure>) returns (at: seq<nat>)
    requires forall st: TimerState, x: Slide :: step(st, x).Ok? && step(st, x).value.insertion.Some?
               ==> x.objectId == Some(step(st, x).value.insertion.value.pageId)
    ensures PlacedOn(xs, Fold(xs, step).inserted, at)
    decreases |xs|
  {
    if |xs| == 0 {
      at := [];
    } else {
      var n := |xs| - 1;
      var prev := Fold(xs[..n], step);
      at := FoldPlaces(xs[..n], step);
      PlacedGrow(xs, n, prev.inserted, at);
      if prev.failure.None? {
        var r := step(prev.state, xs[n]);
        assert Fold(xs, step) == Then(prev, r);
        if r.Ok? && r.value.insertion.Some? {
          PlacedAppend(xs, n, prev.inserted, at, r.value.insertion.value);
          at := at + [n];
        } else if r.Ok? {
          assert prev.inserted + [] == prev.inserted;
        }
      }
    }
  }

  /** Videos placed on the first `n` slides are placed on the deck, before slide `n`. */
  lemma PlacedGrow(slides: seq<Slide>, n: nat, inserted: seq<Insertion>, at: seq<nat>)
    requires n <= |slides| && PlacedOn(slides[..n], inserted, at)
    ensures PlacedOn(slides, inserted, at) && forall j :: 0 <= j < |at| ==> at[j] < n
  {
    assert forall j :: 0 <= j < |at| ==> slides[..n][at[j]] == slides[at[j]];
  }

  /** A video on slide `n`, after videos on earlier slides, keeps the placement. */
  lemma PlacedAppend(slides: seq<Slide>, n: nat, inserted: seq<Insertion>, at: seq<nat>, ins: Insertion)
    requires PlacedOn(slides, inserted, at) && forall j :: 0 <= j < |at| ==> at[j] < n
    requires n < |slides| && slides[n].objectId == Some(ins.pageId)
    ensures PlacedOn(slides, inserted + [ins], at + [n])
  {
    var ins' := inserted + [ins];
    assert forall j :: 0 <= j < |inserted| ==> ins'[j] == inserted[j];
  }

  /** `add_videos` puts each video it inserts on a slide of its own, in the deck's order. */
  lemma RunPlacesVideos(slides: seq<Slide>, op: Operator)
    ensures exists at :: PlacedOn(slides, Run(slides, op).inserted, at)
  {
    var step := StepOf(slides, op);
    forall st: TimerState, x: Slide | step(st, x).Ok? && step(st, x).value.insertion.Some?
      ensures x.objectId == Some(step(st, x).value.insertion.value.pageId)
    {
      assert step(st, x) == Step(slides, st, x, op);
    }
    var at := FoldPlaces(slides, step);
    assert Run(slides, op) == Fold(slides, step);
    assert PlacedOn(slides, Run(slides, op).inserted, at);
  }

  /** Videos once inserted stay inserted: a later exception does not undo them. */
  lemma {:induction false} FoldKeepsInserted<X>(xs: seq<X>, step: (TimerState, X) -> Result<Stepped, Failure>, k: nat)
    requires k <= |xs|
    ensures Fold(xs[..k], step).inserted <= Fold(xs, step).inserted
    decreases |xs| - k
  {
    if k < |xs| {
      assert xs[..|xs| - 1][..k] == xs[..k];
      FoldKeepsInserted(xs[..|xs| - 1], step, k);
    } else {
      assert xs[..k] == xs;
    }
  }

  // ----- The loop in imperative form -----

  /** The range declaration part of the loop body (main.py:236-253). */
  method DeclareRange(slides: seq<Slide>, st: TimerState, slide: Slide, n: int) returns (r: Result<TimerState, Failure>)
    ensures r == Declare(slides, st, slide, n)
  {
    var next := st;
    var decl := GetRange(slide);
    if decl.Some? {
      next := next.(rangeInfoSlideNumber := n, rangeStart := decl.value.start, rangeEnd := decl.value.end,
                    rangeTotalMins := decl.value.minutes);
      var avg :- AvgMinsPerSlide(NumSlidesInRange(next.rangeStart, next.rangeEnd), next.rangeTotalMins);
      next := next.(rangeAvgMinsPerSlide := avg);
      var suggestedTimesSum :- AddAllSuggestedTimes(slides, next.rangeStart, next.rangeEnd);
    }
    return Ok(next);
  }

  /** The duration cascade (main.py:262-286), then the insertion. */
  method AssignDuration(n: int, st: TimerState, inRange: bool, pageId: string, op: Operator) returns (r: Result<Stepped, Failure>)
    ensures r == Assign(n, st, inRange, pageId, op)
  {
    var next := st;
    if !inRange && next.slideSuggestedMins == 0 {
      return Ok(Stepped(next, None));
    }
    if inRange && next.slideSuggestedMins != 0 {
      next := next.(slideDuration := op(PromptOf(n, next)));
      next := next.(minsAssignedSoFar := next.minsAssignedSoFar + next.slideDuration,
                    rangeMinsAssignedSoFar := next.rangeMinsAssignedSoFar + next.slideDuration);
    } else if inRange {
      next := next.(slideDuration := next.rangeAvgMinsPerSlide);
      next := next.(minsAssignedSoFar := next.minsAssignedSoFar + next.slideDuration,
                    rangeMinsAssignedSoFar := next.rangeMinsAssignedSoFar + next.slideDuration);
    } else {
      next := next.(slideDuration := next.slideSuggestedMins);
      next := next.(minsAssignedSoFar := next.minsAssignedSoFar + next.slideDuration);
    }
    assert next == Count(st, inRange, Resolve(n, st, inRange, op).value);
    r := Insert(next, pageId);
  }

  /** The body of the `for slide in slides` loop, updating the loop's variables in source order. */
  method ProcessSlide(slides: seq<Slide>, st: TimerState, slide: Slide, op: Operator) returns (r: Result<Stepped, Failure>)
    ensures r == Step(slides, st, slide, op)
  {
    if slide.objectId.None? {
      return Ok(Stepped(st, None));
    }
    var n :- SlideNumber(slide);
    var next :- DeclareRange(slides, st, slide, n);
    // the slide number was read above, so this second reading cannot raise
    var inRange := IsSlideInRange(slide, next.rangeStart, next.rangeEnd).value;
    var sugg :- GetSuggestedTime(slide);
    if sugg.Some? {
      next := next.(slideSuggestedMins := sugg.value);
    }
    r := AssignDuration(n, next, inRange, slide.objectId.value, op);
  }

  /** `add_videos`: insert a timer video on every slide that gets a duration, stopping at the first exception. */
  method AddVideos(slides: seq<Slide>, op: Operator) returns (o: Outcome)
    ensures o == Run(slides, op)
    ensures Consistent(o) && |o.inserted| <= |slides|
  {
    RunConsistent(slides, op);
    ghost var step := StepOf(slides, op);
    var st := Initial;
    var inserted: seq<Insertion> := [];
    for i := 0 to |slides|
      invariant Fold(slides[..i], step) == Outcome(st, inserted, None)
    {
      var r := ProcessSlide(slides, st, slides[i], op);
      FoldNext(slides, step, i);
      assert step(st, slides[i]) == r;
      if r.Err? {
        o := Outcome(st, inserted, Some(r.error));
        FoldFailureSticks(slides, step, i + 1);
        return;
      }
      st := r.value.state;
      if r.value.insertion.Some? {
        inserted := inserted + [r.value.insertion.value];
      }
    }
    assert slides[..|slides|] == slides;
    o := Outcome(st, inserted, None);
  }
}
