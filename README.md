# Slide timers, modelled in Dafny

`main.py` adds countdown videos to a Google Slides deck. It walks the slides in order and works out a whole number of minutes for each slide. The minutes come from one of three places:

- a **range declaration** on a slide ("Diapositivas 3–6 Para esta lección, planifique aproximadamente: 10 minutos");
- the slide's own **suggested time** in its speaker notes ("Tiempo sugerido: 2"). The notes are read element by element. The first element whose text begins with the phrase gives the minutes, unless "para diapositivas" starts on that element's first line; such an element is passed over, and a later element can still give the suggestion;
- the **operator's answer**, when a slide in a range has its own suggestion as well.

The script then inserts the YouTube timer for that many minutes from a fixed table. A missing entry raises `KeyError` and ends the run. A second command deletes every video in the deck.

This project models that engine in Dafny, module by module:

| module | file | what it holds |
|---|---|---|
| `Wrappers` | `wrappers.dfy` | `Option` and `Result` |
| `PyText` | `pytext.dfy` | the Python primitives the engine uses: `int()`, `str()`, `lstrip`, `partition`, `split(...)[0]`, and `\s`/`\d`/`\w` |
| `Patterns` | `patterns.dfy` | the three regular expressions, written as matchers over strings |
| `Timers` | `timers.dfy` | `TIMER_VIDEOS`, `get_video_id`, `get_presentation_id` |
| `Deck` | `deck.dfy` | the deck and the helpers of `main.py:99-206` |
| `Engine` | `engine.dfy` | the loop of `add_videos` |
| `Deletion` | `deletion.dfy` | the request list of `delete_videos` |

Python's exceptions are values of `PyText.Failure`:

- `ValueError` when `int()` is given text it cannot read;
- `ZeroDivisionError` when a range's end is one less than its start;
- `KeyError` when a duration has no timer video.

Operations that can raise return a `Result`. Nothing is excluded by a precondition.

The loops of the source are methods with loop invariants:
- flattening text;
- `get_range`;
- `get_suggested_time_for_slide`;
- `get_total_slides_in_pres`;
- `add_all_suggested_times_in_range`;
- `add_videos`;
- `delete_videos`.

Each method is proved equal to a specification function, and the properties are proved about those functions. The local variables of `add_videos` form the record `Engine.TimerState`. The operator's console answer is a function `Engine.Operator` from the prompt's contents to an integer.

## Model

| member | source | states |
|---|---|---|
| `PyText.ParseInt` | main.py:120 | `int(s)` fails only with `ValueError(s)`, and text that starts with a digit never reads as negative |
| `PyText.ParseIntDigits` | main.py:120 | `int()` of a non-empty run of ASCII digits is its decimal value |
| `PyText.ParseIntNegative` | main.py:120 | `int("-" + digits)` is minus the value of the digits |
| `PyText.ParseIntUnderscore` | main.py:200 | `int()` accepts one `_` between digit runs and ignores it: `int("1_0") == 10`, so the id "p1_0" is slide 10 |
| `PyText.GroupedJoin` | main.py:200 | two digit runs joined by `_` are a valid grouped numeral |
| `PyText.UngroupJoin` | main.py:200 | dropping the `_` of two joined runs gives the runs side by side |
| `PyText.GroupedChars` | main.py:200 | a grouped numeral starts with a digit and holds only digits and `_` |
| `PyText.DigitsGrouped` | main.py:200 | every non-empty digit run is a grouped numeral |
| `PyText.UngroupPlain` | main.py:200 | a digit run has no `_` to drop |
| `PyText.GroupedValueSpec` | main.py:200 | the value of a grouped numeral is the value of its digits with the `_` dropped |
| `PyText.ParseIntOfGrouped` | main.py:200 | `int()` of a grouped numeral is the value of its digits with the `_` dropped |
| `PyText.ParseIntUnsigned` | main.py:200 | `int()` of a grouped numeral that starts with a digit is its value |
| `PyText.ParseIntRoundTrip` | main.py:291 | `int(str(n)) == n` for every integer, so `str(duration)` names `duration` exactly |
| `PyText.ParseIntAcceptedChars` | main.py:165 | text that `int()` accepts consists only of the whitespace `int()` skips (`str.isspace` without U+001C to U+001F), signs, digits and `_` |
| `PyText.ParseIntRejectsPoint` | main.py:165 | any text containing `.` makes `int()` raise `ValueError` |
| `PyText.DecimalString` | main.py:291 | `str(n)` is non-empty and starts with `-` iff `n < 0` |
| `PyText.NatStringRoundTrip` | main.py:291 | the digits of `str(n)` read back as `n` |
| `PyText.LStripDropsSpaces` | main.py:50-52 | skipping a `\s` run keeps a suffix of the text and drops only `\s` whitespace |
| `PyText.LStripDropsIntSpaces` | main.py:200 | the leading whitespace that `int()` ignores: what remains is a suffix, and only that whitespace (not U+001C to U+001F) was dropped |
| `PyText.RStripDropsIntSpaces` | main.py:200 | the trailing whitespace that `int()` ignores: what remains is a prefix, and only that whitespace (not U+001C to U+001F) was dropped |
| `PyText.ParseIntRejectsSeparator` | main.py:200 | text holding any of U+001C to U+001F, even at its ends, makes `int()` raise `ValueError` |
| `PyText.LStripChar` | main.py:186 | `lstrip("p")` never makes the text longer, and what it keeps does not start with `p` |
| `PyText.LStripCharSuffix` | main.py:186 | what `lstrip("p")` keeps is the id's own suffix, and every character it dropped is a `p` |
| `PyText.FindFrom` | main.py:91 | the first occurrence of a separator at or after a position, or none |
| `PyText.PartitionTail` | main.py:91 | `s.partition(sep)[2]` is what follows the first `sep`, or `""` when `sep` does not occur |
| `PyText.SplitHead` | main.py:91 | `s.split(sep)[0]` is what precedes the first `sep`, or the whole of `s` |
| `PyText.PartitionAtFirst` | main.py:91 | a text whose head ends at its first `sep` partitions into exactly the rest |
| `PyText.SplitBefore` | main.py:91 | the head before a leading `sep`, or before the end, is what `split` keeps |
| `Patterns.Literal` | main.py:50 | a literal matches, ignoring case, iff the text starts with it; the rest follows it |
| `Patterns.Spaces1` | main.py:50 | `\s+` needs one whitespace character and consumes all that follow |
| `Patterns.LeadingDigits` | main.py:50 | `\d*` takes the longest run of digits |
| `Patterns.Digits1` | main.py:50 | `\d+` needs one digit, and the text is the digits followed by the rest |
| `Patterns.Dash` | main.py:50 | `[–—-]` accepts exactly the en dash, the em dash and the hyphen |
| `Patterns.MatchRange` | main.py:50 | `RANGE_PATTERN` matches only text starting with "Diapositivas", ignoring case |
| `Patterns.ScanStart` | main.py:50 | the `Diapositivas\s+<start>` stage needs the keyword |
| `Patterns.RangeRoundTrip` | main.py:50 | every declaration the pattern allows is read back as the values of its three numerals, whatever follows: the words in any letter case, any whitespace run where the pattern has `\s+` (non-empty) or `\s*` (possibly empty), any dash of the class, any runs of digits, leading zeros included ("03" reads as 3) |
| `Patterns.RangeMatches` | main.py:50 | `RANGE_PATTERN` matches a text with numbers `d` iff the text is a declaration in an allowed form (as for `RangeRoundTrip`) followed by anything, and `d` holds the values of its three numerals |
| `Patterns.LiteralParts` | main.py:50-52 | a literal that matched was spelled, in some letter case, by the text it consumed |
| `Patterns.SpacesParts` | main.py:50-52 | `\s+` consumed a non-empty run of whitespace |
| `Patterns.RangeParts` | main.py:50 | every match is made of the keyword, whitespace runs, the dash, the fixed wording, the unit and three runs of digits, in the pattern's order |
| `Patterns.PlainRangeForm` | main.py:50 | the usual wording, single spaces and a hyphen, is one of the allowed forms |
| `Patterns.MatchSuggested` | main.py:51 | `SPEAKER_NOTES_PATTERN` matches only after "tiempo sugerido" or "suggested time", and group 3 starts with a digit |
| `Patterns.SuggestedNumber` | main.py:51 | after the optional `:`/`-`, group 3 starts with a digit |
| `Patterns.SuggestedDigits` | main.py:51 | group 3 starts with a digit |
| `Patterns.SuggestedDigitsShape` | main.py:51 | group 3 is a run of digits, or a run of digits, `.` and a non-empty run of digits |
| `Patterns.MatchSuggestedShape` | main.py:51 | the same shape for every match of `SPEAKER_NOTES_PATTERN` |
| `Patterns.ParseIntOfDecimal` | main.py:165 | for group 3, `int()` raises iff it holds a `.`; without one it is the value of the digits |
| `Patterns.PhraseOf` | main.py:51 | either phrase, in any letter case, leads to the same reading of what follows it |
| `Patterns.SuggestionMatches` | main.py:51 | `SPEAKER_NOTES_PATTERN` matches a text with group 3 `g` iff the text is either phrase in any case, whitespace, `:`, `-` or no separator, whitespace, then `g` in the shape of `\d+(?:\.\d+)?`, with no digit after it and, when `g` has no point, no `.` and digit after it |
| `Patterns.SeparatorParts` | main.py:51 | only whitespace and at most one `:` or `-` come between the phrase and the number |
| `Patterns.NumberParts` | main.py:51 | group 3 takes every digit it can, and the fraction whenever a point and a digit follow |
| `Patterns.DecimalRoundTrip` | main.py:51 | any number of that shape, stopped where the pattern stops, is read whole as group 3 |
| `Patterns.SuggestionRoundTrip` | main.py:51 | in every allowed form (either phrase in any case, any whitespace, `:`, `-` or no separator) group 3 is `str(n)` when what follows cannot continue the number; no unit word is needed |
| `Patterns.SeparatorOf` | main.py:51 | whitespace, an optional `:` or `-` and whitespace before the number are skipped, whichever are present |
| `Patterns.FractionRoundTrip` | main.py:51 | group 3 keeps the point and the fraction |
| `Patterns.DecimalSuggestion` | main.py:162-165 | a suggestion with a fraction, such as "Tiempo sugerido: 2.5", matches in every allowed form, and `int()` of its group 3 raises |
| `Patterns.LineEnd` | main.py:52 | `.*` reaches up to the first line break and no further |
| `Patterns.LineEndFirst` | main.py:52 | no line break comes before the end of the first line |
| `Patterns.Unwanted` | main.py:52 | the guard needs at least the 17 characters of "para diapositivas"; its exact form is `UnwantedForm` |
| `Patterns.UnwantedForm` | main.py:52 | `UNWANTED_PATTERN` matches iff the text is: a part of the first line that ends at a word boundary, then "para", a non-empty whitespace run and "diapositivas" in any case, then nothing or a character that is not a word character, then anything |
| `Patterns.ParaDiapositivasParts` | main.py:52 | `para\s+diapositivas\b` matched only "para", a non-empty whitespace run, "diapositivas" and a word boundary after it |
| `Patterns.UnwantedSpec` | main.py:52 | the guard fires iff `\bpara\s+diapositivas\b` starts at some position of the first line |
| `Patterns.GuardFromSpec` | main.py:52 | trying the positions in turn from `q` finds the guard iff it starts at one of them on the first line |
| `Patterns.GuardHit` | main.py:52 | "para", a whitespace run and "diapositivas", in any case and each a whole word, with "para" on the first line, trigger `UNWANTED_PATTERN` whatever precedes them on that line and whatever follows |
| `Patterns.GuardMiss` | main.py:52 | text in which "pa" never occurs, in any case, escapes the guard |
| `Patterns.PlainSuggestionRead` | main.py:51-52 | "Tiempo sugerido: " + `str(n)` matches with group 3 `str(n)`, and escapes the guard |
| `Timers.TimerVideo` | main.py:291 | the lookup gives exactly `TIMER_VIDEOS[str(minutes)]`, or raises `KeyError(str(minutes))` |
| `Timers.TimerKeys` | main.py:33-47 | the table's keys are exactly `str` of 1–10, 15, 20 and 25 |
| `Timers.TimerVideoDefined` | main.py:33-47 | a duration has a video iff it is 1–10, 15, 20 or 25 minutes |
| `Timers.TimerMinutesBounds` | main.py:33-47 | every tabulated duration is between 1 and 25 minutes |
| `Timers.TimerId` | main.py:291-293 | each tabulated duration has an 11-character video id, and its lookup gives the watch URL of that id |
| `Timers.TimerIdInjective` | main.py:33-47 | different durations have different video ids, so the video shown identifies the duration |
| `Timers.TimerValuesDistinct` | main.py:33-47 | no two keys of the table share a URL |
| `Timers.TimerKeyOfUrl` | main.py:33-47 | the key can be recovered from its URL |
| `Timers.TimerUrlShape` | main.py:33-47 | every URL is the watch prefix followed by 11 characters |
| `Timers.WatchId` | main.py:95-96 | `get_video_id` of the watch prefix followed by an id is that id |
| `Timers.DecimalStringInjective` | main.py:291 | different durations give different keys |
| `Timers.GetVideoId` | main.py:95-96 | the id is no longer than the URL |
| `Timers.VideoIdOf` | main.py:95-96 | for a URL with no `v` before its first "v=", the id is exactly what follows "v=" |
| `Timers.TimerVideoIds` | main.py:33-47 | every table URL is non-empty and is the watch prefix followed by its 11-character id |
| `Timers.TimerVideoInsertable` | main.py:291-293 | the URL found for a duration is non-empty, so a video is always inserted |
| `Timers.GetPresentationId` | main.py:90-91 | the id is no longer than the URL |
| `Timers.PresentationIdOf` | main.py:90-91 | `.../d/<id>` or `.../d/<id>/edit...` yields `<id>` |
| `Timers.PresentationIdMissing` | main.py:90-91 | a URL without "/d/" yields the empty id |
| `Deck.FlattenText` | main.py:105-113 | the `full_text += content` loop computes `Flatten` |
| `Deck.Flatten` | main.py:105-113 | the text of a shape: the contents of its runs, in order (its properties are `FlattenAppend`, `FlattenSkips` and `FlattenOne`) |
| `Deck.FlattenAppend` | main.py:105-113 | flattening distributes over concatenation: text is never lost or reordered |
| `Deck.FlattenSkips` | main.py:107-111 | an element with no `textRun`, or a run with no `content`, adds nothing |
| `Deck.FlattenOne` | main.py:105-113 | a single run's content is the whole text |
| `Deck.FirstIndexSpec` | main.py:101-122 | the early-return search finds an element that qualifies with none before it, or none when no element qualifies |
| `Deck.FirstIndexAt` | main.py:101-122 | an element that qualifies, with none before it, is the one found |
| `Deck.FirstIndexFound` | main.py:142-167 | a loop that has found nothing so far and meets a qualifying element returns it |
| `Deck.FirstIndexNext` | main.py:142-167 | a loop that has found nothing and meets a non-qualifying element still has found nothing |
| `Deck.FirstRangeNone` | main.py:101-122 | a slide declares no range iff none of its elements matches `RANGE_PATTERN` |
| `Deck.FirstRangeIsFirst` | main.py:101-122 | otherwise the first matching element supplies the declaration |
| `Deck.GetRange` | main.py:100-122 | `get_range` returns the declaration of the first matching element, or `None` |
| `Deck.ReadSuggestion` | main.py:165 | a suggestion read from the notes is never negative |
| `Deck.Qualifies` | main.py:162-164 | an element qualifies only if it has text, longer than the shorter phrase, that matches and escapes the guard |
| `Deck.SuggestedTime` | main.py:138-167 | a suggestion that is found is never negative |
| `Deck.SuggestedTimeNone` | main.py:142-167 | no suggestion iff no notes element both matches and escapes the guard |
| `Deck.SuggestedTimeIsFirst` | main.py:142-167 | the first qualifying element decides, even when it raises and a later one would parse |
| `Deck.PlainNoteSuggests` | main.py:138-167 | a first notes element reading "Tiempo sugerido: " + `str(n)` makes the slide's suggestion `n` |
| `Deck.GetSuggestedTime` | main.py:138-167 | `get_suggested_time_for_slide` computes `SuggestedTime` |
| `Deck.SlideNumber` | main.py:199-200 | a slide without an objectId has no number |
| `Deck.SlideNumberRoundTrip` | main.py:199-206 | id "p" followed by `str(k)` is slide `k`, and it is in a range iff `start <= k <= end` |
| `Deck.SlideNumberOfBareP` | main.py:199-200 | the id "p" raises `ValueError` |
| `Deck.SlideNumberWithSeparator` | main.py:199-200 | an id such as "p5" followed by one of U+001C to U+001F raises `ValueError`, though `\s` would count that character as whitespace |
| `Deck.IsSlideInRange` | main.py:204-206 | it raises iff the number does; otherwise it answers `start <= k <= end` |
| `Deck.NumbersInRange` | main.py:204-206 | `k` is among the numbers from start to end iff it is in range |
| `Deck.NumSlidesInRange` | main.py:126-127 | the count is 0 exactly when the end is one less than the start, and positive exactly when start <= end |
| `Deck.NumSlidesCount` | main.py:126-127 | when the range is not reversed, `end - start + 1` counts its slide numbers |
| `Deck.FloorDiv` | main.py:134 | Python's floor division, bracketed by multiples of the divisor |
| `Deck.HalfTowardZero` | main.py:134 | `int(x / 2)` halves a whole number and cuts toward zero |
| `Deck.AvgMinsPerSlide` | main.py:131-134 | it raises `ZeroDivisionError` iff there are 0 slides |
| `Deck.AvgPositive` | main.py:131-134 | for slides to share, the average is the whole minutes per slide rounded down |
| `Deck.AvgIsQuotient` | main.py:131-134 | for slides to share, the average is `minutes // num_slides` |
| `Deck.AvgNegative` | main.py:131-134 | for a reversed range, the average is within half a minute of the negative quotient |
| `Deck.AvgZero` | main.py:131-134 | fewer minutes than slides averages 0 |
| `Deck.AvgDropsHalf` | main.py:134 | 10 minutes over slides 3 to 6 gives 2, not 2.5 |
| `Deck.GetTotalSlides` | main.py:171-176 | the counter loop counts the slides |
| `Deck.SlideSuggestion` | main.py:183-193 | one slide's contribution to the sum is never negative |
| `Deck.SumOverAppend` | main.py:182-195 | summing in two parts adds the sums, and the first part's exception comes first |
| `Deck.SumOverNonNegative` | main.py:182-195 | non-negative contributions give a non-negative sum |
| `Deck.SuggestedSumNonNegative` | main.py:180-195 | the sum of suggestions in a range is never negative |
| `Deck.ContributionOf` | main.py:183-193 | a slide outside the range adds 0; one in range adds its suggestion, 0 without one, or raises what the notes raise |
| `Deck.ContributionBadNumber` | main.py:186 | a slide whose id `int()` cannot read raises that `ValueError`, in range or not |
| `Deck.ContributionNoId` | main.py:183-184 | a slide without an objectId adds 0 |
| `Deck.SumOverStep` | main.py:182-193 | one more slide adds its contribution, or the sum stops at its exception |
| `Deck.SumOverStops` | main.py:182-195 | after an exception the later slides do not matter |
| `Deck.AddAllSuggestedTimes` | main.py:180-195 | the loop computes `SuggestedSum`, stopping at the first exception |
| `Deck.AddNextSlide` | main.py:182-193 | one turn of the loop computes the sum over one more slide |
| `Deck.AddSlideSuggestion` | main.py:183-193 | the loop body computes the slide's contribution |
| `Deck.SuggestedSumAppend` | main.py:180-195 | the sum over two decks joined is the sum of their sums |
| `Deck.SuggestedSumSkips` | main.py:183-189 | a slide without an objectId, or outside the range, changes nothing in the sum |
| `Engine.Declare` | main.py:236-253 | a declaration replaces start, end, total, average and info slide, and leaves the minute counters alone; with none, the state is unchanged; it raises only for the average or the sum |
| `Engine.Resolve` | main.py:262-286 | a slide is skipped iff it is out of range and has no suggestion |
| `Engine.ResolveBranches` | main.py:262-286 | the four branches: skip, operator, range average, own suggestion |
| `Engine.OperatorOnlyOnConflict` | main.py:266-273 | the operator's answer matters only for a slide in range with its own suggestion |
| `Engine.Count` | main.py:262-286 | the duration is added to the total always, and to the range total only in range |
| `Engine.Insert` | main.py:288-368 | a duration without a video raises `KeyError(str(d))`; otherwise the duration's own video (`TimerId(d)`) goes on the slide, `inserted_count` rises by one, and the suggested minutes and duration return to 0 |
| `Engine.InsertZero` | main.py:291 | a duration of 0 raises `KeyError('0')` |
| `Engine.Assign` | main.py:262-368 | a skip changes nothing; an insertion adds its minutes to the total, to the range total only in range, and leaves no pending suggestion |
| `Engine.StepAdvances` | main.py:226-368 | every processed slide inserts nothing and leaves the totals, or inserts one video on itself and adds its minutes; the range total never goes down, even on a new declaration |
| `Engine.AssignAdvances` | main.py:262-368 | the same, for the branch and the insertion alone |
| `Engine.Step` | main.py:227-368 | a video is only ever inserted on the slide being processed |
| `Engine.StepTimed` | main.py:288-368 | every video a step inserts is the one tabulated for its duration |
| `Engine.DeclarationCoversItsSlide` | main.py:236-286 | a range declared on a slide governs that slide: without a suggestion it gets the range average, counted in the range total |
| `Engine.ShortRangeAborts` | main.py:236-291 | a range with fewer minutes than slides averages 0, and its declaring slide then raises `KeyError('0')` |
| `Engine.AverageZeroAborts` | main.py:278-291 | an average of 0 on a slide in range without a suggestion raises `KeyError('0')` |
| `Engine.OwnSuggestionOutsideRange` | main.py:283-286 | outside every range, a tabulated suggestion is the duration, and the range total is untouched |
| `Engine.AssignOwnSuggestion` | main.py:283-286 | the same, for the branch alone |
| `Engine.OperatorDecidesConflict` | main.py:266-291 | in range with a suggestion, the operator is shown both figures, and the slide succeeds iff the answer is tabulated, lasting exactly the answer |
| `Engine.FoldNext` | main.py:226 | one more slide extends the run by one step |
| `Engine.FoldFailureSticks` | main.py:226-368 | after an exception, later slides change nothing |
| `Engine.FoldKeepsInserted` | main.py:226-368 | videos once inserted stay inserted, even when a later slide raises |
| `Engine.FoldInsertsOnly` | main.py:226-368 | a property of every insertion a step can make holds for every video of the run |
| `Engine.ThenKeepsConsistent` | main.py:226-368 | recording one more step keeps the counters consistent and adds at most one video |
| `Engine.FoldKeepsConsistent` | main.py:212-368 | a step that advances as `StepAdvances` says keeps the counters consistent |
| `Engine.RunConsistent` | main.py:212-368 | after the run, finished or aborted (then as it stood before the failing slide): `inserted_count` is the number of videos, at most one per slide; `mins_assigned_so_far` is their sum; the range total is between 0 and it; no suggestion is pending; every duration is tabulated |
| `Engine.Run` | main.py:210-368 | the run inserts no more videos than there are slides |
| `Engine.RunPlacesVideos` | main.py:210-368 | the j-th video goes on slide `at[j]` of the deck, and the indices `at` rise strictly: no slide gets two videos, and the videos follow the deck's order |
| `Engine.FoldPlaces` | main.py:226-368 | when each step puts a video only on the slide it processes, the whole fold places its videos that way |
| `Engine.RunTimed` | main.py:210-368 | every video the run inserts is the one tabulated for its duration |
| `Engine.DeclareRange` | main.py:236-253 | the declaration part of the loop body computes `Declare` |
| `Engine.AssignDuration` | main.py:262-368 | the cascade and the insertion compute `Assign` |
| `Engine.ProcessSlide` | main.py:227-368 | the loop body computes `Step` |
| `Engine.AddVideos` | main.py:210-368 | `add_videos` computes `Run`, and its counters are consistent with what it inserted |
| `Deletion.VideoIdsExact` | main.py:389-393 | one request per video element of a slide, naming exactly the video elements |
| `Deletion.DeckVideoIds` | main.py:388-393 | the ids of the video elements of the deck, slide after slide (its properties are `DeckVideoIdsExact` and `DeckVideoIdsAppend`) |
| `Deletion.DeckVideoIdsExact` | main.py:388-393 | the requests name exactly the video elements of the deck |
| `Deletion.DeckVideoIdsAppend` | main.py:388-393 | the requests of two decks joined are the first deck's, then the second's |
| `Deletion.DeleteVideos` | main.py:387-398 | the nested loops build the requests slide by slide, element by element, and the batch is sent iff there is one |
| `Deletion.PruneRemovesVideos` | main.py:387-398 | deleting the requested objects leaves a slide with no video |
| `Deletion.DeleteTwiceSendsNothing` | main.py:387-398 | once the requested deletions are applied, a second run sends nothing |

## Left out

- The Slides API: credentials, the service object, `presentations().get` and every `batchUpdate` call. The deck is an input value. An insertion is the record of `(page id, video id, minutes)` that would be sent. For deletion, the model returns the request ids and the send decision. The effect of the deletion on the deck, `Deletion.PruneDeck`, is this model's reading of `deleteObject`.
- The `click` commands `add` and `delete`, apart from `get_presentation_id`.
- Every `print`, the dotted separator line and the terminal width. These are output only, including the "time left" figures derived from the fixed 70.
- `input()` and the `int()` applied to its answer. The operator is a total function returning an integer, so a non-numeric answer is not modelled.
- The random `uuid4` object id of each new video, and the constant size, position and autoplay of the request payload.
- `Deck.AvgMinsPerSlide`: the float arithmetic is computed exactly on integers. For whole numbers, flooring the doubled quotient and halving it toward zero gives the same result as the float version, except for rounding error in the float division, which is not modelled.
- `Patterns`: `re` is not modelled in general; only the three patterns are written out.
  - `\s` is Python's whitespace set.
  - `\d` is the ASCII digits only; Python also accepts other Unicode decimal digits.
  - `\w` is ASCII and Latin-1 letters, digits and `_`. Python's `\w` also matches every other Unicode letter and digit (`ā`, Greek, CJK and so on), so `\b` differs next to them: "āpara diapositivas" does not fire the guard in Python, but does in the model.
  - `IGNORECASE` folds the ASCII letters and `ó`/`Ó`, the only letters these patterns spell. Python's Unicode case folding also lets `ſ` (U+017F, long s) match `s`, and `ı` (U+0131, dotless i) and `İ` (U+0130) match `i`; the model does not, so text written with those letters is read as not matching.
- `Patterns.MatchSuggested` returns group 3 only. What follows it in the pattern is optional, so it never affects whether the pattern matches or what group 3 holds.
- `PyText.ParseInt`: only ASCII digits are read. Python's `int()` also reads the other Unicode decimal digits (Arabic-Indic, full-width and so on); the model raises `ValueError` for them. Single `_` between digits is modelled.
- `Engine.Outcome`: after an exception the state is the one before the failing slide. `main.py` has by then added that slide's duration to `mins_assigned_so_far` and `range_mins_assigned_so_far` (main.py:274-286), but the raise ends the run and nothing reads them again.
- The `objectId` of a page element is taken to be present. Only slides are checked for a missing id, as in the source.

Points where `main.py` behaves in ways a reader might not expect, kept as written:
- the unit word after a suggested time is optional;
- a new range declaration does not reset the range's minute counter;
- the average is cut to whole minutes, so 10 minutes over slides 3–6 gives 2 and not 2.5;
- a slide's suggested minutes can only carry over to a later slide through a skip, and a skip requires them to be 0, so they never carry over (`Engine.RunConsistent`, `Ready`).
