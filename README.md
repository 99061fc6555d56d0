# daily_english_2024 in Dafny

A model of the lesson pipeline of *daily_english_2024*. The project covers three programs:

- **The extractor** (`make_json_full.py`). It reads the text of a textbook PDF and cuts it into one section per day, DAY 001 to DAY 130. From each section it parses a title, an A/B dialogue, the key patterns and the practice items, then cleans the patterns. It fills a map from "DAY nnn" to the lesson record in batches of ten, with a checkpoint after every batch, and lists the days left without a title.
- **The study viewer** (`daily_english_2024.py`). It shows one day at a time. The day changes through a typed query (normalised to "DAY nnn") or through the previous/next buttons over the sorted keys. The viewer also looks up the day's mp3 file.
- **The JSON editor** (`pages/edit_json_viewer.py`). It picks a day through a query box that empties itself after every Enter. It rebuilds the dialogue rows from their widgets and can add a row, delete the blank rows, or save the edited lesson.

Modules:

- `Text`: shared primitives.
  - Python's `str.isspace`/`strip`.
  - `split('\n')` and `'\n'.join`, with their round trips.
  - Digit strings and `f"{n:03d}"`.
  - `list.index`.
  - A filter-map for comprehensions.
  - The batch-fill loop.
- `Lessons`: the record types.
- `Markers`: the STEP3/STEP4 heading tests.
- `Segmenter`: `extract_day_section`. Its specification functions read the stripped lines, `ls[i] == lines[i].strip()`; its methods strip each line where they reach it.
- `DialogueParser`, `PatternParser`, `PracticeParser`: the three parsers.
- `PatternCleanup`: `clean_pattern`.
- `Assembler`: page text, `parse_day_data`, the batch loop, the missing list.
- `DayKeys`: `normalize_day`. The viewer and the editor define it identically.
- `Viewer`: the viewer session and `find_audio_file`.
- `Editor`: the editor session.

Code whose loops update variables is modelled as methods with loops. Each such method is proved equal to a specification function, and the properties are lemmas about those functions. The two Streamlit sessions are classes whose methods update the session fields.

Two behaviours of the extractor that its comments do not suggest are modelled as the code has them:

- The English part of a dialogue line stops at the first digit: the character class of the regular expression at make_json_full.py:107 holds letters, commas, whitespace, quotes and ".?!", and no digits.
- A practice item ending in ".E" keeps its "E": the substitution at make_json_full.py:227 removes an "E" only when whitespace comes before it, although the comment at line 226 speaks of removing a bare trailing "E" as well.

## Model

| member | source | states |
|---|---|---|
| Text.First | daily_english_2024/make_json_full.py:29-31 | the first position in [lo, hi) passing a test, or hi |
| Text.FirstSkips | daily_english_2024/make_json_full.py:29-31 | no position before the one First returns passes the test |
| Text.FilterMapKeeps | daily_english_2024/pages/edit_json_viewer.py:101 | a comprehension whose filter keeps items unchanged keeps exactly the items that pass |
| Text.Pad3Chars | daily_english_2024/make_json_full.py:31 | `f"{n:03d}"` is the hundreds, tens and units digits of n below 1000 |
| Text.IndexOf | daily_english_2024/daily_english_2024.py:124 | `day_list.index(x)` is the first position holding x |
| Text.StripIdempotent | daily_english_2024/pages/edit_json_viewer.py:86 | stripping twice is stripping once |
| Text.StripAbsent | daily_english_2024/pages/edit_json_viewer.py:123 | stripping adds no character |
| Text.Split | daily_english_2024/make_json_full.py:22 | `split('\n')` gives at least one piece and no piece holds a newline |
| Text.JoinSplit | daily_english_2024/make_json_full.py:53 | joining the pieces of a split with "\n" gives back the text |
| Text.SplitJoin | daily_english_2024/make_json_full.py:53 | splitting newline-free lines joined with "\n" gives back the lines |
| Text.SplitOnJoin | daily_english_2024/pages/edit_json_viewer.py:112-123 | cutting at a set of line-break characters that includes "\n" undoes the join of lines free of them |
| Text.Pad3 | daily_english_2024/make_json_full.py:31 | `f"{n:03d}"` is all digits, three of them below 1000 |
| Text.ValuePad3 | daily_english_2024/daily_english_2024.py:35 | `int(f"{n:03d}")` is n |
| Text.Pad3Injective | daily_english_2024/make_json_full.py:31 | distinct days have distinct three-digit markers |
| Text.TabulateAt | daily_english_2024/make_json_full.py:339-343 | after days 1..n the map holds exactly the keys of those days, each with its day's value |
| Text.TabulateGrows | daily_english_2024/make_json_full.py:335-347 | a later batch keeps every key and value of an earlier one |
| Text.FillInBatches | daily_english_2024/make_json_full.py:334-348 | the loop over batches fills days 1..last; the snapshot after batch b holds days 1..min(size(b+1), last); ceil(last/size) snapshots |
| Markers.SpeakerHead | daily_english_2024/make_json_full.py:93 | a speaker line starts with "A:" or "B:" |
| Markers.FirstStep3Found | daily_english_2024/make_json_full.py:68-74 | the STEP3 index is the first line with STEP/SHEF and 3 or the Korean heading; None when no line has them |
| Markers.FirstStep4Found | daily_english_2024/make_json_full.py:208-213 | the STEP4 index is the first line with STEP and 4; None when no line has them |
| Markers.FindStep3 | daily_english_2024/make_json_full.py:68-74 | the search loop finds that first STEP3 line |
| Markers.FindStep4 | daily_english_2024/make_json_full.py:208-213 | the search loop finds that first STEP4 line |
| Segmenter.FirstLine | daily_english_2024/make_json_full.py:29-31 | a line found is in the searched range and its stripped text is the marker |
| Segmenter.FirstLineSkips | daily_english_2024/make_json_full.py:29-31 | no line before the one found (before the range's end when none is found) has the marker as its stripped text |
| Segmenter.SectionNumberIff | daily_english_2024/make_json_full.py:49 | the digit-by-digit test agrees with membership in `[f"{d:03d}" for d in range(1, 200)]`, both ways |
| Segmenter.SectionNumberPad | daily_english_2024/make_json_full.py:49 | a section number is the zero-padded form of its own value |
| Segmenter.PadSectionNumber | daily_english_2024/make_json_full.py:49 | the zero-padded form of 1..199 is a section number |
| Segmenter.FirstSection | daily_english_2024/make_json_full.py:48-51 | a line found is at or after the window start and is a section number |
| Segmenter.FirstSectionSkips | daily_english_2024/make_json_full.py:48-51 | no line before the one found (before the end when none is found) is a section number |
| Segmenter.StartOf | daily_english_2024/make_json_full.py:35-41 | the start is within three lines before the marker and at least -1 |
| Segmenter.EndOf | daily_english_2024/make_json_full.py:47-51 | the end lies after the marker and within the text |
| Segmenter.SectionBoundsNone | daily_english_2024/make_json_full.py:29-45 | no section exactly when no line is the marker or the marker is on line 0 |
| Segmenter.StartOfShape | daily_english_2024/make_json_full.py:35-41 | the start is the line after the first "DAY" line among the four lines before the marker, else two lines before it; none for a marker on line 0 |
| Segmenter.StartAfterDay | daily_english_2024/make_json_full.py:35-38 | with a "DAY" line in the window, the start follows the first one |
| Segmenter.StartWithoutDay | daily_english_2024/make_json_full.py:35-41 | with no "DAY" line in the window, the start is two lines before the marker, none on line 0 |
| Segmenter.EndOfShape | daily_english_2024/make_json_full.py:47-51 | the end is two lines before the first later section number from marker+3, else the text's end |
| Segmenter.SectionBoundsShape | daily_english_2024/make_json_full.py:29-51 | the marker is the first line holding the marker text, never line 0; the start and end are those of StartOf and EndOf |
| Segmenter.SectionHoldsMarker | daily_english_2024/make_json_full.py:53 | with a non-negative start the section is a plain slice that holds the marker line |
| Segmenter.SectionBoundsRange | daily_english_2024/make_json_full.py:35-51 | marker-3 <= start <= marker < end <= line count |
| Segmenter.PySliceInRange | daily_english_2024/make_json_full.py:53 | within range, Python's slice is the plain slice |
| Segmenter.NegativeStart | daily_english_2024/make_json_full.py:40-53 | a start of -1 happens only for a marker on line 1, and Python's slice from -1 then gives the last line or nothing |
| Segmenter.WrapSlice | daily_english_2024/make_json_full.py:53 | `xs[-1:e]` is the last element when e is the length, else empty |
| Segmenter.TitleSource | daily_english_2024/make_json_full.py:55-59 | the title is empty or the stripped text of one window line other than "DAY" |
| Segmenter.ScanLine | daily_english_2024/make_json_full.py:29-42 | the marker scan returns FirstLine's answer |
| Segmenter.ScanSection | daily_english_2024/make_json_full.py:48-51 | the next-section scan returns FirstSection's answer |
| Segmenter.ScanTitle | daily_english_2024/make_json_full.py:55-59 | the title loop returns the first non-empty window line other than "DAY" |
| Segmenter.ScanStart | daily_english_2024/make_json_full.py:35-41 | the start loop returns StartOf |
| Segmenter.ScanEnd | daily_english_2024/make_json_full.py:48-51 | the end loop returns EndOf |
| Segmenter.LocateDay | daily_english_2024/make_json_full.py:22-51 | the loops find the day's bounds |
| Segmenter.LocateMarker | daily_english_2024/make_json_full.py:29-51 | the marker scan and the loops around it return SectionBounds |
| Segmenter.LocateAround | daily_english_2024/make_json_full.py:35-59 | the look-back, look-ahead and title loops return BoundsAt |
| Segmenter.ExtractDaySection | daily_english_2024/make_json_full.py:20-61 | `extract_day_section` returns the section and title of DaySection, None when not found |
| DialogueParser.EnglishRun | daily_english_2024/make_json_full.py:107 | the longest prefix of letters, commas, whitespace, quotes and .?! |
| DialogueParser.Speaker | daily_english_2024/make_json_full.py:97 | the speaker has no colon; it starts with the line's first character |
| DialogueParser.EnglishPart | daily_english_2024/make_json_full.py:107-109 | the English text holds only characters of the class, and no digit |
| DialogueParser.EnCharsNoDigit | daily_english_2024/make_json_full.py:107 | the English character class has no digit |
| DialogueParser.KoreanPart | daily_english_2024/make_json_full.py:107-110 | the Korean text is empty or starts outside the English class |
| DialogueParser.EntryFrom | daily_english_2024/make_json_full.py:95-117 | an entry is produced only with non-empty English, with the speaker of the head |
| DialogueParser.EntryOf | daily_english_2024/make_json_full.py:89-117 | an entry comes only from a speaker line of length >= 3; its speaker starts with the line's first character and has no colon or space |
| DialogueParser.ParseDialogueFromStep3 | daily_english_2024/make_json_full.py:63-119 | the parse loop returns the Dialogue specification |
| DialogueParser.EnglishRunAppend | daily_english_2024/make_json_full.py:107 | a run of class characters is consumed whole |
| DialogueParser.EnglishRunRender | daily_english_2024/make_json_full.py:107 | in a rendered line the English run ends exactly at the Korean text |
| DialogueParser.EnglishPartRender | daily_english_2024/make_json_full.py:107-109 | parsing a rendered line gives back its English |
| DialogueParser.KoreanPartRender | daily_english_2024/make_json_full.py:107-110 | parsing a rendered line gives back its Korean |
| DialogueParser.RenderShape | daily_english_2024/make_json_full.py:93-98 | a rendered line is a speaker line whose first space is at index 2 |
| DialogueParser.EntryOfRender | daily_english_2024/make_json_full.py:89-117 | round trip: parsing the rendering of a well-formed entry gives back that entry |
| DialogueParser.SpeakerOfLabel | daily_english_2024/make_json_full.py:97 | "A:" gives speaker "A" and "B:" gives "B" |
| DialogueParser.DialogueWindow | daily_english_2024/make_json_full.py:79-86 | every entry comes from a line between STEP3 and the first STEP4 line after it |
| PatternParser.ExampleTailIff | daily_english_2024/make_json_full.py:176 | the backtracking part of the example regex holds exactly when some end position matches |
| PatternParser.ExampleIff | daily_english_2024/make_json_full.py:176 | a line is an example sentence exactly when it starts with an upper- then a lower-case letter and some split matches the rest |
| PatternParser.InnerScan | daily_english_2024/make_json_full.py:154-195 | the inner scan ends at or after where it starts and within the lines |
| PatternParser.ParsePatternsFromStep3 | daily_english_2024/make_json_full.py:121-201 | the parse returns the Patterns specification |
| PatternParser.ScanPatterns | daily_english_2024/make_json_full.py:139-199 | the outer loop returns PatternsFrom |
| PatternParser.ScanAfterSpeaker | daily_english_2024/make_json_full.py:151-195 | the inner loop returns InnerScan's index and pattern |
| PatternParser.OuterStop | daily_english_2024/make_json_full.py:145-146 | a STEP4 line ends the scan |
| PatternParser.OuterSpeaker | daily_english_2024/make_json_full.py:149-197 | a speaker line adds the inner scan's pattern, if any, and the scan resumes after its exit |
| PatternParser.OuterSkip | daily_english_2024/make_json_full.py:198-199 | any other line is skipped |
| PatternParser.InnerStop | daily_english_2024/make_json_full.py:157-163 | an empty, speaker or STEP4 line ends the inner scan with nothing |
| PatternParser.InnerAccept | daily_english_2024/make_json_full.py:170-193 | a candidate line is the pattern, and the look-ahead decides where the scan resumes |
| PatternParser.InnerSkip | daily_english_2024/make_json_full.py:165-195 | a line that is no candidate is passed over |
| PatternParser.InnerFound | daily_english_2024/make_json_full.py:154-195 | a found pattern is the first candidate line, with no stop line before it |
| PatternParser.InnerNone | daily_english_2024/make_json_full.py:154-195 | with no pattern, the scan stops at a stop line or the end, with no candidate before it |
| PatternParser.PatternLines | daily_english_2024/make_json_full.py:139-199 | the patterns are stripped lines at increasing positions |
| PatternParser.PatternsAreCandidates | daily_english_2024/make_json_full.py:166-191 | every pattern has Hangul, a Latin letter and a mark, and is no example sentence |
| PatternParser.PatternsAfterStep3 | daily_english_2024/make_json_full.py:121-201 | the patterns are, in order, candidate lines after the STEP3 line |
| PatternParser.SpeakerLinesMono | daily_english_2024/make_json_full.py:149 | fewer speaker lines remain later in the text |
| PatternParser.AtMostOnePerSpeaker | daily_english_2024/make_json_full.py:149-197 | at most one pattern per speaker line |
| PatternParser.LookAheadInvisible | daily_english_2024/make_json_full.py:179-188 | stepping back after the look-ahead changes nothing: both exits resume two lines after the pattern |
| PatternParser.StopLinePassedOver | daily_english_2024/make_json_full.py:151-159 | the outer `i += 1` after a stop skips the stop line itself |
| PracticeParser.DigitRun | daily_english_2024/make_json_full.py:224 | the leading run of ASCII digits |
| PracticeParser.DropTrailingE | daily_english_2024/make_json_full.py:227 | removing the trailing "E" leaves a prefix of the line |
| PracticeParser.WindowEnd | daily_english_2024/make_json_full.py:219 | the window after STEP4 is at most nineteen lines and within the text |
| PracticeParser.ParsePracticeFromStep4 | daily_english_2024/make_json_full.py:203-230 | the parse loop returns the Practice specification |
| PracticeParser.PracticeBound | daily_english_2024/make_json_full.py:219 | at most nineteen items |
| PracticeParser.PracticeOrigin | daily_english_2024/make_json_full.py:218-228 | every item comes from a line of the window after STEP4 |
| PracticeParser.PracticeItemShape | daily_english_2024/make_json_full.py:224-228 | an item is a numbered line, with only a trailing "E" removed, and keeps its number and dot |
| PracticeParser.KeepsNumber | daily_english_2024/make_json_full.py:224-227 | the E removal never reaches the number and dot |
| PracticeParser.DropTrailingEOf | daily_english_2024/make_json_full.py:227 | whitespace, "E" and trailing whitespace go, and nothing else |
| PracticeParser.DotEKept | daily_english_2024/make_json_full.py:227 | "x.E" is kept whole: no whitespace before the E |
| PracticeParser.NumberedIff | daily_english_2024/make_json_full.py:224 | numbered means: digits, a dot, and at least one more character |
| PatternCleanup.GrammarTermsArePlaceholders | daily_english_2024/make_json_full.py:237-250 | every grammar term is parenthesised, with no "~" or colon inside |
| PatternCleanup.FirstSplit | daily_english_2024/make_json_full.py:258 | the lazy English group ends at the first position where whitespace and Hangul follow |
| PatternCleanup.Split2 | daily_english_2024/make_json_full.py:258 | the colon-insertion match: an English-class prefix, then whitespace and Hangul, at the earliest split |
| PatternCleanup.RunStart | daily_english_2024/make_json_full.py:266 | the start of the whitespace run before the colon |
| PatternCleanup.SpacedAt | daily_english_2024/make_json_full.py:266 | the substitution around the colon always leaves " : " in the text |
| PatternCleanup.ReplacedAbsent | daily_english_2024/make_json_full.py:252-253 | after `re.sub(term, '~')` the term no longer occurs |
| PatternCleanup.KeepsAbsent | daily_english_2024/make_json_full.py:252-253 | a replacement creates no new occurrence of a placeholder |
| PatternCleanup.ReplaceAllAbsent | daily_english_2024/make_json_full.py:253 | a substitution of an absent term changes nothing |
| PatternCleanup.TermsAbsent | daily_english_2024/make_json_full.py:252-253 | after the loop no grammar term occurs |
| PatternCleanup.TermsIdentity | daily_english_2024/make_json_full.py:252-253 | the loop leaves a text without grammar terms unchanged |
| PatternCleanup.ReplaceTermsClean | daily_english_2024/make_json_full.py:252-253 | the replaced text holds no grammar term |
| PatternCleanup.ReplaceTermsFixed | daily_english_2024/make_json_full.py:252-253 | the replacement is the identity on clean text |
| PatternCleanup.CleanAbsent | daily_english_2024/make_json_full.py:255-266 | the colon steps reintroduce no grammar term |
| PatternCleanup.CleanPatternNoPlaceholder | daily_english_2024/make_json_full.py:232-268 | a cleaned pattern contains none of the twelve grammar terms |
| PatternCleanup.CleanPatternSpaced | daily_english_2024/make_json_full.py:264-266 | a cleaned pattern with a colon contains " : " |
| PatternCleanup.SpaceColonSpaced | daily_english_2024/make_json_full.py:265-266 | after step 3 a text with a colon holds " : " |
| PatternCleanup.SpacedFixed | daily_english_2024/make_json_full.py:255-266 | the colon steps leave a text with " : " unchanged |
| PatternCleanup.CleanPatternIdempotent | daily_english_2024/make_json_full.py:232-268 | cleaning a cleaned pattern changes nothing |
| Assembler.ExtractTextFromPages | daily_english_2024/make_json_full.py:6-18 | the page loop builds PagesText |
| Assembler.PagesTextAppend | daily_english_2024/make_json_full.py:11-14 | the text of two runs of pages is the first's followed by the second's |
| Assembler.PagesTextEmptyIff | daily_english_2024/make_json_full.py:8-14 | the page text is empty exactly when every page has no text (None or empty) |
| Assembler.PagesTextEnds | daily_english_2024/make_json_full.py:13-14 | a non-empty text ends with a blank line |
| Assembler.ParseDayData | daily_english_2024/make_json_full.py:270-305 | `parse_day_data` returns DayData: the empty record without a section, else title, dialogue, cleaned patterns and practice |
| Assembler.NoMarkerEmpty | daily_english_2024/make_json_full.py:277-286 | a day whose marker is absent or on the first line gets the empty record |
| Assembler.DayDataClean | daily_english_2024/make_json_full.py:289-294 | stored patterns are free of grammar terms, colon-spaced and clean-idempotent; at most nineteen practice items |
| Assembler.DayDataPatternLines | daily_english_2024/make_json_full.py:290-294 | stored patterns are, in order, the cleaned text of distinct candidate lines after STEP3 |
| Assembler.BatchEnd | daily_english_2024/make_json_full.py:336 | a batch ends ten days on, or at day 130 |
| Assembler.ExtractAll | daily_english_2024/make_json_full.py:331-348 | the loop of `main` holds days 1..130; thirteen checkpoints, checkpoint b holding days 1..10(b+1) |
| Assembler.DayKeysInjective | daily_english_2024/make_json_full.py:340 | distinct days have distinct keys |
| Assembler.CollectedKeys | daily_english_2024/make_json_full.py:339-343 | the map holds exactly the keys "DAY 001".."DAY nnn", each with its day's record |
| Assembler.CollectedGrows | daily_english_2024/make_json_full.py:345-347 | each checkpoint contains the previous one unchanged |
| Assembler.Missing | daily_english_2024/make_json_full.py:386-390 | at most one entry per day |
| Assembler.FindMissing | daily_english_2024/make_json_full.py:386-390 | the check loop returns Missing |
| Assembler.MissingIff | daily_english_2024/make_json_full.py:386-390 | a key is listed exactly when it is a day's key that is absent or has no title |
| Assembler.MissingDistinct | daily_english_2024/make_json_full.py:386-390 | the missing list has no repeats |
| Assembler.MissingAfterExtract | daily_english_2024/make_json_full.py:384-390 | after extraction a day is listed exactly when its record has no title; every day without a section is listed |
| DayKeys.DayKeyIsLessonKey | daily_english_2024/make_json_full.py:340 | "DAY nnn" for 1..130 is a lesson key |
| DayKeys.DayKeyInjective | daily_english_2024/make_json_full.py:340 | distinct days, distinct keys |
| DayKeys.FirstDigitFrom | daily_english_2024/daily_english_2024.py:51 | `\D*` stops at the first digit |
| DayKeys.DigitRunEnd | daily_english_2024/daily_english_2024.py:51 | the run of digits ends at a non-digit |
| DayKeys.MatchDayAt | daily_english_2024/daily_english_2024.py:51 | a match captures one to three digits |
| DayKeys.SearchDay | daily_english_2024/daily_english_2024.py:51 | `re.search` captures one to three digits |
| DayKeys.NormalizeDay | daily_english_2024/daily_english_2024.py:42-56 | empty input gives None; any answer is a lesson key DAY 001..DAY 130 |
| DayKeys.NormalizeStripped | daily_english_2024/daily_english_2024.py:46-56 | on the stripped query, any answer is a lesson key |
| DayKeys.KeyInRange | daily_english_2024/daily_english_2024.py:48-50 | a digit string in 1..130 becomes its key |
| DayKeys.NormalizeDigits | daily_english_2024/daily_english_2024.py:47-50 | a stripped digit query in 1..130 gives its own key |
| DayKeys.NormalizeDayKey | daily_english_2024/daily_english_2024.py:42-56 | a key is its own normal form |
| DayKeys.MatchDayKey | daily_english_2024/daily_english_2024.py:51 | the regex captures the three digits of a key |
| DayKeys.NormalizeSameLesson | daily_english_2024/daily_english_2024.py:42-56 | "130", "0130", "day130" and "DAY 130" all give "DAY 130" |
| DayKeys.NormalizeRejects | daily_english_2024/daily_english_2024.py:42-56 | "131", "0", "abc" and "day1234" give None |
| DayKeys.SearchWithoutD | daily_english_2024/daily_english_2024.py:51 | without a "d" there is no match |
| DayKeys.RejectDigits | daily_english_2024/daily_english_2024.py:47-56 | a stripped digit query outside 1..130 gives None: no "day" for the search |
| DayKeys.RejectWords | daily_english_2024/daily_english_2024.py:47-56 | a stripped query that does not start with a digit and holds no "d" gives None |
| Viewer.LexIrreflexive | daily_english_2024/daily_english_2024.py:28 | no key sorts before itself |
| Viewer.SortedDistinct | daily_english_2024/daily_english_2024.py:28 | the sorted key list has no repeats |
| Viewer.IndexOfSorted | daily_english_2024/daily_english_2024.py:124-132 | `day_list.index(day_list[i])` is i |
| Viewer.ViewerSession.Index | daily_english_2024/daily_english_2024.py:124 | the index of the day on display |
| Viewer.ViewerSession.constructor | daily_english_2024/daily_english_2024.py:112-113 | a new session shows the first sorted key |
| Viewer.ViewerSession.Query | daily_english_2024/daily_english_2024.py:115-119 | the day becomes the query's key when it is stored, else stays |
| Viewer.ViewerSession.Previous | daily_english_2024/daily_english_2024.py:123-127 | one place back, nothing on the first key |
| Viewer.ViewerSession.Next | daily_english_2024/daily_english_2024.py:129-133 | one place forward, nothing on the last key |
| Viewer.FindAudioFile | daily_english_2024/daily_english_2024.py:31-39 | the first listed "nnn.…mp3" name joined to the directory; None exactly when the directory is absent or no name matches |
| Viewer.AudioPrefixOfKey | daily_english_2024/daily_english_2024.py:35 | the key's digits give the prefix of the day's own number |
| Viewer.AudioPrefixesDisjoint | daily_english_2024/daily_english_2024.py:35-37 | no file name carries the prefixes of two days |
| Editor.WidgetRow | daily_english_2024/pages/edit_json_viewer.py:81-85 | the select box shows "A" for speaker "A", "B" for anything else |
| Editor.RebuildRows | daily_english_2024/pages/edit_json_viewer.py:75-86 | one row per widget, in order: RowOf of its values (its speaker, "A" or "B", and its stripped texts) |
| Editor.RowOfIdempotent | daily_english_2024/pages/edit_json_viewer.py:86 | rebuilding a rebuilt row changes nothing |
| Editor.NonBlankRows | daily_english_2024/pages/edit_json_viewer.py:101 | filtering never adds rows |
| Editor.NonBlankRowsIff | daily_english_2024/pages/edit_json_viewer.py:101 | a row is kept exactly when it is present and not blank |
| Editor.NonBlankRowsAppend | daily_english_2024/pages/edit_json_viewer.py:101 | kept rows keep their order |
| Editor.DeletedCount | daily_english_2024/pages/edit_json_viewer.py:100-107 | the reported count is the number of blank rows |
| Editor.NonBlankRowsIdempotent | daily_english_2024/pages/edit_json_viewer.py:101 | deleting blank rows twice is deleting them once |
| Editor.StrippedItem | daily_english_2024/pages/edit_json_viewer.py:123 | an item kept is the stripped, non-empty line |
| Editor.KeepsCleanItems | daily_english_2024/pages/edit_json_viewer.py:123-124 | clean items all pass the filter unchanged |
| Editor.SaveLinesJoin | daily_english_2024/pages/edit_json_viewer.py:112-124 | round trip: showing clean items joined by "\n" and saving gives them back |
| Editor.SavedItemsClean | daily_english_2024/pages/edit_json_viewer.py:123-124 | every saved item is non-empty, stripped and on one line |
| Editor.SaveLinesIdempotent | daily_english_2024/pages/edit_json_viewer.py:112-124 | saving a saved list again without an edit changes nothing |
| Editor.EditorSession.constructor | daily_english_2024/pages/edit_json_viewer.py:44-47 | a new session edits "DAY 001" with an empty query box |
| Editor.EditorSession.TypeQuery | daily_english_2024/pages/edit_json_viewer.py:60-64 | typing sets the query box only |
| Editor.EditorSession.HandleDayChange | daily_english_2024/pages/edit_json_viewer.py:50-57 | the day becomes the query's key when stored, else stays; the box is emptied either way |
| Editor.EditorSession.AddRow | daily_english_2024/pages/edit_json_viewer.py:89-92 | the lesson's dialogue becomes the rows plus one empty A row; other days unchanged |
| Editor.EditorSession.DeleteBlankRows | daily_english_2024/pages/edit_json_viewer.py:99-107 | the dialogue becomes the non-blank rows and the count is the number removed; other days unchanged |
| Editor.EditorSession.Save | daily_english_2024/pages/edit_json_viewer.py:120-125 | the lesson becomes the new title, non-blank rows and saved pattern and practice lines; other days unchanged |

## Left out

- Reading the PDF (pdfplumber) is left out. Each page's `extract_text()` result is an input.
- File output is left out: the JSON dumps, the checkpoint and backup files, and the extracted-text file. Each checkpoint is returned as a snapshot of the map instead.
- The progress prints, the warnings and the extraction statistics of `main` are left out: they only print.
- The Streamlit pages are left out: widgets, reruns, success messages and layout. The widget values are parameters, and each button press is one method call.
- `make_pdf` of the viewer is left out. It only renders a PDF through reportlab.
- The rendering of the current day's lesson in the viewer is left out. It only displays stored fields.
- Loading the data file and stopping on an empty store are left out: the store is a parameter. The viewer session requires a non-empty store, as the page stops before building one.
- `sorted(data.keys())` is given to the viewer, not computed. The model requires the list to hold every key once in increasing order.
- Editor.EditorSession.AddRow, Editor.EditorSession.DeleteBlankRows and Editor.EditorSession.Save require the selected day to be stored. The page's lookup `data[selected_day]` raises KeyError otherwise, and the model does not capture that error.
- Editor.SaveLines cuts the text at every character `str.splitlines` breaks at. It does not treat "\r\n" as one break and does not drop a last empty line, but the blank-line filter removes those extra empty pieces all the same.
- `\d`, `\D` and `str.isdigit` cover ASCII digits only: a query such as "٥" (Arabic-Indic five) gives None here and "DAY 005" in the source, and `int()` of non-ASCII digits is not modelled. `\w` covers ASCII letters, ASCII digits, "_" and Hangul syllables. `\s` covers Python's whitespace set.
- The order of `os.listdir` is a parameter (the listing), as is whether the audio directory exists. Paths are joined with "/".
- The config module only supplies the data path and the audio directory. It is not part of this model.
