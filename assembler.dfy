/** The driver of make_json_full.py: the page text of the PDF
    (`extract_text_from_pdf`), one lesson record per day (`parse_day_data`),
    the batch loop of `main` over days 1..130 with a checkpoint after every
    ten days, and the list of days left without a title. Reading the PDF
    and writing the JSON files are not modelled: the page texts come in as
    a parameter and each checkpoint is returned as a snapshot of the map. */
module Assembler {
  import opened Text
  import opened Lessons
  import opened Segmenter
  import opened DialogueParser
  import opened Markers
  import opened PatternParser
  import opened PracticeParser
  import opened PatternCleanup
  import opened DayKeys

  /** The last day extracted, and the days per checkpoint. */
  const LastDay: nat := 130
  const BatchSize: nat := 10

  // ---------------------------------------------------------------------
  // The page text

  /** What one page contributes: its text and a blank line, or nothing
      when the page has no text (None or empty). */
  function PageChunk(page: Option<string>): string
  {
    match page
    case None => ""
    case Some(t) => if t == "" then "" else t + "\n\n"
  }

  /** The text of a sequence of pages, page after page. */
  function PagesText(pages: seq<Option<string>>): (r: string)
    ensures pages == [] ==> r == ""
  {
    if pages == [] then "" else PagesText(pages[..|pages| - 1]) + PageChunk(pages[|pages| - 1])
  }

  /** `extract_text_from_pdf` once each page's `extract_text()` is known. */
  method ExtractTextFromPages(pages: seq<Option<string>>) returns (text: string)
    ensures text == PagesText(pages)
  {
    text := "";
    for i := 0 to |pages|
      invariant text == PagesText(pages[..i])
    {
      var pageText := pages[i];
      ghost var before := text;
      if pageText.Some? && pageText.value != "" {
        text := text + pageText.value + "\n\n";
        AppendAssoc(before, pageText.value, "\n\n");
      }
      assert text == before + PageChunk(pageText);
      assert pages[..i + 1][..i] == pages[..i];
      PagesTextLast(pages[..i + 1]);
    }
    assert pages[..|pages|] == pages;
  }

  /** The page text is the pages' texts in order: the text of two runs of
      pages is the text of the first followed by that of the second. */
  lemma {:induction false} PagesTextAppend(a: seq<Option<string>>, b: seq<Option<string>>)
    ensures PagesText(a + b) == PagesText(a) + PagesText(b)
    decreases |b|
  {
    if b == [] {
      assert a + b == a;
    } else {
      var b' := b[..|b| - 1];
      var c := PageChunk(b[|b| - 1]);
      DropLast(a, b);
      PagesTextLast(a + b);
      PagesTextAppend(a, b');
      AppendAssoc(PagesText(a), PagesText(b'), c);
    }
  }

  lemma PagesTextLast(pages: seq<Option<string>>)
    requires pages != []
    ensures PagesText(pages) == PagesText(pages[..|pages| - 1]) + PageChunk(pages[|pages| - 1])
  {
  }

  /** The page text is empty exactly when no page contributes a chunk. */
  lemma {:induction false} PagesTextEmptyIff(pages: seq<Option<string>>)
    ensures PagesText(pages) == "" <==> forall k :: 0 <= k < |pages| ==> PageChunk(pages[k]) == ""
  {
    if pages != [] {
      var init := pages[..|pages| - 1];
      PagesTextEmptyIff(init);
      PagesTextLast(pages);
      assert forall k :: 0 <= k < |init| ==> init[k] == pages[k];
    }
  }

  /** A page without text adds nothing; a page with text adds exactly its
      text and a blank line, so the text ends with a blank line whenever it
      is not empty. */
  lemma PagesTextEnds(pages: seq<Option<string>>)
    ensures PagesText(pages) == "" || EndsWith(PagesText(pages), "\n\n")
  {
    if pages != [] {
      var r := PagesText(pages);
      var c := PageChunk(pages[|pages| - 1]);
      if c == "" {
        PagesTextEnds(pages[..|pages| - 1]);
      } else {
        assert r[|r| - 2..] == c[|c| - 2..];
      }
    }
  }

  // ---------------------------------------------------------------------
  // One day

  /** `parse_day_data(text, day)`: the empty record when the section is
      missing or empty, else the title, the dialogue, the cleaned patterns
      and the practice items of the section. */
  function DayData(text: string, day: nat): (r: Lesson)
  {
    match DaySection(text, day)
    case None => EmptyLesson
    case Some(loc) =>
      if loc.section == "" then EmptyLesson
      else
        var lines := Split(loc.section);
        Lesson(loc.title, Dialogue(lines), Map(Patterns(lines), CleanPattern), Practice(lines))
  }

  /** `parse_day_data` as the source runs it. */
  method ParseDayData(text: string, day: nat) returns (r: Lesson)
    ensures r == DayData(text, day)
  {
    var found := ExtractDaySection(text, day);
    if found.None? || found.value.section == "" {
      return EmptyLesson;
    }
    var lines := Split(found.value.section);
    var dialogue := ParseDialogueFromStep3(lines);
    var patterns := ParsePatternsFromStep3(lines);
    var practice := ParsePracticeFromStep4(lines);
    r := Lesson(found.value.title, dialogue, Map(patterns, CleanPattern), practice);
  }

  /** A day whose number is on no line, or only on the first line, gets
      the empty record. */
  lemma NoMarkerEmpty(text: string, day: nat)
    requires var lines := Split(text);
      (forall k :: 0 <= k < |lines| ==> Strip(lines[k]) != Pad3(day))
      || Strip(lines[0]) == Pad3(day)
    ensures DayData(text, day) == EmptyLesson
  {
    var lines := Split(text);
    var ls := Map(lines, Strip);
    forall k | 0 <= k < |lines|
      ensures ls[k] == Strip(lines[k])
    {
      MapAt(lines, Strip, k);
    }
    SectionBoundsNone(ls, Pad3(day));
    assert DayBounds(lines, day).None?;
    assert DaySection(text, day).None?;
  }

  /** Every stored pattern is clean: no placeholder is left, a colon has a
      space on each side, and cleaning it again changes nothing; there are
      at most nineteen practice items. */
  lemma DayDataClean(text: string, day: nat, k: nat)
    requires k < |DayData(text, day).patterns|
    ensures var p := DayData(text, day).patterns[k];
      && NoPlaceholder(p)
      && (':' in p ==> Occurs(p, " : "))
      && CleanPattern(p) == p
    ensures |DayData(text, day).practice| <= Window
  {
    var loc := DaySection(text, day).value;
    var lines := Split(loc.section);
    var raw := Patterns(lines)[k];
    MapAt(Patterns(lines), CleanPattern, k);
    CleanPatternNoPlaceholder(raw);
    CleanPatternSpaced(raw);
    CleanPatternIdempotent(raw);
    PracticeBound(lines);
  }

  /** The stored patterns are, in order, the cleaned text of distinct
      lines of the section after its STEP3 heading, each a candidate line. */
  lemma DayDataPatternLines(text: string, day: nat, loc: Located, lines: seq<string>, s: nat)
    returns (js: seq<nat>)
    requires DaySection(text, day) == Some(loc) && loc.section != "" && lines == Split(loc.section)
    requires FirstStep3(lines, 0) == Some(s)
    ensures |js| == |DayData(text, day).patterns|
    ensures forall k :: 0 <= k < |js| ==> s < js[k] < |lines|
    ensures forall k, l :: 0 <= k < l < |js| ==> js[k] < js[l]
    ensures forall k :: 0 <= k < |js| ==>
      Candidate(Strip(lines[js[k]])) && DayData(text, day).patterns[k] == CleanPattern(Strip(lines[js[k]]))
  {
    var patterns := DayData(text, day).patterns;
    assert patterns == Map(Patterns(lines), CleanPattern);
    js := PatternsAfterStep3(lines, s);
    forall k | 0 <= k < |js|
      ensures patterns[k] == CleanPattern(Strip(lines[js[k]]))
    {
      MapAt(Patterns(lines), CleanPattern, k);
    }
  }

  // ---------------------------------------------------------------------
  // The batch loop

  /** Day number to record. */
  function Days(text: string): nat -> Lesson
  {
    (d: nat) => DayData(text, d)
  }

  /** The map after days 1..n: key "DAY nnn" to the day's record. */
  function Collected(text: string, n: nat): map<string, Lesson>
  {
    Tabulate(DayKey, Days(text), n)
  }

  /** The last day of the batch that starts at `start`. */
  function BatchEnd(start: nat): (r: nat)
    ensures r <= LastDay && (start + BatchSize - 1 <= LastDay ==> r == start + BatchSize - 1)
  {
    Min(start + BatchSize - 1, LastDay)
  }

  /** The map saved after batch `b` (from 0): days 1..10(b + 1). */
  function Checkpoint(text: string, b: nat): map<string, Lesson>
  {
    Collected(text, BatchSize * (b + 1))
  }

  /** The loop of `main`: days 1..130 in batches of ten, the whole map
      saved after each batch. */
  method ExtractAll(text: string) returns (data: map<string, Lesson>, saved: seq<map<string, Lesson>>)
    ensures data == Collected(text, LastDay)
    ensures |saved| == LastDay / BatchSize
    ensures forall b :: 0 <= b < |saved| ==> saved[b] == Checkpoint(text, b)
  {
    data, saved := FillInBatches(DayKey, Days(text), LastDay, BatchSize);
  }

  /** Distinct days have distinct keys. */
  lemma DayKeysInjective()
    ensures Injective(DayKey)
  {
    forall m: nat, n: nat | DayKey(m) == DayKey(n)
      ensures m == n
    {
      DayKeyInjective(m, n);
    }
  }

  /** The map holds exactly the keys of days 1..n, each with its record. */
  lemma CollectedKeys(text: string, n: nat, key: string)
    ensures key in Collected(text, n) <==> exists d: nat :: 1 <= d <= n && key == DayKey(d)
    ensures forall d: nat :: 1 <= d <= n && key == DayKey(d) ==> Collected(text, n)[key] == DayData(text, d)
  {
    DayKeysInjective();
    TabulateAt(DayKey, Days(text), n, key);
  }

  /** Each checkpoint holds the one before it, unchanged. */
  lemma CollectedGrows(text: string, m: nat, n: nat, key: string)
    requires m <= n && key in Collected(text, m)
    ensures key in Collected(text, n) && Collected(text, n)[key] == Collected(text, m)[key]
  {
    DayKeysInjective();
    TabulateGrows(DayKey, Days(text), m, n, key);
  }

  // ---------------------------------------------------------------------
  // The missing days

  /** The keys of days 1..n, in order, that are absent or have no title. */
  function Missing(data: map<string, Lesson>, n: nat): (r: seq<string>)
    ensures |r| <= n
  {
    if n == 0 then []
    else
      var key := DayKey(n);
      Missing(data, n - 1) + (if key !in data || data[key].title == "" then [key] else [])
  }

  /** The check at the end of `main`. */
  method FindMissing(data: map<string, Lesson>) returns (missing: seq<string>)
    ensures missing == Missing(data, LastDay)
  {
    missing := [];
    for day := 1 to LastDay + 1
      invariant missing == Missing(data, day - 1)
    {
      var dayKey := DayKey(day);
      if dayKey !in data || data[dayKey].title == "" {
        missing := missing + [dayKey];
      }
    }
  }

  /** A key is listed exactly when it is the key of one of days 1..n that
      is absent or has no title. */
  lemma {:induction false} MissingIff(data: map<string, Lesson>, n: nat, key: string)
    ensures key in Missing(data, n) <==>
      exists d :: 1 <= d <= n && key == DayKey(d) && (key !in data || data[key].title == "")
  {
    if n > 0 {
      MissingIff(data, n - 1, key);
      var m := Missing(data, n - 1);
      var k := DayKey(n);
      var tail := if k !in data || data[k].title == "" then [k] else [];
      assert Missing(data, n) == m + tail;
      assert key in Missing(data, n) <==> key in m || key in tail;
      if key in tail {
        assert 1 <= n <= n && key == DayKey(n) && (key !in data || data[key].title == "");
      }
      if exists d :: 1 <= d <= n && key == DayKey(d) && (key !in data || data[key].title == "") {
        var d :| 1 <= d <= n && key == DayKey(d) && (key !in data || data[key].title == "");
        if d == n {
          assert key in tail;
        } else {
          assert 1 <= d <= n - 1 && key == DayKey(d) && (key !in data || data[key].title == "");
        }
      }
    }
  }

  /** The list has no repeats: keys of distinct days differ. */
  lemma {:induction false} MissingDistinct(data: map<string, Lesson>, n: nat)
    ensures forall i, j :: 0 <= i < j < |Missing(data, n)| ==> Missing(data, n)[i] != Missing(data, n)[j]
  {
    if n > 0 {
      MissingDistinct(data, n - 1);
      var key := DayKey(n);
      if key !in data || data[key].title == "" {
        var m := Missing(data, n - 1);
        assert Missing(data, n) == m + [key];
        if key in m {
          MissingIff(data, n - 1, key);
          var d :| 1 <= d <= n - 1 && key == DayKey(d) && (key !in data || data[key].title == "");
          DayKeyInjective(d, n);
        }
      }
    }
  }

  /** After the loop of `main`, a day is reported missing exactly when its
      record has no title; in particular every day whose section was not
      found is reported. */
  lemma MissingAfterExtract(text: string, day: nat)
    requires 1 <= day <= LastDay
    ensures DayKey(day) in Missing(Collected(text, LastDay), LastDay) <==> DayData(text, day).title == ""
    ensures DaySection(text, day).None? ==> DayKey(day) in Missing(Collected(text, LastDay), LastDay)
  {
    var data := Collected(text, LastDay);
    var key := DayKey(day);
    CollectedKeys(text, LastDay, key);
    MissingIff(data, LastDay, key);
    if key in Missing(data, LastDay) {
      var d :| 1 <= d <= LastDay && key == DayKey(d) && (key !in data || data[key].title == "");
      DayKeyInjective(d, day);
    }
  }
}
