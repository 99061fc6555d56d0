/** The section segmenter of make_json_full.py (`extract_day_section`): the
    line range of one lesson in the extracted text, and its title.

    The specification functions read the stripped lines `ls`, where
    `ls[i] == lines[i].strip()` (`ls == Map(lines, Strip)`); the methods
    strip each line as they reach it, as the source does. */
module Segmenter {
  import opened Text

  // ---------------------------------------------------------------------
  // Line searches

  /** The test "the stripped line is `t`". */
  function Equals(t: string): string -> bool {
    l => l == t
  }

  /** The first index in [lo, hi) whose stripped line is `t`. */
  function FirstLine(ls: seq<string>, lo: nat, hi: nat, t: string): (r: Option<nat>)
    requires lo <= hi <= |ls|
    ensures r.Some? ==> lo <= r.value < hi && ls[r.value] == t
  {
    var k := First(ls, lo, hi, Equals(t));
    if k < hi then Some(k) else None
  }

  /** No line before the one FirstLine finds (before `hi` when it finds
      none) is `t`. */
  lemma FirstLineSkips(ls: seq<string>, lo: nat, hi: nat, t: string)
    requires lo <= hi <= |ls|
    ensures var r := FirstLine(ls, lo, hi, t);
      forall j :: lo <= j < (if r.Some? then r.value else hi) ==> ls[j] != t
  {
    FirstSkips(ls, lo, hi, Equals(t));
    forall j | lo <= j < First(ls, lo, hi, Equals(t))
      ensures ls[j] != t
    {
      assert !Equals(t)(ls[j]);
    }
  }

  /** One of the three-digit section numbers "001" to "199", tested digit
      by digit (SectionNumberIff relates it to the source's list). */
  predicate IsSectionNumber(t: string) {
    |t| == 3 && IsDigit(t[0]) && IsDigit(t[1]) && IsDigit(t[2])
    && 1 <= Value3(t) <= 199
  }

  /** `int(t)` of a three-digit string. */
  function Value3(t: string): int
    requires |t| == 3
  {
    (t[0] as int - '0' as int) * 100 + (t[1] as int - '0' as int) * 10 + (t[2] as int - '0' as int)
  }

  /** The test is the membership `t in [f"{d:03d}" for d in range(1, 200)]`. */
  lemma SectionNumberIff(t: string)
    ensures IsSectionNumber(t) <==> exists d :: 1 <= d <= 199 && t == Pad3(d)
  {
    if IsSectionNumber(t) {
      SectionNumberPad(t);
    }
    if exists d :: 1 <= d <= 199 && t == Pad3(d) {
      var d :| 1 <= d <= 199 && t == Pad3(d);
      PadSectionNumber(d);
    }
  }

  lemma SectionNumberPad(t: string)
    requires IsSectionNumber(t)
    ensures t == Pad3(Value3(t))
  {
    var a, b, c := t[0] as int - '0' as int, t[1] as int - '0' as int, t[2] as int - '0' as int;
    var v := Value3(t);
    assert v == a * 100 + b * 10 + c;
    assert v / 100 == a && v / 10 == a * 10 + b && v % 10 == c;
    assert v / 10 % 10 == b;
    Pad3Chars(v);
    assert t == [t[0], t[1], t[2]];
  }

  lemma PadSectionNumber(d: nat)
    requires 1 <= d <= 199
    ensures IsSectionNumber(Pad3(d))
  {
    Pad3Chars(d);
  }

  /** The first index at or after `lo` whose stripped line is a section
      number. */
  function FirstSection(ls: seq<string>, lo: nat): (r: Option<nat>)
    requires lo <= |ls|
    ensures r.Some? ==> lo <= r.value < |ls| && IsSectionNumber(ls[r.value])
  {
    var k := First(ls, lo, |ls|, IsSectionNumber);
    if k < |ls| then Some(k) else None
  }

  /** No line before the one FirstSection finds (before the end when it
      finds none) is a section number. */
  lemma FirstSectionSkips(ls: seq<string>, lo: nat)
    requires lo <= |ls|
    ensures var r := FirstSection(ls, lo);
      forall j :: lo <= j < (if r.Some? then r.value else |ls|) ==> !IsSectionNumber(ls[j])
  {
    FirstSkips(ls, lo, |ls|, IsSectionNumber);
  }

  // ---------------------------------------------------------------------
  // Python's negative indexing

  /** `xs[i]`, where a negative `i` counts from the end. */
  function PyAt<A>(xs: seq<A>, i: int): A
    requires -|xs| <= i < |xs|
  {
    if i < 0 then xs[|xs| + i] else xs[i]
  }

  /** `xs[s:e]` for `e >= 0`: a negative `s` counts from the end, and
      both bounds are clipped to the list. */
  function PySlice<A>(xs: seq<A>, s: int, e: nat): seq<A>
  {
    var lo := if s < 0 then (if s + |xs| < 0 then 0 else s + |xs|)
              else if s < |xs| then s else |xs|;
    var hi := if e < |xs| then e else |xs|;
    if lo >= hi then [] else xs[lo..hi]
  }

  // ---------------------------------------------------------------------
  // The segmenter as a specification

  /** `start` may be -1 (see SectionBounds); `marker` is the line holding
      the number; `end` is exclusive. */
  datatype Bounds = Bounds(start: int, marker: nat, end: nat, title: string)

  /** The title loop: the first stripped line in [i, hi) that is neither empty
      nor "DAY". */
  function TitleFrom(ls: seq<string>, i: int, hi: int): (r: string)
    requires -|ls| <= i && hi <= |ls|
    decreases hi - i
  {
    if i >= hi then ""
    else
      var t := PyAt(ls, i);
      if t != "" && t != "DAY" then t else TitleFrom(ls, i + 1, hi)
  }

  /** The line after the first "DAY" line among the four before the marker
      `m`, else two lines before it (None when that is impossible, m == 0). */
  function StartOf(ls: seq<string>, m: nat): (r: Option<int>)
    requires m < |ls|
    ensures r.Some? ==> m - 3 <= r.value <= m && -1 <= r.value
  {
    match FirstLine(ls, if m >= 4 then m - 4 else 0, m, "DAY")
    case Some(j) => Some(j + 1)
    case None => if m == 0 then None else Some(m - 2)
  }

  /** Two lines before the first section number at or after marker + 3, else
      the line count. */
  function EndOf(ls: seq<string>, m: nat): (r: nat)
    requires m < |ls|
    ensures m < r <= |ls|
  {
    var lo := if m + 3 <= |ls| then m + 3 else |ls|;
    match FirstSection(ls, lo)
    case Some(k) => k - 2
    case None => |ls|
  }

  /** The boundaries `extract_day_section` computes around the marker text
      `t`. The marker is the first line whose stripped text is `t`. A marker
      on line 1 with no "DAY" line gives start -1, which Python reads as
      "the last line". */
  function SectionBounds(ls: seq<string>, t: string): Option<Bounds>
  {
    match FirstLine(ls, 0, |ls|, t)
    case None => None
    case Some(m) => BoundsAt(ls, m)
  }

  /** The start, end and title around the marker line `m`. */
  function BoundsAt(ls: seq<string>, m: nat): Option<Bounds>
    requires m < |ls|
  {
    match StartOf(ls, m)
    case None => None
    case Some(start) =>
      var hi := if start + 3 <= m then start + 3 else m;
      Some(Bounds(start, m, EndOf(ls, m), TitleFrom(ls, start, hi)))
  }

  /** The boundaries of lesson `day` in `lines`: the marker is the
      zero-padded number. */
  function DayBounds(lines: seq<string>, day: nat): Option<Bounds>
  {
    SectionBounds(Map(lines, Strip), Pad3(day))
  }

  /** What `extract_day_section` returns when it finds the lesson. */
  datatype Located = Located(section: string, title: string)

  /** `extract_day_section(text, day)`: None for (None, None). */
  function DaySection(text: string, day: nat): Option<Located>
  {
    var lines := Split(text);
    match DayBounds(lines, day)
    case None => None
    case Some(b) => Some(Located(Join(PySlice(lines, b.start, b.end)), b.title))
  }

  // ---------------------------------------------------------------------
  // Properties

  /** The lesson is not found exactly when no line is the marker, or when
      the first such line is line 0. */
  lemma SectionBoundsNone(ls: seq<string>, t: string)
    ensures SectionBounds(ls, t).None? <==>
      (forall k :: 0 <= k < |ls| ==> ls[k] != t) || (|ls| > 0 && ls[0] == t)
  {
    var f := FirstLine(ls, 0, |ls|, t);
    FirstLineSkips(ls, 0, |ls|, t);
    if f.Some? {
      StartOfShape(ls, f.value);
    }
  }

  /** The start: the line after the earliest "DAY" line among the four
      before the marker, else two lines before it; None only for a marker
      on line 0 (Python's `start_idx is None`). */
  lemma StartOfShape(ls: seq<string>, m: nat)
    requires m < |ls|
    ensures StartOf(ls, m).None? <==> m == 0
    ensures StartOf(ls, m).Some? ==>
      var start := StartOf(ls, m).value;
      && ((forall k :: m - 4 <= k < m && 0 <= k ==> ls[k] != "DAY") ==> start == m - 2)
      && ((exists k :: m - 4 <= k < m && 0 <= k && ls[k] == "DAY") ==>
           0 < start <= m && ls[start - 1] == "DAY"
           && forall k :: m - 4 <= k < start - 1 && 0 <= k ==> ls[k] != "DAY")
  {
    if exists k :: m - 4 <= k < m && 0 <= k && ls[k] == "DAY" {
      var k :| m - 4 <= k < m && 0 <= k && ls[k] == "DAY";
      StartAfterDay(ls, m, k);
    } else {
      StartWithoutDay(ls, m);
    }
  }

  /** With a "DAY" line at `k` in the window, the start follows the first
      such line. */
  lemma StartAfterDay(ls: seq<string>, m: nat, k: nat)
    requires m < |ls| && m - 4 <= k < m && ls[k] == "DAY"
    ensures StartOf(ls, m).Some?
    ensures var start := StartOf(ls, m).value;
      && 0 < start <= m && ls[start - 1] == "DAY"
      && forall j :: m - 4 <= j < start - 1 && 0 <= j ==> ls[j] != "DAY"
  {
    var lo := if m >= 4 then m - 4 else 0;
    FirstLineSkips(ls, lo, m, "DAY");
    assert FirstLine(ls, lo, m, "DAY").Some?;
  }

  /** With no "DAY" line in the window, the start is two lines before the
      marker, or None for a marker on line 0. */
  lemma StartWithoutDay(ls: seq<string>, m: nat)
    requires m < |ls|
    requires forall k :: m - 4 <= k < m && 0 <= k ==> ls[k] != "DAY"
    ensures StartOf(ls, m) == if m == 0 then None else Some(m - 2)
  {
    var lo := if m >= 4 then m - 4 else 0;
    assert FirstLine(ls, lo, m, "DAY") == None;
  }

  /** The end: two lines before the first section number at or after
      marker + 3, else the line count. */
  lemma EndOfShape(ls: seq<string>, m: nat)
    requires m < |ls|
    ensures var e := EndOf(ls, m);
      && (e < |ls| ==>
           m + 3 <= e + 2 < |ls| && IsSectionNumber(ls[e + 2])
           && forall k :: m + 3 <= k < e + 2 ==> !IsSectionNumber(ls[k]))
      && (e == |ls| ==>
           forall k :: m + 3 <= k < |ls| ==> !IsSectionNumber(ls[k]))
  {
    var lo := if m + 3 <= |ls| then m + 3 else |ls|;
    FirstSectionSkips(ls, lo);
  }

  /** The shape of a found section: the marker is the first number line and
      is not line 0; start <= marker < end <= the line count, with the start
      and the end as StartOfShape and EndOfShape describe them. */
  lemma SectionBoundsShape(ls: seq<string>, t: string)
    requires SectionBounds(ls, t).Some?
    ensures var b := SectionBounds(ls, t).value;
      && 0 < b.marker < |ls| && ls[b.marker] == t
      && (forall k :: 0 <= k < b.marker ==> ls[k] != t)
      && b.marker - 3 <= b.start <= b.marker < b.end <= |ls|
      && StartOf(ls, b.marker) == Some(b.start)
      && b.end == EndOf(ls, b.marker)
  {
    var m := FirstLine(ls, 0, |ls|, t).value;
    FirstLineSkips(ls, 0, |ls|, t);
    StartOfShape(ls, m);
  }

  /** A found section's bounds: start <= marker < end <= the line count. */
  lemma SectionBoundsRange(ls: seq<string>, t: string, b: Bounds)
    requires SectionBounds(ls, t) == Some(b)
    ensures b.marker - 3 <= b.start <= b.marker < b.end <= |ls|
  {
  }

  /** With a non-negative start the section of the lines `xs` (whose
      stripped forms are `ls`) holds the marker line, so it is never empty. */
  lemma SectionHoldsMarker<A>(ls: seq<string>, t: string, b: Bounds, xs: seq<A>)
    requires SectionBounds(ls, t) == Some(b) && b.start >= 0 && |xs| == |ls|
    ensures PySlice(xs, b.start, b.end) == xs[b.start..b.end]
    ensures b.marker - b.start < |PySlice(xs, b.start, b.end)|
      && PySlice(xs, b.start, b.end)[b.marker - b.start] == xs[b.marker]
  {
    SectionBoundsRange(ls, t, b);
    PySliceInRange(xs, b.start, b.end, b.marker);
  }

  /** Within range, the Python slice is the plain slice. */
  lemma PySliceInRange<A>(xs: seq<A>, s: int, e: nat, i: nat)
    requires 0 <= s <= i < e <= |xs|
    ensures PySlice(xs, s, e) == xs[s..e]
    ensures PySlice(xs, s, e)[i - s] == xs[i]
  {
  }

  /** The wrap-around: a marker on line 1 with no "DAY" line above it gives
      start -1, so the section of the lines `xs` is their last line alone
      when no later section number exists, and empty otherwise. */
  lemma NegativeStart<A>(ls: seq<string>, t: string, b: Bounds, xs: seq<A>)
    requires SectionBounds(ls, t) == Some(b) && b.start < 0 && |xs| == |ls|
    ensures b.start == -1 && b.marker == 1
    ensures PySlice(xs, b.start, b.end) == (if b.end == |xs| then [xs[|xs| - 1]] else [])
  {
    SectionBoundsShape(ls, t);
    StartOfShape(ls, b.marker);
    WrapSlice(xs, b.end);
  }

  /** Python's `xs[-1:e]` for 1 < e <= |xs|. */
  lemma WrapSlice<A>(xs: seq<A>, e: nat)
    requires 1 < e <= |xs|
    ensures PySlice(xs, -1, e) == (if e == |xs| then [xs[|xs| - 1]] else [])
  {
  }

  /** The title is empty or is one stripped line in [i, hi), counting a
      negative index from the end, and never "DAY". */
  lemma {:induction false} TitleSource(ls: seq<string>, i: int, hi: int)
    requires -|ls| <= i && hi <= |ls|
    ensures var t := TitleFrom(ls, i, hi);
      t == "" || exists k :: i <= k < hi && t == PyAt(ls, k) && t != "DAY"
    decreases hi - i
  {
    if i < hi {
      TitleSource(ls, i + 1, hi);
    }
  }

  // ---------------------------------------------------------------------
  // The segmenter as the source runs it

  /** The scan for the first line whose stripped text is `t`, in [lo, hi). */
  method ScanLine(lines: seq<string>, lo: nat, hi: nat, t: string) returns (r: nat)
    requires lo <= hi <= |lines|
    ensures lo <= r <= hi
    ensures FirstLine(Map(lines, Strip), lo, hi, t) == if r < hi then Some(r) else None
  {
    ghost var ls := Map(lines, Strip);
    r := lo;
    while r < hi
      invariant lo <= r <= hi
      invariant First(ls, r, hi, Equals(t)) == First(ls, lo, hi, Equals(t))
    {
      var line := StripLine(lines, r);
      if line == t {
        break;
      }
      r := r + 1;
    }
  }

  /** The scan for the next section number, from line `lo` on. */
  method ScanSection(lines: seq<string>, lo: nat) returns (r: nat)
    requires lo <= |lines|
    ensures lo <= r <= |lines|
    ensures FirstSection(Map(lines, Strip), lo) == if r < |lines| then Some(r) else None
  {
    ghost var ls := Map(lines, Strip);
    r := lo;
    while r < |lines|
      invariant lo <= r <= |lines|
      invariant First(ls, r, |ls|, IsSectionNumber) == First(ls, lo, |ls|, IsSectionNumber)
    {
      var line := StripLine(lines, r);
      if IsSectionNumber(line) {
        break;
      }
      r := r + 1;
    }
  }

  /** `lines[i].strip()` for an index that may count from the end. */
  method StripAt(lines: seq<string>, i: int) returns (line: string)
    requires -|lines| <= i < |lines|
    ensures line == PyAt(Map(lines, Strip), i)
  {
    line := StripLine(lines, if i < 0 then |lines| + i else i);
  }

  /** The title loop over [start, hi). */
  method ScanTitle(lines: seq<string>, start: int, hi: int) returns (title: string)
    requires -|lines| <= start && hi <= |lines|
    ensures title == TitleFrom(Map(lines, Strip), start, hi)
  {
    ghost var ls := Map(lines, Strip);
    title := "";
    var t := start;
    while t < hi
      invariant start <= t
      invariant TitleFrom(ls, t, hi) == TitleFrom(ls, start, hi)
    {
      var s := StripAt(lines, t);
      if s != "" && s != "DAY" {
        title := s;
        return;
      }
      t := t + 1;
    }
  }

  /** The look-back for a "DAY" line among the four lines before the marker. */
  method ScanStart(lines: seq<string>, marker: nat) returns (r: Option<int>)
    requires marker < |lines|
    ensures r == StartOf(Map(lines, Strip), marker)
  {
    var j := ScanLine(lines, if marker >= 4 then marker - 4 else 0, marker, "DAY");
    ghost var found := FirstLine(Map(lines, Strip), if marker >= 4 then marker - 4 else 0, marker, "DAY");
    assert found.Some? <==> j < marker;
    if j < marker {
      assert found == Some(j);
      r := Some(j + 1);
    } else if marker > 0 {
      r := Some(marker - 2);
    } else {
      r := None;
    }
  }

  /** The look-ahead for the next section number, three lines after the
      marker on. */
  method ScanEnd(lines: seq<string>, marker: nat) returns (end: nat)
    requires marker < |lines|
    ensures end == EndOf(Map(lines, Strip), marker)
  {
    var k := ScanSection(lines, if marker + 3 <= |lines| then marker + 3 else |lines|);
    end := if k < |lines| then k - 2 else |lines|;
  }

  /** The boundary computation of `extract_day_section`, on its lines. */
  method LocateDay(lines: seq<string>, day: nat) returns (r: Option<Bounds>)
    ensures r == DayBounds(lines, day)
  {
    r := LocateMarker(lines, Pad3(day));
  }

  /** The marker scan, then the bounds around the marker. */
  method LocateMarker(lines: seq<string>, t: string) returns (r: Option<Bounds>)
    ensures r == SectionBounds(Map(lines, Strip), t)
  {
    var marker := ScanLine(lines, 0, |lines|, t);
    if marker == |lines| {
      return None;
    }
    r := LocateAround(lines, marker);
  }

  /** The look-back, the look-ahead and the title loop around the marker. */
  method LocateAround(lines: seq<string>, marker: nat) returns (r: Option<Bounds>)
    requires marker < |lines|
    ensures r == BoundsAt(Map(lines, Strip), marker)
  {
    var start := ScanStart(lines, marker);
    if start.None? {
      return None;
    }
    var end := ScanEnd(lines, marker);
    var s := start.value;
    var title := ScanTitle(lines, s, if s + 3 <= marker then s + 3 else marker);
    r := Some(Bounds(s, marker, end, title));
  }

  /** `extract_day_section`: the section is the lines [start, end) joined
      again, None standing for Python's (None, None). */
  method ExtractDaySection(text: string, day: nat) returns (r: Option<Located>)
    ensures r == DaySection(text, day)
  {
    var lines := Split(text);
    var b := LocateDay(lines, day);
    if b.None? {
      return None;
    }
    r := Some(Located(Join(PySlice(lines, b.value.start, b.value.end)), b.value.title));
  }
}
