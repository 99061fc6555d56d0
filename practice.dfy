/** The practice parser of make_json_full.py (`parse_practice_from_step4`):
    the numbered lines among the nineteen lines after the STEP4 heading,
    each without a trailing answer mark " E". */
module PracticeParser {
  import opened Text
  import opened Markers

  /** How many lines after the heading the scan looks at: the range ends
      at `step4_idx + 20`, exclusive. */
  const Window: nat := 19

  /** The length of the leading run of ASCII digits. */
  function DigitRun(s: string): (r: nat)
    ensures r <= |s|
    ensures forall k :: 0 <= k < r ==> IsDigit(s[k])
    ensures r < |s| ==> !IsDigit(s[r])
  {
    if |s| > 0 && IsDigit(s[0]) then 1 + DigitRun(s[1..]) else 0
  }

  /** `re.match(r'^(\d+)\.\s*(.+)$', s)` on a line without a newline: a
      digit run, a full stop, then at least one more character (the `\s*`
      may match nothing, so `.+` takes whatever follows). The digits are
      greedy and a full stop is no digit, so the run is the leading one. */
  predicate IsNumbered(s: string) {
    var d := DigitRun(s);
    d >= 1 && d + 2 <= |s| && s[d] == '.'
  }

  /** `re.sub(r'\s+E\s*$', '', s)`: when what is left of `s` before its
      trailing whitespace ends in a capital E with whitespace right before
      it, that E, the whitespace run before it and the whitespace after it
      go; otherwise `s` is kept as it is. */
  function DropTrailingE(s: string): (r: string)
    ensures |r| <= |s| && r == s[..|r|]
  {
    var t := RStrip(s);
    if |t| >= 2 && t[|t| - 1] == 'E' && IsSpace(t[|t| - 2]) then RStrip(t[..|t| - 1]) else s
  }

  /** What one line after the heading contributes: its stripped text,
      cleaned, when it is numbered. */
  function PracticeItem(l: string): Option<string>
  {
    var line := Strip(l);
    if IsNumbered(line) then Some(DropTrailingE(line)) else None
  }

  /** The end of the window after the heading on line `s`:
      `min(s + 20, len(lines))`. */
  function WindowEnd(lines: seq<string>, s: nat): (r: nat)
    requires s < |lines|
    ensures s < r <= |lines| && r <= s + 1 + Window
  {
    if s + 1 + Window <= |lines| then s + 1 + Window else |lines|
  }

  /** `parse_practice_from_step4` on the section's lines. */
  function Practice(lines: seq<string>): seq<string>
  {
    match FirstStep4(lines, 0)
    case None => []
    case Some(s) => FilterMap(lines[s + 1..WindowEnd(lines, s)], PracticeItem)
  }

  // ---------------------------------------------------------------------
  // The parser as the source runs it

  /** `parse_practice_from_step4(section)` on `section.split('\n')`: find
      the STEP4 heading, then go over the lines of the window in order and
      keep each numbered one, cleaned. */
  method ParsePracticeFromStep4(lines: seq<string>) returns (practice: seq<string>)
    ensures practice == Practice(lines)
  {
    var s := FindStep4(lines);
    if s.None? {
      return [];
    }
    practice := CollectRange(lines, s.value + 1, WindowEnd(lines, s.value), PracticeItem);
  }

  // ---------------------------------------------------------------------
  // Properties

  /** At most nineteen practice items, whatever the section holds. */
  lemma PracticeBound(lines: seq<string>)
    ensures |Practice(lines)| <= Window
  {
  }

  /** Every item comes from one line among the nineteen after the first
      STEP4 heading. */
  lemma PracticeOrigin(lines: seq<string>, s: nat, item: string) returns (j: nat)
    requires FirstStep4(lines, 0) == Some(s) && item in Practice(lines)
    ensures s < j < WindowEnd(lines, s) && j <= s + Window
    ensures PracticeItem(lines[j]) == Some(item)
  {
    j := FilterMapOriginIn(lines, s + 1, WindowEnd(lines, s), PracticeItem, item);
  }

  /** An item is a numbered stripped line, cleaned; it keeps the line's
      number and full stop and is a prefix of the line. */
  lemma PracticeItemShape(l: string, item: string)
    requires PracticeItem(l) == Some(item)
    ensures IsNumbered(Strip(l)) && item == DropTrailingE(Strip(l))
    ensures var d := DigitRun(Strip(l)); d < |item| && item[..d + 1] == Strip(l)[..d + 1]
    ensures item == Strip(l)[..|item|]
  {
    KeepsNumber(Strip(l));
  }

  /** Cleaning a numbered line keeps its number and its full stop. */
  lemma KeepsNumber(s: string)
    requires IsNumbered(s)
    ensures var d := DigitRun(s); d < |DropTrailingE(s)| && DropTrailingE(s)[..d + 1] == s[..d + 1]
  {
    var d := DigitRun(s);
    var r := DropTrailingE(s);
    KeepsBefore(s, d);
    PrefixAgrees(r, s, d + 1);
  }

  /** Cleaning keeps every character up to a non-whitespace one that is not
      the E it removes. */
  lemma KeepsBefore(s: string, d: nat)
    requires d < |s| && !IsSpace(s[d]) && s[d] != 'E'
    ensures d < |DropTrailingE(s)|
  {
    var t := RStrip(s);
    assert d < |t|;
    if |t| >= 2 && t[|t| - 1] == 'E' && IsSpace(t[|t| - 2]) {
      assert t[d] == s[d];
      RStripKeepsBefore(t[..|t| - 1], d);
    }
  }

  /** Right-stripping keeps every character up to a non-whitespace one. */
  lemma RStripKeepsBefore(u: string, d: nat)
    requires d < |u| && !IsSpace(u[d])
    ensures d < |RStrip(u)|
  {
  }

  /** The removal undone: a text that does not end in whitespace, followed
      by whitespace, a capital E and more whitespace, loses exactly the
      part from the whitespace on. */
  lemma DropTrailingEOf(r: string, w: string, w2: string)
    requires r == "" || !IsSpace(r[|r| - 1])
    requires w != [] && forall k :: 0 <= k < |w| ==> IsSpace(w[k])
    requires forall k :: 0 <= k < |w2| ==> IsSpace(w2[k])
    ensures DropTrailingE(r + w + "E" + w2) == r
  {
    var s := r + w + "E" + w2;
    RStripSpaceTail(r + w + "E", w2);
    var t := RStrip(s);
    assert t == r + w + "E";
    assert t[..|t| - 1] == r + w;
    RStripSpaceTail(r, w);
    RStripFixedEnd(r);
  }

  /** Right-stripping a text followed by whitespace strips the whitespace
      first. */
  lemma {:induction false} RStripSpaceTail(a: string, w: string)
    requires forall k :: 0 <= k < |w| ==> IsSpace(w[k])
    ensures RStrip(a + w) == RStrip(a)
    decreases |w|
  {
    if w != [] {
      var w' := w[..|w| - 1];
      assert (a + w)[..|a + w| - 1] == a + w';
      RStripSpaceTail(a, w');
    } else {
      assert a + w == a;
    }
  }

  /** A text that does not end in whitespace is its own right-strip. */
  lemma RStripFixedEnd(r: string)
    requires r == "" || !IsSpace(r[|r| - 1])
    ensures RStrip(r) == r
  {
  }

  /** A capital E glued to the text before it is no answer mark: a line
      ending in ".E" keeps it. */
  lemma DotEKept(x: string)
    ensures DropTrailingE(x + ".E") == x + ".E"
  {
    var s := x + ".E";
    RStripFixedEnd(s);
    assert s[|s| - 2] == '.';
  }

  /** The numbered test in the regex's terms: some digit run of length at
      least one, then a full stop and at least one more character. */
  lemma NumberedIff(s: string)
    ensures IsNumbered(s) <==>
      exists d: nat :: 1 <= d && d + 2 <= |s| && s[d] == '.' && forall k :: 0 <= k < d ==> IsDigit(s[k])
  {
    if exists d: nat :: 1 <= d && d + 2 <= |s| && s[d] == '.' && forall k :: 0 <= k < d ==> IsDigit(s[k]) {
      var d: nat :| 1 <= d && d + 2 <= |s| && s[d] == '.' && forall k :: 0 <= k < d ==> IsDigit(s[k]);
      var r := DigitRun(s);
    }
  }
}
