/** The key-pattern parser of make_json_full.py (`parse_patterns_from_step3`):
    after each speaker line of the STEP3 block, the first following line
    that looks like a pattern explanation (Korean and English text and a
    pattern symbol, but not an example sentence) is taken as that line's
    pattern. */
module PatternParser {
  import opened Text
  import opened Markers

  // ---------------------------------------------------------------------
  // Line classifiers

  /** `any('가' <= c <= '힣' for c in s)`. */
  predicate HasHangul(s: string) {
    exists k :: 0 <= k < |s| && IsHangul(s[k])
  }

  /** The characters `c` with `'a' <= c.lower() <= 'z'`: the ASCII letters,
      the Kelvin sign (it lower-cases to "k") and the dotted capital I (it
      lower-cases to "i" and a combining dot, which still compares between
      "a" and "z"). */
  predicate LowersToLatin(c: char) {
    IsAsciiLetter(c) || c == '\U{212A}' || c == '\U{0130}'
  }

  /** `any('a' <= c.lower() <= 'z' for c in s)`. */
  predicate HasLatin(s: string) {
    exists k :: 0 <= k < |s| && LowersToLatin(s[k])
  }

  /** One of the pattern symbols `:`, `~`, `(`, `+`, `.` occurs. */
  predicate HasPatternMark(s: string) {
    ':' in s || '~' in s || '(' in s || '+' in s || '.' in s
  }

  /** The characters the class `[^:+~\(\)]` leaves out. */
  predicate IsPatternSymbol(c: char) {
    c == ':' || c == '+' || c == '~' || c == '(' || c == ')'
  }

  predicate IsSentenceEnd(c: char) {
    c == '.' || c == '?' || c == '!'
  }

  /** `\s+[가-힣]` at position `j`: a whitespace run, then a Hangul syllable. */
  predicate SpacesThenHangul(s: string, j: nat)
    requires j <= |s|
  {
    j < |s| && IsSpace(s[j]) && var c := SkipSpaces(s, j); c < |s| && IsHangul(s[c])
  }

  /** The tail `[^:+~\(\)]+[\.\?!]\s+[가-힣]` of the example regex, tried
      from position `k` (at least one character of the class lies between
      position 2 and the sentence end). */
  predicate ExampleTail(s: string, k: nat)
    requires 2 <= k <= |s|
    decreases |s| - k
  {
    k < |s|
    && ((k >= 3 && IsSentenceEnd(s[k]) && SpacesThenHangul(s, k + 1))
        || (!IsPatternSymbol(s[k]) && ExampleTail(s, k + 1)))
  }

  /** The example-sentence test `re.match(r'^[A-Z][a-z]+[^:+~\(\)]+[\.\?!]\s+[가-힣]+.*[\.\?!]?\s*$', s)`
      on a line without a newline: an upper-case letter, a lower-case
      letter, then at least one character that is no pattern symbol, a
      sentence end, whitespace and a Hangul syllable; whatever follows
      matches `.*[\.\?!]?\s*$`. Letters after the first lower-case one are
      in the class `[^:+~\(\)]`, so one lower-case letter is enough. */
  predicate IsExample(s: string) {
    |s| >= 2 && IsUpper(s[0]) && IsLower(s[1]) && ExampleTail(s, 2)
  }

  /** The example regex matched with its sentence end at `q`: the
      characters from `k` up to `q` are no pattern symbols, at least one of
      them lies after position 2, and whitespace and a Hangul syllable
      follow the sentence end. */
  predicate ExampleEnd(s: string, k: nat, q: nat) {
    && k <= q < |s| && q >= 3 && IsSentenceEnd(s[q]) && SpacesThenHangul(s, q + 1)
    && forall t :: k <= t < q ==> !IsPatternSymbol(s[t])
  }

  /** The recursive matcher finds a sentence end exactly when the regex has
      one to end on. */
  lemma {:induction false} ExampleTailIff(s: string, k: nat)
    requires 2 <= k <= |s|
    ensures ExampleTail(s, k) <==> exists q: nat :: ExampleEnd(s, k, q)
    decreases |s| - k
  {
    if k < |s| {
      ExampleTailIff(s, k + 1);
      if ExampleTail(s, k) {
        if k >= 3 && IsSentenceEnd(s[k]) && SpacesThenHangul(s, k + 1) {
          assert ExampleEnd(s, k, k);
        } else {
          var q: nat :| ExampleEnd(s, k + 1, q);
          assert ExampleEnd(s, k, q);
        }
      }
      if exists q: nat :: ExampleEnd(s, k, q) {
        var q: nat :| ExampleEnd(s, k, q);
        if q > k {
          assert !IsPatternSymbol(s[k]) && ExampleEnd(s, k + 1, q);
          assert ExampleTail(s, k + 1);
        }
        assert ExampleTail(s, k);
      }
    }
  }

  /** An example sentence in the regex's terms: an upper-case letter, a
      lower-case letter, then no pattern symbol up to a sentence end at 3 or
      later, followed by whitespace and a Hangul syllable. */
  lemma ExampleIff(s: string)
    ensures IsExample(s) <==> |s| >= 2 && IsUpper(s[0]) && IsLower(s[1]) && exists q: nat :: ExampleEnd(s, 2, q)
  {
    if |s| >= 2 {
      ExampleTailIff(s, 2);
    }
  }

  /** A line the inner scan takes as a pattern. */
  predicate Candidate(s: string) {
    HasHangul(s) && HasLatin(s) && HasPatternMark(s) && !IsExample(s)
  }

  /** The characters `has_only_korean` allows besides whitespace. */
  predicate IsKoreanLineChar(c: char) {
    IsHangul(c) || c == ' ' || c == '.' || c == '?' || c == '!' || c == ',' || c == '~'
    || c == ':' || c == '(' || c == ')' || c == '-' || c == '/'
  }

  /** `has_only_korean`: every non-whitespace character is Hangul or one of
      ` .?!,~:()-/`. */
  predicate HasOnlyKorean(s: string) {
    forall k :: 0 <= k < |s| ==> IsSpace(s[k]) || IsKoreanLineChar(s[k])
  }

  /** `re.match(r'^[가-힣\s]+[\.\?!]\s*$', s)` on a line without a newline:
      Hangul and whitespace, then one sentence end, then only whitespace. */
  predicate KoreanSentence(s: string) {
    var t := RStrip(s);
    |t| >= 2 && IsSentenceEnd(t[|t| - 1])
    && forall k :: 0 <= k < |t| - 1 ==> IsHangul(t[k]) || IsSpace(t[k])
  }

  /** The stripped line after an accepted pattern makes the scan step back
      (`i -= 1`): it is not blank, not a speaker line, holds only Korean
      text and punctuation, and is not a Korean sentence. */
  predicate Reverts(s: string) {
    s != "" && !IsSpeakerLine(s) && HasOnlyKorean(s) && !KoreanSentence(s)
  }

  /** The inner scan stops at a blank line, a speaker line or a STEP4 line. */
  predicate StopsInner(s: string) {
    s == "" || IsSpeakerLine(s) || IsStep4Line(s)
  }

  // ---------------------------------------------------------------------
  // The scan as a specification, over the stripped lines `ls`
  // (the source strips each line where it reads it)

  /** Where the inner loop leaves `i`, and the pattern it found. */
  datatype Exit = Exit(next: nat, pattern: Option<string>)

  /** The index after the look-ahead that follows an accepted pattern on
      line `c`: one past it, or back on it when the next line reverts. */
  function AfterPattern(ls: seq<string>, c: nat): (r: nat)
    requires c < |ls|
    ensures c <= r <= c + 1
  {
    if c + 1 < |ls| && Reverts(ls[c + 1]) then c else c + 1
  }

  /** The inner loop from line `i`: the first stop line ends it with no
      pattern, the first candidate ends it with that pattern; running off
      the end leaves `i` at the line count. */
  function InnerScan(ls: seq<string>, i: nat): (r: Exit)
    requires i <= |ls|
    ensures i <= r.next <= |ls|
    decreases |ls| - i
  {
    if i == |ls| then Exit(|ls|, None)
    else if StopsInner(ls[i]) then Exit(i, None)
    else if Candidate(ls[i]) then Exit(AfterPattern(ls, i), Some(ls[i]))
    else InnerScan(ls, i + 1)
  }

  /** The list of a found value: one item or none. */
  function Found<A>(o: Option<A>): (r: seq<A>)
    ensures |r| <= 1
  {
    match o
    case Some(v) => [v]
    case None => []
  }

  /** The outer loop from line `i`: it ends at a STEP4 line; after a
      speaker line it runs the inner scan and resumes one past where that
      scan left `i`; any other line is skipped. */
  function PatternsFrom(ls: seq<string>, i: nat): seq<string>
    requires i <= |ls| + 1
    decreases |ls| + 1 - i
  {
    if i >= |ls| || IsStep4Line(ls[i]) then []
    else if IsSpeakerLine(ls[i]) then
      var x := InnerScan(ls, i + 1);
      Found(x.pattern) + PatternsFrom(ls, x.next + 1)
    else PatternsFrom(ls, i + 1)
  }

  /** `parse_patterns_from_step3` on the section's lines. */
  function Patterns(lines: seq<string>): seq<string>
  {
    match FirstStep3(lines, 0)
    case None => []
    case Some(s) => PatternsFrom(Map(lines, Strip), s + 1)
  }

  // ---------------------------------------------------------------------
  // The parser as the source runs it

  /** `parse_patterns_from_step3(section)` on `section.split('\n')`, with
      its two nested loops and the hand-moved index. */
  method ParsePatternsFromStep3(lines: seq<string>) returns (patterns: seq<string>)
    ensures patterns == Patterns(lines)
  {
    var s := FindStep3(lines);
    if s.None? {
      return [];
    }
    patterns := ScanPatterns(lines, s.value + 1);
  }

  /** The outer `while` loop from line `lo`. */
  method ScanPatterns(lines: seq<string>, lo: nat) returns (patterns: seq<string>)
    requires lo <= |lines|
    ensures patterns == PatternsFrom(Map(lines, Strip), lo)
  {
    ghost var ls := Map(lines, Strip);
    patterns := [];
    var i := lo;
    while i < |lines|
      invariant lo <= i <= |lines| + 1
      invariant patterns + PatternsFrom(ls, i) == PatternsFrom(ls, lo)
      decreases |lines| + 1 - i
    {
      var line := StripLine(lines, i);
      if IsStep4Line(line) {
        OuterStop(ls, i);
        assert patterns + [] == patterns;
        break;
      }
      if IsSpeakerLine(line) {
        var next, candidate := ScanAfterSpeaker(lines, i + 1);
        ghost var found := if candidate == "" then None else Some(candidate);
        OuterSpeaker(ls, i, next, found, patterns, PatternsFrom(ls, lo));
        ghost var acc := patterns;
        if candidate != "" {
          patterns := patterns + [candidate];
        }
        assert patterns == acc + Found(found);
        assert patterns + PatternsFrom(ls, next + 1) == PatternsFrom(ls, lo);
        i := next + 1;
      } else {
        OuterSkip(ls, i);
        assert patterns + PatternsFrom(ls, i + 1) == PatternsFrom(ls, lo);
        i := i + 1;
      }
    }
  }

  /** The inner `while` loop after a speaker line, from line `first`: it
      returns where it leaves `i` and the pattern it found ("" for none). */
  method ScanAfterSpeaker(lines: seq<string>, first: nat) returns (i: nat, candidate: string)
    requires first <= |lines|
    ensures InnerScan(Map(lines, Strip), first).next == i
    ensures InnerScan(Map(lines, Strip), first).pattern == if candidate == "" then None else Some(candidate)
  {
    ghost var ls := Map(lines, Strip);
    i := first;
    candidate := "";
    while i < |lines|
      invariant first <= i <= |lines|
      invariant InnerScan(ls, i) == InnerScan(ls, first)
    {
      var next := StripLine(lines, i);
      if next == "" || IsSpeakerLine(next) {
        InnerStop(ls, i);
        break;
      }
      if IsStep4Line(next) {
        InnerStop(ls, i);
        break;
      }
      if HasHangul(next) && HasLatin(next) {
        if HasPatternMark(next) {
          if !IsExample(next) {
            InnerAccept(ls, i);
            ghost var c := i;
            candidate := next;
            i := i + 1;
            var after := "";
            if i < |lines| {
              after := StripLine(lines, i);
            }
            if i < |lines| && after != "" && !IsSpeakerLine(after) {
              if HasOnlyKorean(after) && |after| > 0 {
                if !KoreanSentence(after) {
                  i := i - 1;
                }
              }
            }
            assert i == AfterPattern(ls, c);
            return;
          }
        }
      }
      InnerSkip(ls, i);
      assert InnerScan(ls, i + 1) == InnerScan(ls, first);
      i := i + 1;
    }
  }

  // Single steps of the two scans

  lemma OuterStop(ls: seq<string>, i: nat)
    requires i < |ls| && IsStep4Line(ls[i])
    ensures PatternsFrom(ls, i) == []
  {
  }

  lemma OuterSpeaker(ls: seq<string>, i: nat, next: nat, found: Option<string>, acc: seq<string>, total: seq<string>)
    requires i < |ls| && !IsStep4Line(ls[i]) && IsSpeakerLine(ls[i])
    requires InnerScan(ls, i + 1) == Exit(next, found)
    requires acc + PatternsFrom(ls, i) == total
    ensures next <= |ls|
    ensures acc + Found(found) + PatternsFrom(ls, next + 1) == total
  {
    OuterSpeakerStep(ls, i);
    AppendAssoc(acc, Found(found), PatternsFrom(ls, next + 1));
  }

  lemma OuterSpeakerStep(ls: seq<string>, i: nat)
    requires i < |ls| && !IsStep4Line(ls[i]) && IsSpeakerLine(ls[i])
    ensures PatternsFrom(ls, i) == Found(InnerScan(ls, i + 1).pattern) + PatternsFrom(ls, InnerScan(ls, i + 1).next + 1)
  {
  }

  lemma OuterSkip(ls: seq<string>, i: nat)
    requires i < |ls| && !IsStep4Line(ls[i]) && !IsSpeakerLine(ls[i])
    ensures PatternsFrom(ls, i) == PatternsFrom(ls, i + 1)
  {
  }

  lemma InnerStop(ls: seq<string>, i: nat)
    requires i < |ls| && StopsInner(ls[i])
    ensures InnerScan(ls, i) == Exit(i, None)
  {
  }

  lemma InnerAccept(ls: seq<string>, i: nat)
    requires i < |ls| && !StopsInner(ls[i]) && Candidate(ls[i])
    ensures InnerScan(ls, i) == Exit(AfterPattern(ls, i), Some(ls[i]))
  {
  }

  lemma InnerSkip(ls: seq<string>, i: nat)
    requires i < |ls| && !StopsInner(ls[i]) && !Candidate(ls[i])
    ensures InnerScan(ls, i) == InnerScan(ls, i + 1)
  {
  }

  // ---------------------------------------------------------------------
  // Properties

  /** An inner scan that finds a pattern finds it on the first line, from
      `i` on, that is a candidate, with no stop line before it; the pattern
      is that whole stripped line. */
  lemma {:induction false} InnerFound(ls: seq<string>, i: nat, p: string) returns (j: nat)
    requires i <= |ls| && InnerScan(ls, i).pattern == Some(p)
    ensures i <= j < |ls| && ls[j] == p && Candidate(p)
    ensures InnerScan(ls, i).next == AfterPattern(ls, j)
    ensures forall t :: i <= t < j ==> !StopsInner(ls[t]) && !Candidate(ls[t])
    decreases |ls| - i
  {
    if StopsInner(ls[i]) || Candidate(ls[i]) {
      j := i;
    } else {
      j := InnerFound(ls, i + 1, p);
    }
  }

  /** An inner scan that finds nothing ends at the end of the lines or on
      the first stop line, and no line before that is a candidate. */
  lemma {:induction false} InnerNone(ls: seq<string>, i: nat)
    requires i <= |ls| && InnerScan(ls, i).pattern == None
    ensures var n := InnerScan(ls, i).next; n == |ls| || StopsInner(ls[n])
    ensures forall t :: i <= t < InnerScan(ls, i).next ==> !StopsInner(ls[t]) && !Candidate(ls[t])
    decreases |ls| - i
  {
    if i < |ls| && !StopsInner(ls[i]) {
      InnerNone(ls, i + 1);
    }
  }

  /** Every pattern is a whole stripped line after `i`, and the patterns
      come out in line order, from distinct lines. */
  lemma {:induction false} PatternLines(ls: seq<string>, i: nat) returns (js: seq<nat>)
    requires i <= |ls| + 1
    ensures Picks(ls, js, PatternsFrom(ls, i), i)
    decreases |ls| + 1 - i
  {
    if i >= |ls| || IsStep4Line(ls[i]) {
      js := [];
    } else if IsSpeakerLine(ls[i]) {
      var x := InnerScan(ls, i + 1);
      var rest := PatternLines(ls, x.next + 1);
      match x.pattern
      case None =>
        js := rest;
        PicksFrom(ls, rest, PatternsFrom(ls, x.next + 1), i, x.next + 1);
      case Some(p) =>
        var j := InnerFound(ls, i + 1, p);
        js := [j] + rest;
        PicksCons(ls, j, rest, PatternsFrom(ls, x.next + 1), i, x.next + 1);
    } else {
      js := PatternLines(ls, i + 1);
      PicksFrom(ls, js, PatternsFrom(ls, i + 1), i, i + 1);
    }
  }

  /** Every pattern holds a Hangul syllable, a Latin letter and a pattern
      symbol, and is no example sentence. */
  lemma {:induction false} PatternsAreCandidates(ls: seq<string>, i: nat)
    requires i <= |ls| + 1
    ensures forall k :: 0 <= k < |PatternsFrom(ls, i)| ==> Candidate(PatternsFrom(ls, i)[k])
    decreases |ls| + 1 - i
  {
    if i >= |ls| || IsStep4Line(ls[i]) {
    } else if IsSpeakerLine(ls[i]) {
      var x := InnerScan(ls, i + 1);
      PatternsAreCandidates(ls, x.next + 1);
      match x.pattern
      case None =>
      case Some(p) =>
        var j := InnerFound(ls, i + 1, p);
    } else {
      PatternsAreCandidates(ls, i + 1);
    }
  }

  /** The patterns of a section: each one is a whole stripped line after the
      STEP3 heading with Hangul, a Latin letter and a pattern symbol, that
      is no example sentence, in line order. */
  lemma PatternsAfterStep3(lines: seq<string>, s: nat) returns (js: seq<nat>)
    requires FirstStep3(lines, 0) == Some(s)
    ensures Picks(Map(lines, Strip), js, Patterns(lines), s + 1)
    ensures forall k :: 0 <= k < |js| ==> Strip(lines[js[k]]) == Patterns(lines)[k]
    ensures forall k :: 0 <= k < |js| ==> Candidate(Patterns(lines)[k])
  {
    var ls := Map(lines, Strip);
    js := PatternLines(ls, s + 1);
    PatternsAreCandidates(ls, s + 1);
    forall k | 0 <= k < |js|
      ensures Strip(lines[js[k]]) == Patterns(lines)[k]
    {
      MapAt(lines, Strip, js[k]);
    }
  }

  /** The number of speaker lines from `i` on. */
  function SpeakerLines(ls: seq<string>, i: nat): (r: nat)
    requires i <= |ls| + 1
    ensures r <= |ls| + 1 - i
    decreases |ls| + 1 - i
  {
    if i >= |ls| then 0 else (if IsSpeakerLine(ls[i]) then 1 else 0) + SpeakerLines(ls, i + 1)
  }

  lemma {:induction false} SpeakerLinesMono(ls: seq<string>, i: nat, j: nat)
    requires i <= j <= |ls| + 1
    ensures SpeakerLines(ls, j) <= SpeakerLines(ls, i)
    decreases j - i
  {
    if i < j {
      SpeakerLinesMono(ls, i + 1, j);
    }
  }

  /** At most one pattern per speaker line. */
  lemma {:induction false} AtMostOnePerSpeaker(ls: seq<string>, i: nat)
    requires i <= |ls| + 1
    ensures |PatternsFrom(ls, i)| <= SpeakerLines(ls, i)
    decreases |ls| + 1 - i
  {
    if i >= |ls| || IsStep4Line(ls[i]) {
    } else if IsSpeakerLine(ls[i]) {
      var x := InnerScan(ls, i + 1);
      AtMostOnePerSpeaker(ls, x.next + 1);
      SpeakerLinesMono(ls, i + 1, x.next + 1);
    } else {
      AtMostOnePerSpeaker(ls, i + 1);
    }
  }

  /** The look-ahead after a pattern only moves the index: whether it steps
      back or not, the outer scan goes on as from two lines after the
      pattern. A line that reverts holds no S, so it is no STEP4 heading,
      and it is no speaker line; the outer scan passes over it. So the
      line right after a pattern never anchors a pattern. */
  lemma LookAheadInvisible(ls: seq<string>, c: nat)
    requires c < |ls|
    ensures PatternsFrom(ls, AfterPattern(ls, c) + 1) == PatternsFrom(ls, c + 2)
  {
    if c + 1 < |ls| && Reverts(ls[c + 1]) {
      OuterSkip(ls, c + 1);
    }
  }

  /** A line that stops the inner scan right after a speaker line is passed
      over by the outer scan: a STEP4 heading there does not end the scan,
      and a second speaker line there anchors no pattern. */
  lemma StopLinePassedOver(ls: seq<string>, i: nat)
    requires i + 1 < |ls| && IsSpeakerLine(ls[i]) && !IsStep4Line(ls[i]) && StopsInner(ls[i + 1])
    ensures PatternsFrom(ls, i) == PatternsFrom(ls, i + 2)
  {
    InnerStop(ls, i + 1);
    OuterSpeaker(ls, i, i + 1, None, [], PatternsFrom(ls, i));
  }
}
