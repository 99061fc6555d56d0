/** The dialogue parser of make_json_full.py (`parse_dialogue_from_step3`):
    the speaker lines between the STEP3 heading and the next STEP4 line,
    each split into an English sentence and its Korean translation. */
module DialogueParser {
  import opened Text
  import opened Lessons
  import opened Markers

  /** The class `[A-Za-z,\s\'\.\?!]` of the English part. It holds no digit,
      so a sentence with a number is cut before the number. */
  predicate IsEnChar(c: char) {
    IsAsciiLetter(c) || IsSpace(c) || c == ',' || c == '\'' || c == '.' || c == '?' || c == '!'
  }

  /** The length of the longest prefix of `s` in the English class: what the
      greedy first group of the regex takes. */
  function EnglishRun(s: string): (r: nat)
    ensures r <= |s|
    ensures forall k :: 0 <= k < r ==> IsEnChar(s[k])
    ensures r < |s| ==> !IsEnChar(s[r])
  {
    if |s| > 0 && IsEnChar(s[0]) then 1 + EnglishRun(s[1..]) else 0
  }

  /** The speaker: the text before the first space with every ':' removed,
      stripped. It keeps the line's first letter, and a space only if the
      text had one. */
  function Speaker(head: string): (r: string)
    ensures ':' !in r
    ensures ' ' !in head ==> ' ' !in r
    ensures |head| > 0 && head[0] != ':' && !IsSpace(head[0]) ==> |r| > 0 && r[0] == head[0]
  {
    var w := Without(head, ':');
    StripAbsent(w, ':');
    if ' ' !in head then
      WithoutAbsent(head, ':', ' ');
      StripAbsent(w, ' ');
      if |head| > 0 && head[0] != ':' && !IsSpace(head[0]) then
        StripKeepsHead(w);
        Strip(w)
      else Strip(w)
    else if |head| > 0 && head[0] != ':' && !IsSpace(head[0]) then
      StripKeepsHead(w);
      Strip(w)
    else Strip(w)
  }

  /** The English part: the stripped longest prefix in the English class.
      The class holds no digit, so neither does the English part. */
  function EnglishPart(content: string): (r: string)
    ensures forall k :: 0 <= k < |r| ==> IsEnChar(r[k]) && !IsDigit(r[k])
  {
    var x := content[..EnglishRun(content)];
    StripInClass(x, IsEnChar);
    EnCharsNoDigit(Strip(x));
    Strip(x)
  }

  /** The English class holds no digit. */
  lemma EnCharsNoDigit(s: string)
    requires forall k :: 0 <= k < |s| ==> IsEnChar(s[k])
    ensures forall k :: 0 <= k < |s| ==> IsEnChar(s[k]) && !IsDigit(s[k])
  {
    forall k | 0 <= k < |s|
      ensures !IsDigit(s[k])
    {
      assert IsEnChar(s[k]);
    }
  }

  /** The Korean part: the stripped rest, which starts outside the English
      class (whitespace is in the class, so stripping keeps that start). */
  function KoreanPart(content: string): (r: string)
    ensures r == "" || !IsEnChar(r[0])
  {
    var x := content[EnglishRun(content)..];
    if x != "" then
      StripKeepsHead(x);
      Strip(x)
    else Strip(x)
  }

  /** The entry of a speaker line split at its first space into `head` and
      `content`: none when the English part is empty. */
  function EntryFrom(head: string, content: string): (r: Option<DialogueLine>)
    ensures r.Some? ==> r.value.speaker == Speaker(head)
    ensures r.Some? ==> (r.value.en != ""
      && forall k :: 0 <= k < |r.value.en| ==> IsEnChar(r.value.en[k]) && !IsDigit(r.value.en[k]))
    ensures r.Some? ==> r.value.ko == "" || !IsEnChar(r.value.ko[0])
  {
    var en := EnglishPart(content);
    if en == "" then None else Some(DialogueLine(Speaker(head), en, KoreanPart(content)))
  }

  /** One stripped line of the dialogue block. It yields an entry when it has
      at least three characters, starts with "A:" or "B:" and holds a space,
      and when the English part after that space is not empty (the regex
      fails exactly when the English run is empty, which leaves the English
      part empty too). The speaker then starts with the line's letter and
      holds no colon and no space. */
  function EntryOf(line: string): (r: Option<DialogueLine>)
    ensures r.Some? ==> IsSpeakerLine(line) && |line| >= 3
    ensures r.Some? ==> var e := r.value;
      && e.speaker != "" && e.speaker[0] == line[0]
      && ':' !in e.speaker && ' ' !in e.speaker
  {
    if |line| < 3 || !IsSpeakerLine(line) || ' ' !in line then None
    else
      SpeakerHead(line);
      var k := IndexOf(line, ' ');
      var head := line[..k];
      assert ' ' !in head && |head| >= 2 && head[0] == line[0];
      assert head[0] != ':' && !IsSpace(head[0]);
      EntryFrom(head, line[k + 1..])
  }

  /** The entry of a raw line, read once it is stripped. */
  function LineEntry(l: string): Option<DialogueLine>
  {
    EntryOf(Strip(l))
  }

  /** `parse_dialogue_from_step3` on the section's lines: nothing without a
      STEP3 heading, else the entries of the lines after the first heading
      up to the first STEP4 line. */
  function Dialogue(lines: seq<string>): seq<DialogueLine>
  {
    match FirstStep3(lines, 0)
    case None => []
    case Some(s) => FilterMap(lines[s + 1..Until(lines, s + 1, EndsBlock)], LineEntry)
  }

  // ---------------------------------------------------------------------
  // The parser as the source runs it

  /** `parse_dialogue_from_step3(section)` on `section.split('\n')`: find
      the STEP3 heading, then scan the lines after it up to the first STEP4
      line, keeping the entry of each. */
  method ParseDialogueFromStep3(lines: seq<string>) returns (dialogue: seq<DialogueLine>)
    ensures dialogue == Dialogue(lines)
  {
    var s := FindStep3(lines);
    if s.None? {
      return [];
    }
    dialogue := CollectUntil(lines, s.value + 1, LineEntry, EndsBlock);
  }

  // ---------------------------------------------------------------------
  // Properties

  /** How a dialogue entry is laid out on its line: speaker, ": ", the
      English part, then a space and the Korean part when there is one. */
  function Render(e: DialogueLine): string
  {
    e.speaker + ": " + e.en + Tail(e.ko)
  }

  /** The Korean part as it follows the English part on a line. */
  function Tail(ko: string): string
  {
    if ko == "" then "" else " " + ko
  }

  /** The entries the parser can produce from such a line: speaker "A" or
      "B", a stripped non-empty English part in the English class, and a
      Korean part that is empty or starts outside the class and does not end
      in whitespace. */
  predicate WellFormed(e: DialogueLine) {
    && (e.speaker == "A" || e.speaker == "B")
    && EnglishShape(e.en)
    && KoreanShape(e.ko)
  }

  predicate EnglishShape(en: string) {
    && en != "" && (forall k :: 0 <= k < |en| ==> IsEnChar(en[k]))
    && !IsSpace(en[0]) && !IsSpace(en[|en| - 1])
  }

  predicate KoreanShape(ko: string) {
    ko == "" || (!IsEnChar(ko[0]) && !IsSpace(ko[|ko| - 1]))
  }

  lemma {:induction false} EnglishRunAppend(x: string, y: string)
    requires forall k :: 0 <= k < |x| ==> IsEnChar(x[k])
    ensures EnglishRun(x + y) == |x| + EnglishRun(y)
  {
    if x != [] {
      EnglishRunAppend(x[1..], y);
      assert (x + y)[1..] == x[1..] + y;
    } else {
      assert x + y == y;
    }
  }

  /** The English run of a rendered content ends after the English part and
      the space before a Korean part. */
  lemma EnglishRunRender(en: string, ko: string)
    requires EnglishShape(en) && KoreanShape(ko)
    ensures EnglishRun(en + Tail(ko)) == |en| + (if ko == "" then 0 else 1)
  {
    EnglishRunAppend(en, Tail(ko));
    if ko != "" {
      assert Tail(ko)[1..] == ko;
    }
  }

  /** The English part of a rendered content is the English part it was
      rendered from. */
  lemma EnglishPartRender(en: string, ko: string)
    requires EnglishShape(en) && KoreanShape(ko)
    ensures EnglishPart(en + Tail(ko)) == en
  {
    EnglishRunRender(en, ko);
    if ko == "" {
      assert (en + Tail(ko))[..|en|] == en;
      StripFixed(en);
    } else {
      assert (en + Tail(ko))[..|en| + 1] == en + [' '];
      StripTrailingSpace(en, ' ');
    }
  }

  /** The Korean part of a rendered content is the Korean part it was
      rendered from. */
  lemma KoreanPartRender(en: string, ko: string)
    requires EnglishShape(en) && KoreanShape(ko)
    ensures KoreanPart(en + Tail(ko)) == ko
  {
    var c := en + Tail(ko);
    EnglishRunRender(en, ko);
    if ko == "" {
      assert c[EnglishRun(c)..] == "";
      StripFixed("");
    } else {
      assert c[EnglishRun(c)..] == ko;
      StripFixed(ko);
    }
    assert KoreanPart(c) == Strip(c[EnglishRun(c)..]);
  }

  /** A rendered line starts with its speaker line head and splits at
      position 2, before the content. */
  lemma RenderShape(e: DialogueLine)
    requires WellFormed(e)
    ensures var line := Render(e);
      && |line| >= 3 && IsSpeakerLine(line) && ' ' in line && IndexOf(line, ' ') == 2
      && line[..2] == e.speaker + ":" && line[3..] == e.en + Tail(e.ko)
  {
    var line := Render(e);
    assert line == e.speaker + ": " + (e.en + Tail(e.ko));
    assert line[..2] == e.speaker + ":";
    assert line[0] != ' ' && line[1] != ' ' && line[2] == ' ';
    assert line[3..] == e.en + Tail(e.ko);
  }

  /** Round trip: the parser reads back every well-formed entry from its
      rendered line, which is already stripped. */
  lemma EntryOfRender(e: DialogueLine)
    requires WellFormed(e)
    ensures Strip(Render(e)) == Render(e)
    ensures EntryOf(Render(e)) == Some(e)
  {
    var line := Render(e);
    RenderShape(e);
    assert line[0] == e.speaker[0];
    assert line[|line| - 1] == if e.ko == "" then e.en[|e.en| - 1] else e.ko[|e.ko| - 1];
    StripFixed(line);
    SpeakerOfLabel(e.speaker);
    EnglishPartRender(e.en, e.ko);
    KoreanPartRender(e.en, e.ko);
  }

  /** The who "A:" or "B:" gives the speaker "A" or "B". */
  lemma SpeakerOfLabel(who: string)
    requires who == "A" || who == "B"
    ensures Speaker(who + ":") == who
  {
    var head := who + ":";
    assert head[1..] == ":" && head[1..][1..] == "";
    assert Without(head[1..][1..], ':') == "";
    assert Without(head[1..], ':') == "";
    assert Without(head, ':') == who;
    StripFixed(who);
  }

  /** Every entry comes from one line strictly between the STEP3 heading
      and the first STEP4 line after it; later lines never contribute,
      whatever they hold. */
  lemma DialogueWindow(lines: seq<string>, s: nat, e: DialogueLine)
    requires FirstStep3(lines, 0) == Some(s) && e in Dialogue(lines)
    ensures exists j :: s < j < Until(lines, s + 1, EndsBlock) && LineEntry(lines[j]) == Some(e)
  {
    var j := FilterMapOriginIn(lines, s + 1, Until(lines, s + 1, EndsBlock), LineEntry, e);
    assert LineEntry(lines[j]) == Some(e);
  }
}
