/** The line markers shared by the three lesson parsers of make_json_full.py:
    the STEP3 and STEP4 headings and the speaker lines of a dialogue. */
module Markers {
  import opened Text

  /** The STEP3 heading test: "STEP" or "SHEF" (a common misreading of the
      heading) together with "3", "핵심 패턴" or "핵심패턴". */
  predicate IsStep3Line(l: string) {
    (Occurs(l, "STEP") || Occurs(l, "SHEF")) && ('3' in l || Occurs(l, "핵심 패턴") || Occurs(l, "핵심패턴"))
  }

  /** The STEP4 heading test: "STEP" and the digit 4 anywhere in the line. */
  predicate IsStep4Line(l: string) {
    Occurs(l, "STEP") && '4' in l
  }

  /** The stop test of the dialogue and pattern scans: the line, once
      stripped, is a STEP4 heading. */
  predicate EndsBlock(l: string) {
    IsStep4Line(Strip(l))
  }

  /** A dialogue line: it starts with "A:" or "B:". */
  predicate IsSpeakerLine(l: string) {
    StartsWith(l, "A:") || StartsWith(l, "B:")
  }

  /** A speaker line starts with the letter A or B and a colon. */
  lemma SpeakerHead(l: string)
    requires IsSpeakerLine(l)
    ensures |l| >= 2 && (l[0] == 'A' || l[0] == 'B') && l[1] == ':'
  {
    assert l[..2] == "A:" || l[..2] == "B:";
    assert l[0] == l[..2][0];
  }

  /** The first STEP3 heading at or after line `i`. */
  function FirstStep3(lines: seq<string>, i: nat): (r: Option<nat>)
    requires i <= |lines|
    ensures r.Some? ==> i <= r.value < |lines|
    decreases |lines| - i
  {
    if i == |lines| then None
    else if IsStep3Line(lines[i]) then Some(i)
    else FirstStep3(lines, i + 1)
  }

  /** FirstStep3 finds the first STEP3 heading from line `i` on, or
      reports that there is none. */
  lemma {:induction false} FirstStep3Found(lines: seq<string>, i: nat)
    requires i <= |lines|
    ensures var r := FirstStep3(lines, i);
      && (r.Some? ==> IsStep3Line(lines[r.value]))
      && (r.Some? ==> forall j :: i <= j < r.value ==> !IsStep3Line(lines[j]))
      && (r.None? ==> forall j :: i <= j < |lines| ==> !IsStep3Line(lines[j]))
    decreases |lines| - i
  {
    if i < |lines| && !IsStep3Line(lines[i]) {
      FirstStep3Found(lines, i + 1);
    }
  }

  /** The first STEP4 heading at or after line `i`. */
  function FirstStep4(lines: seq<string>, i: nat): (r: Option<nat>)
    requires i <= |lines|
    ensures r.Some? ==> i <= r.value < |lines|
    decreases |lines| - i
  {
    if i == |lines| then None
    else if IsStep4Line(lines[i]) then Some(i)
    else FirstStep4(lines, i + 1)
  }

  /** FirstStep4 finds the first STEP4 heading from line `i` on, or
      reports that there is none. */
  lemma {:induction false} FirstStep4Found(lines: seq<string>, i: nat)
    requires i <= |lines|
    ensures var r := FirstStep4(lines, i);
      && (r.Some? ==> IsStep4Line(lines[r.value]))
      && (r.Some? ==> forall j :: i <= j < r.value ==> !IsStep4Line(lines[j]))
      && (r.None? ==> forall j :: i <= j < |lines| ==> !IsStep4Line(lines[j]))
    decreases |lines| - i
  {
    if i < |lines| && !IsStep4Line(lines[i]) {
      FirstStep4Found(lines, i + 1);
    }
  }

  /** The `for i, line in enumerate(lines)` search for the STEP3 heading. */
  method FindStep3(lines: seq<string>) returns (r: Option<nat>)
    ensures r == FirstStep3(lines, 0)
  {
    var i := 0;
    while i < |lines|
      invariant i <= |lines|
      invariant FirstStep3(lines, i) == FirstStep3(lines, 0)
    {
      if IsStep3Line(lines[i]) {
        return Some(i);
      }
      i := i + 1;
    }
    return None;
  }

  /** The same search for the STEP4 heading. */
  method FindStep4(lines: seq<string>) returns (r: Option<nat>)
    ensures r == FirstStep4(lines, 0)
  {
    var i := 0;
    while i < |lines|
      invariant i <= |lines|
      invariant FirstStep4(lines, i) == FirstStep4(lines, 0)
    {
      if IsStep4Line(lines[i]) {
        return Some(i);
      }
      i := i + 1;
    }
    return None;
  }
}
