/** Lesson keys and the day-input normaliser of the viewer and the editor
    (daily_english_2024.py and pages/edit_json_viewer.py hold the same
    `normalize_day`; this one definition models both). */
module DayKeys {
  import opened Text

  /** `f"DAY {n:03}"`: the store key of lesson `n`. */
  function DayKey(n: nat): string
  {
    "DAY " + Pad3(n)
  }

  /** "DAY " followed by exactly three ASCII digits denoting 1..130. */
  predicate IsLessonKey(k: string) {
    |k| == 7 && k[..4] == "DAY " && IsDigitString(k[4..]) && 1 <= Value(k[4..]) <= 130
  }

  lemma DayKeyIsLessonKey(n: nat)
    requires 1 <= n <= 130
    ensures IsLessonKey(DayKey(n))
  {
    var k := DayKey(n);
    assert k[4..] == Pad3(n);
    ValuePad3(n);
  }

  /** Distinct lessons have distinct keys. */
  lemma DayKeyInjective(m: nat, n: nat)
    requires DayKey(m) == DayKey(n)
    ensures m == n
  {
    assert DayKey(m)[4..] == Pad3(m);
    assert DayKey(n)[4..] == Pad3(n);
    Pad3Injective(m, n);
  }

  // ---------------------------------------------------------------------
  // The regex search `(?i)\bday\D*([0-9]{1,3})\b`

  /** The first index at or after `k` holding an ASCII digit, or `|s|`. */
  function FirstDigitFrom(s: string, k: nat): (r: nat)
    requires k <= |s|
    ensures k <= r <= |s| && (r < |s| ==> IsDigit(s[r]))
    ensures forall m :: k <= m < r ==> !IsDigit(s[m])
    decreases |s| - k
  {
    if k == |s| || IsDigit(s[k]) then k else FirstDigitFrom(s, k + 1)
  }

  /** The end of the run of ASCII digits that starts at `k`. */
  function DigitRunEnd(s: string, k: nat): (r: nat)
    requires k <= |s|
    ensures k <= r <= |s| && (r < |s| ==> !IsDigit(s[r]))
    ensures forall m :: k <= m < r ==> IsDigit(s[m])
    decreases |s| - k
  {
    if k < |s| && IsDigit(s[k]) then DigitRunEnd(s, k + 1) else k
  }

  /** The digits group when the pattern matches at position `p`. `\D*` must
      stop at the first digit after "day" (a digit is needed next), and
      `[0-9]{1,3}\b` then needs the whole digit run, of at most three
      digits, followed by a non-word character or the end. */
  function MatchDayAt(s: string, p: nat): (r: Option<string>)
    ensures r.Some? ==> 1 <= |r.value| <= 3 && IsDigitString(r.value)
  {
    if p + 3 <= |s| && (p == 0 || !IsWordChar(s[p - 1]))
       && (s[p] == 'd' || s[p] == 'D') && (s[p + 1] == 'a' || s[p + 1] == 'A')
       && (s[p + 2] == 'y' || s[p + 2] == 'Y')
    then
      var k := FirstDigitFrom(s, p + 3);
      if k == |s| then None
      else
        var e := DigitRunEnd(s, k);
        if e - k <= 3 && (e == |s| || !IsWordChar(s[e])) then Some(s[k..e]) else None
    else None
  }

  /** `re.search`: the match at the leftmost position from `p` on. */
  function SearchDay(s: string, p: nat): (r: Option<string>)
    ensures r.Some? ==> 1 <= |r.value| <= 3 && IsDigitString(r.value)
    decreases |s| + 1 - p
  {
    if p > |s| then None
    else match MatchDayAt(s, p)
      case Some(g) => Some(g)
      case None => SearchDay(s, p + 1)
  }

  /** `normalize_day(q)`: a bare number, or the first "day" followed by up to
      three digits, in 1..130 gives the key "DAY nnn"; anything else gives
      None. */
  function NormalizeDay(q: string): (r: Option<string>)
    ensures q == "" ==> r == None
    ensures r.Some? ==> IsLessonKey(r.value)
  {
    if q == "" then None else NormalizeStripped(Strip(q))
  }

  /** The two tests of `normalize_day` on the stripped input: `isdigit()`
      with 1..130, then the regex search with 1..130. */
  function NormalizeStripped(s: string): (r: Option<string>)
    ensures r.Some? ==> IsLessonKey(r.value)
  {
    if IsDigitString(s) && 1 <= Value(s) <= 130 then KeyInRange(s)
    else match SearchDay(s, 0)
      case Some(g) => KeyInRange(g)
      case None => None
  }

  /** `f"DAY {int(g):03}"` when `1 <= int(g) <= 130`, else None. */
  function KeyInRange(g: string): (r: Option<string>)
    requires forall k :: 0 <= k < |g| ==> IsDigit(g[k])
    ensures r.Some? ==> IsLessonKey(r.value)
  {
    if 1 <= Value(g) <= 130 then
      DayKeyIsLessonKey(Value(g));
      Some(DayKey(Value(g)))
    else None
  }

  /** A stripped all-digit input in range names its lesson, whatever its
      leading zeros. */
  lemma NormalizeDigits(q: string)
    requires IsDigitString(Strip(q)) && 1 <= Value(Strip(q)) <= 130
    ensures NormalizeDay(q) == Some(DayKey(Value(Strip(q))))
  {
  }

  /** A lesson key normalises to itself; this is why the viewer's input box,
      which shows the current key, leaves the current lesson alone. */
  lemma NormalizeDayKey(n: nat)
    requires 1 <= n <= 130
    ensures NormalizeDay(DayKey(n)) == Some(DayKey(n))
  {
    var k := DayKey(n);
    MatchDayKey(n);
    assert SearchDay(k, 0) == Some(Pad3(n));
    assert k[0] == 'D' && k[6] == Pad3(n)[2];
    assert !IsDigitString(k);
    StripFixed(k);
    ValuePad3(n);
    assert KeyInRange(Pad3(n)) == Some(k);
    assert NormalizeStripped(k) == Some(k);
  }

  lemma MatchDayKey(n: nat)
    requires n < 1000
    ensures MatchDayAt(DayKey(n), 0) == Some(Pad3(n))
  {
    var k := DayKey(n);
    var d := Pad3(n);
    assert k[0] == 'D' && k[1] == 'A' && k[2] == 'Y' && k[3] == ' ';
    assert k[4] == d[0] && k[5] == d[1] && k[6] == d[2];
    assert IsDigit(d[0]) && IsDigit(d[1]) && IsDigit(d[2]);
    assert FirstDigitFrom(k, 4) == 4;
    assert FirstDigitFrom(k, 3) == 4;
    assert DigitRunEnd(k, 7) == 7;
    assert DigitRunEnd(k, 6) == 7;
    assert DigitRunEnd(k, 5) == 7;
    assert DigitRunEnd(k, 4) == 7;
    assert k[4..7] == d;
  }

  /** The boundary cases: "130", "0130", "day130" and "DAY 130" all give
      "DAY 130". */
  lemma NormalizeSameLesson()
    ensures NormalizeDay("130") == Some("DAY 130")
    ensures NormalizeDay("0130") == Some("DAY 130")
    ensures NormalizeDay("day130") == Some("DAY 130")
    ensures NormalizeDay("DAY 130") == Some("DAY 130")
  {
    Normalize130();
    Normalize0130();
    NormalizeDay130();
    NormalizeKey130();
  }

  lemma NormalizeKey130()
    ensures NormalizeDay("DAY 130") == Some("DAY 130")
  {
    Key130();
    NormalizeDayKey(130);
  }

  lemma Key130()
    ensures DayKey(130) == "DAY 130"
  {
    assert Digits(1) == "1";
    assert Digits(13) == "13";
    assert Digits(130) == "130";
  }

  lemma Normalize130()
    ensures NormalizeDay("130") == Some("DAY 130")
  {
    Value130();
    StripFixed("130");
    assert IsDigitString("130") by {
      assert forall k :: 0 <= k < 3 ==> "130"[k] == ['1', '3', '0'][k];
    }
    NormalizeDigits("130");
    Key130();
  }

  lemma Normalize0130()
    ensures NormalizeDay("0130") == Some("DAY 130")
  {
    Value130();
    ValueLeadingZero("130");
    assert "0" + "130" == "0130";
    StripFixed("0130");
    NormalizeDigits("0130");
    Key130();
  }

  lemma Value130()
    ensures Value("130") == 130
  {
    var s := "130";
    assert s[..2] == "13" && "13"[..1] == "1" && "1"[..0] == "";
  }

  lemma NormalizeDay130()
    ensures NormalizeDay("day130") == Some("DAY 130")
  {
    var s := "day130";
    assert s[0] == 'd' && s[1] == 'a' && s[2] == 'y' && s[5] == '0';
    assert s[3] == '1' && s[4] == '3';
    StripFixed(s);
    assert !IsDigitString(s);
    DayMatch130();
    assert SearchDay(s, 0) == Some("130");
    Value130();
    Key130();
    assert KeyInRange("130") == Some("DAY 130");
    assert NormalizeStripped(s) == Some("DAY 130");
  }

  lemma DayMatch130()
    ensures MatchDayAt("day130", 0) == Some("130")
  {
    var s := "day130";
    assert s[0] == 'd' && s[1] == 'a' && s[2] == 'y';
    assert s[3] == '1' && s[4] == '3' && s[5] == '0';
    assert FirstDigitFrom(s, 3) == 3;
    assert DigitRunEnd(s, 6) == 6;
    assert DigitRunEnd(s, 5) == 6;
    assert DigitRunEnd(s, 4) == 6;
    assert DigitRunEnd(s, 3) == 6;
    assert s[3..6] == "130";
  }

  /** "131", "0", "abc" and "day1234" give no lesson. */
  lemma NormalizeRejects()
    ensures NormalizeDay("131") == None
    ensures NormalizeDay("0") == None
    ensures NormalizeDay("abc") == None
    ensures NormalizeDay("day1234") == None
  {
    Normalize131();
    Normalize0();
    NormalizeAbc();
    NormalizeDay1234();
  }

  /** No "d" or "D" in `s` from `p` on: the search finds nothing. */
  lemma {:induction false} SearchWithoutD(s: string, p: nat)
    requires forall k :: p <= k < |s| ==> s[k] != 'd' && s[k] != 'D'
    ensures SearchDay(s, p) == None
    decreases |s| + 1 - p
  {
    if p <= |s| {
      SearchWithoutD(s, p + 1);
    }
  }

  /** A stripped input that is a digit string outside 1..130 gives no
      lesson: it has no "day" for the search to find. */
  lemma RejectDigits(s: string)
    requires IsDigitString(s) && !(1 <= Value(s) <= 130)
    ensures NormalizeDay(s) == None
  {
    assert IsDigit(s[0]) && IsDigit(s[|s| - 1]);
    StripFixed(s);
    forall k | 0 <= k < |s|
      ensures s[k] != 'd' && s[k] != 'D'
    {
      assert IsDigit(s[k]);
    }
    SearchWithoutD(s, 0);
    assert NormalizeStripped(s) == None;
  }

  /** A stripped input that starts with no digit and holds no "d" gives no
      lesson. */
  lemma RejectWords(s: string)
    requires |s| > 0 && !IsSpace(s[0]) && !IsSpace(s[|s| - 1]) && !IsDigit(s[0])
    requires forall k :: 0 <= k < |s| ==> s[k] != 'd' && s[k] != 'D'
    ensures NormalizeDay(s) == None
  {
    StripFixed(s);
    assert NormalizeDay(s) == NormalizeStripped(s);
    assert !IsDigitString(s);
    SearchWithoutD(s, 0);
  }

  lemma Normalize131()
    ensures NormalizeDay("131") == None
  {
    var s := "131";
    assert s[..2] == "13" && "13"[..1] == "1" && "1"[..0] == "";
    assert Value(s) == 131;
    RejectDigits(s);
  }

  lemma Normalize0()
    ensures NormalizeDay("0") == None
  {
    var s := "0";
    assert s[..0] == "";
    assert Value(s) == 0;
    RejectDigits(s);
  }

  lemma NormalizeAbc()
    ensures NormalizeDay("abc") == None
  {
    var s := "abc";
    assert s[0] == 'a' && s[1] == 'b' && s[2] == 'c';
    RejectWords(s);
  }

  lemma NormalizeDay1234()
    ensures NormalizeDay("day1234") == None
  {
    var s := "day1234";
    StripFixed(s);
    assert !IsDigit(s[0]);
    assert FirstDigitFrom(s, 3) == 3;
    assert DigitRunEnd(s, 7) == 7;
    assert DigitRunEnd(s, 6) == 7;
    assert DigitRunEnd(s, 5) == 7;
    assert DigitRunEnd(s, 4) == 7;
    assert DigitRunEnd(s, 3) == 7;
    assert MatchDayAt(s, 0) == None;
    SearchWithoutD(s, 1);
  }
}
