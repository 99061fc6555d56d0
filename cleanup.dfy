/** The pattern normaliser of make_json_full.py (`clean_pattern`): each
    parenthesised part-of-speech placeholder becomes "~", a missing colon
    is put between the English and the Korean part, and a bare colon gets
    one space on each side. */
module PatternCleanup {
  import opened Text

  // ---------------------------------------------------------------------
  // Step 1: the placeholders

  /** The twelve placeholders, in the order they are replaced. */
  const GrammarTerms: seq<string> := [
    "(동사원형)", "(동사)", "(명사)", "(형용사)", "(주어)", "(목적어)",
    "(평서문)", "(질문 어순)", "(날/날짜/요일)", "(날/요일)", "(기간)", "(장소)"
  ]

  /** The shape every placeholder has: in parentheses, with no "~" and no
      colon inside. */
  predicate IsPlaceholder(t: string) {
    && |t| >= 2 && t[0] == '(' && t[|t| - 1] == ')'
    && '~' !in t && ':' !in t
  }

  lemma GrammarTermsArePlaceholders()
    ensures forall k :: 0 <= k < |GrammarTerms| ==> IsPlaceholder(GrammarTerms[k])
  {
    forall k | 0 <= k < |GrammarTerms|
      ensures IsPlaceholder(GrammarTerms[k])
    {
      var t := GrammarTerms[k];
      assert '~' !in t && ':' !in t;
    }
  }

  /** `re.sub(re.escape(t), '~', s)`: every occurrence of `t`, from the
      left and without overlap, replaced by "~". */
  function ReplaceAll(s: string, t: string): (r: string)
    requires t != ""
    decreases |s|
  {
    if |s| < |t| then s
    else if s[..|t|] == t then "~" + ReplaceAll(s[|t|..], t)
    else [s[0]] + ReplaceAll(s[1..], t)
  }

  /** The loop over the placeholders: each one replaced in turn. */
  function ReplaceTerms(s: string, terms: seq<string>): string
    requires forall k :: 0 <= k < |terms| ==> terms[k] != ""
    decreases |terms|
  {
    if terms == [] then s else ReplaceTerms(ReplaceAll(s, terms[0]), terms[1..])
  }

  // ---------------------------------------------------------------------
  // Step 2: the missing colon

  /** The class `[A-Za-z0-9\s\+\-\(\)\[\]\{\}\'\"/.,!?~]` of the English
      part. */
  predicate IsEnglishChar(c: char) {
    IsAsciiLetter(c) || IsDigit(c) || IsSpace(c)
    || c == '+' || c == '-' || c == '(' || c == ')' || c == '[' || c == ']' || c == '{' || c == '}'
    || c == '\'' || c == '"' || c == '/' || c == '.' || c == ',' || c == '!' || c == '?' || c == '~'
  }

  /** `.*$` from position `j`: no line break, except one that ends the
      text (`$` also matches right before a final "\n"). */
  predicate LineTail(s: string, j: nat) {
    forall k :: j <= k < |s| - 1 ==> s[k] != '\n'
  }

  /** `\s+([가-힣].*)$` from position `m`: whitespace, then a Hangul
      syllable right after the whitespace run, then the rest of the line. */
  predicate KoreanFrom(s: string, m: nat)
    requires m <= |s|
  {
    m < |s| && IsSpace(s[m])
    && var p := SkipSpaces(s, m); p < |s| && IsHangul(s[p]) && LineTail(s, p + 1)
  }

  /** The lazy first group: the shortest English prefix `s[..m]`, `m >= 1`,
      after which the Korean part follows. The search gives up at the first
      character outside the English class. */
  function FirstSplit(s: string, m: nat): (r: Option<nat>)
    requires 1 <= m <= |s|
    ensures r.Some? ==> m <= r.value < |s| && KoreanFrom(s, r.value)
    ensures r.Some? ==> forall k :: m - 1 <= k < r.value ==> IsEnglishChar(s[k])
    ensures r.Some? ==> forall j :: m <= j < r.value ==> !KoreanFrom(s, j)
    ensures r.None? ==> forall j :: m <= j <= |s| && KoreanFrom(s, j) ==>
      exists k :: m - 1 <= k < j && !IsEnglishChar(s[k])
    decreases |s| - m
  {
    if !IsEnglishChar(s[m - 1]) then None
    else if KoreanFrom(s, m) then Some(m)
    else if m == |s| then None
    else FirstSplit(s, m + 1)
  }

  /** The split of `s` step 2 uses, if the regex matches. */
  function Split2(s: string): (r: Option<nat>)
    ensures r.Some? ==> 1 <= r.value < |s| && KoreanFrom(s, r.value)
    ensures r.Some? ==> forall k :: 0 <= k < r.value ==> IsEnglishChar(s[k])
    ensures r.Some? ==> forall j :: 1 <= j < r.value ==> !KoreanFrom(s, j)
    ensures r.None? ==> forall j :: 1 <= j <= |s| && KoreanFrom(s, j) ==>
      exists k :: 0 <= k < j && !IsEnglishChar(s[k])
  {
    if s == "" then None else FirstSplit(s, 1)
  }

  /** Step 2: without a colon, a text that splits into an English and a
      Korean part becomes `english : korean`, both parts stripped. */
  function AddColon(s: string): (r: string)
  {
    if ':' in s then s
    else match Split2(s)
      case None => s
      case Some(m) => Strip(s[..m]) + " : " + Strip(s[SkipSpaces(s, m)..])
  }

  // ---------------------------------------------------------------------
  // Step 3: spaces around the colon

  /** The start of the whitespace run that ends at `c`. */
  function RunStart(s: string, c: nat): (r: nat)
    requires c <= |s|
    ensures r <= c && forall k :: r <= k < c ==> IsSpace(s[k])
    ensures r > 0 ==> !IsSpace(s[r - 1])
  {
    if c > 0 && IsSpace(s[c - 1]) then RunStart(s, c - 1) else c
  }

  /** Step 3: with a colon but no " : ", `re.sub(r'\s*:\s*', ' : ', s,
      count=1)`: the first colon and the whitespace runs on both sides of it
      become " : ". */
  function SpaceColon(s: string): (r: string)
  {
    if ':' in s && !Occurs(s, " : ") then SpacedAt(s, IndexOf(s, ':')) else s
  }

  /** The colon at `c` and the whitespace runs on both sides of it
      replaced by " : ". */
  function SpacedAt(s: string, c: nat): (r: string)
    requires c < |s|
    ensures Occurs(r, " : ")
  {
    var a, b := s[..RunStart(s, c)], s[SkipSpaces(s, c + 1)..];
    OccursInMiddle(a, " : ", b);
    a + " : " + b
  }

  /** Step 1 on the twelve placeholders. */
  function ReplaceGrammarTerms(s: string): string
  {
    GrammarTermsArePlaceholders();
    ReplaceTerms(s, GrammarTerms)
  }

  /** `clean_pattern`. */
  function CleanPattern(p: string): string
  {
    SpaceColon(AddColon(ReplaceGrammarTerms(p)))
  }

  // ---------------------------------------------------------------------
  // Properties of step 1

  /** A stretch at the start of the result without "~" is the same
      stretch of the input: replacements only ever write "~". */
  lemma {:induction false} TildeFreePrefix(s: string, t: string, m: nat)
    requires t != "" && m <= |ReplaceAll(s, t)|
    requires forall k :: 0 <= k < m ==> ReplaceAll(s, t)[k] != '~'
    ensures m <= |s| && ReplaceAll(s, t)[..m] == s[..m]
    decreases |s|
  {
    var r := ReplaceAll(s, t);
    if |s| >= |t| && m > 0 {
      assert s[..|t|] != t by {
        assert r[0] != '~';
      }
      var r1 := ReplaceAll(s[1..], t);
      assert r == [s[0]] + r1;
      assert forall k :: 0 <= k < m - 1 ==> r1[k] == r[k + 1];
      TildeFreePrefix(s[1..], t, m - 1);
      assert r[..m] == [s[0]] + r1[..m - 1];
      assert s[..m] == [s[0]] + s[1..][..m - 1];
    }
  }

  /** An occurrence past a known head lies in the tail. */
  lemma OccursAfter(x: string, r: string, u: string, k: nat)
    requires OccursAt(x + r, u, k) && |x| <= k
    ensures OccursAt(r, u, k - |x|)
  {
    assert r[k - |x|..k - |x| + |u|] == (x + r)[k..k + |u|];
  }

  /** An occurrence in a suffix is an occurrence in the whole text. */
  lemma OccursInSuffix(s: string, i: nat, u: string)
    requires i <= |s| && Occurs(s[i..], u)
    ensures Occurs(s, u)
  {
    assert s[i..|s|] == s[i..];
    OccursInSlice(s, i, |s|, u);
  }

  /** A text that starts with `u` contains it. */
  lemma OccursAtStart(s: string, u: string)
    requires |u| <= |s| && s[..|u|] == u
    ensures Occurs(s, u)
  {
    assert OccursAt(s, u, 0);
  }

  /** Anything without "~" found in the result was already in the input. */
  lemma {:induction false} TildeFreeSegment(s: string, t: string, u: string, k: nat)
    requires t != "" && '~' !in u && OccursAt(ReplaceAll(s, t), u, k)
    ensures Occurs(s, u)
    decreases |s|
  {
    var r := ReplaceAll(s, t);
    if |s| < |t| {
      assert r == s;
    } else if u == "" {
      assert OccursAt(s, u, 0);
    } else if s[..|t|] == t {
      var r1 := ReplaceAll(s[|t|..], t);
      assert r == "~" + r1;
      assert k != 0 by {
        assert r[k..k + |u|] == u;
        assert r[k] == u[0];
      }
      OccursAfter("~", r1, u, k);
      TildeFreeSegment(s[|t|..], t, u, k - 1);
      OccursInSuffix(s, |t|, u);
    } else {
      var r1 := ReplaceAll(s[1..], t);
      assert r == [s[0]] + r1;
      if k == 0 {
        TildeFreePrefix(s, t, |u|);
        OccursAtStart(s, u);
      } else {
        OccursAfter([s[0]], r1, u, k);
        TildeFreeSegment(s[1..], t, u, k - 1);
        OccursInSuffix(s, 1, u);
      }
    }
  }

  /** Replacing a placeholder leaves no occurrence of it. */
  lemma {:induction false} ReplacedAbsent(s: string, t: string)
    requires IsPlaceholder(t)
    ensures !Occurs(ReplaceAll(s, t), t)
    decreases |s|
  {
    var r := ReplaceAll(s, t);
    if Occurs(r, t) && |s| >= |t| {
      var k :| 0 <= k <= |r| - |t| && OccursAt(r, t, k);
      if s[..|t|] == t {
        var r1 := ReplaceAll(s[|t|..], t);
        assert r == "~" + r1;
        assert k != 0 by {
          assert r[k] == t[0];
        }
        OccursAfter("~", r1, t, k);
        ReplacedAbsent(s[|t|..], t);
      } else {
        var r1 := ReplaceAll(s[1..], t);
        assert r == [s[0]] + r1;
        assert k != 0 by {
          if k == 0 {
            TildeFreePrefix(s, t, |t|);
          }
        }
        OccursAfter([s[0]], r1, t, k);
        ReplacedAbsent(s[1..], t);
      }
    }
  }

  /** Replacing one placeholder brings back no text without "~" that was
      gone. */
  lemma KeepsAbsent(s: string, t: string, u: string)
    requires t != "" && '~' !in u && !Occurs(s, u)
    ensures !Occurs(ReplaceAll(s, t), u)
  {
    if Occurs(ReplaceAll(s, t), u) {
      var k :| 0 <= k <= |ReplaceAll(s, t)| - |u| && OccursAt(ReplaceAll(s, t), u, k);
      TildeFreeSegment(s, t, u, k);
    }
  }

  /** A text without `t` is left as it is. */
  lemma {:induction false} ReplaceAllAbsent(s: string, t: string)
    requires t != "" && !Occurs(s, t)
    ensures ReplaceAll(s, t) == s
    decreases |s|
  {
    if |s| >= |t| {
      assert !OccursAt(s, t, 0);
      if Occurs(s[1..], t) {
        OccursInSuffix(s, 1, t);
      }
      ReplaceAllAbsent(s[1..], t);
      assert s == [s[0]] + s[1..];
    }
  }

  /** The placeholder loop keeps absent whatever without "~" is absent. */
  lemma {:induction false} TermsKeepAbsent(s: string, terms: seq<string>, u: string)
    requires forall k :: 0 <= k < |terms| ==> terms[k] != ""
    requires '~' !in u && !Occurs(s, u)
    ensures !Occurs(ReplaceTerms(s, terms), u)
    decreases |terms|
  {
    if terms != [] {
      KeepsAbsent(s, terms[0], u);
      TermsKeepAbsent(ReplaceAll(s, terms[0]), terms[1..], u);
    }
  }

  /** After the placeholder loop none of the placeholders is left. */
  lemma {:induction false} TermsAbsent(s: string, terms: seq<string>)
    requires forall k :: 0 <= k < |terms| ==> terms[k] != "" && IsPlaceholder(terms[k])
    ensures forall k :: 0 <= k < |terms| ==> !Occurs(ReplaceTerms(s, terms), terms[k])
    decreases |terms|
  {
    if terms != [] {
      var s1 := ReplaceAll(s, terms[0]);
      ReplacedAbsent(s, terms[0]);
      TermsKeepAbsent(s1, terms[1..], terms[0]);
      TermsAbsent(s1, terms[1..]);
      forall k | 1 <= k < |terms|
        ensures !Occurs(ReplaceTerms(s, terms), terms[k])
      {
        assert terms[k] == terms[1..][k - 1];
      }
    }
  }

  /** A text without placeholders passes the loop unchanged. */
  lemma {:induction false} TermsIdentity(s: string, terms: seq<string>)
    requires forall k :: 0 <= k < |terms| ==> terms[k] != ""
    requires forall k :: 0 <= k < |terms| ==> !Occurs(s, terms[k])
    ensures ReplaceTerms(s, terms) == s
    decreases |terms|
  {
    if terms != [] {
      ReplaceAllAbsent(s, terms[0]);
      TermsIdentity(s, terms[1..]);
    }
  }

  /** No placeholder is left in `s`. */
  predicate NoPlaceholder(s: string) {
    forall k :: 0 <= k < |GrammarTerms| ==> !Occurs(s, GrammarTerms[k])
  }

  /** The placeholder loop leaves none of the twelve placeholders. */
  lemma ReplaceTermsClean(p: string)
    ensures NoPlaceholder(ReplaceGrammarTerms(p))
  {
    GrammarTermsArePlaceholders();
    TermsAbsent(p, GrammarTerms);
  }

  /** On a text without placeholders the loop changes nothing. */
  lemma ReplaceTermsFixed(s: string)
    requires NoPlaceholder(s)
    ensures ReplaceGrammarTerms(s) == s
  {
    GrammarTermsArePlaceholders();
    TermsIdentity(s, GrammarTerms);
  }

  // ---------------------------------------------------------------------
  // Properties of steps 2 and 3

  /** A placeholder found in `a + " : " + b` lies wholly in `a` or wholly
      in `b`: it cannot hold the colon, begin with the space after it or
      end with the space before it. */
  lemma PlaceholderSide(a: string, b: string, u: string, k: nat)
    requires IsPlaceholder(u) && OccursAt(a + " : " + b, u, k)
    ensures k + |u| <= |a| || |a| + 3 <= k
  {
    var s := a + " : " + b;
    var n := |a|;
    assert s[n] == ' ' && s[n + 1] == ':' && s[n + 2] == ' ';
    assert forall j :: k <= j < k + |u| ==> u[j - k] == s[j];
  }

  /** A placeholder found in `a + " : " + b` is found in `a` or in `b`. */
  lemma JoinOccurs(a: string, b: string, u: string, k: nat)
    requires IsPlaceholder(u) && OccursAt(a + " : " + b, u, k)
    ensures Occurs(a, u) || Occurs(b, u)
  {
    PlaceholderSide(a, b, u, k);
    if k + |u| <= |a| {
      assert (a + " : " + b)[k..k + |u|] == a[k..k + |u|];
      assert OccursAt(a, u, k);
    } else {
      OccursAfter(a + " : ", b, u, k);
    }
  }

  /** Gluing two texts with " : " creates no placeholder. */
  lemma JoinAbsent(a: string, b: string, u: string)
    requires IsPlaceholder(u) && !Occurs(a, u) && !Occurs(b, u)
    ensures !Occurs(a + " : " + b, u)
  {
    var s := a + " : " + b;
    if Occurs(s, u) {
      var k :| 0 <= k <= |s| - |u| && OccursAt(s, u, k);
      JoinOccurs(a, b, u, k);
    }
  }

  /** Cutting a text into a head and a tail and gluing them with " : "
      creates no placeholder. */
  lemma CutAbsent(s: string, i: nat, j: nat, u: string)
    requires i <= j <= |s| && IsPlaceholder(u) && !Occurs(s, u)
    ensures !Occurs(s[..i] + " : " + s[j..], u)
  {
    if Occurs(s[..i], u) {
      OccursInSlice(s, 0, i, u);
    }
    if Occurs(s[j..], u) {
      OccursInSuffix(s, j, u);
    }
    JoinAbsent(s[..i], s[j..], u);
  }

  /** The same with both parts stripped. */
  lemma CutStripAbsent(s: string, i: nat, j: nat, u: string)
    requires i <= j <= |s| && IsPlaceholder(u) && !Occurs(s, u)
    ensures !Occurs(Strip(s[..i]) + " : " + Strip(s[j..]), u)
  {
    if Occurs(Strip(s[..i]), u) {
      OccursInStrip(s[..i], u);
      OccursInSlice(s, 0, i, u);
    }
    if Occurs(Strip(s[j..]), u) {
      OccursInStrip(s[j..], u);
      OccursInSuffix(s, j, u);
    }
    JoinAbsent(Strip(s[..i]), Strip(s[j..]), u);
  }

  /** Step 2 brings back no placeholder. */
  lemma AddColonAbsent(s: string, u: string)
    requires IsPlaceholder(u) && !Occurs(s, u)
    ensures !Occurs(AddColon(s), u)
  {
    if ':' !in s && Split2(s).Some? {
      var m := Split2(s).value;
      CutStripAbsent(s, m, SkipSpaces(s, m), u);
    }
  }

  /** Step 3 brings back no placeholder. */
  lemma SpaceColonAbsent(s: string, u: string)
    requires IsPlaceholder(u) && !Occurs(s, u)
    ensures !Occurs(SpaceColon(s), u)
  {
    if ':' in s && !Occurs(s, " : ") {
      var c := IndexOf(s, ':');
      CutAbsent(s, RunStart(s, c), SkipSpaces(s, c + 1), u);
    }
  }

  /** Steps 2 and 3 bring back no placeholder. */
  lemma CleanAbsent(p: string, u: string)
    requires IsPlaceholder(u) && !Occurs(ReplaceGrammarTerms(p), u)
    ensures !Occurs(CleanPattern(p), u)
  {
    AddColonAbsent(ReplaceGrammarTerms(p), u);
    SpaceColonAbsent(AddColon(ReplaceGrammarTerms(p)), u);
  }

  /** `clean_pattern` leaves none of the twelve placeholders. */
  lemma CleanPatternNoPlaceholder(p: string)
    ensures NoPlaceholder(CleanPattern(p))
  {
    GrammarTermsArePlaceholders();
    ReplaceTermsClean(p);
    CleanAbsentAll(p, GrammarTerms);
  }

  lemma CleanAbsentAll(p: string, terms: seq<string>)
    requires forall k :: 0 <= k < |terms| ==> IsPlaceholder(terms[k])
    requires forall k :: 0 <= k < |terms| ==> !Occurs(ReplaceGrammarTerms(p), terms[k])
    ensures forall k :: 0 <= k < |terms| ==> !Occurs(CleanPattern(p), terms[k])
  {
    forall k | 0 <= k < |terms|
      ensures !Occurs(CleanPattern(p), terms[k])
    {
      CleanAbsent(p, terms[k]);
    }
  }

  /** A colon in the result always has one space on each side: the result
      holds " : " whenever it holds ':'. */
  lemma CleanPatternSpaced(p: string)
    ensures ':' in CleanPattern(p) ==> Occurs(CleanPattern(p), " : ")
  {
    var s2 := AddColon(ReplaceGrammarTerms(p));
    assert CleanPattern(p) == SpaceColon(s2);
    if ':' in s2 {
      SpaceColonSpaced(s2);
    } else {
      assert SpaceColon(s2) == s2;
    }
  }

  /** Step 3 leaves " : " in any text with a colon. */
  lemma SpaceColonSpaced(s: string)
    requires ':' in s
    ensures Occurs(SpaceColon(s), " : ")
  {
  }

  /** A text that holds " : " passes steps 2 and 3 unchanged. */
  lemma SpacedFixed(s: string)
    requires Occurs(s, " : ")
    ensures SpaceColon(AddColon(s)) == s
  {
    SpacedHasColon(s);
  }

  lemma SpacedHasColon(s: string)
    requires Occurs(s, " : ")
    ensures ':' in s
  {
    var k :| 0 <= k <= |s| - 3 && OccursAt(s, " : ", k);
    assert s[k + 1] == s[k..k + 3][1];
  }

  /** Cleaning twice is cleaning once. */
  lemma CleanPatternIdempotent(p: string)
    ensures CleanPattern(CleanPattern(p)) == CleanPattern(p)
  {
    var s1 := ReplaceGrammarTerms(p);
    var s2 := AddColon(s1);
    var q := SpaceColon(s2);
    CleanPatternNoPlaceholder(p);
    ReplaceTermsFixed(q);
    CleanPatternSpaced(p);
    if ':' in q {
      SpacedFixed(q);
    } else {
      assert q == s2;
      if Split2(s1).Some? && ':' !in s1 {
        var m := Split2(s1).value;
        OccursInMiddle(Strip(s1[..m]), " : ", Strip(s1[SkipSpaces(s1, m)..]));
        SpacedHasColon(s2);
      }
      assert q == s1;
    }
  }
}
