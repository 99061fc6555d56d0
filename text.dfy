/** Character classes, Python's string primitives (strip, `in`, startswith,
    split, join) and decimal numerals, restated as explicit functions. */
module Text {

  datatype Option<T> = None | Some(value: T)

  function Min(a: int, b: int): (r: int)
    ensures r <= a && r <= b && (r == a || r == b)
  {
    if a <= b then a else b
  }

  // ---------------------------------------------------------------------
  // Character classes

  /** The characters for which Python's `str.isspace()` holds; they are what
      `\s`, `str.strip()` and `str.split()` treat as whitespace. */
  predicate IsSpace(c: char) {
    c == ' ' || ('\t' <= c <= '\r') || ('\U{1C}' <= c <= '\U{1F}')
    || c == '\U{85}' || c == '\U{A0}' || c == '\U{1680}'
    || ('\U{2000}' <= c <= '\U{200A}') || c == '\U{2028}' || c == '\U{2029}'
    || c == '\U{202F}' || c == '\U{205F}' || c == '\U{3000}'
  }

  predicate IsDigit(c: char) { '0' <= c <= '9' }
  predicate IsUpper(c: char) { 'A' <= c <= 'Z' }
  predicate IsLower(c: char) { 'a' <= c <= 'z' }
  predicate IsAsciiLetter(c: char) { IsUpper(c) || IsLower(c) }

  /** A precomposed Hangul syllable, U+AC00 to U+D7A3 (the class `[가-힣]`). */
  predicate IsHangul(c: char) { '\U{AC00}' <= c <= '\U{D7A3}' }

  /** The word characters that decide a regex `\b`. */
  predicate IsWordChar(c: char) { IsAsciiLetter(c) || IsDigit(c) || c == '_' || IsHangul(c) }

  predicate IsDigitString(s: string) {
    |s| > 0 && forall k :: 0 <= k < |s| ==> IsDigit(s[k])
  }

  // ---------------------------------------------------------------------
  // strip()

  /** `s.lstrip()`: the suffix of `s` left after its leading whitespace. */
  function LStrip(s: string): (r: string)
    ensures |r| <= |s| && r == s[|s| - |r|..]
    ensures r == [] || !IsSpace(r[0])
    ensures forall k :: 0 <= k < |s| - |r| ==> IsSpace(s[k])
  {
    if |s| > 0 && IsSpace(s[0]) then LStrip(s[1..]) else s
  }

  /** `s.rstrip()`: the prefix of `s` left before its trailing whitespace. */
  function RStrip(s: string): (r: string)
    ensures |r| <= |s| && r == s[..|r|]
    ensures r == [] || !IsSpace(r[|r| - 1])
    ensures forall k :: |r| <= k < |s| ==> IsSpace(s[k])
  {
    if |s| > 0 && IsSpace(s[|s| - 1]) then RStrip(s[..|s| - 1]) else s
  }

  /** `s.strip()`. */
  function Strip(s: string): (r: string)
    ensures r == [] || (!IsSpace(r[0]) && !IsSpace(r[|r| - 1]))
  {
    RStrip(LStrip(s))
  }

  /** The stripped string keeps a first character that is not whitespace. */
  lemma StripKeepsHead(s: string)
    requires |s| > 0 && !IsSpace(s[0])
    ensures |Strip(s)| > 0 && Strip(s)[0] == s[0]
  {
    LStripFixed(s);
  }

  /** A character absent from a string is absent from its strip. */
  lemma StripAbsent(s: string, d: char)
    requires d !in s
    ensures d !in Strip(s)
  {
    var i, j := StripSlice(s);
  }

  /** Stripping keeps a string inside any character class it lies in. */
  lemma StripInClass(s: string, p: char -> bool)
    requires forall k :: 0 <= k < |s| ==> p(s[k])
    ensures forall k :: 0 <= k < |Strip(s)| ==> p(Strip(s)[k])
  {
    var i, j := StripSlice(s);
    assert forall k :: 0 <= k < j - i ==> s[i..j][k] == s[i + k];
  }

  /** Trailing whitespace does not survive stripping. */
  lemma StripTrailingSpace(s: string, c: char)
    requires |s| > 0 && !IsSpace(s[0]) && !IsSpace(s[|s| - 1]) && IsSpace(c)
    ensures Strip(s + [c]) == s
  {
    LStripFixed(s + [c]);
    assert (s + [c])[..|s|] == s;
    RStripFixed(s);
  }

  lemma LStripFixed(s: string)
    requires s == [] || !IsSpace(s[0])
    ensures LStrip(s) == s
  {
  }

  lemma RStripFixed(s: string)
    requires s == [] || !IsSpace(s[|s| - 1])
    ensures RStrip(s) == s
  {
  }

  /** Stripping twice is stripping once. */
  lemma StripIdempotent(s: string)
    ensures Strip(Strip(s)) == Strip(s)
  {
    var r := Strip(s);
    LStripFixed(r);
    RStripFixed(r);
  }

  /** A string with no whitespace at either end is its own strip. */
  lemma StripFixed(s: string)
    requires s == [] || (!IsSpace(s[0]) && !IsSpace(s[|s| - 1]))
    ensures Strip(s) == s
  {
    LStripFixed(s);
    RStripFixed(s);
  }

  /** The stripped string is a slice of the original one. */
  lemma StripSlice(s: string) returns (i: nat, j: nat)
    ensures i <= j <= |s| && Strip(s) == s[i..j]
  {
    var l := LStrip(s);
    var r := RStrip(l);
    i := |s| - |l|;
    j := i + |r|;
    calc {
      Strip(s);
      r;
      l[..|r|];
      s[i..][..|r|];
      s[i..j];
    }
  }

  /** The first position at or after `j` that is not whitespace. */
  function SkipSpaces(s: string, j: nat): (r: nat)
    requires j <= |s|
    ensures j <= r <= |s|
    ensures forall k :: j <= k < r ==> IsSpace(s[k])
    ensures r < |s| ==> !IsSpace(s[r])
    decreases |s| - j
  {
    if j < |s| && IsSpace(s[j]) then SkipSpaces(s, j + 1) else j
  }

  // ---------------------------------------------------------------------
  // Substrings: startswith, endswith and Python's `u in s`

  predicate StartsWith(s: string, p: string) {
    |p| <= |s| && s[..|p|] == p
  }

  predicate EndsWith(s: string, p: string) {
    |p| <= |s| && s[|s| - |p|..] == p
  }

  /** `u` occurs in `s` at position `k`. */
  predicate OccursAt(s: string, u: string, k: int) {
    0 <= k <= |s| - |u| && s[k..k + |u|] == u
  }

  /** Python's `u in s` for strings: `u` occurs in `s` at some position. */
  predicate Occurs(s: string, u: string) {
    exists k :: 0 <= k <= |s| - |u| && OccursAt(s, u, k)
  }

  /** An occurrence inside a slice is an occurrence in the whole string. */
  lemma OccursInSlice(s: string, i: nat, j: nat, u: string)
    requires i <= j <= |s| && Occurs(s[i..j], u)
    ensures Occurs(s, u)
  {
    var k :| 0 <= k <= j - i - |u| && OccursAt(s[i..j], u, k);
    forall t | 0 <= t < |u|
      ensures s[i + k..i + k + |u|][t] == u[t]
    {
      assert s[i..j][k..k + |u|][t] == u[t];
    }
    assert OccursAt(s, u, i + k);
  }

  lemma OccursInStrip(s: string, u: string)
    requires Occurs(Strip(s), u)
    ensures Occurs(s, u)
  {
    var i, j := StripSlice(s);
    OccursInSlice(s, i, j, u);
  }

  /** The separator of a concatenation occurs in it. */
  lemma OccursInMiddle(a: string, x: string, b: string)
    ensures Occurs(a + x + b, x)
  {
    assert (a + x + b)[|a|..|a| + |x|] == x;
    assert OccursAt(a + x + b, x, |a|);
  }

  /** `s.index(c)`: the first position of `c` in `s`. */
  function IndexOf<A(==)>(s: seq<A>, c: A): (r: nat)
    requires c in s
    ensures r < |s| && s[r] == c && c !in s[..r]
  {
    if s[0] == c then 0
    else
      var r := 1 + IndexOf(s[1..], c);
      assert s[..r] == [s[0]] + s[1..][..r - 1];
      r
  }

  /** `s.replace(c, "")`. */
  function Without(s: string, c: char): (r: string)
    ensures c !in r
    ensures |s| > 0 && s[0] != c ==> |r| > 0 && r[0] == s[0]
  {
    if s == "" then ""
    else (if s[0] == c then "" else [s[0]]) + Without(s[1..], c)
  }

  /** Removing characters adds none. */
  lemma {:induction false} WithoutAbsent(s: string, c: char, d: char)
    requires d !in s
    ensures d !in Without(s, c)
  {
    if s != "" {
      assert d !in s[1..] by {
        assert forall k :: 0 <= k < |s| - 1 ==> s[1..][k] == s[k + 1];
      }
      WithoutAbsent(s[1..], c, d);
    }
  }

  // ---------------------------------------------------------------------
  // split and join

  /** `s.split(sep)` generalised to a set of one-character separators:
      with `{'\n'}` it is Python's `s.split('\n')`. */
  function SplitOn(s: string, seps: set<char>): (r: seq<string>)
    ensures |r| >= 1
    ensures forall k :: 0 <= k < |r| ==> forall c :: c in seps ==> c !in r[k]
    decreases |s|
  {
    if |s| == 0 then [""]
    else
      var rest := SplitOn(s[1..], seps);
      if s[0] in seps then [""] + rest
      else [[s[0]] + rest[0]] + rest[1..]
  }

  /** `text.split('\n')`. */
  function Split(s: string): (r: seq<string>)
    ensures |r| >= 1 && NoNewline(r)
  {
    SplitOn(s, {'\n'})
  }

  predicate NoNewline(lines: seq<string>) {
    forall k :: 0 <= k < |lines| ==> '\n' !in lines[k]
  }

  /** `'\n'.join(lines)`. */
  function Join(lines: seq<string>): string
  {
    if |lines| == 0 then ""
    else if |lines| == 1 then lines[0]
    else lines[0] + "\n" + Join(lines[1..])
  }

  lemma {:induction false} SplitOnPiece(a: string, seps: set<char>)
    requires forall c :: c in seps ==> c !in a
    ensures SplitOn(a, seps) == [a]
    decreases |a|
  {
    if |a| > 0 {
      SplitOnPiece(a[1..], seps);
      assert [a[0]] + a[1..] == a;
    }
  }

  lemma {:induction false} SplitOnCons(a: string, sep: char, rest: string, seps: set<char>)
    requires sep in seps
    requires forall c :: c in seps ==> c !in a
    ensures SplitOn(a + [sep] + rest, seps) == [a] + SplitOn(rest, seps)
    decreases |a|
  {
    var s := a + [sep] + rest;
    if |a| == 0 {
      assert s[1..] == rest;
    } else {
      assert s[1..] == a[1..] + [sep] + rest;
      SplitOnCons(a[1..], sep, rest, seps);
      assert [a[0]] + a[1..] == a;
    }
  }

  /** Splitting a join gives back the pieces, when no piece holds a separator
      and the join's separator is one of them. */
  lemma {:induction false} SplitOnJoin(lines: seq<string>, seps: set<char>)
    requires |lines| >= 1 && '\n' in seps
    requires forall k :: 0 <= k < |lines| ==> forall c :: c in seps ==> c !in lines[k]
    ensures SplitOn(Join(lines), seps) == lines
    decreases |lines|
  {
    if |lines| == 1 {
      SplitOnPiece(lines[0], seps);
    } else {
      SplitOnJoin(lines[1..], seps);
      SplitOnCons(lines[0], '\n', Join(lines[1..]), seps);
      assert [lines[0]] + lines[1..] == lines;
    }
  }

  /** `'\n'.join(text.split('\n')) == text`. */
  lemma {:induction false} JoinSplit(s: string)
    ensures Join(Split(s)) == s
    decreases |s|
  {
    if |s| > 0 {
      JoinSplit(s[1..]);
      var rest := Split(s[1..]);
      if s[0] == '\n' {
        assert Split(s) == [""] + rest;
        assert ([""] + rest)[1..] == rest;
      } else {
        assert Split(s) == [[s[0]] + rest[0]] + rest[1..];
        if |rest| > 1 {
          assert Join(rest) == rest[0] + "\n" + Join(rest[1..]);
        }
      }
    }
  }

  /** `'\n'.join(lines).split('\n') == lines` for lines free of newlines. */
  lemma SplitJoin(lines: seq<string>)
    requires |lines| >= 1 && NoNewline(lines)
    ensures Split(Join(lines)) == lines
  {
    SplitOnJoin(lines, {'\n'});
  }

  // ---------------------------------------------------------------------
  // Lists: slices and filters, at any element type

  /** One more element at the end of a slice. */
  lemma SliceExtend<A>(xs: seq<A>, lo: nat, i: nat)
    requires lo <= i < |xs|
    ensures xs[lo..i + 1] == xs[lo..i] + [xs[i]]
  {
  }

  /** `[f(x) for x in xs]`. */
  function Map<A, B>(xs: seq<A>, f: A -> B): (r: seq<B>)
    ensures |r| == |xs|
  {
    if xs == [] then [] else [f(xs[0])] + Map(xs[1..], f)
  }

  /** Appending the image of the next element extends a pointwise image
      by one place. */
  lemma SnocImage<A, B>(ys: seq<B>, xs: seq<A>, f: A -> B)
    requires |ys| < |xs| && forall k :: 0 <= k < |ys| ==> ys[k] == f(xs[k])
    ensures forall k :: 0 <= k < |ys| + 1 ==> (ys + [f(xs[|ys|])])[k] == f(xs[k])
  {
  }

  /** Each element of the image is the image of the element at its place. */
  lemma {:induction false} MapAt<A, B>(xs: seq<A>, f: A -> B, i: nat)
    requires i < |xs|
    ensures Map(xs, f)[i] == f(xs[i])
  {
    if i > 0 {
      MapAt(xs[1..], f, i - 1);
    }
  }

  /** `lines[i].strip()`: the line at `i` of the stripped lines. */
  method StripLine(lines: seq<string>, i: nat) returns (line: string)
    requires i < |lines|
    ensures line == Map(lines, Strip)[i]
  {
    line := Strip(lines[i]);
    MapAt(lines, Strip, i);
  }

  /** `ys` is read off `xs` at the strictly increasing positions `js`,
      all after `lo`. */
  ghost predicate Picks<A>(xs: seq<A>, js: seq<nat>, ys: seq<A>, lo: int) {
    && |js| == |ys|
    && (forall k :: 0 <= k < |js| ==> lo < js[k] < |xs| && xs[js[k]] == ys[k])
    && (forall k, l :: 0 <= k < l < |js| ==> js[k] < js[l])
  }

  lemma PicksCons<A>(xs: seq<A>, j: nat, js: seq<nat>, ys: seq<A>, lo: int, mid: int)
    requires Picks(xs, js, ys, mid) && lo < j <= mid && j < |xs|
    ensures Picks(xs, [j] + js, [xs[j]] + ys, lo)
  {
  }

  lemma PicksFrom<A>(xs: seq<A>, js: seq<nat>, ys: seq<A>, lo: int, mid: int)
    requires Picks(xs, js, ys, mid) && lo <= mid
    ensures Picks(xs, js, ys, lo)
  {
  }

  /** A prefix of `s` at least `n` long agrees with `s` on its first `n`
      elements. */
  lemma PrefixAgrees<A>(r: seq<A>, s: seq<A>, n: nat)
    requires |r| <= |s| && r == s[..|r|] && n <= |r|
    ensures r[..n] == s[..n]
  {
  }

  /** The values `f` yields for the elements of `xs` that yield one, in
      order: a list comprehension with a condition. */
  function FilterMap<A, T>(xs: seq<A>, f: A -> Option<T>): (r: seq<T>)
    ensures |r| <= |xs|
  {
    if xs == [] then []
    else (match f(xs[0]) case Some(v) => [v] case None => []) + FilterMap(xs[1..], f)
  }

  /** A filter (an `f` that keeps an element as itself or drops it) keeps
      exactly the elements it accepts. */
  lemma {:induction false} FilterMapKeeps<A>(xs: seq<A>, f: A -> Option<A>, x: A)
    requires forall y :: f(y).Some? ==> f(y) == Some(y)
    ensures x in FilterMap(xs, f) <==> x in xs && f(x).Some?
  {
    if xs != [] {
      FilterMapKeeps(xs[1..], f, x);
      assert xs == [xs[0]] + xs[1..];
      var head: seq<A> := match f(xs[0]) case Some(v) => [v] case None => [];
      assert FilterMap(xs, f) == head + FilterMap(xs[1..], f);
      assert x in FilterMap(xs, f) <==> x in head || x in FilterMap(xs[1..], f);
    }
  }

  /** The values of two runs are those of the first, then those of the
      second. */
  lemma {:induction false} FilterMapAppend<A, T>(a: seq<A>, b: seq<A>, f: A -> Option<T>)
    ensures FilterMap(a + b, f) == FilterMap(a, f) + FilterMap(b, f)
  {
    if a != [] {
      FilterMapAppend(a[1..], b, f);
      assert (a + b)[1..] == a[1..] + b;
    } else {
      assert a + b == b;
    }
  }

  /** Extending a slice by one element extends its filter by that
      element's value, if any. */
  lemma FilterMapExtend<A, T>(xs: seq<A>, lo: nat, i: nat, f: A -> Option<T>)
    requires lo <= i < |xs|
    ensures FilterMap(xs[lo..i + 1], f)
      == FilterMap(xs[lo..i], f) + (match f(xs[i]) case Some(v) => [v] case None => [])
  {
    SliceExtend(xs, lo, i);
    FilterMapAppend(xs[lo..i], [xs[i]], f);
    assert [xs[i]][1..] == [];
  }

  /** The first position at or after `i` whose element passes `stop`, else
      the length: where a scan that breaks on `stop` ends. */
  function Until<A>(xs: seq<A>, i: nat, stop: A -> bool): (r: nat)
    requires i <= |xs|
    ensures i <= r <= |xs|
    ensures forall k :: i <= k < r ==> !stop(xs[k])
    ensures r < |xs| ==> stop(xs[r])
    decreases |xs| - i
  {
    if i == |xs| || stop(xs[i]) then i else Until(xs, i + 1, stop)
  }

  /** The first position in [lo, hi) whose element passes `p`, else `hi`. */
  function First<A>(xs: seq<A>, lo: nat, hi: nat, p: A -> bool): (r: nat)
    requires lo <= hi <= |xs|
    ensures lo <= r <= hi && (r < hi ==> p(xs[r]))
    decreases hi - lo
  {
    if lo == hi || p(xs[lo]) then lo else First(xs, lo + 1, hi, p)
  }

  /** No element before the one First finds passes `p`. */
  lemma {:induction false} FirstSkips<A>(xs: seq<A>, lo: nat, hi: nat, p: A -> bool)
    requires lo <= hi <= |xs|
    ensures forall k :: lo <= k < First(xs, lo, hi, p) ==> !p(xs[k])
    decreases hi - lo
  {
    if lo < hi && !p(xs[lo]) {
      FirstSkips(xs, lo + 1, hi, p);
    }
  }

  /** The scan `for x in xs[lo:]: if stop(x): break` that appends the
      value of each element that yields one. */
  method CollectUntil<A, T>(xs: seq<A>, lo: nat, f: A -> Option<T>, stop: A -> bool) returns (r: seq<T>)
    requires lo <= |xs|
    ensures r == FilterMap(xs[lo..Until(xs, lo, stop)], f)
  {
    r := [];
    var i := lo;
    while i < |xs|
      invariant lo <= i <= |xs|
      invariant Until(xs, i, stop) == Until(xs, lo, stop)
      invariant r == FilterMap(xs[lo..i], f)
    {
      if stop(xs[i]) {
        break;
      }
      FilterMapExtend(xs, lo, i, f);
      match f(xs[i]) {
        case Some(v) => r := r + [v];
        case None =>
      }
      i := i + 1;
    }
  }

  /** The loop `for i in range(lo, hi)` that appends the value `f` yields
      for each element that yields one. */
  method CollectRange<A, T>(xs: seq<A>, lo: nat, hi: nat, f: A -> Option<T>) returns (r: seq<T>)
    requires lo <= hi <= |xs|
    ensures r == FilterMap(xs[lo..hi], f)
  {
    r := [];
    for i := lo to hi
      invariant r == FilterMap(xs[lo..i], f)
    {
      FilterMapExtend(xs, lo, i, f);
      match f(xs[i])
      case Some(v) =>
        r := r + [v];
      case None =>
    }
  }

  /** Every value comes from one element of the run. */
  lemma {:induction false} FilterMapOrigin<A, T>(xs: seq<A>, f: A -> Option<T>, v: T)
    requires v in FilterMap(xs, f)
    ensures exists j :: 0 <= j < |xs| && f(xs[j]) == Some(v)
  {
    if f(xs[0]) != Some(v) {
      FilterMapOrigin(xs[1..], f, v);
      var j :| 0 <= j < |xs[1..]| && f(xs[1..][j]) == Some(v);
      assert xs[1..][j] == xs[j + 1];
    }
  }

  /** Every value of a slice's filter comes from one element of the slice,
      the one at `j`. */
  lemma FilterMapOriginIn<A, T>(xs: seq<A>, lo: nat, hi: nat, f: A -> Option<T>, v: T) returns (j: nat)
    requires lo <= hi <= |xs| && v in FilterMap(xs[lo..hi], f)
    ensures lo <= j < hi && f(xs[j]) == Some(v)
  {
    FilterMapOrigin(xs[lo..hi], f, v);
    var k :| 0 <= k < hi - lo && f(xs[lo..hi][k]) == Some(v);
    assert xs[lo..hi][k] == xs[lo + k];
    j := lo + k;
  }

  /** The last element of a concatenation with a non-empty second part,
      and what comes before it. */
  lemma AppendAssoc<A>(x: seq<A>, y: seq<A>, z: seq<A>)
    ensures (x + y) + z == x + (y + z)
  {
  }

  lemma DropLast<A>(a: seq<A>, b: seq<A>)
    requires b != []
    ensures (a + b)[..|a + b| - 1] == a + b[..|b| - 1]
    ensures (a + b)[|a + b| - 1] == b[|b| - 1]
  {
  }

  // ---------------------------------------------------------------------
  // Tables: dictionaries filled in day by day

  /** The dictionary `{key(d): f(d) for d in range(1, n + 1)}`, filled in
      order. */
  function Tabulate<V>(key: nat -> string, f: nat -> V, n: nat): map<string, V>
  {
    if n == 0 then map[] else Tabulate(key, f, n - 1)[key(n) := f(n)]
  }

  /** Distinct numbers get distinct keys. */
  ghost predicate Injective(key: nat -> string) {
    forall m: nat, n: nat :: key(m) == key(n) ==> m == n
  }

  /** The table holds exactly the keys of 1..n, each with its own value. */
  lemma {:induction false} TabulateAt<V>(key: nat -> string, f: nat -> V, n: nat, k: string)
    requires Injective(key)
    ensures k in Tabulate(key, f, n) <==> exists d: nat :: 1 <= d <= n && k == key(d)
    ensures forall d: nat :: 1 <= d <= n && k == key(d) ==> Tabulate(key, f, n)[k] == f(d)
  {
    if n > 0 {
      TabulateAt(key, f, n - 1, k);
    }
  }

  /** Filling in more entries keeps every entry already there. */
  lemma {:induction false} TabulateGrows<V>(key: nat -> string, f: nat -> V, m: nat, n: nat, k: string)
    requires Injective(key) && m <= n && k in Tabulate(key, f, m)
    ensures k in Tabulate(key, f, n) && Tabulate(key, f, n)[k] == Tabulate(key, f, m)[k]
  {
    TabulateAt(key, f, m, k);
    TabulateAt(key, f, n, k);
  }


  /** The batch loop `for start in range(1, last + 1, size)` that fills
      in keys start..min(start + size - 1, last) and then saves a snapshot
      of the whole table. */
  method FillInBatches<V>(key: nat -> string, f: nat -> V, last: nat, size: nat)
    returns (data: map<string, V>, saved: seq<map<string, V>>)
    requires size >= 1
    ensures data == Tabulate(key, f, last)
    ensures size * |saved| >= last && size * (|saved| - 1) < last
    ensures forall b :: 0 <= b < |saved| ==> saved[b] == Tabulate(key, f, Min(size * (b + 1), last))
  {
    data := map[];
    saved := [];
    var start := 1;
    while start < last + 1
      invariant start == 1 + size * |saved| && size * (|saved| - 1) < last
      invariant data == Tabulate(key, f, Min(start - 1, last))
      invariant forall b :: 0 <= b < |saved| ==> saved[b] == Tabulate(key, f, Min(size * (b + 1), last))
    {
      var end := Min(start + size - 1, last);
      var day := start;
      while day <= end
        invariant start <= day <= end + 1
        invariant data == Tabulate(key, f, day - 1)
      {
        data := data[key(day) := f(day)];
        day := day + 1;
      }
      assert size * (|saved| + 1) == start + size - 1;
      saved := saved + [data];
      start := start + size;
    }
  }

  // ---------------------------------------------------------------------
  // Decimal numerals

  function DigitChar(d: nat): char
    requires d < 10
  {
    ('0' as int + d) as char
  }

  /** `int(s)` for a string of ASCII digits (leading zeros allowed). */
  function Value(s: string): nat
    requires forall k :: 0 <= k < |s| ==> IsDigit(s[k])
  {
    if |s| == 0 then 0
    else
      assert IsDigit(s[|s| - 1]);
      Value(s[..|s| - 1]) * 10 + (s[|s| - 1] as int - '0' as int)
  }

  /** `str(n)`: decimal digits without leading zeros. */
  function Digits(n: nat): (r: string)
    ensures 1 <= |r| && forall k :: 0 <= k < |r| ==> IsDigit(r[k])
    ensures n < 10 ==> |r| == 1
    ensures 10 <= n < 100 ==> |r| == 2
    ensures 100 <= n < 1000 ==> |r| == 3
  {
    if n < 10 then [DigitChar(n)] else Digits(n / 10) + [DigitChar(n % 10)]
  }

  /** `f"{n:03d}"`: the decimal form of `n`, zero-padded to three digits. */
  function Pad3(n: nat): (r: string)
    ensures forall k :: 0 <= k < |r| ==> IsDigit(r[k])
    ensures n < 1000 ==> |r| == 3
  {
    if n < 10 then "00" + Digits(n) else if n < 100 then "0" + Digits(n) else Digits(n)
  }

  lemma {:induction false} ValueDigits(n: nat)
    ensures Value(Digits(n)) == n
  {
    if n >= 10 {
      ValueDigits(n / 10);
      var d := Digits(n);
      assert d[..|d| - 1] == Digits(n / 10);
    }
  }

  lemma {:induction false} ValueLeadingZero(s: string)
    requires forall k :: 0 <= k < |s| ==> IsDigit(s[k])
    ensures Value("0" + s) == Value(s)
    decreases |s|
  {
    if |s| > 0 {
      ValueLeadingZero(s[..|s| - 1]);
      assert ("0" + s)[..|"0" + s| - 1] == "0" + s[..|s| - 1];
    }
  }

  /** The zero-padded form reads back as the number. */
  lemma ValuePad3(n: nat)
    ensures Value(Pad3(n)) == n
  {
    ValueDigits(n);
    if n < 10 {
      ValueLeadingZero(Digits(n));
      ValueLeadingZero("0" + Digits(n));
      assert "00" + Digits(n) == "0" + ("0" + Digits(n));
    } else if n < 100 {
      ValueLeadingZero(Digits(n));
    }
  }

  /** The three digits of `f"{n:03d}"`, hundreds first. */
  lemma Pad3Chars(n: nat)
    requires n < 1000
    ensures Pad3(n) == [DigitChar(n / 100), DigitChar(n / 10 % 10), DigitChar(n % 10)]
  {
    if n >= 100 {
      assert Digits(n / 10) == Digits(n / 100) + [DigitChar(n / 10 % 10)];
    } else if n >= 10 {
      assert Digits(n) == Digits(n / 10) + [DigitChar(n % 10)];
    }
  }

  lemma Pad3Injective(m: nat, n: nat)
    requires Pad3(m) == Pad3(n)
    ensures m == n
  {
    ValuePad3(m);
    ValuePad3(n);
  }
}
