/** The study viewer of daily_english_2024.py: the day on display, moved by
    a typed query or by the previous/next buttons over the sorted key list,
    and the lookup of the day's audio file in a directory listing. The page
    layout, the PDF export and the file system are not modelled: the
    directory's existence and listing come in as parameters. */
module Viewer {
  import opened Text
  import opened Lessons
  import opened DayKeys

  // ---------------------------------------------------------------------
  // The sorted key list

  /** Python's `a < b` on strings: code point by code point, a proper
      prefix first. */
  predicate LexLess(a: string, b: string)
    decreases |a|
  {
    |b| > 0 && (|a| == 0 || a[0] < b[0] || (a[0] == b[0] && LexLess(a[1..], b[1..])))
  }

  /** No string comes before itself. */
  lemma {:induction false} LexIrreflexive(a: string)
    ensures !LexLess(a, a)
    decreases |a|
  {
    if |a| > 0 {
      LexIrreflexive(a[1..]);
    }
  }

  /** `sorted(data.keys())`: every key once, in increasing order. */
  predicate IsSortedKeys(dayList: seq<string>, data: map<string, Lesson>) {
    && (forall k :: 0 <= k < |dayList| ==> dayList[k] in data)
    && (forall key :: key in data ==> key in dayList)
    && (forall k, l :: 0 <= k < l < |dayList| ==> LexLess(dayList[k], dayList[l]))
  }

  /** The sorted list has no repeats. */
  lemma SortedDistinct(dayList: seq<string>, data: map<string, Lesson>, k: nat, l: nat)
    requires IsSortedKeys(dayList, data) && k < |dayList| && l < |dayList| && k != l
    ensures dayList[k] != dayList[l]
  {
    LexIrreflexive(dayList[k]);
    if k < l {
      assert LexLess(dayList[k], dayList[l]);
    } else {
      assert LexLess(dayList[l], dayList[k]);
    }
  }

  /** `day_list.index(day_list[i])` is `i` in a list without repeats. */
  lemma IndexOfSorted(dayList: seq<string>, data: map<string, Lesson>, i: nat)
    requires IsSortedKeys(dayList, data) && i < |dayList|
    ensures IndexOf(dayList, dayList[i]) == i
  {
    var r := IndexOf(dayList, dayList[i]);
    if r != i {
      SortedDistinct(dayList, data, r, i);
    }
  }

  // ---------------------------------------------------------------------
  // The day on display

  class ViewerSession {
    /** The loaded lessons and their sorted keys. */
    const data: map<string, Lesson>
    const dayList: seq<string>
    /** `st.session_state.current_day`. */
    var currentDay: string

    ghost predicate Valid()
      reads this
    {
      IsSortedKeys(dayList, data) && currentDay in dayList
    }

    /** `day_list.index(current_day)`. */
    function Index(): (r: nat)
      reads this
      requires currentDay in dayList
      ensures r < |dayList| && dayList[r] == currentDay
    {
      IndexOf(dayList, currentDay)
    }

    /** A fresh session shows the first key; the page stops before this
        when the data is empty. */
    constructor (data: map<string, Lesson>, dayList: seq<string>)
      requires IsSortedKeys(dayList, data) && data != map[]
      ensures this.data == data && this.dayList == dayList
      ensures Valid() && currentDay == dayList[0]
    {
      var key :| key in data;
      this.data := data;
      this.dayList := dayList;
      new;
      assert key in dayList;
      currentDay := dayList[0];
    }

    /** A typed query: the day moves to the query's key when that key is
        stored; otherwise it stays. */
    method Query(query: string)
      requires Valid()
      modifies this
      ensures Valid()
      ensures var norm := NormalizeDay(query);
        currentDay == if norm.Some? && norm.value in data then norm.value else old(currentDay)
    {
      var norm := NormalizeDay(query);
      if norm.Some? && norm.value in data && norm.value != currentDay {
        currentDay := norm.value;
      }
    }

    /** The previous button: one place back in the sorted list, nothing on
        the first key. */
    method Previous()
      requires Valid()
      modifies this
      ensures Valid()
      ensures Index() == if old(Index()) > 0 then old(Index()) - 1 else old(Index())
    {
      var idx := IndexOf(dayList, currentDay);
      if idx > 0 {
        currentDay := dayList[idx - 1];
        IndexOfSorted(dayList, data, idx - 1);
      }
    }

    /** The next button: one place forward in the sorted list, nothing on
        the last key. */
    method Next()
      requires Valid()
      modifies this
      ensures Valid()
      ensures Index() == if old(Index()) < |dayList| - 1 then old(Index()) + 1 else old(Index())
    {
      var idx := IndexOf(dayList, currentDay);
      if idx < |dayList| - 1 {
        currentDay := dayList[idx + 1];
        IndexOfSorted(dayList, data, idx + 1);
      }
    }
  }

  // ---------------------------------------------------------------------
  // The audio file

  /** `f"{int(day_number):03d}."`, the name prefix of a day's audio file. */
  function AudioPrefix(dayNumber: string): string
    requires IsDigitString(dayNumber)
  {
    Pad3(Value(dayNumber)) + "."
  }

  /** A name of the day's audio file: the prefix, and ".mp3" at the end. */
  predicate IsAudioFor(name: string, prefix: string) {
    StartsWith(name, prefix) && EndsWith(name, ".mp3")
  }

  /** `os.path.join(directory, name)` for a plain file name. */
  function JoinPath(directory: string, name: string): string
  {
    directory + "/" + name
  }

  /** `find_audio_file(day_number)` over the directory's listing: the first
      name, in listing order, that is the day's audio file; None when there
      is none or the directory is absent. */
  method FindAudioFile(audioDir: string, dirExists: bool, listing: seq<string>, dayNumber: string)
    returns (r: Option<string>)
    requires IsDigitString(dayNumber)
    ensures !dirExists ==> r == None
    ensures r.Some? ==> exists j :: (
      && 0 <= j < |listing|
      && r.value == JoinPath(audioDir, listing[j])
      && IsAudioFor(listing[j], AudioPrefix(dayNumber))
      && forall k :: 0 <= k < j ==> !IsAudioFor(listing[k], AudioPrefix(dayNumber)))
    ensures dirExists && r.None? ==>
      forall k :: 0 <= k < |listing| ==> !IsAudioFor(listing[k], AudioPrefix(dayNumber))
  {
    if !dirExists {
      return None;
    }
    var prefix := Pad3(Value(dayNumber)) + ".";
    for i := 0 to |listing|
      invariant forall k :: 0 <= k < i ==> !IsAudioFor(listing[k], prefix)
    {
      var f := listing[i];
      if StartsWith(f, prefix) && EndsWith(f, ".mp3") {
        return Some(JoinPath(audioDir, f));
      }
    }
    return None;
  }

  /** For the key "DAY nnn" on display, the prefix is "nnn.": the file is
      looked up by the day's own number. */
  lemma AudioPrefixOfKey(n: nat)
    requires 1 <= n <= 130
    ensures IsDigitString(DayKey(n)[4..]) && AudioPrefix(DayKey(n)[4..]) == Pad3(n) + "."
  {
    assert DayKey(n)[4..] == Pad3(n);
    ValuePad3(n);
  }

  /** Two days never share an audio file name: a name with the prefix of
      day m does not have that of another day n in 0..999. */
  lemma AudioPrefixesDisjoint(name: string, m: nat, n: nat)
    requires m < 1000 && n < 1000 && m != n
    requires StartsWith(name, Pad3(m) + ".")
    ensures !StartsWith(name, Pad3(n) + ".")
  {
    if StartsWith(name, Pad3(n) + ".") {
      assert name[..3] == Pad3(m);
      assert name[..3] == Pad3(n);
      Pad3Injective(m, n);
    }
  }
}
