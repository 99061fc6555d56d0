/** The lesson editor of pages/edit_json_viewer.py: the day being edited,
    chosen through a query box that empties itself after every Enter; the
    dialogue rows rebuilt from their widgets; and the three buttons that
    add a row, delete the blank rows, and save the edited lesson back into
    the store. Widgets, reruns and the JSON file are not modelled: the
    widget values come in as parameters and the store is a field. */
module Editor {
  import opened Text
  import opened Lessons
  import opened DayKeys

  // ---------------------------------------------------------------------
  // Dialogue rows

  /** The two choices of the speaker select box. */
  predicate IsChoice(speaker: string) {
    speaker == "A" || speaker == "B"
  }

  /** What the row widgets show before any edit: the stored speaker when it
      is "A", else "B", and the stored English and Korean texts. */
  function WidgetRow(d: DialogueLine): (w: DialogueLine)
    ensures IsChoice(w.speaker) && (w.speaker == "A" <==> d.speaker == "A")
  {
    DialogueLine(if d.speaker == "A" then "A" else "B", d.en, d.ko)
  }

  /** The row kept from one set of widget values: the chosen speaker, and
      the two texts stripped. */
  function RowOf(w: DialogueLine): DialogueLine
  {
    DialogueLine(w.speaker, Strip(w.en), Strip(w.ko))
  }

  /** The loop that rebuilds `new_dialogues` from the row widgets. */
  method RebuildRows(widgets: seq<DialogueLine>) returns (rows: seq<DialogueLine>)
    requires forall k :: 0 <= k < |widgets| ==> IsChoice(widgets[k].speaker)
    ensures |rows| == |widgets|
    ensures forall k :: 0 <= k < |rows| ==> rows[k] == RowOf(widgets[k]) && IsChoice(rows[k].speaker)
  {
    rows := [];
    for i := 0 to |widgets|
      invariant |rows| == i
      invariant forall k :: 0 <= k < i ==> rows[k] == RowOf(widgets[k])
    {
      var w := widgets[i];
      SnocImage(rows, widgets, RowOf);
      rows := rows + [RowOf(w)];
    }
    forall k | 0 <= k < |rows|
      ensures IsChoice(rows[k].speaker)
    {
      assert rows[k].speaker == widgets[k].speaker;
    }
  }

  /** A rebuilt row is already clean: rebuilding it again changes nothing. */
  lemma RowOfIdempotent(w: DialogueLine)
    ensures RowOf(RowOf(w)) == RowOf(w)
  {
    StripIdempotent(w.en);
    StripIdempotent(w.ko);
  }

  /** A row whose English and Korean texts are both blank. */
  predicate IsBlankRow(d: DialogueLine) {
    Strip(d.en) == "" && Strip(d.ko) == ""
  }

  /** The comprehension's test: keep a row that is not blank. */
  function KeepRow(d: DialogueLine): Option<DialogueLine>
  {
    if IsBlankRow(d) then None else Some(d)
  }

  /** `[d for d in rows if d["en"].strip() or d["ko"].strip()]`. */
  function NonBlankRows(rows: seq<DialogueLine>): (r: seq<DialogueLine>)
    ensures |r| <= |rows|
  {
    FilterMap(rows, KeepRow)
  }

  /** The number of blank rows. */
  function CountBlank(rows: seq<DialogueLine>): nat
  {
    if rows == [] then 0 else (if IsBlankRow(rows[0]) then 1 else 0) + CountBlank(rows[1..])
  }

  /** The first row is kept or dropped, then the rest are filtered. */
  lemma NonBlankRowsCons(rows: seq<DialogueLine>)
    requires rows != []
    ensures NonBlankRows(rows) == (if IsBlankRow(rows[0]) then [] else [rows[0]]) + NonBlankRows(rows[1..])
  {
  }

  /** A row is kept exactly when it is one of the rows and is not blank. */
  lemma NonBlankRowsIff(rows: seq<DialogueLine>, d: DialogueLine)
    ensures d in NonBlankRows(rows) <==> d in rows && !IsBlankRow(d)
  {
    forall y | KeepRow(y).Some?
      ensures KeepRow(y) == Some(y)
    {
    }
    FilterMapKeeps(rows, KeepRow, d);
  }

  /** The kept rows keep their order: the rows of two runs are kept run by
      run. */
  lemma NonBlankRowsAppend(a: seq<DialogueLine>, b: seq<DialogueLine>)
    ensures NonBlankRows(a + b) == NonBlankRows(a) + NonBlankRows(b)
  {
    FilterMapAppend(a, b, KeepRow);
  }

  /** The count reported is the number of blank rows. */
  lemma {:induction false} DeletedCount(rows: seq<DialogueLine>)
    ensures |rows| - |NonBlankRows(rows)| == CountBlank(rows)
  {
    if rows != [] {
      NonBlankRowsCons(rows);
      DeletedCount(rows[1..]);
    }
  }

  /** Deleting the blank rows twice is deleting them once. */
  lemma {:induction false} NonBlankRowsIdempotent(rows: seq<DialogueLine>)
    ensures NonBlankRows(NonBlankRows(rows)) == NonBlankRows(rows)
  {
    if rows != [] {
      NonBlankRowsCons(rows);
      NonBlankRowsIdempotent(rows[1..]);
      if !IsBlankRow(rows[0]) {
        var kept := NonBlankRows(rows);
        assert kept == [rows[0]] + NonBlankRows(rows[1..]);
        assert kept[0] == rows[0] && kept[1..] == NonBlankRows(rows[1..]);
        NonBlankRowsCons(kept);
      } else {
        assert NonBlankRows(rows) == NonBlankRows(rows[1..]);
      }
    }
  }

  // ---------------------------------------------------------------------
  // The pattern and practice text areas

  /** The characters `str.splitlines` breaks lines at. */
  const LineBreaks: set<char> :=
    {'\n', '\r', '\U{000B}', '\U{000C}', '\U{001C}', '\U{001D}', '\U{001E}', '\U{0085}', '\U{2028}', '\U{2029}'}

  /** The comprehension's test: keep the stripped line when it is not
      blank. */
  function StrippedItem(x: string): (r: Option<string>)
    ensures r.Some? ==> r.value == Strip(x) && r.value != ""
  {
    if Strip(x) == "" then None else Some(Strip(x))
  }

  /** `[x.strip() for x in text.splitlines() if x.strip()]`. The text is
      cut at every line-break character; where `splitlines` would treat
      "\r\n" as one break or drop a last empty line, the cut here gives an
      extra empty piece, which the test drops all the same. */
  function SaveLines(text: string): seq<string>
  {
    FilterMap(SplitOn(text, LineBreaks), StrippedItem)
  }

  /** An item that survives a save unchanged: not empty, already stripped,
      and on one line. */
  predicate IsCleanItem(x: string) {
    x != "" && Strip(x) == x && forall c :: c in LineBreaks ==> c !in x
  }

  /** Clean items all pass the test, unchanged. */
  lemma {:induction false} KeepsCleanItems(items: seq<string>)
    requires forall k :: 0 <= k < |items| ==> IsCleanItem(items[k])
    ensures FilterMap(items, StrippedItem) == items
  {
    if items != [] {
      KeepsCleanItems(items[1..]);
      assert items == [items[0]] + items[1..];
    }
  }

  /** Showing clean items joined by "\n" and saving the text unchanged
      gives back the same items. */
  lemma SaveLinesJoin(items: seq<string>)
    requires forall k :: 0 <= k < |items| ==> IsCleanItem(items[k])
    ensures SaveLines(Join(items)) == items
  {
    if items == [] {
      assert SplitOn("", LineBreaks) == [""];
      assert StrippedItem("") == None;
    } else {
      SplitOnJoin(items, LineBreaks);
      KeepsCleanItems(items);
    }
  }

  /** Every saved item is clean. */
  lemma SavedItemsClean(text: string, k: nat)
    requires k < |SaveLines(text)|
    ensures IsCleanItem(SaveLines(text)[k])
  {
    var pieces := SplitOn(text, LineBreaks);
    var v := SaveLines(text)[k];
    FilterMapOrigin(pieces, StrippedItem, v);
    var j :| 0 <= j < |pieces| && StrippedItem(pieces[j]) == Some(v);
    StripIdempotent(pieces[j]);
    forall c | c in LineBreaks
      ensures c !in v
    {
      StripAbsent(pieces[j], c);
    }
  }

  /** Saving is idempotent: reopening a saved list and saving it again
      without an edit changes nothing. */
  lemma SaveLinesIdempotent(text: string)
    ensures SaveLines(Join(SaveLines(text))) == SaveLines(text)
  {
    forall k | 0 <= k < |SaveLines(text)|
      ensures IsCleanItem(SaveLines(text)[k])
    {
      SavedItemsClean(text, k);
    }
    SaveLinesJoin(SaveLines(text));
  }

  // ---------------------------------------------------------------------
  // The session

  /** The key the editor opens on. */
  const FirstKey: string := "DAY 001"

  class EditorSession {
    /** The loaded store. */
    var data: map<string, Lesson>
    /** `st.session_state.selected_day` and `query_buffer`. */
    var selectedDay: string
    var queryBuffer: string

    constructor (data: map<string, Lesson>)
      ensures this.data == data && selectedDay == FirstKey && queryBuffer == ""
    {
      this.data := data;
      selectedDay := FirstKey;
      queryBuffer := "";
    }

    /** Typing into the query box. */
    method TypeQuery(query: string)
      modifies this
      ensures queryBuffer == query
      ensures data == old(data) && selectedDay == old(selectedDay)
    {
      queryBuffer := query;
    }

    /** `handle_day_change`, run on Enter: the query's key becomes the day
        being edited when it is stored; the box is emptied either way. */
    method HandleDayChange()
      modifies this
      ensures queryBuffer == ""
      ensures data == old(data)
      ensures var norm := NormalizeDay(old(queryBuffer));
        selectedDay == if norm.Some? && norm.value in data then norm.value else old(selectedDay)
    {
      var query := queryBuffer;
      var norm := NormalizeDay(query);
      if norm.Some? && norm.value in data {
        selectedDay := norm.value;
      }
      queryBuffer := "";
    }

    /** The add-row button: the rebuilt rows and one empty row for speaker
        A become the lesson's dialogue; nothing else changes. */
    method AddRow(rows: seq<DialogueLine>)
      requires selectedDay in data
      modifies this
      ensures data == old(data)[old(selectedDay) := old(data)[old(selectedDay)].(dialogue := rows + [DialogueLine("A", "", "")])]
      ensures selectedDay == old(selectedDay) && queryBuffer == old(queryBuffer)
    {
      var lesson := data[selectedDay];
      var newRows := rows + [DialogueLine("A", "", "")];
      lesson := lesson.(dialogue := newRows);
      data := data[selectedDay := lesson];
    }

    /** The delete button: the non-blank rebuilt rows become the lesson's
        dialogue; the count reported is how many rows went. */
    method DeleteBlankRows(rows: seq<DialogueLine>) returns (deleted: int)
      requires selectedDay in data
      modifies this
      ensures data == old(data)[old(selectedDay) := old(data)[old(selectedDay)].(dialogue := NonBlankRows(rows))]
      ensures deleted == |rows| - |NonBlankRows(rows)|
      ensures selectedDay == old(selectedDay) && queryBuffer == old(queryBuffer)
    {
      var before := |rows|;
      var kept := NonBlankRows(rows);
      var after := |kept|;
      var lesson := data[selectedDay];
      lesson := lesson.(dialogue := kept);
      data := data[selectedDay := lesson];
      deleted := before - after;
    }

    /** The save button: the new title, the non-blank rows and the saved
        lines of the two text areas replace the lesson; every other key of
        the store keeps its lesson. */
    method Save(newTitle: string, rows: seq<DialogueLine>, patternsText: string, practiceText: string)
      requires selectedDay in data
      modifies this
      ensures data == old(data)[old(selectedDay) :=
        Lesson(newTitle, NonBlankRows(rows), SaveLines(patternsText), SaveLines(practiceText))]
      ensures selectedDay == old(selectedDay) && queryBuffer == old(queryBuffer)
    {
      var lesson := data[selectedDay];
      lesson := lesson.(title := newTitle);
      lesson := lesson.(dialogue := NonBlankRows(rows));
      lesson := lesson.(patterns := SaveLines(patternsText));
      lesson := lesson.(practice := SaveLines(practiceText));
      data := data[selectedDay := lesson];
    }
  }
}
