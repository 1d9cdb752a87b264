/**
 * `format_slice` on its edge cases, and the one-column tables of
 * `format_display` and `format_debug`, written out in full.
 */
module SliceCases {
  import opened Text
  import opened Style
  import opened RowTable
  import opened SliceLayout

  // ---------------------------------------------------------------------------
  // No entries, or only empty ones
  // ---------------------------------------------------------------------------

  /** An empty slice: one column slot of width 1 and one blank content line of no columns. */
  lemma FormatSliceEmpty(st: BorderStyle)
    ensures FormatSlice(st, []) == [st.topLeft, st.topRight, '\n', st.vertical, st.vertical, '\n', st.bottomLeft, st.bottomRight]
  {
    var cells := Cells([]);
    assert cells == [];
    assert RowHeight(cells) == 1 && ColumnWidth(cells) == 1;
    assert TopLine(st, 0, 1) == [st.topLeft, st.topRight];
    assert BottomLine(st, 0, 1) == [st.bottomLeft, st.bottomRight];
    var line := ContentLine(st, cells, 1, 0);
    assert PaddedCells(cells, 1, 0) == [];
    assert line == [st.vertical, st.vertical];
    assert ContentLines(st, cells, 1, 1) == [line];
    FrameOfOne(TopLine(st, 0, 1), line, BottomLine(st, 0, 1), ContentLines(st, cells, 1, 1));
  }

  /** `n` empty pieces joined by `c` leave only the `n - 1` separators. */
  lemma {:induction false} JoinEmpties(n: nat, c: char)
    requires n >= 1
    ensures Join(seq(n, _ => ""), [c]) == Repeat(c, n - 1)
    decreases n
  {
    if n > 1 {
      var parts := seq(n, _ => "");
      assert parts[1..] == seq(n - 1, _ => "");
      JoinEmpties(n - 1, c);
      assert Join(parts, [c]) == "" + [c] + Repeat(c, n - 2);
    }
  }

  /** Only empty entries: no entry has a line, so the row has height 0 and its columns width 0. */
  lemma EmptyCells(entries: seq<string>)
    requires entries != []
    requires forall j :: 0 <= j < |entries| ==> entries[j] == ""
    ensures RowHeight(Cells(entries)) == 0 && ColumnWidth(Cells(entries)) == 0
  {
    var cells := Cells(entries);
    forall j | 0 <= j < |cells|
      ensures cells[j] == []
    {
      assert cells[j] == Lines(entries[j]);
    }
  }

  /** A border over `n >= 1` columns of width 0 is the two corners around `n - 1` joints. */
  lemma EmptyBorder(left: char, fill: char, joint: char, right: char, n: nat)
    requires n >= 1
    ensures BorderLine(left, fill, joint, right, n, 0) == [left] + Repeat(joint, n - 1) + [right]
  {
    assert seq(n, _ => Repeat(fill, 0)) == seq(n, _ => "");
    JoinEmpties(n, joint);
  }

  /**
   * Only empty entries: the table collapses to its two borders, with nothing
   * between the corners but one joint per column boundary.
   */
  lemma FormatSliceAllEmpty(st: BorderStyle, entries: seq<string>)
    requires entries != []
    requires forall j :: 0 <= j < |entries| ==> entries[j] == ""
    ensures var n := |entries|;
      FormatSlice(st, entries)
      == ([st.topLeft] + Repeat(st.horizontalDown, n - 1) + [st.topRight]) + "\n"
         + ([st.bottomLeft] + Repeat(st.horizontalUp, n - 1) + [st.bottomRight])
  {
    var n := |entries|;
    var cells := Cells(entries);
    EmptyCells(entries);
    EmptyBorder(st.topLeft, st.horizontal, st.horizontalDown, st.topRight, n);
    EmptyBorder(st.bottomLeft, st.horizontal, st.horizontalUp, st.bottomRight, n);
    assert ContentLines(st, cells, 0, 0) == [];
    EmptyFrame(TopLine(st, n, 0), BottomLine(st, n, 0), ContentLines(st, cells, 0, 0));
  }

  // ---------------------------------------------------------------------------
  // One entry: `format_display` and `format_debug`
  // ---------------------------------------------------------------------------

  /** With one entry, the row is as tall as the entry and as wide as its widest line. */
  lemma SingleColumn(ls: seq<string>)
    ensures RowHeight([ls]) == |ls|
    ensures ColumnWidth([ls]) == CellWidth(ls)
  {
    var cells := [ls];
    var w := ColumnWidth(cells);
    assert cells[0] == ls;
    if ls != [] {
      var j, k :| 0 <= j < |cells| && 0 <= k < |cells[j]| && |cells[j][k]| == w;
      assert j == 0;
    }
  }

  /** A border over one column of width `w`. */
  lemma SingleBorder(left: char, fill: char, joint: char, right: char, w: nat)
    ensures BorderLine(left, fill, joint, right, 1, w) == [left] + Repeat(fill, w) + [right]
  {
    assert seq(1, _ => Repeat(fill, w)) == [Repeat(fill, w)];
  }

  /** Content line `i` of one column: the entry's `i`-th line right-aligned between two verticals. */
  lemma SingleContentLine(st: BorderStyle, ls: seq<string>, w: nat, i: nat)
    ensures ContentLine(st, [ls], w, i) == [st.vertical] + PadLeft(NthOr(ls, i), w) + [st.vertical]
  {
    assert PaddedCells([ls], w, i) == [PadLeft(NthOr(ls, i), w)];
  }

  /** Every line of `ls` right-aligned to `w` between two verticals. */
  function BoxRows(st: BorderStyle, ls: seq<string>, w: nat): seq<string>
  {
    seq(|ls|, k requires 0 <= k < |ls| => [st.vertical] + PadLeft(ls[k], w) + [st.vertical])
  }

  /**
   * The table drawn around one text: its top border, then every line of the
   * text right-aligned to the widest one between two verticals, then its bottom
   * border.
   */
  function Boxed(st: BorderStyle, text: string): seq<string>
  {
    var ls := Lines(text);
    var w := CellWidth(ls);
    [[st.topLeft] + Repeat(st.horizontal, w) + [st.topRight]]
      + BoxRows(st, ls, w)
      + [[st.bottomLeft] + Repeat(st.horizontal, w) + [st.bottomRight]]
  }

  lemma ContentOfOne(st: BorderStyle, ls: seq<string>, w: nat)
    ensures ContentLines(st, [ls], w, |ls|) == BoxRows(st, ls, w)
  {
    var content := ContentLines(st, [ls], w, |ls|);
    var rows := BoxRows(st, ls, w);
    forall k | 0 <= k < |ls|
      ensures content[k] == rows[k]
    {
      SingleContentLine(st, ls, w, k);
    }
  }

  lemma SliceLinesOfOne(st: BorderStyle, text: string)
    ensures SliceLines(st, [text]) == Boxed(st, text)
  {
    var ls := Lines(text);
    var w := CellWidth(ls);
    assert Cells([text]) == [ls];
    SingleColumn(ls);
    SingleBorder(st.topLeft, st.horizontal, st.horizontalDown, st.topRight, w);
    SingleBorder(st.bottomLeft, st.horizontal, st.horizontalUp, st.bottomRight, w);
    ContentOfOne(st, ls, w);
    assert SliceLines(st, [text]) == [TopLine(st, 1, w)] + ContentLines(st, [ls], w, |ls|) + [BottomLine(st, 1, w)];
  }

  /** A one-entry slice is `Boxed`, line for line. */
  lemma SliceOfOne(st: BorderStyle, text: string)
    requires st.NoLineBreaks()
    ensures Lines(FormatSlice(st, [text])) == Boxed(st, text)
  {
    FormatSliceLines(st, [text]);
    SliceLinesOfOne(st, text);
  }

  /** `format_display` boxes the value's display text. */
  lemma FormatDisplayLines(st: BorderStyle, text: string)
    requires st.NoLineBreaks()
    ensures Lines(FormatDisplay(st, text)) == Boxed(st, text)
  {
    SliceOfOne(st, text);
  }

  /** `format_debug` boxes the value's debug text the same way. */
  lemma FormatDebugLines(st: BorderStyle, debugText: string)
    requires st.NoLineBreaks()
    ensures Lines(FormatDebug(st, debugText)) == Boxed(st, debugText)
  {
    SliceOfOne(st, debugText);
  }
}
