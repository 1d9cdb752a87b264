/**
 * What `format_slice` draws, read back line by line: the table's lines, their
 * lengths, and what every column of every content line holds.
 */
module SliceLayout {
  import opened Text
  import opened Style
  import opened RowTable

  lemma BorderLineOneLine(left: char, fill: char, joint: char, right: char, n: nat, w: nat)
    requires left != '\n' && fill != '\n' && joint != '\n' && right != '\n' && right != '\r'
    ensures var r := BorderLine(left, fill, joint, right, n, w);
      r != [] && OneLine(r)
  {
    var runs := seq(n, _ => Repeat(fill, w));
    JoinAvoids(runs, [joint], '\n');
    BorderLineShape(left, fill, joint, right, n, w);
  }

  lemma ContentLineOneLine(st: BorderStyle, cells: seq<seq<string>>, w: nat, i: nat)
    requires st.NoLineBreaks()
    requires forall j, k :: 0 <= j < |cells| && 0 <= k < |cells[j]| ==> '\n' !in cells[j][k]
    ensures OneLine(ContentLine(st, cells, w, i))
  {
    var padded := PaddedCells(cells, w, i);
    forall j | 0 <= j < |cells|
      ensures '\n' !in padded[j]
    {
      var text := NthOr(cells[j], i);
      assert '\n' !in text;
      assert padded[j] == PadLeft(text, w);
    }
    JoinAvoids(padded, [st.vertical], '\n');
    var r := ContentLine(st, cells, w, i);
    assert r[|r| - 1] == st.vertical;
  }

  lemma CellsOneLine(entries: seq<string>)
    ensures forall j, k :: 0 <= j < |entries| && 0 <= k < |Cells(entries)[j]| ==> '\n' !in Cells(entries)[j][k]
  {
    forall j | 0 <= j < |entries|
      ensures forall k :: 0 <= k < |Cells(entries)[j]| ==> '\n' !in Cells(entries)[j][k]
    {
      LinesNoNewline(entries[j]);
    }
  }

  /**
   * The rendered slice splits back into exactly the lines of the table: every
   * line but the last is terminated by one line feed, and the bottom border is
   * not.
   */
  lemma FormatSliceLines(st: BorderStyle, entries: seq<string>)
    requires st.NoLineBreaks()
    ensures Lines(FormatSlice(st, entries)) == SliceLines(st, entries)
    ensures FormatSlice(st, entries) == Unlines(SliceLines(st, entries)[..|SliceLines(st, entries)| - 1])
                                        + SliceLines(st, entries)[|SliceLines(st, entries)| - 1]
  {
    var cells := Cells(entries);
    var w := ColumnWidth(cells);
    var h := RowHeight(cells);
    var top, bottom := TopLine(st, |entries|, w), BottomLine(st, |entries|, w);
    var content := ContentLines(st, cells, w, h);
    BorderLineOneLine(st.topLeft, st.horizontal, st.horizontalDown, st.topRight, |entries|, w);
    BorderLineOneLine(st.bottomLeft, st.horizontal, st.horizontalUp, st.bottomRight, |entries|, w);
    CellsOneLine(entries);
    forall i | 0 <= i < h
      ensures OneLine(content[i])
    {
      ContentLineOneLine(st, cells, w, i);
    }
    assert FormatSlice(st, entries) == top + "\n" + Unlines(content) + bottom;
    LinesOfFrame(top, content, bottom);
    var L := SliceLines(st, entries);
    assert L[..|L| - 1] == [top] + content;
    assert Unlines([top] + content) == top + "\n" + Unlines(content) by {
      assert ([top] + content)[1..] == content;
    }
  }

  /** No line of any entry is wider than the shared column width. */
  lemma CellsFit(entries: seq<string>, i: nat)
    ensures forall j :: 0 <= j < |Cells(entries)| ==> |NthOr(Cells(entries)[j], i)| <= ColumnWidth(Cells(entries))
  {
  }

  /** The table has its two borders and `RowHeight` content lines. */
  lemma SliceLinesCount(st: BorderStyle, entries: seq<string>)
    ensures |SliceLines(st, entries)| == RowHeight(Cells(entries)) + 2
  {
  }

  /** The lines of the table between its borders are the content lines: line `k + 1` is content line `k`. */
  lemma SliceLineIsContent(st: BorderStyle, entries: seq<string>, k: nat)
    requires k < RowHeight(Cells(entries))
    ensures k + 1 < |SliceLines(st, entries)|
    ensures SliceLines(st, entries)[k + 1] == ContentLine(st, Cells(entries), ColumnWidth(Cells(entries)), k)
  {
    var cells := Cells(entries);
    var w := ColumnWidth(cells);
    var content := ContentLines(st, cells, w, RowHeight(cells));
    var top, bottom := TopLine(st, |entries|, w), BottomLine(st, |entries|, w);
    assert SliceLines(st, entries) == [top] + content + [bottom];
    IndexMiddle(top, content, bottom, k + 1);
    assert content[k] == ContentLine(st, cells, w, k);
  }

  /** Every content line is as long as the borders. */
  lemma ContentLineLength(st: BorderStyle, entries: seq<string>, i: nat)
    ensures var w := ColumnWidth(Cells(entries));
      |ContentLine(st, Cells(entries), w, i)| == LineLength(|entries|, w)
  {
    var w := ColumnWidth(Cells(entries));
    RowOfCells(st, entries, i);
  }

  /** The table starts with the top border. */
  lemma SliceTop(st: BorderStyle, entries: seq<string>)
    ensures SliceLines(st, entries)[0] == TopLine(st, |entries|, ColumnWidth(Cells(entries)))
  {
    var cells := Cells(entries);
    var w := ColumnWidth(cells);
    var content := ContentLines(st, cells, w, RowHeight(cells));
    var top, bottom := TopLine(st, |entries|, w), BottomLine(st, |entries|, w);
    assert SliceLines(st, entries) == [top] + content + [bottom];
    FrameEnds(top, content, bottom);
  }

  /** The table ends with the bottom border. */
  lemma SliceBottom(st: BorderStyle, entries: seq<string>)
    ensures var h := RowHeight(Cells(entries));
      h + 1 < |SliceLines(st, entries)| &&
      SliceLines(st, entries)[h + 1] == BottomLine(st, |entries|, ColumnWidth(Cells(entries)))
  {
    var cells := Cells(entries);
    var w := ColumnWidth(cells);
    var content := ContentLines(st, cells, w, RowHeight(cells));
    var top, bottom := TopLine(st, |entries|, w), BottomLine(st, |entries|, w);
    assert SliceLines(st, entries) == [top] + content + [bottom];
    FrameEnds(top, content, bottom);
  }

  /** Every line of the table is as long as the borders. */
  lemma SliceLineLengths(st: BorderStyle, entries: seq<string>)
    ensures var L := SliceLines(st, entries);
      forall k :: 0 <= k < |L| ==> |L[k]| == LineLength(|entries|, ColumnWidth(Cells(entries)))
  {
    var cells := Cells(entries);
    var w := ColumnWidth(cells);
    var len := LineLength(|entries|, w);
    var content := ContentLines(st, cells, w, RowHeight(cells));
    var top, bottom := TopLine(st, |entries|, w), BottomLine(st, |entries|, w);
    forall k | 0 <= k < |content|
      ensures |content[k]| == len
    {
      ContentLineLength(st, entries, k);
    }
    FramedLengths(top, content, bottom, len);
    assert SliceLines(st, entries) == [top] + content + [bottom];
  }

  /**
   * Shape of the table: `RowHeight + 2` lines, the top border first and the
   * bottom border last, all of them exactly as long as the borders.
   */
  lemma SliceShape(st: BorderStyle, entries: seq<string>)
    ensures var L := SliceLines(st, entries);
      var n := |entries|;
      var w := ColumnWidth(Cells(entries));
      var h := RowHeight(Cells(entries));
      && |L| == h + 2
      && L[0] == TopLine(st, n, w)
      && L[h + 1] == BottomLine(st, n, w)
      && (forall k :: 0 <= k < |L| ==> |L[k]| == LineLength(n, w))
  {
    SliceLinesCount(st, entries);
    SliceTop(st, entries);
    SliceBottom(st, entries);
    SliceLineLengths(st, entries);
  }

  /**
   * `line` is content line `i` of the row for `entries` (counting from 0):
   * framed by verticals, with line `i` of entry `j` right-aligned to `w` in
   * column `j`, and only spaces there once entry `j` has run out of lines.
   */
  predicate ContentRow(st: BorderStyle, entries: seq<string>, w: nat, i: nat, line: string)
  {
    && Framed(line, |entries|, w, st.vertical, st.vertical, st.vertical)
    && (forall j :: 0 <= j < |entries| ==> Column(line, j, w) == PadLeft(NthOr(Lines(entries[j]), i), w))
    && (forall j :: 0 <= j < |entries| && |Lines(entries[j])| <= i ==> Column(line, j, w) == Repeat(' ', w))
  }

  /** Line `k + 1` of the table, counting the top border as line 0, shows content row `k`. */
  lemma SliceRow(st: BorderStyle, entries: seq<string>, k: nat)
    requires k < RowHeight(Cells(entries))
    ensures |SliceLines(st, entries)| == RowHeight(Cells(entries)) + 2
    ensures ContentRow(st, entries, ColumnWidth(Cells(entries)), k, SliceLines(st, entries)[k + 1])
  {
    SliceLinesCount(st, entries);
    SliceLineIsContent(st, entries, k);
    RowOfCells(st, entries, k);
  }

  /** The `i`-th content line built from the entries' cells is content line `i` of the row. */
  lemma RowOfCells(st: BorderStyle, entries: seq<string>, i: nat)
    ensures var w := ColumnWidth(Cells(entries));
      ContentRow(st, entries, w, i, ContentLine(st, Cells(entries), w, i))
  {
    var cells := Cells(entries);
    var w := ColumnWidth(cells);
    CellsFit(entries, i);
    ContentLineShape(st, cells, w, i);
    forall j | 0 <= j < |entries| && |Lines(entries[j])| <= i
      ensures PadLeft(NthOr(Lines(entries[j]), i), w) == Repeat(' ', w)
    {
      assert NthOr(Lines(entries[j]), i) == "";
    }
  }

  /**
   * `format_slice` as a whole: its lines are the table's, the two borders
   * enclose them, all are as long as the borders, and every line between the
   * borders is the matching content line of the row.
   */
  lemma FormatSliceLayout(st: BorderStyle, entries: seq<string>)
    requires st.NoLineBreaks()
    ensures Lines(FormatSlice(st, entries)) == SliceLines(st, entries)
    ensures var L := SliceLines(st, entries);
      var n := |entries|;
      var w := ColumnWidth(Cells(entries));
      var h := RowHeight(Cells(entries));
      && |L| == h + 2
      && L[0] == TopLine(st, n, w)
      && L[h + 1] == BottomLine(st, n, w)
      && (forall k :: 0 <= k < |L| ==> |L[k]| == LineLength(n, w))
      && (forall k :: 0 <= k < h ==> ContentRowAt(st, entries, w, L, k))
  {
    FormatSliceLines(st, entries);
    SliceShape(st, entries);
    SliceRows(st, entries);
  }

  /** Line `k + 1` of `L` exists and shows content row `k`. */
  predicate ContentRowAt(st: BorderStyle, entries: seq<string>, w: nat, L: seq<string>, k: nat)
  {
    k + 1 < |L| && ContentRow(st, entries, w, k, L[k + 1])
  }

  /** Every line between the borders shows its content row. */
  lemma SliceRows(st: BorderStyle, entries: seq<string>)
    ensures var L, w := SliceLines(st, entries), ColumnWidth(Cells(entries));
      forall k :: 0 <= k < RowHeight(Cells(entries)) ==> ContentRowAt(st, entries, w, L, k)
  {
    var L, w := SliceLines(st, entries), ColumnWidth(Cells(entries));
    forall k | 0 <= k < RowHeight(Cells(entries))
      ensures ContentRowAt(st, entries, w, L, k)
    {
      SliceRow(st, entries, k);
    }
  }
}
