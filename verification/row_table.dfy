/**
 * The row-table renderer (`format_slice` and the wrappers that reduce to it):
 * every entry becomes one column of a single table row; all columns share
 * one width and the row is as tall as the tallest entry.
 */
module RowTable {
  import opened Text
  import opened Style

  /** Characters in a border or content line of `n` columns of width `w`. */
  function LineLength(n: nat, w: nat): nat
  {
    if n == 0 then 2 else Offset(n, w) + 1
  }

  /** The `w` characters of column `j` in a line of `n` columns, between its verticals. */
  function Column(line: string, j: nat, w: nat): string
  {
    if 1 + Offset(j, w) + w <= |line| then line[1 + Offset(j, w)..1 + Offset(j, w) + w] else []
  }

  /**
   * `line` is drawn for `n` columns of width `w`: as long as a border, `left`
   * first, `right` last, and `joint` just before every column but the first.
   */
  predicate Framed(line: string, n: nat, w: nat, left: char, joint: char, right: char)
  {
    && |line| == LineLength(n, w)
    && line[0] == left && line[|line| - 1] == right
    && (forall j :: 1 <= j < n ==> Offset(j, w) < |line| && line[Offset(j, w)] == joint)
  }

  /** Pieces of width `w` joined by `joint` between `left` and `right` make a framed line. */
  lemma FramedJoin(left: char, parts: seq<string>, joint: char, right: char, w: nat)
    requires forall j :: 0 <= j < |parts| ==> |parts[j]| == w
    ensures Framed([left] + Join(parts, [joint]) + [right], |parts|, w, left, joint, right)
  {
    var r := [left] + Join(parts, [joint]) + [right];
    JoinUniformLength(parts, joint, w);
    forall j | 1 <= j < |parts|
      ensures Offset(j, w) < |r| && r[Offset(j, w)] == joint
    {
      OffsetGrows(j, |parts|, w);
      JoinUniformSeparator(parts, joint, w, j);
    }
  }

  /** Column `j` of such a line is piece `j`. */
  lemma ColumnOfJoin(left: char, parts: seq<string>, joint: char, right: char, w: nat, j: nat)
    requires forall k :: 0 <= k < |parts| ==> |parts[k]| == w
    requires j < |parts|
    ensures Column([left] + Join(parts, [joint]) + [right], j, w) == parts[j]
  {
    var body := Join(parts, [joint]);
    JoinPiece(parts, joint, w, j);
    assert body[Offset(j, w)..Offset(j, w) + w] == parts[j];
    assert ([left] + body + [right])[1 + Offset(j, w)..1 + Offset(j, w) + w] == body[Offset(j, w)..Offset(j, w) + w];
  }

  /** `left`, then `n` runs of `w` copies of `fill` separated by `joint`, then `right`. */
  function BorderLine(left: char, fill: char, joint: char, right: char, n: nat, w: nat): string
  {
    [left] + Join(seq(n, _ => Repeat(fill, w)), [joint]) + [right]
  }

  lemma BorderLineShape(left: char, fill: char, joint: char, right: char, n: nat, w: nat)
    ensures var r := BorderLine(left, fill, joint, right, n, w);
      && Framed(r, n, w, left, joint, right)
      && (forall j :: 0 <= j < n ==> Column(r, j, w) == Repeat(fill, w))
  {
    var runs := seq(n, _ => Repeat(fill, w));
    FramedJoin(left, runs, joint, right, w);
    forall j | 0 <= j < n
      ensures Column(BorderLine(left, fill, joint, right, n, w), j, w) == Repeat(fill, w)
    {
      ColumnOfJoin(left, runs, joint, right, w, j);
    }
  }

  /** `get_top_line`: the border above `n` columns of width `w`. */
  function TopLine(st: BorderStyle, n: nat, w: nat): (r: string)
    ensures Framed(r, n, w, st.topLeft, st.horizontalDown, st.topRight)
    ensures forall j :: 0 <= j < n ==> Column(r, j, w) == Repeat(st.horizontal, w)
  {
    BorderLineShape(st.topLeft, st.horizontal, st.horizontalDown, st.topRight, n, w);
    BorderLine(st.topLeft, st.horizontal, st.horizontalDown, st.topRight, n, w)
  }

  /** `get_bottom_line`: the border below `n` columns of width `w`. */
  function BottomLine(st: BorderStyle, n: nat, w: nat): (r: string)
    ensures Framed(r, n, w, st.bottomLeft, st.horizontalUp, st.bottomRight)
    ensures forall j :: 0 <= j < n ==> Column(r, j, w) == Repeat(st.horizontal, w)
  {
    BorderLineShape(st.bottomLeft, st.horizontal, st.horizontalUp, st.bottomRight, n, w);
    BorderLine(st.bottomLeft, st.horizontal, st.horizontalUp, st.bottomRight, n, w)
  }

  /** Every entry split into its physical lines. */
  function Cells(entries: seq<string>): (cells: seq<seq<string>>)
    ensures |cells| == |entries|
    ensures forall j :: 0 <= j < |entries| ==> cells[j] == Lines(entries[j])
  {
    seq(|entries|, j requires 0 <= j < |entries| => Lines(entries[j]))
  }

  /**
   * Height of the row: the largest line count of any entry, or 1 when there
   * are no entries at all.
   */
  function RowHeight(cells: seq<seq<string>>): (h: nat)
    ensures forall j :: 0 <= j < |cells| ==> |cells[j]| <= h
    ensures cells == [] ==> h == 1
    ensures cells != [] ==> exists j :: 0 <= j < |cells| && |cells[j]| == h
  {
    var counts := seq(|cells|, j requires 0 <= j < |cells| => |cells[j]|);
    var h := MaxOr(counts, 1);
    assert forall j :: 0 <= j < |cells| ==> counts[j] == |cells[j]|;
    h
  }

  /** Longest line of one entry, 0 when it has none. */
  function CellWidth(lines: seq<string>): (w: nat)
    ensures forall k :: 0 <= k < |lines| ==> |lines[k]| <= w
    ensures lines == [] ==> w == 0
    ensures lines != [] ==> exists k :: 0 <= k < |lines| && |lines[k]| == w
  {
    var widths := seq(|lines|, k requires 0 <= k < |lines| => |lines[k]|);
    var w := MaxOr(widths, 0);
    assert forall k :: 0 <= k < |lines| ==> widths[k] == |lines[k]|;
    w
  }

  /**
   * The width all columns share: the longest line of any entry (in
   * characters), 0 when no entry has a line, 1 when there are no entries.
   */
  function ColumnWidth(cells: seq<seq<string>>): (w: nat)
    ensures forall j, k :: 0 <= j < |cells| && 0 <= k < |cells[j]| ==> |cells[j][k]| <= w
    ensures cells == [] ==> w == 1
    ensures cells != [] && (forall j :: 0 <= j < |cells| ==> cells[j] == []) ==> w == 0
    ensures (exists j :: 0 <= j < |cells| && cells[j] != []) ==>
      exists j, k :: 0 <= j < |cells| && 0 <= k < |cells[j]| && |cells[j][k]| == w
  {
    var widths := seq(|cells|, j requires 0 <= j < |cells| => CellWidth(cells[j]));
    var w := MaxOr(widths, 1);
    assert forall j :: 0 <= j < |cells| ==> widths[j] == CellWidth(cells[j]);
    if exists j :: 0 <= j < |cells| && cells[j] != [] then
      var j0 :| 0 <= j0 < |cells| && cells[j0] != [];
      var j :| 0 <= j < |cells| && widths[j] == w;
      if cells[j] != [] then
        w
      else
        assert |cells[j0][0]| <= widths[j0] <= w == 0;
        w
    else
      w
  }

  /** The padded cells of content line `i`. */
  function PaddedCells(cells: seq<seq<string>>, w: nat, i: nat): (padded: seq<string>)
    ensures |padded| == |cells|
    ensures forall j :: 0 <= j < |cells| ==> padded[j] == PadLeft(NthOr(cells[j], i), w)
  {
    seq(|cells|, j requires 0 <= j < |cells| => PadLeft(NthOr(cells[j], i), w))
  }

  /** The `i`-th content line: every column's `i`-th line right-aligned to `w`, between verticals. */
  function ContentLine(st: BorderStyle, cells: seq<seq<string>>, w: nat, i: nat): string
  {
    [st.vertical] + Join(PaddedCells(cells, w, i), [st.vertical]) + [st.vertical]
  }

  /**
   * When no line is wider than `w`, a content line is as long as the borders,
   * and column `j` holds the `i`-th line of cell `j` (or nothing) right-aligned.
   */
  lemma ContentLineShape(st: BorderStyle, cells: seq<seq<string>>, w: nat, i: nat)
    requires forall j :: 0 <= j < |cells| ==> |NthOr(cells[j], i)| <= w
    ensures Framed(ContentLine(st, cells, w, i), |cells|, w, st.vertical, st.vertical, st.vertical)
    ensures forall j :: 0 <= j < |cells| ==> Column(ContentLine(st, cells, w, i), j, w) == PadLeft(NthOr(cells[j], i), w)
  {
    var padded := PaddedCells(cells, w, i);
    FramedJoin(st.vertical, padded, st.vertical, st.vertical, w);
    forall j | 0 <= j < |cells|
      ensures Column(ContentLine(st, cells, w, i), j, w) == PadLeft(NthOr(cells[j], i), w)
    {
      ColumnOfJoin(st.vertical, padded, st.vertical, st.vertical, w, j);
    }
  }

  /** The `h` content lines of the row. */
  function ContentLines(st: BorderStyle, cells: seq<seq<string>>, w: nat, h: nat): (ls: seq<string>)
    ensures |ls| == h
    ensures forall i :: 0 <= i < h ==> ls[i] == ContentLine(st, cells, w, i)
  {
    seq(h, i requires 0 <= i < h => ContentLine(st, cells, w, i))
  }

  /** `format_slice`: the entries, already converted to text, as one bordered row. */
  function FormatSlice(st: BorderStyle, entries: seq<string>): string
  {
    var cells := Cells(entries);
    var h := RowHeight(cells);
    var w := ColumnWidth(cells);
    TopLine(st, |entries|, w) + "\n" + Unlines(ContentLines(st, cells, w, h)) + BottomLine(st, |entries|, w)
  }

  /**
   * The table `format_slice` draws, line by line: the top border, one
   * content line per unit of row height, the bottom border.
   */
  function SliceLines(st: BorderStyle, entries: seq<string>): seq<string>
  {
    var cells := Cells(entries);
    var w := ColumnWidth(cells);
    [TopLine(st, |entries|, w)] + ContentLines(st, cells, w, RowHeight(cells)) + [BottomLine(st, |entries|, w)]
  }

  /** `format_display`: a border around one value's display text. */
  function FormatDisplay(st: BorderStyle, text: string): string
  {
    FormatSlice(st, [text])
  }

  /** `format_debug`: a border around one value's debug text (quoting is the caller's conversion). */
  function FormatDebug(st: BorderStyle, debugText: string): string
  {
    FormatSlice(st, [debugText])
  }
}
