/**
 * The two renderers as the code runs them: widths and heights found by
 * scanning for a maximum, the middle part appended line by line in a loop,
 * and the result assembled as `top + "\n" + middle + bottom`. Each method
 * returns exactly what the functional definition describes.
 */
module Render {
  import opened Text
  import opened Style
  import opened RowTable
  import opened KeyValue

  /** `xs.iter().max().unwrap_or(d)`, scanning left to right. */
  method MaxScan(xs: seq<nat>, d: nat) returns (m: nat)
    ensures m == MaxOr(xs, d)
  {
    if xs == [] {
      return d;
    }
    m := xs[0];
    var i := 1;
    while i < |xs|
      invariant 1 <= i <= |xs|
      invariant forall k :: 0 <= k < i ==> xs[k] <= m
      invariant exists k :: 0 <= k < i && xs[k] == m
    {
      if xs[i] > m {
        m := xs[i];
      }
      i := i + 1;
    }
    var k :| 0 <= k < |xs| && xs[k] == m;
    assert xs[k] <= MaxOr(xs, d);
  }

  // ---------------------------------------------------------------------------
  // format_slice
  // ---------------------------------------------------------------------------

  /** The height of the row: the line counts of the entries, scanned for their maximum (1 if none). */
  method SliceHeight(cells: seq<seq<string>>) returns (h: nat)
    ensures h == RowHeight(cells)
  {
    var counts: seq<nat> := [];
    var j := 0;
    while j < |cells|
      invariant j <= |cells|
      invariant counts == seq(j, k requires 0 <= k < j => |cells[k]|)
    {
      counts := counts + [|cells[j]|];
      j := j + 1;
    }
    h := MaxScan(counts, 1);
  }

  /** The column width: each entry's widest line (0 if it has none), then the widest entry (1 if none). */
  method SliceWidth(cells: seq<seq<string>>) returns (w: nat)
    ensures w == ColumnWidth(cells)
  {
    var widths: seq<nat> := [];
    var j := 0;
    while j < |cells|
      invariant j <= |cells|
      invariant widths == seq(j, k requires 0 <= k < j => CellWidth(cells[k]))
    {
      var lineLengths := seq(|cells[j]|, k requires 0 <= k < |cells[j]| => |cells[j][k]|);
      var cw := MaxScan(lineLengths, 0);
      widths := widths + [cw];
      j := j + 1;
    }
    w := MaxScan(widths, 1);
  }

  /** Lines appended one after another, each ended by a line feed: the `middle += ...` loops. */
  method AppendLines(ls: seq<string>) returns (text: string)
    ensures text == Unlines(ls)
  {
    text := "";
    var i := 0;
    while i < |ls|
      invariant i <= |ls|
      invariant text == Unlines(ls[..i])
    {
      UnlinesSnoc(ls[..i], ls[i]);
      assert ls[..i + 1] == ls[..i] + [ls[i]];
      text := text + ls[i] + "\n";
      i := i + 1;
    }
    assert ls[..|ls|] == ls;
  }

  /** `format_slice`: height and width scanned, the middle built by the loop, then the borders around it. */
  method RenderSlice(st: BorderStyle, entries: seq<string>) returns (out: string)
    ensures out == FormatSlice(st, entries)
  {
    var cells := Cells(entries);
    var h := SliceHeight(cells);
    var w := SliceWidth(cells);
    var middle := AppendLines(ContentLines(st, cells, w, h));
    out := TopLine(st, |entries|, w) + "\n" + middle + BottomLine(st, |entries|, w);
  }

  /** `format_iter`: the items are collected, in iteration order, and formatted as a slice. */
  method RenderIter(st: BorderStyle, items: seq<string>) returns (out: string)
    ensures out == FormatSlice(st, items)
  {
    var collected: seq<string> := [];
    var i := 0;
    while i < |items|
      invariant i <= |items|
      invariant collected == items[..i]
    {
      collected := collected + [items[i]];
      i := i + 1;
    }
    assert collected == items;
    out := RenderSlice(st, collected);
  }

  // ---------------------------------------------------------------------------
  // format_hash_map_headers
  // ---------------------------------------------------------------------------

  /** Each text's longest line in bytes, 1 for a text without lines. */
  method TextWidths(texts: seq<string>) returns (widths: seq<nat>)
    ensures |widths| == |texts|
    ensures forall k :: 0 <= k < |texts| ==> widths[k] == TextWidth(texts[k])
  {
    widths := [];
    var j := 0;
    while j < |texts|
      invariant j <= |texts| && |widths| == j
      invariant forall k :: 0 <= k < j ==> widths[k] == TextWidth(texts[k])
    {
      var tw := MaxScan(LineBytes(texts[j]), 1);
      widths := widths + [tw];
      j := j + 1;
    }
  }

  /** One column's width: the widest text (1 if none), widened to the header's byte length. */
  method ColumnScan(texts: seq<string>, header: string) returns (w: nat)
    ensures w == ColumnBytes(texts, header)
  {
    var widths := TextWidths(texts);
    assert widths == seq(|texts|, j requires 0 <= j < |texts| => TextWidth(texts[j]));
    var widest := MaxScan(widths, 1);
    w := if widest < Utf8Len(header) then Utf8Len(header) else widest;
  }

  /**
   * The loop of `format_hash_map_headers`: for every block its lines, then
   * the divider unless it is the last block, each line ended by a line feed.
   */
  method AppendBlocks(blocks: seq<seq<string>>, divider: string) returns (text: string)
    ensures text == Unlines(JoinBlocks(blocks, divider))
  {
    text := "";
    var i := 0;
    while i < |blocks|
      invariant i <= |blocks|
      invariant text == Unlines(Emitted(blocks, divider, i))
    {
      ghost var before := Emitted(blocks, divider, i);
      var lines := AppendLines(blocks[i]);
      UnlinesAppend(before, blocks[i]);
      text := text + lines;
      if i < |blocks| - 1 {
        UnlinesSnoc(before + blocks[i], divider);
        text := text + divider + "\n";
      } else {
        assert before + blocks[i] + [] == before + blocks[i];
      }
      i := i + 1;
    }
    EmittedAll(blocks, divider);
  }

  /** `format_hash_map_headers`: widths scanned, the middle built by the loops, then the borders around it. */
  method RenderHashMap(st: BorderStyle, m: seq<Pair>, keyHeader: string, valueHeader: string) returns (out: string)
    ensures out == FormatHashMapHeaders(st, m, keyHeader, valueHeader)
  {
    var kw := ColumnScan(Keys(m), keyHeader);
    var vw := ColumnScan(Values(m), valueHeader);
    var middle := AppendBlocks(EntryBlocks(st, Rows(m, keyHeader, valueHeader), kw, vw), Divider(st, kw, vw));
    out := KvTop(st, kw, vw) + "\n" + middle + KvBottom(st, kw, vw);
  }
}
