/**
 * What `format_hash_map_headers` draws, read back line by line: the blocks of
 * the entries and the dividers between them, the header block, the widths,
 * and the text of the whole table when there is nothing to show.
 */
module KvLayout {
  import opened Text
  import opened Style
  import opened KeyValue

  // ---------------------------------------------------------------------------
  // Two-column lines
  // ---------------------------------------------------------------------------

  /**
   * `line` has a key cell of `kw` characters and a value cell of `vw`
   * characters, with `left` before, `mid` between and `right` after them.
   */
  predicate TwoColumns(line: string, kw: nat, vw: nat, left: char, mid: char, right: char, keyCell: string, valueCell: string)
  {
    && |line| == kw + vw + 3
    && line[0] == left && line[kw + 1] == mid && line[kw + vw + 2] == right
    && line[1..kw + 1] == keyCell
    && line[kw + 2..kw + vw + 2] == valueCell
  }

  lemma TwoColumnsOf(left: char, keyCell: string, mid: char, valueCell: string, right: char)
    ensures TwoColumns([left] + keyCell + [mid] + valueCell + [right], |keyCell|, |valueCell|, left, mid, right, keyCell, valueCell)
  {
    var line := [left] + keyCell + [mid] + valueCell + [right];
    var kw, vw := |keyCell|, |valueCell|;
    assert line[1..kw + 1] == keyCell;
    assert line[kw + 2..kw + vw + 2] == valueCell;
  }

  /**
   * Every rule is `left`, `kw` fills, `mid`, `vw` fills, `right`.
   * Stated by character position and cell slice (`TwoColumns`), the form in
   * which `KvOutput` reads the borders and dividers of a table.
   */
  lemma RuleShape(left: char, fill: char, mid: char, right: char, kw: nat, vw: nat)
    ensures TwoColumns(Rule(left, fill, mid, right, kw, vw), kw, vw, left, mid, right, Repeat(fill, kw), Repeat(fill, vw))
  {
    TwoColumnsOf(left, Repeat(fill, kw), mid, Repeat(fill, vw), right);
  }

  /**
   * Every line of an entry is as long as the rules whenever its two lines fit their columns.
   * Stated by character position and cell slice (`TwoColumns`), the form in
   * which `KvOutput` reads the entry rows of a table.
   */
  lemma EntryLineShape(st: BorderStyle, p: Pair, kw: nat, vw: nat, i: nat)
    requires |NthOr(Lines(p.key), i)| <= kw && |NthOr(Lines(p.value), i)| <= vw
    ensures TwoColumns(EntryLine(st, p, kw, vw, i), kw, vw, st.vertical, st.vertical, st.vertical,
                       PadLeft(NthOr(Lines(p.key), i), kw), PadLeft(NthOr(Lines(p.value), i), vw))
  {
    var keyCell := PadLeft(NthOr(Lines(p.key), i), kw);
    var valueCell := PadLeft(NthOr(Lines(p.value), i), vw);
    assert |keyCell| == kw && |valueCell| == vw;
    BarredCells(st.vertical, keyCell, valueCell, EntryLine(st, p, kw, vw, i));
  }

  /** A key cell and a value cell between three copies of `bar` form a two-column line. */
  lemma BarredCells(bar: char, keyCell: string, valueCell: string, line: string)
    requires line == [bar] + keyCell + [bar] + valueCell + [bar]
    ensures TwoColumns(line, |keyCell|, |valueCell|, bar, bar, bar, keyCell, valueCell)
  {
    TwoColumnsOf(bar, keyCell, bar, valueCell, bar);
  }

  // ---------------------------------------------------------------------------
  // Every line fits its column
  // ---------------------------------------------------------------------------

  /** No line of the entry is wider, in characters, than its column. */
  predicate EntryFits(p: Pair, kw: nat, vw: nat)
  {
    && (forall k :: 0 <= k < |Lines(p.key)| ==> |Lines(p.key)[k]| <= kw)
    && (forall k :: 0 <= k < |Lines(p.value)| ==> |Lines(p.value)[k]| <= vw)
  }

  predicate Fits(rows: seq<Pair>, kw: nat, vw: nat)
  {
    forall j :: 0 <= j < |rows| ==> EntryFits(rows[j], kw, vw)
  }

  /** A text's lines are no wider in characters than the width measured in bytes. */
  lemma LinesWithin(s: string, width: nat)
    requires TextWidth(s) <= width
    ensures forall k :: 0 <= k < |Lines(s)| ==> |Lines(s)[k]| <= width
  {
    forall k | 0 <= k < |Lines(s)|
      ensures |Lines(s)[k]| <= width
    {
      Utf8LenBounds(Lines(s)[k]);
    }
  }

  /** A header's lines are no wider in characters than the header's byte length. */
  lemma HeaderWithin(s: string, width: nat)
    requires Utf8Len(s) <= width
    ensures forall k :: 0 <= k < |Lines(s)| ==> |Lines(s)[k]| <= width
  {
    LinesUtf8Bound(s);
    forall k | 0 <= k < |Lines(s)|
      ensures |Lines(s)[k]| <= width
    {
      Utf8LenBounds(Lines(s)[k]);
    }
  }

  /** Every entry of the map fits the widths measured over the map. */
  lemma MapEntriesFit(m: seq<Pair>, keyHeader: string, valueHeader: string)
    ensures Fits(m, KeyWidth(m, keyHeader), ValueWidth(m, valueHeader))
  {
    var kw, vw := KeyWidth(m, keyHeader), ValueWidth(m, valueHeader);
    forall j | 0 <= j < |m|
      ensures EntryFits(m[j], kw, vw)
    {
      assert Keys(m)[j] == m[j].key && Values(m)[j] == m[j].value;
      LinesWithin(m[j].key, kw);
      LinesWithin(m[j].value, vw);
    }
  }

  /** The header entry fits the widths, since they are at least the headers' byte lengths. */
  lemma HeaderFits(m: seq<Pair>, keyHeader: string, valueHeader: string)
    ensures EntryFits(Pair(keyHeader, valueHeader), KeyWidth(m, keyHeader), ValueWidth(m, valueHeader))
  {
    HeaderWithin(keyHeader, KeyWidth(m, keyHeader));
    HeaderWithin(valueHeader, ValueWidth(m, valueHeader));
  }

  lemma FitsCons(p: Pair, m: seq<Pair>, kw: nat, vw: nat)
    requires EntryFits(p, kw, vw) && Fits(m, kw, vw)
    ensures Fits([p] + m, kw, vw)
  {
    forall j | 0 <= j < |[p] + m|
      ensures EntryFits(([p] + m)[j], kw, vw)
    {
      if j > 0 {
        assert ([p] + m)[j] == m[j - 1];
      }
    }
  }

  /**
   * Measuring in bytes never under-measures: every line of every entry shown,
   * the header included, fits the widths, so padding never has to truncate.
   */
  lemma RowsFit(m: seq<Pair>, keyHeader: string, valueHeader: string)
    ensures Fits(Rows(m, keyHeader, valueHeader), KeyWidth(m, keyHeader), ValueWidth(m, valueHeader))
  {
    MapEntriesFit(m, keyHeader, valueHeader);
    if keyHeader != "" || valueHeader != "" {
      HeaderFits(m, keyHeader, valueHeader);
      FitsCons(Pair(keyHeader, valueHeader), m, KeyWidth(m, keyHeader), ValueWidth(m, valueHeader));
    }
  }

  /** Every line of an entry that fits has the shape `EntryLineShape` describes. */
  lemma FittingEntryLine(st: BorderStyle, p: Pair, kw: nat, vw: nat, i: nat)
    requires EntryFits(p, kw, vw)
    ensures TwoColumns(EntryLine(st, p, kw, vw, i), kw, vw, st.vertical, st.vertical, st.vertical,
                       PadLeft(NthOr(Lines(p.key), i), kw), PadLeft(NthOr(Lines(p.value), i), vw))
  {
    EntryLineShape(st, p, kw, vw, i);
  }

  /**
   * An entry takes as many lines as its taller side: at least as many as
   * either side has, and exactly as many as one of them. When the entry fits
   * its columns, each of those lines is as long as a rule.
   */
  lemma EntryLinesCover(st: BorderStyle, p: Pair, kw: nat, vw: nat)
    ensures var ls := EntryLines(st, p, kw, vw);
      && |Lines(p.key)| <= |ls| && |Lines(p.value)| <= |ls|
      && (|ls| == |Lines(p.key)| || |ls| == |Lines(p.value)|)
      && (EntryFits(p, kw, vw) ==> forall i :: 0 <= i < |ls| ==> |ls[i]| == kw + vw + 3)
  {
    var ls := EntryLines(st, p, kw, vw);
    if EntryFits(p, kw, vw) {
      forall i | 0 <= i < |ls|
        ensures |ls[i]| == kw + vw + 3
      {
        FittingEntryLine(st, p, kw, vw, i);
      }
    }
  }

  // ---------------------------------------------------------------------------
  // Blocks and dividers
  // ---------------------------------------------------------------------------

  /** Line `i` of entry `j`'s block is line `i` of that entry. */
  lemma BodyEntryLine(st: BorderStyle, rows: seq<Pair>, kw: nat, vw: nat, j: nat, i: nat)
    requires j < |rows| && i < EntryHeight(rows[j])
    ensures var blocks := EntryBlocks(st, rows, kw, vw);
      && BlockStart(blocks, j) + i < |BodyLines(st, rows, kw, vw)|
      && BodyLines(st, rows, kw, vw)[BlockStart(blocks, j) + i] == EntryLine(st, rows[j], kw, vw, i)
  {
    var blocks := EntryBlocks(st, rows, kw, vw);
    var body := JoinBlocks(blocks, Divider(st, kw, vw));
    JoinBlocksPiece(blocks, Divider(st, kw, vw), j, i);
    assert body[BlockStart(blocks, j) + i] == blocks[j][i];
    var block := blocks[j];
    assert block == EntryLines(st, rows[j], kw, vw);
    assert block[i] == EntryLine(st, rows[j], kw, vw, i);
  }

  /** Right after the block of every entry but the last comes a divider. */
  lemma BodyDivider(st: BorderStyle, rows: seq<Pair>, kw: nat, vw: nat, j: nat)
    requires j + 1 < |rows|
    ensures var blocks := EntryBlocks(st, rows, kw, vw);
      && BlockStart(blocks, j) + EntryHeight(rows[j]) < |BodyLines(st, rows, kw, vw)|
      && BodyLines(st, rows, kw, vw)[BlockStart(blocks, j) + EntryHeight(rows[j])] == Divider(st, kw, vw)
  {
    JoinBlocksSeparator(EntryBlocks(st, rows, kw, vw), Divider(st, kw, vw), j);
  }

  /** Blocks follow each other with one divider between: block `j + 1` starts right after that divider. */
  lemma BodyBlocksContiguous(st: BorderStyle, rows: seq<Pair>, kw: nat, vw: nat, j: nat)
    requires j < |rows|
    ensures var blocks := EntryBlocks(st, rows, kw, vw);
      BlockStart(blocks, j + 1) == BlockStart(blocks, j) + EntryHeight(rows[j]) + 1
  {
    BlockStartNext(EntryBlocks(st, rows, kw, vw), j);
  }

  /** Lines of all entries together. */
  function TotalHeight(rows: seq<Pair>): nat
  {
    if rows == [] then 0 else EntryHeight(rows[0]) + TotalHeight(rows[1..])
  }

  lemma {:induction false} TotalLengthOfBlocks(st: BorderStyle, rows: seq<Pair>, kw: nat, vw: nat)
    ensures TotalLength(EntryBlocks(st, rows, kw, vw)) == TotalHeight(rows)
    decreases |rows|
  {
    if rows != [] {
      var blocks := EntryBlocks(st, rows, kw, vw);
      assert blocks[1..] == EntryBlocks(st, rows[1..], kw, vw);
      TotalLengthOfBlocks(st, rows[1..], kw, vw);
    }
  }

  /**
   * Entries and dividers account for every line of the body: the lines of all
   * entries plus one divider fewer than there are entries; the last block ends
   * the body.
   */
  lemma BodyCount(st: BorderStyle, rows: seq<Pair>, kw: nat, vw: nat)
    ensures |BodyLines(st, rows, kw, vw)| == TotalHeight(rows) + (if rows == [] then 0 else |rows| - 1)
    ensures rows != [] ==> |BodyLines(st, rows, kw, vw)| + 1 == BlockStart(EntryBlocks(st, rows, kw, vw), |rows|)
  {
    JoinBlocksLength(EntryBlocks(st, rows, kw, vw), Divider(st, kw, vw));
    TotalLengthOfBlocks(st, rows, kw, vw);
  }

  lemma EntryBlocksCons(st: BorderStyle, p: Pair, m: seq<Pair>, kw: nat, vw: nat)
    ensures EntryBlocks(st, [p] + m, kw, vw) == [EntryLines(st, p, kw, vw)] + EntryBlocks(st, m, kw, vw)
  {
    var a := EntryBlocks(st, [p] + m, kw, vw);
    var b := [EntryLines(st, p, kw, vw)] + EntryBlocks(st, m, kw, vw);
    forall j | 0 <= j < |a|
      ensures a[j] == b[j]
    {
      if j > 0 {
        assert ([p] + m)[j] == m[j - 1];
      }
    }
  }

  /**
   * When either header is non-empty, the header entry is the first block,
   * followed by a divider exactly when the map is not empty.
   */
  lemma HeaderBlock(st: BorderStyle, m: seq<Pair>, keyHeader: string, valueHeader: string, kw: nat, vw: nat)
    requires keyHeader != "" || valueHeader != ""
    ensures BodyLines(st, Rows(m, keyHeader, valueHeader), kw, vw)
         == EntryLines(st, Pair(keyHeader, valueHeader), kw, vw)
            + (if m == [] then [] else [Divider(st, kw, vw)] + BodyLines(st, m, kw, vw))
  {
    var header := Pair(keyHeader, valueHeader);
    var first := EntryLines(st, header, kw, vw);
    var rest := EntryBlocks(st, m, kw, vw);
    EntryBlocksCons(st, header, m, kw, vw);
    JoinBlocksCons(first, rest, Divider(st, kw, vw));
    if m == [] {
      assert first + [] == first;
    }
  }
}
