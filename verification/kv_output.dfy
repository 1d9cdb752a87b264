/**
 * The text `format_hash_map_headers` returns, read back: it splits into the
 * top border, the body and the bottom border; every line is equally wide; and
 * the concrete tables for an empty map and for the documented example.
 */
module KvOutput {
  import opened Text
  import opened Style
  import opened KeyValue
  import opened KvLayout

  // ---------------------------------------------------------------------------
  // One physical line each
  // ---------------------------------------------------------------------------

  lemma RuleOneLine(left: char, fill: char, mid: char, right: char, kw: nat, vw: nat)
    requires left != '\n' && fill != '\n' && mid != '\n' && right != '\n' && right != '\r'
    ensures Rule(left, fill, mid, right, kw, vw) != [] && OneLine(Rule(left, fill, mid, right, kw, vw))
  {
    var r := Rule(left, fill, mid, right, kw, vw);
    RuleShape(left, fill, mid, right, kw, vw);
    assert r[|r| - 1] == right;
  }

  lemma EntryLineOneLine(st: BorderStyle, p: Pair, kw: nat, vw: nat, i: nat)
    requires st.NoLineBreaks()
    ensures OneLine(EntryLine(st, p, kw, vw, i))
  {
    LinesNoNewline(p.key);
    LinesNoNewline(p.value);
    var k, v := NthOr(Lines(p.key), i), NthOr(Lines(p.value), i);
    assert '\n' !in k && '\n' !in v;
    var r := EntryLine(st, p, kw, vw, i);
    assert r == [st.vertical] + PadLeft(k, kw) + [st.vertical] + PadLeft(v, vw) + [st.vertical];
    assert r[|r| - 1] == st.vertical;
  }

  /** With a style free of line breaks, every line of the body is one physical line. */
  lemma BodyOneLine(st: BorderStyle, rows: seq<Pair>, kw: nat, vw: nat)
    requires st.NoLineBreaks()
    ensures forall k :: 0 <= k < |BodyLines(st, rows, kw, vw)| ==> OneLine(BodyLines(st, rows, kw, vw)[k])
  {
    var blocks := EntryBlocks(st, rows, kw, vw);
    var body := BodyLines(st, rows, kw, vw);
    RuleOneLine(st.verticalRight, st.horizontal, st.cross, st.verticalLeft, kw, vw);
    forall k | 0 <= k < |body|
      ensures OneLine(body[k])
    {
      JoinBlocksMember(blocks, Divider(st, kw, vw), k);
      if body[k] != Divider(st, kw, vw) {
        var j, i :| 0 <= j < |blocks| && 0 <= i < |blocks[j]| && body[k] == blocks[j][i];
        assert blocks[j] == EntryLines(st, rows[j], kw, vw);
        EntryLineOneLine(st, rows[j], kw, vw, i);
      }
    }
  }

  /**
   * The rendered map splits back into exactly the lines of the table: the top
   * border, the body, the bottom border.
   */
  lemma KvOutputLines(st: BorderStyle, m: seq<Pair>, keyHeader: string, valueHeader: string)
    requires st.NoLineBreaks()
    ensures Lines(FormatHashMapHeaders(st, m, keyHeader, valueHeader)) == KvLines(st, m, keyHeader, valueHeader)
  {
    var kw, vw := KeyWidth(m, keyHeader), ValueWidth(m, valueHeader);
    var body := BodyLines(st, Rows(m, keyHeader, valueHeader), kw, vw);
    RuleOneLine(st.topLeft, st.horizontal, st.horizontalDown, st.topRight, kw, vw);
    RuleOneLine(st.bottomLeft, st.horizontal, st.horizontalUp, st.bottomRight, kw, vw);
    BodyOneLine(st, Rows(m, keyHeader, valueHeader), kw, vw);
    LinesOfFrame(KvTop(st, kw, vw), body, KvBottom(st, kw, vw));
  }

  // ---------------------------------------------------------------------------
  // A rectangle
  // ---------------------------------------------------------------------------

  /** Every body line of entries that fit is a divider or an entry line, both `kw + vw + 3` long. */
  lemma BodyLineLengths(st: BorderStyle, rows: seq<Pair>, kw: nat, vw: nat)
    requires Fits(rows, kw, vw)
    ensures forall k :: 0 <= k < |BodyLines(st, rows, kw, vw)| ==> |BodyLines(st, rows, kw, vw)[k]| == kw + vw + 3
  {
    var blocks := EntryBlocks(st, rows, kw, vw);
    var body := BodyLines(st, rows, kw, vw);
    RuleShape(st.verticalRight, st.horizontal, st.cross, st.verticalLeft, kw, vw);
    forall k | 0 <= k < |body|
      ensures |body[k]| == kw + vw + 3
    {
      JoinBlocksMember(blocks, Divider(st, kw, vw), k);
      if body[k] != Divider(st, kw, vw) {
        var j, i :| 0 <= j < |blocks| && 0 <= i < |blocks[j]| && body[k] == blocks[j][i];
        assert blocks[j] == EntryLines(st, rows[j], kw, vw);
        assert EntryFits(rows[j], kw, vw);
        FittingEntryLine(st, rows[j], kw, vw, i);
      }
    }
  }

  /** Borders and body of entries that fit are all `kw + vw + 3` long. */
  lemma FrameLineLengths(st: BorderStyle, rows: seq<Pair>, kw: nat, vw: nat)
    requires Fits(rows, kw, vw)
    ensures var L := [KvTop(st, kw, vw)] + BodyLines(st, rows, kw, vw) + [KvBottom(st, kw, vw)];
      forall k :: 0 <= k < |L| ==> |L[k]| == kw + vw + 3
  {
    BodyLineLengths(st, rows, kw, vw);
    RuleShape(st.topLeft, st.horizontal, st.horizontalDown, st.topRight, kw, vw);
    RuleShape(st.bottomLeft, st.horizontal, st.horizontalUp, st.bottomRight, kw, vw);
    FramedLengths(KvTop(st, kw, vw), BodyLines(st, rows, kw, vw), KvBottom(st, kw, vw), kw + vw + 3);
  }

  /**
   * The table is a rectangle: every line, borders included, is `kw + vw + 3`
   * characters long, where `kw` and `vw` are the measured column widths.
   */
  lemma KvLineLengths(st: BorderStyle, m: seq<Pair>, keyHeader: string, valueHeader: string)
    ensures var L := KvLines(st, m, keyHeader, valueHeader);
      forall k :: 0 <= k < |L| ==> |L[k]| == KeyWidth(m, keyHeader) + ValueWidth(m, valueHeader) + 3
  {
    RowsFit(m, keyHeader, valueHeader);
    FrameLineLengths(st, Rows(m, keyHeader, valueHeader), KeyWidth(m, keyHeader), ValueWidth(m, valueHeader));
  }

  // ---------------------------------------------------------------------------
  // Every line in its place
  // ---------------------------------------------------------------------------

  /**
   * `line` is line `i` of entry `p` drawn in columns `kw` and `vw`: framed by
   * verticals, the entry's `i`-th key and value lines right-aligned, and only
   * spaces on a side that has run out of lines.
   */
  predicate EntryRow(st: BorderStyle, p: Pair, kw: nat, vw: nat, i: nat, line: string)
  {
    && TwoColumns(line, kw, vw, st.vertical, st.vertical, st.vertical,
                  PadLeft(NthOr(Lines(p.key), i), kw), PadLeft(NthOr(Lines(p.value), i), vw))
    && (|Lines(p.key)| <= i ==> line[1..kw + 1] == Repeat(' ', kw))
    && (|Lines(p.value)| <= i ==> line[kw + 2..kw + vw + 2] == Repeat(' ', vw))
  }

  /** Padding nothing gives spaces only. */
  lemma PadNothing(w: nat)
    ensures PadLeft("", w) == Repeat(' ', w)
  {
  }

  lemma FittingEntryRow(st: BorderStyle, p: Pair, kw: nat, vw: nat, i: nat, line: string)
    requires EntryFits(p, kw, vw)
    requires line == EntryLine(st, p, kw, vw, i)
    ensures EntryRow(st, p, kw, vw, i, line)
  {
    FittingEntryLine(st, p, kw, vw, i);
    PadNothing(kw);
    PadNothing(vw);
  }

  lemma EntryRowAt(st: BorderStyle, rows: seq<Pair>, kw: nat, vw: nat, j: nat, i: nat, top: string, bottom: string)
    requires j < |rows| && i < EntryHeight(rows[j])
    ensures var L := [top] + BodyLines(st, rows, kw, vw) + [bottom];
      var at := 1 + BlockStart(EntryBlocks(st, rows, kw, vw), j) + i;
      && at < |L| - 1
      && L[at] == EntryLine(st, rows[j], kw, vw, i)
  {
    var body := BodyLines(st, rows, kw, vw);
    var k := BlockStart(EntryBlocks(st, rows, kw, vw), j) + i;
    BodyEntryLine(st, rows, kw, vw, j, i);
    IndexMiddle(top, body, bottom, 1 + k);
  }

  /**
   * Line `i` of the `j`-th entry shown (the header entry counts as entry 0 when
   * there is one) sits at `1 + BlockStart(.., j) + i` of the table: inside the
   * borders, and drawn as `EntryRow` describes.
   */
  lemma KvEntryRow(st: BorderStyle, m: seq<Pair>, keyHeader: string, valueHeader: string, j: nat, i: nat)
    requires j < |Rows(m, keyHeader, valueHeader)| && i < EntryHeight(Rows(m, keyHeader, valueHeader)[j])
    ensures var kw, vw := KeyWidth(m, keyHeader), ValueWidth(m, valueHeader);
      var rows := Rows(m, keyHeader, valueHeader);
      var L := KvLines(st, m, keyHeader, valueHeader);
      var at := 1 + BlockStart(EntryBlocks(st, rows, kw, vw), j) + i;
      && at < |L| - 1
      && EntryRow(st, rows[j], kw, vw, i, L[at])
  {
    RowFits(m, keyHeader, valueHeader, j);
    EntryRowIn(st, Rows(m, keyHeader, valueHeader), KeyWidth(m, keyHeader), ValueWidth(m, valueHeader), j, i,
               KvLines(st, m, keyHeader, valueHeader));
  }

  lemma EntryRowIn(st: BorderStyle, rows: seq<Pair>, kw: nat, vw: nat, j: nat, i: nat, L: seq<string>)
    requires j < |rows| && i < EntryHeight(rows[j]) && EntryFits(rows[j], kw, vw)
    requires L == [KvTop(st, kw, vw)] + BodyLines(st, rows, kw, vw) + [KvBottom(st, kw, vw)]
    ensures var at := 1 + BlockStart(EntryBlocks(st, rows, kw, vw), j) + i;
      && at < |L| - 1
      && EntryRow(st, rows[j], kw, vw, i, L[at])
  {
    EntryRowAt(st, rows, kw, vw, j, i, KvTop(st, kw, vw), KvBottom(st, kw, vw));
    var at := 1 + BlockStart(EntryBlocks(st, rows, kw, vw), j) + i;
    FittingEntryRow(st, rows[j], kw, vw, i, L[at]);
  }

  /** Entry `j` of those shown fits the measured widths. */
  lemma RowFits(m: seq<Pair>, keyHeader: string, valueHeader: string, j: nat)
    requires j < |Rows(m, keyHeader, valueHeader)|
    ensures EntryFits(Rows(m, keyHeader, valueHeader)[j], KeyWidth(m, keyHeader), ValueWidth(m, valueHeader))
  {
    RowsFit(m, keyHeader, valueHeader);
  }

  lemma DividerRowAt(st: BorderStyle, rows: seq<Pair>, kw: nat, vw: nat, j: nat, top: string, bottom: string)
    requires j + 1 < |rows|
    ensures var L := [top] + BodyLines(st, rows, kw, vw) + [bottom];
      var at := 1 + BlockStart(EntryBlocks(st, rows, kw, vw), j) + EntryHeight(rows[j]);
      && at < |L| - 1
      && L[at] == Divider(st, kw, vw)
  {
    var body := BodyLines(st, rows, kw, vw);
    var k := BlockStart(EntryBlocks(st, rows, kw, vw), j) + EntryHeight(rows[j]);
    BodyDivider(st, rows, kw, vw, j);
    IndexMiddle(top, body, bottom, 1 + k);
  }

  /** Right after the lines of every entry but the last comes the divider. */
  lemma KvDividerRow(st: BorderStyle, m: seq<Pair>, keyHeader: string, valueHeader: string, j: nat)
    requires j + 1 < |Rows(m, keyHeader, valueHeader)|
    ensures var kw, vw := KeyWidth(m, keyHeader), ValueWidth(m, valueHeader);
      var rows := Rows(m, keyHeader, valueHeader);
      var L := KvLines(st, m, keyHeader, valueHeader);
      var at := 1 + BlockStart(EntryBlocks(st, rows, kw, vw), j) + EntryHeight(rows[j]);
      && at < |L| - 1
      && L[at] == Divider(st, kw, vw)
      && TwoColumns(L[at], kw, vw, st.verticalRight, st.cross, st.verticalLeft, Repeat(st.horizontal, kw), Repeat(st.horizontal, vw))
  {
    var kw, vw := KeyWidth(m, keyHeader), ValueWidth(m, valueHeader);
    var rows := Rows(m, keyHeader, valueHeader);
    var L := KvLines(st, m, keyHeader, valueHeader);
    DividerRowAt(st, rows, kw, vw, j, KvTop(st, kw, vw), KvBottom(st, kw, vw));
    assert L == [KvTop(st, kw, vw)] + BodyLines(st, rows, kw, vw) + [KvBottom(st, kw, vw)];
    RuleShape(st.verticalRight, st.horizontal, st.cross, st.verticalLeft, kw, vw);
  }

  /** The table starts with the top border and ends with the bottom border. */
  lemma KvBorders(st: BorderStyle, m: seq<Pair>, keyHeader: string, valueHeader: string)
    ensures var kw, vw := KeyWidth(m, keyHeader), ValueWidth(m, valueHeader);
      var L := KvLines(st, m, keyHeader, valueHeader);
      && 2 <= |L|
      && TwoColumns(L[0], kw, vw, st.topLeft, st.horizontalDown, st.topRight, Repeat(st.horizontal, kw), Repeat(st.horizontal, vw))
      && TwoColumns(L[|L| - 1], kw, vw, st.bottomLeft, st.horizontalUp, st.bottomRight, Repeat(st.horizontal, kw), Repeat(st.horizontal, vw))
  {
    var kw, vw := KeyWidth(m, keyHeader), ValueWidth(m, valueHeader);
    var body := BodyLines(st, Rows(m, keyHeader, valueHeader), kw, vw);
    FrameEnds(KvTop(st, kw, vw), body, KvBottom(st, kw, vw));
    RuleShape(st.topLeft, st.horizontal, st.horizontalDown, st.topRight, kw, vw);
    RuleShape(st.bottomLeft, st.horizontal, st.horizontalUp, st.bottomRight, kw, vw);
  }

  // ---------------------------------------------------------------------------
  // The header entry in the output
  // ---------------------------------------------------------------------------

  /** Inside a frame, a body that starts with `first` shows `first` right under the top line. */
  lemma FrameHead<T>(top: T, first: seq<T>, tail: seq<T>, bottom: T, i: nat)
    requires i < |first|
    ensures ([top] + (first + tail) + [bottom])[1 + i] == first[i]
  {
    IndexMiddle(top, first + tail, bottom, 1 + i);
  }

  /** ... and the first element of `tail` right after it. */
  lemma FrameAfterHead<T>(top: T, first: seq<T>, tail: seq<T>, bottom: T)
    requires tail != []
    ensures ([top] + (first + tail) + [bottom])[1 + |first|] == tail[0]
  {
    IndexMiddle(top, first + tail, bottom, 1 + |first|);
  }

  /**
   * When either header is non-empty, the lines right under the top border are
   * the header entry's lines, followed by a divider when the map has entries.
   */
  lemma KvHeaderLines(st: BorderStyle, m: seq<Pair>, keyHeader: string, valueHeader: string)
    requires keyHeader != "" || valueHeader != ""
    ensures var kw, vw := KeyWidth(m, keyHeader), ValueWidth(m, valueHeader);
      var L := KvLines(st, m, keyHeader, valueHeader);
      var h := EntryHeight(Pair(keyHeader, valueHeader));
      && h + 2 <= |L|
      && (forall i :: 0 <= i < h ==> L[1 + i] == EntryLine(st, Pair(keyHeader, valueHeader), kw, vw, i))
      && (m != [] ==> L[1 + h] == Divider(st, kw, vw))
  {
    var kw, vw := KeyWidth(m, keyHeader), ValueWidth(m, valueHeader);
    HeaderFrame(st, m, Pair(keyHeader, valueHeader), kw, vw, KvTop(st, kw, vw), KvBottom(st, kw, vw),
                BodyLines(st, Rows(m, keyHeader, valueHeader), kw, vw));
  }

  lemma HeaderFrame(st: BorderStyle, m: seq<Pair>, header: Pair, kw: nat, vw: nat, top: string, bottom: string, body: seq<string>)
    requires header.key != "" || header.value != ""
    requires body == BodyLines(st, Rows(m, header.key, header.value), kw, vw)
    ensures var L := [top] + body + [bottom];
      var h := EntryHeight(header);
      && h + 2 <= |L|
      && (forall i :: 0 <= i < h ==> L[1 + i] == EntryLine(st, header, kw, vw, i))
      && (m != [] ==> L[1 + h] == Divider(st, kw, vw))
  {
    var first := EntryLines(st, header, kw, vw);
    var tail := if m == [] then [] else [Divider(st, kw, vw)] + BodyLines(st, m, kw, vw);
    HeaderBlock(st, m, header.key, header.value, kw, vw);
    assert body == first + tail;
    forall i | 0 <= i < |first|
      ensures ([top] + body + [bottom])[1 + i] == EntryLine(st, header, kw, vw, i)
    {
      FrameHead(top, first, tail, bottom, i);
    }
    if m != [] {
      FrameAfterHead(top, first, tail, bottom);
    }
  }

  /** A string without line breaks is one line, itself, as wide as its own byte length. */
  lemma Word(s: string)
    requires s != [] && '\n' !in s && s[|s| - 1] != '\r'
    ensures Lines(s) == [s]
    ensures TextWidth(s) == Utf8Len(s)
  {
    LinesSingle(s);
  }

  /** The `Key`/`Value` header entry is one line. */
  lemma DefaultHeader(st: BorderStyle, kw: nat, vw: nat)
    ensures EntryHeight(Pair("Key", "Value")) == 1
    ensures EntryLine(st, Pair("Key", "Value"), kw, vw, 0)
         == [st.vertical] + PadLeft("Key", kw) + [st.vertical] + PadLeft("Value", vw) + [st.vertical]
  {
    Word("Key");
    Word("Value");
    OneLineEntry(st, Pair("Key", "Value"), kw, vw);
  }

  /** The measured widths are at least the headers' byte lengths: 3 for `Key`, 5 for `Value`. */
  lemma DefaultWidths(m: seq<Pair>)
    ensures 3 <= KeyWidth(m, "Key") && 5 <= ValueWidth(m, "Value")
  {
    HeaderBytes();
  }

  lemma HeaderBytes()
    ensures Utf8Len("Key") == 3 && Utf8Len("Value") == 5
  {
  }

  /**
   * `format_hash_map` heads the table with `Key` and `Value`, right-aligned in
   * columns at least 3 and 5 characters wide.
   */
  lemma FormatHashMapHeaderLine(st: BorderStyle, m: seq<Pair>)
    ensures var kw, vw := KeyWidth(m, "Key"), ValueWidth(m, "Value");
      && 3 <= kw && 5 <= vw
      && KvLines(st, m, "Key", "Value")[1] == [st.vertical] + PadLeft("Key", kw) + [st.vertical] + PadLeft("Value", vw) + [st.vertical]
  {
    DefaultWidths(m);
    DefaultHeader(st, KeyWidth(m, "Key"), ValueWidth(m, "Value"));
    KvHeaderLines(st, m, "Key", "Value");
  }

  // ---------------------------------------------------------------------------
  // Concrete tables
  // ---------------------------------------------------------------------------

  /** No entries and no headers: a top border over a bottom border, both columns 1 wide. */
  lemma KvEmpty(st: BorderStyle)
    ensures FormatHashMapHeaders(st, [], "", "")
         == [st.topLeft, st.horizontal, st.horizontalDown, st.horizontal, st.topRight, '\n',
             st.bottomLeft, st.horizontal, st.horizontalUp, st.horizontal, st.bottomRight]
  {
    assert KeyWidth([], "") == 1 && ValueWidth([], "") == 1;
    assert BodyLines(st, [], 1, 1) == [];
  }

  /** With no entries, each column is as wide as its header, and at least 1. */
  lemma EmptyWidths(keyHeader: string, valueHeader: string)
    ensures KeyWidth([], keyHeader) == Max(1, Utf8Len(keyHeader))
    ensures ValueWidth([], valueHeader) == Max(1, Utf8Len(valueHeader))
  {
    assert Keys([]) == [] && Values([]) == [];
  }

  /** The body of a single one-line entry is that line. */
  lemma SingleEntryBody(st: BorderStyle, p: Pair, kw: nat, vw: nat)
    requires EntryHeight(p) == 1
    ensures BodyLines(st, [p], kw, vw) == [EntryLine(st, p, kw, vw, 0)]
  {
    var line := EntryLine(st, p, kw, vw, 0);
    assert EntryLines(st, p, kw, vw) == [line];
    assert EntryBlocks(st, [p], kw, vw) == [[line]];
  }

  /** An entry whose key and value are one line each takes one line. */
  lemma OneLineEntry(st: BorderStyle, p: Pair, kw: nat, vw: nat)
    requires Lines(p.key) == [p.key] && Lines(p.value) == [p.value]
    ensures EntryHeight(p) == 1
    ensures EntryLine(st, p, kw, vw, 0) == [st.vertical] + PadLeft(p.key, kw) + [st.vertical] + PadLeft(p.value, vw) + [st.vertical]
  {
  }

  /**
   * An empty map under one-line headers: the header entry alone, between the
   * borders, in columns as wide as the headers' byte lengths (at least 1).
   */
  lemma EmptyMapWithHeaders(st: BorderStyle, keyHeader: string, valueHeader: string)
    requires Lines(keyHeader) == [keyHeader] && Lines(valueHeader) == [valueHeader]
    ensures var kw, vw := Max(1, Utf8Len(keyHeader)), Max(1, Utf8Len(valueHeader));
      FormatHashMapHeaders(st, [], keyHeader, valueHeader)
      == KvTop(st, kw, vw) + "\n" + EntryLine(st, Pair(keyHeader, valueHeader), kw, vw, 0) + "\n" + KvBottom(st, kw, vw)
  {
    EmptyWidths(keyHeader, valueHeader);
    OneLineEntry(st, Pair(keyHeader, valueHeader), Max(1, Utf8Len(keyHeader)), Max(1, Utf8Len(valueHeader)));
    EmptyMapTable(st, keyHeader, valueHeader, Max(1, Utf8Len(keyHeader)), Max(1, Utf8Len(valueHeader)));
  }

  lemma EmptyMapTable(st: BorderStyle, keyHeader: string, valueHeader: string, kw: nat, vw: nat)
    requires keyHeader != "" || valueHeader != ""
    requires kw == KeyWidth([], keyHeader) && vw == ValueWidth([], valueHeader)
    requires EntryHeight(Pair(keyHeader, valueHeader)) == 1
    ensures FormatHashMapHeaders(st, [], keyHeader, valueHeader)
         == KvTop(st, kw, vw) + "\n" + EntryLine(st, Pair(keyHeader, valueHeader), kw, vw, 0) + "\n" + KvBottom(st, kw, vw)
  {
    var header := Pair(keyHeader, valueHeader);
    assert Rows([], keyHeader, valueHeader) == [header];
    SingleEntryBody(st, header, kw, vw);
    FrameOfOne(KvTop(st, kw, vw), EntryLine(st, header, kw, vw, 0), KvBottom(st, kw, vw), BodyLines(st, [header], kw, vw));
  }

  /** Text exactly as wide as its column needs no padding. */
  lemma PadLeftExact(s: string)
    ensures PadLeft(s, |s|) == s
  {
    var r := PadLeft(s, |s|);
    assert r[|r| - |s|..] == r;
  }

  /** An empty map with the default headers: only the header entry, in columns 3 and 5 wide. */
  lemma FormatHashMapEmpty(st: BorderStyle)
    ensures FormatHashMap(st, [])
         == KvTop(st, 3, 5) + "\n" + ([st.vertical] + "Key" + [st.vertical] + "Value" + [st.vertical]) + "\n" + KvBottom(st, 3, 5)
  {
    DefaultHeaderExact(st);
    HeaderBytes();
    assert Max(1, Utf8Len("Key")) == 3 && Max(1, Utf8Len("Value")) == 5;
    EmptyMapWithHeaders(st, "Key", "Value");
  }

  /** In columns exactly 3 and 5 wide, the default header line is `Key` and `Value` unpadded. */
  lemma DefaultHeaderExact(st: BorderStyle)
    ensures Lines("Key") == ["Key"] && Lines("Value") == ["Value"]
    ensures EntryLine(st, Pair("Key", "Value"), 3, 5, 0) == [st.vertical] + "Key" + [st.vertical] + "Value" + [st.vertical]
  {
    Word("Key");
    Word("Value");
    OneLineEntry(st, Pair("Key", "Value"), 3, 5);
    PadLeftExact("Key");
    PadLeftExact("Value");
  }

  /** The map of the `format_hash_map` documentation, in the order its output lists it. */
  const Ages: seq<Pair> := [Pair("Josh", "17"), Pair("Jon", "38"), Pair("Jake", "25")]

  lemma AgesKeyTexts()
    ensures TextWidth("Josh") == 4 && TextWidth("Jon") == 3 && TextWidth("Jake") == 4
  {
    Word("Josh"); Word("Jon"); Word("Jake");
  }

  lemma AgesValueTexts()
    ensures TextWidth("17") == 2 && TextWidth("38") == 2 && TextWidth("25") == 2
  {
    Word("17"); Word("38"); Word("25");
  }

  /** A column of three texts is as wide as the widest of them and its header. */
  lemma ColumnOfThree(a: string, b: string, c: string, header: string)
    ensures ColumnBytes([a, b, c], header) == Max(Max(TextWidth(a), TextWidth(b)), Max(TextWidth(c), Utf8Len(header)))
  {
    var texts := [a, b, c];
    var r := ColumnBytes(texts, header);
    assert texts[0] == a && texts[1] == b && texts[2] == c;
    assert TextWidth(a) <= r && TextWidth(b) <= r && TextWidth(c) <= r;
    assert Utf8Len(header) <= r;
    assert r == Utf8Len(header) || r == TextWidth(a) || r == TextWidth(b) || r == TextWidth(c) by {
      if r != Utf8Len(header) {
        var j :| 0 <= j < |texts| && TextWidth(texts[j]) == r;
        assert j == 0 || j == 1 || j == 2;
      }
    }
  }

  lemma KeysValuesOfThree(p: Pair, q: Pair, r: Pair)
    ensures Keys([p, q, r]) == [p.key, q.key, r.key]
    ensures Values([p, q, r]) == [p.value, q.value, r.value]
  {
  }

  /** Measured as the code measures, the documented example gets a key column 4 wide (`Josh`, `Jake`). */
  lemma AgesKeyWidth()
    ensures KeyWidth(Ages, "Key") == 4
  {
    KeysValuesOfThree(Ages[0], Ages[1], Ages[2]);
    ColumnOfThree("Josh", "Jon", "Jake", "Key");
    AgesKeyTexts();
    HeaderBytes();
  }

  /** ... and a value column 5 wide, the width of `Value`. */
  lemma AgesValueWidth()
    ensures ValueWidth(Ages, "Value") == 5
  {
    KeysValuesOfThree(Ages[0], Ages[1], Ages[2]);
    ColumnOfThree("17", "38", "25", "Value");
    AgesValueTexts();
    HeaderBytes();
  }

  lemma NameScoreBytes()
    ensures Utf8Len("Name") == 4 && Utf8Len("Score") == 5
  {
  }

  /** Headed `Name` and `Score`, the same map gets a key column 4 wide: `Josh`, `Jake` and `Name` all take 4 bytes. */
  lemma NameKeyWidth()
    ensures KeyWidth(Ages, "Name") == 4
  {
    KeysValuesOfThree(Ages[0], Ages[1], Ages[2]);
    ColumnOfThree("Josh", "Jon", "Jake", "Name");
    AgesKeyTexts();
    NameScoreBytes();
  }

  /** ... and a value column 5 wide, the width of `Score`. */
  lemma ScoreValueWidth()
    ensures ValueWidth(Ages, "Score") == 5
  {
    KeysValuesOfThree(Ages[0], Ages[1], Ages[2]);
    ColumnOfThree("17", "38", "25", "Score");
    AgesValueTexts();
    NameScoreBytes();
  }
}
