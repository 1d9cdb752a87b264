/**
 * The key/value renderer (`format_hash_map_headers` and `format_hash_map`):
 * a two-column table with the keys on the left and the values on the right,
 * one block of lines per entry, a divider between consecutive blocks, and an
 * optional header entry on top. Column widths are measured in UTF-8 bytes
 * (`str::len`), while padding counts characters.
 */
module KeyValue {
  import opened Text
  import opened Style

  /** One map entry after both sides have been converted to text. */
  datatype Pair = Pair(key: string, value: string)

  /** The keys, in the map's iteration order. */
  function Keys(m: seq<Pair>): (ks: seq<string>)
    ensures |ks| == |m|
    ensures forall j :: 0 <= j < |m| ==> ks[j] == m[j].key
  {
    seq(|m|, j requires 0 <= j < |m| => m[j].key)
  }

  /** The values, in the same order as the keys. */
  function Values(m: seq<Pair>): (vs: seq<string>)
    ensures |vs| == |m|
    ensures forall j :: 0 <= j < |m| ==> vs[j] == m[j].value
  {
    seq(|m|, j requires 0 <= j < |m| => m[j].value)
  }

  // ---------------------------------------------------------------------------
  // Column widths
  // ---------------------------------------------------------------------------

  /** Byte lengths of the lines of `s`, in order. */
  function LineBytes(s: string): (bs: seq<nat>)
    ensures |bs| == |Lines(s)|
    ensures forall k :: 0 <= k < |bs| ==> bs[k] == Utf8Len(Lines(s)[k])
  {
    var ls := Lines(s);
    seq(|ls|, k requires 0 <= k < |ls| => Utf8Len(ls[k]))
  }

  /**
   * The width one key or value asks for: its longest line in UTF-8 bytes, or
   * 1 when it has no lines at all.
   */
  function TextWidth(s: string): (r: nat)
    ensures forall k :: 0 <= k < |Lines(s)| ==> Utf8Len(Lines(s)[k]) <= r
    ensures Lines(s) == [] ==> r == 1
    ensures Lines(s) != [] ==> exists k :: 0 <= k < |Lines(s)| && Utf8Len(Lines(s)[k]) == r
  {
    MaxOr(LineBytes(s), 1)
  }

  /**
   * The width of one column: the widest of its texts (1 when there are none),
   * widened to the byte length of the whole header.
   */
  function ColumnBytes(texts: seq<string>, header: string): (r: nat)
    ensures Utf8Len(header) <= r
    ensures forall j :: 0 <= j < |texts| ==> TextWidth(texts[j]) <= r
    ensures texts == [] ==> r == Max(1, Utf8Len(header))
    ensures texts != [] ==> r == Utf8Len(header) || exists j :: 0 <= j < |texts| && TextWidth(texts[j]) == r
  {
    var widths := seq(|texts|, j requires 0 <= j < |texts| => TextWidth(texts[j]));
    assert forall j :: 0 <= j < |texts| ==> widths[j] == TextWidth(texts[j]);
    Max(MaxOr(widths, 1), Utf8Len(header))
  }

  /** `key_width`. */
  function KeyWidth(m: seq<Pair>, keyHeader: string): nat
  {
    ColumnBytes(Keys(m), keyHeader)
  }

  /** `val_width`. */
  function ValueWidth(m: seq<Pair>, valueHeader: string): nat
  {
    ColumnBytes(Values(m), valueHeader)
  }

  // ---------------------------------------------------------------------------
  // Lines of the table
  // ---------------------------------------------------------------------------

  /** `left`, `kw` fills, `mid`, `vw` fills, `right`: the shape of every horizontal rule. */
  function Rule(left: char, fill: char, mid: char, right: char, kw: nat, vw: nat): string
  {
    [left] + Repeat(fill, kw) + [mid] + Repeat(fill, vw) + [right]
  }

  /** The top border. */
  function KvTop(st: BorderStyle, kw: nat, vw: nat): string
  {
    Rule(st.topLeft, st.horizontal, st.horizontalDown, st.topRight, kw, vw)
  }

  /** The bottom border. */
  function KvBottom(st: BorderStyle, kw: nat, vw: nat): string
  {
    Rule(st.bottomLeft, st.horizontal, st.horizontalUp, st.bottomRight, kw, vw)
  }

  /** The divider drawn after every entry but the last. */
  function Divider(st: BorderStyle, kw: nat, vw: nat): string
  {
    Rule(st.verticalRight, st.horizontal, st.cross, st.verticalLeft, kw, vw)
  }

  /** Lines an entry takes: as many as the taller of its two sides. */
  function EntryHeight(p: Pair): nat
  {
    Max(|Lines(p.key)|, |Lines(p.value)|)
  }

  /** Line `i` of an entry: its key line and value line, each right-aligned, between verticals. */
  function EntryLine(st: BorderStyle, p: Pair, kw: nat, vw: nat, i: nat): string
  {
    [st.vertical] + PadLeft(NthOr(Lines(p.key), i), kw)
      + [st.vertical] + PadLeft(NthOr(Lines(p.value), i), vw)
      + [st.vertical]
  }

  /** All lines of one entry. */
  function EntryLines(st: BorderStyle, p: Pair, kw: nat, vw: nat): (ls: seq<string>)
    ensures |ls| == EntryHeight(p)
    ensures forall i :: 0 <= i < |ls| ==> ls[i] == EntryLine(st, p, kw, vw, i)
  {
    seq(EntryHeight(p), i requires 0 <= i < EntryHeight(p) => EntryLine(st, p, kw, vw, i))
  }

  /** The entries the table shows: the header entry first when either header is non-empty. */
  function Rows(m: seq<Pair>, keyHeader: string, valueHeader: string): seq<Pair>
  {
    if keyHeader != "" || valueHeader != "" then [Pair(keyHeader, valueHeader)] + m else m
  }

  /** The lines of every entry shown, one block per entry. */
  function EntryBlocks(st: BorderStyle, rows: seq<Pair>, kw: nat, vw: nat): (blocks: seq<seq<string>>)
    ensures |blocks| == |rows|
    ensures forall j :: 0 <= j < |rows| ==> blocks[j] == EntryLines(st, rows[j], kw, vw)
  {
    seq(|rows|, j requires 0 <= j < |rows| => EntryLines(st, rows[j], kw, vw))
  }

  /** The lines between the borders: every entry's lines, a divider between consecutive entries. */
  function BodyLines(st: BorderStyle, rows: seq<Pair>, kw: nat, vw: nat): seq<string>
  {
    JoinBlocks(EntryBlocks(st, rows, kw, vw), Divider(st, kw, vw))
  }

  /** `format_hash_map_headers`: the first header names the key column, the second the value column. */
  function FormatHashMapHeaders(st: BorderStyle, m: seq<Pair>, keyHeader: string, valueHeader: string): string
  {
    var kw := KeyWidth(m, keyHeader);
    var vw := ValueWidth(m, valueHeader);
    KvTop(st, kw, vw) + "\n" + Unlines(BodyLines(st, Rows(m, keyHeader, valueHeader), kw, vw)) + KvBottom(st, kw, vw)
  }

  /** `format_hash_map`: headers `Key` and `Value`. */
  function FormatHashMap(st: BorderStyle, m: seq<Pair>): string
  {
    FormatHashMapHeaders(st, m, "Key", "Value")
  }

  /** The table as a list of lines: top border, body, bottom border. */
  function KvLines(st: BorderStyle, m: seq<Pair>, keyHeader: string, valueHeader: string): seq<string>
  {
    var kw := KeyWidth(m, keyHeader);
    var vw := ValueWidth(m, valueHeader);
    [KvTop(st, kw, vw)] + BodyLines(st, Rows(m, keyHeader, valueHeader), kw, vw) + [KvBottom(st, kw, vw)]
  }
}
