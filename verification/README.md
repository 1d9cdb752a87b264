# borderrs in Dafny

A model of `src/lib.rs` of the `borderrs` crate, with proofs about it. The
crate draws box-drawn tables from text. A `SimpleBorderStyle` supplies eleven
glyphs. Two renderers use them:

- `format_slice` lays out a sequence of texts as one table row, one column
  per text. Every column has the same width, and the row is as tall as the
  tallest text. `format_iter`, `format_display` and `format_debug` hand their
  already-converted strings to it.
- `format_hash_map_headers` lays out key/value pairs as a two-column table:
  - one block of lines per entry;
  - a divider between consecutive blocks;
  - a header entry on top when either header is non-empty.

  `format_hash_map` calls it with the headers `Key` and `Value`.

Everything is total string and sequence arithmetic. The model is pure
functions over `string` (`seq<char>`), in these modules:

| module | file | contents |
|---|---|---|
| `Text` | `text.dfy` | The string toolkit: `Lines` (Rust's `str::lines`), `PadLeft` (`{:>w$}`), `Repeat`, `Join`, `MaxOr` (`.max().unwrap_or(d)`), and UTF-8 byte length (`str::len`). Also `JoinBlocks` and lemmas about reading joined text back. |
| `Style` | `style.dfy` | The `BorderStyle` record, plus the `THIN`, `DOUBLE` and `ASCII` glyph sets of `src/styles.rs`. |
| `RowTable` | `row_table.dfy` | `get_top_line`, `get_bottom_line`, `format_slice`, `format_display` and `format_debug`, with the height and width measurements. `format_iter` is `Render.RenderIter`. |
| `SliceLayout` | `slice_layout.dfy` | The layout theorem for `format_slice`: what every line of the output is. |
| `SliceCases` | `slice_cases.dfy` | `format_slice` on an empty slice, on only-empty entries, and on one entry (`format_display`, `format_debug`). |
| `KeyValue` | `key_value.dfy` | `format_hash_map_headers` and `format_hash_map`, with the byte-measured column widths. |
| `KvLayout` | `kv_layout.dfy` | Where entry lines and dividers sit in the body, line counts, and the header block. |
| `KvOutput` | `kv_output.dfy` | The layout theorems for the key/value table, its degenerate cases, and the crate's documented example. |
| `Render` | `render.dfy` | Both renderers written the way the code runs them: maxima found by scanning, the middle part built line by line in loops. Each is proved to return exactly the functional definition. |

Maps are modelled as a sequence of `Pair(key, value)` in the map's iteration
order. `keys()` and `values()` of one map walk the same order, and the code
zips them back together, so one sequence holds both.

Line splitting follows `str::lines`:

- the text is split at every `'\n'`;
- a trailing `'\n'` does not start an empty last line;
- one trailing `'\r'` is removed from each line;
- `""` has no lines at all.

The key/value widths use `str::len`, which counts UTF-8 bytes. The padding
inside `{:>w$}` counts characters. The model keeps both measures, as the code
does. In the key/value path a wide character can therefore make a column
wider than its widest line in characters.

Where the crate's documentation and its code disagree, the model follows the
code:

- **Example key width.** The `format_hash_map` example at
  `src/lib.rs:117-125` draws the key column five characters wide for the
  keys `Josh`, `Jon` and `Jake`. The code makes it `max(len("Jake"),
  len("Key")) = 4` wide. `KvOutput.AgesKeyWidth` proves 4.
- **Second example key width.** The `format_hash_map_headers` example at
  `src/lib.rs:152-160` draws the key column, headed ` Name`, five characters
  wide for the same keys. The code makes it `max(len("Jake"), len("Name")) =
  4` wide. `KvOutput.NameKeyWidth` proves 4.
- **Slice example.** The `format_slice` example at `src/lib.rs:81-82` shows a
  cell `today?` for the input `today`. This is not asserted.
- **Header parameter names.** The trait declares the parameters of
  `format_hash_map_headers` as `(value_header, key_header)` at
  `src/lib.rs:165-166`. The implementation binds them as `(key_header,
  value_header)` at `src/lib.rs:278-279`. Arguments bind by position to the
  implementation, so the first string heads the key column, as
  `KvOutput.FormatHashMapHeaderLine` states for `format_hash_map`.

## Model

| member | source | states |
|---|---|---|
| `Text.LineCount` | src/lib.rs:237 | `str::lines` yields one line per line feed, plus one more when the text does not end in a line feed and is not empty. |
| `Text.LinesNoNewline` | src/lib.rs:237 | No line produced by `str::lines` contains a line feed. |
| `Text.JoinLines` | src/lib.rs:237 | The lines of a text without carriage returns, joined with line feeds (plus the final line feed, if there was one), give back the text. This is the inverse of splitting. |
| `Text.LinesOfUnlines` | src/lib.rs:272 | Lines that each end in a line feed, followed by a final unterminated line, split back into exactly those lines. This is how the rendered table is read back line by line. |
| `Text.PadLeft` | src/lib.rs:265 | `{:>w$}` never truncates. The result has length `max(len(s), w)`, ends with `s`, and is spaces before it. |
| `Text.MaxOr` | src/lib.rs:240-244 | `.max().unwrap_or(d)` is an upper bound of every element and is attained by one of them; it is `d` for an empty sequence. |
| `Text.Utf8LenIsEncodingLength` | src/lib.rs:293 | `str::len` is the length of the text's UTF-8 encoding. |
| `Text.Utf8LenBounds` | src/lib.rs:291-296 | The byte length of a text lies between its character count and four times that. |
| `Text.Utf8LenAscii` | src/lib.rs:291-296 | Byte length equals character count exactly when every character is ASCII. |
| `Text.LinesUtf8Bound` | src/lib.rs:296 | No line of a text is longer in bytes than the whole text. This is why a header's own width, which is its whole byte length, covers each of its lines. |
| `RowTable.TopLine` | src/lib.rs:206-216 | The top border for `n` columns of width `w`: `top_left` first, `top_right` last, `horizontal_down` between columns, and every column `w` copies of `horizontal`. |
| `RowTable.BottomLine` | src/lib.rs:219-229 | The bottom border, with `bottom_left`, `horizontal_up` and `bottom_right`. |
| `RowTable.RowHeight` | src/lib.rs:240-244 | The row height is the largest line count of any entry, and some entry has exactly that many lines. It is 1 for an empty slice and 0 when every entry has no lines. |
| `RowTable.CellWidth` | src/lib.rs:249 | One entry's width is its longest line in characters, or 0 when it has no lines. |
| `RowTable.ColumnWidth` | src/lib.rs:247-251 | The shared column width bounds every line of every entry and is reached by one of them. It is 0 when no entry has a line, and 1 for an empty slice. |
| `RowTable.ContentLineShape` | src/lib.rs:258-270 | Content line `i`: verticals around and between the columns, and in column `j` line `i` of entry `j` right-aligned to the width (blank if the entry has no line `i`). |
| `SliceLayout.CellsFit` | src/lib.rs:247-251 | No cell line is wider than the shared column width, so padding never cuts text. |
| `SliceLayout.FormatSliceLines` | src/lib.rs:272 | The output is the table's lines separated by line feeds, with no trailing line feed, and splitting it gives back exactly those lines. |
| `SliceLayout.SliceShape` | src/lib.rs:233-273 | The table has height + 2 lines: the top border first, the bottom border last, and every line the same length as the borders. |
| `SliceLayout.SliceRow` | src/lib.rs:258-270 | Line `k + 1` of the table, just below the top border for `k = 0`, is content line `k`: each entry's line `k` right-aligned in its column, and only spaces once an entry has run out of lines. |
| `SliceLayout.FormatSliceLayout` | src/lib.rs:233-273 | The complete layout of `format_slice`: line split, borders, equal line lengths, and every content row. |
| `SliceCases.FormatSliceEmpty` | src/lib.rs:240-251 | An empty slice renders as two corners, one blank row of two verticals, and two corners. |
| `SliceCases.FormatSliceAllEmpty` | src/lib.rs:240-272 | If every entry is `""`, no content line is drawn, and the two borders hold only the joints between zero-width columns. |
| `SliceCases.SliceOfOne` | src/lib.rs:233-273 | One entry gives a box: every line of the entry right-aligned to its widest line, between verticals, under and over borders of that width. |
| `SliceCases.FormatDisplayLines` | src/lib.rs:182-184 | `format_display` puts the box of a one-entry slice around the value's display text. |
| `SliceCases.FormatDebugLines` | src/lib.rs:199-201 | `format_debug` puts the same box around the value's debug text. |
| `Render.MaxScan` | src/lib.rs:240-244 | A left-to-right scan for the maximum returns the `.max().unwrap_or(d)` value. |
| `Render.SliceHeight` | src/lib.rs:240-244 | Scanning the entries' line counts gives the row height. |
| `Render.SliceWidth` | src/lib.rs:247-251 | Scanning each entry's line lengths, then the entries, gives the column width. |
| `Render.AppendLines` | src/lib.rs:257-270 | Appending each line followed by a line feed builds `middle` as the line-feed-terminated sequence of the lines. |
| `Render.RenderSlice` | src/lib.rs:233-273 | The loop-based `format_slice` produces exactly the table described by the functional model. |
| `Render.RenderIter` | src/lib.rs:94-96 | `format_iter` collects the items in iteration order and renders the same table as `format_slice` on them. |
| `Render.TextWidths` | src/lib.rs:291-293 | Each text's width is its longest line in bytes, or 1 when it has no lines. |
| `Render.ColumnScan` | src/lib.rs:291-296 | The scanned column width equals the model's column width in bytes. |
| `Render.AppendBlocks` | src/lib.rs:344-372 | The nested loop writes every block's lines, with a divider after every block but the last. |
| `Render.RenderHashMap` | src/lib.rs:275-375 | The loop-based `format_hash_map_headers` produces exactly the table described by the functional model. |
| `KeyValue.TextWidth` | src/lib.rs:293 | A key's or value's width is the byte length of its longest line (attained by some line), or 1 when it has no lines. |
| `KeyValue.ColumnBytes` | src/lib.rs:291-309 | A column is at least as wide as the whole header in bytes, and as every text in it. It is reached by the header or by one text. It is `max(1, len(header))` when there are no texts. |
| `KvLayout.EntryLinesCover` | src/lib.rs:347-358 | An entry takes as many lines as the taller of its key and value: each side's line count is at most the entry's height, and one side's equals it. When the entry fits its columns, every line is `key_width + val_width + 3` long. Their contents are given by `KvOutput.KvEntryRow`. |
| `KvLayout.RuleShape` | src/lib.rs:312-329 | A horizontal rule is a left glyph, `key_width` fills, a middle glyph, `val_width` fills and a right glyph. |
| `KvLayout.EntryLineShape` | src/lib.rs:350-357 | An entry line is three verticals around the key line right-aligned to `key_width` and the value line right-aligned to `val_width`. |
| `KvLayout.HeaderWithin` | src/lib.rs:296 | A header no longer in bytes than the column has no line longer than the column in characters. |
| `KvLayout.RowsFit` | src/lib.rs:291-309 | Every line of every key, value and header is within its column width in characters, so no cell is cut. |
| `KvLayout.BodyEntryLine` | src/lib.rs:345-358 | Line `i` of entry `j` sits at entry `j`'s block start plus `i` in the body. |
| `KvLayout.BodyDivider` | src/lib.rs:360-371 | A divider follows entry `j` directly, for every entry but the last. |
| `KvLayout.BodyBlocksContiguous` | src/lib.rs:345-372 | Entry `j + 1` starts right after entry `j`'s lines and its divider. |
| `KvLayout.BodyCount` | src/lib.rs:344-372 | The body has one line per entry line, plus one divider between each pair of consecutive entries (none for no entries). |
| `KvLayout.HeaderBlock` | src/lib.rs:337-342 | With a non-empty header, the body is the header entry's lines, then (if the map has entries) a divider and the map's own body. |
| `KvOutput.KvOutputLines` | src/lib.rs:374 | The output is the top border, the body lines and the bottom border separated by line feeds, and splitting it gives back exactly those lines. |
| `KvOutput.KvLineLengths` | src/lib.rs:275-375 | Every line of the key/value table has `key_width + val_width + 3` characters. |
| `KvOutput.KvEntryRow` | src/lib.rs:345-358 | The table line for line `i` of entry `j` shows each side's line `i`, right-aligned in its column, or a blank cell once that side has run out of lines. |
| `KvOutput.KvDividerRow` | src/lib.rs:360-371 | After every entry but the last, the table line is the divider: `vertical_right`, fills, `cross`, fills, `vertical_left`. |
| `KvOutput.KvBorders` | src/lib.rs:312-329 | The first line is the top border and the last is the bottom border, each over both column widths. |
| `KvOutput.KvHeaderLines` | src/lib.rs:337-342 | With either header non-empty, the header entry's lines come right after the top border, followed by a divider when the map has entries. |
| `KvOutput.FormatHashMapHeaderLine` | src/lib.rs:127-129 | `format_hash_map` puts `Key` in the left column and `Value` in the right. The columns are at least 3 and 5 wide. |
| `KvOutput.KvEmpty` | src/lib.rs:291-374 | An empty map with both headers empty renders as just the two borders and no body. Each border is five characters: corner, one fill, joint, one fill, corner (`┌─┬─┐` and `└─┴─┘` in the thin style). |
| `KvOutput.EmptyWidths` | src/lib.rs:291-309 | With no entries, each column is as wide as its header in bytes, and at least 1. |
| `KvOutput.EmptyMapWithHeaders` | src/lib.rs:338-374 | An empty map with two non-empty one-line headers renders as the top border, the header line and the bottom border. A header pair with exactly one empty side, such as `("", "Score")`, is covered by `KvOutput.KvHeaderLines` instead. |
| `KvOutput.FormatHashMapEmpty` | src/lib.rs:127-129 | `format_hash_map` of an empty map is a 3-by-5 table holding only the `Key`/`Value` header line. |
| `KvOutput.AgesKeyWidth` | src/lib.rs:304-309 | For the documented map of `Josh`, `Jon` and `Jake`, the key column is 4 wide. |
| `KvOutput.AgesValueWidth` | src/lib.rs:291-296 | For the documented map with values 17, 38 and 25, the value column is 5 wide, the width of the header `Value`. |
| `KvOutput.NameKeyWidth` | src/lib.rs:304-309 | Headed `Name`, the documented map's key column is 4 wide, not the 5 of the example drawing. |
| `KvOutput.ScoreValueWidth` | src/lib.rs:291-296 | Headed `Score`, the documented map's value column is 5 wide, the width of `Score`. |

## Left out

- The `Display` and `Debug` conversions (`format!("{}", v)`, `format!("{:?}", v)`) are library trait implementations. The model takes the already-converted strings as input.
- The `HashMap` itself: hashing and iteration order are not modelled. A map is a sequence of pairs in whatever order the map yields them, and no particular row order is asserted.
- `src/styles.rs` holds constant data only. Its three styles appear as `Style.Thin`, `Style.Double` and `Style.Ascii`, and the only property stated about them is that no glyph is a line break.
- `examples/example1.rs` is a demonstration program that prints to standard output. It is not part of this model.
- The generic plumbing (`impl Display`, `impl AsRef<str>`, dispatch through the `BorderFormatter` trait's default methods) is left out. One concrete style record stands for `self`.
- `Text.Lines` follows the `str::lines` behaviour that strips a trailing `'\r'` from every piece. Since Rust 1.77 an unterminated last piece keeps a lone trailing `'\r'`. That one difference is not modelled.
- The properties about the layout of the rendered lines (`SliceLayout.FormatSliceLines`, `KvOutput.KvOutputLines`, `SliceCases.SliceOfOne` and the display/debug lemmas) require a style whose glyphs are not line breaks, which holds for all three built-in styles (`Style.BuiltInStylesHaveNoLineBreaks`). A style with a `'\n'` glyph still renders by the same functions, but its output does not split back into table lines.
- `Render.RenderSlice` and `Render.RenderHashMap` build each content or entry line with the functional definitions (`ContentLine`, `EntryLine`) and loop only over whole lines and blocks. They do not re-derive each line character by character inside the loop.
- `usize` arithmetic: widths and heights are unbounded naturals. `entries.len() - 1` at `src/lib.rs:361` runs only inside the loop, where it cannot underflow, so nothing is lost.
