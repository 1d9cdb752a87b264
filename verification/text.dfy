/**
 * String and sequence helpers that the table formatter is built from:
 * Rust's `str::lines`, `char::repeat`, right-aligned `{:>w$}` padding,
 * `join`, `max().unwrap_or(d)` and `str::len` (the UTF-8 byte count).
 */
module Text {

  /** `n` copies of `c`: Rust's `c.to_string().repeat(n)`. */
  function Repeat(c: char, n: nat): (r: string)
    ensures |r| == n
    ensures forall i :: 0 <= i < n ==> r[i] == c
  {
    seq(n, _ => c)
  }

  /**
   * `format!("{:>w$}", s)`: right-aligns `s` in a field of `w` characters by
   * putting spaces in front of it; a longer `s` is never truncated.
   */
  function PadLeft(s: string, w: nat): (r: string)
    ensures |r| == if |s| < w then w else |s|
    ensures r[|r| - |s|..] == s
    ensures forall i :: 0 <= i < |r| - |s| ==> r[i] == ' '
  {
    if |s| < w then Repeat(' ', w - |s|) + s else s
  }

  /** `parts.join(sep)`. */
  function Join(parts: seq<string>, sep: string): string
  {
    if |parts| == 0 then []
    else if |parts| == 1 then parts[0]
    else parts[0] + sep + Join(parts[1..], sep)
  }

  /** The lines `ls`, each followed by a line feed (how the renderers build their middle part). */
  function Unlines(ls: seq<string>): string
  {
    if ls == [] then [] else ls[0] + "\n" + Unlines(ls[1..])
  }

  /** `iter.nth(i).unwrap_or("")`: the `i`-th line, or the empty string past the end. */
  function NthOr(ls: seq<string>, i: nat): string
  {
    if i < |ls| then ls[i] else ""
  }

  /** `iter.max().unwrap_or(d)`. */
  function MaxOr(xs: seq<nat>, d: nat): (m: nat)
    ensures xs == [] ==> m == d
    ensures forall i :: 0 <= i < |xs| ==> xs[i] <= m
    ensures xs != [] ==> exists i :: 0 <= i < |xs| && xs[i] == m
  {
    if |xs| == 0 then d
    else if |xs| == 1 then xs[0]
    else
      var rest := MaxOr(xs[1..], d);
      assert forall i :: 1 <= i < |xs| ==> xs[i] == xs[1..][i - 1];
      if xs[0] < rest then rest else xs[0]
  }

  function Max(a: nat, b: nat): nat
  {
    if a < b then b else a
  }

  // ---------------------------------------------------------------------------
  // Line splitting
  // ---------------------------------------------------------------------------

  /** Index of the first `c` in `s`, or `|s|` when there is none. */
  function FirstIndex(s: string, c: char): (i: nat)
    ensures i <= |s|
    ensures forall j :: 0 <= j < i ==> s[j] != c
    ensures i < |s| ==> s[i] == c
  {
    if s == [] then 0
    else if s[0] == c then 0
    else 1 + FirstIndex(s[1..], c)
  }

  predicate EndsWithCR(s: string)
  {
    |s| > 0 && s[|s| - 1] == '\r'
  }

  /** Drops one trailing carriage return. */
  function StripCR(s: string): (r: string)
    ensures EndsWithCR(s) ==> r + "\r" == s
    ensures !EndsWithCR(s) ==> r == s
  {
    if EndsWithCR(s) then s[..|s| - 1] else s
  }

  /**
   * Rust's `str::lines`: the pieces between line feeds, each without one
   * trailing carriage return; a final line feed does not start an empty
   * last line, and the empty string has no lines at all.
   */
  function Lines(s: string): seq<string>
    decreases |s|
  {
    if s == [] then []
    else
      var i := FirstIndex(s, '\n');
      if i == |s| then [StripCR(s)]
      else [StripCR(s[..i])] + Lines(s[i + 1..])
  }

  /** Number of occurrences of `c` in `s`. */
  function Count(s: string, c: char): nat
  {
    if s == [] then 0 else (if s[0] == c then 1 else 0) + Count(s[1..], c)
  }

  lemma CountAppend(a: string, b: string, c: char)
    ensures Count(a + b, c) == Count(a, c) + Count(b, c)
  {
    if a != [] {
      assert (a + b)[0] == a[0];
      assert (a + b)[1..] == a[1..] + b;
      CountAppend(a[1..], b, c);
    } else {
      assert a + b == b;
    }
  }

  lemma CountAbsent(s: string, c: char)
    requires forall j :: 0 <= j < |s| ==> s[j] != c
    ensures Count(s, c) == 0
  {
  }

  /** Splitting at a first line feed that follows `a`. */
  lemma {:induction false} LinesCons(a: string, rest: string)
    requires '\n' !in a
    ensures Lines(a + "\n" + rest) == [StripCR(a)] + Lines(rest)
  {
    var s := a + "\n" + rest;
    var i := FirstIndex(s, '\n');
    assert s[|a|] == '\n';
    assert i == |a|;
    assert s[..i] == a;
    assert s[i + 1..] == rest;
  }

  /** A non-empty piece without line feeds is one line. */
  lemma {:induction false} LinesSingle(a: string)
    requires a != [] && '\n' !in a
    ensures Lines(a) == [StripCR(a)]
  {
    var i := FirstIndex(a, '\n');
    assert i == |a|;
  }

  /** No line contains a line feed. */
  lemma {:induction false} LinesNoNewline(s: string)
    ensures forall k :: 0 <= k < |Lines(s)| ==> '\n' !in Lines(s)[k]
    decreases |s|
  {
    if s != [] {
      var i := FirstIndex(s, '\n');
      if i == |s| {
        assert '\n' !in s;
      } else {
        assert '\n' !in s[..i];
        LinesNoNewline(s[i + 1..]);
      }
    }
  }

  /**
   * The number of lines is the number of line feeds, plus one for an
   * unterminated last line.
   */
  lemma {:induction false} LineCount(s: string)
    ensures |Lines(s)| == Count(s, '\n') + (if s != [] && s[|s| - 1] != '\n' then 1 else 0)
    decreases |s|
  {
    if s != [] {
      var i := FirstIndex(s, '\n');
      if i == |s| {
        CountAbsent(s, '\n');
      } else {
        var a, rest := s[..i], s[i + 1..];
        assert s == a + ("\n" + rest);
        CountAbsent(a, '\n');
        CountAppend(a, "\n" + rest, '\n');
        assert ("\n" + rest)[1..] == rest;
        assert Count(s, '\n') == 1 + Count(rest, '\n');
        assert Lines(s) == [StripCR(a)] + Lines(rest);
        LineCount(rest);
        if rest != [] {
          assert s[|s| - 1] == rest[|rest| - 1];
        }
      }
    }
  }

  lemma JoinCons(a: string, tail: seq<string>, sep: string)
    ensures Join([a] + tail, sep) == if tail == [] then a else a + sep + Join(tail, sep)
  {
    if tail != [] {
      assert ([a] + tail)[1..] == tail;
    }
  }

  /**
   * With no carriage returns in `s`, joining its lines with line feeds gives
   * `s` back, up to the one final line feed that `Lines` drops.
   */
  lemma {:induction false} JoinLines(s: string)
    requires '\r' !in s
    ensures Join(Lines(s), "\n") + (if s != [] && s[|s| - 1] == '\n' then "\n" else "") == s
    decreases |s|, 2
  {
    if s != [] {
      var i := FirstIndex(s, '\n');
      if i == |s| {
        assert Lines(s) == [s] by {
          assert !EndsWithCR(s);
        }
      } else {
        JoinLinesAt(s, i);
      }
    }
  }

  /** `JoinLines` for an `s` whose first line feed is at `i`. */
  lemma {:induction false} JoinLinesAt(s: string, i: nat)
    requires '\r' !in s
    requires i < |s| && i == FirstIndex(s, '\n')
    ensures Join(Lines(s), "\n") + (if s[|s| - 1] == '\n' then "\n" else "") == s
    decreases |s|, 1
  {
    var a, rest := s[..i], s[i + 1..];
    assert s == a + "\n" + rest;
    assert '\n' !in a && !EndsWithCR(a) by {
      assert forall j :: 0 <= j < |a| ==> a[j] == s[j];
    }
    assert '\r' !in rest by {
      assert forall j :: 0 <= j < |rest| ==> rest[j] == s[i + 1 + j];
    }
    assert Lines(s) == [a] + Lines(rest) by {
      LinesCons(a, rest);
    }
    JoinLinesStep(s, a, rest);
  }

  lemma {:induction false} JoinLinesStep(s: string, a: string, rest: string)
    requires s == a + "\n" + rest
    requires '\r' !in rest && '\n' !in a && !EndsWithCR(a)
    requires Lines(s) == [a] + Lines(rest)
    ensures Join(Lines(s), "\n") + (if s[|s| - 1] == '\n' then "\n" else "") == s
    decreases |rest| + 1, 0
  {
    var tail := Lines(rest);
    if rest == [] {
      assert Join(Lines(s), "\n") == a by {
        JoinCons(a, tail, "\n");
      }
      assert s[|s| - 1] == '\n';
    } else {
      var suffix := if rest[|rest| - 1] == '\n' then "\n" else "";
      assert Join(tail, "\n") + suffix == rest by {
        JoinLines(rest);
      }
      assert Join(Lines(s), "\n") == a + "\n" + Join(tail, "\n") by {
        assert tail != [];
        JoinCons(a, tail, "\n");
      }
      assert s[|s| - 1] == rest[|rest| - 1];
    }
  }

  /**
   * Round trip the other way: lines that hold no line feed and do not end in a
   * carriage return, written out each with its line feed and followed by an
   * unterminated `last` line, split back into exactly those lines.
   */
  lemma {:induction false} LinesOfUnlines(ls: seq<string>, last: string)
    requires forall k :: 0 <= k < |ls| ==> '\n' !in ls[k] && !EndsWithCR(ls[k])
    requires last != [] && '\n' !in last && !EndsWithCR(last)
    ensures Lines(Unlines(ls) + last) == ls + [last]
    decreases |ls|
  {
    if ls == [] {
      assert Unlines(ls) + last == last;
      LinesSingle(last);
    } else {
      var rest := Unlines(ls[1..]) + last;
      assert Unlines(ls) + last == ls[0] + "\n" + rest;
      assert Lines(ls[0] + "\n" + rest) == [ls[0]] + Lines(rest) by {
        LinesCons(ls[0], rest);
      }
      assert Lines(rest) == ls[1..] + [last] by {
        LinesOfUnlines(ls[1..], last);
      }
      assert [ls[0]] + (ls[1..] + [last]) == ls + [last];
    }
  }

  /** `s` is one physical line: no line feed, and no carriage return at its end. */
  predicate OneLine(s: string)
  {
    '\n' !in s && !EndsWithCR(s)
  }

  /**
   * A first line, terminated middle lines and an unterminated non-empty last
   * line split back into exactly those lines.
   */
  lemma LinesOfFrame(first: string, middle: seq<string>, last: string)
    requires OneLine(first) && last != [] && OneLine(last)
    requires forall k :: 0 <= k < |middle| ==> OneLine(middle[k])
    ensures Lines(first + "\n" + Unlines(middle) + last) == [first] + middle + [last]
  {
    var ls := [first] + middle;
    assert ls[1..] == middle;
    assert Unlines(ls) + last == first + "\n" + Unlines(middle) + last;
    LinesOfUnlines(ls, last);
  }

  /** A body of one line between two borders. */
  lemma FrameOfOne(top: string, line: string, bottom: string, body: seq<string>)
    requires body == [line]
    ensures top + "\n" + Unlines(body) + bottom == top + "\n" + line + "\n" + bottom
  {
    assert Unlines(body) == line + "\n";
  }

  /** Writing out one more line appends it and its line feed. */
  lemma UnlinesSnoc(ls: seq<string>, line: string)
    ensures Unlines(ls + [line]) == Unlines(ls) + line + "\n"
  {
    UnlinesAppend(ls, [line]);
    assert Unlines([line]) == line + "\n";
  }

  /** An empty body between two borders. */
  lemma EmptyFrame(top: string, bottom: string, body: seq<string>)
    requires body == []
    ensures top + "\n" + Unlines(body) + bottom == top + "\n" + bottom
  {
  }

  /** Writing out two runs of lines is writing out their concatenation. */
  lemma {:induction false} UnlinesAppend(a: seq<string>, b: seq<string>)
    ensures Unlines(a + b) == Unlines(a) + Unlines(b)
    decreases |a|
  {
    if a == [] {
      assert a + b == b;
    } else {
      assert (a + b)[0] == a[0];
      assert (a + b)[1..] == a[1..] + b;
      UnlinesAppend(a[1..], b);
    }
  }

  // ---------------------------------------------------------------------------
  // Lengths of joined pieces
  // ---------------------------------------------------------------------------

  /** Where the `j`-th piece starts when pieces of width `w` are joined with one separator. */
  function Offset(j: nat, w: nat): nat
  {
    if j == 0 then 0 else Offset(j - 1, w) + w + 1
  }

  /** Each piece ends, and its separator follows, before the next one starts. */
  lemma {:induction false} OffsetGrows(k: nat, j: nat, w: nat)
    requires k < j
    ensures Offset(k, w) + w + 1 <= Offset(j, w)
    decreases j
  {
    if k < j - 1 {
      OffsetGrows(k, j - 1, w);
    }
  }

  /** A character absent from every piece and from the separator is absent from the join. */
  lemma {:induction false} JoinAvoids(parts: seq<string>, sep: string, c: char)
    requires c !in sep
    requires forall j :: 0 <= j < |parts| ==> c !in parts[j]
    ensures c !in Join(parts, sep)
    decreases |parts|
  {
    if |parts| > 1 {
      JoinAvoids(parts[1..], sep, c);
    }
  }

  /**
   * Joining `n > 0` pieces of `w` characters each with a one-character
   * separator gives `Offset(n, w) - 1` characters.
   */
  lemma {:induction false} JoinUniformLength(parts: seq<string>, sep: char, w: nat)
    requires forall j :: 0 <= j < |parts| ==> |parts[j]| == w
    ensures |Join(parts, [sep])| == if parts == [] then 0 else Offset(|parts|, w) - 1
    decreases |parts|
  {
    if |parts| > 1 {
      JoinUniformLength(parts[1..], sep, w);
    }
  }

  lemma {:induction false} JoinUniformPiece(parts: seq<string>, sep: char, w: nat, j: nat, t: nat)
    requires forall i :: 0 <= i < |parts| ==> |parts[i]| == w
    requires j < |parts| && t < w
    ensures Offset(j, w) + t < |Join(parts, [sep])|
    ensures Join(parts, [sep])[Offset(j, w) + t] == parts[j][t]
    decreases |parts|
  {
    JoinUniformLength(parts, sep, w);
    if |parts| > 1 {
      var rest := Join(parts[1..], [sep]);
      assert Join(parts, [sep]) == parts[0] + [sep] + rest;
      if j > 0 {
        JoinUniformPiece(parts[1..], sep, w, j - 1, t);
        assert parts[1..][j - 1] == parts[j];
      }
    }
  }

  /** Slice form of `JoinUniformPiece`: piece `j` sits at `Offset(j, w)`. */
  lemma JoinPiece(parts: seq<string>, sep: char, w: nat, j: nat)
    requires forall i :: 0 <= i < |parts| ==> |parts[i]| == w
    requires j < |parts|
    ensures Offset(j, w) + w <= |Join(parts, [sep])|
    ensures Join(parts, [sep])[Offset(j, w)..Offset(j, w) + w] == parts[j]
  {
    JoinUniformLength(parts, sep, w);
    if j + 1 < |parts| {
      OffsetGrows(j, |parts|, w);
    }
    var r := Join(parts, [sep]);
    forall t | 0 <= t < w
      ensures r[Offset(j, w)..Offset(j, w) + w][t] == parts[j][t]
    {
      JoinUniformPiece(parts, sep, w, j, t);
    }
  }

  lemma {:induction false} JoinUniformSeparator(parts: seq<string>, sep: char, w: nat, j: nat)
    requires forall i :: 0 <= i < |parts| ==> |parts[i]| == w
    requires 1 <= j < |parts|
    ensures 0 <= Offset(j, w) - 1 < |Join(parts, [sep])|
    ensures Join(parts, [sep])[Offset(j, w) - 1] == sep
    decreases |parts|
  {
    JoinUniformLength(parts, sep, w);
    var rest := Join(parts[1..], [sep]);
    assert Join(parts, [sep]) == parts[0] + [sep] + rest;
    if j > 1 {
      JoinUniformSeparator(parts[1..], sep, w, j - 1);
    }
  }

  // ---------------------------------------------------------------------------
  // Blocks separated by a divider
  // ---------------------------------------------------------------------------

  /** The blocks in order, one `sep` between each two consecutive blocks. */
  function JoinBlocks<T>(blocks: seq<seq<T>>, sep: T): seq<T>
  {
    if blocks == [] then []
    else if |blocks| == 1 then blocks[0]
    else blocks[0] + [sep] + JoinBlocks(blocks[1..], sep)
  }

  /** Index in `JoinBlocks(blocks, sep)` where block `j` starts. */
  function BlockStart<T>(blocks: seq<seq<T>>, j: nat): nat
    requires j <= |blocks|
  {
    if j == 0 then 0 else |blocks[0]| + 1 + BlockStart(blocks[1..], j - 1)
  }

  /** Total length of all blocks. */
  function TotalLength<T>(blocks: seq<seq<T>>): nat
  {
    if blocks == [] then 0 else |blocks[0]| + TotalLength(blocks[1..])
  }

  /** Each block starts one separator after the end of the previous one. */
  lemma {:induction false} BlockStartNext<T>(blocks: seq<seq<T>>, j: nat)
    requires j < |blocks|
    ensures BlockStart(blocks, j + 1) == BlockStart(blocks, j) + |blocks[j]| + 1
    decreases j
  {
    if j > 0 {
      BlockStartNext(blocks[1..], j - 1);
    }
  }

  lemma IndexLeft<T>(a: seq<T>, d: T, b: seq<T>, k: nat)
    requires k < |a|
    ensures (a + [d] + b)[k] == a[k]
  {
  }

  lemma IndexRight<T>(a: seq<T>, d: T, b: seq<T>, k: nat)
    requires k < |b|
    ensures (a + [d] + b)[|a| + 1 + k] == b[k]
  {
  }

  /** Element `k` of a framed sequence, for `1 <= k <= |middle|`, comes from the middle. */
  lemma IndexMiddle<T>(first: T, middle: seq<T>, last: T, k: nat)
    requires 1 <= k <= |middle|
    ensures ([first] + middle + [last])[k] == middle[k - 1]
  {
  }

  /** The frame's first and last elements. */
  lemma FrameEnds<T>(first: T, middle: seq<T>, last: T)
    ensures ([first] + middle + [last])[0] == first
    ensures ([first] + middle + [last])[|middle| + 1] == last
  {
  }

  /** A frame whose three parts are all made of sequences of length `len`. */
  lemma FramedLengths<T>(first: seq<T>, middle: seq<seq<T>>, last: seq<T>, len: nat)
    requires |first| == len && |last| == len
    requires forall k :: 0 <= k < |middle| ==> |middle[k]| == len
    ensures forall k :: 0 <= k < |[first] + middle + [last]| ==> |([first] + middle + [last])[k]| == len
  {
    forall k | 0 <= k < |[first] + middle + [last]|
      ensures |([first] + middle + [last])[k]| == len
    {
      if 1 <= k <= |middle| {
        IndexMiddle(first, middle, last, k);
      } else {
        FrameEnds(first, middle, last);
      }
    }
  }

  /** The blocks and one separator fewer than there are blocks. */
  lemma {:induction false} JoinBlocksLength<T>(blocks: seq<seq<T>>, sep: T)
    ensures |JoinBlocks(blocks, sep)| == TotalLength(blocks) + (if blocks == [] then 0 else |blocks| - 1)
    ensures blocks != [] ==> |JoinBlocks(blocks, sep)| + 1 == BlockStart(blocks, |blocks|)
    decreases |blocks|
  {
    if |blocks| > 1 {
      JoinBlocksLength(blocks[1..], sep);
    }
  }

  /** Element `i` of block `j` sits at `BlockStart(blocks, j) + i`. */
  lemma {:induction false} JoinBlocksPiece<T>(blocks: seq<seq<T>>, sep: T, j: nat, i: nat)
    requires j < |blocks| && i < |blocks[j]|
    ensures BlockStart(blocks, j) + i < |JoinBlocks(blocks, sep)|
    ensures JoinBlocks(blocks, sep)[BlockStart(blocks, j) + i] == blocks[j][i]
    decreases j
  {
    if |blocks| > 1 {
      var tail := JoinBlocks(blocks[1..], sep);
      assert JoinBlocks(blocks, sep) == blocks[0] + [sep] + tail;
      if j == 0 {
        IndexLeft(blocks[0], sep, tail, i);
      } else {
        assert blocks[1..][j - 1] == blocks[j];
        JoinBlocksPiece(blocks[1..], sep, j - 1, i);
        IndexRight(blocks[0], sep, tail, BlockStart(blocks[1..], j - 1) + i);
      }
    }
  }

  /** Right after every block but the last comes the separator. */
  lemma {:induction false} JoinBlocksSeparator<T>(blocks: seq<seq<T>>, sep: T, j: nat)
    requires j + 1 < |blocks|
    ensures BlockStart(blocks, j) + |blocks[j]| < |JoinBlocks(blocks, sep)|
    ensures JoinBlocks(blocks, sep)[BlockStart(blocks, j) + |blocks[j]|] == sep
    decreases j
  {
    var tail := JoinBlocks(blocks[1..], sep);
    assert JoinBlocks(blocks, sep) == blocks[0] + [sep] + tail;
    if j > 0 {
      assert blocks[1..][j - 1] == blocks[j];
      JoinBlocksSeparator(blocks[1..], sep, j - 1);
      IndexRight(blocks[0], sep, tail, BlockStart(blocks[1..], j - 1) + |blocks[j]|);
    }
  }

  /** Every element of the joined sequence is the separator or an element of some block. */
  lemma {:induction false} JoinBlocksMember<T>(blocks: seq<seq<T>>, sep: T, k: nat)
    requires k < |JoinBlocks(blocks, sep)|
    ensures JoinBlocks(blocks, sep)[k] == sep
         || exists j, i :: 0 <= j < |blocks| && 0 <= i < |blocks[j]| && JoinBlocks(blocks, sep)[k] == blocks[j][i]
    decreases |blocks|
  {
    if |blocks| == 1 {
      assert JoinBlocks(blocks, sep)[k] == blocks[0][k];
    } else {
      var tail := JoinBlocks(blocks[1..], sep);
      assert JoinBlocks(blocks, sep) == blocks[0] + [sep] + tail;
      if k < |blocks[0]| {
        IndexLeft(blocks[0], sep, tail, k);
        assert JoinBlocks(blocks, sep)[k] == blocks[0][k];
      } else if k > |blocks[0]| {
        var t := k - |blocks[0]| - 1;
        IndexRight(blocks[0], sep, tail, t);
        JoinBlocksMember(blocks[1..], sep, t);
        if tail[t] != sep {
          var j, i :| 0 <= j < |blocks[1..]| && 0 <= i < |blocks[1..][j]| && tail[t] == blocks[1..][j][i];
          assert blocks[1..][j] == blocks[j + 1];
          assert JoinBlocks(blocks, sep)[k] == blocks[j + 1][i];
        }
      }
    }
  }

  /** A block put at the end goes last, after a separator when blocks precede it. */
  lemma {:induction false} JoinBlocksSnoc<T>(blocks: seq<seq<T>>, last: seq<T>, sep: T)
    ensures JoinBlocks(blocks + [last], sep) == if blocks == [] then last else JoinBlocks(blocks, sep) + [sep] + last
    decreases |blocks|
  {
    if blocks != [] {
      var all := blocks + [last];
      assert all[0] == blocks[0] && all[1..] == blocks[1..] + [last];
      JoinBlocksSnoc(blocks[1..], last, sep);
      if |blocks| > 1 {
        assert JoinBlocks(all, sep) == blocks[0] + [sep] + (JoinBlocks(blocks[1..], sep) + [sep] + last);
      }
    }
  }

  /**
   * What a loop over the blocks has emitted after `i` of them: each block in
   * turn, followed by the separator unless it is the last block.
   */
  function Emitted<T>(blocks: seq<seq<T>>, sep: T, i: nat): seq<T>
    requires i <= |blocks|
  {
    if i == 0 then [] else Emitted(blocks, sep, i - 1) + blocks[i - 1] + (if i < |blocks| then [sep] else [])
  }

  /** After `i` blocks the loop has emitted the first `i` blocks joined, plus a separator when more follow. */
  lemma {:induction false} EmittedPrefix<T>(blocks: seq<seq<T>>, sep: T, i: nat)
    requires 0 < i <= |blocks|
    ensures Emitted(blocks, sep, i) == JoinBlocks(blocks[..i], sep) + (if i < |blocks| then [sep] else [])
    decreases i
  {
    if i == 1 {
      assert blocks[..1] == [blocks[0]];
    } else {
      EmittedPrefix(blocks, sep, i - 1);
      assert blocks[..i] == blocks[..i - 1] + [blocks[i - 1]];
      JoinBlocksSnoc(blocks[..i - 1], blocks[i - 1], sep);
    }
  }

  /** After the last block the loop has emitted exactly the joined blocks. */
  lemma EmittedAll<T>(blocks: seq<seq<T>>, sep: T)
    ensures Emitted(blocks, sep, |blocks|) == JoinBlocks(blocks, sep)
  {
    if blocks != [] {
      EmittedPrefix(blocks, sep, |blocks|);
      assert blocks[..|blocks|] == blocks;
    }
  }

  /** A block put in front goes first, followed by a separator when more blocks follow. */
  lemma JoinBlocksCons<T>(first: seq<T>, rest: seq<seq<T>>, sep: T)
    ensures JoinBlocks([first] + rest, sep) == if rest == [] then first else first + [sep] + JoinBlocks(rest, sep)
  {
    assert ([first] + rest)[1..] == rest;
  }

  // ---------------------------------------------------------------------------
  // UTF-8 length
  // ---------------------------------------------------------------------------

  /** Bytes in the UTF-8 encoding of one Unicode scalar value (RFC 3629, section 3). */
  function Utf8Width(c: char): nat
  {
    if c as int < 0x80 then 1
    else if c as int < 0x800 then 2
    else if c as int < 0x1_0000 then 3
    else 4
  }

  /** Rust's `str::len`: the length of the UTF-8 encoding of `s`. */
  function Utf8Len(s: string): nat
  {
    if s == [] then 0 else Utf8Width(s[0]) + Utf8Len(s[1..])
  }

  /** The UTF-8 encoding of one scalar value, as byte values (RFC 3629, section 3). */
  function Utf8EncodeChar(c: char): (bytes: seq<nat>)
    ensures forall k :: 0 <= k < |bytes| ==> bytes[k] < 0x100
    ensures c as int < 0x80 ==> bytes == [c as int]
  {
    var n := c as int;
    if n < 0x80 then [n]
    else if n < 0x800 then [0xC0 + n / 0x40, 0x80 + n % 0x40]
    else if n < 0x1_0000 then [0xE0 + n / 0x1000, 0x80 + (n / 0x40) % 0x40, 0x80 + n % 0x40]
    else [0xF0 + n / 0x4_0000, 0x80 + (n / 0x1000) % 0x40, 0x80 + (n / 0x40) % 0x40, 0x80 + n % 0x40]
  }

  function Utf8Encode(s: string): seq<nat>
  {
    if s == [] then [] else Utf8EncodeChar(s[0]) + Utf8Encode(s[1..])
  }

  /** `Utf8Len` is the length of the actual encoding. */
  lemma {:induction false} Utf8LenIsEncodingLength(s: string)
    ensures Utf8Len(s) == |Utf8Encode(s)|
  {
    if s != [] {
      Utf8LenIsEncodingLength(s[1..]);
    }
  }

  /** Every scalar takes one to four bytes, so the byte length bounds the character count. */
  lemma {:induction false} Utf8LenBounds(s: string)
    ensures |s| <= Utf8Len(s) <= 4 * |s|
  {
    if s != [] {
      Utf8LenBounds(s[1..]);
    }
  }

  /** Byte length and character count agree exactly on ASCII text. */
  lemma {:induction false} Utf8LenAscii(s: string)
    ensures Utf8Len(s) == |s| <==> forall k :: 0 <= k < |s| ==> s[k] as int < 0x80
  {
    if s != [] {
      Utf8LenAscii(s[1..]);
      Utf8LenBounds(s[1..]);
      assert forall k :: 1 <= k < |s| ==> s[k] == s[1..][k - 1];
    }
  }

  lemma {:induction false} Utf8LenAppend(a: string, b: string)
    ensures Utf8Len(a + b) == Utf8Len(a) + Utf8Len(b)
  {
    if a != [] {
      assert (a + b)[0] == a[0];
      assert (a + b)[1..] == a[1..] + b;
      Utf8LenAppend(a[1..], b);
    } else {
      assert a + b == b;
    }
  }

  /** Dropping a carriage return never lengthens the encoding. */
  lemma StripCRUtf8(s: string)
    ensures Utf8Len(StripCR(s)) <= Utf8Len(s)
  {
    if EndsWithCR(s) {
      Utf8LenAppend(StripCR(s), "\r");
    }
  }

  /** No line of `s` is longer in UTF-8 bytes than `s` itself. */
  lemma {:induction false} LinesUtf8Bound(s: string)
    ensures forall k :: 0 <= k < |Lines(s)| ==> Utf8Len(Lines(s)[k]) <= Utf8Len(s)
    decreases |s|
  {
    if s != [] {
      var i := FirstIndex(s, '\n');
      if i == |s| {
        StripCRUtf8(s);
      } else {
        var a, rest := s[..i], s[i + 1..];
        assert s == a + ("\n" + rest);
        Utf8LenAppend(a, "\n" + rest);
        assert ("\n" + rest)[1..] == rest;
        StripCRUtf8(a);
        LinesUtf8Bound(rest);
      }
    }
  }
}
