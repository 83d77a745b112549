/**
 * Screen layout of the browser (src/cli.rs): `truncate_str`, and the text
 * `Cli::render` writes for one frame. The frame is a header row with the
 * formatted path, one row per ranked entry marked `"> "` when selected,
 * blank rows down to `h - 2`, and the `:`-prefixed query row. Every row is
 * right-padded to the terminal width counted in characters, as
 * `format!("{:w$}", ..)` does.
 *
 * `Item::render` is not part of this model: the rows receive the text each
 * entry renders to.
 */
module Layout {
  import opened Text

  // ---------------------------------------------------------------------
  // truncate_str
  // ---------------------------------------------------------------------

  const ELLIPSIS: seq<Byte> := ['.' as int, '.' as int, '.' as int]

  /**
   * `truncate_str(s, len)`: `s` itself when it is shorter than `len - 2`
   * bytes, otherwise its first `len - 3` bytes followed by `...`. The
   * source subtracts in `usize`, so `len < 3` panics.
   */
  function TruncateStr(s: seq<Byte>, len: nat): (r: seq<Byte>)
    requires len >= 3
    ensures |s| < len - 2 ==> r == s
    ensures |s| >= len - 2 ==> |r| == len && r[..len - 3] == s[..len - 3] && r[len - 3..] == ELLIPSIS
  {
    if |s| < len - 2 then s else s[..len - 3] + ELLIPSIS
  }

  /** The result never exceeds `len` bytes, and reaches it exactly when cut. */
  lemma TruncateBound(s: seq<Byte>, len: nat)
    requires len >= 3
    ensures |TruncateStr(s, len)| <= len
    ensures |TruncateStr(s, len)| == len <==> |s| >= len - 2
  {
  }

  /** A string of exactly `len - 2` bytes is "shortened" into one two bytes longer. */
  lemma TruncateGrowsAtEdge(s: seq<Byte>, len: nat)
    requires len >= 3 && |s| == len - 2
    ensures |TruncateStr(s, len)| == |s| + 2
    ensures TruncateStr(s, len) == s[..|s| - 1] + ELLIPSIS
  {
  }

  /** Truncating a truncated string changes nothing. */
  lemma TruncateIdempotent(s: seq<Byte>, len: nat)
    requires len >= 3
    ensures TruncateStr(TruncateStr(s, len), len) == TruncateStr(s, len)
  {
    var r := TruncateStr(s, len);
    if |s| >= len - 2 {
      assert r == r[..len - 3] + r[len - 3..];
    }
  }

  // ---------------------------------------------------------------------
  // The frame written by `render`
  // ---------------------------------------------------------------------

  /** The caret `¦` (U+00A6) closing the query row: two bytes, one character. */
  const CARET: seq<Byte> := [0xC2, 0xA6]

  const SELECTED_MARK: seq<Byte> := ['>' as int, ' ' as int]
  const PLAIN_MARK: seq<Byte> := [' ' as int, ' ' as int]

  function Header(title: seq<Byte>, w: nat): seq<Byte>
  {
    Pad(title, w)
  }

  /** `format!("> {:1$}", text, w - 2)` or its unselected twin. */
  function ItemRow(text: seq<Byte>, selected: bool, w: nat): seq<Byte>
    requires w >= 2
  {
    (if selected then SELECTED_MARK else PLAIN_MARK) + Pad(text, w - 2)
  }

  function BlankRow(w: nat): seq<Byte>
  {
    Pad([], w)
  }

  /** `format!(":{:1$}", query + "¦", w - 1)`. */
  function QueryRow(query: seq<Byte>, w: nat): seq<Byte>
    requires w >= 1
  {
    [':' as int] + Pad(query + CARET, w - 1)
  }

  /** Length of the range `n..h - 2`: the blank rows below `n` entries. */
  function BlankCount(n: nat, h: nat): nat
    requires h >= 2
  {
    if n < h - 2 then h - 2 - n else 0
  }

  /** One row per entry, `"> "` on the selected one. */
  function EntryRows(texts: seq<seq<Byte>>, selected: nat, w: nat): (rows: seq<seq<Byte>>)
    requires w >= 2
  {
    seq(|texts|, i requires 0 <= i < |texts| => ItemRow(texts[i], i == selected, w))
  }

  /** The blank rows below `n` entries. */
  function BlankRows(n: nat, w: nat, h: nat): seq<seq<Byte>>
    requires h >= 2
  {
    seq(BlankCount(n, h), _ => BlankRow(w))
  }

  /** The rows of one frame, top to bottom. */
  function Rows(title: seq<Byte>, texts: seq<seq<Byte>>, selected: nat, query: seq<Byte>, w: nat, h: nat)
    : seq<seq<Byte>>
    requires w >= 2 && h >= 2
  {
    [Header(title, w)] + EntryRows(texts, selected, w) + BlankRows(|texts|, w, h) + [QueryRow(query, w)]
  }

  /** Rows written one after the other, as `push_str` does. */
  function Concat(rows: seq<seq<Byte>>): seq<Byte>
  {
    if rows == [] then [] else Concat(rows[..|rows| - 1]) + rows[|rows| - 1]
  }

  /** The text of one frame. */
  function Screen(title: seq<Byte>, texts: seq<seq<Byte>>, selected: nat, query: seq<Byte>, w: nat, h: nat)
    : seq<Byte>
    requires w >= 2 && h >= 2
  {
    Concat(Rows(title, texts, selected, query, w, h))
  }

  /** A frame fills exactly `h` rows when the entries fit, and one row per entry more otherwise. */
  lemma RowCount(title: seq<Byte>, texts: seq<seq<Byte>>, selected: nat, query: seq<Byte>, w: nat, h: nat)
    requires w >= 2 && h >= 2
    ensures |Rows(title, texts, selected, query, w, h)| == |texts| + BlankCount(|texts|, h) + 2
    ensures |Rows(title, texts, selected, query, w, h)| == if |texts| + 2 < h then h else |texts| + 2
  {
  }

  /** The path heads the frame and the query row closes it. */
  lemma RowEnds(title: seq<Byte>, texts: seq<seq<Byte>>, selected: nat, query: seq<Byte>, w: nat, h: nat)
    requires w >= 2 && h >= 2
    ensures var rows := Rows(title, texts, selected, query, w, h);
      rows[0] == Header(title, w) && rows[|rows| - 1] == QueryRow(query, w)
  {
  }

  /** Row `1 + i` belongs to entry `i`. */
  lemma RowOfItem(title: seq<Byte>, texts: seq<seq<Byte>>, selected: nat, query: seq<Byte>, w: nat, h: nat, i: nat)
    requires w >= 2 && h >= 2 && i < |texts|
    ensures 1 + i < |Rows(title, texts, selected, query, w, h)|
    ensures Rows(title, texts, selected, query, w, h)[1 + i] == ItemRow(texts[i], i == selected, w)
  {
    var rows := Rows(title, texts, selected, query, w, h);
    assert rows == [Header(title, w)] + (EntryRows(texts, selected, w) + BlankRows(|texts|, w, h) + [QueryRow(query, w)]);
  }

  /** The rows between the entries and the query row are blank. */
  lemma RowOfBlank(title: seq<Byte>, texts: seq<seq<Byte>>, selected: nat, query: seq<Byte>, w: nat, h: nat, k: nat)
    requires w >= 2 && h >= 2 && 1 + |texts| <= k < 1 + |texts| + BlankCount(|texts|, h)
    ensures k < |Rows(title, texts, selected, query, w, h)|
    ensures Rows(title, texts, selected, query, w, h)[k] == BlankRow(w)
  {
    var rows := Rows(title, texts, selected, query, w, h);
    assert rows == ([Header(title, w)] + EntryRows(texts, selected, w)) + BlankRows(|texts|, w, h) + [QueryRow(query, w)];
  }

  /** An entry row is its marker followed by the entry's text. */
  lemma ItemRowShape(text: seq<Byte>, selected: bool, w: nat)
    requires w >= 2
    ensures ItemRow(text, selected, w)[..2] == if selected then SELECTED_MARK else PLAIN_MARK
    ensures ItemRow(text, selected, w)[2..2 + |text|] == text
  {
    var padded := Pad(text, w - 2);
    assert ItemRow(text, selected, w)[2..2 + |text|] == padded[..|text|];
  }

  /** Only the row of the selected entry carries `"> "`; with no entry selected, none does. */
  lemma SelectionMarker(title: seq<Byte>, texts: seq<seq<Byte>>, selected: nat, query: seq<Byte>, w: nat, h: nat, i: nat)
    requires w >= 2 && h >= 2 && i < |texts|
    ensures var row := Rows(title, texts, selected, query, w, h)[1 + i];
      && row[..2] == (if i == selected then SELECTED_MARK else PLAIN_MARK)
      && row[2..2 + |texts[i]|] == texts[i]
  {
    RowOfItem(title, texts, selected, query, w, h, i);
    ItemRowShape(texts[i], i == selected, w);
  }

  /** The last row is `:`, the query, the caret, then spaces. */
  lemma QueryRowShape(query: seq<Byte>, w: nat)
    requires w >= 1
    ensures var row := QueryRow(query, w);
      && row[0] == ':' as int
      && row[1..1 + |query|] == query
      && row[1 + |query|..3 + |query|] == CARET
      && forall k :: 3 + |query| <= k < |row| ==> row[k] == SPACE
  {
    var padded := Pad(query + CARET, w - 1);
    var row := QueryRow(query, w);
    assert row[1..1 + |query|] == padded[..|query|] == (query + CARET)[..|query|];
    assert row[1 + |query|..3 + |query|] == padded[|query|..|query| + 2] == (query + CARET)[|query|..];
  }

  // ---------------------------------------------------------------------
  // Widths, in characters
  // ---------------------------------------------------------------------

  function Max(a: nat, b: nat): nat
  {
    if a < b then b else a
  }

  /** An entry row is two marker characters plus the padded text: `w` wide unless the text overflows. */
  lemma ItemRowWidth(text: seq<Byte>, selected: bool, w: nat)
    requires w >= 2
    ensures CharCount(ItemRow(text, selected, w)) == 2 + Max(w - 2, CharCount(text))
  {
    var mark := if selected then SELECTED_MARK else PLAIN_MARK;
    CharCountAppend(mark, Pad(text, w - 2));
    assert CharCount(mark) == 2 by {
      assert mark[1..][1..] == [];
    }
  }

  /** The query row counts the caret as one character although it takes two bytes. */
  lemma QueryRowWidth(query: seq<Byte>, w: nat)
    requires w >= 1
    ensures CharCount(QueryRow(query, w)) == 1 + Max(w - 1, CharCount(query) + 1)
  {
    CharCountAppend([':' as int], Pad(query + CARET, w - 1));
    CharCountAppend(query, CARET);
    assert CharCount(CARET) == 1 by {
      assert CARET[1..][1..] == [];
    }
    assert CharCount([':' as int]) == 1 by {
      assert [':' as int][1..] == [];
    }
  }

  lemma MulSucc(w: nat, m: nat)
    ensures w * (m + 1) == w * m + w
  {
  }

  lemma {:induction false} CharCountConcat(rows: seq<seq<Byte>>, w: nat)
    requires forall k :: 0 <= k < |rows| ==> CharCount(rows[k]) == w
    ensures CharCount(Concat(rows)) == w * |rows|
  {
    if rows != [] {
      var init := rows[..|rows| - 1];
      assert forall k :: 0 <= k < |init| ==> init[k] == rows[k];
      CharCountConcat(init, w);
      CharCountAppend(Concat(init), rows[|rows| - 1]);
      MulSucc(w, |init|);
    }
  }

  lemma ConcatStep(rows: seq<seq<Byte>>, k: nat)
    requires k < |rows|
    ensures Concat(rows[..k + 1]) == Concat(rows[..k]) + rows[k]
  {
    assert rows[..k + 1][..k] == rows[..k];
  }

  /** One more `push_str` extends the pushed prefix of the rows by one row. */
  lemma PushStep(out0: seq<Byte>, rows: seq<seq<Byte>>, k: nat)
    requires k < |rows|
    ensures out0 + Concat(rows[..k + 1]) == out0 + Concat(rows[..k]) + rows[k]
  {
    ConcatStep(rows, k);
  }

  lemma {:induction false} ConcatAppend(a: seq<seq<Byte>>, b: seq<seq<Byte>>)
    ensures Concat(a + b) == Concat(a) + Concat(b)
    decreases |b|
  {
    if b == [] {
      assert a + b == a;
    } else {
      ConcatAppend(a, b[..|b| - 1]);
      assert (a + b)[..|a + b| - 1] == a + b[..|b| - 1];
    }
  }

  /** The frame is the header, the entry rows, the blank rows and the query row, in that order. */
  lemma ScreenParts(title: seq<Byte>, texts: seq<seq<Byte>>, selected: nat, query: seq<Byte>, w: nat, h: nat)
    requires w >= 2 && h >= 2
    ensures Screen(title, texts, selected, query, w, h)
      == Header(title, w) + Concat(EntryRows(texts, selected, w)) + Concat(BlankRows(|texts|, w, h))
         + QueryRow(query, w)
  {
    var head, entries, blanks := [Header(title, w)], EntryRows(texts, selected, w), BlankRows(|texts|, w, h);
    ConcatAppend(head + entries + blanks, [QueryRow(query, w)]);
    ConcatAppend(head + entries, blanks);
    ConcatAppend(head, entries);
    assert Concat([QueryRow(query, w)]) == QueryRow(query, w) by {
      assert [QueryRow(query, w)][..0] == [];
    }
    assert Concat(head) == Header(title, w) by {
      assert head[..0] == [];
    }
  }

  /** Entry rows whose texts fit are `w` characters each. */
  lemma EntriesWidth(texts: seq<seq<Byte>>, selected: nat, w: nat)
    requires w >= 2
    requires forall i :: 0 <= i < |texts| ==> CharCount(texts[i]) <= w - 2
    ensures CharCount(Concat(EntryRows(texts, selected, w))) == w * |texts|
  {
    var entries := EntryRows(texts, selected, w);
    forall i | 0 <= i < |entries|
      ensures CharCount(entries[i]) == w
    {
      ItemRowWidth(texts[i], i == selected, w);
    }
    CharCountConcat(entries, w);
  }

  lemma BlanksWidth(n: nat, w: nat, h: nat)
    requires h >= 2
    ensures CharCount(Concat(BlankRows(n, w, h))) == w * BlankCount(n, h)
  {
    CharCountConcat(BlankRows(n, w, h), w);
  }

  lemma CharCountFour(a: seq<Byte>, b: seq<Byte>, c: seq<Byte>, d: seq<Byte>)
    ensures CharCount(a + b + c + d) == CharCount(a) + CharCount(b) + CharCount(c) + CharCount(d)
  {
    CharCountAppend(a, b);
    CharCountAppend(a + b, c);
    CharCountAppend(a + b + c, d);
  }

  lemma FillArithmetic(total: int, w: nat, n: nat, h: nat)
    requires h >= 2
    requires total == w + w * n + w * BlankCount(n, h) + w
    ensures total == w * (if n + 2 < h then h else n + 2)
  {
    var b := BlankCount(n, h);
    MulSucc(w, n + b);
    MulSucc(w, n + b + 1);
    assert w * n + w * b == w * (n + b);
    assert n + b + 2 == if n + 2 < h then h else n + 2;
  }

  /**
   * When the path, every entry and the query fit their columns, the frame
   * is a full `w` by `max(h, n + 2)` block of characters.
   */
  lemma ScreenFills(title: seq<Byte>, texts: seq<seq<Byte>>, selected: nat, query: seq<Byte>, w: nat, h: nat)
    requires w >= 2 && h >= 2
    requires CharCount(title) <= w
    requires forall i :: 0 <= i < |texts| ==> CharCount(texts[i]) <= w - 2
    requires CharCount(query) + 1 <= w - 1
    ensures CharCount(Screen(title, texts, selected, query, w, h)) == w * (if |texts| + 2 < h then h else |texts| + 2)
  {
    var head, body := Header(title, w), Concat(EntryRows(texts, selected, w));
    var pad, last := Concat(BlankRows(|texts|, w, h)), QueryRow(query, w);
    var n, b := |texts|, BlankCount(|texts|, h);
    ScreenParts(title, texts, selected, query, w, h);
    CharCountFour(head, body, pad, last);
    EntriesWidth(texts, selected, w);
    BlanksWidth(n, w, h);
    QueryRowWidth(query, w);
    assert CharCount(last) == w;
    FillArithmetic(CharCount(Screen(title, texts, selected, query, w, h)), w, n, h);
  }

  /** The entry loop of `render`: push one row per entry onto `out`. */
  method PushEntryRows(out0: seq<Byte>, texts: seq<seq<Byte>>, selected: nat, w: nat) returns (out: seq<Byte>)
    requires w >= 2
    ensures out == out0 + Concat(EntryRows(texts, selected, w))
  {
    ghost var rows := EntryRows(texts, selected, w);
    out := out0;
    var i := 0;
    while i < |texts|
      invariant 0 <= i <= |texts|
      invariant out == out0 + Concat(rows[..i])
    {
      var row;
      if i == selected {
        row := SELECTED_MARK + Pad(texts[i], w - 2);
      } else {
        row := PLAIN_MARK + Pad(texts[i], w - 2);
      }
      assert row == rows[i];
      PushStep(out0, rows, i);
      out := out + row;
      i := i + 1;
    }
    assert rows[..i] == rows;
  }

  /** The padding loop of `render`: `for _ in n..h - 2`, push a blank row. */
  method PushBlankRows(out0: seq<Byte>, n: nat, w: nat, h: nat) returns (out: seq<Byte>)
    requires h >= 2
    ensures out == out0 + Concat(BlankRows(n, w, h))
  {
    ghost var rows := BlankRows(n, w, h);
    out := out0;
    var k := n;
    while k < h - 2
      invariant n <= k <= n + |rows|
      invariant out == out0 + Concat(rows[..k - n])
    {
      PushStep(out0, rows, k - n);
      out := out + Pad([], w);
      k := k + 1;
    }
    assert rows[..k - n] == rows;
  }
}
