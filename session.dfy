/**
 * The interactive session engine, `Cli` in src/cli.rs.
 *
 * A session holds the byte queue filled by the keyboard reader, the
 * current canonical directory, its entries as listed, the same entries
 * ranked against the query (behind the synthetic `..` and `.`), the
 * selection index and the query. Each key byte is interpreted by
 * `handle_input`; navigation goes through `move_dir`.
 *
 * The file system is a `Host` value: `canonicalize` is a finite map from
 * joined paths to canonical paths, `collect_items` a map from canonical
 * paths to listings, `get_meta_info` a function from paths to metadata.
 * Opening a file with the default handler and quitting are returned as
 * an `Effect` instead of being performed.
 *
 * The pure functions `Resorted`, `Moved`, `Handle` and `Tick` say what
 * each operation does to a `State`; the methods of class `Cli` are proved
 * to do exactly that to their fields, and the lemmas state what the
 * functions guarantee.
 */
module Session {
  import opened Text
  import opened Files
  import opened OsGeneric
  import Sorting
  import Ranking
  import Layout

  // ---------------------------------------------------------------------
  // The host file system
  // ---------------------------------------------------------------------

  datatype Host = Host(
    platform: Platform,
    canonical: map<Path, Path>,
    listing: map<Path, seq<Item>>,
    meta: Path -> Meta)

  /**
   * What the model assumes of the file system: every path that
   * `canonicalize` reaches is a readable directory, and on Windows every
   * canonical path carries the verbatim prefix that `fmt_canonical_path`
   * strips. The source does not check the first part: on a link to a
   * regular file, or on a directory it may not read, `collect_items`
   * panics after `move_dir` has already set the path.
   */
  ghost predicate ValidHost(h: Host)
  {
    forall p :: p in h.canonical ==>
      && h.canonical[p] in h.listing
      && (h.platform == Windows ==> |h.canonical[p]| >= 4 && h.canonical[p][..4] == VERBATIM_PREFIX)
  }

  predicate IsSeparator(platform: Platform, b: Byte)
  {
    b == SLASH || (platform == Windows && b == BACKSLASH)
  }

  predicate EndsWithSeparator(platform: Platform, p: Path)
  {
    p != [] && IsSeparator(platform, p[|p| - 1])
  }

  /** A Windows path in the verbatim form `\\?\...` that `canonicalize` returns. */
  predicate IsVerbatim(platform: Platform, p: Path)
  {
    platform == Windows && |p| >= 4 && p[..4] == VERBATIM_PREFIX
  }

  /**
   * `PathBuf::join` with a one-component relative path: the component
   * alone on an empty base; the base itself for `.` after a verbatim
   * Windows base (whose components `push` normalizes); otherwise the base,
   * a separator unless one already ends it, and the component.
   */
  function Join(platform: Platform, p: Path, rel: seq<Byte>): (r: Path)
    ensures p == [] ==> r == rel
    ensures IsVerbatim(platform, p) && rel == DOT ==> r == p
    ensures p != [] && !(IsVerbatim(platform, p) && rel == DOT) ==>
      && |p| + |rel| <= |r| <= |p| + |rel| + 1
      && r[..|p|] == p && r[|r| - |rel|..] == rel
      && (|r| == |p| + |rel| <==> EndsWithSeparator(platform, p))
      && (|r| == |p| + |rel| + 1 ==> r[|p|] == Separator(platform))
  {
    if p == [] then rel
    else if IsVerbatim(platform, p) && rel == DOT then p
    else if EndsWithSeparator(platform, p) then p + rel
    else p + [Separator(platform)] + rel
  }

  /** `Path::canonicalize`: fails when the joined path does not resolve. */
  function Canonicalize(h: Host, p: Path): Option<Path>
  {
    if p in h.canonical then Some(h.canonical[p]) else None
  }

  // ---------------------------------------------------------------------
  // resort: `..` and `.` in front of the ranked entries
  // ---------------------------------------------------------------------

  function DotItem(h: Host, path: Path): Item
  {
    Item(Dir, DOT, h.meta(path))
  }

  function DotDotItem(h: Host, path: Path): Item
  {
    Item(Dir, DOTDOT, h.meta(Join(h.platform, path, DOTDOT)))
  }

  /** What `resort` stores in `sorted_items`. */
  function View(h: Host, path: Path, items: seq<Item>, query: seq<Byte>): seq<Item>
  {
    [DotDotItem(h, path), DotItem(h, path)] + Ranking.Rank(items, query)
  }

  /**
   * `..` first, `.` second, then every listed entry exactly once, in
   * ranked order.
   */
  lemma ViewShape(h: Host, path: Path, items: seq<Item>, query: seq<Byte>)
    ensures var v := View(h, path, items, query);
      && |v| == |items| + 2
      && v[0].ty == Dir && v[0].name == DOTDOT
      && v[1].ty == Dir && v[1].name == DOT
      && v[2..] == Ranking.Rank(items, query)
      && multiset(v[2..]) == multiset(items)
  {
    Ranking.RankPermutation(items, query);
  }

  // ---------------------------------------------------------------------
  // Session state
  // ---------------------------------------------------------------------

  datatype State = State(
    input: seq<Byte>,
    path: Path,
    dirItems: seq<Item>,
    sortedItems: seq<Item>,
    selected: nat,
    query: seq<Byte>)

  /** The bytes `b' '..=b'~'` that the query accepts. */
  predicate Printable(b: Byte)
  {
    32 <= b <= 126
  }

  /**
   * The invariant every operation keeps once the session has started:
   * the path is canonical, `sorted_items` is the ranking of the listed
   * entries under the query, the query is printable ASCII (so popping a
   * byte pops a character), and the selection is a row of the listing
   * or, only in an empty directory, the position just past `.`.
   */
  ghost predicate Consistent(h: Host, s: State)
  {
    && ValidHost(h)
    && s.path in h.canonical.Values
    && s.sortedItems == View(h, s.path, s.dirItems, s.query)
    && (forall i :: 0 <= i < |s.query| ==> Printable(s.query[i]))
    && (s.selected < |s.sortedItems| || (s.selected == |s.sortedItems| && s.dirItems == []))
  }

  /** A consistent session's path can be shown: on Windows it has its verbatim prefix. */
  lemma ConsistentPath(h: Host, s: State)
    requires Consistent(h, s)
    ensures h.platform == Windows ==> |s.path| >= 4 && s.path[..4] == VERBATIM_PREFIX
  {
    var p :| p in h.canonical && h.canonical[p] == s.path;
  }

  /** `resort`, as a function of the state. */
  function Resorted(h: Host, s: State): State
  {
    s.(sortedItems := View(h, s.path, s.dirItems, s.query))
  }

  /** `self.sorted_items.len().min(2)`. */
  function SelectionAfterMove(len: nat): nat
  {
    if len < 2 then len else 2
  }

  /**
   * `move_dir(rel)`: when the joined path canonicalizes, list it, clear
   * the query, re-rank and select the third row; otherwise nothing.
   */
  function Moved(h: Host, s: State, rel: seq<Byte>): State
    requires ValidHost(h)
  {
    match Canonicalize(h, Join(h.platform, s.path, rel))
    case None => s
    case Some(p) =>
      var s1 := Resorted(h, s.(path := p, dirItems := h.listing[p], query := []));
      s1.(selected := SelectionAfterMove(|s1.sortedItems|))
  }

  /** What a key press asks of the outside world. */
  datatype Effect =
    | NoEffect
    | Open(target: Path) // `open::that`: the default handler, fire and forget
    | Quit               // `quit()`: save the directory, restore the terminal, exit

  /** `String::pop`, on a query of single-byte characters. */
  function Pop(q: seq<Byte>): seq<Byte>
  {
    if q == [] then [] else q[..|q| - 1]
  }

  /**
   * When `handle_input(c)` can run to completion: after 224 the second
   * byte must have arrived (`await_input` spins until it has), and
   * screen-down (224, 81) must not decrement a zero selection, which
   * overflows `usize`.
   */
  predicate HandleDefined(s: State, c: Byte)
  {
    c == 224 ==> |s.input| > 0 && (s.input[0] == 81 ==> s.selected > 0)
  }

  /** The second byte of a 224 sequence. */
  function Arrow(h: Host, s: State, next: Byte): State
    requires ValidHost(h)
    requires next == 81 ==> s.selected > 0
  {
    if next == 72 then (if s.selected > 0 then s.(selected := s.selected - 1) else s)
    else if next == 80 then (if s.selected < |s.sortedItems| - 1 then s.(selected := s.selected + 1) else s)
    else if next == 73 then s.(selected := 0)
    else if next == 81 then s.(selected := s.selected - 1)
    else if next == 83 then Moved(h, s, DOTDOT)
    else s
  }

  /**
   * Enter: only when the selection is below `dir_items.len()`, the
   * selected ranked entry is opened (a file, or `.`) or navigated into (a
   * directory or a link).
   */
  function Enter(h: Host, s: State): (State, Effect)
    requires Consistent(h, s)
  {
    ViewShape(h, s.path, s.dirItems, s.query);
    if s.selected < |s.dirItems| then
      var item := s.sortedItems[s.selected];
      match item.ty
      case File(_) => (s, Open(Join(h.platform, s.path, item.name)))
      case Dir => if item.name == DOT then (s, Open(Join(h.platform, s.path, item.name))) else (Moved(h, s, item.name), NoEffect)
      case Link(_) => (Moved(h, s, item.name), NoEffect)
    else
      (s, NoEffect)
  }

  /** `handle_input(c)`: the new state and what it asks of the outside world. */
  function Handle(h: Host, s: State, c: Byte): (State, Effect)
    requires Consistent(h, s) && HandleDefined(s, c)
  {
    if c == 3 then (s, Quit)
    else if c == 224 then (Arrow(h, s.(input := s.input[1..]), s.input[0]), NoEffect)
    else if c == 27 then (Moved(h, s, DOTDOT), NoEffect)
    else if c == 13 then Enter(h, s)
    else if c == 8 then (Resorted(h, s.(query := Pop(s.query))), NoEffect)
    else if Printable(c) then (Resorted(h, s.(query := s.query + [c])), NoEffect)
    else (s, NoEffect)
  }

  /** `input()`: pop the oldest byte, if any. */
  function Popped(s: State): (State, Option<Byte>)
  {
    if s.input == [] then (s, None) else (s.(input := s.input[1..]), Some(s.input[0]))
  }

  predicate TickDefined(s: State)
  {
    s.input != [] ==> HandleDefined(s.(input := s.input[1..]), s.input[0])
  }

  /** One pass of `run`'s loop, before the redraw: handle the oldest byte, if any. */
  function Tick(h: Host, s: State): (State, Effect)
    requires Consistent(h, s) && TickDefined(s)
  {
    match Popped(s)
    case (s1, None) => (s1, NoEffect)
    case (s1, Some(c)) => Handle(h, s1, c)
  }

  /** The state `start(dir)` reaches: canonicalize, `move_dir(".")`, `resort`. */
  function Started(h: Host, dir: Path): State
    requires ValidHost(h) && dir in h.canonical
  {
    Resorted(h, Moved(h, State([], h.canonical[dir], [], [], 0, []), DOT))
  }

  // ---------------------------------------------------------------------
  // What the operations guarantee
  // ---------------------------------------------------------------------

  /**
   * A failed `canonicalize` leaves everything as it was; a successful one
   * lands on the canonical path with its listing, an empty query, the
   * fresh ranking, and the third row selected.
   */
  lemma MoveOutcome(h: Host, s: State, rel: seq<Byte>)
    requires ValidHost(h)
    ensures var t := Moved(h, s, rel);
      match Canonicalize(h, Join(h.platform, s.path, rel))
      case None => t == s
      case Some(p) =>
        && t.path == p && t.dirItems == h.listing[p] && t.query == []
        && t.sortedItems == View(h, p, h.listing[p], [])
        && t.selected == 2
        && t.input == s.input
  {
    match Canonicalize(h, Join(h.platform, s.path, rel))
    case None =>
    case Some(p) => ViewShape(h, p, h.listing[p], []);
  }

  /**
   * After a successful move into a non-empty directory the selection is
   * the best-ranked entry; in an empty one it is past the last row, so no
   * row is marked and Enter does nothing.
   */
  lemma MoveSelection(h: Host, s: State, rel: seq<Byte>)
    requires ValidHost(h)
    requires Canonicalize(h, Join(h.platform, s.path, rel)).Some?
    ensures var t := Moved(h, s, rel);
      && (t.dirItems != [] ==> t.selected < |t.sortedItems| && t.sortedItems[t.selected] == Ranking.Rank(t.dirItems, [])[0])
      && (t.dirItems == [] ==> t.selected == |t.sortedItems|)
  {
    var p := Canonicalize(h, Join(h.platform, s.path, rel)).value;
    ViewShape(h, p, h.listing[p], []);
  }

  lemma MovedConsistent(h: Host, s: State, rel: seq<Byte>)
    requires Consistent(h, s)
    ensures Consistent(h, Moved(h, s, rel))
  {
    match Canonicalize(h, Join(h.platform, s.path, rel))
    case None =>
    case Some(p) =>
      ViewShape(h, p, h.listing[p], []);
      assert p == h.canonical[Join(h.platform, s.path, rel)];
  }

  /** A query edit keeps the invariant: the ranking is redone and the selection keeps its range. */
  lemma EditConsistent(h: Host, s: State, q: seq<Byte>)
    requires Consistent(h, s)
    requires forall i :: 0 <= i < |q| ==> Printable(q[i])
    ensures Consistent(h, Resorted(h, s.(query := q)))
  {
    ViewShape(h, s.path, s.dirItems, s.query);
    ViewShape(h, s.path, s.dirItems, q);
  }

  /** The second byte of an arrow sequence keeps the session invariant. */
  lemma ArrowConsistent(h: Host, s: State, next: Byte)
    requires Consistent(h, s) && (next == 81 ==> s.selected > 0)
    ensures Consistent(h, Arrow(h, s, next))
  {
    var n := |s.sortedItems|;
    if next == 83 {
      MovedConsistent(h, s, DOTDOT);
    } else if next == 72 && s.selected > 0 {
      SelectConsistent(h, s, s.selected - 1);
    } else if next == 80 && s.selected < n - 1 {
      SelectConsistent(h, s, s.selected + 1);
    } else if next == 73 {
      ViewShape(h, s.path, s.dirItems, s.query);
      SelectConsistent(h, s, 0);
    } else if next == 81 {
      SelectConsistent(h, s, s.selected - 1);
    }
  }

  /** Moving the highlight to any listed row keeps the invariant. */
  lemma SelectConsistent(h: Host, s: State, k: nat)
    requires Consistent(h, s) && k < |s.sortedItems|
    ensures Consistent(h, s.(selected := k))
  {
  }

  lemma EnterConsistent(h: Host, s: State)
    requires Consistent(h, s)
    ensures Consistent(h, Enter(h, s).0)
  {
    ViewShape(h, s.path, s.dirItems, s.query);
    if s.selected < |s.dirItems| {
      MovedConsistent(h, s, s.sortedItems[s.selected].name);
    }
  }

  /** Every key keeps the session invariant. */
  lemma HandleConsistent(h: Host, s: State, c: Byte)
    requires Consistent(h, s) && HandleDefined(s, c)
    ensures Consistent(h, Handle(h, s, c).0)
  {
    if c == 224 {
      ArrowConsistent(h, s.(input := s.input[1..]), s.input[0]);
    } else if c == 27 {
      MovedConsistent(h, s, DOTDOT);
    } else if c == 13 {
      EnterConsistent(h, s);
    } else if c == 8 {
      EditConsistent(h, s, Pop(s.query));
    } else if Printable(c) {
      EditConsistent(h, s, s.query + [c]);
    }
  }

  lemma TickConsistent(h: Host, s: State)
    requires Consistent(h, s) && TickDefined(s)
    ensures Consistent(h, Tick(h, s).0)
  {
    if s.input != [] {
      HandleConsistent(h, s.(input := s.input[1..]), s.input[0]);
    }
  }

  lemma StartConsistent(h: Host, dir: Path)
    requires ValidHost(h) && dir in h.canonical
    ensures Consistent(h, Started(h, dir))
  {
    var s0 := State([], h.canonical[dir], [], [], 0, []);
    match Canonicalize(h, Join(h.platform, s0.path, DOT))
    case None =>
      ViewShape(h, s0.path, [], []);
    case Some(p) =>
      ViewShape(h, p, h.listing[p], []);
      assert p == h.canonical[Join(h.platform, s0.path, DOT)];
  }

  /**
   * Up and down: only the selection and the queue change; the selection
   * moves by one at most, never below the first row and never past the
   * last.
   */
  lemma UpDown(h: Host, s: State)
    requires Consistent(h, s) && s.input != [] && (s.input[0] == 72 || s.input[0] == 80)
    ensures var (t, e) := Handle(h, s, 224);
      && e == NoEffect
      && t == s.(input := s.input[1..], selected := t.selected)
      && (s.input[0] == 72 ==> t.selected == if s.selected > 0 then s.selected - 1 else 0)
      && (s.input[0] == 80 ==> t.selected == if s.selected + 1 < |s.sortedItems| then s.selected + 1 else s.selected)
      && (s.selected < |s.sortedItems| ==> t.selected < |t.sortedItems|)
  {
  }

  /** Screen-up selects `..`; screen-down decrements without a bound check. */
  lemma ScreenUpDown(h: Host, s: State)
    requires Consistent(h, s) && s.input != [] && (s.input[0] == 73 || s.input[0] == 81)
    requires HandleDefined(s, 224)
    ensures var (t, e) := Handle(h, s, 224);
      && e == NoEffect
      && t == s.(input := s.input[1..], selected := t.selected)
      && t.selected == if s.input[0] == 73 then 0 else s.selected - 1
  {
  }

  /** Esc, and the Delete key (224, 83), go to the parent directory. */
  lemma ParentKeys(h: Host, s: State)
    requires Consistent(h, s)
    ensures Handle(h, s, 27) == (Moved(h, s, DOTDOT), NoEffect)
    ensures s.input != [] && s.input[0] == 83 ==>
      Handle(h, s, 224) == (Moved(h, s.(input := s.input[1..]), DOTDOT), NoEffect)
  {
  }

  /** Every other second byte (left, right, home, end, ...) only consumes itself. */
  lemma IgnoredArrows(h: Host, s: State)
    requires Consistent(h, s) && s.input != []
    requires s.input[0] !in {72, 80, 73, 81, 83}
    ensures Handle(h, s, 224) == (s.(input := s.input[1..]), NoEffect)
  {
  }

  /**
   * Backspace drops the last byte of the query (nothing on an empty one:
   * the state does not change at all); a printable byte is appended. Both
   * re-rank, and neither moves the selection, the path or the listing.
   */
  lemma EditingKeys(h: Host, s: State, c: Byte)
    requires Consistent(h, s) && (c == 8 || Printable(c))
    ensures var (t, e) := Handle(h, s, c);
      && e == NoEffect
      && t.input == s.input && t.path == s.path && t.dirItems == s.dirItems && t.selected == s.selected
      && t.sortedItems == View(h, t.path, t.dirItems, t.query)
      && (c == 8 && s.query != [] ==> t.query == s.query[..|s.query| - 1])
      && (c == 8 && s.query == [] ==> t == s)
      && (Printable(c) ==> t.query == s.query + [c] && |t.query| == |s.query| + 1)
  {
  }

  /** Ctrl-C quits from any state. */
  lemma QuitKey(h: Host, s: State)
    requires Consistent(h, s)
    ensures Handle(h, s, 3) == (s, Quit)
  {
  }

  /** A byte with no binding changes nothing. */
  lemma UnboundByte(h: Host, s: State, c: Byte)
    requires Consistent(h, s)
    requires c !in {3, 8, 13, 27, 224} && !Printable(c)
    ensures Handle(h, s, c) == (s, NoEffect)
  {
  }

  /**
   * Enter on a listed row: a file, or `.`, is handed to the default
   * handler with the state untouched; a directory (including `..`) or a
   * link is navigated into.
   */
  lemma EnterRow(h: Host, s: State)
    requires Consistent(h, s) && s.selected < |s.dirItems|
    ensures s.selected < |s.sortedItems|
    ensures var item := s.sortedItems[s.selected];
      && (item.ty.File? || (item.ty.Dir? && item.name == DOT) ==>
            Handle(h, s, 13) == (s, Open(Join(h.platform, s.path, item.name))))
      && ((item.ty.Dir? && item.name != DOT) || item.ty.Link? ==>
            Handle(h, s, 13) == (Moved(h, s, item.name), NoEffect))
  {
    ViewShape(h, s.path, s.dirItems, s.query);
    assert Handle(h, s, 13) == Enter(h, s);
    var item := s.sortedItems[s.selected];
    match item.ty
    case File(_) =>
      assert Enter(h, s) == (s, Open(Join(h.platform, s.path, item.name)));
    case Dir =>
    case Link(_) =>
      assert Enter(h, s) == (Moved(h, s, item.name), NoEffect);
  }

  /**
   * Enter on the first two rows: `..` goes to the parent and `.` opens the
   * current directory, but only while the guard lets them through: `..`
   * needs one listed entry, `.` two.
   */
  lemma EnterDots(h: Host, s: State)
    requires Consistent(h, s)
    ensures s.selected == 0 && |s.dirItems| >= 1 ==> Handle(h, s, 13) == (Moved(h, s, DOTDOT), NoEffect)
    ensures s.selected == 1 && |s.dirItems| >= 2 ==> Handle(h, s, 13) == (s, Open(Join(h.platform, s.path, DOT)))
    ensures s.selected == 1 && |s.dirItems| < 2 ==> Handle(h, s, 13) == (s, NoEffect)
  {
    ViewShape(h, s.path, s.dirItems, s.query);
    if s.selected == 0 && |s.dirItems| >= 1 {
      assert s.sortedItems[0] == DotDotItem(h, s.path);
    } else if s.selected == 1 && |s.dirItems| >= 2 {
      assert s.sortedItems[1] == DotItem(h, s.path);
    }
  }

  /**
   * What Enter on `.` opens: on Windows the current directory itself,
   * since `push` drops `.` after a verbatim base; elsewhere the path with
   * `/.` appended.
   */
  lemma DotTarget(h: Host, s: State)
    requires Consistent(h, s)
    ensures h.platform == Windows ==> Join(h.platform, s.path, DOT) == s.path
    ensures h.platform == Unix && s.path != [] && !EndsWithSeparator(Unix, s.path) ==>
      Join(h.platform, s.path, DOT) == s.path + [SLASH] + DOT
  {
    ConsistentPath(h, s);
  }

  /**
   * The Enter guard compares with `dir_items.len()`, two less than the
   * number of rows, so Enter on either of the last two rows does nothing.
   */
  lemma EnterIgnoresLastTwoRows(h: Host, s: State)
    requires Consistent(h, s)
    requires |s.dirItems| <= s.selected
    ensures Handle(h, s, 13) == (s, NoEffect)
  {
  }

  // ---------------------------------------------------------------------
  // The session object
  // ---------------------------------------------------------------------

  /** The text of each row, `item.render()` for every ranked entry. */
  function Texts(items: seq<Item>, show: Item -> seq<Byte>): (r: seq<seq<Byte>>)
    ensures |r| == |items| && forall i :: 0 <= i < |items| ==> r[i] == show(items[i])
  {
    seq(|items|, i requires 0 <= i < |items| => show(items[i]))
  }

  class Cli {
    const host: Host
    /** The queue shared with the keyboard reader. */
    var input: seq<Byte>
    var path: Path
    var dirItems: seq<Item>
    var sortedItems: seq<Item>
    var selectedItem: nat
    var queryString: seq<Byte>

    function Snapshot(): State
      reads this
    {
      State(input, path, dirItems, sortedItems, selectedItem, queryString)
    }

    ghost predicate Valid()
      reads this
    {
      Consistent(host, Snapshot())
    }

    /** `Cli::start(dir)` up to the point where the reader thread and `run` begin. */
    constructor Start(h: Host, dir: Path)
      requires ValidHost(h) && dir in h.canonical
      ensures host == h && Snapshot() == Started(h, dir)
      ensures Valid()
    {
      host := h;
      input := [];
      path := h.canonical[dir];
      selectedItem := 0;
      dirItems := [];
      sortedItems := [];
      queryString := [];
      new;
      MoveDir(DOT);
      Resort();
      StartConsistent(h, dir);
    }

    /** `resort`: rank a copy of the listing in place, then put `.` and `..` in front. */
    method Resort()
      modifies this
      ensures Snapshot() == Resorted(host, old(Snapshot()))
    {
      var items := dirItems;
      var sorted := new Item[|items|](i requires 0 <= i < |items| => items[i]);
      assert sorted[..] == items;
      Ranking.ByRankTotalPreorder(queryString);
      Sorting.SortBy(sorted, Ranking.ByRank(queryString));
      var rows := sorted[..];
      rows := [DotItem(host, path)] + rows;
      rows := [DotDotItem(host, path)] + rows;
      sortedItems := rows;
    }

    /** `move_dir(rel)`. */
    method MoveDir(rel: seq<Byte>)
      requires ValidHost(host)
      modifies this
      ensures Snapshot() == Moved(host, old(Snapshot()), rel)
    {
      var target := Join(host.platform, path, rel);
      if target in host.canonical {
        path := host.canonical[target];
        dirItems := host.listing[path];
        queryString := [];
        Resort();
        selectedItem := SelectionAfterMove(|sortedItems|);
      }
    }

    /** `input()`: `pop_front` on the shared queue. */
    method Input() returns (c: Option<Byte>)
      modifies this
      ensures (Snapshot(), c) == Popped(old(Snapshot()))
    {
      if input == [] {
        c := None;
      } else {
        c := Some(input[0]);
        input := input[1..];
      }
    }

    /** `await_input()`, once the byte it waits for is in the queue. */
    method AwaitInput() returns (c: Byte)
      requires input != []
      modifies this
      ensures c == old(input[0])
      ensures Snapshot() == old(Snapshot()).(input := old(input[1..]))
    {
      var next := Input();
      c := next.value;
    }

    /** The reader thread's `push_back` of one key byte. */
    method Receive(b: Byte)
      modifies this
      ensures Snapshot() == old(Snapshot()).(input := old(input) + [b])
    {
      input := input + [b];
    }

    /** `handle_input(c)`. */
    method HandleInput(c: Byte) returns (e: Effect)
      requires Valid() && HandleDefined(Snapshot(), c)
      modifies this
      ensures (Snapshot(), e) == Handle(host, old(Snapshot()), c)
      ensures Valid()
    {
      HandleConsistent(host, Snapshot(), c);
      ViewShape(host, path, dirItems, queryString);
      e := NoEffect;
      if c == 3 {
        e := Quit;
      } else if c == 224 {
        var next := AwaitInput();
        if next == 72 {
          if selectedItem > 0 {
            selectedItem := selectedItem - 1;
          }
        } else if next == 80 {
          if selectedItem < |sortedItems| - 1 {
            selectedItem := selectedItem + 1;
          }
        } else if next == 73 {
          selectedItem := 0;
        } else if next == 81 {
          selectedItem := selectedItem - 1;
        } else if next == 83 {
          MoveDir(DOTDOT);
        }
      } else if c == 27 {
        MoveDir(DOTDOT);
      } else if c == 13 {
        if selectedItem < |dirItems| {
          var item := sortedItems[selectedItem];
          match item.ty
          case File(_) =>
            e := Open(Join(host.platform, path, item.name));
          case Dir =>
            if item.name == DOT {
              e := Open(Join(host.platform, path, item.name));
            } else {
              MoveDir(item.name);
            }
          case Link(_) =>
            MoveDir(item.name);
        }
      } else if c == 8 {
        queryString := Pop(queryString);
        Resort();
      } else if Printable(c) {
        queryString := queryString + [c];
        Resort();
      }
    }

    /** `render()` for a terminal of `w` columns and `h` rows; `show` is `Item::render`. */
    method Render(w: nat, h: nat, show: Item -> seq<Byte>) returns (out: seq<Byte>)
      requires w >= 2 && h >= 2
      requires host.platform == Windows ==> |path| >= 4
      ensures out == Layout.Screen(FmtCanonicalPath(host.platform, path), Texts(sortedItems, show),
                                   selectedItem, queryString, w, h)
    {
      var title, texts := FmtCanonicalPath(host.platform, path), Texts(sortedItems, show);
      out := Layout.Header(title, w);
      out := Layout.PushEntryRows(out, texts, selectedItem, w);
      out := Layout.PushBlankRows(out, |sortedItems|, w, h);
      out := out + Layout.QueryRow(queryString, w);
      Layout.ScreenParts(title, texts, selectedItem, queryString, w, h);
    }

    /** One pass of `run`'s loop: handle the oldest byte if there is one, then redraw (unless quitting). */
    method RunOnce(w: nat, h: nat, show: Item -> seq<Byte>) returns (e: Effect, out: seq<Byte>)
      requires Valid() && TickDefined(Snapshot()) && w >= 2 && h >= 2
      modifies this
      ensures (Snapshot(), e) == Tick(host, old(Snapshot()))
      ensures Valid()
      ensures e != Quit ==> out == Layout.Screen(FmtCanonicalPath(host.platform, path), Texts(sortedItems, show),
                                                 selectedItem, queryString, w, h)
    {
      var c := Input();
      e := NoEffect;
      out := [];
      if c.Some? {
        e := HandleInput(c.value);
      }
      if e != Quit {
        ConsistentPath(host, Snapshot());
        out := Render(w, h, show);
      }
    }
  }
}
