# rs_file_explorer session engine, in Dafny

This project models the interactive core of `rs_file_explorer`, a terminal file browser. It covers the `Cli`
session object of `src/cli.rs` and the path formatting of `src/os_generic.rs`:

- **Session state.** A session holds a queue of key bytes filled by a keyboard reader. It also holds the
  current canonical directory, the directory's entries as listed, and the same entries ranked against
  the typed query. The ranked list always starts with two synthetic rows, `..` and `.`. The state ends
  with the index of the selected row and the query itself.
- **Keys.** `handle_input` interprets one key byte. Ctrl-C quits. An arrow sequence (224 followed by a
  second byte) moves the selection, and its Delete variant goes to the parent directory, as does Esc.
  Enter opens or enters the selected entry. Backspace and printable bytes edit the query, and the
  entries are re-ranked after every edit.
- **Navigation.** `move_dir` canonicalizes the joined path. It then lists the new directory, clears the
  query, re-ranks the entries and selects the third row.
- **Ranking.** `resort` uses a stable sort whose comparator has four tiers. Names that contain the
  query as typed come first. Next come names that contain it once both are ASCII-lower-cased. Among
  those, earlier match offsets come first. All remaining ties are broken by lower-cased name.
- **Rendering.** `render` writes one frame. It has a header holding the formatted path, one row per
  ranked entry (`"> "` on the selected one), blank rows down to the terminal height, and a `:` query
  row closed by the caret `¦`. Every row is right-padded to the terminal width in characters.
- **Truncation.** `truncate_str` cuts a name to a column width with `...`.
- **Path formatting.** `fmt_canonical_path` removes the Windows verbatim prefix `\\?\` and turns
  backslashes into slashes. On every other platform it shows the canonical path unchanged.

## How the model is built

- **Text.** Rust strings are UTF-8 byte strings, and `len`, `find`, `split_at`, string ordering and
  `to_ascii_lowercase` all work on bytes. So text is `seq<Byte>` (module `Text`). `format!` pads by
  character count, which `Text.CharCount` measures as the number of bytes that are not UTF-8
  continuation bytes.
- **The file system.** It is a value, `Session.Host`, made of four parts:
  - the platform;
  - `canonicalize` as a finite map from joined paths to canonical paths;
  - `collect_items` as a map from canonical paths to listings;
  - `get_meta_info` as a function from paths to metadata.

  `Session.ValidHost` states what the model assumes of the file system. Every canonical path is a
  readable directory, and on Windows every canonical path carries the verbatim prefix. The source does
  not check the first part, and it crashes when it fails (see `Session.Cli.MoveDir` under "Left out").
- **Effects.** Opening a file with the default handler and quitting are not performed. They are
  returned as a `Session.Effect`.
- **Specification functions.** Pure functions on `Session.State` say what each operation does:
  `Resorted` (`resort`), `Moved` (`move_dir`), `Handle` (`handle_input`), `Popped` (`input`) and
  `Tick` (one pass of `run`).
- **The class.** The class `Session.Cli` has the struct's fields. Each of its methods is proved to
  change those fields exactly as the matching function says. The invariant `Session.Consistent` is
  proved to be kept by every key. It says that the path is canonical, the ranked list is the ranking
  of the listing, the query is printable ASCII, and the selection is a row.
- **Sorting.** `sort_by` (the standard library's stable merge-style sort) is modelled by an in-place
  insertion sort over an array (`Sorting.SortBy`), proved equal to a functional stable sort. `Sorting.SortUnique` shows that every sorted, stable arrangement is that
  same sequence. So the ranking does not depend on which stable algorithm the standard library uses.
- **Rendering.** `render` builds its text in loops (`Layout.PushEntryRows`, `Layout.PushBlankRows`),
  proved to produce `Layout.Screen`. The layout lemmas are stated about `Layout.Screen`.

## Model

| member | source | states |
|---|---|---|
| Text.Find | src/cli.rs:146-147 | `str::find` returns the first byte offset where the pattern occurs, and `None` only when it occurs nowhere |
| Text.FindEmpty | src/cli.rs:146-156 | an empty query is found at offset 0 in every name |
| Text.Lower | src/cli.rs:153-154 | `to_ascii_lowercase` keeps the length, lowers each byte on its own, leaves no upper-case byte and keeps every other byte |
| Text.LexCmpFlip | src/cli.rs:161 | the byte-wise string order is antisymmetric: swapping the operands flips the result |
| Text.LexCmpEqual | src/cli.rs:161 | two strings compare `Equal` exactly when they are the same bytes |
| Text.LexLeTrans | src/cli.rs:161 | the byte-wise string order is transitive |
| Text.LexCmp | src/cli.rs:161 | no contract; the definition is `Ord for str` on the lower-cased names: byte by byte, a proper prefix first. Its properties are `Text.LexCmpFlip`, `Text.LexCmpEqual` and `Text.LexLeTrans` |
| Text.Pad | src/cli.rs:127 | `format!("{:w$}", s)` keeps `s` as a prefix, adds only spaces, and is `max(w, chars(s))` characters wide |
| Text.CharCountAppend | src/cli.rs:126-139 | the character count of text pushed piece by piece is the sum of the pieces' counts |
| Text.CharCount | src/cli.rs:127 | no contract; the definition is the width `format!` pads to: the number of bytes that are not UTF-8 continuation bytes. `Text.Pad` and `Layout.QueryRowWidth` state widths in it |
| OsGeneric.ReplaceBackslashes | src/os_generic.rs:19 | `replace("\\", "/")` keeps the length and turns exactly the backslashes into slashes |
| OsGeneric.FmtCanonicalPathWindows | src/os_generic.rs:17-20 | the Windows variant drops the first four bytes, and the result holds no backslash, every other byte being kept in place |
| OsGeneric.FmtCanonicalPathUnix | src/os_generic.rs:22-25 | the non-Windows variant returns the path unchanged |
| OsGeneric.FmtCanonicalPath | src/os_generic.rs:17-25 | no contract; the definition picks the `#[cfg(windows)]` or the other variant by the platform value, so the two variants' contracts apply |
| OsGeneric.WindowsSlashTail | src/os_generic.rs:17-20 | a path whose tail has no backslash loses exactly its 4-byte prefix |
| OsGeneric.VerbatimStripped | src/os_generic.rs:17-20 | a verbatim path `\\?\` + rest is shown as rest with forward slashes |
| Sorting.InsertPermutation | src/cli.rs:145-163 | one insertion step adds exactly the inserted element |
| Sorting.SortPermutation | src/cli.rs:144-163 | the stable sort returns a permutation of its input |
| Sorting.InsertSorted | src/cli.rs:145-163 | inserting into a sorted sequence keeps it sorted |
| Sorting.SortSorted | src/cli.rs:145-163 | under a total preorder the result is sorted |
| Sorting.SortStable | src/cli.rs:145-163 | elements that compare `Equal` keep their input order, checked class by class |
| Sorting.SortUnique | src/cli.rs:145-163 | any sorted arrangement that keeps every tie class in input order is the sort's result |
| Sorting.Sort | src/cli.rs:144-145 | no contract; the definition is a functional stable sort, whose properties are `Sorting.SortPermutation`, `Sorting.SortSorted`, `Sorting.SortStable` and `Sorting.SortUnique` |
| Sorting.SortBy | src/cli.rs:144-145 | `sort_by` on the array leaves exactly the functional stable sort of its old contents |
| Sorting.InsertInPlace | src/cli.rs:145 | one in-place insertion pass puts `a[i]` into the sorted prefix `a[..i]` exactly as the functional insertion does, leaving the rest of the array untouched |
| Sorting.ShiftedIsInsert | src/cli.rs:145 | the shifted array contents after the inner loop equal the functional insertion |
| Ranking.CompareFlip | src/cli.rs:145-162 | the `resort` comparator is antisymmetric |
| Ranking.CompareReflexive | src/cli.rs:145-162 | every entry ties with itself |
| Ranking.CompareTrans | src/cli.rs:145-162 | the comparator is transitive |
| Ranking.ByRankTotalPreorder | src/cli.rs:145-163 | the closure passed to `sort_by` is a total preorder, as a stable sort needs |
| Ranking.Compare | src/cli.rs:145-162 | no contract; the definition is the `sort_by` closure branch for branch. Its properties are `Ranking.CompareFlip`, `Ranking.CompareReflexive`, `Ranking.CompareTrans` and `Ranking.CompareByKey` |
| Ranking.Rank | src/cli.rs:144-163 | no contract; the definition is `dir_items` cloned and sorted by the closure. The `Ranking.Rank*` lemmas state what the ranking is |
| Ranking.CompareByKey | src/cli.rs:148-161 | the comparator orders by (case-sensitive match, folded match, folded offset, lower-cased name), each tier deciding when the earlier tiers tie |
| Ranking.KeyOrder | src/cli.rs:148-161 | when `a` may precede `b`, each key of `a` is no worse than `b`'s once the earlier keys tie |
| Ranking.RankPermutation | src/cli.rs:144-163 | the ranking neither drops nor duplicates an entry |
| Ranking.RankSorted | src/cli.rs:145-163 | every ranked entry may stand before every later one |
| Ranking.RankOrdered | src/cli.rs:145-163 | the same fact for one chosen pair of positions |
| Ranking.RankStable | src/cli.rs:145-163 | entries that tie keep their listing order |
| Ranking.RankUnique | src/cli.rs:145-163 | the ranking is the only sorted arrangement that keeps ties in listing order |
| Ranking.RankCaseOrder | src/cli.rs:148-152 | a later entry that contains the query as typed implies every earlier one does too |
| Ranking.RankFoldedOrder | src/cli.rs:157-159 | within a case tier, a later folded match implies an earlier one |
| Ranking.RankOffsetOrder | src/cli.rs:160 | within a tier, folded match offsets never decrease |
| Ranking.RankCaseMatchFirst | src/cli.rs:149-150 | a name containing the query as typed is ranked before one that does not |
| Ranking.RankFoldedMatchFirst | src/cli.rs:158-159 | in one case tier, a folded match is ranked before a non-match |
| Ranking.RankByOffset | src/cli.rs:160 | in one tier, an earlier folded offset is ranked first |
| Ranking.RankByLowerName | src/cli.rs:161 | when both match tiers tie, lower-cased names are in byte order |
| Ranking.RankEmptyQuery | src/cli.rs:143-161 | with an empty query the ranking is case-insensitive name order |
| Ranking.RankThreeTiers | src/cli.rs:145-163 | a typed match, a folded-only match and a non-match are ranked in that order, whatever their listing order |
| Ranking.ApScenario | src/cli.rs:145-163 | listing `Apple.txt`, `banana.txt`, `apricot.txt` with query `ap` ranks `apricot.txt`, `Apple.txt`, `banana.txt` |
| Layout.TruncateStr | src/cli.rs:21-27 | a name shorter than `len - 2` bytes is kept; otherwise the result is its first `len - 3` bytes and `...`, exactly `len` bytes |
| Layout.TruncateBound | src/cli.rs:21-27 | the result never exceeds `len` bytes, and is exactly `len` bytes if and only if the name was cut |
| Layout.TruncateGrowsAtEdge | src/cli.rs:22-25 | a name of exactly `len - 2` bytes comes back two bytes longer, its last byte replaced by `...` |
| Layout.TruncateIdempotent | src/cli.rs:21-27 | truncating twice is truncating once |
| Layout.RowCount | src/cli.rs:124-140 | a frame has `h` rows when the entries fit, else one row per entry plus two |
| Layout.RowEnds | src/cli.rs:127-138 | the formatted path heads the frame and the query row closes it |
| Layout.RowOfItem | src/cli.rs:128-134 | row `1 + i` is entry `i`'s row, marked by whether `i` is the selection |
| Layout.RowOfBlank | src/cli.rs:135-137 | the rows between the last entry and the query row are blank |
| Layout.ItemRowShape | src/cli.rs:129-133 | an entry row is its two-byte marker followed by the entry's text |
| Layout.SelectionMarker | src/cli.rs:128-134 | only the selected entry's row begins with `"> "`, every other entry row with two spaces, then the text |
| Layout.QueryRowShape | src/cli.rs:138 | the last row is `:`, the query, the caret, then spaces only |
| Layout.Header | src/cli.rs:127 | no contract; the definition is the formatted path padded to `w` characters. `Layout.RowEnds` and `Layout.ScreenFills` state it |
| Layout.ItemRow | src/cli.rs:129-133 | no contract; the definition is the marker and the padded text. `Layout.ItemRowShape`, `Layout.SelectionMarker` and `Layout.ItemRowWidth` state it |
| Layout.BlankRow | src/cli.rs:136 | no contract; the definition is `w` spaces. `Layout.RowOfBlank` and `Layout.BlanksWidth` state it |
| Layout.QueryRow | src/cli.rs:138 | no contract; the definition is `:` and the query with its caret, padded to `w - 1` characters. `Layout.QueryRowShape` and `Layout.QueryRowWidth` state it |
| Layout.Screen | src/cli.rs:124-140 | no contract; the definition is the rows written one after the other. `Layout.RowCount`, `Layout.RowEnds`, `Layout.RowOfItem`, `Layout.RowOfBlank`, `Layout.ScreenParts` and `Layout.ScreenFills` state it |
| Layout.ItemRowWidth | src/cli.rs:130-132 | an entry row is `w` characters unless its text is wider than `w - 2` |
| Layout.QueryRowWidth | src/cli.rs:138 | the query row counts the two-byte caret as one character |
| Layout.CharCountConcat | src/cli.rs:126-137 | rows of `w` characters each make `w` times as many characters pushed |
| Layout.ScreenParts | src/cli.rs:124-140 | the frame is the header, then the entry rows, then the blank rows, then the query row |
| Layout.EntriesWidth | src/cli.rs:128-134 | entry rows whose texts fit are `w` characters each |
| Layout.BlanksWidth | src/cli.rs:135-137 | the blank rows are `w` characters each |
| Layout.ScreenFills | src/cli.rs:124-140 | when the path, names and query fit, the frame is exactly `w * max(h, n + 2)` characters |
| Layout.PushEntryRows | src/cli.rs:128-134 | the entry loop appends exactly the entry rows |
| Layout.PushBlankRows | src/cli.rs:135-137 | the padding loop over `n..h - 2` appends exactly the blank rows, none when `n >= h - 2` |
| Session.Join | src/cli.rs:101 | `PathBuf::join` returns the component alone on an empty base, the base itself for `.` after a verbatim Windows base, and otherwise the base, a separator exactly when the base does not already end in one, and the component |
| Session.DotTarget | src/cli.rs:103-104 | Enter on `.` opens the current directory itself on Windows, and the path with `/.` appended elsewhere |
| Session.DotItem | src/cli.rs:164-172 | no contract; the definition is the `.` row, a directory with the metadata of the current path |
| Session.DotDotItem | src/cli.rs:173-181 | no contract; the definition is the `..` row, a directory with the metadata of the path joined with `..` |
| Session.View | src/cli.rs:164-182 | no contract; the definition is `..`, `.` and the ranked listing. `Session.ViewShape` states it |
| Session.Resorted | src/cli.rs:142-183 | no contract; the definition replaces `sorted_items` by `Session.View` and keeps every other field. `Session.Cli.Resort` and `Session.EditConsistent` state it |
| Session.Moved | src/cli.rs:184-193 | no contract; the definition is `move_dir` on the state. `Session.MoveOutcome`, `Session.MoveSelection` and `Session.MovedConsistent` state it |
| Session.Arrow | src/cli.rs:81-94 | no contract; the definition is the match on the second byte. `Session.UpDown`, `Session.ScreenUpDown`, `Session.ParentKeys`, `Session.IgnoredArrows` and `Session.ArrowConsistent` state it |
| Session.Enter | src/cli.rs:96-111 | no contract; the definition is the Enter branch. `Session.EnterRow`, `Session.EnterDots`, `Session.DotTarget`, `Session.EnterIgnoresLastTwoRows` and `Session.EnterConsistent` state it |
| Session.Handle | src/cli.rs:78-122 | no contract; the definition is `handle_input` on the state. `Session.QuitKey`, `Session.EditingKeys`, `Session.UnboundByte` and `Session.HandleConsistent` state it |
| Session.Popped | src/cli.rs:195-197 | no contract; the definition pops the front of the queue. `Session.Cli.Input` states it |
| Session.Tick | src/cli.rs:68-76 | no contract; the definition is one pass of `run` before the redraw. `Session.TickConsistent` and `Session.Cli.RunOnce` state it |
| Session.Started | src/cli.rs:39-55 | no contract; the definition is `move_dir(".")` then `resort` from the canonical start directory. `Session.StartConsistent` and `Session.Cli.Start` state it |
| Session.ViewShape | src/cli.rs:164-182 | `sorted_items` is `..`, then `.`, both directories, then every listed entry exactly once, in ranked order |
| Session.ConsistentPath | src/os_generic.rs:17-20 | the current path of a running session always has the prefix that the Windows formatter drops |
| Session.MoveOutcome | src/cli.rs:184-193 | a failed canonicalize changes nothing; a successful one sets the path, its listing, an empty query, the new ranking and selection 2 |
| Session.MoveSelection | src/cli.rs:191 | after a move the selection is the first ranked entry, or one past the last row in an empty directory |
| Session.MovedConsistent | src/cli.rs:184-193 | `move_dir` keeps the session invariant |
| Session.EditConsistent | src/cli.rs:112-119 | a query edit followed by `resort` keeps the invariant |
| Session.ArrowConsistent | src/cli.rs:81-94 | every second byte of an arrow sequence keeps the invariant |
| Session.SelectConsistent | src/cli.rs:82-90 | moving the selection to any row keeps the invariant |
| Session.EnterConsistent | src/cli.rs:96-111 | Enter keeps the invariant |
| Session.HandleConsistent | src/cli.rs:78-122 | every key byte keeps the invariant |
| Session.TickConsistent | src/cli.rs:68-76 | one pass of the main loop keeps the invariant |
| Session.StartConsistent | src/cli.rs:39-55 | a started session satisfies the invariant |
| Session.UpDown | src/cli.rs:82-83 | up and down move the selection by at most one, stay within the rows, and change nothing else |
| Session.ScreenUpDown | src/cli.rs:89-90 | screen-up selects the first row; screen-down decrements with no bound check |
| Session.ParentKeys | src/cli.rs:92-95 | Esc, and the Delete sequence, move to `..` |
| Session.IgnoredArrows | src/cli.rs:84-93 | any other second byte only leaves the queue |
| Session.EditingKeys | src/cli.rs:112-119 | backspace drops the last query byte (a no-op on an empty query), a printable byte is appended, and both re-rank without moving the selection, path or listing |
| Session.QuitKey | src/cli.rs:80 | Ctrl-C quits from any state |
| Session.UnboundByte | src/cli.rs:120 | a byte with no binding changes nothing |
| Session.EnterRow | src/cli.rs:96-111 | Enter on a listed row opens a file or `.` and navigates into a directory or link |
| Session.EnterDots | src/cli.rs:96-111 | Enter on `..` goes to the parent and on `.` opens the directory, each only as far as the guard lets it through |
| Session.EnterIgnoresLastTwoRows | src/cli.rs:97 | Enter on any row at or past `dir_items.len()` does nothing |
| Session.Cli.Start | src/cli.rs:39-55 | the constructor reaches `Started`: canonical path, `move_dir(".")`, `resort` |
| Session.Cli.Resort | src/cli.rs:142-183 | `resort` sets `sorted_items` to `..`, `.` and the ranked listing, and changes nothing else |
| Session.Cli.MoveDir | src/cli.rs:184-193 | `move_dir` changes the state exactly as `Moved` says |
| Session.Cli.Input | src/cli.rs:195-197 | `input` pops the oldest queued byte, or returns `None` on an empty queue |
| Session.Cli.AwaitInput | src/cli.rs:199-205 | `await_input` returns the oldest queued byte and removes it |
| Session.Cli.Receive | src/cli.rs:57-63 | the reader thread appends one byte to the back of the queue |
| Session.Cli.HandleInput | src/cli.rs:78-122 | `handle_input` changes the state and reports the effect exactly as `Handle` says, and keeps the invariant |
| Session.Cli.Render | src/cli.rs:124-140 | `render` returns exactly `Layout.Screen` of the formatted path, the rendered entries, the selection and the query |
| Session.Cli.RunOnce | src/cli.rs:68-76 | one pass of `run` handles the oldest byte as `Tick` says, keeps the invariant, and redraws the frame unless quitting |

## Behaviour that follows the code

- Query `ap` over `Apple.txt`, `banana.txt`, `apricot.txt`: the first tier is a case-sensitive match,
  so `apricot.txt` ranks before `Apple.txt`. `Apple.txt` matches only after lower-casing
  (`Ranking.ApScenario`).
- `truncate_str` cuts every name of `len - 2` bytes or more, including one that would fit the column.
  A name of exactly `len - 2` bytes comes back two bytes longer (`Layout.TruncateGrowsAtEdge`).
- Enter on `.` opens the current directory with the default handler instead of re-entering it.
- The Enter guard compares the selection with `dir_items.len()`, two less than the number of rows.
  Enter on the last two ranked entries does nothing, and `.` is opened only when the directory lists
  at least two entries (`Session.EnterIgnoresLastTwoRows`, `Session.EnterDots`).
- `move_dir` selects row `min(len, 2)`. In an empty directory that is one past the last row, so no row
  is marked (`Session.MoveSelection`).

## Left out

- Session.Cli.HandleInput: screen-down (224, 81) with selection 0 is excluded by the precondition
  `HandleDefined`. The source's `usize` decrement panics there in a debug build and wraps to
  `usize::MAX` in a release build.
- Session.Cli.AwaitInput: the busy wait is modelled only once the byte it waits for has arrived (the
  precondition `input != []`). A session whose queue never receives the second byte of an arrow
  sequence spins forever.
- Session.Cli.RunOnce: `run` loops forever. One pass of the loop is modelled, and the frame is returned
  instead of being printed.
- Session.Cli.Render: the terminal size (`size()`, `term_size::dimensions`) is a pair of parameters
  `w, h >= 2`. `Item::render` (src/files.rs) is not part of this model: it is the parameter `show`.
- `quit()` is the effect `Quit`. It writes the current directory to `cc_cwd` under `config_dir()`,
  restores the terminal and exits the process, all of which is I/O.
- The terminal escape codes, `enable_virtual_terminal_processing`, the reader thread's `getch` loop,
  the `Arc<Mutex<..>>` locking and `ctrlc::set_handler` in `start` are I/O and concurrency. The reader
  thread's effect on the queue is `Session.Cli.Receive`.
- `open::that` is the effect `Open(path)`. Its outcome is ignored by the source too.
- `canonicalize`, `collect_items` and `get_meta_info` are the oracle `Session.Host`. How listings and
  timestamps are produced from the operating system is not modelled. `env::set_current_dir` (whose
  failure panics) is not modelled.
- `config_dir`, `fmt_path_save` and `main.rs` are outside the session engine.
- Only valid UTF-8 is assumed where the source calls `to_str().unwrap()`. `truncate_str`'s `split_at`
  panics when `len - 3` falls inside a multi-byte character, and the model cuts at the byte offset
  instead.
- Layout.TruncateStr: requires `len >= 3`. Below that the source subtracts in `usize`. In a debug
  build `len - 2` panics for `len` 0 and 1, and for `len == 2` the subtraction `len - 3` panics. In a
  release build `len - 2` wraps to `usize::MAX - 1` for `len == 0` and to `usize::MAX` for `len == 1`,
  so `str.len() < len - 2` holds and `str` is returned unchanged. For `len == 2`, `len - 3` wraps to
  `usize::MAX` and `split_at` panics. None of these cases is modelled.
- `String::pop` removes a character. The model removes a byte, which is the same thing because the
  session invariant keeps the query printable ASCII.
- The two `#[cfg]` variants of `fmt_canonical_path` are selected by a `Platform` value instead of at
  compile time. `OsGeneric.FmtCanonicalPathWindows` requires 4 bytes, where `split_at(4)` would panic.
  Every canonical path of a valid host satisfies that (`Session.ConsistentPath`).
- Session.Join: after a verbatim Windows base, `PathBuf::push` also resolves `..` by dropping the last
  normal component. The model keeps `\..` in the joined path. That path is only a key into the
  `canonicalize` and `get_meta_info` oracles of `Session.Host`, so the lookups are unaffected, but the
  model does not state which directory the key names. An absolute component, which replaces the
  base, never occurs here: the components are `.`, `..` and names from a listing.
- Session.EditingKeys: the file system is one fixed value (`Session.Host`) for the whole session, so it
  does not change between keys. The source calls `get_meta_info` again for `.` and `..` on every
  `resort` and lists the directory again on every `move_dir`. Metadata that changed in between is not
  modelled. The clause that backspace on an empty query leaves the state unchanged holds only because
  of this. The invariant `Session.Consistent` (`sorted_items` equals the ranking) relies on it too.
- Session.Cli.Start: requires `dir in h.canonical`. The source's `canonicalize().unwrap()` panics when
  the starting directory does not resolve, and that case is not modelled.
- Session.Cli.MoveDir: `move_dir` assigns the new path and only then calls `collect_items`, whose
  `read_dir(..).expect(..)` panics when the canonical target is not a readable directory. That
  happens on Enter on a link to a regular file (`canonicalize` succeeds and names the file) and on
  Enter into a directory without read permission, and `self.path` is already reassigned when the
  panic hits. `Session.ValidHost` makes every canonical path a listed directory, so the model excludes
  this crash. It navigates or does nothing instead.
- Session.MoveOutcome: states the outcome of `move_dir` only on hosts satisfying `Session.ValidHost`.
  It excludes the same `collect_items` panic on a link to a file or on an unreadable directory, which
  strikes after `self.path` has been reassigned.
- Session.EnterRow: Enter on a `Link` row whose target is a regular file, or on a directory without
  read permission, crashes the source in `collect_items` after `self.path` has been reassigned.
  `Session.ValidHost` excludes these cases, so the lemma states only navigation or no change there.
