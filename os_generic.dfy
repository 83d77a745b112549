/**
 * Platform-dependent path formatting (src/os_generic.rs). The source picks
 * one of two definitions at compile time; here the platform is a value.
 */
module OsGeneric {
  import opened Text

  datatype Platform = Windows | Unix

  const BACKSLASH: Byte := '\\' as int
  const SLASH: Byte := '/' as int

  /** The prefix `\\?\` that `canonicalize` puts in front of every Windows path. */
  const VERBATIM_PREFIX: seq<Byte> := [BACKSLASH, BACKSLASH, '?' as int, BACKSLASH]

  /** The path separator `PathBuf::join` inserts. */
  function Separator(platform: Platform): Byte
  {
    if platform == Windows then BACKSLASH else SLASH
  }

  /** `str::replace("\\", "/")`: every backslash becomes a slash. */
  function ReplaceBackslashes(s: seq<Byte>): (r: seq<Byte>)
    ensures |r| == |s|
    ensures forall i :: 0 <= i < |s| ==> r[i] == if s[i] == BACKSLASH then SLASH else s[i]
  {
    if s == [] then []
    else [if s[0] == BACKSLASH then SLASH else s[0]] + ReplaceBackslashes(s[1..])
  }

  /**
   * The Windows variant: drop the 4-byte verbatim prefix (`\\?\`) and turn
   * every backslash into a slash. `split_at(4)` panics on a shorter string.
   */
  function FmtCanonicalPathWindows(path: seq<Byte>): (r: seq<Byte>)
    requires |path| >= 4
    ensures |r| == |path| - 4
    ensures forall i :: 0 <= i < |r| ==> r[i] != BACKSLASH
    ensures forall i :: 0 <= i < |r| && path[i + 4] != BACKSLASH ==> r[i] == path[i + 4]
    ensures forall i :: 0 <= i < |r| && path[i + 4] == BACKSLASH ==> r[i] == SLASH
  {
    ReplaceBackslashes(path[4..])
  }

  /** Every other platform shows the canonical path as it is. */
  function FmtCanonicalPathUnix(path: seq<Byte>): (r: seq<Byte>)
    ensures r == path
  {
    path
  }

  function FmtCanonicalPath(platform: Platform, path: seq<Byte>): seq<Byte>
    requires platform == Windows ==> |path| >= 4
  {
    match platform
    case Windows => FmtCanonicalPathWindows(path)
    case Unix => FmtCanonicalPathUnix(path)
  }

  /** A path whose tail already uses slashes loses exactly its prefix on Windows. */
  lemma WindowsSlashTail(path: seq<Byte>)
    requires |path| >= 4
    requires forall i :: 4 <= i < |path| ==> path[i] != BACKSLASH
    ensures FmtCanonicalPathWindows(path) == path[4..]
  {
  }

  /** On Windows a canonical path is shown without its verbatim prefix, with forward slashes. */
  lemma VerbatimStripped(rest: seq<Byte>)
    ensures FmtCanonicalPath(Windows, VERBATIM_PREFIX + rest) == ReplaceBackslashes(rest)
  {
    assert (VERBATIM_PREFIX + rest)[4..] == rest;
  }
}
