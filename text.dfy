/**
 * Byte-string primitives of Rust's `str`/`String` that the session engine
 * relies on: substring search (`find`), ASCII lower-casing
 * (`to_ascii_lowercase`), the total order of `Ord for str`, and the
 * right-padding done by `format!("{:w$}", ..)`.
 *
 * Rust strings are UTF-8 byte sequences and all of these operations are
 * defined on bytes (offsets and lengths are byte counts), so text is a
 * `seq<Byte>` here.
 */
module Text {

  /** Rust's `u8`. */
  type Byte = b: int | 0 <= b < 256

  datatype Option<T> = None | Some(value: T)

  /** Rust's `std::cmp::Ordering`. */
  datatype Ordering = Less | Equal | Greater

  function Flip(o: Ordering): Ordering
  {
    match o
    case Less => Greater
    case Equal => Equal
    case Greater => Less
  }

  function CmpNat(a: nat, b: nat): (r: Ordering)
    ensures r == Less <==> a < b
    ensures r == Greater <==> a > b
  {
    if a < b then Less else if a > b then Greater else Equal
  }

  const SPACE: Byte := 32

  /** The bytes of an ASCII string literal. */
  function Ascii(s: string): (r: seq<Byte>)
    requires forall i :: 0 <= i < |s| ==> s[i] < 128 as char
    ensures |r| == |s| && forall i :: 0 <= i < |s| ==> r[i] == s[i] as int
  {
    seq(|s|, i requires 0 <= i < |s| => s[i] as int)
  }

  // ---------------------------------------------------------------------
  // Substring search: `str::find(&str) -> Option<usize>`
  // ---------------------------------------------------------------------

  /** `p` occurs in `s` starting at byte offset `i`. */
  predicate OccursAt(s: seq<Byte>, p: seq<Byte>, i: nat)
  {
    i + |p| <= |s| && s[i..i + |p|] == p
  }

  /** The first byte offset at which `p` occurs in `s`, if any. */
  function Find(s: seq<Byte>, p: seq<Byte>): (r: Option<nat>)
    ensures r.Some? ==> OccursAt(s, p, r.value)
    ensures r.Some? ==> forall j: nat :: j < r.value ==> !OccursAt(s, p, j)
    ensures r.None? ==> forall j: nat :: !OccursAt(s, p, j)
    decreases |s|
  {
    if |p| <= |s| && s[..|p|] == p then
      Some(0)
    else if s == [] then
      None
    else
      assert |p| <= |s| ==> s[0..|p|] == s[..|p|];
      ShiftOccurrence(s, p);
      match Find(s[1..], p)
      case None => None
      case Some(i) => Some(i + 1)
  }

  /** An occurrence in `s` at `j >= 1` is an occurrence in `s[1..]` at `j - 1`. */
  lemma ShiftOccurrence(s: seq<Byte>, p: seq<Byte>)
    requires s != []
    ensures forall j: nat :: 1 <= j ==> (OccursAt(s, p, j) <==> OccursAt(s[1..], p, j - 1))
  {
    forall j: nat | 1 <= j
      ensures OccursAt(s, p, j) <==> OccursAt(s[1..], p, j - 1)
    {
      if j + |p| <= |s| {
        assert s[1..][j - 1..j - 1 + |p|] == s[j..j + |p|];
      }
    }
  }

  /** `p` is a substring of `s` (Rust: `s.find(p).is_some()`). */
  predicate Contains(s: seq<Byte>, p: seq<Byte>)
  {
    Find(s, p).Some?
  }

  /** The empty pattern is found at offset 0 in every string. */
  lemma FindEmpty(s: seq<Byte>)
    ensures Find(s, []) == Some(0)
  {
  }

  // ---------------------------------------------------------------------
  // ASCII lower-casing: `str::to_ascii_lowercase`
  // ---------------------------------------------------------------------

  function LowerByte(b: Byte): Byte
  {
    if 'A' as int <= b <= 'Z' as int then b + 32 else b
  }

  predicate IsUpper(b: Byte)
  {
    'A' as int <= b <= 'Z' as int
  }

  /** Every byte lower-cased on its own; the length never changes. */
  function Lower(s: seq<Byte>): (r: seq<Byte>)
    ensures |r| == |s|
    ensures forall i :: 0 <= i < |s| ==> r[i] == LowerByte(s[i])
    ensures forall i :: 0 <= i < |s| ==> !IsUpper(r[i])
    ensures forall i :: 0 <= i < |s| && !IsUpper(s[i]) ==> r[i] == s[i]
  {
    if s == [] then [] else [LowerByte(s[0])] + Lower(s[1..])
  }

  // ---------------------------------------------------------------------
  // `Ord for str`: byte-wise lexicographic order, a proper prefix first
  // ---------------------------------------------------------------------

  function LexCmp(a: seq<Byte>, b: seq<Byte>): Ordering
  {
    if a == [] && b == [] then Equal
    else if a == [] then Less
    else if b == [] then Greater
    else if a[0] < b[0] then Less
    else if a[0] > b[0] then Greater
    else LexCmp(a[1..], b[1..])
  }

  predicate LexLe(a: seq<Byte>, b: seq<Byte>)
  {
    LexCmp(a, b) != Greater
  }

  lemma {:induction false} LexCmpFlip(a: seq<Byte>, b: seq<Byte>)
    ensures LexCmp(b, a) == Flip(LexCmp(a, b))
  {
    if a != [] && b != [] && a[0] == b[0] {
      LexCmpFlip(a[1..], b[1..]);
    }
  }

  lemma {:induction false} LexCmpEqual(a: seq<Byte>, b: seq<Byte>)
    ensures LexCmp(a, b) == Equal <==> a == b
  {
    if a != [] && b != [] && a[0] == b[0] {
      LexCmpEqual(a[1..], b[1..]);
      if a[1..] == b[1..] {
        assert a == [a[0]] + a[1..] && b == [b[0]] + b[1..];
      }
    }
  }

  lemma {:induction false} LexLeTrans(a: seq<Byte>, b: seq<Byte>, c: seq<Byte>)
    requires LexLe(a, b) && LexLe(b, c)
    ensures LexLe(a, c)
  {
    if a != [] && b != [] && c != [] && a[0] == b[0] == c[0] {
      LexLeTrans(a[1..], b[1..], c[1..]);
    }
  }

  // ---------------------------------------------------------------------
  // Right-padding: `format!("{:w$}", s)` (never truncates)
  // ---------------------------------------------------------------------

  /** Number of UTF-8 characters: every byte that is not a continuation byte. */
  function CharCount(s: seq<Byte>): nat
  {
    if s == [] then 0
    else (if 0x80 <= s[0] < 0xC0 then 0 else 1) + CharCount(s[1..])
  }

  lemma {:induction false} CharCountAppend(a: seq<Byte>, b: seq<Byte>)
    ensures CharCount(a + b) == CharCount(a) + CharCount(b)
  {
    if a == [] {
      assert a + b == b;
    } else {
      assert (a + b)[1..] == a[1..] + b;
      CharCountAppend(a[1..], b);
    }
  }

  function Spaces(n: nat): (r: seq<Byte>)
    ensures |r| == n && forall i :: 0 <= i < n ==> r[i] == SPACE
  {
    seq(n, _ => SPACE)
  }

  lemma {:induction false} CharCountSpaces(n: nat)
    ensures CharCount(Spaces(n)) == n
  {
    if n > 0 {
      assert Spaces(n)[1..] == Spaces(n - 1);
      CharCountSpaces(n - 1);
    }
  }

  /** `s` followed by as many spaces as make it `width` characters wide. */
  function Pad(s: seq<Byte>, width: nat): (r: seq<Byte>)
    ensures |s| <= |r| && r[..|s|] == s
    ensures forall i :: |s| <= i < |r| ==> r[i] == SPACE
    ensures CharCount(r) == if CharCount(s) < width then width else CharCount(s)
  {
    if CharCount(s) < width then
      var r := s + Spaces(width - CharCount(s));
      CharCountAppend(s, Spaces(width - CharCount(s)));
      CharCountSpaces(width - CharCount(s));
      assert r[..|s|] == s;
      r
    else
      s
  }
}
