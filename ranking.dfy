/**
 * The ranking performed by `Cli::resort` (src/cli.rs): the directory's
 * entries are sorted (not filtered) by a comparator that puts names
 * containing the query first, then names containing it when both sides are
 * ASCII-lower-cased, then earlier match offsets, then lower-cased names.
 *
 * `sort_by` is Rust's stable sort, modelled by the `Sorting` module; this
 * module supplies the comparator, proves it is a total preorder, and states
 * the order the ranking produces.
 */
module Ranking {
  import opened Text
  import opened Files
  import Sorting

  // ---------------------------------------------------------------------
  // The comparator
  // ---------------------------------------------------------------------

  /** The name contains the query as typed. */
  predicate CaseMatch(x: Item, q: seq<Byte>)
  {
    Contains(x.name, q)
  }

  /** Where the lower-cased query first occurs in the lower-cased name. */
  function FoldedOffset(x: Item, q: seq<Byte>): Option<nat>
  {
    Find(Lower(x.name), Lower(q))
  }

  /** The `sort_by` closure, branch for branch. */
  function Compare(a: Item, b: Item, q: seq<Byte>): Ordering
  {
    var casedA := Find(a.name, q);
    var casedB := Find(b.name, q);
    if casedA.Some? && casedB.None? then Less
    else if casedA.None? && casedB.Some? then Greater
    else
      var query := Lower(q);
      var nameA := Lower(a.name);
      var nameB := Lower(b.name);
      var idxA := Find(nameA, query);
      var idxB := Find(nameB, query);
      if idxA.Some? && idxB.None? then Less
      else if idxA.None? && idxB.Some? then Greater
      else if idxA.Some? && idxB.Some? && idxA.value != idxB.value then CmpNat(idxA.value, idxB.value)
      else LexCmp(nameA, nameB)
  }

  /** `a` may stand before `b`. */
  predicate Le(a: Item, b: Item, q: seq<Byte>)
  {
    Compare(a, b, q) != Greater
  }

  lemma CompareFlip(a: Item, b: Item, q: seq<Byte>)
    ensures Compare(b, a, q) == Flip(Compare(a, b, q))
  {
    LexCmpFlip(Lower(a.name), Lower(b.name));
  }

  lemma CompareReflexive(a: Item, q: seq<Byte>)
    ensures Compare(a, a, q) == Equal
  {
    LexCmpEqual(Lower(a.name), Lower(a.name));
  }

  lemma CompareTrans(a: Item, b: Item, c: Item, q: seq<Byte>)
    requires Le(a, b, q) && Le(b, c, q)
    ensures Le(a, c, q)
  {
    KeyOrder(a, b, q);
    KeyOrder(b, c, q);
    CompareByKey(a, c, q);
    if CaseMatch(a, q) == CaseMatch(c, q) && FoldedOffset(a, q) == FoldedOffset(c, q) {
      LexLeTrans(Lower(a.name), Lower(b.name), Lower(c.name));
    }
  }

  /** The comparator as the closure handed to `sort_by`. */
  function ByRank(q: seq<Byte>): (Item, Item) -> Ordering
  {
    (a: Item, b: Item) => Compare(a, b, q)
  }

  /** The closure is a total preorder, as `sort_by` requires. */
  lemma ByRankTotalPreorder(q: seq<Byte>)
    ensures Sorting.TotalPreorder(ByRank(q))
  {
    var cmp := ByRank(q);
    forall a, b
      ensures cmp(b, a) == Flip(cmp(a, b))
    {
      CompareFlip(a, b, q);
    }
    forall a, b, c | cmp(a, b) != Greater && cmp(b, c) != Greater
      ensures cmp(a, c) != Greater
    {
      CompareTrans(a, b, c, q);
    }
  }

  /** The ranked entries: `dir_items` cloned and sorted by the closure. */
  function Rank(s: seq<Item>, q: seq<Byte>): seq<Item>
  {
    Sorting.Sort(ByRank(q), s)
  }

  /** Ranking reorders and never filters: a permutation of the entries. */
  lemma RankPermutation(s: seq<Item>, q: seq<Byte>)
    ensures |Rank(s, q)| == |s|
    ensures multiset(Rank(s, q)) == multiset(s)
  {
    Sorting.SortPermutation(ByRank(q), s);
  }

  /** Every entry may stand before every later one. */
  lemma RankSorted(s: seq<Item>, q: seq<Byte>)
    ensures var r := Rank(s, q);
      forall i, j :: 0 <= i < j < |r| ==> Le(r[i], r[j], q)
  {
    ByRankTotalPreorder(q);
    Sorting.SortSorted(ByRank(q), s);
  }

  /** One instance of `RankSorted`, for proofs that need a single pair. */
  lemma RankOrdered(s: seq<Item>, q: seq<Byte>, i: nat, j: nat)
    requires i < j < |Rank(s, q)|
    ensures Le(Rank(s, q)[i], Rank(s, q)[j], q)
  {
    RankSorted(s, q);
  }

  /** Entries the comparator ties keep the order `dir_items` had. */
  lemma RankStable(s: seq<Item>, k: Item, q: seq<Byte>)
    ensures Sorting.TiedWith(ByRank(q), Rank(s, q), k) == Sorting.TiedWith(ByRank(q), s, k)
  {
    ByRankTotalPreorder(q);
    Sorting.SortStable(ByRank(q), s, k);
  }

  /**
   * Whatever stable algorithm `sort_by` uses, its result is `Rank`: any
   * arrangement sorted by the comparator that keeps the input order of
   * every tie class equals it.
   */
  lemma RankUnique(s: seq<Item>, t: seq<Item>, q: seq<Byte>)
    requires forall i, j :: 0 <= i < j < |t| ==> Le(t[i], t[j], q)
    requires forall k :: Sorting.TiedWith(ByRank(q), t, k) == Sorting.TiedWith(ByRank(q), s, k)
    ensures t == Rank(s, q)
  {
    ByRankTotalPreorder(q);
    Sorting.SortUnique(ByRank(q), s, t);
  }

  // ---------------------------------------------------------------------
  // The order `Rank` produces, tier by tier
  // ---------------------------------------------------------------------

  /** The comparator read as a lexicographic key: tier, folded match, offset, lower-cased name. */
  lemma CompareByKey(a: Item, b: Item, q: seq<Byte>)
    ensures CaseMatch(a, q) && !CaseMatch(b, q) ==> Compare(a, b, q) == Less
    ensures (CaseMatch(a, q) == CaseMatch(b, q) && FoldedOffset(a, q).Some? && FoldedOffset(b, q).None?)
      ==> Compare(a, b, q) == Less
    ensures (CaseMatch(a, q) == CaseMatch(b, q) && FoldedOffset(a, q).Some? && FoldedOffset(b, q).Some?
             && FoldedOffset(a, q).value < FoldedOffset(b, q).value)
      ==> Compare(a, b, q) == Less
    ensures (CaseMatch(a, q) == CaseMatch(b, q) && FoldedOffset(a, q) == FoldedOffset(b, q))
      ==> Compare(a, b, q) == LexCmp(Lower(a.name), Lower(b.name))
  {
  }

  /**
   * The converse reading: an entry that may precede another has a key no
   * greater, component by component.
   */
  lemma KeyOrder(a: Item, b: Item, q: seq<Byte>)
    requires Le(a, b, q)
    ensures CaseMatch(b, q) ==> CaseMatch(a, q)
    ensures (CaseMatch(a, q) == CaseMatch(b, q) && FoldedOffset(b, q).Some?) ==> FoldedOffset(a, q).Some?
    ensures (CaseMatch(a, q) == CaseMatch(b, q) && FoldedOffset(a, q).Some? && FoldedOffset(b, q).Some?)
      ==> FoldedOffset(a, q).value <= FoldedOffset(b, q).value
    ensures (CaseMatch(a, q) == CaseMatch(b, q) && FoldedOffset(a, q) == FoldedOffset(b, q))
      ==> LexLe(Lower(a.name), Lower(b.name))
  {
  }

  // `KeyOrder` for two positions of the ranked entries, one component at a time

  lemma RankCaseOrder(s: seq<Item>, q: seq<Byte>, i: nat, j: nat)
    requires i < j < |Rank(s, q)|
    ensures CaseMatch(Rank(s, q)[j], q) ==> CaseMatch(Rank(s, q)[i], q)
  {
    RankOrdered(s, q, i, j);
    KeyOrder(Rank(s, q)[i], Rank(s, q)[j], q);
  }

  lemma RankFoldedOrder(s: seq<Item>, q: seq<Byte>, i: nat, j: nat)
    requires i < j < |Rank(s, q)|
    requires CaseMatch(Rank(s, q)[i], q) == CaseMatch(Rank(s, q)[j], q)
    ensures FoldedOffset(Rank(s, q)[j], q).Some? ==> FoldedOffset(Rank(s, q)[i], q).Some?
  {
    RankOrdered(s, q, i, j);
    KeyOrder(Rank(s, q)[i], Rank(s, q)[j], q);
  }

  lemma RankOffsetOrder(s: seq<Item>, q: seq<Byte>, i: nat, j: nat)
    requires i < j < |Rank(s, q)|
    requires CaseMatch(Rank(s, q)[i], q) == CaseMatch(Rank(s, q)[j], q)
    requires FoldedOffset(Rank(s, q)[i], q).Some? && FoldedOffset(Rank(s, q)[j], q).Some?
    ensures FoldedOffset(Rank(s, q)[i], q).value <= FoldedOffset(Rank(s, q)[j], q).value
  {
    RankOrdered(s, q, i, j);
    KeyOrder(Rank(s, q)[i], Rank(s, q)[j], q);
  }

  /** Every name containing the query as typed precedes every name that does not. */
  lemma RankCaseMatchFirst(s: seq<Item>, q: seq<Byte>, i: nat, j: nat)
    requires i < |Rank(s, q)| && j < |Rank(s, q)|
    requires CaseMatch(Rank(s, q)[i], q) && !CaseMatch(Rank(s, q)[j], q)
    ensures i < j
  {
    if j == i {
      assert false;
    } else if j < i {
      RankCaseOrder(s, q, j, i);
      assert false;
    }
  }

  /** Within a tier, names matching the query ignoring ASCII case come first. */
  lemma RankFoldedMatchFirst(s: seq<Item>, q: seq<Byte>, i: nat, j: nat)
    requires i < |Rank(s, q)| && j < |Rank(s, q)|
    requires CaseMatch(Rank(s, q)[i], q) == CaseMatch(Rank(s, q)[j], q)
    requires FoldedOffset(Rank(s, q)[i], q).Some? && FoldedOffset(Rank(s, q)[j], q).None?
    ensures i < j
  {
    if j == i {
      assert false;
    } else if j < i {
      RankFoldedOrder(s, q, j, i);
      assert false;
    }
  }

  /** Within a tier, two folded matches at different offsets are ordered by offset. */
  lemma RankByOffset(s: seq<Item>, q: seq<Byte>, i: nat, j: nat)
    requires i < |Rank(s, q)| && j < |Rank(s, q)|
    requires CaseMatch(Rank(s, q)[i], q) == CaseMatch(Rank(s, q)[j], q)
    requires FoldedOffset(Rank(s, q)[i], q).Some? && FoldedOffset(Rank(s, q)[j], q).Some?
    requires FoldedOffset(Rank(s, q)[i], q).value < FoldedOffset(Rank(s, q)[j], q).value
    ensures i < j
  {
    if j == i {
      assert false;
    } else if j < i {
      RankOffsetOrder(s, q, j, i);
      assert false;
    }
  }

  /** Remaining ties (same tier, same folded offset or none) go by lower-cased name. */
  lemma RankByLowerName(s: seq<Item>, q: seq<Byte>, i: nat, j: nat)
    requires i < j < |Rank(s, q)|
    requires CaseMatch(Rank(s, q)[i], q) == CaseMatch(Rank(s, q)[j], q)
    requires FoldedOffset(Rank(s, q)[i], q) == FoldedOffset(Rank(s, q)[j], q)
    ensures LexLe(Lower(Rank(s, q)[i].name), Lower(Rank(s, q)[j].name))
  {
    RankOrdered(s, q, i, j);
    KeyOrder(Rank(s, q)[i], Rank(s, q)[j], q);
  }

  /** With an empty query the ranking is plain ASCII-case-insensitive name order. */
  lemma RankEmptyQuery(s: seq<Item>)
    ensures var r := Rank(s, []);
      forall i, j :: 0 <= i < j < |r| ==> LexLe(Lower(r[i].name), Lower(r[j].name))
  {
    var r := Rank(s, []);
    forall i, j | 0 <= i < j < |r|
      ensures LexLe(Lower(r[i].name), Lower(r[j].name))
    {
      FindEmpty(r[i].name);
      FindEmpty(r[j].name);
      FindEmpty(Lower(r[i].name));
      FindEmpty(Lower(r[j].name));
      RankByLowerName(s, [], i, j);
    }
  }

  /** `p` cannot occur in `s` when `s` lacks one of `p`'s bytes. */
  lemma MissingByte(s: seq<Byte>, p: seq<Byte>, k: nat)
    requires k < |p| && forall i :: 0 <= i < |s| ==> s[i] != p[k]
    ensures Find(s, p).None?
  {
    forall j: nat
      ensures !OccursAt(s, p, j)
    {
      if j + |p| <= |s| {
        assert s[j..j + |p|][k] == s[j + k];
      }
    }
  }

  /**
   * Three entries, one per tier: a name holding the query as typed, a name
   * holding it only once both are lower-cased, and a name holding neither,
   * are ranked in that order whatever order the listing gives them in.
   */
  lemma RankThreeTiers(s: seq<Item>, q: seq<Byte>, a: Item, b: Item, c: Item)
    requires multiset(s) == multiset{a, b, c}
    requires CaseMatch(a, q)
    requires !CaseMatch(b, q) && FoldedOffset(b, q).Some?
    requires !CaseMatch(c, q) && FoldedOffset(c, q).None?
    ensures Rank(s, q) == [a, b, c]
  {
    var r := Rank(s, q);
    RankPermutation(s, q);
    assert a in r && b in r && c in r;
    var i :| 0 <= i < |r| && r[i] == a;
    var j :| 0 <= j < |r| && r[j] == b;
    var k :| 0 <= k < |r| && r[k] == c;
    RankCaseMatchFirst(s, q, i, j);
    RankCaseMatchFirst(s, q, i, k);
    RankFoldedMatchFirst(s, q, j, k);
    assert i == 0 && j == 1 && k == 2;
  }

  /** `p[k]` is a byte that neither `s` nor its lower-casing holds. */
  lemma MissingFolded(s: seq<Byte>, p: seq<Byte>, k: nat)
    requires k < |p| && !IsUpper(p[k])
    requires forall i :: 0 <= i < |s| ==> LowerByte(s[i]) != p[k]
    ensures Find(Lower(s), p).None?
  {
    MissingByte(Lower(s), p, k);
  }

  // ---------------------------------------------------------------------
  // A worked example: `Apple.txt`, `banana.txt`, `apricot.txt` and query "ap"
  // ---------------------------------------------------------------------

  const AP: seq<Byte> := Ascii("ap")
  const APPLE: seq<Byte> := Ascii("Apple.txt")
  const BANANA: seq<Byte> := Ascii("banana.txt")
  const APRICOT: seq<Byte> := Ascii("apricot.txt")

  lemma ApricotMatches()
    ensures Find(APRICOT, AP).Some?
  {
    assert APRICOT[..2] == AP;
  }

  lemma QueryFolded()
    ensures Lower(AP) == AP
  {
    assert Lower(AP)[0] == AP[0] && Lower(AP)[1] == AP[1];
  }

  lemma AppleMisses()
    ensures Find(APPLE, AP).None?
  {
    MissingByte(APPLE, AP, 0);
  }

  lemma AppleFolded()
    ensures Find(Lower(APPLE), Lower(AP)) == Some(0)
  {
    QueryFolded();
    var lower := Lower(APPLE);
    assert lower[0] == AP[0] && lower[1] == AP[1];
    assert lower[..2] == AP;
  }

  lemma BananaMisses()
    ensures Find(BANANA, AP).None?
  {
    MissingByte(BANANA, AP, 1);
  }

  lemma BananaFoldedMisses()
    ensures Find(Lower(BANANA), Lower(AP)).None?
  {
    QueryFolded();
    MissingFolded(BANANA, AP, 1);
  }

  /**
   * Whatever their kinds and metadata, `apricot.txt` holds "ap" as typed
   * and comes first; `Apple.txt` holds it only case-folded and comes
   * second; `banana.txt` comes last.
   */
  lemma ApScenario(apple: Item, banana: Item, apricot: Item)
    requires apple.name == APPLE && banana.name == BANANA && apricot.name == APRICOT
    ensures Rank([apple, banana, apricot], AP) == [apricot, apple, banana]
  {
    ApricotMatches();
    AppleMisses();
    AppleFolded();
    BananaMisses();
    BananaFoldedMisses();
    assert multiset([apple, banana, apricot]) == multiset{apricot, apple, banana};
    RankThreeTiers([apple, banana, apricot], AP, apricot, apple, banana);
  }
}
