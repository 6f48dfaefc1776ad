/**
 * The dashboard's ranking of categories: the breakdown entries in
 * declaration order, stably sorted by amount, largest first, cut to the
 * first three, with entries that are not positive dropped; and the
 * top-category card's label.
 */
module Dashboard {
  import opened Wrappers
  import opened Expenses
  import opened StableSort
  import Helpers

  /** A breakdown entry: a category and its total. */
  datatype Ranked = Ranked(category: Category, amount: int)

  /** The number of categories the card lists at most. */
  const TopCount: nat := 3

  /** `Object.entries(summary.categoryBreakdown)`: the six categories in declaration order. */
  function BreakdownEntries(b: map<Category, int>): (r: seq<Ranked>)
    requires forall c :: c in b
    ensures |r| == |AllCategories|
    ensures forall i :: 0 <= i < |r| ==> r[i].category == AllCategories[i] && r[i].amount == b[AllCategories[i]]
  {
    seq(|AllCategories|, i requires 0 <= i < |AllCategories| => Ranked(AllCategories[i], b[AllCategories[i]]))
  }

  /** What the comparator `b - a` sees of each entry. */
  function AmountKeys(entries: seq<Ranked>): (keys: seq<Option<int>>)
    ensures |keys| == |entries| && AllKeysFrom(keys, 0)
    ensures forall i :: 0 <= i < |entries| ==> keys[i] == Some(entries[i].amount)
  {
    seq(|entries|, i requires 0 <= i < |entries| => Some(entries[i].amount))
  }

  /** The entries after `.sort(([, a], [, b]) => b - a)`. */
  function RankedEntries(b: map<Category, int>): seq<Ranked>
    requires forall c :: c in b
  {
    var entries := BreakdownEntries(b);
    Apply(entries, SortOrder(AmountKeys(entries)))
  }

  /** `topCategories`: the first three ranked entries whose amount is positive. */
  function TopCategories(b: map<Category, int>): seq<Ranked>
    requires forall c :: c in b
  {
    var ranked := RankedEntries(b);
    Filter(ranked[..TopCount], (r: Ranked) => r.amount > 0)
  }

  /** `c` is one of the listed categories. */
  predicate Lists(r: seq<Ranked>, c: Category)
  {
    exists i :: 0 <= i < |r| && r[i].category == c
  }

  /**
   * Larger amounts first; equal amounts in declaration order. The second
   * half is the stable sort's promise: categories are entries in
   * declaration order, so the input position is the declaration index.
   */
  predicate RankedBefore(x: Ranked, y: Ranked)
  {
    x.amount > y.amount || (x.amount == y.amount && CategoryIndex(x.category) < CategoryIndex(y.category))
  }

  /**
   * The ranking lists every category once, with its total, larger
   * amounts first and ties in declaration order.
   */
  lemma RankedEntriesSpec(b: map<Category, int>)
    requires forall c :: c in b
    ensures var r := RankedEntries(b);
      && |r| == |AllCategories|
      && (forall p :: 0 <= p < |r| ==> r[p].amount == b[r[p].category])
      && InOrder(r, RankedBefore)
      && (forall c :: Lists(r, c))
  {
    RankedEntriesOrder(b);
    RankedEntriesComplete(b);
  }

  lemma RankedEntriesOrder(b: map<Category, int>)
    requires forall c :: c in b
    ensures InOrder(RankedEntries(b), RankedBefore)
  {
    var entries := BreakdownEntries(b);
    var keys := AmountKeys(entries);
    var perm := SortOrder(keys);
    var r := RankedEntries(b);
    IndexOfListed();
    forall p, q | 0 <= p < q < |r| ensures RankedBefore(r[p], r[q]) {
      assert r[p] == entries[perm[p]] && r[q] == entries[perm[q]];
      assert !Precedes(keys[perm[q]], keys[perm[p]]);
      if keys[perm[p]] == keys[perm[q]] {
        assert perm[p] < perm[q];
      }
    }
  }

  lemma RankedEntriesComplete(b: map<Category, int>)
    requires forall c :: c in b
    ensures forall c :: Lists(RankedEntries(b), c)
  {
    var entries := BreakdownEntries(b);
    var keys := AmountKeys(entries);
    var perm := SortOrder(keys);
    var r := RankedEntries(b);
    forall c ensures Lists(r, c) {
      var k := CategoryIndex(c);
      SortOrderIsPermutation(keys, k);
      assert k in multiset(perm);
      var p :| 0 <= p < |perm| && perm[p] == k;
      assert r[p].category == c;
    }
  }

  /** At most three entries, each positive and showing its category's total. */
  lemma TopCategoriesBounds(b: map<Category, int>)
    requires forall c :: c in b
    ensures var t := TopCategories(b);
      && |t| <= TopCount
      && forall i :: 0 <= i < |t| ==> t[i].amount > 0 && t[i].amount == b[t[i].category]
  {
    RankedEntriesSpec(b);
    var ranked := RankedEntries(b);
    var t := TopCategories(b);
    forall i | 0 <= i < |t| ensures t[i].amount == b[t[i].category] {
      var j :| 0 <= j < TopCount && ranked[..TopCount][j] == t[i];
    }
  }

  /** The listed entries are in non-increasing amount order, ties in declaration order. */
  lemma TopCategoriesOrder(b: map<Category, int>)
    requires forall c :: c in b
    ensures InOrder(TopCategories(b), RankedBefore)
  {
    RankedEntriesSpec(b);
    var ranked := RankedEntries(b);
    assert InOrder(ranked[..TopCount], RankedBefore);
    FilterKeepsOrder(ranked[..TopCount], RankedBefore, (r: Ranked) => r.amount > 0);
  }

  /** The position of `c` in the ranking. */
  lemma RankOf(b: map<Category, int>, c: Category) returns (p: nat)
    requires forall c :: c in b
    ensures p < |RankedEntries(b)| && RankedEntries(b)[p].category == c
  {
    RankedEntriesSpec(b);
    var r := RankedEntries(b);
    assert Lists(r, c);
    p :| 0 <= p < |r| && r[p].category == c;
  }

  /** A positive category left off the list is not among the first three ranked. */
  lemma UnlistedRanksLow(b: map<Category, int>, c: Category) returns (p: nat)
    requires forall c :: c in b
    requires b[c] > 0 && !Lists(TopCategories(b), c)
    ensures TopCount <= p < |RankedEntries(b)| && RankedEntries(b)[p].category == c
  {
    RankedEntriesSpec(b);
    var ranked := RankedEntries(b);
    var top := ranked[..TopCount];
    var t := TopCategories(b);
    p := RankOf(b, c);
    forall j | 0 <= j < TopCount && ranked[j].amount > 0 ensures Lists(t, ranked[j].category) {
      assert top[j] == ranked[j] && top[j] in t;
      var i :| 0 <= i < |t| && t[i] == top[j];
    }
  }

  /**
   * A positive category left off the list ranks below every listed one;
   * and when fewer than three are listed, no positive category is left off.
   */
  lemma TopCategoriesAreLargest(b: map<Category, int>, c: Category)
    requires forall c :: c in b
    requires b[c] > 0 && !Lists(TopCategories(b), c)
    ensures var t := TopCategories(b);
      forall i :: 0 <= i < |t| ==> RankedBefore(t[i], Ranked(c, b[c]))
    ensures |TopCategories(b)| == TopCount
  {
    RankedEntriesSpec(b);
    var ranked := RankedEntries(b);
    var top := ranked[..TopCount];
    var t := TopCategories(b);
    var p := UnlistedRanksLow(b, c);
    forall i | 0 <= i < |t| ensures RankedBefore(t[i], Ranked(c, b[c])) {
      var j :| 0 <= j < TopCount && top[j] == t[i];
      assert ranked[j] == t[i] && ranked[p] == Ranked(c, b[c]);
    }
    forall j | 0 <= j < TopCount ensures top[j].amount > 0 {
      assert RankedBefore(ranked[j], ranked[p]);
    }
    FilterAllPass(top, (r: Ranked) => r.amount > 0);
  }

  /**
   * The list agrees with the summary's top category: it is empty exactly
   * when there is none, and otherwise starts with it.
   */
  lemma TopCategoriesStartWithTop(b: map<Category, int>, top: Option<Category>)
    requires forall c :: c in b
    requires Helpers.IsTopCategory(b, top)
    ensures TopCategories(b) == [] <==> top.None?
    ensures top.Some? ==> TopCategories(b)[0].category == top.value
  {
    RankedEntriesSpec(b);
    var ranked := RankedEntries(b);
    var pos := (r: Ranked) => r.amount > 0;
    var head := ranked[..TopCount];
    match top
    case None =>
      forall j | 0 <= j < |head| ensures !pos(head[j]) {
        assert head[j] == ranked[j];
      }
      FilterNonePass(head, pos);
    case Some(t) =>
      var p := RankOf(b, t);
      var first := ranked[0].category;
      assert p == 0 || RankedBefore(ranked[0], ranked[p]);
      assert ranked[0].amount == b[first] <= b[t];
      if p > 0 {
        assert false;
      }
      assert head[0] == ranked[0];
      FilterFirst(head, pos);
  }

  /** The top-category card's value: the category's name, or `'N/A'` when there is none. */
  function TopCategoryLabel(top: Option<Category>): (s: string)
    ensures s == "N/A" <==> top.None?
    ensures top.Some? ==> s == CategoryName(top.value)
  {
    match top
    case None => "N/A"
    case Some(c) => CategoryName(c)
  }
}
