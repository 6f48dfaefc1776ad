/**
 * The expense record, its closed category enumeration, and the sequence
 * operations every component builds on: sums of amounts and the order-
 * keeping `filter`.
 */
module Expenses {

  /** The six categories, in declaration order (the order of every breakdown record). */
  datatype Category = Food | Transportation | Entertainment | Shopping | Bills | Other

  const AllCategories: seq<Category> := [Food, Transportation, Entertainment, Shopping, Bills, Other]

  function CategoryIndex(c: Category): (i: nat)
    ensures i < |AllCategories| && AllCategories[i] == c
  {
    match c
    case Food => 0
    case Transportation => 1
    case Entertainment => 2
    case Shopping => 3
    case Bills => 4
    case Other => 5
  }

  /** Each category's index is its position in the declaration order. */
  lemma IndexOfListed()
    ensures forall i :: 0 <= i < |AllCategories| ==> CategoryIndex(AllCategories[i]) == i
  {
    assert AllCategories[0] == Food && AllCategories[1] == Transportation && AllCategories[2] == Entertainment;
    assert AllCategories[3] == Shopping && AllCategories[4] == Bills && AllCategories[5] == Other;
  }

  /** The category's name as stored and displayed. */
  function CategoryName(c: Category): (s: string)
    ensures s != []
  {
    match c
    case Food => "Food"
    case Transportation => "Transportation"
    case Entertainment => "Entertainment"
    case Shopping => "Shopping"
    case Bills => "Bills"
    case Other => "Other"
  }

  /**
   * One persisted expense. `amount` is in cents; `date` is the stored text,
   * which the components parse on use; the timestamps are ISO strings
   * supplied by the caller.
   */
  datatype Expense = Expense(
    id: string,
    date: string,
    amount: int,
    category: Category,
    description: string,
    createdAt: string,
    updatedAt: string)

  /** `expenses.reduce((sum, e) => sum + e.amount, 0)`. */
  function Total(s: seq<Expense>): int
  {
    if s == [] then 0 else Total(s[..|s| - 1]) + s[|s| - 1].amount
  }

  /** The sum of the amounts of the records in one category. */
  function CategoryTotal(s: seq<Expense>, c: Category): int
  {
    if s == [] then 0
    else CategoryTotal(s[..|s| - 1], c) + (if s[|s| - 1].category == c then s[|s| - 1].amount else 0)
  }

  const CategorySet: set<Category> := {Food, Transportation, Entertainment, Shopping, Bills, Other}

  /** The enumeration is closed: every category is one of the six. */
  lemma CategorySetComplete()
    ensures forall c :: c in CategorySet
  {
    forall c ensures c in CategorySet {
      match c
      case Food =>
      case Transportation =>
      case Entertainment =>
      case Shopping =>
      case Bills =>
      case Other =>
    }
  }

  /** The per-category totals; all six categories have an entry. */
  function Breakdown(s: seq<Expense>): (b: map<Category, int>)
    ensures forall c :: c in b && b[c] == CategoryTotal(s, c)
  {
    CategorySetComplete();
    map c | c in CategorySet :: CategoryTotal(s, c)
  }

  predicate NonNegativeAmounts(s: seq<Expense>)
  {
    forall i :: 0 <= i < |s| ==> s[i].amount >= 0
  }

  lemma {:induction false} TotalAppend(s: seq<Expense>, t: seq<Expense>)
    ensures Total(s + t) == Total(s) + Total(t)
    decreases |t|
  {
    if t == [] {
      assert s + t == s;
    } else {
      assert (s + t)[..|s + t| - 1] == s + t[..|t| - 1];
      TotalAppend(s, t[..|t| - 1]);
    }
  }

  lemma {:induction false} TotalNonNegative(s: seq<Expense>)
    requires NonNegativeAmounts(s)
    ensures Total(s) >= 0
  {
    if s != [] {
      TotalNonNegative(s[..|s| - 1]);
    }
  }

  /** `xs.filter(p)`: the elements satisfying `p`, in their original order. */
  function Filter<T(==)>(s: seq<T>, p: T -> bool): (r: seq<T>)
    ensures |r| <= |s|
    ensures forall i :: 0 <= i < |r| ==> p(r[i])
    ensures forall i :: 0 <= i < |r| ==> r[i] in s
    ensures forall i :: 0 <= i < |s| && p(s[i]) ==> s[i] in r
    ensures IsSubsequence(r, s)
  {
    if s == [] then []
    else
      var init := Filter(s[..|s| - 1], p);
      var last := s[|s| - 1];
      assert s == s[..|s| - 1] + [last];
      if p(last) then
        var r := init + [last];
        assert r[..|r| - 1] == init;
        r
      else
        init
  }

  /** The filter keeps every copy of what passes and none of what does not. */
  lemma {:induction false} FilterCounts<T>(s: seq<T>, p: T -> bool)
    ensures forall x :: multiset(Filter(s, p))[x] == if p(x) then multiset(s)[x] else 0
  {
    if s != [] {
      var init, last := s[..|s| - 1], s[|s| - 1];
      FilterCounts(init, p);
      assert s == init + [last];
      assert multiset(s) == multiset(init) + multiset{last};
      if p(last) {
        assert Filter(s, p) == Filter(init, p) + [last];
        assert multiset(Filter(s, p)) == multiset(Filter(init, p)) + multiset{last};
      } else {
        assert Filter(s, p) == Filter(init, p);
      }
    }
  }

  /** `a` can be obtained from `b` by deleting elements. */
  predicate IsSubsequence<T(==)>(a: seq<T>, b: seq<T>)
    decreases |b|
  {
    if a == [] then true
    else if b == [] then false
    else
      || (a[|a| - 1] == b[|b| - 1] && IsSubsequence(a[..|a| - 1], b[..|b| - 1]))
      || IsSubsequence(a, b[..|b| - 1])
  }

  lemma {:induction false} FilterAllPass<T>(s: seq<T>, p: T -> bool)
    requires forall i :: 0 <= i < |s| ==> p(s[i])
    ensures Filter(s, p) == s
  {
    if s != [] {
      FilterAllPass(s[..|s| - 1], p);
      assert s == s[..|s| - 1] + [s[|s| - 1]];
    }
  }

  lemma {:induction false} FilterNonePass<T>(s: seq<T>, p: T -> bool)
    requires forall i :: 0 <= i < |s| ==> !p(s[i])
    ensures Filter(s, p) == []
  {
    if s != [] {
      FilterNonePass(s[..|s| - 1], p);
    }
  }

  /** With non-negative amounts, dropping records cannot raise the total. */
  lemma {:induction false} TotalFilterAtMost(s: seq<Expense>, p: Expense -> bool)
    requires NonNegativeAmounts(s)
    ensures 0 <= Total(Filter(s, p)) <= Total(s)
  {
    if s != [] {
      var init := s[..|s| - 1];
      TotalFilterAtMost(init, p);
      var last := s[|s| - 1];
      if p(last) {
        var r := Filter(init, p) + [last];
        assert r[..|r| - 1] == Filter(init, p);
      }
    }
  }

  /** The records satisfying `p` and those that do not together make up the total. */
  lemma {:induction false} TotalFilterSplit(s: seq<Expense>, p: Expense -> bool, q: Expense -> bool)
    requires forall e :: q(e) == !p(e)
    ensures Total(Filter(s, p)) + Total(Filter(s, q)) == Total(s)
  {
    if s != [] {
      var init := s[..|s| - 1];
      TotalFilterSplit(init, p, q);
      var last := s[|s| - 1];
      var r := Filter(init, p) + [last];
      assert r[..|r| - 1] == Filter(init, p);
      var r' := Filter(init, q) + [last];
      assert r'[..|r'| - 1] == Filter(init, q);
    }
  }

  /** The six category totals add up to the total of all records. */
  lemma {:induction false} CategoryTotalsSum(s: seq<Expense>)
    ensures CategoryTotal(s, Food) + CategoryTotal(s, Transportation) + CategoryTotal(s, Entertainment)
          + CategoryTotal(s, Shopping) + CategoryTotal(s, Bills) + CategoryTotal(s, Other) == Total(s)
  {
    if s != [] {
      CategoryTotalsSum(s[..|s| - 1]);
    }
  }

  lemma {:induction false} CategoryTotalNonNegative(s: seq<Expense>, c: Category)
    requires NonNegativeAmounts(s)
    ensures CategoryTotal(s, c) >= 0
  {
    if s != [] {
      CategoryTotalNonNegative(s[..|s| - 1], c);
    }
  }

  /** Every element of `s` stands in `before` to every later one. */
  predicate InOrder<T>(s: seq<T>, before: (T, T) -> bool)
  {
    forall i, j :: 0 <= i < j < |s| ==> before(s[i], s[j])
  }

  /** Filtering keeps the order of what it keeps. */
  lemma {:induction false} FilterKeepsOrder<T>(s: seq<T>, before: (T, T) -> bool, p: T -> bool)
    requires InOrder(s, before)
    ensures InOrder(Filter(s, p), before)
  {
    if s != [] {
      var init := s[..|s| - 1];
      var last := s[|s| - 1];
      assert InOrder(init, before);
      FilterKeepsOrder(init, before, p);
      var r0 := Filter(init, p);
      if p(last) {
        var r := r0 + [last];
        assert Filter(s, p) == r;
        forall i, j | 0 <= i < j < |r| ensures before(r[i], r[j]) {
          if j == |r| - 1 {
            var m :| 0 <= m < |init| && init[m] == r0[i];
            assert r[i] == s[m] && r[j] == s[|s| - 1];
          } else {
            assert r[i] == r0[i] && r[j] == r0[j];
          }
        }
      } else {
        assert Filter(s, p) == r0;
      }
    }
  }

  /** A first element that passes stays first. */
  lemma {:induction false} FilterFirst<T>(s: seq<T>, p: T -> bool)
    requires s != [] && p(s[0])
    ensures Filter(s, p) != [] && Filter(s, p)[0] == s[0]
  {
    if |s| > 1 {
      var init := s[..|s| - 1];
      FilterFirst(init, p);
      var r0 := Filter(init, p);
      if p(s[|s| - 1]) {
        assert Filter(s, p) == r0 + [s[|s| - 1]];
      } else {
        assert Filter(s, p) == r0;
      }
    }
  }
}
