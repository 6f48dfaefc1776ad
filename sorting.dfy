/**
 * The stable sort behind `Array.prototype.sort` as the list view and the
 * dashboard call it: largest key first, ties in input order. It sorts
 * positions: `SortOrder(keys)` lists the input positions in output order.
 * A key is `None` when the comparator's number is NaN (an unparseable
 * date); such an element is treated as tied with everything.
 */
module StableSort {
  import opened Wrappers

  /** The comparator says `a` belongs strictly before `b`. */
  predicate Precedes(a: Option<int>, b: Option<int>)
  {
    a.Some? && b.Some? && a.value > b.value
  }

  predicate InBounds(keys: seq<Option<int>>, l: seq<nat>)
  {
    forall p :: 0 <= p < |l| ==> l[p] < |keys|
  }

  /** Positions with equal keys appear in increasing order. */
  predicate Stable(keys: seq<Option<int>>, l: seq<nat>)
    requires InBounds(keys, l)
  {
    forall p, q :: 0 <= p < q < |l| && keys[l[p]] == keys[l[q]] ==> l[p] < l[q]
  }

  /** No later element belongs strictly before an earlier one. */
  predicate Descending(keys: seq<Option<int>>, l: seq<nat>)
    requires InBounds(keys, l)
  {
    forall p, q :: 0 <= p < q < |l| ==> !Precedes(keys[l[q]], keys[l[p]])
  }

  predicate AllKeysFrom(keys: seq<Option<int>>, lo: nat)
  {
    forall i :: lo <= i < |keys| ==> keys[i].Some?
  }

  function Range(lo: nat, hi: nat): (r: seq<nat>)
    requires lo <= hi
    ensures |r| == hi - lo
    ensures forall p :: 0 <= p < |r| ==> r[p] == lo + p
    decreases hi - lo
  {
    if lo == hi then [] else [lo] + Range(lo + 1, hi)
  }

  /** Inserts position `x` in front of the first element that does not belong strictly before it. */
  function Insert(keys: seq<Option<int>>, x: nat, l: seq<nat>): (r: seq<nat>)
    requires x < |keys| && InBounds(keys, l)
    ensures |r| == |l| + 1 && InBounds(keys, r)
    ensures multiset(r) == multiset(l) + multiset{x}
  {
    if l == [] || !Precedes(keys[l[0]], keys[x]) then
      [x] + l
    else
      var rest := Insert(keys, x, l[1..]);
      assert l == [l[0]] + l[1..];
      [l[0]] + rest
  }

  /** Every element after the insertion is the inserted position or one that was already there. */
  lemma InsertElements(keys: seq<Option<int>>, x: nat, l: seq<nat>, q: nat)
    requires x < |keys| && InBounds(keys, l)
    requires q < |Insert(keys, x, l)|
    ensures var y := Insert(keys, x, l)[q]; y == x || exists j :: 0 <= j < |l| && l[j] == y
  {
    var r := Insert(keys, x, l);
    assert r[q] in multiset(r);
  }

  /** Inserting a position smaller than all others keeps equal keys in increasing position order. */
  lemma {:induction false} InsertStable(keys: seq<Option<int>>, x: nat, l: seq<nat>)
    requires x < |keys| && InBounds(keys, l)
    requires forall p :: 0 <= p < |l| ==> x < l[p]
    requires Stable(keys, l)
    ensures Stable(keys, Insert(keys, x, l))
  {
    var r := Insert(keys, x, l);
    if l == [] || !Precedes(keys[l[0]], keys[x]) {
      assert r == [x] + l;
      forall p, q | 0 <= p < q < |r| && keys[r[p]] == keys[r[q]] ensures r[p] < r[q] {
        if p > 0 {
          assert r[p] == l[p - 1] && r[q] == l[q - 1];
        }
      }
    } else {
      var tail := l[1..];
      InsertStable(keys, x, tail);
      var rest := Insert(keys, x, tail);
      assert r == [l[0]] + rest;
      forall p, q | 0 <= p < q < |r| && keys[r[p]] == keys[r[q]] ensures r[p] < r[q] {
        if p == 0 {
          InsertElements(keys, x, tail, q - 1);
          if r[q] != x {
            var j :| 0 <= j < |tail| && tail[j] == r[q];
            assert l[j + 1] == r[q];
          }
        } else {
          assert r[p] == rest[p - 1] && r[q] == rest[q - 1];
        }
      }
    }
  }

  /** Inserting into a descending order keeps it descending, when every key is a number. */
  lemma {:induction false} InsertDescending(keys: seq<Option<int>>, x: nat, l: seq<nat>)
    requires x < |keys| && InBounds(keys, l)
    ensures (forall p :: 0 <= p < |l| ==> keys[l[p]].Some?) && keys[x].Some? && Descending(keys, l)
            ==> Descending(keys, Insert(keys, x, l))
  {
    var r := Insert(keys, x, l);
    if !((forall p :: 0 <= p < |l| ==> keys[l[p]].Some?) && keys[x].Some? && Descending(keys, l)) {
    } else if l == [] || !Precedes(keys[l[0]], keys[x]) {
      assert r == [x] + l;
      forall p, q | 0 <= p < q < |r| ensures !Precedes(keys[r[q]], keys[r[p]]) {
        if p > 0 {
          assert r[p] == l[p - 1] && r[q] == l[q - 1];
        } else if q > 1 {
          assert !Precedes(keys[l[q - 1]], keys[l[0]]);
        }
      }
    } else {
      var tail := l[1..];
      InsertDescending(keys, x, tail);
      var rest := Insert(keys, x, tail);
      assert r == [l[0]] + rest;
      forall p, q | 0 <= p < q < |r| ensures !Precedes(keys[r[q]], keys[r[p]]) {
        if p == 0 {
          InsertElements(keys, x, tail, q - 1);
          if r[q] != x {
            var j :| 0 <= j < |tail| && tail[j] == r[q];
            assert l[j + 1] == r[q];
          }
        } else {
          assert r[p] == rest[p - 1] && r[q] == rest[q - 1];
        }
      }
    }
  }

  /** Positions `lo..|keys|-1`, sorted by insertion from the back. */
  function SortFrom(keys: seq<Option<int>>, lo: nat): (r: seq<nat>)
    requires lo <= |keys|
    ensures |r| == |keys| - lo && InBounds(keys, r)
    ensures multiset(r) == multiset(Range(lo, |keys|))
    ensures forall p :: 0 <= p < |r| ==> lo <= r[p]
    decreases |keys| - lo
  {
    if lo == |keys| then []
    else
      var rest := SortFrom(keys, lo + 1);
      var r := Insert(keys, lo, rest);
      assert Range(lo, |keys|) == [lo] + Range(lo + 1, |keys|);
      assert forall p :: 0 <= p < |r| ==> r[p] in multiset(rest) + multiset{lo};
      r
  }

  lemma {:induction false} SortFromStable(keys: seq<Option<int>>, lo: nat)
    requires lo <= |keys|
    ensures Stable(keys, SortFrom(keys, lo))
    decreases |keys| - lo
  {
    if lo < |keys| {
      SortFromStable(keys, lo + 1);
      InsertStable(keys, lo, SortFrom(keys, lo + 1));
    }
  }

  lemma {:induction false} SortFromDescending(keys: seq<Option<int>>, lo: nat)
    requires lo <= |keys|
    ensures AllKeysFrom(keys, lo) ==> Descending(keys, SortFrom(keys, lo))
    decreases |keys| - lo
  {
    if lo < |keys| {
      if AllKeysFrom(keys, lo) {
        assert AllKeysFrom(keys, lo + 1);
        SortFromDescending(keys, lo + 1);
        DescendingStep(keys, lo);
      }
    }
  }

  lemma DescendingStep(keys: seq<Option<int>>, lo: nat)
    requires lo < |keys| && AllKeysFrom(keys, lo)
    requires Descending(keys, SortFrom(keys, lo + 1))
    ensures Descending(keys, SortFrom(keys, lo))
  {
    var rest := SortFrom(keys, lo + 1);
    forall p | 0 <= p < |rest| ensures keys[rest[p]].Some? {
      assert lo + 1 <= rest[p] < |keys|;
    }
    InsertDescending(keys, lo, rest);
  }

  /** The output order of a stable descending sort, as input positions. */
  function SortOrder(keys: seq<Option<int>>): (perm: seq<nat>)
    ensures |perm| == |keys| && InBounds(keys, perm)
    ensures multiset(perm) == multiset(Range(0, |keys|))
    ensures Stable(keys, perm)
    ensures AllKeysFrom(keys, 0) ==> Descending(keys, perm)
  {
    SortFromStable(keys, 0);
    SortFromDescending(keys, 0);
    SortFrom(keys, 0)
  }

  /** The elements of `s` at the listed positions. */
  function Apply<T>(s: seq<T>, perm: seq<nat>): (r: seq<T>)
    requires forall p :: 0 <= p < |perm| ==> perm[p] < |s|
    ensures |r| == |perm|
    ensures forall p :: 0 <= p < |perm| ==> r[p] == s[perm[p]]
  {
    seq(|perm|, p requires 0 <= p < |perm| => s[perm[p]])
  }

  lemma {:induction false} ApplyInsert<T>(s: seq<T>, keys: seq<Option<int>>, x: nat, l: seq<nat>)
    requires |s| == |keys| && x < |keys| && InBounds(keys, l)
    ensures multiset(Apply(s, Insert(keys, x, l))) == multiset(Apply(s, l)) + multiset{s[x]}
  {
    if l == [] || !Precedes(keys[l[0]], keys[x]) {
      assert Apply(s, [x] + l) == [s[x]] + Apply(s, l);
    } else {
      ApplyInsert(s, keys, x, l[1..]);
      assert Apply(s, Insert(keys, x, l)) == [s[l[0]]] + Apply(s, Insert(keys, x, l[1..]));
      assert Apply(s, l) == [s[l[0]]] + Apply(s, l[1..]);
    }
  }

  lemma {:induction false} ApplySortFrom<T>(s: seq<T>, keys: seq<Option<int>>, lo: nat)
    requires |s| == |keys| && lo <= |keys|
    ensures multiset(Apply(s, SortFrom(keys, lo))) == multiset(s[lo..])
    decreases |keys| - lo
  {
    if lo < |keys| {
      var rest := SortFrom(keys, lo + 1);
      assert SortFrom(keys, lo) == Insert(keys, lo, rest);
      ApplySortFrom(s, keys, lo + 1);
      ApplyInsert(s, keys, lo, rest);
      MultisetFrom(s, lo);
    } else {
      assert SortFrom(keys, lo) == [];
    }
  }

  lemma MultisetFrom<T>(s: seq<T>, lo: nat)
    requires lo < |s|
    ensures multiset(s[lo..]) == multiset(s[lo + 1..]) + multiset{s[lo]}
  {
    assert s[lo..] == [s[lo]] + s[lo + 1..];
  }

  /** Reordering by the sort order loses and adds nothing: the result is a permutation. */
  lemma SortPermutes<T>(s: seq<T>, keys: seq<Option<int>>)
    requires |s| == |keys|
    ensures multiset(Apply(s, SortOrder(keys))) == multiset(s)
  {
    ApplySortFrom(s, keys, 0);
    assert s[0..] == s;
  }

  /** Every input position occurs exactly once in the sort order. */
  lemma SortOrderIsPermutation(keys: seq<Option<int>>, i: nat)
    requires i < |keys|
    ensures multiset(SortOrder(keys))[i] == 1
  {
    RangeCount(0, |keys|, i);
  }

  lemma {:induction false} RangeCount(lo: nat, hi: nat, i: nat)
    requires lo <= i < hi
    ensures multiset(Range(lo, hi))[i] == 1
    decreases hi - lo
  {
    if i > lo {
      RangeCount(lo + 1, hi, i);
    } else {
      assert lo !in multiset(Range(lo + 1, hi));
    }
  }
}
