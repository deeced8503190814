/** Sequence helpers shared by the two server-side table models: filtering (SQL `WHERE`)
    and a stable insertion sort (SQL `ORDER BY`). */
module Seqs {

  /** The elements of `s` that satisfy `p`, in their original order. */
  function Filter<T(!new)>(s: seq<T>, p: T -> bool): (r: seq<T>)
    ensures |r| <= |s|
    ensures forall x :: x in r <==> x in s && p(x)
    ensures forall k :: 0 <= k < |r| ==> p(r[k])
    decreases |s|
  {
    if s == [] then [] else (if p(s[0]) then [s[0]] else []) + Filter(s[1..], p)
  }

  lemma {:induction false} FilterConcat<T(!new)>(a: seq<T>, b: seq<T>, p: T -> bool)
    ensures Filter(a + b, p) == Filter(a, p) + Filter(b, p)
    decreases |a|
  {
    if a == [] {
      assert a + b == b;
    } else {
      assert (a + b)[0] == a[0];
      assert (a + b)[1..] == a[1..] + b;
      FilterConcat(a[1..], b, p);
    }
  }

  lemma {:induction false} FilterMultiset<T(!new)>(s: seq<T>, p: T -> bool)
    ensures multiset(Filter(s, p)) <= multiset(s)
    decreases |s|
  {
    if s != [] {
      FilterMultiset(s[1..], p);
      assert s == [s[0]] + s[1..];
    }
  }

  /** Filtering with a predicate that already holds everywhere keeps the sequence. */
  lemma {:induction false} FilterKeepsAll<T(!new)>(s: seq<T>, p: T -> bool)
    requires forall k :: 0 <= k < |s| ==> p(s[k])
    ensures Filter(s, p) == s
    decreases |s|
  {
    if s != [] {
      FilterKeepsAll(s[1..], p);
    }
  }

  /** Filtering with a predicate that holds nowhere gives the empty sequence. */
  lemma {:induction false} FilterDropsAll<T(!new)>(s: seq<T>, p: T -> bool)
    requires forall k :: 0 <= k < |s| ==> !p(s[k])
    ensures Filter(s, p) == []
    decreases |s|
  {
    if s != [] {
      FilterDropsAll(s[1..], p);
    }
  }

  /** A second, narrower filter subsumes a first, wider one. */
  lemma {:induction false} FilterNarrow<T(!new)>(s: seq<T>, p: T -> bool, q: T -> bool)
    requires forall x :: q(x) ==> p(x)
    ensures Filter(Filter(s, p), q) == Filter(s, q)
    decreases |s|
  {
    if s != [] {
      FilterNarrow(s[1..], p, q);
      var t := Filter(s, p);
      if p(s[0]) {
        assert t == [s[0]] + Filter(s[1..], p);
        assert t[0] == s[0] && t[1..] == Filter(s[1..], p);
        assert Filter(t, q) == (if q(s[0]) then [s[0]] else []) + Filter(t[1..], q);
      } else {
        assert !q(s[0]);
        assert t == Filter(s[1..], p);
        assert Filter(s, q) == Filter(s[1..], q);
      }
    }
  }

  /** Two filters applied one after the other commute. */
  lemma {:induction false} FilterCommute<T(!new)>(s: seq<T>, p: T -> bool, q: T -> bool)
    ensures Filter(Filter(s, p), q) == Filter(Filter(s, q), p)
    decreases |s|
  {
    if s != [] {
      FilterCommute(s[1..], p, q);
      var h := [s[0]];
      assert Filter(h, p) == (if p(s[0]) then h else []) + Filter(h[1..], p);
      assert Filter(h, q) == (if q(s[0]) then h else []) + Filter(h[1..], q);
      FilterConcat(Filter(h, p), Filter(s[1..], p), q);
      FilterConcat(Filter(h, q), Filter(s[1..], q), p);
      if p(s[0]) {
        assert Filter(Filter(h, p), q) == (if q(s[0]) then h else []) + Filter(h[1..], q);
      }
      if q(s[0]) {
        assert Filter(Filter(h, q), p) == (if p(s[0]) then h else []) + Filter(h[1..], p);
      }
    }
  }

  lemma ConcatAssociative<T>(a: seq<T>, b: seq<T>, c: seq<T>)
    ensures (a + b) + c == a + (b + c)
  {
  }

  lemma FilterSingleton<T(!new)>(x: T, p: T -> bool)
    ensures Filter([x], p) == if p(x) then [x] else []
  {
    assert Filter([x], p) == (if p(x) then [x] else []) + Filter([x][1..], p);
  }

  /** Splitting a filter into two disjoint ones splits its length. */
  lemma {:induction false} FilterSplitLength<T(!new)>(s: seq<T>, p: T -> bool, q: T -> bool, r: T -> bool)
    requires forall x :: p(x) <==> q(x) || r(x)
    requires forall x :: !(q(x) && r(x))
    ensures |Filter(s, p)| == |Filter(s, q)| + |Filter(s, r)|
    decreases |s|
  {
    if s != [] {
      FilterSplitLength(s[1..], p, q, r);
    }
  }

  // ---------------------------------------------------------------------------
  // Maps (a Python loop that appends one value per element)

  /** `f` applied to each element of `s`, built from the back. */
  function MapSeq<A, B>(s: seq<A>, f: A -> B): (r: seq<B>)
    ensures |r| == |s|
    decreases |s|
  {
    if s == [] then [] else MapSeq(s[..|s| - 1], f) + [f(s[|s| - 1])]
  }

  /** One more element adds its image at the end. */
  lemma MapSeqSnoc<A, B>(s: seq<A>, f: A -> B, i: int)
    requires 0 <= i < |s|
    ensures MapSeq(s[..i + 1], f) == MapSeq(s[..i], f) + [f(s[i])]
  {
    assert s[..i + 1][..i] == s[..i];
  }

  /** Mapping distributes over concatenation. */
  lemma {:induction false} MapSeqConcat<A, B>(a: seq<A>, b: seq<A>, f: A -> B)
    ensures MapSeq(a + b, f) == MapSeq(a, f) + MapSeq(b, f)
    decreases |b|
  {
    if b == [] {
      assert a + b == a;
    } else {
      assert (a + b)[..|a + b| - 1] == a + b[..|b| - 1];
      MapSeqConcat(a, b[..|b| - 1], f);
    }
  }

  /** Element `k` of the map is the image of element `k`. */
  lemma {:induction false} MapSeqAt<A, B>(s: seq<A>, f: A -> B, k: int)
    requires 0 <= k < |s|
    ensures MapSeq(s, f)[k] == f(s[k])
    decreases |s|
  {
    if k < |s| - 1 {
      MapSeqAt(s[..|s| - 1], f, k);
    }
  }

  // ---------------------------------------------------------------------------
  // Sums (SQL `SUM`, Python `sum`)

  /** The sum of `f` over `s`, from the back. */
  function SumOf<T>(s: seq<T>, f: T -> int): int
    decreases |s|
  {
    if s == [] then 0 else SumOf(s[..|s| - 1], f) + f(s[|s| - 1])
  }

  lemma {:induction false} SumOfConcat<T>(a: seq<T>, b: seq<T>, f: T -> int)
    ensures SumOf(a + b, f) == SumOf(a, f) + SumOf(b, f)
    decreases |b|
  {
    if b == [] {
      assert a + b == a;
    } else {
      assert (a + b)[..|a + b| - 1] == a + b[..|b| - 1];
      SumOfConcat(a, b[..|b| - 1], f);
    }
  }

  /** The sum over `s` computed from the front. */
  lemma {:induction false} SumOfFront<T>(s: seq<T>, f: T -> int)
    requires s != []
    ensures SumOf(s, f) == f(s[0]) + SumOf(s[1..], f)
  {
    assert s == [s[0]] + s[1..];
    SumOfConcat([s[0]], s[1..], f);
    assert [s[0]][..0] == [];
  }

  /** Terms that are all at least `lo` sum to at least `lo` times their number. */
  lemma {:induction false} SumOfBounds<T>(s: seq<T>, f: T -> int, lo: int)
    requires forall k :: 0 <= k < |s| ==> f(s[k]) >= lo
    ensures SumOf(s, f) >= lo * |s|
    decreases |s|
  {
    if s != [] {
      SumOfBounds(s[..|s| - 1], f, lo);
    }
  }

  /** Terms that are all at most `hi` sum to at most `hi` times their number. */
  lemma {:induction false} SumOfAtMost<T>(s: seq<T>, f: T -> int, hi: int)
    requires forall k :: 0 <= k < |s| ==> f(s[k]) <= hi
    ensures SumOf(s, f) <= hi * |s|
    decreases |s|
  {
    if s != [] {
      SumOfAtMost(s[..|s| - 1], f, hi);
    }
  }

  lemma {:induction false} SumOfInsert<T(!new)>(x: T, s: seq<T>, le: (T, T) -> bool, f: T -> int)
    ensures SumOf(Insert(x, s, le), f) == f(x) + SumOf(s, f)
    decreases |s|
  {
    if s == [] {
      assert Insert(x, s, le) == [x];
      SumOfFront([x], f);
    } else if le(x, s[0]) {
      SumOfFront([x] + s, f);
      assert ([x] + s)[1..] == s;
    } else {
      SumOfInsert(x, s[1..], le, f);
      SumOfFront([s[0]] + Insert(x, s[1..], le), f);
      assert ([s[0]] + Insert(x, s[1..], le))[1..] == Insert(x, s[1..], le);
      SumOfFront(s, f);
    }
  }

  /** Sorting does not change a sum. */
  lemma {:induction false} SumOfSort<T(!new)>(s: seq<T>, le: (T, T) -> bool, f: T -> int)
    ensures SumOf(Sort(s, le), f) == SumOf(s, f)
    decreases |s|
  {
    if s != [] {
      SumOfSort(s[1..], le, f);
      SumOfInsert(s[0], Sort(s[1..], le), le, f);
      SumOfFront(s, f);
    }
  }

  /** Splitting a filter into two disjoint ones splits a sum over it. */
  lemma {:induction false} FilterSplitSum<T(!new)>(s: seq<T>, p: T -> bool, q: T -> bool, r: T -> bool,
                                                   f: T -> int)
    requires forall x :: p(x) <==> q(x) || r(x)
    requires forall x :: !(q(x) && r(x))
    ensures SumOf(Filter(s, p), f) == SumOf(Filter(s, q), f) + SumOf(Filter(s, r), f)
    decreases |s|
  {
    if s != [] {
      FilterSplitSum(s[1..], p, q, r, f);
      var h := if p(s[0]) then [s[0]] else [];
      SumOfConcat(h, Filter(s[1..], p), f);
      SumOfConcat(if q(s[0]) then [s[0]] else [], Filter(s[1..], q), f);
      SumOfConcat(if r(s[0]) then [s[0]] else [], Filter(s[1..], r), f);
      assert SumOf([s[0]], f) == f(s[0]) by { SumOfFront([s[0]], f); }
    }
  }

  // ---------------------------------------------------------------------------
  // Ordering

  ghost predicate Total<T(!new)>(le: (T, T) -> bool) {
    forall a, b :: le(a, b) || le(b, a)
  }

  ghost predicate Transitive<T(!new)>(le: (T, T) -> bool) {
    forall a, b, c :: le(a, b) && le(b, c) ==> le(a, c)
  }

  ghost predicate SortedBy<T>(s: seq<T>, le: (T, T) -> bool) {
    forall i, j :: 0 <= i < j < |s| ==> le(s[i], s[j])
  }

  /** Inserts `x` in front of the first element it is `le` to. */
  function Insert<T(!new)>(x: T, s: seq<T>, le: (T, T) -> bool): (r: seq<T>)
    ensures |r| == |s| + 1
    ensures multiset(r) == multiset(s) + multiset{x}
    decreases |s|
  {
    if s == [] then [x]
    else if le(x, s[0]) then [x] + s
    else
      assert s == [s[0]] + s[1..];
      [s[0]] + Insert(x, s[1..], le)
  }

  /** Stable insertion sort: elements `le`-equal keep their relative order. */
  function Sort<T(!new)>(s: seq<T>, le: (T, T) -> bool): (r: seq<T>)
    ensures |r| == |s|
    ensures multiset(r) == multiset(s)
    decreases |s|
  {
    if s == [] then []
    else
      assert s == [s[0]] + s[1..];
      Insert(s[0], Sort(s[1..], le), le)
  }

  lemma {:induction false} InsertSorted<T(!new)>(x: T, s: seq<T>, le: (T, T) -> bool)
    requires Total(le) && Transitive(le)
    requires SortedBy(s, le)
    ensures SortedBy(Insert(x, s, le), le)
    decreases |s|
  {
    if s == [] {
    } else if le(x, s[0]) {
      var r := [x] + s;
      forall i, j | 0 <= i < j < |r| ensures le(r[i], r[j]) {
        if i == 0 && j > 1 {
          assert le(s[0], s[j - 1]);
        }
      }
    } else {
      var t := Insert(x, s[1..], le);
      InsertSorted(x, s[1..], le);
      assert le(s[0], x);
      forall k | 0 <= k < |t| ensures le(s[0], t[k]) {
        assert t[k] in multiset(t);
        if t[k] != x {
          assert t[k] in multiset(s[1..]);
          var m :| 0 <= m < |s[1..]| && s[1..][m] == t[k];
          assert s[m + 1] == t[k];
        }
      }
      var r := [s[0]] + t;
      forall i, j | 0 <= i < j < |r| ensures le(r[i], r[j]) {
        if i == 0 {
          assert r[j] == t[j - 1];
        } else {
          assert r[i] == t[i - 1] && r[j] == t[j - 1];
        }
      }
    }
  }

  lemma {:induction false} SortSorted<T(!new)>(s: seq<T>, le: (T, T) -> bool)
    requires Total(le) && Transitive(le)
    ensures SortedBy(Sort(s, le), le)
    decreases |s|
  {
    if s != [] {
      SortSorted(s[1..], le);
      InsertSorted(s[0], Sort(s[1..], le), le);
    }
  }

  /** Filtering keeps an order. */
  lemma {:induction false} FilterSorted<T(!new)>(s: seq<T>, p: T -> bool, le: (T, T) -> bool)
    requires SortedBy(s, le)
    ensures SortedBy(Filter(s, p), le)
    decreases |s|
  {
    if s != [] {
      assert SortedBy(s[1..], le) by {
        forall i, j | 0 <= i < j < |s[1..]| ensures le(s[1..][i], s[1..][j]) {
          assert s[1..][i] == s[i + 1] && s[1..][j] == s[j + 1];
        }
      }
      FilterSorted(s[1..], p, le);
      var t := Filter(s[1..], p);
      if p(s[0]) {
        forall k | 0 <= k < |t| ensures le(s[0], t[k]) {
          assert t[k] in s[1..];
          var m :| 0 <= m < |s[1..]| && s[1..][m] == t[k];
          assert s[m + 1] == t[k];
        }
        var r := [s[0]] + t;
        forall i, j | 0 <= i < j < |r| ensures le(r[i], r[j]) {
          if i == 0 {
            assert r[j] == t[j - 1];
          } else {
            assert r[i] == t[i - 1] && r[j] == t[j - 1];
          }
        }
      }
    }
  }

  /** Sequences with the same multiset have the same members. */
  lemma SameMembers<T>(a: seq<T>, b: seq<T>)
    requires multiset(a) == multiset(b)
    ensures forall x :: x in a <==> x in b
  {
    forall x ensures x in a <==> x in b {
      assert x in a <==> x in multiset(a);
      assert x in b <==> x in multiset(b);
    }
  }

  /** The first `n` elements of `s` (SQL `LIMIT n`). */
  function Take<T>(s: seq<T>, n: nat): (r: seq<T>)
    ensures |r| == if |s| < n then |s| else n
    ensures forall k :: 0 <= k < |r| ==> r[k] == s[k]
  {
    if |s| <= n then s else s[..n]
  }

  /** The elements of `s` in the opposite order (SQL `ORDER BY id DESC` on a table kept in id order). */
  function Reverse<T>(s: seq<T>): (r: seq<T>)
    ensures |r| == |s|
    ensures forall k :: 0 <= k < |s| ==> r[k] == s[|s| - 1 - k]
    decreases |s|
  {
    if s == [] then [] else Reverse(s[1..]) + [s[0]]
  }

  /** Reversing keeps the members. */
  lemma ReverseMembers<T>(s: seq<T>)
    ensures forall x :: x in Reverse(s) <==> x in s
  {
    var r := Reverse(s);
    forall x | x in s ensures x in r {
      var k :| 0 <= k < |s| && s[k] == x;
      assert r[|s| - 1 - k] == x;
    }
  }

  /** Reversing does not change a sum. */
  lemma {:induction false} SumOfReverse<T>(s: seq<T>, f: T -> int)
    ensures SumOf(Reverse(s), f) == SumOf(s, f)
    decreases |s|
  {
    if s != [] {
      SumOfReverse(s[1..], f);
      SumOfConcat(Reverse(s[1..]), [s[0]], f);
      SumOfFront(s, f);
      assert [s[0]][..0] == [];
    }
  }

  /** Reversing does not change how often each image occurs. */
  lemma {:induction false} MapSeqReverseMultiset<A, B>(s: seq<A>, f: A -> B)
    ensures multiset(MapSeq(Reverse(s), f)) == multiset(MapSeq(s, f))
    decreases |s|
  {
    if s != [] {
      MapSeqReverseMultiset(s[1..], f);
      MapSeqConcat(Reverse(s[1..]), [s[0]], f);
      assert s == [s[0]] + s[1..];
      MapSeqConcat([s[0]], s[1..], f);
      assert [s[0]][..0] == [];
      assert MapSeq([s[0]], f) == [f(s[0])];
    }
  }

  ghost predicate NoDuplicates<T>(s: seq<T>) {
    forall i, j :: 0 <= i < j < |s| ==> s[i] != s[j]
  }

  /** A sequence without duplicates holds each value at most once. */
  lemma {:induction false} NoDuplicatesOnce<T>(s: seq<T>, x: T)
    requires NoDuplicates(s)
    ensures multiset(s)[x] <= 1
    decreases |s|
  {
    if s != [] {
      var init := s[..|s| - 1];
      assert s == init + [s[|s| - 1]];
      assert NoDuplicates(init);
      NoDuplicatesOnce(init, x);
      if x == s[|s| - 1] {
        assert x !in init;
      }
    }
  }

  /** A value held twice counts twice. */
  lemma HeldTwice<T>(s: seq<T>, i: int, j: int)
    requires 0 <= i < j < |s| && s[i] == s[j]
    ensures multiset(s)[s[i]] >= 2
  {
    assert s == s[..j] + s[j..];
    assert s[i] in s[..j];
    assert s[j..] == [s[j]] + s[j + 1..];
  }

  /** Reordering a sequence without duplicates leaves none. */
  lemma PermutationNoDuplicates<T>(a: seq<T>, b: seq<T>)
    requires multiset(a) == multiset(b) && NoDuplicates(a)
    ensures NoDuplicates(b)
  {
    forall i, j | 0 <= i < j < |b| ensures b[i] != b[j] {
      if b[i] == b[j] {
        HeldTwice(b, i, j);
        NoDuplicatesOnce(a, b[i]);
        assert false;
      }
    }
  }
}
