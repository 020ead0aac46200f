/**
 * The array methods the pages and services use, on sequences:
 * `find`/`findIndex`, `filter`, `reduce` to a sum, `slice(0, n)` and a
 * stable `sort` with a comparator.
 */
module Seqs {
  import opened Wrappers

  // ---------------------------------------------------------------------------
  // findIndex / find

  /** `s.findIndex(p)`: the first index whose element satisfies `p`. */
  function FindIndex<T>(s: seq<T>, p: T -> bool): (r: Option<nat>)
    ensures r.Some? ==> r.value < |s| && p(s[r.value])
    ensures r.Some? ==> forall j :: 0 <= j < r.value ==> !p(s[j])
    ensures r.None? ==> forall j :: 0 <= j < |s| ==> !p(s[j])
  {
    if s == [] then None
    else if p(s[0]) then Some(0)
    else
      match FindIndex(s[1..], p)
      case None => None
      case Some(k) => Some(k + 1)
  }

  /** Tests that agree on every element find the same index. */
  lemma {:induction false} FindIndexSameTest<T>(s: seq<T>, p: T -> bool, q: T -> bool)
    requires forall i :: 0 <= i < |s| ==> p(s[i]) == q(s[i])
    ensures FindIndex(s, p) == FindIndex(s, q)
  {
    if s != [] {
      FindIndexSameTest(s[1..], p, q);
    }
  }

  /** Appending cannot change a match already found. */
  lemma FindIndexAppend<T>(s: seq<T>, t: seq<T>, p: T -> bool)
    requires FindIndex(s, p).Some?
    ensures FindIndex(s + t, p) == FindIndex(s, p)
  {
    var i := FindIndex(s, p).value;
    FindIndexIs(s + t, p, i);
  }

  /** An index whose element passes, with none before it passing, is the one found. */
  lemma FindIndexIs<T>(s: seq<T>, p: T -> bool, i: nat)
    requires i < |s| && p(s[i])
    requires forall k :: 0 <= k < i ==> !p(s[k])
    ensures FindIndex(s, p) == Some(i)
  {
  }

  /** `s.find(p)`: the first element satisfying `p`. */
  function Find<T>(s: seq<T>, p: T -> bool): (r: Option<T>)
    ensures r.Some? ==> r.value in s && p(r.value)
    ensures r.None? <==> forall j :: 0 <= j < |s| ==> !p(s[j])
    ensures r.Some? ==> exists i :: 0 <= i < |s| && s[i] == r.value && forall j :: 0 <= j < i ==> !p(s[j])
  {
    match FindIndex(s, p)
    case None => None
    case Some(i) => Some(s[i])
  }

  // ---------------------------------------------------------------------------
  // filter

  /** `a` is `b` with some elements dropped, the rest in their original order. */
  ghost predicate Subseq<T>(a: seq<T>, b: seq<T>)
    decreases |b|
  {
    a == [] || (b != [] && ((a[0] == b[0] && Subseq(a[1..], b[1..])) || Subseq(a, b[1..])))
  }

  lemma {:induction false} SubseqRefl<T>(s: seq<T>)
    ensures Subseq(s, s)
  {
    if s != [] {
      SubseqRefl(s[1..]);
    }
  }

  /** Dropping elements twice is dropping elements once. */
  lemma {:induction false} SubseqTransitive<T>(a: seq<T>, b: seq<T>, c: seq<T>)
    requires Subseq(a, b) && Subseq(b, c)
    ensures Subseq(a, c)
    decreases |c|
  {
    if a != [] {
      if a[0] == b[0] && Subseq(a[1..], b[1..]) {
        if b[0] == c[0] && Subseq(b[1..], c[1..]) {
          SubseqTransitive(a[1..], b[1..], c[1..]);
        } else {
          SubseqTransitive(a, b, c[1..]);
        }
      } else {
        if b[0] == c[0] && Subseq(b[1..], c[1..]) {
          SubseqTransitive(a, b[1..], c[1..]);
        } else {
          SubseqTransitive(a, b, c[1..]);
        }
      }
    }
  }

  /** `s.filter(p)`. */
  function Filter<T>(s: seq<T>, p: T -> bool): (r: seq<T>)
    ensures |r| <= |s|
    ensures forall i :: 0 <= i < |r| ==> p(r[i])
    ensures forall i :: 0 <= i < |r| ==> r[i] in s
    ensures forall i :: 0 <= i < |s| && p(s[i]) ==> s[i] in r
    ensures Subseq(r, s)
  {
    if s == [] then []
    else if p(s[0]) then [s[0]] + Filter(s[1..], p)
    else Filter(s[1..], p)
  }

  /**
   * The filter keeps every copy of a passing element and none of the others:
   * an element occurs in the result as often as in `s` when it passes, and
   * not at all when it does not.
   */
  lemma {:induction false} FilterMultiset<T>(s: seq<T>, p: T -> bool)
    ensures multiset(Filter(s, p)) <= multiset(s)
    ensures forall i :: 0 <= i < |s| ==>
      multiset(Filter(s, p))[s[i]] == if p(s[i]) then multiset(s)[s[i]] else 0
  {
    if s != [] {
      FilterMultiset(s[1..], p);
      FilterStepMultiset(s, Filter(s[1..], p), p);
    }
  }

  /** The multiset facts of the filter carry over from the tail `s[1..]` to `s`. */
  lemma FilterStepMultiset<T>(s: seq<T>, t: seq<T>, p: T -> bool)
    requires s != []
    requires multiset(t) <= multiset(s[1..])
    requires forall i :: 0 <= i < |s[1..]| ==> multiset(t)[s[1..][i]] == if p(s[1..][i]) then multiset(s[1..])[s[1..][i]] else 0
    ensures var r := if p(s[0]) then [s[0]] + t else t;
      multiset(r) <= multiset(s) &&
      forall i :: 0 <= i < |s| ==> multiset(r)[s[i]] == if p(s[i]) then multiset(s)[s[i]] else 0
  {
    var r := if p(s[0]) then [s[0]] + t else t;
    assert s == [s[0]] + s[1..];
    assert multiset(s) == multiset{s[0]} + multiset(s[1..]);
    assert multiset(r) == if p(s[0]) then multiset{s[0]} + multiset(t) else multiset(t);
    forall i | 0 <= i < |s| ensures multiset(r)[s[i]] == if p(s[i]) then multiset(s)[s[i]] else 0 {
      var x := s[i];
      if x !in s[1..] {
        assert multiset(s[1..])[x] == 0;
        assert multiset(t)[x] == 0;
      } else {
        var k :| 0 <= k < |s[1..]| && s[1..][k] == x;
      }
    }
  }

  /** Two orderings of the same elements: every element of one is in the other. */
  lemma SameElements<T>(a: seq<T>, b: seq<T>)
    requires multiset(a) == multiset(b)
    ensures |a| == |b|
    ensures forall i :: 0 <= i < |a| ==> a[i] in b
  {
    assert |a| == |multiset(a)| == |multiset(b)| == |b|;
    forall i | 0 <= i < |a| ensures a[i] in b {
      assert a[i] in multiset(a);
    }
  }

  /** An element is kept by the filter exactly when it is in the list and passes. */
  lemma InFilter<T>(s: seq<T>, p: T -> bool, x: T)
    ensures x in Filter(s, p) <==> x in s && p(x)
  {
    var r := Filter(s, p);
    if x in r {
      var k :| 0 <= k < |r| && r[k] == x;
    }
    if x in s {
      var k :| 0 <= k < |s| && s[k] == x;
    }
  }

  /** `s.filter(p).length`. */
  function Count<T>(s: seq<T>, p: T -> bool): nat
  {
    |Filter(s, p)|
  }

  lemma {:induction false} FilterAppend<T>(a: seq<T>, b: seq<T>, p: T -> bool)
    ensures Filter(a + b, p) == Filter(a, p) + Filter(b, p)
  {
    if a == [] {
      assert a + b == b;
    } else {
      assert (a + b)[0] == a[0];
      assert (a + b)[1..] == a[1..] + b;
      FilterAppend(a[1..], b, p);
      if p(a[0]) {
        assert Filter(a + b, p) == [a[0]] + (Filter(a[1..], p) + Filter(b, p));
      } else {
        assert Filter(a + b, p) == Filter(a[1..], p) + Filter(b, p);
      }
    }
  }

  /** One step of the count from position `k`: `s[k]` adds one if it passes. */
  lemma CountFrom<T>(s: seq<T>, k: nat, p: T -> bool)
    requires k < |s|
    ensures Count(s[k..], p) == (if p(s[k]) then 1 else 0) + Count(s[k + 1..], p)
  {
    assert s[k..][1..] == s[k + 1..];
  }

  /** Replacing one element changes the count by what the old and the new element contribute. */
  lemma {:induction false} CountUpdate<T>(s: seq<T>, i: nat, v: T, p: T -> bool)
    requires i < |s|
    ensures Count(s[i := v], p) == Count(s, p) - (if p(s[i]) then 1 else 0) + (if p(v) then 1 else 0)
  {
    var u := s[i := v];
    assert u[0] == (if i == 0 then v else s[0]);
    if i > 0 {
      assert u[1..] == s[1..][i - 1 := v];
      CountUpdate(s[1..], i - 1, v, p);
    } else {
      assert u[1..] == s[1..];
    }
  }

  /** Two tests that agree on every element filter alike. */
  lemma {:induction false} FilterSameTest<T>(s: seq<T>, p: T -> bool, q: T -> bool)
    requires forall i :: 0 <= i < |s| ==> p(s[i]) == q(s[i])
    ensures Filter(s, p) == Filter(s, q)
  {
    if s != [] {
      FilterSameTest(s[1..], p, q);
    }
  }

  /** Eight entries of which exactly those at positions 3 and 5 pass count as two. */
  lemma CountThirdAndFifth<T>(s: seq<T>, p: T -> bool)
    requires |s| == 8
    requires !p(s[0]) && !p(s[1]) && !p(s[2]) && p(s[3]) && !p(s[4]) && p(s[5]) && !p(s[6]) && !p(s[7])
    ensures Count(s, p) == 2
  {
    assert s[8..] == [];
    CountFrom(s, 7, p);
    CountFrom(s, 6, p);
    CountFrom(s, 5, p);
    CountFrom(s, 4, p);
    CountFrom(s, 3, p);
    CountFrom(s, 2, p);
    CountFrom(s, 1, p);
    CountFrom(s, 0, p);
    assert s[0..] == s;
  }

  /** Some element passes exactly when the count is positive. */
  lemma CountPositive<T>(s: seq<T>, p: T -> bool)
    ensures Count(s, p) > 0 <==> exists i :: 0 <= i < |s| && p(s[i])
  {
    var r := Filter(s, p);
    if r != [] {
      assert p(r[0]) && r[0] in s;
    }
  }

  /** A filter every element passes keeps the whole sequence. */
  lemma {:induction false} FilterAll<T>(s: seq<T>, p: T -> bool)
    requires forall i :: 0 <= i < |s| ==> p(s[i])
    ensures Filter(s, p) == s
  {
    if s != [] {
      FilterAll(s[1..], p);
    }
  }

  /** A filter no element passes keeps nothing. */
  lemma {:induction false} FilterNone<T>(s: seq<T>, p: T -> bool)
    requires forall i :: 0 <= i < |s| ==> !p(s[i])
    ensures Filter(s, p) == []
  {
    if s != [] {
      FilterNone(s[1..], p);
    }
  }

  /** Elements satisfying no two of three exclusive tests are counted at most once. */
  lemma {:induction false} CountPartition<T>(s: seq<T>, p: T -> bool, q: T -> bool, r: T -> bool)
    requires forall x :: !(p(x) && q(x)) && !(p(x) && r(x)) && !(q(x) && r(x))
    ensures Count(s, p) + Count(s, q) + Count(s, r) <= |s|
  {
    if s != [] {
      CountPartition(s[1..], p, q, r);
    }
  }

  /** When every element passes one of three exclusive tests, the counts add up to the length. */
  lemma {:induction false} CountPartitionExact<T>(s: seq<T>, p: T -> bool, q: T -> bool, r: T -> bool)
    requires forall x :: !(p(x) && q(x)) && !(p(x) && r(x)) && !(q(x) && r(x))
    requires forall x :: p(x) || q(x) || r(x)
    ensures Count(s, p) + Count(s, q) + Count(s, r) == |s|
  {
    if s != [] {
      CountPartitionExact(s[1..], p, q, r);
    }
  }

  // ---------------------------------------------------------------------------
  // reduce

  /** `s.reduce((sum, x) => sum + f(x), 0)`. */
  function Sum<T>(s: seq<T>, f: T -> int): int
  {
    if s == [] then 0 else f(s[0]) + Sum(s[1..], f)
  }

  /** Replacing one element changes the sum by the difference of the two values. */
  lemma {:induction false} SumUpdate<T>(s: seq<T>, i: nat, x: T, f: T -> int)
    requires i < |s|
    ensures Sum(s[i := x], f) == Sum(s, f) - f(s[i]) + f(x)
  {
    if i > 0 {
      assert s[i := x][1..] == s[1..][i - 1 := x];
      SumUpdate(s[1..], i - 1, x, f);
    }
  }

  lemma {:induction false} SumAppend<T>(a: seq<T>, b: seq<T>, f: T -> int)
    ensures Sum(a + b, f) == Sum(a, f) + Sum(b, f)
  {
    if a == [] {
      assert a + b == b;
    } else {
      assert (a + b)[1..] == a[1..] + b;
      SumAppend(a[1..], b, f);
    }
  }

  lemma {:induction false} SumNonNegative<T>(s: seq<T>, f: T -> int)
    requires forall x :: x in s ==> f(x) >= 0
    ensures Sum(s, f) >= 0
  {
    if s != [] {
      SumNonNegative(s[1..], f);
    }
  }

  // ---------------------------------------------------------------------------
  // slice(0, n)

  /** `s.slice(0, n)`: at most the first `n` elements. */
  function Take<T>(s: seq<T>, n: nat): (r: seq<T>)
    ensures |r| == if n < |s| then n else |s|
    ensures r <= s
  {
    if n < |s| then s[..n] else s
  }

  // ---------------------------------------------------------------------------
  // sort

  /** A comparator that orders every pair and is transitive. */
  ghost predicate TotalPreorder<T(!new)>(le: (T, T) -> bool)
  {
    (forall a, b :: le(a, b) || le(b, a)) &&
    (forall a, b, c :: le(a, b) && le(b, c) ==> le(a, c))
  }

  ghost predicate SortedBy<T>(s: seq<T>, le: (T, T) -> bool)
  {
    forall i, j :: 0 <= i < j < |s| ==> le(s[i], s[j])
  }

  /** Puts `x` after every element that `le`-precedes or ties with it. */
  function Insert<T>(x: T, s: seq<T>, le: (T, T) -> bool): (r: seq<T>)
    ensures multiset(r) == multiset(s) + multiset{x}
    ensures |r| == |s| + 1
  {
    if s == [] then [x]
    else if !le(s[0], x) then [x] + s
    else
      assert s == [s[0]] + s[1..];
      [s[0]] + Insert(x, s[1..], le)
  }

  /**
   * `[...s].sort(cmp)` with `le(a, b)` meaning `cmp(a, b) <= 0`. Each element
   * is inserted after the earlier ones it ties with, so the sort is stable,
   * as JavaScript's is (SortByStable).
   */
  function SortBy<T>(s: seq<T>, le: (T, T) -> bool): (r: seq<T>)
    ensures multiset(r) == multiset(s)
    ensures |r| == |s|
  {
    if s == [] then []
    else
      assert s == s[..|s| - 1] + [s[|s| - 1]];
      Insert(s[|s| - 1], SortBy(s[..|s| - 1], le), le)
  }

  lemma {:induction false} InsertSorted<T(!new)>(x: T, s: seq<T>, le: (T, T) -> bool)
    requires TotalPreorder(le)
    requires SortedBy(s, le)
    ensures SortedBy(Insert(x, s, le), le)
  {
    if s != [] && le(s[0], x) {
      InsertSorted(x, s[1..], le);
      var t := Insert(x, s[1..], le);
      assert forall k :: 0 <= k < |t| ==> le(s[0], t[k]) by {
        forall k | 0 <= k < |t| ensures le(s[0], t[k]) {
          assert t[k] in multiset(t);
          assert t[k] == x || t[k] in multiset(s[1..]);
          if t[k] != x {
            var m :| 0 <= m < |s[1..]| && s[1..][m] == t[k];
            assert s[m + 1] == t[k];
          }
        }
      }
      var r := [s[0]] + t;
      assert Insert(x, s, le) == r;
      forall i, j | 0 <= i < j < |r| ensures le(r[i], r[j]) {
        assert r[j] == t[j - 1];
        if i > 0 {
          assert r[i] == t[i - 1];
        }
      }
    } else if s != [] {
      assert le(x, s[0]);
      assert forall k :: 0 <= k < |s| ==> le(x, s[k]) by {
        forall k | 0 <= k < |s| ensures le(x, s[k]) {
          if k > 0 {
            assert le(s[0], s[k]);
          }
        }
      }
      var r := [x] + s;
      assert Insert(x, s, le) == r;
      forall i, j | 0 <= i < j < |r| ensures le(r[i], r[j]) {
        assert r[j] == s[j - 1];
        if i > 0 {
          assert r[i] == s[i - 1];
        }
      }
    }
  }

  /** The comparator's order holds between every earlier and later element of the result. */
  lemma {:induction false} SortBySorted<T(!new)>(s: seq<T>, le: (T, T) -> bool)
    requires TotalPreorder(le)
    ensures SortedBy(SortBy(s, le), le)
  {
    if s != [] {
      SortBySorted(s[..|s| - 1], le);
      InsertSorted(s[|s| - 1], SortBy(s[..|s| - 1], le), le);
    }
  }

  /** The test "ties with `y` under `le`": each of the two precedes the other. */
  function TiesWith<T>(le: (T, T) -> bool, y: T): T -> bool
  {
    e => le(e, y) && le(y, e)
  }

  /**
   * Inserting `x` into a sorted sequence puts it after every element it ties
   * with, so among the elements tying with any `y` it comes last.
   */
  lemma {:induction false} InsertKeepsTieOrder<T(!new)>(x: T, t: seq<T>, le: (T, T) -> bool, y: T)
    requires TotalPreorder(le)
    requires SortedBy(t, le)
    ensures Filter(Insert(x, t, le), TiesWith(le, y)) == Filter(t, TiesWith(le, y)) + Filter([x], TiesWith(le, y))
  {
    var q := TiesWith(le, y);
    if t == [] {
      assert Insert(x, t, le) == [x];
      FilterInFront(x, t, q);
    } else if !le(t[0], x) {
      assert Insert(x, t, le) == [x] + t;
      NoTieAfterGreater(x, t, le, y);
      FilterInFront(x, t, q);
    } else {
      SortedTail(t, le);
      InsertKeepsTieOrder(x, t[1..], le, y);
      assert Insert(x, t, le) == [t[0]] + Insert(x, t[1..], le);
      FilterAfterHead(t, Insert(x, t[1..], le), x, q);
    }
  }

  /** When `x` is put in front of `t` and ties with nothing there, the filter keeps it last. */
  lemma FilterInFront<T>(x: T, t: seq<T>, q: T -> bool)
    requires q(x) ==> forall k :: 0 <= k < |t| ==> !q(t[k])
    ensures Filter([x] + t, q) == Filter(t, q) + Filter([x], q)
  {
    assert ([x] + t)[0] == x && ([x] + t)[1..] == t;
    assert [x][1..] == [];
    if q(x) {
      FilterNone(t, q);
    }
  }

  /** Keeping the head of `t` in front of a sequence that filters like `t[1..]` then `x`. */
  lemma FilterAfterHead<T>(t: seq<T>, u: seq<T>, x: T, q: T -> bool)
    requires t != []
    requires Filter(u, q) == Filter(t[1..], q) + Filter([x], q)
    ensures Filter([t[0]] + u, q) == Filter(t, q) + Filter([x], q)
  {
    assert ([t[0]] + u)[0] == t[0] && ([t[0]] + u)[1..] == u;
  }

  /** Nothing in a sorted `t` whose head does not precede `x` ties with anything `x` ties with. */
  lemma NoTieAfterGreater<T(!new)>(x: T, t: seq<T>, le: (T, T) -> bool, y: T)
    requires TotalPreorder(le)
    requires SortedBy(t, le)
    requires t != [] && !le(t[0], x)
    ensures TiesWith(le, y)(x) ==> forall k :: 0 <= k < |t| ==> !TiesWith(le, y)(t[k])
  {
    var h := t[0];
    assert le(h, h) || le(h, h);
    assert forall k :: 0 <= k < |t| ==> le(h, t[k]);
  }

  /** The tail of a sorted sequence is sorted. */
  lemma SortedTail<T>(t: seq<T>, le: (T, T) -> bool)
    requires t != [] && SortedBy(t, le)
    ensures SortedBy(t[1..], le)
  {
    forall i, j | 0 <= i < j < |t[1..]| ensures le(t[1..][i], t[1..][j]) {
      assert t[1..][i] == t[i + 1] && t[1..][j] == t[j + 1];
    }
  }

  /**
   * The sort is stable: the elements that tie with any `y` appear in the
   * result in the order they had in `s`.
   */
  lemma {:induction false} SortByStable<T(!new)>(s: seq<T>, le: (T, T) -> bool, y: T)
    requires TotalPreorder(le)
    ensures Filter(SortBy(s, le), TiesWith(le, y)) == Filter(s, TiesWith(le, y))
  {
    if s != [] {
      var init, x := s[..|s| - 1], s[|s| - 1];
      assert s == init + [x];
      var sorted := SortBy(init, le);
      SortByStable(init, le, y);
      InsertLastKeepsTieOrder(x, init, le, y);
      StableStep(init, x, sorted, Insert(x, sorted, le), TiesWith(le, y));
    }
  }

  lemma InsertLastKeepsTieOrder<T(!new)>(x: T, init: seq<T>, le: (T, T) -> bool, y: T)
    requires TotalPreorder(le)
    ensures Filter(Insert(x, SortBy(init, le), le), TiesWith(le, y)) ==
      Filter(SortBy(init, le), TiesWith(le, y)) + Filter([x], TiesWith(le, y))
  {
    SortBySorted(init, le);
    InsertKeepsTieOrder(x, SortBy(init, le), le, y);
  }

  /** One step of the stability proof, over the filtered pieces alone. */
  lemma StableStep<T>(init: seq<T>, x: T, sorted: seq<T>, inserted: seq<T>, q: T -> bool)
    requires Filter(sorted, q) == Filter(init, q)
    requires Filter(inserted, q) == Filter(sorted, q) + Filter([x], q)
    ensures Filter(inserted, q) == Filter(init + [x], q)
  {
    FilterAppend(init, [x], q);
  }

  /** The first element of a sorted sequence precedes every element. */
  lemma SortedFirstIsLeast<T(!new)>(s: seq<T>, le: (T, T) -> bool, x: T)
    requires TotalPreorder(le)
    requires SortedBy(s, le)
    requires x in s
    ensures le(s[0], x)
  {
    var i :| 0 <= i < |s| && s[i] == x;
    if i == 0 {
      assert le(x, x) by { assert le(x, x) || le(x, x); }
    }
  }

  /** Taking a prefix of a sorted sequence keeps it sorted and within the original. */
  lemma TakeSorted<T>(s: seq<T>, n: nat, le: (T, T) -> bool)
    requires SortedBy(s, le)
    ensures SortedBy(Take(s, n), le)
    ensures forall x :: x in Take(s, n) ==> x in s
  {
  }
}
