/**
 * The array operations the pages use: `filter`, `Array.from(new Set(..))`, a numeric
 * descending `sort`, and `slice`.
 */
module Seqs {

  /** `a` can be obtained from `b` by deleting elements, keeping the order of the rest. */
  ghost predicate IsSubseq<T>(a: seq<T>, b: seq<T>)
    decreases |b|
  {
    if a == [] then true
    else if b == [] then false
    else (a[0] == b[0] && IsSubseq(a[1..], b[1..])) || IsSubseq(a, b[1..])
  }

  predicate NoDups<T(==)>(s: seq<T>) {
    forall i, j :: 0 <= i < j < |s| ==> s[i] != s[j]
  }

  /** `s.filter(p)`: the elements satisfying `p`, in their original order. */
  function Filter<T(!new)>(s: seq<T>, p: T -> bool): (r: seq<T>)
    ensures |r| <= |s|
    ensures forall x :: x in r <==> x in s && p(x)
    ensures IsSubseq(r, s)
  {
    if s == [] then []
    else if p(s[0]) then
      var rest := Filter(s[1..], p);
      assert ([s[0]] + rest)[1..] == rest;
      [s[0]] + rest
    else Filter(s[1..], p)
  }

  /** Filtering twice is filtering once by the conjunction. */
  lemma {:induction false} FilterFilter<T(!new)>(s: seq<T>, p: T -> bool, q: T -> bool)
    ensures Filter(Filter(s, p), q) == Filter(s, x => p(x) && q(x))
  {
    if s != [] {
      FilterFilter(s[1..], p, q);
      if p(s[0]) {
        assert ([s[0]] + Filter(s[1..], p))[1..] == Filter(s[1..], p);
      }
    }
  }

  /** Filters by predicates that agree on every element give the same result. */
  lemma {:induction false} FilterExt<T(!new)>(s: seq<T>, p: T -> bool, q: T -> bool)
    requires forall x :: x in s ==> p(x) == q(x)
    ensures Filter(s, p) == Filter(s, q)
  {
    if s != [] {
      FilterExt(s[1..], p, q);
    }
  }

  /** Filtering by `before` and, when `active`, by `stage` is filtering once by their conjunction. */
  lemma FilterStep<T(!new)>(s: seq<T>, before: T -> bool, stage: T -> bool, after: T -> bool, active: bool)
    requires forall x :: after(x) == (before(x) && (!active || stage(x)))
    ensures Filter(s, after) == if active then Filter(Filter(s, before), stage) else Filter(s, before)
  {
    if active {
      FilterFilter(s, before, stage);
      FilterExt(s, x => before(x) && stage(x), after);
    } else {
      FilterExt(s, before, after);
    }
  }

  /** A filter by a predicate no element satisfies keeps nothing. */
  lemma {:induction false} FilterNone<T(!new)>(s: seq<T>, p: T -> bool)
    requires forall x :: x in s ==> !p(x)
    ensures Filter(s, p) == []
  {
    if s != [] {
      FilterNone(s[1..], p);
    }
  }

  /** A filter by a predicate every element satisfies keeps everything. */
  lemma {:induction false} FilterAll<T(!new)>(s: seq<T>, p: T -> bool)
    requires forall x :: x in s ==> p(x)
    ensures Filter(s, p) == s
  {
    if s != [] {
      FilterAll(s[1..], p);
    }
  }

  /** Filtering by a predicate and by its negation splits the elements between the two results. */
  lemma {:induction false} FilterSplit<T(!new)>(s: seq<T>, p: T -> bool, q: T -> bool)
    requires forall x :: q(x) == !p(x)
    ensures multiset(Filter(s, p)) + multiset(Filter(s, q)) == multiset(s)
  {
    if s != [] {
      var x, rest := s[0], s[1..];
      FilterSplit(rest, p, q);
      assert s == [x] + rest;
      assert multiset(s) == multiset{x} + multiset(rest);
      if p(x) {
        assert multiset(Filter(s, p)) == multiset{x} + multiset(Filter(rest, p));
        assert Filter(s, q) == Filter(rest, q);
      } else {
        assert Filter(s, p) == Filter(rest, p);
        assert multiset(Filter(s, q)) == multiset{x} + multiset(Filter(rest, q));
      }
    }
  }

  /** Filtering distributes over concatenation. */
  lemma {:induction false} FilterAppend<T(!new)>(a: seq<T>, b: seq<T>, p: T -> bool)
    ensures Filter(a + b, p) == Filter(a, p) + Filter(b, p)
  {
    if a == [] {
      assert a + b == b;
    } else {
      assert (a + b)[1..] == a[1..] + b;
      FilterAppend(a[1..], b, p);
    }
  }

  /** Index of the first element satisfying `p` (`|s|` when none does). */
  function FirstIndex<T>(s: seq<T>, p: T -> bool): (k: nat)
    ensures k <= |s|
    ensures k < |s| ==> p(s[k])
    ensures forall i :: 0 <= i < k ==> !p(s[i])
    decreases |s|
  {
    if s == [] then 0
    else if p(s[0]) then 0
    else 1 + FirstIndex(s[1..], p)
  }

  /** Number of elements satisfying `p`: `s.filter(p).length`. */
  function Count<T(!new)>(s: seq<T>, p: T -> bool): (n: nat)
    ensures n <= |s|
  {
    |Filter(s, p)|
  }

  /** Elements satisfying one of two exclusive predicates are counted by adding the two counts. */
  lemma {:induction false} CountDisjoint<T(!new)>(s: seq<T>, p: T -> bool, q: T -> bool, either: T -> bool)
    requires forall x :: either(x) == (p(x) || q(x))
    requires forall x :: !(p(x) && q(x))
    ensures Count(s, either) == Count(s, p) + Count(s, q)
  {
    if s != [] {
      CountDisjoint(s[1..], p, q, either);
    }
  }

  /**
   * `Array.from(new Set(s))` after skipping the elements already in `seen`:
   * the first occurrence of every element, in order.
   */
  function DedupFrom<T(==,!new)>(s: seq<T>, seen: set<T>): (r: seq<T>)
    ensures forall x :: x in r <==> x in s && x !in seen
    ensures NoDups(r)
    ensures IsSubseq(r, s)
  {
    if s == [] then []
    else if s[0] in seen then DedupFrom(s[1..], seen)
    else
      var rest := DedupFrom(s[1..], seen + {s[0]});
      assert ([s[0]] + rest)[1..] == rest;
      [s[0]] + rest
  }

  /** `Array.from(new Set(s))`. */
  function Dedup<T(==,!new)>(s: seq<T>): (r: seq<T>)
    ensures forall x :: x in r <==> x in s
    ensures NoDups(r)
    ensures IsSubseq(r, s)
  {
    DedupFrom(s, {})
  }

  /** Deduplicating a duplicate-free sequence changes nothing. */
  lemma {:induction false} DedupFromNoDups<T(!new)>(s: seq<T>, seen: set<T>)
    requires NoDups(s)
    requires forall x :: x in s ==> x !in seen
    ensures DedupFrom(s, seen) == s
  {
    if s != [] {
      assert forall x :: x in s[1..] ==> x != s[0] by {
        forall x | x in s[1..] ensures x != s[0] {
          var k :| 0 <= k < |s[1..]| && s[1..][k] == x;
          assert s[k + 1] == x;
        }
      }
      DedupFromNoDups(s[1..], seen + {s[0]});
    }
  }

  lemma DedupIdempotent<T(!new)>(s: seq<T>)
    ensures Dedup(Dedup(s)) == Dedup(s)
  {
    DedupFromNoDups(Dedup(s), {});
  }

  /** No duplicates means every element occurs once. */
  lemma {:induction false} NoDupsCounts<T>(s: seq<T>)
    ensures NoDups(s) <==> forall x :: multiset(s)[x] <= 1
  {
    if s != [] {
      NoDupsCounts(s[1..]);
      assert s == [s[0]] + s[1..];
      assert multiset(s) == multiset{s[0]} + multiset(s[1..]);
      if NoDups(s) {
        assert NoDups(s[1..]) by {
          forall i, j | 0 <= i < j < |s[1..]| ensures s[1..][i] != s[1..][j] {
            assert s[1..][i] == s[i + 1] && s[1..][j] == s[j + 1];
          }
        }
        assert s[0] !in s[1..] by {
          forall k | 0 <= k < |s[1..]| ensures s[1..][k] != s[0] {
            assert s[1..][k] == s[k + 1];
          }
        }
      } else {
        var i, j :| 0 <= i < j < |s| && s[i] == s[j];
        if i == 0 {
          assert s[j] == s[1..][j - 1];
          assert multiset(s)[s[0]] >= 2;
        } else {
          assert s[i] == s[1..][i - 1] && s[j] == s[1..][j - 1];
          assert !NoDups(s[1..]);
          var x :| multiset(s[1..])[x] > 1;
          assert multiset(s)[x] > 1;
        }
      }
    }
  }

  /** A permutation of a duplicate-free sequence is duplicate-free. */
  lemma NoDupsPermutation<T>(a: seq<T>, b: seq<T>)
    requires multiset(a) == multiset(b) && NoDups(a)
    ensures NoDups(b)
  {
    NoDupsCounts(a);
    NoDupsCounts(b);
  }

  predicate SortedDesc(s: seq<int>) {
    forall i, j :: 0 <= i < j < |s| ==> s[i] >= s[j]
  }

  /** The head of a descending sequence is its largest element. */
  lemma HeadIsLargest(s: seq<int>)
    requires SortedDesc(s) && s != []
    ensures forall y :: y in s ==> y <= s[0]
  {
    forall y | y in s ensures y <= s[0] {
      var k :| 0 <= k < |s| && s[k] == y;
      assert k == 0 || s[0] >= s[k];
    }
  }

  /** Putting a bound of a descending sequence in front of it keeps it descending. */
  lemma PrependSorted(h: int, s: seq<int>)
    requires SortedDesc(s)
    requires forall y :: y in s ==> y <= h
    ensures SortedDesc([h] + s)
  {
    var r := [h] + s;
    forall i, j | 0 <= i < j < |r| ensures r[i] >= r[j] {
      assert r[j] == s[j - 1];
      if i > 0 {
        assert r[i] == s[i - 1];
      } else {
        assert s[j - 1] in s;
      }
    }
  }

  /** Inserts `x` into a descending sequence, after the elements not smaller than it. */
  function Insert(x: int, s: seq<int>): (r: seq<int>)
    requires SortedDesc(s)
    ensures SortedDesc(r)
    ensures forall y :: y in r ==> y == x || y in s
    ensures multiset(r) == multiset(s) + multiset{x}
  {
    if s == [] then [x]
    else if s[0] >= x then
      var tail := s[1..];
      assert s == [s[0]] + tail;
      assert SortedDesc(tail) by {
        forall i, j | 0 <= i < j < |tail| ensures tail[i] >= tail[j] {
          assert tail[i] == s[i + 1] && tail[j] == s[j + 1];
        }
      }
      var rest := Insert(x, tail);
      HeadIsLargest(s);
      assert forall y :: y in tail ==> y in s;
      PrependSorted(s[0], rest);
      [s[0]] + rest
    else
      HeadIsLargest(s);
      PrependSorted(x, s);
      [x] + s
  }

  /** `s.sort((a, b) => b - a)`: the same elements, largest first. */
  function SortDesc(s: seq<int>): (r: seq<int>)
    ensures SortedDesc(r)
    ensures multiset(r) == multiset(s)
  {
    if s == [] then []
    else
      assert s == [s[0]] + s[1..];
      Insert(s[0], SortDesc(s[1..]))
  }

  /** `s` is in ascending order of `key`. */
  predicate AscendingBy<T>(s: seq<T>, key: T -> nat) {
    forall i, j :: 0 <= i < j < |s| ==> key(s[i]) <= key(s[j])
  }

  /** Putting an element no larger than any of an ascending sequence in front of it keeps it ascending. */
  lemma PrependAscending<T>(h: T, s: seq<T>, key: T -> nat)
    requires AscendingBy(s, key)
    requires forall y :: y in s ==> key(h) <= key(y)
    ensures AscendingBy([h] + s, key)
  {
    var r := [h] + s;
    forall i, j | 0 <= i < j < |r| ensures key(r[i]) <= key(r[j]) {
      assert r[j] == s[j - 1];
      if i > 0 {
        assert r[i] == s[i - 1];
      } else {
        assert s[j - 1] in s;
      }
    }
  }

  /** The head of an ascending sequence has the smallest key. */
  lemma HeadIsSmallest<T>(s: seq<T>, key: T -> nat)
    requires AscendingBy(s, key) && s != []
    ensures forall y :: y in s ==> key(s[0]) <= key(y)
  {
    forall y | y in s ensures key(s[0]) <= key(y) {
      var k :| 0 <= k < |s| && s[k] == y;
      assert k == 0 || key(s[0]) <= key(s[k]);
    }
  }

  /** The tail of an ascending sequence is ascending. */
  lemma TailAscending<T>(s: seq<T>, key: T -> nat)
    requires AscendingBy(s, key) && s != []
    ensures AscendingBy(s[1..], key)
  {
    var tail := s[1..];
    forall i, j | 0 <= i < j < |tail| ensures key(tail[i]) <= key(tail[j]) {
      assert tail[i] == s[i + 1] && tail[j] == s[j + 1];
    }
  }

  /** Keeping the head of `s` in front of `x` inserted into its tail. */
  lemma InsertAfterHead<T>(x: T, s: seq<T>, rest: seq<T>, key: T -> nat)
    requires AscendingBy(s, key) && s != [] && key(s[0]) <= key(x)
    requires AscendingBy(rest, key)
    requires forall y :: y in rest ==> y == x || y in s[1..]
    requires multiset(rest) == multiset(s[1..]) + multiset{x}
    ensures AscendingBy([s[0]] + rest, key)
    ensures forall y :: y in [s[0]] + rest ==> y == x || y in s
    ensures multiset([s[0]] + rest) == multiset(s) + multiset{x}
  {
    HeadIsSmallest(s, key);
    assert s == [s[0]] + s[1..];
    assert forall y :: y in s[1..] ==> y in s;
    PrependAscending(s[0], rest, key);
  }

  /** Inserts `x` into an ascending sequence, after the elements whose key is not larger. */
  function InsertBy<T>(x: T, s: seq<T>, key: T -> nat): (r: seq<T>)
    requires AscendingBy(s, key)
    ensures AscendingBy(r, key)
    ensures forall y :: y in r ==> y == x || y in s
    ensures multiset(r) == multiset(s) + multiset{x}
  {
    if s == [] then [x]
    else if key(s[0]) <= key(x) then
      TailAscending(s, key);
      var rest := InsertBy(x, s[1..], key);
      InsertAfterHead(x, s, rest, key);
      [s[0]] + rest
    else
      HeadIsSmallest(s, key);
      PrependAscending(x, s, key);
      [x] + s
  }

  /** A stable sort by `key`: the same elements, in ascending order of their keys. */
  function SortBy<T>(s: seq<T>, key: T -> nat): (r: seq<T>)
    ensures AscendingBy(r, key)
    ensures multiset(r) == multiset(s)
    decreases |s|
  {
    if s == [] then []
    else
      var init := s[..|s| - 1];
      assert s == init + [s[|s| - 1]];
      InsertBy(s[|s| - 1], SortBy(init, key), key)
  }

  /** `s.slice(lo, hi)` for 0 <= lo: indices past the end are clamped. */
  function Slice<T>(s: seq<T>, lo: nat, hi: nat): (r: seq<T>)
    ensures |r| == (if hi <= |s| then hi else |s|) - (if lo <= hi && lo <= |s| then lo else if hi <= |s| then hi else |s|)
    ensures forall i :: 0 <= i < |r| ==> r[i] == s[lo + i]
  {
    var h := if hi <= |s| then hi else |s|;
    var l := if lo <= h then lo else h;
    s[l..h]
  }
}
