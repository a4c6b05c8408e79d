/** Stable sorting, as ECMAScript's `Array.prototype.sort` with a comparator does it
    (section 23.1.3.30 of ECMA-262 requires the sort to be stable). A comparator
    `cmp` is represented by `le(a, b) == (cmp(a, b) <= 0)`. `SortBy` (insertion sort
    over the input from the left) is the reference definition: its result is sorted,
    a permutation of the input, and keeps the elements that compare equal in their
    input order. `InsertionSort` does the same in place. */
module Sorting {
  import opened Seqs

  ghost predicate TotalPreorder<T(!new)>(le: (T, T) -> bool) {
    (forall a, b :: le(a, b) || le(b, a)) &&
    (forall a, b, c :: le(a, b) && le(b, c) ==> le(a, c))
  }

  ghost predicate Sorted<T>(s: seq<T>, le: (T, T) -> bool) {
    forall i, j :: 0 <= i < j < |s| ==> le(s[i], s[j])
  }

  /** `x` inserted into `s` after every element that `le`-precedes it. */
  function Insert<T>(s: seq<T>, x: T, le: (T, T) -> bool): (r: seq<T>)
    ensures |r| == |s| + 1
    ensures multiset(r) == multiset(s) + multiset{x}
    decreases |s|
  {
    if s == [] then [x]
    else if le(s[|s| - 1], x) then s + [x]
    else
      assert s == s[..|s| - 1] + [s[|s| - 1]];
      Insert(s[..|s| - 1], x, le) + [s[|s| - 1]]
  }

  function SortBy<T>(s: seq<T>, le: (T, T) -> bool): (r: seq<T>)
    ensures |r| == |s|
    ensures multiset(r) == multiset(s)
    decreases |s|
  {
    if s == [] then []
    else
      assert s == s[..|s| - 1] + [s[|s| - 1]];
      Insert(SortBy(s[..|s| - 1], le), s[|s| - 1], le)
  }

  /** The elements that compare equal to `x` both ways. */
  function Ties<T>(le: (T, T) -> bool, x: T): T -> bool {
    (y: T) => le(x, y) && le(y, x)
  }

  /** Inserting `y` keeps it behind every element it ties with. */
  lemma {:induction false} InsertTies<T>(s: seq<T>, y: T, le: (T, T) -> bool, x: T)
    requires forall z :: !le(z, y) ==> !(Ties(le, x)(y) && Ties(le, x)(z))
    ensures Filter(Insert(s, y, le), Ties(le, x)) == Filter(s + [y], Ties(le, x))
    decreases |s|
  {
    if s != [] && !le(s[|s| - 1], y) {
      var init, z := s[..|s| - 1], s[|s| - 1];
      assert s == init + [z];
      InsertTies(init, y, le, x);
      FilterSwap(Insert(init, y, le), init, y, z, Ties(le, x));
    }
  }

  /** Moving `y` behind `z` changes no filter that keeps at most one of them. */
  lemma FilterSwap<T>(a: seq<T>, init: seq<T>, y: T, z: T, p: T -> bool)
    requires Filter(a, p) == Filter(init + [y], p)
    requires !(p(y) && p(z))
    ensures Filter(a + [z], p) == Filter(init + [z] + [y], p)
  {
    FilterSnoc(a, z, p);
    FilterSnoc(init, y, p);
    FilterSnoc(init, z, p);
    FilterSnoc(init + [z], y, p);
  }

  /** An element that `y` may not follow does not tie with anything `y` ties with. */
  lemma TiesBefore<T(!new)>(le: (T, T) -> bool, x: T, y: T, z: T)
    requires TotalPreorder(le)
    requires !le(z, y)
    ensures !(Ties(le, x)(y) && Ties(le, x)(z))
  {
  }

  /** Stability: `SortBy` keeps the elements that tie with any `x` in their input order. */
  lemma {:induction false} SortByStable<T(!new)>(s: seq<T>, le: (T, T) -> bool, x: T)
    requires TotalPreorder(le)
    ensures Filter(SortBy(s, le), Ties(le, x)) == Filter(s, Ties(le, x))
    decreases |s|
  {
    if s != [] {
      var init, last := s[..|s| - 1], s[|s| - 1];
      assert s == init + [last];
      SortByStable(init, le, x);
      forall z | !le(z, last) ensures !(Ties(le, x)(last) && Ties(le, x)(z)) {
        TiesBefore(le, x, last, z);
      }
      InsertTies(SortBy(init, le), last, le, x);
      FilterSnoc(SortBy(init, le), last, Ties(le, x));
      FilterSnoc(init, last, Ties(le, x));
    }
  }

  lemma {:induction false} InsertSorted<T(!new)>(s: seq<T>, x: T, le: (T, T) -> bool)
    requires TotalPreorder(le)
    requires Sorted(s, le)
    ensures Sorted(Insert(s, x, le), le)
    decreases |s|
  {
    if s != [] {
      var init, last := s[..|s| - 1], s[|s| - 1];
      assert forall k :: 0 <= k < |init| ==> init[k] == s[k];
      if le(last, x) {
        forall k | 0 <= k < |s| ensures le(s[k], x) {
          assert k < |s| - 1 ==> le(s[k], last);
        }
        SortedSnoc(s, x, le);
      } else {
        assert le(x, last);
        InsertSorted(init, x, le);
        InsertBounded(init, x, le, last);
        SortedSnoc(Insert(init, x, le), last, le);
      }
    }
  }

  /** Appending an element that every element may precede keeps a sequence sorted. */
  lemma SortedSnoc<T>(s: seq<T>, y: T, le: (T, T) -> bool)
    requires Sorted(s, le)
    requires forall k :: 0 <= k < |s| ==> le(s[k], y)
    ensures Sorted(s + [y], le)
  {
    var r := s + [y];
    forall i, j | 0 <= i < j < |r| ensures le(r[i], r[j]) {
      assert r[i] == s[i];
      if j < |s| {
        assert r[j] == s[j];
      }
    }
  }

  /** An upper bound of `s` and of `x` bounds everything in `Insert(s, x, le)`. */
  lemma {:induction false} InsertBounded<T>(s: seq<T>, x: T, le: (T, T) -> bool, y: T)
    requires forall k :: 0 <= k < |s| ==> le(s[k], y)
    requires le(x, y)
    ensures forall k :: 0 <= k < |Insert(s, x, le)| ==> le(Insert(s, x, le)[k], y)
    decreases |s|
  {
    if s != [] && !le(s[|s| - 1], x) {
      var init := s[..|s| - 1];
      assert forall k :: 0 <= k < |init| ==> init[k] == s[k];
      InsertBounded(init, x, le, y);
      var r0 := Insert(init, x, le);
      var r := r0 + [s[|s| - 1]];
      assert Insert(s, x, le) == r;
      forall k | 0 <= k < |r| ensures le(r[k], y) {
        if k < |r0| {
          assert r[k] == r0[k];
        }
      }
    } else if s != [] {
      var r := s + [x];
      forall k | 0 <= k < |r| ensures le(r[k], y) {
        if k < |s| {
          assert r[k] == s[k];
        }
      }
    }
  }

  /** The result is ordered by `le`. */
  lemma {:induction false} SortBySorted<T(!new)>(s: seq<T>, le: (T, T) -> bool)
    requires TotalPreorder(le)
    ensures Sorted(SortBy(s, le), le)
    decreases |s|
  {
    if s != [] {
      SortBySorted(s[..|s| - 1], le);
      InsertSorted(SortBy(s[..|s| - 1], le), s[|s| - 1], le);
    }
  }

  /** A sequence that is already in order is left exactly as it is; with a
      comparator that never separates two elements the order is the input's. */
  lemma {:induction false} SortByIdentity<T>(s: seq<T>, le: (T, T) -> bool)
    requires Sorted(s, le)
    ensures SortBy(s, le) == s
    decreases |s|
  {
    if s != [] {
      SortedInit(s, le);
      SortByIdentity(s[..|s| - 1], le);
      SortByIdentityStep(s, le);
    }
  }

  lemma SortByIdentityStep<T>(s: seq<T>, le: (T, T) -> bool)
    requires s != [] && Sorted(s, le)
    requires SortBy(s[..|s| - 1], le) == s[..|s| - 1]
    ensures SortBy(s, le) == s
  {
    var init, last := s[..|s| - 1], s[|s| - 1];
    SortByLast(s, le);
    if init != [] {
      assert init[|init| - 1] == s[|s| - 2];
      assert le(s[|s| - 2], s[|s| - 1]);
    }
    InsertAtEnd(init, last, le);
    SplitAtEnd(s);
  }

  lemma SortByLast<T>(s: seq<T>, le: (T, T) -> bool)
    requires s != []
    ensures SortBy(s, le) == Insert(SortBy(s[..|s| - 1], le), s[|s| - 1], le)
  {
  }

  lemma SplitAtEnd<T>(s: seq<T>)
    requires s != []
    ensures s[..|s| - 1][..|s| - 1] + [s[|s| - 1]] + s[..|s| - 1][|s| - 1..] == s
  {
    var init := s[..|s| - 1];
    assert init[..|init|] == init && init[|init|..] == [];
  }

  lemma SortedInit<T>(s: seq<T>, le: (T, T) -> bool)
    requires s != [] && Sorted(s, le)
    ensures Sorted(s[..|s| - 1], le)
  {
    var init := s[..|s| - 1];
    forall i, j | 0 <= i < j < |init| ensures le(init[i], init[j]) {
      assert init[i] == s[i] && init[j] == s[j];
    }
  }

  /** Sorting twice gives the same order as sorting once. */
  lemma SortByIdempotent<T(!new)>(s: seq<T>, le: (T, T) -> bool)
    requires TotalPreorder(le)
    ensures SortBy(SortBy(s, le), le) == SortBy(s, le)
  {
    SortBySorted(s, le);
    SortByIdentity(SortBy(s, le), le);
  }

  /** In-place stable insertion sort: the array ends up as `SortBy` of its old contents. */
  method InsertionSort<T>(a: array<T>, le: (T, T) -> bool)
    modifies a
    ensures a[..] == SortBy(old(a[..]), le)
  {
    ghost var orig := a[..];
    var i := 0;
    while i < a.Length
      invariant 0 <= i <= a.Length
      invariant a[..i] == SortBy(orig[..i], le)
      invariant a[i..] == orig[i..]
    {
      ghost var before := a[..];
      InsertAt(a, i, le);
      SortStepFacts(orig, before, a[..], i, le);
      i := i + 1;
    }
    assert a[..] == a[..a.Length] && orig == orig[..a.Length];
  }

  /** One pass of the outer loop extends the sorted prefix by one element. */
  lemma SortStepFacts<T>(orig: seq<T>, before: seq<T>, after: seq<T>, i: nat, le: (T, T) -> bool)
    requires i < |orig| == |before| == |after|
    requires before[..i] == SortBy(orig[..i], le) && before[i..] == orig[i..]
    requires after[..i + 1] == Insert(before[..i], before[i], le) && after[i + 1..] == before[i + 1..]
    ensures after[..i + 1] == SortBy(orig[..i + 1], le) && after[i + 1..] == orig[i + 1..]
  {
    assert before[i] == before[i..][0] && orig[i] == orig[i..][0];
    assert before[i + 1..] == before[i..][1..] && orig[i + 1..] == orig[i..][1..];
    SortByStep(orig, i, le);
  }

  lemma SortByStep<T>(s: seq<T>, i: nat, le: (T, T) -> bool)
    requires i < |s|
    ensures SortBy(s[..i + 1], le) == Insert(SortBy(s[..i], le), s[i], le)
  {
    assert s[..i + 1][..i] == s[..i];
  }

  /** One step of insertion sort: `a[i]` moves left past the elements of the sorted
      prefix `a[..i]` that it must follow; the rest of the array is untouched. */
  method InsertAt<T>(a: array<T>, i: nat, le: (T, T) -> bool)
    requires i < a.Length
    modifies a
    ensures a[..i + 1] == Insert(old(a[..i]), old(a[i]), le)
    ensures a[i + 1..] == old(a[i + 1..])
  {
    var x := a[i];
    ghost var s := a[..i];
    ghost var orig := a[..];
    var j := i;
    while j > 0 && !le(a[j - 1], x)
      invariant 0 <= j <= i
      invariant Shifted(a[..], s, orig, i, j)
      invariant forall k :: j <= k < i ==> !le(s[k], x)
    {
      ShiftStep(a[..], s, orig, i, j);
      a[j] := a[j - 1];
      j := j - 1;
    }
    Placed(a[..], s, orig, i, j, x);
    a[j] := x;
    InsertSplit(s, x, le, j);
  }

  /** The state of `InsertAt`'s loop: `s[j..]` has moved one place right, leaving a
      gap at `j`, and nothing past `i` has changed. */
  ghost predicate Shifted<T>(cur: seq<T>, s: seq<T>, orig: seq<T>, i: nat, j: nat) {
    j <= i < |cur| == |orig| && |s| == i &&
    cur[..j] == s[..j] && cur[j + 1..i + 1] == s[j..] && cur[i + 1..] == orig[i + 1..]
  }

  lemma ShiftStep<T>(cur: seq<T>, s: seq<T>, orig: seq<T>, i: nat, j: nat)
    requires Shifted(cur, s, orig, i, j) && j > 0
    ensures cur[j - 1] == s[j - 1]
    ensures Shifted(cur[j := cur[j - 1]], s, orig, i, j - 1)
  {
    assert cur[j - 1] == cur[..j][j - 1];
    var next := cur[j := cur[j - 1]];
    assert next[..j - 1] == cur[..j - 1] == s[..j - 1];
    assert next[j..i + 1] == [s[j - 1]] + cur[j + 1..i + 1];
    assert s[j - 1..] == [s[j - 1]] + s[j..];
    assert next[i + 1..] == cur[i + 1..];
  }

  lemma Placed<T>(cur: seq<T>, s: seq<T>, orig: seq<T>, i: nat, j: nat, x: T)
    requires Shifted(cur, s, orig, i, j)
    ensures cur[j := x][..i + 1] == s[..j] + [x] + s[j..]
    ensures cur[j := x][i + 1..] == orig[i + 1..]
  {
    var next := cur[j := x];
    assert next[..j] == cur[..j];
    assert next[j + 1..i + 1] == cur[j + 1..i + 1];
    assert next[..i + 1] == next[..j] + [x] + next[j + 1..i + 1];
    assert next[i + 1..] == cur[i + 1..];
  }

  /** `Insert` places `x` right after the last element it may follow, provided no
      later element may be followed by it. */
  lemma {:induction false} InsertSplit<T>(s: seq<T>, x: T, le: (T, T) -> bool, j: nat)
    requires j <= |s|
    requires j > 0 ==> le(s[j - 1], x)
    requires forall k :: j <= k < |s| ==> !le(s[k], x)
    ensures Insert(s, x, le) == s[..j] + [x] + s[j..]
    decreases |s|
  {
    if j == |s| {
      InsertAtEnd(s, x, le);
    } else {
      var init := s[..|s| - 1];
      InsertSplit(init, x, le, j);
      InsertPastLast(s, x, le, j);
    }
  }

  lemma InsertAtEnd<T>(s: seq<T>, x: T, le: (T, T) -> bool)
    requires s != [] ==> le(s[|s| - 1], x)
    ensures Insert(s, x, le) == s[..|s|] + [x] + s[|s|..]
  {
    assert s[..|s|] == s && s[|s|..] == [];
  }

  lemma InsertPastLast<T>(s: seq<T>, x: T, le: (T, T) -> bool, j: nat)
    requires j < |s| && !le(s[|s| - 1], x)
    requires Insert(s[..|s| - 1], x, le) == s[..|s| - 1][..j] + [x] + s[..|s| - 1][j..]
    ensures Insert(s, x, le) == s[..j] + [x] + s[j..]
  {
    var init, last := s[..|s| - 1], s[|s| - 1];
    InsertLater(s, x, le);
    SplitLast(s, j);
    ConcatAssoc(s[..j], x, init[j..], last);
  }

  /** `Insert` past an element that must stay after `x`. */
  lemma InsertLater<T>(s: seq<T>, x: T, le: (T, T) -> bool)
    requires s != [] && !le(s[|s| - 1], x)
    ensures Insert(s, x, le) == Insert(s[..|s| - 1], x, le) + [s[|s| - 1]]
  {
  }

  lemma SplitLast<T>(s: seq<T>, j: nat)
    requires j < |s|
    ensures s[..|s| - 1][..j] == s[..j]
    ensures s[..|s| - 1][j..] + [s[|s| - 1]] == s[j..]
  {
  }

  lemma ConcatAssoc<T>(a: seq<T>, x: T, b: seq<T>, y: T)
    ensures a + [x] + b + [y] == a + [x] + (b + [y])
  {
  }

  /** A filter of a sorted sequence is sorted. */
  lemma {:induction false} FilterSorted<T>(s: seq<T>, p: T -> bool, le: (T, T) -> bool)
    requires Sorted(s, le)
    ensures Sorted(Filter(s, p), le)
  {
    if s != [] {
      SortedTail(s, le);
      FilterSorted(s[1..], p, le);
      if p(s[0]) {
        var rest := Filter(s[1..], p);
        forall j | 0 <= j < |rest| ensures le(s[0], rest[j]) {
          var k :| 0 <= k < |s[1..]| && s[1..][k] == rest[j];
          assert s[k + 1] == rest[j];
        }
        SortedCons(s[0], rest, le);
      }
    }
  }

  lemma SortedTail<T>(s: seq<T>, le: (T, T) -> bool)
    requires s != [] && Sorted(s, le)
    ensures Sorted(s[1..], le)
  {
    forall i, j | 0 <= i < j < |s[1..]| ensures le(s[1..][i], s[1..][j]) {
      assert s[1..][i] == s[i + 1] && s[1..][j] == s[j + 1];
    }
  }

  /** An element that may precede everything in a sorted sequence can go in front. */
  lemma SortedCons<T>(x: T, s: seq<T>, le: (T, T) -> bool)
    requires Sorted(s, le)
    requires forall j :: 0 <= j < |s| ==> le(x, s[j])
    ensures Sorted([x] + s, le)
  {
    var r := [x] + s;
    forall i, j | 0 <= i < j < |r| ensures le(r[i], r[j]) {
      assert r[j] == s[j - 1];
      if i > 0 {
        assert r[i] == s[i - 1];
      }
    }
  }
}
