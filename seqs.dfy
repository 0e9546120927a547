/** Order-preserving filtering of sequences (Python list comprehensions with an `if`) and subsequences. */
module Seqs {

  /** `s` with exactly the elements satisfying `keep`, in their original order. */
  function Filter<T>(s: seq<T>, keep: T -> bool): (r: seq<T>)
    ensures |r| <= |s|
    ensures forall x :: x in r ==> x in s && keep(x)
    ensures forall x :: x in s && keep(x) ==> x in r
  {
    if s == [] then [] else (if keep(s[0]) then [s[0]] else []) + Filter(s[1..], keep)
  }

  /** `a` can be obtained from `b` by deleting elements, without reordering the rest. */
  predicate IsSubsequence<T(==)>(a: seq<T>, b: seq<T>)
    decreases |b|
  {
    a == [] || (b != [] && ((a[0] == b[0] && IsSubsequence(a[1..], b[1..])) || IsSubsequence(a, b[1..])))
  }

  /** The smaller of two naturals, for slices like Python's `xs[:n]`. */
  function Min(a: nat, b: nat): nat {
    if a <= b then a else b
  }

  /** Python's `xs[:n]`: the first `n` elements, or all of them when there are fewer. */
  function Take<T>(s: seq<T>, n: nat): (r: seq<T>)
    ensures |r| == Min(|s|, n)
    ensures r == s[..|r|]
  {
    if |s| <= n then s else s[..n]
  }

  lemma {:induction false} FilterIsSubsequence<T>(s: seq<T>, keep: T -> bool)
    ensures IsSubsequence(Filter(s, keep), s)
  {
    if s != [] {
      FilterIsSubsequence(s[1..], keep);
      if keep(s[0]) {
        assert Filter(s, keep)[1..] == Filter(s[1..], keep);
      } else {
        assert Filter(s, keep) == Filter(s[1..], keep);
        SubsequenceOfTail(Filter(s[1..], keep), s);
      }
    }
  }

  lemma {:induction false} SubsequenceOfTail<T>(a: seq<T>, b: seq<T>)
    requires b != [] && IsSubsequence(a, b[1..])
    ensures IsSubsequence(a, b)
  {
  }

  lemma {:induction false} SubsequenceReflexive<T>(s: seq<T>)
    ensures IsSubsequence(s, s)
  {
    if s != [] {
      SubsequenceReflexive(s[1..]);
    }
  }

  /** Every prefix of a subsequence of `b` is a subsequence of `b`. */
  lemma {:induction false} PrefixOfSubsequence<T>(a: seq<T>, b: seq<T>, k: nat)
    requires k <= |a| && IsSubsequence(a, b)
    ensures IsSubsequence(a[..k], b)
    decreases |b|
  {
    if k > 0 {
      assert b != [];
      if a[0] == b[0] && IsSubsequence(a[1..], b[1..]) {
        PrefixOfSubsequence(a[1..], b[1..], k - 1);
        assert a[..k][1..] == a[1..][..k - 1];
      } else {
        PrefixOfSubsequence(a, b[1..], k);
      }
    }
  }

  /** The elements taken are a subsequence of the filtered sequence. */
  lemma TakeOfFilterIsSubsequence<T>(s: seq<T>, keep: T -> bool, n: nat)
    ensures IsSubsequence(Take(Filter(s, keep), n), s)
  {
    FilterIsSubsequence(s, keep);
    PrefixOfSubsequence(Filter(s, keep), s, |Take(Filter(s, keep), n)|);
  }

  lemma {:induction false} FilterAppend<T>(a: seq<T>, b: seq<T>, keep: T -> bool)
    ensures Filter(a + b, keep) == Filter(a, keep) + Filter(b, keep)
  {
    if a != [] {
      var head := if keep(a[0]) then [a[0]] else [];
      assert (a + b)[0] == a[0] && (a + b)[1..] == a[1..] + b;
      assert Filter(a + b, keep) == head + Filter(a[1..] + b, keep);
      FilterAppend(a[1..], b, keep);
      AppendAssociative(head, Filter(a[1..], keep), Filter(b, keep));
    } else {
      assert a + b == b;
    }
  }

  /** Filtering by `keep` after appending one element. */
  lemma FilterSnoc<T>(a: seq<T>, x: T, keep: T -> bool)
    ensures Filter(a + [x], keep) == Filter(a, keep) + (if keep(x) then [x] else [])
  {
    FilterAppend(a, [x], keep);
  }

  /** A place to cut `s` so that its first part keeps exactly the first `t` elements `keep` keeps. */
  function FilterCut<T>(s: seq<T>, keep: T -> bool, t: nat): (n: nat)
    requires t <= |Filter(s, keep)|
    ensures n <= |s| && Filter(s[..n], keep) == Filter(s, keep)[..t]
  {
    if t == 0 then 0
    else
      var head := if keep(s[0]) then [s[0]] else [];
      assert Filter(s, keep) == head + Filter(s[1..], keep);
      var n' := FilterCut(s[1..], keep, t - |head|);
      FilterOfSlice(s, n' + 1, keep);
      PrefixOfAppend(head, Filter(s[1..], keep), t);
      n' + 1
  }

  /** Filtering a non-empty prefix of `s` splits off its first element. */
  lemma FilterOfSlice<T>(s: seq<T>, n: nat, keep: T -> bool)
    requires 0 < n <= |s|
    ensures Filter(s[..n], keep) == (if keep(s[0]) then [s[0]] else []) + Filter(s[1..][..n - 1], keep)
  {
    assert s[..n][1..] == s[1..][..n - 1];
  }

  /** Cutting `h + x` no shorter than `h` cuts only `x`. */
  lemma PrefixOfAppend<T>(h: seq<T>, x: seq<T>, t: nat)
    requires |h| <= t <= |h| + |x|
    ensures (h + x)[..t] == h + x[..t - |h|]
  {
  }

  /** Two predicates that agree on the elements of `s` filter it alike. */
  lemma {:induction false} FilterCongruent<T>(s: seq<T>, p: T -> bool, q: T -> bool)
    requires forall x :: x in s ==> p(x) == q(x)
    ensures Filter(s, p) == Filter(s, q)
  {
    if s != [] {
      FilterCongruent(s[1..], p, q);
    }
  }

  /** A predicate that every element satisfies keeps the sequence as it is. */
  lemma {:induction false} FilterKeepsAll<T>(s: seq<T>, keep: T -> bool)
    requires forall x :: x in s ==> keep(x)
    ensures Filter(s, keep) == s
  {
    if s != [] {
      FilterKeepsAll(s[1..], keep);
    }
  }

  /** Concatenation is associative; stated once so that long concatenations need not be compared element by element. */
  lemma AppendAssociative<T>(a: seq<T>, b: seq<T>, c: seq<T>)
    ensures (a + b) + c == a + (b + c)
  {
  }

  /** The position of the first occurrence of `x` in `s`. */
  function FirstIndex<T(==)>(s: seq<T>, x: T): (r: nat)
    requires x in s
    ensures r < |s| && s[r] == x && x !in s[..r]
  {
    if s[0] == x then 0
    else
      assert s == [s[0]] + s[1..];
      1 + FirstIndex(s[1..], x)
  }

  /** The first occurrence is the one position holding `x` with no `x` before it. */
  lemma FirstIndexUnique<T>(s: seq<T>, x: T, k: nat)
    requires k < |s| && s[k] == x && x !in s[..k]
    ensures FirstIndex(s, x) == k
  {
    var k' := FirstIndex(s, x);
    assert forall j :: 0 <= j < k ==> s[..k][j] == s[j];
    assert forall j :: 0 <= j < k' ==> s[..k'][j] == s[j];
  }

  /** An element of the prefix without the last element first occurs at the same place in both. */
  lemma FirstIndexOfPrefix<T>(s: seq<T>)
    requires s != []
    ensures forall y :: y in s[..|s| - 1] ==> FirstIndex(s, y) == FirstIndex(s[..|s| - 1], y)
    ensures s[|s| - 1] !in s[..|s| - 1] ==> FirstIndex(s, s[|s| - 1]) == |s| - 1
  {
    var init := s[..|s| - 1];
    forall y | y in init
      ensures FirstIndex(s, y) == FirstIndex(init, y)
    {
      var k := FirstIndex(init, y);
      assert s[..k] == init[..k];
      FirstIndexUnique(s, y, k);
    }
    if s[|s| - 1] !in init {
      FirstIndexUnique(s, s[|s| - 1], |s| - 1);
    }
  }
}
