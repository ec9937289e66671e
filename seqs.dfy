/** Order-preserving filtering of sequences, the in-memory reading of a
    `SELECT ... WHERE` over a table or of a list comprehension with a guard. */
module Seqs {

  /** `a` is obtained from `b` by deleting elements; the survivors keep their order. */
  predicate IsSubsequence<T(==)>(a: seq<T>, b: seq<T>)
    decreases |b|
  {
    if a == [] then true
    else if b == [] then false
    else (a[0] == b[0] && IsSubsequence(a[1..], b[1..])) || IsSubsequence(a, b[1..])
  }

  /** The elements of `s` that satisfy `p`, in their original order. */
  function Filter<T(==,!new)>(s: seq<T>, p: T -> bool): (r: seq<T>)
    ensures |r| <= |s|
    ensures forall x :: x in r <==> x in s && p(x)
  {
    if s == [] then []
    else
      var rest := Filter(s[1..], p);
      assert s == [s[0]] + s[1..];
      if p(s[0]) then [s[0]] + rest else rest
  }

  /** Filtering keeps the survivors in their original order. */
  lemma {:induction false} FilterSubsequence<T(!new)>(s: seq<T>, p: T -> bool)
    ensures IsSubsequence(Filter(s, p), s)
  {
    if s != [] {
      FilterSubsequence(s[1..], p);
    }
  }

  /** Filtering keeps exactly the occurrences that pass the guard. */
  lemma {:induction false} FilterCount<T(!new)>(s: seq<T>, p: T -> bool)
    ensures forall x :: multiset(Filter(s, p))[x] == if p(x) then multiset(s)[x] else 0
  {
    if s != [] {
      FilterCount(s[1..], p);
      assert s == [s[0]] + s[1..];
    }
  }

  lemma {:induction false} SubsequenceTransitive<T>(a: seq<T>, b: seq<T>, c: seq<T>)
    requires IsSubsequence(a, b) && IsSubsequence(b, c)
    ensures IsSubsequence(a, c)
    decreases |c|
  {
    if a != [] {
      if b[0] == c[0] && IsSubsequence(b[1..], c[1..]) {
        if a[0] == b[0] && IsSubsequence(a[1..], b[1..]) {
          SubsequenceTransitive(a[1..], b[1..], c[1..]);
        } else {
          SubsequenceTransitive(a, b[1..], c[1..]);
        }
      } else {
        SubsequenceTransitive(a, b, c[1..]);
      }
    }
  }

  /** Filtering distributes over concatenation. */
  lemma {:induction false} FilterConcat<T(!new)>(a: seq<T>, b: seq<T>, p: T -> bool)
    ensures Filter(a + b, p) == Filter(a, p) + Filter(b, p)
  {
    if a != [] {
      assert (a + b)[0] == a[0];
      assert (a + b)[1..] == a[1..] + b;
      FilterConcat(a[1..], b, p);
      assert Filter(a, p) == (if p(a[0]) then [a[0]] else []) + Filter(a[1..], p);
    } else {
      assert a + b == b;
    }
  }

  /** A sequence none of whose elements pass the guard filters to nothing. */
  lemma FilterNone<T(!new)>(s: seq<T>, p: T -> bool)
    requires forall x :: x in s ==> !p(x)
    ensures Filter(s, p) == []
  {
  }

  /** A sequence all of whose elements pass the guard filters to itself. */
  lemma {:induction false} FilterAll<T(!new)>(s: seq<T>, p: T -> bool)
    requires forall x :: x in s ==> p(x)
    ensures Filter(s, p) == s
  {
    if s != [] {
      assert forall x :: x in s[1..] ==> x in s;
      FilterAll(s[1..], p);
      assert s == [s[0]] + s[1..];
    }
  }

  /** Filtering by a guard and by its negation splits `s` into two parts. */
  lemma FilterPartition<T(!new)>(s: seq<T>, p: T -> bool, q: T -> bool)
    requires forall x :: q(x) == !p(x)
    ensures multiset(Filter(s, p)) + multiset(Filter(s, q)) == multiset(s)
    ensures |Filter(s, p)| + |Filter(s, q)| == |s|
  {
    var a, b := Filter(s, p), Filter(s, q);
    FilterCount(s, p);
    FilterCount(s, q);
    assert forall x :: (multiset(a) + multiset(b))[x] == multiset(s)[x];
    assert multiset(a) + multiset(b) == multiset(s);
    assert |multiset(a) + multiset(b)| == |s|;
  }
}
