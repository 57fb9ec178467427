/**
 * Sequence helpers standing in for `Array.prototype.filter` and for the
 * "keeps the original elements in their relative order" relation.
 */
module Seqs {

  /** The elements of `s` that satisfy `p`, in order (JavaScript's `s.filter(p)`). */
  function Filter<T>(s: seq<T>, p: T -> bool): (r: seq<T>)
    ensures |r| <= |s|
    ensures forall x :: x in r ==> x in s && p(x)
    ensures forall x :: x in s && p(x) ==> x in r
  {
    if s == [] then []
    else if p(s[0]) then [s[0]] + Filter(s[1..], p)
    else Filter(s[1..], p)
  }

  /** Number of elements of `s` satisfying `p` (`s.filter(p).length`). */
  function Count<T>(s: seq<T>, p: T -> bool): nat
  {
    |Filter(s, p)|
  }

  /** `a` can be obtained from `b` by deleting elements: relative order is kept. */
  predicate Subseq<T(==)>(a: seq<T>, b: seq<T>)
    decreases |b|
  {
    if a == [] then true
    else if b == [] then false
    else (a[0] == b[0] && Subseq(a[1..], b[1..])) || Subseq(a, b[1..])
  }

  /** `s` with `e` inserted before position `i` (JavaScript's `s.splice(i, 0, e)`). */
  function Insert<T>(s: seq<T>, i: nat, e: T): (r: seq<T>)
    requires i <= |s|
    ensures |r| == |s| + 1 && r[i] == e
    ensures r[..i] == s[..i] && r[i + 1..] == s[i..]
  {
    s[..i] + [e] + s[i..]
  }

  lemma {:induction false} FilterConcat<T>(a: seq<T>, b: seq<T>, p: T -> bool)
    ensures Filter(a + b, p) == Filter(a, p) + Filter(b, p)
  {
    if a == [] {
      assert a + b == b;
    } else {
      assert (a + b)[1..] == a[1..] + b;
      FilterConcat(a[1..], b, p);
    }
  }

  lemma CountConcat<T>(a: seq<T>, b: seq<T>, p: T -> bool)
    ensures Count(a + b, p) == Count(a, p) + Count(b, p)
  {
    FilterConcat(a, b, p);
  }

  /** Inserting one element adds one to the count exactly when it satisfies `p`. */
  lemma CountInsert<T>(s: seq<T>, i: nat, e: T, p: T -> bool)
    requires i <= |s|
    ensures Count(Insert(s, i, e), p) == Count(s, p) + (if p(e) then 1 else 0)
  {
    assert s == s[..i] + s[i..];
    CountConcat(s[..i], s[i..], p);
    CountConcat(s[..i] + [e], s[i..], p);
    CountConcat(s[..i], [e], p);
    assert Filter([e], p) == if p(e) then [e] else [] by {
      assert [e][1..] == [];
    }
  }

  lemma MultisetInsert<T>(s: seq<T>, i: nat, e: T)
    requires i <= |s|
    ensures multiset(Insert(s, i, e)) == multiset(s) + multiset{e}
  {
    assert s == s[..i] + s[i..];
  }

  lemma {:induction false} SubseqRefl<T>(a: seq<T>)
    ensures Subseq(a, a)
  {
    if a != [] {
      SubseqRefl(a[1..]);
    }
  }

  /** A subsequence of `b` stays a subsequence when an element is inserted into `b`. */
  lemma {:induction false} SubseqInsert<T>(a: seq<T>, b: seq<T>, i: nat, e: T)
    requires i <= |b| && Subseq(a, b)
    ensures Subseq(a, Insert(b, i, e))
    decreases |b|
  {
    var r := Insert(b, i, e);
    if a == [] {
    } else if i == 0 {
      assert r[1..] == b;
    } else {
      assert r[0] == b[0];
      assert r[1..] == Insert(b[1..], i - 1, e);
      if a[0] == b[0] && Subseq(a[1..], b[1..]) {
        SubseqInsert(a[1..], b[1..], i - 1, e);
      } else {
        SubseqInsert(a, b[1..], i - 1, e);
      }
    }
  }

  /** A filtered sequence is a subsequence of the original. */
  lemma {:induction false} FilterSubseq<T>(s: seq<T>, p: T -> bool)
    ensures Subseq(Filter(s, p), s)
  {
    if s != [] {
      FilterSubseq(s[1..], p);
      var f := Filter(s[1..], p);
      if p(s[0]) {
        assert ([s[0]] + f)[1..] == f;
      } else if f != [] {
      }
    }
  }
}
