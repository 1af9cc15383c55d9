/** Small sequence utilities shared by the modules of the model: an Option
    type for "found / not found", a filter (pandas' boolean-mask selection),
    the index of the first element satisfying a test, and counting. */
module Seqs {

  datatype Option<+T> = None | Some(value: T)

  /** The elements of `s` that satisfy `p`, in their original order
      (`df[mask]` keeps the rows whose mask entry is true). */
  function Filter<T>(s: seq<T>, p: T -> bool): (r: seq<T>)
    ensures |r| <= |s|
    ensures forall i :: 0 <= i < |r| ==> p(r[i])
    ensures forall x :: x in r ==> x in s
  {
    if s == [] then []
    else if p(s[0]) then [s[0]] + Filter(s[1..], p)
    else Filter(s[1..], p)
  }

  /** The index of the first element of `s` satisfying `p`, or `|s|` when
      there is none. */
  function FirstIndex<T>(s: seq<T>, p: T -> bool): (k: nat)
    ensures k <= |s|
    ensures forall j :: 0 <= j < k ==> !p(s[j])
    ensures k < |s| ==> p(s[k])
  {
    if s == [] then 0
    else if p(s[0]) then 0
    else 1 + FirstIndex(s[1..], p)
  }

  /** `FirstIndex` is determined by its two postconditions. */
  lemma {:induction false} FirstIndexIs<T>(s: seq<T>, p: T -> bool, k: nat)
    requires k <= |s|
    requires forall j :: 0 <= j < k ==> !p(s[j])
    requires k < |s| ==> p(s[k])
    ensures FirstIndex(s, p) == k
  {
  }

  /** The head of the filtered sequence is the first element that passes the
      test, and the filter is empty exactly when no element passes. */
  lemma {:induction false} FilterHeadIsFirst<T>(s: seq<T>, p: T -> bool)
    ensures Filter(s, p) == [] <==> FirstIndex(s, p) == |s|
    ensures Filter(s, p) != [] ==> Filter(s, p)[0] == s[FirstIndex(s, p)]
  {
    if s != [] && !p(s[0]) {
      FilterHeadIsFirst(s[1..], p);
    }
  }

  /** Slicing a concatenation inside one of its parts. */
  lemma {:induction false} SliceAppend<T>(a: seq<T>, b: seq<T>, i: nat)
    ensures i <= |a| ==> (a + b)[i..] == a[i..] + b && (a + b)[..i] == a[..i]
    ensures i <= |b| ==> (a + b)[|a| + i..] == b[i..]
  {
  }

  /** Extending a prefix by one element. */
  lemma {:induction false} PrefixStep<T>(s: seq<T>, i: nat)
    requires i < |s|
    ensures s[..i + 1] == s[..i] + [s[i]]
    ensures s[..i + 1][..i] == s[..i]
  {
  }

  /** `[f(x) for x in s]`. */
  function Map<A, B>(s: seq<A>, f: A -> B): (r: seq<B>)
    ensures |r| == |s|
  {
    if s == [] then [] else Map(s[..|s| - 1], f) + [f(s[|s| - 1])]
  }

  /** Element `i` of the image is the image of element `i`. */
  lemma {:induction false} MapAt<A, B>(s: seq<A>, f: A -> B)
    ensures forall i :: 0 <= i < |s| ==> Map(s, f)[i] == f(s[i])
  {
    if s != [] {
      var prefix := s[..|s| - 1];
      MapAt(prefix, f);
      assert forall i :: 0 <= i < |prefix| ==> s[i] == prefix[i];
    }
  }

  /** Mapping a sequence extended by one element. */
  lemma {:induction false} MapSnoc<A, B>(s: seq<A>, x: A, f: A -> B)
    ensures Map(s + [x], f) == Map(s, f) + [f(x)]
  {
    assert (s + [x])[..|s + [x]| - 1] == s;
  }

  /** The number of elements of `s` equal to `x`. */
  function Count<T(==)>(s: seq<T>, x: T): (n: nat)
    ensures n <= |s|
  {
    |Filter(s, y => y == x)|
  }

  lemma {:induction false} CountAppend<T>(s: seq<T>, y: T, x: T)
    ensures Count(s + [y], x) == Count(s, x) + (if y == x then 1 else 0)
  {
    if s == [] {
      assert s + [y] == [y];
    } else {
      assert (s + [y])[1..] == s[1..] + [y];
      CountAppend(s[1..], y, x);
    }
  }

  /** `Count` agrees with the multiset view of the sequence. */
  lemma {:induction false} CountIsMultiplicity<T>(s: seq<T>, x: T)
    ensures Count(s, x) == multiset(s)[x]
  {
    if s != [] {
      CountIsMultiplicity(s[1..], x);
      assert s == [s[0]] + s[1..];
      assert multiset(s) == multiset([s[0]]) + multiset(s[1..]);
    }
  }

  /** Counting the images under `f` of the elements of `s` counts the
      elements equal to `x`, when no other element has the image of `x`. */
  lemma {:induction false} CountMap<S, T>(s: seq<S>, f: S -> T, x: S)
    requires forall a :: f(a) == f(x) ==> a == x
    ensures Count(Map(s, f), f(x)) == Count(s, x)
  {
    if s != [] {
      var prefix, last := s[..|s| - 1], s[|s| - 1];
      assert s == prefix + [last];
      CountMap(prefix, f, x);
      CountAppend(prefix, last, x);
      CountAppend(Map(prefix, f), f(last), f(x));
    }
  }

  /** Three different values are counted at most once per element in
      total. */
  lemma {:induction false} CountThreeAtMost<T>(s: seq<T>, x: T, y: T, z: T)
    requires x != y && y != z && x != z
    ensures Count(s, x) + Count(s, y) + Count(s, z) <= |s|
  {
    if s != [] {
      var prefix, last := s[..|s| - 1], s[|s| - 1];
      assert s == prefix + [last];
      CountThreeAtMost(prefix, x, y, z);
      CountAppend(prefix, last, x);
      CountAppend(prefix, last, y);
      CountAppend(prefix, last, z);
    }
  }
}
