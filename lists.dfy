/** Sequence operations behind the component's list handling: the
    `Array.prototype.filter` and `Array.prototype.map` calls of src/App.jsx,
    together with the independent notions (counting, subsequence) their
    contracts are stated in. */
module Lists {

  /** `a` can be obtained from `b` by deleting elements, keeping the order. */
  predicate IsSubsequence<T(==)>(a: seq<T>, b: seq<T>)
    decreases |b|
  {
    if a == [] then true
    else if b == [] then false
    else if a[0] == b[0] then IsSubsequence(a[1..], b[1..])
    else IsSubsequence(a, b[1..])
  }

  /** Number of elements of `s` that satisfy `p`. */
  function Count<T>(s: seq<T>, p: T -> bool): (n: nat)
    ensures n <= |s|
  {
    if s == [] then 0
    else (if p(s[0]) then 1 else 0) + Count(s[1..], p)
  }

  /** The elements of `s` that satisfy `p`, in their order: `s.filter(p)`. */
  function Select<T(==)>(s: seq<T>, p: T -> bool): (r: seq<T>)
    ensures IsSubsequence(r, s)
    ensures forall i :: 0 <= i < |r| ==> p(r[i])
    ensures |r| == Count(s, p)
    ensures forall i :: 0 <= i < |r| ==> r[i] in s
    ensures forall i :: 0 <= i < |s| && p(s[i]) ==> s[i] in r
  {
    if s == [] then []
    else if p(s[0]) then [s[0]] + Select(s[1..], p)
    else Select(s[1..], p)
  }

  /** `s.map(f)`. */
  function MapSeq<T, U>(s: seq<T>, f: T -> U): (r: seq<U>)
    ensures |r| == |s|
    ensures forall i :: 0 <= i < |s| ==> r[i] == f(s[i])
  {
    if s == [] then [] else [f(s[0])] + MapSeq(s[1..], f)
  }

  /** Every element of `s` is either counted by `p` or by its negation. */
  lemma {:induction false} CountComplement<T>(s: seq<T>, p: T -> bool, q: T -> bool)
    requires forall x :: q(x) == !p(x)
    ensures Count(s, p) + Count(s, q) == |s|
  {
    if s != [] {
      CountComplement(s[1..], p, q);
    }
  }

  /** Two predicates that agree on every element count the same elements. */
  lemma {:induction false} CountSame<T>(s: seq<T>, p: T -> bool, q: T -> bool)
    requires forall x :: p(x) == q(x)
    ensures Count(s, p) == Count(s, q)
  {
    if s != [] {
      CountSame(s[1..], p, q);
    }
  }

  /** A subsequence of `s` all of whose elements satisfy `p` is no longer than
      the number of elements of `s` satisfying `p`. */
  lemma {:induction false} SubsequenceCountBound<T>(r: seq<T>, s: seq<T>, p: T -> bool)
    requires IsSubsequence(r, s)
    requires forall i :: 0 <= i < |r| ==> p(r[i])
    ensures |r| <= Count(s, p)
    decreases |s|
  {
    if r != [] && s != [] {
      if r[0] == s[0] {
        SubsequenceCountBound(r[1..], s[1..], p);
      } else {
        SubsequenceCountBound(r, s[1..], p);
      }
    }
  }

  /** `Select` is the only subsequence of `s` made of `p`-elements that has
      as many elements as `s` has `p`-elements: the filter keeps exactly the
      selected elements, each where it was. */
  lemma {:induction false} SelectUnique<T>(r: seq<T>, s: seq<T>, p: T -> bool)
    requires IsSubsequence(r, s)
    requires forall i :: 0 <= i < |r| ==> p(r[i])
    requires |r| == Count(s, p)
    ensures r == Select(s, p)
    decreases |s|
  {
    if s == [] {
    } else if r == [] {
      if p(s[0]) {
        assert false;
      }
      SelectUnique(r, s[1..], p);
    } else if r[0] == s[0] {
      assert p(s[0]);
      SelectUnique(r[1..], s[1..], p);
      assert r == [r[0]] + r[1..];
    } else {
      assert IsSubsequence(r, s[1..]);
      if p(s[0]) {
        SubsequenceCountBound(r, s[1..], p);
        assert false;
      }
      SelectUnique(r, s[1..], p);
    }
  }

  /** When every element satisfies `p`, the filter returns its input. */
  lemma {:induction false} SelectAll<T>(s: seq<T>, p: T -> bool)
    requires forall i :: 0 <= i < |s| ==> p(s[i])
    ensures Select(s, p) == s
  {
    if s != [] {
      assert p(s[0]);
      SelectAll(s[1..], p);
      assert s == [s[0]] + s[1..];
    }
  }
}
