/**
 * Generic helpers shared by every module of the model: an Option type for the
 * JavaScript values that may be absent, and the `Array.prototype.filter`
 * behaviour the source relies on everywhere (order kept, exactly the elements
 * that pass the test).
 */
module Common {

  datatype Option<+T> = None | Some(value: T)

  function Min(a: int, b: int): int { if a <= b then a else b }

  /** `r` can be obtained from `s` by deleting elements (order is kept). */
  predicate IsSubsequence<T(==)>(r: seq<T>, s: seq<T>)
    decreases |s|
  {
    if r == [] then true
    else if s == [] then false
    else if r[0] == s[0] then IsSubsequence(r[1..], s[1..])
    else IsSubsequence(r, s[1..])
  }

  lemma {:induction false} SubsequenceOfTail<T>(r: seq<T>, x: T, s: seq<T>)
    requires IsSubsequence(r, s)
    ensures IsSubsequence(r, [x] + s)
    decreases |s|, 1
  {
    assert ([x] + s)[1..] == s;
    if r != [] && r[0] == x {
      SubsequenceDropHead(r, s);
    }
  }

  lemma {:induction false} SubsequenceDropHead<T>(r: seq<T>, s: seq<T>)
    requires r != [] && IsSubsequence(r, s)
    ensures IsSubsequence(r[1..], s)
    decreases |s|, 0
  {
    assert [s[0]] + s[1..] == s;
    if r[0] != s[0] {
      SubsequenceDropHead(r, s[1..]);
    }
    SubsequenceOfTail(r[1..], s[0], s[1..]);
  }

  /**
   * `s.filter(p)`: the elements of `s` that satisfy `p`, in their original
   * order, each as many times as it occurs in `s`.
   */
  function Filter<T(==,!new)>(s: seq<T>, p: T -> bool): (r: seq<T>)
    ensures |r| <= |s|
    ensures forall x :: x in r <==> x in s && p(x)
    ensures IsSubsequence(r, s)
  {
    if s == [] then []
    else
      var rest := Filter(s[1..], p);
      assert s == [s[0]] + s[1..];
      if p(s[0]) then
        assert ([s[0]] + rest)[1..] == rest;
        [s[0]] + rest
      else
        SubsequenceOfTail(rest, s[0], s[1..]);
        rest
  }

  /**
   * Two filters whose tests split a third test by a side condition `c`
   * together keep exactly what the third keeps.
   */
  lemma {:induction false} FilterSplit<T(!new)>(s: seq<T>, p: T -> bool, q: T -> bool, whole: T -> bool, c: T -> bool)
    requires forall x :: p(x) <==> whole(x) && c(x)
    requires forall x :: q(x) <==> whole(x) && !c(x)
    ensures multiset(Filter(s, p)) + multiset(Filter(s, q)) == multiset(Filter(s, whole))
  {
    if s != [] {
      FilterSplit(s[1..], p, q, whole, c);
    }
  }

  /** `validEvents.filter(e => e.x)` and `validEvents.filter(e => !e.x)` partition the list. */
  lemma {:induction false} FilterPartition<T(!new)>(s: seq<T>, p: T -> bool, notP: T -> bool)
    requires forall x :: notP(x) <==> !p(x)
    ensures multiset(Filter(s, p)) + multiset(Filter(s, notP)) == multiset(s)
  {
    if s != [] {
      var x, tail := s[0], s[1..];
      FilterPartition(tail, p, notP);
      assert s == [x] + tail;
      var yes, no := Filter(tail, p), Filter(tail, notP);
      if p(x) {
        assert Filter(s, p) == [x] + yes;
        assert Filter(s, notP) == no;
      } else {
        assert Filter(s, p) == yes;
        assert Filter(s, notP) == [x] + no;
      }
    }
  }

  /** A filter every element passes keeps the list as it is. */
  lemma {:induction false} FilterKeepsAll<T(!new)>(s: seq<T>, p: T -> bool)
    requires forall x :: x in s ==> p(x)
    ensures Filter(s, p) == s
  {
    if s != [] {
      FilterKeepsAll(s[1..], p);
    }
  }

  /** A filter no element passes keeps nothing. */
  lemma {:induction false} FilterKeepsNone<T(!new)>(s: seq<T>, p: T -> bool)
    requires forall x :: x in s ==> !p(x)
    ensures Filter(s, p) == []
  {
    if s != [] {
      FilterKeepsNone(s[1..], p);
    }
  }

  /** The position of the first element satisfying `p` (`findIndex`, `find`); `None` for -1 / undefined. */
  function FirstIndex<T>(s: seq<T>, p: T -> bool): (r: Option<nat>)
    ensures r.None? <==> forall j :: 0 <= j < |s| ==> !p(s[j])
    ensures r.Some? ==> r.value < |s| && p(s[r.value]) && forall j :: 0 <= j < r.value ==> !p(s[j])
  {
    if s == [] then None
    else if p(s[0]) then Some(0)
    else
      match FirstIndex(s[1..], p)
      case None => None
      case Some(k) => Some(k + 1)
  }
}
