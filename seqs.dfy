/** Sequence helpers that stand for `Array.prototype.filter`, `includes` and friends. */
module Seqs {

  import opened Wrappers

  /** `b` contains the elements of `a` in the same order, possibly with gaps. */
  predicate IsSubsequence<T(==)>(a: seq<T>, b: seq<T>)
    decreases |b|
  {
    a == [] || (b != [] && ((a[0] == b[0] && IsSubsequence(a[1..], b[1..])) || IsSubsequence(a, b[1..])))
  }

  /** `s.filter(p)`: the elements satisfying `p`, in their original order. */
  function Select<T(==)>(s: seq<T>, p: T -> bool): (r: seq<T>)
    ensures |r| <= |s|
    ensures forall i :: 0 <= i < |r| ==> r[i] in s && p(r[i])
    ensures forall i :: 0 <= i < |s| && p(s[i]) ==> s[i] in r
    ensures IsSubsequence(r, s)
    decreases |s|
  {
    if s == [] then []
    else
      var rest := Select(s[1..], p);
      assert forall i :: 1 <= i < |s| ==> s[i] == s[1..][i - 1];
      if p(s[0]) then [s[0]] + rest else rest
  }

  /** Membership in a filtered sequence, in both directions. */
  lemma SelectMember<T>(s: seq<T>, p: T -> bool, x: T)
    ensures x in Select(s, p) <==> x in s && p(x)
  {
    var r := Select(s, p);
    if x in r {
      var i :| 0 <= i < |r| && r[i] == x;
    }
    if x in s && p(x) {
      var i :| 0 <= i < |s| && s[i] == x;
    }
  }

  predicate NoDuplicates<T(==)>(s: seq<T>) {
    forall i, j :: 0 <= i < j < |s| ==> s[i] != s[j]
  }

  /** Filtering with a predicate every element satisfies keeps the sequence as it is. */
  lemma {:induction false} SelectAll<T>(s: seq<T>, p: T -> bool)
    requires forall x :: x in s ==> p(x)
    ensures Select(s, p) == s
    decreases |s|
  {
    if s != [] {
      SelectAll(s[1..], p);
    }
  }

  /** Two filters in a row are one filter by the conjunction. */
  lemma {:induction false} SelectThen<T>(s: seq<T>, p: T -> bool, q: T -> bool, pq: T -> bool)
    requires forall x :: pq(x) == (p(x) && q(x))
    ensures Select(Select(s, p), q) == Select(s, pq)
    decreases |s|
  {
    if s != [] {
      SelectThen(s[1..], p, q, pq);
    }
  }

  /** Filters that agree on the elements of `s` select the same elements. */
  lemma {:induction false} SelectAgree<T>(s: seq<T>, p: T -> bool, q: T -> bool)
    requires forall x :: x in s ==> p(x) == q(x)
    ensures Select(s, p) == Select(s, q)
    decreases |s|
  {
    if s != [] {
      SelectAgree(s[1..], p, q);
    }
  }

  /** Filtering keeps a duplicate-free sequence duplicate-free. */
  lemma {:induction false} SelectNoDuplicates<T>(s: seq<T>, p: T -> bool)
    requires NoDuplicates(s)
    ensures NoDuplicates(Select(s, p))
    decreases |s|
  {
    if s != [] {
      SelectNoDuplicates(s[1..], p);
      var rest := Select(s[1..], p);
      assert s[0] !in s[1..];
      if p(s[0]) {
        var r := [s[0]] + rest;
        forall i, j | 0 <= i < j < |r| ensures r[i] != r[j] {
          if i == 0 {
            assert r[j] in rest;
          } else {
            assert r[i] == rest[i - 1] && r[j] == rest[j - 1];
          }
        }
      }
    }
  }

  /** The number of elements satisfying `p`. */
  function Count<T(==)>(s: seq<T>, p: T -> bool): nat {
    |Select(s, p)|
  }

  /** Filtering a concatenation filters each part. */
  lemma {:induction false} SelectAppend<T>(a: seq<T>, b: seq<T>, p: T -> bool)
    ensures Select(a + b, p) == Select(a, p) + Select(b, p)
    decreases |a|
  {
    if a == [] {
      assert a + b == b;
    } else {
      assert (a + b)[1..] == a[1..] + b;
      SelectAppend(a[1..], b, p);
    }
  }

  /** Counting over a concatenation adds up. */
  lemma CountAppend<T>(a: seq<T>, b: seq<T>, p: T -> bool)
    ensures Count(a + b, p) == Count(a, p) + Count(b, p)
  {
    SelectAppend(a, b, p);
  }

  /** `s.map(f)`. */
  function Map<T, U>(s: seq<T>, f: T -> U): (r: seq<U>)
    ensures |r| == |s|
    ensures forall i :: 0 <= i < |s| ==> r[i] == f(s[i])
  {
    seq(|s|, i requires 0 <= i < |s| => f(s[i]))
  }

  /** Index of the first element satisfying `p` (`findIndex`), if any. */
  function FirstIndex<T>(s: seq<T>, p: T -> bool): (r: Option<nat>)
    ensures r.Some? ==> r.value < |s| && p(s[r.value]) && forall i :: 0 <= i < r.value ==> !p(s[i])
    ensures r.None? ==> forall i :: 0 <= i < |s| ==> !p(s[i])
    decreases |s|
  {
    if s == [] then None
    else if p(s[0]) then Some(0)
    else match FirstIndex(s[1..], p)
      case None => None
      case Some(k) => Some(k + 1)
  }

  /** `list.filter(x => x !== v)`: every occurrence of `v` goes, the rest keep their order. */
  function Remove<T(==)>(list: seq<T>, v: T): (r: seq<T>)
    ensures v !in r
    ensures IsSubsequence(r, list)
  {
    var keep := (x: T) => x != v;
    SelectMember(list, keep, v);
    Select(list, keep)
  }

  /** Removing keeps exactly the other elements. */
  lemma RemoveMember<T>(list: seq<T>, v: T, x: T)
    ensures x in Remove(list, v) <==> x in list && x != v
  {
    SelectMember(list, (y: T) => y != v, x);
  }

  /** Removing from a list with a first element: that element goes unless it is `v`. */
  lemma RemoveCons<T>(x: T, rest: seq<T>, v: T)
    ensures Remove([x] + rest, v) == (if x == v then [] else [x]) + Remove(rest, v)
  {
    assert ([x] + rest)[1..] == rest;
  }

  /** Removing a value that is not there changes nothing. */
  lemma RemoveAbsent<T>(list: seq<T>, v: T)
    requires v !in list
    ensures Remove(list, v) == list
  {
    SelectAll(list, (x: T) => x != v);
  }

  /** Removing a value that occurs once shortens the list by one. */
  lemma {:induction false} RemoveOnce<T>(list: seq<T>, v: T)
    requires NoDuplicates(list) && v in list
    ensures |Remove(list, v)| == |list| - 1
  {
    var keep := (x: T) => x != v;
    var i :| 0 <= i < |list| && list[i] == v;
    assert list == list[..i] + [v] + list[i + 1..];
    SelectAppend(list[..i] + [v], list[i + 1..], keep);
    SelectAppend(list[..i], [v], keep);
    assert v !in list[..i] && v !in list[i + 1..];
    SelectAll(list[..i], keep);
    SelectAll(list[i + 1..], keep);
    assert Select([v], keep) == [];
  }

  /** `list.includes(v) ? list.filter(x => x !== v) : [...list, v]`. */
  function Toggle<T(==)>(list: seq<T>, v: T): (r: seq<T>)
    ensures v in r <==> v !in list
  {
    if v in list then Remove(list, v) else list + [v]
  }

  /** Toggling flips the membership of `v` and of nothing else. */
  lemma ToggleMember<T>(list: seq<T>, v: T, x: T)
    ensures x in Toggle(list, v) <==> (if x == v then v !in list else x in list)
  {
    if v in list {
      RemoveMember(list, v, x);
    }
  }

  /** Toggling a value on and off again restores the list. */
  lemma ToggleTwice<T>(list: seq<T>, v: T)
    requires v !in list
    ensures Toggle(Toggle(list, v), v) == list
  {
    var keep := (x: T) => x != v;
    SelectAppend(list, [v], keep);
    RemoveAbsent(list, v);
    assert Select([v], keep) == [];
  }
}
