/**
 * The list operations the pages and routes are written with: JavaScript's
 * `Array.prototype.filter`, the "show all or only the first k" truncation
 * built from `slice(0, k)`, and sorting newest first by a timestamp key.
 */
module Lists {

  /** `Math.min(a, b)`. */
  function Min(a: int, b: int): int { if a <= b then a else b }

  /** `Math.max(a, b)`. */
  function Max(a: int, b: int): int { if a >= b then a else b }

  /** `r` can be obtained from `s` by deleting elements, keeping the order of the rest. */
  ghost predicate IsSubsequence<T>(r: seq<T>, s: seq<T>)
    decreases |s|
  {
    if r == [] then true
    else if s == [] then false
    else (r[0] == s[0] && IsSubsequence(r[1..], s[1..])) || IsSubsequence(r, s[1..])
  }

  /** `s.filter(p)`: the elements of `s` that satisfy `p`, in their original order. */
  function Filter<T>(s: seq<T>, p: T -> bool): (r: seq<T>)
    ensures |r| <= |s|
    ensures forall i :: 0 <= i < |r| ==> r[i] in s && p(r[i])
    ensures forall i :: 0 <= i < |s| && p(s[i]) ==> s[i] in r
    ensures IsSubsequence(r, s)
  {
    if s == [] then []
    else if p(s[0]) then [s[0]] + Filter(s[1..], p)
    else Filter(s[1..], p)
  }

  /** Filtering keeps every occurrence of a passing value and none of a failing one. */
  lemma {:induction false} FilterCount<T>(s: seq<T>, p: T -> bool, x: T)
    ensures multiset(Filter(s, p))[x] == if p(x) then multiset(s)[x] else 0
  {
    if s != [] {
      var t := s[1..];
      FilterCount(t, p, x);
      assert s == [s[0]] + t;
      assert multiset(s) == multiset{s[0]} + multiset(t);
      if p(s[0]) {
        assert Filter(s, p) == [s[0]] + Filter(t, p);
        assert multiset(Filter(s, p)) == multiset{s[0]} + multiset(Filter(t, p));
      } else {
        assert Filter(s, p) == Filter(t, p);
      }
    }
  }

  /** Filtering keeps everything exactly when every element passes. */
  lemma {:induction false} FilterKeepsAll<T>(s: seq<T>, p: T -> bool)
    requires forall i :: 0 <= i < |s| ==> p(s[i])
    ensures Filter(s, p) == s
  {
    if s != [] {
      FilterKeepsAll(s[1..], p);
    }
  }

  /** The number of elements that pass `q` never grows when `s` is first narrowed by `p`. */
  lemma {:induction false} FilterNarrowedCount<T>(s: seq<T>, p: T -> bool, q: T -> bool)
    ensures |Filter(Filter(s, p), q)| <= |Filter(s, q)|
  {
    if s != [] {
      FilterNarrowedCount(s[1..], p, q);
      if p(s[0]) {
        assert Filter(s, p) == [s[0]] + Filter(s[1..], p);
        assert Filter(s, p)[1..] == Filter(s[1..], p);
      }
    }
  }

  /** `showAll ? s : s.slice(0, limit)`. */
  function Visible<T>(s: seq<T>, showAll: bool, limit: nat): (r: seq<T>)
    ensures |r| == if showAll then |s| else Min(limit, |s|)
    ensures r == s[..|r|]
  {
    if showAll || |s| <= limit then s else s[..limit]
  }

  /** Every element is at least as new (by `key`) as every later one. */
  predicate NewestFirst<T>(s: seq<T>, key: T -> int)
  {
    forall i, j :: 0 <= i < j < |s| ==> key(s[i]) >= key(s[j])
  }

  /** Putting an element no older than the head in front keeps a list newest first. */
  lemma ConsNewestFirst<T>(y: T, s: seq<T>, key: T -> int)
    requires NewestFirst(s, key)
    requires s == [] || key(y) >= key(s[0])
    ensures NewestFirst([y] + s, key)
  {
    var t := [y] + s;
    forall i, j | 0 <= i < j < |t| ensures key(t[i]) >= key(t[j]) {
      assert t[j] == s[j - 1];
      if i == 0 {
        assert key(s[0]) >= key(s[j - 1]);
      } else {
        assert t[i] == s[i - 1];
      }
    }
  }

  /** Places `x` before the first element that is not newer than it. */
  function Insert<T>(x: T, s: seq<T>, key: T -> int): (r: seq<T>)
    requires NewestFirst(s, key)
    ensures |r| == |s| + 1
    ensures r[0] == x || (s != [] && r[0] == s[0])
    ensures NewestFirst(r, key)
    ensures multiset(r) == multiset(s) + multiset{x}
  {
    if s == [] || key(x) >= key(s[0]) then
      ConsNewestFirst(x, s, key);
      [x] + s
    else
      assert s == [s[0]] + s[1..];
      assert NewestFirst(s[1..], key) by {
        forall i, j | 0 <= i < j < |s| - 1 ensures key(s[1..][i]) >= key(s[1..][j]) {
          assert key(s[i + 1]) >= key(s[j + 1]);
        }
      }
      var rest := Insert(x, s[1..], key);
      assert key(s[0]) >= key(rest[0]) by {
        if rest[0] != x {
          assert key(s[0]) >= key(s[1]);
        }
      }
      ConsNewestFirst(s[0], rest, key);
      [s[0]] + rest
  }

  /**
   * `[...s].sort((a, b) => key(b) - key(a))`: a sorted copy, newest first.
   * Elements with equal keys keep their original order.
   */
  function SortNewestFirst<T>(s: seq<T>, key: T -> int): (r: seq<T>)
    ensures NewestFirst(r, key)
    ensures multiset(r) == multiset(s)
    ensures |r| == |s|
  {
    if s == [] then []
    else
      assert s == [s[0]] + s[1..];
      var r := Insert(s[0], SortNewestFirst(s[1..], key), key);
      assert |r| == |multiset(r)|;
      r
  }

  /** No two positions of `s` have the same key. */
  ghost predicate DistinctBy<T>(s: seq<T>, key: T -> int)
  {
    forall i, j :: 0 <= i < j < |s| ==> key(s[i]) != key(s[j])
  }

  /** `s` without the element at position `p`. */
  function RemoveAt<T>(s: seq<T>, p: nat): (r: seq<T>)
    requires p < |s|
    ensures |r| == |s| - 1
    ensures forall i :: 0 <= i < |r| ==> r[i] == s[if i < p then i else i + 1]
    ensures multiset(r) == multiset(s) - multiset{s[p]}
  {
    assert s == s[..p] + [s[p]] + s[p + 1..];
    s[..p] + s[p + 1..]
  }

  lemma DistinctByRemoveAt<T>(s: seq<T>, p: nat, key: T -> int)
    requires p < |s| && DistinctBy(s, key)
    ensures DistinctBy(RemoveAt(s, p), key)
    ensures forall x :: x in RemoveAt(s, p) ==> key(x) != key(s[p])
  {
    var r := RemoveAt(s, p);
    forall i, j | 0 <= i < j < |r| ensures key(r[i]) != key(r[j]) {
      assert r[i] == s[if i < p then i else i + 1];
      assert r[j] == s[if j < p then j else j + 1];
    }
    forall x | x in r ensures key(x) != key(s[p]) {
      var q :| 0 <= q < |r| && r[q] == x;
      assert r[q] == s[if q < p then q else q + 1];
    }
  }

  /** Putting an element in front whose key no element has keeps the keys distinct. */
  lemma ConsDistinctBy<T>(y: T, t: seq<T>, key: T -> int)
    requires DistinctBy(t, key)
    requires forall i :: 0 <= i < |t| ==> key(y) != key(t[i])
    ensures DistinctBy([y] + t, key)
  {
    var u := [y] + t;
    forall i, j | 0 <= i < j < |u| ensures key(u[i]) != key(u[j]) {
      assert u[j] == t[j - 1];
      if i > 0 {
        assert u[i] == t[i - 1];
      }
    }
  }

  /** Rearranging a list keeps its keys distinct. */
  lemma {:induction false} DistinctByPermute<T>(a: seq<T>, b: seq<T>, key: T -> int)
    requires multiset(a) == multiset(b) && DistinctBy(a, key)
    ensures DistinctBy(b, key)
    decreases |b|
  {
    if b != [] {
      assert b[0] in multiset(a);
      var p :| 0 <= p < |a| && a[p] == b[0];
      var a' := RemoveAt(a, p);
      var t := b[1..];
      assert b == [b[0]] + t;
      assert multiset(a') == multiset(t);
      DistinctByRemoveAt(a, p, key);
      DistinctByPermute(a', t, key);
      forall i | 0 <= i < |t| ensures key(b[0]) != key(t[i]) {
        assert t[i] in multiset(a');
      }
      ConsDistinctBy(b[0], t, key);
    }
  }
}
