/** Sequence helpers shared by the catalog and inventory queries: the
    `Array.prototype.filter` and `.first()` shapes the handlers use, with the
    facts about them that the query contracts rest on. */
module Seqs {
  import opened Wrappers

  /** The elements of `s` that satisfy `p`, in their original order. */
  function Filter<T(!new)>(s: seq<T>, p: T -> bool): (r: seq<T>)
    ensures |r| <= |s|
    ensures forall x :: x in r <==> x in s && p(x)
    decreases |s|
  {
    if |s| == 0 then []
    else
      assert s == [s[0]] + s[1..];
      (if p(s[0]) then [s[0]] else []) + Filter(s[1..], p)
  }

  /** The filter keeps every kept element with its full multiplicity. */
  lemma {:induction false} FilterMultiset<T(!new)>(s: seq<T>, p: T -> bool)
    ensures forall x :: multiset(Filter(s, p))[x] == if p(x) then multiset(s)[x] else 0
    decreases |s|
  {
    if |s| > 0 {
      FilterMultiset(s[1..], p);
      assert s == [s[0]] + s[1..];
    }
  }

  /** Index of the first element of `s` that satisfies `p`, if there is one. */
  function FirstIndex<T>(s: seq<T>, p: T -> bool): (r: Option<nat>)
    ensures r.Some? ==> r.value < |s| && p(s[r.value])
    ensures r.Some? ==> forall j :: 0 <= j < r.value ==> !p(s[j])
    ensures r.None? <==> forall j :: 0 <= j < |s| ==> !p(s[j])
    decreases |s|
  {
    if |s| == 0 then None
    else if p(s[0]) then Some(0)
    else
      match FirstIndex(s[1..], p)
      case None => None
      case Some(k) => Some(k + 1)
  }

  /** Every earlier element is `lt`-below every later one. */
  ghost predicate Ordered<T>(s: seq<T>, lt: (T, T) -> bool) {
    forall i, j :: 0 <= i < j < |s| ==> lt(s[i], s[j])
  }

  /** A filter that keeps everything is the identity. */
  lemma {:induction false} FilterAll<T(!new)>(s: seq<T>, p: T -> bool)
    requires forall i :: 0 <= i < |s| ==> p(s[i])
    ensures Filter(s, p) == s
    decreases |s|
  {
    if |s| > 0 {
      FilterAll(s[1..], p);
    }
  }

  /** A filter that rejects exactly the element at `k` removes that element. */
  lemma {:induction false} FilterDropsOne<T(!new)>(s: seq<T>, k: nat, p: T -> bool)
    requires k < |s| && !p(s[k])
    requires forall i :: 0 <= i < |s| && i != k ==> p(s[i])
    ensures Filter(s, p) == s[..k] + s[k + 1..]
    decreases k
  {
    var tail := s[1..];
    assert [s[0]] + tail == s;
    FilterCons(s[0], tail, p);
    var head := if p(s[0]) then [s[0]] else [];
    assert Filter(s, p) == head + Filter(tail, p);
    if k == 0 {
      assert forall i :: 0 <= i < |tail| ==> p(tail[i]) by {
        forall i | 0 <= i < |tail| ensures p(tail[i]) {
          assert tail[i] == s[i + 1];
        }
      }
      FilterAll(tail, p);
      assert head == [];
      assert s[..k] + s[k + 1..] == tail;
    } else {
      assert forall i :: 0 <= i < |tail| && i != k - 1 ==> p(tail[i]) by {
        forall i | 0 <= i < |tail| && i != k - 1 ensures p(tail[i]) {
          assert tail[i] == s[i + 1];
        }
      }
      FilterDropsOne(tail, k - 1, p);
      assert head == [s[0]];
      ConsRemoved(s, k);
    }
  }

  /** Removing position `k > 0` commutes with taking off the head. */
  lemma ConsRemoved<T>(s: seq<T>, k: nat)
    requires 0 < k < |s|
    ensures s[..k] + s[k + 1..] == [s[0]] + (s[1..][..k - 1] + s[1..][k..])
  {
  }

  /** Positions in `d`, which is `s` with the element at `k` removed. */
  lemma RemoveAtIndex<T>(s: seq<T>, k: nat, d: seq<T>)
    requires k < |s| && d == s[..k] + s[k + 1..]
    ensures |d| == |s| - 1
    ensures forall j :: 0 <= j < k ==> d[j] == s[j]
    ensures forall j :: k <= j < |d| ==> d[j] == s[j + 1]
  {
  }

  /** Two predicates that agree on the elements of `s` keep the same elements. */
  lemma {:induction false} FilterAgree<T(!new)>(s: seq<T>, p: T -> bool, q: T -> bool)
    requires forall i :: 0 <= i < |s| ==> p(s[i]) == q(s[i])
    ensures Filter(s, p) == Filter(s, q)
    decreases |s|
  {
    if |s| > 0 {
      FilterAgree(s[1..], p, q);
    }
  }

  /** A weaker predicate keeps at least as many elements. */
  lemma {:induction false} FilterLengthMono<T(!new)>(s: seq<T>, p: T -> bool, q: T -> bool)
    requires forall i :: 0 <= i < |s| ==> p(s[i]) ==> q(s[i])
    ensures |Filter(s, p)| <= |Filter(s, q)|
    decreases |s|
  {
    if |s| > 0 {
      FilterLengthMono(s[1..], p, q);
    }
  }

  /** When `q` implies `p`, the elements satisfying `p` are those satisfying
      `q` plus those satisfying `p` but not `q`. */
  lemma {:induction false} FilterCountSplit<T(!new)>(s: seq<T>, p: T -> bool, q: T -> bool, rest: T -> bool)
    requires forall x :: q(x) ==> p(x)
    requires forall x :: rest(x) == (p(x) && !q(x))
    ensures |Filter(s, p)| == |Filter(s, q)| + |Filter(s, rest)|
    decreases |s|
  {
    if |s| > 0 {
      FilterCountSplit(s[1..], p, q, rest);
    }
  }

  /** Filtering a two-element sequence. */
  lemma FilterPair<T(!new)>(x: T, y: T, p: T -> bool)
    ensures |Filter([x, y], p)| == (if p(x) then 1 else 0) + (if p(y) then 1 else 0)
  {
    assert [x, y][1..] == [y];
    assert [y][1..] == [];
  }

  /** Filtering a sequence that starts with `x`. */
  lemma FilterCons<T(!new)>(x: T, s: seq<T>, p: T -> bool)
    ensures Filter([x] + s, p) == (if p(x) then [x] else []) + Filter(s, p)
  {
    assert ([x] + s)[0] == x;
    assert ([x] + s)[1..] == s;
  }

  /** Filtering distributes over concatenation. */
  lemma {:induction false} FilterAppend<T(!new)>(a: seq<T>, b: seq<T>, p: T -> bool)
    ensures Filter(a + b, p) == Filter(a, p) + Filter(b, p)
    decreases |a|
  {
    if |a| == 0 {
      assert a + b == b;
    } else {
      assert (a + b)[1..] == a[1..] + b;
      FilterAppend(a[1..], b, p);
    }
  }

  /** Filtering keeps the relative order of the elements it keeps. */
  lemma {:induction false} FilterOrdered<T(!new)>(s: seq<T>, p: T -> bool, lt: (T, T) -> bool)
    requires Ordered(s, lt)
    ensures Ordered(Filter(s, p), lt)
    decreases |s|
  {
    if |s| > 0 {
      var rest := Filter(s[1..], p);
      assert Ordered(s[1..], lt) by {
        forall i, j | 0 <= i < j < |s[1..]| ensures lt(s[1..][i], s[1..][j]) {
          assert s[1..][i] == s[i + 1] && s[1..][j] == s[j + 1];
        }
      }
      FilterOrdered(s[1..], p, lt);
      if p(s[0]) {
        var r := [s[0]] + rest;
        forall i, j | 0 <= i < j < |r| ensures lt(r[i], r[j]) {
          if i == 0 {
            assert r[j] == rest[j - 1] && rest[j - 1] in s[1..];
            var k :| 0 <= k < |s[1..]| && s[1..][k] == r[j];
            assert s[k + 1] == r[j];
          } else {
            assert r[i] == rest[i - 1] && r[j] == rest[j - 1];
          }
        }
      }
    }
  }

  /** Appending an element leaves an earlier first match in place, and otherwise
      the new element is the first match exactly when it satisfies `p`. */
  lemma {:induction false} FirstIndexAppend<T>(s: seq<T>, x: T, p: T -> bool)
    ensures FirstIndex(s + [x], p) ==
      if FirstIndex(s, p).Some? then FirstIndex(s, p)
      else if p(x) then Some(|s|) else None
    decreases |s|
  {
    if |s| == 0 {
      assert s + [x] == [x];
    } else {
      assert (s + [x])[0] == s[0];
      assert (s + [x])[1..] == s[1..] + [x];
      FirstIndexAppend(s[1..], x, p);
    }
  }
}
