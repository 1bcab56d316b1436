/** Order-preserving filtering, subsequences and a stable insertion sort:
    the array primitives (`Array.prototype.filter`, `sort`) the views are built from. */
module Seqs {

  /** `a` can be obtained from `b` by deleting elements (order is kept). */
  predicate IsSubseq<T(==)>(a: seq<T>, b: seq<T>)
    decreases |b|
  {
    if |a| == 0 then true
    else if |b| == 0 then false
    else if a[0] == b[0] then IsSubseq(a[1..], b[1..])
    else IsSubseq(a, b[1..])
  }

  /** `Array.prototype.filter`: the elements of `s` satisfying `p`, in order. */
  function Filter<T(==,!new)>(s: seq<T>, p: T -> bool): (r: seq<T>)
    ensures |r| <= |s|
    ensures forall i :: 0 <= i < |r| ==> p(r[i])
    ensures forall x :: x in r <==> x in s && p(x)
    ensures IsSubseq(r, s)
  {
    if |s| == 0 then []
    else
      var rest := Filter(s[1..], p);
      assert s == [s[0]] + s[1..];
      if p(s[0]) then [s[0]] + rest else rest
  }

  lemma {:induction false} SubseqRefl<T>(s: seq<T>)
    ensures IsSubseq(s, s)
  {
    if |s| > 0 {
      SubseqRefl(s[1..]);
    }
  }

  /** Filtering with a predicate every element satisfies changes nothing. */
  lemma {:induction false} FilterAll<T(!new)>(s: seq<T>, p: T -> bool)
    requires forall x :: x in s ==> p(x)
    ensures Filter(s, p) == s
  {
    if |s| > 0 {
      FilterAll(s[1..], p);
    }
  }

  /** Filtering keeps every selected element as often as it occurs and drops the rest. */
  lemma {:induction false} FilterCount<T(!new)>(s: seq<T>, p: T -> bool)
    ensures forall x :: multiset(Filter(s, p))[x] == if p(x) then multiset(s)[x] else 0
  {
    if |s| > 0 {
      FilterCount(s[1..], p);
      assert s == [s[0]] + s[1..];
    }
  }

  /** Filtering distributes over appending one element. */
  lemma {:induction false} FilterSnoc<T(!new)>(s: seq<T>, x: T, p: T -> bool)
    ensures Filter(s + [x], p) == Filter(s, p) + (if p(x) then [x] else [])
  {
    if |s| == 0 {
      assert s + [x] == [x];
      assert [x][1..] == [];
    } else {
      var t := s + [x];
      assert t[1..] == s[1..] + [x];
      FilterSnoc(s[1..], x, p);
    }
  }

  /** Filtering with a predicate no element satisfies leaves nothing. */
  lemma {:induction false} FilterNone<T(!new)>(s: seq<T>, p: T -> bool)
    requires forall x :: x in s ==> !p(x)
    ensures Filter(s, p) == []
  {
    if |s| > 0 {
      FilterNone(s[1..], p);
    }
  }

  /** Two successive filters may be applied in either order. */
  lemma {:induction false} FilterCommute<T(!new)>(s: seq<T>, p: T -> bool, q: T -> bool)
    ensures Filter(Filter(s, p), q) == Filter(Filter(s, q), p)
  {
    if |s| > 0 {
      FilterCommute(s[1..], p, q);
    }
  }

  /** Two successive filters are one filter by the conjunction. */
  lemma {:induction false} FilterFuse<T(!new)>(s: seq<T>, p: T -> bool, q: T -> bool)
    ensures Filter(Filter(s, p), q) == Filter(s, x => p(x) && q(x))
  {
    if |s| > 0 {
      FilterFuse(s[1..], p, q);
    }
  }

  /** Filters agree when their predicates agree on the elements. */
  lemma {:induction false} FilterExt<T(!new)>(s: seq<T>, p: T -> bool, q: T -> bool)
    requires forall x :: x in s ==> (p(x) <==> q(x))
    ensures Filter(s, p) == Filter(s, q)
  {
    if |s| > 0 {
      FilterExt(s[1..], p, q);
    }
  }

  /** A stronger predicate selects a subsequence of what a weaker one selects. */
  lemma {:induction false} FilterMonotone<T(!new)>(s: seq<T>, p: T -> bool, q: T -> bool)
    requires forall x :: x in s && p(x) ==> q(x)
    ensures IsSubseq(Filter(s, p), Filter(s, q))
  {
    if |s| > 0 {
      FilterMonotone(s[1..], p, q);
      var rp := Filter(s[1..], p);
      var rq := Filter(s[1..], q);
      if p(s[0]) {
        assert Filter(s, p) == [s[0]] + rp;
        assert Filter(s, q) == [s[0]] + rq;
        assert ([s[0]] + rp)[1..] == rp;
        assert ([s[0]] + rq)[1..] == rq;
      } else if q(s[0]) {
        assert Filter(s, q) == [s[0]] + rq;
        SubseqDropHead(Filter(s, p), s[0], rq);
      }
    }
  }

  /** A subsequence of `t` is also a subsequence of `t` with an element in front. */
  lemma {:induction false} SubseqDropHead<T>(a: seq<T>, x: T, t: seq<T>)
    requires IsSubseq(a, t)
    ensures IsSubseq(a, [x] + t)
    decreases |a| + |t|, 1
  {
    assert ([x] + t)[1..] == t;
    if |a| > 0 && a[0] == x {
      SubseqTail(a, t);
    }
  }

  /** Dropping the first element of a subsequence keeps it a subsequence. */
  lemma {:induction false} SubseqTail<T>(a: seq<T>, t: seq<T>)
    requires |a| > 0 && IsSubseq(a, t)
    ensures IsSubseq(a[1..], t)
    decreases |a| + |t|, 0
  {
    assert [t[0]] + t[1..] == t;
    if a[0] == t[0] {
      SubseqDropHead(a[1..], t[0], t[1..]);
    } else {
      SubseqTail(a, t[1..]);
      SubseqDropHead(a[1..], t[0], t[1..]);
    }
  }

  /** Being a subsequence is transitive. */
  lemma {:induction false} SubseqTrans<T>(a: seq<T>, b: seq<T>, c: seq<T>)
    requires IsSubseq(a, b) && IsSubseq(b, c)
    ensures IsSubseq(a, c)
    decreases |c|
  {
    if |a| > 0 {
      if b[0] == c[0] {
        if a[0] == b[0] {
          SubseqTrans(a[1..], b[1..], c[1..]);
        } else {
          SubseqTrans(a, b[1..], c[1..]);
        }
      } else {
        SubseqTrans(a, b, c[1..]);
        if a[0] == c[0] {
          SubseqTail(a, c[1..]);
        }
      }
    }
  }

  /** Sequences holding the same multiset hold the same elements. */
  lemma SameMembers<T>(a: seq<T>, b: seq<T>)
    requires multiset(a) == multiset(b)
    ensures forall x :: x in a <==> x in b
  {
    forall x ensures x in a <==> x in b {
      assert x in a <==> x in multiset(a);
      assert x in b <==> x in multiset(b);
    }
  }

  /** A comparator (negative, zero, positive) whose arguments may be swapped by negating. */
  ghost predicate Antisymmetric<T(!new)>(cmp: (T, T) -> int) {
    forall a, b :: cmp(a, b) == -cmp(b, a)
  }

  /** Every neighbouring pair is in order under `cmp`. */
  ghost predicate AdjacentSorted<T>(s: seq<T>, cmp: (T, T) -> int) {
    forall i :: 0 <= i < |s| - 1 ==> cmp(s[i], s[i + 1]) <= 0
  }

  /** Order carries over a middle element. */
  ghost predicate Transitive<T(!new)>(cmp: (T, T) -> int) {
    forall a, b, c :: cmp(a, b) <= 0 && cmp(b, c) <= 0 ==> cmp(a, c) <= 0
  }

  /** For a transitive comparator, neighbouring order is order of every pair. */
  lemma {:induction false} AdjacentToSorted<T(!new)>(s: seq<T>, cmp: (T, T) -> int)
    requires Transitive(cmp) && AdjacentSorted(s, cmp)
    ensures forall i, j :: 0 <= i < j < |s| ==> cmp(s[i], s[j]) <= 0
  {
    if |s| > 1 {
      var t := s[1..];
      AdjacentToSorted(t, cmp);
      forall j | 1 <= j < |s| ensures cmp(s[0], s[j]) <= 0 {
        if j > 1 {
          assert s[j] == t[j - 1] && s[1] == t[0];
        }
      }
      forall i, j | 0 <= i < j < |s| ensures cmp(s[i], s[j]) <= 0 {
        if i > 0 {
          assert s[i] == t[i - 1] && s[j] == t[j - 1];
        }
      }
    }
  }

  /** Inserts `x` before the first element it does not compare greater than. */
  function Insert<T(!new)>(x: T, s: seq<T>, cmp: (T, T) -> int): (r: seq<T>)
    ensures |r| == |s| + 1
    ensures multiset(r) == multiset(s) + multiset{x}
    ensures r[0] == x || (|s| > 0 && r[0] == s[0])
    ensures Antisymmetric(cmp) && AdjacentSorted(s, cmp) ==> AdjacentSorted(r, cmp)
  {
    if |s| == 0 then [x]
    else if cmp(x, s[0]) <= 0 then [x] + s
    else
      var rest := Insert(x, s[1..], cmp);
      assert s == [s[0]] + s[1..];
      var r := [s[0]] + rest;
      assert Antisymmetric(cmp) && AdjacentSorted(s, cmp) ==> AdjacentSorted(r, cmp) by {
        if Antisymmetric(cmp) && AdjacentSorted(s, cmp) {
          assert AdjacentSorted(s[1..], cmp) by {
            forall i | 0 <= i < |s| - 2 ensures cmp(s[1..][i], s[1..][i + 1]) <= 0 {
              assert s[1..][i] == s[i + 1] && s[1..][i + 1] == s[i + 2];
            }
          }
          assert cmp(s[0], rest[0]) <= 0 by {
            if rest[0] == x {
              assert cmp(s[0], x) == -cmp(x, s[0]);
            } else {
              assert rest[0] == s[1];
            }
          }
          forall i | 1 <= i < |r| - 1 ensures cmp(r[i], r[i + 1]) <= 0 {
            assert r[i] == rest[i - 1] && r[i + 1] == rest[i];
          }
        }
      }
      r
  }

  /** A stable insertion sort: the element met first stays ahead of the ones it ties with. */
  function Sort<T(!new)>(s: seq<T>, cmp: (T, T) -> int): (r: seq<T>)
    ensures |r| == |s|
    ensures multiset(r) == multiset(s)
    ensures Antisymmetric(cmp) ==> AdjacentSorted(r, cmp)
  {
    if |s| == 0 then []
    else
      assert s == [s[0]] + s[1..];
      Insert(s[0], Sort(s[1..], cmp), cmp)
  }
}
