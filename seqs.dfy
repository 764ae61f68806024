/** Generic sequence operations the core uses in several places: the
    list-comprehension filter, order-preserving subsequences, and Python's
    stable `sorted` / `list.sort` by a key, written as insertion sort over a
    total preorder. */
module Seqs {

  /** `[x for x in s if p(x)]` */
  function Filter<T>(s: seq<T>, p: T -> bool): (r: seq<T>)
    ensures |r| <= |s|
  {
    if s == [] then []
    else Filter(s[..|s| - 1], p) + (if p(s[|s| - 1]) then [s[|s| - 1]] else [])
  }

  /** One more element at the end of the input: how a loop extends the filter. */
  lemma FilterSnoc<T>(s: seq<T>, x: T, p: T -> bool)
    ensures Filter(s + [x], p) == Filter(s, p) + (if p(x) then [x] else [])
  {
    assert (s + [x])[..|s|] == s;
  }

  /** The number kept from a non-empty input: those kept from all but its
      last element, plus one if the last element satisfies `p`. */
  lemma FilterLast<T>(s: seq<T>, p: T -> bool)
    requires s != []
    ensures |Filter(s, p)| == |Filter(s[..|s| - 1], p)| + (if p(s[|s| - 1]) then 1 else 0)
  {
  }

  /** An element is kept exactly when it is in the input and satisfies `p`. */
  lemma {:induction false} FilterMembership<T>(s: seq<T>, p: T -> bool, x: T)
    ensures x in Filter(s, p) <==> x in s && p(x)
    decreases |s|
  {
    if s != [] {
      var init := s[..|s| - 1];
      FilterMembership(init, p, x);
      assert s == init + [s[|s| - 1]];
    }
  }

  /** `a` is `b` with some elements removed, the rest kept in order. */
  predicate IsSubseq<T(==)>(a: seq<T>, b: seq<T>)
    decreases |b|
  {
    a == [] ||
    (b != [] &&
     ((a[|a| - 1] == b[|b| - 1] && IsSubseq(a[..|a| - 1], b[..|b| - 1]))
      || IsSubseq(a, b[..|b| - 1])))
  }

  lemma {:induction false} FilterIsSubseq<T>(s: seq<T>, p: T -> bool)
    ensures IsSubseq(Filter(s, p), s)
    decreases |s|
  {
    if s != [] {
      var init := s[..|s| - 1];
      FilterIsSubseq(init, p);
      var r := Filter(s, p);
      assert s[..|s| - 1] == init;
      if p(s[|s| - 1]) {
        assert r == Filter(init, p) + [s[|s| - 1]];
        assert r[..|r| - 1] == Filter(init, p);
      } else {
        assert r == Filter(init, p);
      }
    }
  }

  /** Filtering twice by the same predicate is filtering once. */
  lemma {:induction false} FilterIdempotent<T>(s: seq<T>, p: T -> bool)
    ensures Filter(Filter(s, p), p) == Filter(s, p)
    decreases |s|
  {
    if s != [] {
      var init := s[..|s| - 1];
      var x := s[|s| - 1];
      FilterIdempotent(init, p);
      assert s[..|s| - 1] == init;
      if p(x) {
        assert Filter(s, p) == Filter(init, p) + [x];
        FilterSnoc(Filter(init, p), x, p);
      } else {
        assert Filter(s, p) == Filter(init, p);
      }
    }
  }

  /** Nothing is dropped when every element satisfies `p`. */
  lemma {:induction false} FilterKeepsAll<T>(s: seq<T>, p: T -> bool)
    requires forall i :: 0 <= i < |s| ==> p(s[i])
    ensures Filter(s, p) == s
    decreases |s|
  {
    if s != [] {
      FilterKeepsAll(s[..|s| - 1], p);
    }
  }

  // ---------------------------------------------------------------------
  // Stable sorting
  // ---------------------------------------------------------------------

  /** `le` is total and transitive: a key order as Python's `sorted` needs. */
  ghost predicate TotalPreorder<T(!new)>(le: (T, T) -> bool) {
    (forall a, b :: le(a, b) || le(b, a)) &&
    (forall a, b, c :: le(a, b) && le(b, c) ==> le(a, c))
  }

  predicate SortedBy<T>(s: seq<T>, le: (T, T) -> bool) {
    forall i, j :: 0 <= i < j < |s| ==> le(s[i], s[j])
  }

  /** Put `x` after every element that is not greater than it. */
  function Insert<T>(x: T, s: seq<T>, le: (T, T) -> bool): (r: seq<T>)
    ensures |r| == |s| + 1
  {
    if s == [] then [x]
    else if !le(s[0], x) then [x] + s
    else [s[0]] + Insert(x, s[1..], le)
  }

  /** The stable sort of `s` by `le`. */
  function Sort<T>(s: seq<T>, le: (T, T) -> bool): (r: seq<T>)
    ensures |r| == |s|
  {
    if s == [] then [] else Insert(s[|s| - 1], Sort(s[..|s| - 1], le), le)
  }

  lemma {:induction false} InsertPermutes<T>(x: T, s: seq<T>, le: (T, T) -> bool)
    ensures multiset(Insert(x, s, le)) == multiset(s) + multiset{x}
    decreases |s|
  {
    if s != [] && le(s[0], x) {
      InsertPermutes(x, s[1..], le);
      assert s == [s[0]] + s[1..];
    }
  }

  lemma {:induction false} InsertSorted<T(!new)>(x: T, s: seq<T>, le: (T, T) -> bool)
    requires TotalPreorder(le)
    requires SortedBy(s, le)
    ensures SortedBy(Insert(x, s, le), le)
    decreases |s|
  {
    if s == [] {
    } else if !le(s[0], x) {
      assert le(x, s[0]);
    } else {
      var t := Insert(x, s[1..], le);
      InsertSorted(x, s[1..], le);
      InsertPermutes(x, s[1..], le);
      forall j | 0 <= j < |t|
        ensures le(s[0], t[j])
      {
        assert t[j] in multiset(t);
        if t[j] != x {
          assert t[j] in multiset(s[1..]);
          var k :| 0 <= k < |s[1..]| && s[1..][k] == t[j];
          assert s[k + 1] == t[j];
        }
      }
    }
  }

  lemma {:induction false} SortPermutes<T>(s: seq<T>, le: (T, T) -> bool)
    ensures multiset(Sort(s, le)) == multiset(s)
    decreases |s|
  {
    if s != [] {
      var init := s[..|s| - 1];
      SortPermutes(init, le);
      InsertPermutes(s[|s| - 1], Sort(init, le), le);
      assert s == init + [s[|s| - 1]];
    }
  }

  lemma {:induction false} SortSorted<T(!new)>(s: seq<T>, le: (T, T) -> bool)
    requires TotalPreorder(le)
    ensures SortedBy(Sort(s, le), le)
    decreases |s|
  {
    if s != [] {
      SortSorted(s[..|s| - 1], le);
      InsertSorted(s[|s| - 1], Sort(s[..|s| - 1], le), le);
    }
  }

  /** The elements `le` ranks level with `e`: those a stable sort must keep
      in their input order. */
  function Tied<T>(le: (T, T) -> bool, e: T): T -> bool {
    (y: T) => le(e, y) && le(y, e)
  }

  /** Filtering a sequence with a new first element. */
  lemma {:induction false} FilterCons<T>(x: T, s: seq<T>, p: T -> bool)
    ensures Filter([x] + s, p) == (if p(x) then [x] else []) + Filter(s, p)
    decreases |s|
  {
    if s != [] {
      var init, last := s[..|s| - 1], s[|s| - 1];
      FilterCons(x, init, p);
      assert ([x] + s)[..|s|] == [x] + init;
    }
  }

  /** Equal filterings up to a common tail stay so under a common new
      first element. */
  lemma FilterPrepend<T>(a: T, u: seq<T>, v: seq<T>, p: T -> bool, w: seq<T>)
    requires Filter(u, p) == Filter(v, p) + w
    ensures Filter([a] + u, p) == Filter([a] + v, p) + w
  {
    FilterCons(a, u, p);
    FilterCons(a, v, p);
    Associative(if p(a) then [a] else [], Filter(v, p), w);
  }

  lemma Associative<T>(a: seq<T>, b: seq<T>, c: seq<T>)
    ensures a + (b + c) == (a + b) + c
  {
  }

  /** Nothing is kept when no element satisfies `p`. */
  lemma {:induction false} FilterNone<T>(s: seq<T>, p: T -> bool)
    requires forall i :: 0 <= i < |s| ==> !p(s[i])
    ensures Filter(s, p) == []
    decreases |s|
  {
    if s != [] {
      FilterNone(s[..|s| - 1], p);
    }
  }

  /** When `p(x)`, every element of `s` up to the last one `p` keeps ranks at
      most `x`. */
  predicate KeptRankBelow<T>(x: T, s: seq<T>, le: (T, T) -> bool, p: T -> bool) {
    p(x) ==> forall i, j :: 0 <= j <= i < |s| && p(s[i]) ==> le(s[j], x)
  }

  /** `Insert` places `x` after every element `p` keeps, when they all rank
      at most `x` and so do the elements before them. */
  lemma {:induction false} InsertKeepsOrder<T>(x: T, s: seq<T>, le: (T, T) -> bool, p: T -> bool)
    requires KeptRankBelow(x, s, le, p)
    ensures Filter(Insert(x, s, le), p) == Filter(s, p) + (if p(x) then [x] else [])
    decreases |s|
  {
    if s == [] {
      assert Insert(x, s, le) == [] + [x];
      FilterSnoc([], x, p);
    } else if !le(s[0], x) {
      InsertInFront(x, s, le, p);
    } else {
      KeptRankBelowTail(x, s, le, p);
      InsertKeepsOrder(x, s[1..], le, p);
      InsertBehind(x, s, le, p);
    }
  }

  /** `x` goes in front: nothing before it is kept together with it. */
  lemma InsertInFront<T>(x: T, s: seq<T>, le: (T, T) -> bool, p: T -> bool)
    requires s != [] && !le(s[0], x)
    requires KeptRankBelow(x, s, le, p)
    ensures Filter(Insert(x, s, le), p) == Filter(s, p) + (if p(x) then [x] else [])
  {
    assert Insert(x, s, le) == [x] + s;
    FilterCons(x, s, p);
    if p(x) {
      FilterNone(s, p);
    }
  }

  lemma KeptRankBelowTail<T>(x: T, s: seq<T>, le: (T, T) -> bool, p: T -> bool)
    requires s != []
    requires KeptRankBelow(x, s, le, p)
    ensures KeptRankBelow(x, s[1..], le, p)
  {
    if p(x) {
      forall i, j | 0 <= j <= i < |s[1..]| && p(s[1..][i])
        ensures le(s[1..][j], x)
      {
        assert s[1..][i] == s[i + 1] && s[1..][j] == s[j + 1];
      }
    }
  }

  /** `x` goes behind the first element: the first element's filtering
      comes first. */
  lemma InsertBehind<T>(x: T, s: seq<T>, le: (T, T) -> bool, p: T -> bool)
    requires s != [] && le(s[0], x)
    requires Filter(Insert(x, s[1..], le), p) == Filter(s[1..], p) + (if p(x) then [x] else [])
    ensures Filter(Insert(x, s, le), p) == Filter(s, p) + (if p(x) then [x] else [])
  {
    var rest := Insert(x, s[1..], le);
    assert Insert(x, s, le) == [s[0]] + rest;
    FilterPrepend(s[0], rest, s[1..], p, if p(x) then [x] else []);
    assert [s[0]] + s[1..] == s;
  }

  /** Inserting into a sorted sequence puts `x` after every element tied
      with it. */
  lemma InsertStable<T(!new)>(x: T, s: seq<T>, le: (T, T) -> bool, e: T)
    requires TotalPreorder(le)
    requires SortedBy(s, le)
    ensures Filter(Insert(x, s, le), Tied(le, e)) ==
      Filter(s, Tied(le, e)) + (if Tied(le, e)(x) then [x] else [])
  {
    var p := Tied(le, e);
    if p(x) {
      forall i, j | 0 <= j <= i < |s| && p(s[i])
        ensures le(s[j], x)
      {
        assert le(s[i], x);
        assert le(s[j], s[i]) || j == i;
      }
    }
    InsertKeepsOrder(x, s, le, p);
  }

  /** `Sort` is stable: the elements tied with any `e` come out in their
      input order. */
  lemma {:induction false} SortStable<T(!new)>(s: seq<T>, le: (T, T) -> bool, e: T)
    requires TotalPreorder(le)
    ensures Filter(Sort(s, le), Tied(le, e)) == Filter(s, Tied(le, e))
    decreases |s|
  {
    if s != [] {
      var init, last := s[..|s| - 1], s[|s| - 1];
      SortStable(init, le, e);
      SortSorted(init, le);
      InsertStable(last, Sort(init, le), le, e);
      assert s == init + [last];
      FilterSnoc(init, last, Tied(le, e));
    }
  }

  /** Python's slice `s[:n]`. */
  function Take<T>(s: seq<T>, n: nat): (r: seq<T>)
    ensures |r| == if |s| <= n then |s| else n
  {
    if |s| <= n then s else s[..n]
  }

  /** `[f(i, x) for i, x in enumerate(xs)]` */
  function MapIndexed<A, B>(xs: seq<A>, f: (nat, A) -> B): (r: seq<B>)
    ensures |r| == |xs|
  {
    if xs == [] then [] else MapIndexed(xs[..|xs| - 1], f) + [f(|xs| - 1, xs[|xs| - 1])]
  }

  /** Entry `i` of the result is `f` applied to `i` and `xs[i]`. */
  lemma {:induction false} MapIndexedAt<A, B>(xs: seq<A>, f: (nat, A) -> B)
    ensures forall i :: 0 <= i < |xs| ==> MapIndexed(xs, f)[i] == f(i, xs[i])
    decreases |xs|
  {
    if xs != [] {
      var init := xs[..|xs| - 1];
      MapIndexedAt(init, f);
      assert forall i :: 0 <= i < |init| ==> init[i] == xs[i];
    }
  }
}
