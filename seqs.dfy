/** The array combinators the application uses (`filter`, `flatMap`, `new Set`, `sort`), over sequences. */
module Seqs {

  /** `xs` is an order-preserving sub-list of `ys`: `ys` with some elements deleted. */
  predicate IsSublist<T(==)>(xs: seq<T>, ys: seq<T>)
    decreases |ys|
  {
    if xs == [] then true
    else if ys == [] then false
    else (xs[0] == ys[0] && IsSublist(xs[1..], ys[1..])) || IsSublist(xs, ys[1..])
  }

  /** `s.filter(p)`: the elements satisfying `p`, in their original order. */
  function Filter<T(==,!new)>(s: seq<T>, p: T -> bool): (r: seq<T>)
    ensures |r| <= |s|
    ensures forall x :: x in r <==> x in s && p(x)
  {
    if s == [] then []
    else (if p(s[0]) then [s[0]] else []) + Filter(s[1..], p)
  }

  /** What `filter` keeps is a sub-list of its input. */
  lemma {:induction false} FilterIsSublist<T(!new)>(s: seq<T>, p: T -> bool)
    ensures IsSublist(Filter(s, p), s)
  {
    if s != [] {
      FilterIsSublist(s[1..], p);
      var f := Filter(s, p);
      if p(s[0]) {
        assert f == [s[0]] + Filter(s[1..], p);
        assert f[0] == s[0] && f[1..] == Filter(s[1..], p);
      } else {
        assert f == Filter(s[1..], p);
      }
    }
  }

  lemma {:induction false} SublistTransitive<T>(a: seq<T>, b: seq<T>, c: seq<T>)
    requires IsSublist(a, b) && IsSublist(b, c)
    ensures IsSublist(a, c)
    decreases |c|
  {
    if a != [] && b != [] && c != [] {
      if b[0] == c[0] && IsSublist(b[1..], c[1..]) {
        if a[0] == b[0] && IsSublist(a[1..], b[1..]) {
          SublistTransitive(a[1..], b[1..], c[1..]);
        } else {
          SublistTransitive(a, b[1..], c[1..]);
        }
      } else {
        SublistTransitive(a, b, c[1..]);
      }
    }
  }

  lemma {:induction false} SublistReflexive<T>(s: seq<T>)
    ensures IsSublist(s, s)
  {
    if s != [] {
      SublistReflexive(s[1..]);
    }
  }

  /** A filter whose test every element passes returns its input. */
  lemma {:induction false} FilterAll<T(!new)>(s: seq<T>, p: T -> bool)
    requires forall k :: 0 <= k < |s| ==> p(s[k])
    ensures Filter(s, p) == s
  {
    if s != [] {
      FilterAll(s[1..], p);
    }
  }

  lemma {:induction false} FilterAppend<T(!new)>(a: seq<T>, b: seq<T>, p: T -> bool)
    ensures Filter(a + b, p) == Filter(a, p) + Filter(b, p)
  {
    if a == [] {
      assert a + b == b;
    } else {
      var h := if p(a[0]) then [a[0]] else [];
      var fa, fb := Filter(a[1..], p), Filter(b, p);
      calc {
        Filter(a + b, p);
        { FilterFirst(a + b, p); assert (a + b)[0] == a[0] && (a + b)[1..] == a[1..] + b; }
        h + Filter(a[1..] + b, p);
        { FilterAppend(a[1..], b, p); }
        h + (fa + fb);
        { AppendAssoc(h, fa, fb); }
        (h + fa) + fb;
        { FilterFirst(a, p); }
        Filter(a, p) + fb;
      }
    }
  }

  /** `filter` keeps every occurrence of a passing element and none of a failing one. */
  lemma {:induction false} FilterMultiset<T(!new)>(s: seq<T>, p: T -> bool, x: T)
    ensures multiset(Filter(s, p))[x] == if p(x) then multiset(s)[x] else 0
  {
    if s != [] {
      FilterFirst(s, p);
      FilterMultiset(s[1..], p, x);
      assert s == [s[0]] + s[1..];
    }
  }

  /** `FilterMultiset` for every element at once. */
  lemma {:induction false} FilterCounts<T(!new)>(s: seq<T>, p: T -> bool)
    ensures forall x :: multiset(Filter(s, p))[x] == if p(x) then multiset(s)[x] else 0
  {
    forall x ensures multiset(Filter(s, p))[x] == if p(x) then multiset(s)[x] else 0 {
      FilterMultiset(s, p, x);
    }
  }

  lemma {:induction false} FilterFirst<T(!new)>(s: seq<T>, p: T -> bool)
    requires s != []
    ensures Filter(s, p) == (if p(s[0]) then [s[0]] else []) + Filter(s[1..], p)
  {
  }

  lemma {:induction false} AppendAssoc<T>(a: seq<T>, b: seq<T>, c: seq<T>)
    ensures a + (b + c) == (a + b) + c
  {
  }

  predicate NoDuplicates<T(==)>(s: seq<T>) {
    forall i, j :: 0 <= i < j < |s| ==> s[i] != s[j]
  }

  /** `Array.from(new Set(s))`: the distinct elements of `s`, each where it first occurs. */
  function Dedupe<T(==,!new)>(s: seq<T>): (r: seq<T>)
    ensures NoDuplicates(r)
    ensures forall x :: x in r <==> x in s
    ensures forall i, j :: 0 <= i < j < |r| ==> Precedes(s, r[i], r[j])
  {
    if s == [] then []
    else
      var s' := s[..|s| - 1];
      var r := Dedupe(s');
      assert forall x :: x in s <==> x in s' || x == s[|s| - 1];
      forall i, j | 0 <= i < j < |r| ensures Precedes(s, r[i], r[j]) {
        PrecedesExtend(s', s, r[i], r[j]);
      }
      if s[|s| - 1] in r then r
      else
        var r' := r + [s[|s| - 1]];
        forall i | 0 <= i < |r| ensures Precedes(s, r[i], s[|s| - 1]) {
          assert r[i] in r;
          var a :| 0 <= a < |s'| && s'[a] == r[i];
          assert s[a] == r[i];
        }
        r'
  }

  /** `x` occurs in `s` before the first `y`. */
  ghost predicate Precedes<T>(s: seq<T>, x: T, y: T) {
    exists a :: 0 <= a < |s| && s[a] == x && forall c :: 0 <= c < a ==> s[c] != y
  }

  lemma {:induction false} PrecedesExtend<T>(s: seq<T>, t: seq<T>, x: T, y: T)
    requires Precedes(s, x, y) && s <= t
    ensures Precedes(t, x, y)
  {
    var a :| 0 <= a < |s| && s[a] == x && forall c :: 0 <= c < a ==> s[c] != y;
    assert t[a] == x && forall c :: 0 <= c < a ==> t[c] != y;
  }

  /** Counts that follow a test give the membership that follows it. */
  lemma {:induction false} CountsMembership<T>(r: seq<T>, s: seq<T>, keep: T -> bool)
    requires forall x :: multiset(r)[x] == if keep(x) then multiset(s)[x] else 0
    ensures forall x :: x in r <==> x in s && keep(x)
  {
    forall x ensures x in r <==> x in s && keep(x) {
      assert x in r <==> x in multiset(r);
      assert x in s <==> x in multiset(s);
    }
  }

  /** A non-empty sequence of one repeated value has just that value as its distinct elements. */
  lemma {:induction false} DedupeConstant<T(!new)>(s: seq<T>, x: T)
    requires |s| > 0 && forall k :: 0 <= k < |s| ==> s[k] == x
    ensures Dedupe(s) == [x]
  {
    if |s| > 1 {
      DedupeConstant(s[..|s| - 1], x);
    }
  }

  /** `ss.flat()`: the concatenation of the inner sequences, in order. */
  function Flatten<T>(ss: seq<seq<T>>): seq<T>
  {
    if ss == [] then [] else ss[0] + Flatten(ss[1..])
  }

  function SumLengths<T>(ss: seq<seq<T>>): nat
  {
    if ss == [] then 0 else |ss[0]| + SumLengths(ss[1..])
  }

  lemma {:induction false} FlattenLength<T>(ss: seq<seq<T>>)
    ensures |Flatten(ss)| == SumLengths(ss)
  {
    if ss != [] {
      FlattenLength(ss[1..]);
    }
  }

  lemma {:induction false} FlattenMembership<T>(ss: seq<seq<T>>, x: T)
    ensures x in Flatten(ss) <==> exists k :: 0 <= k < |ss| && x in ss[k]
  {
    if ss != [] {
      FlattenMembership(ss[1..], x);
      if x in Flatten(ss[1..]) {
        var k :| 0 <= k < |ss[1..]| && x in ss[1..][k];
        assert x in ss[k + 1];
      }
      if exists k :: 0 <= k < |ss| && x in ss[k] {
        var k :| 0 <= k < |ss| && x in ss[k];
        if k > 0 { assert x in ss[1..][k - 1]; }
      }
    }
  }

  /** `le` is a total preorder: what a comparator given to `Array.prototype.sort` must describe. */
  ghost predicate TotalPreorder<T(!new)>(le: (T, T) -> bool) {
    && (forall a, b :: le(a, b) || le(b, a))
    && (forall a, b, c :: le(a, b) && le(b, c) ==> le(a, c))
  }

  predicate SortedBy<T>(s: seq<T>, le: (T, T) -> bool) {
    forall i, j :: 0 <= i < j < |s| ==> le(s[i], s[j])
  }

  /** Inserts `x` into the sorted `s` before the first element it does not exceed, so that `x` comes
      before the elements equal to it. */
  function Insert<T>(x: T, s: seq<T>, le: (T, T) -> bool): (r: seq<T>)
    ensures multiset(r) == multiset(s) + multiset{x}
    ensures |r| == |s| + 1
  {
    if s == [] then [x]
    else if !le(x, s[0]) then
      assert s == [s[0]] + s[1..];
      [s[0]] + Insert(x, s[1..], le)
    else [x] + s
  }

  lemma {:induction false} InsertSorted<T(!new)>(x: T, s: seq<T>, le: (T, T) -> bool)
    requires TotalPreorder(le)
    requires SortedBy(s, le)
    ensures SortedBy(Insert(x, s, le), le)
  {
    if s != [] && !le(x, s[0]) {
      InsertSorted(x, s[1..], le);
      var r := Insert(x, s, le);
      forall j | 0 < j < |r| ensures le(r[0], r[j]) {
        assert r[j] in multiset(r[1..]) by { assert r[j] == r[1..][j - 1]; }
        assert multiset(r[1..]) == multiset(s[1..]) + multiset{x};
        if r[j] != x {
          assert r[j] in s[1..];
          var k :| 0 <= k < |s[1..]| && s[1..][k] == r[j];
          assert s[1..][k] == s[k + 1];
        }
      }
    }
  }

  /** `s.sort(cmp)`: the elements of `s` in non-decreasing order of `le`. */
  function SortBy<T(!new)>(s: seq<T>, le: (T, T) -> bool): (r: seq<T>)
    requires TotalPreorder(le)
    ensures SortedBy(r, le)
    ensures multiset(r) == multiset(s)
  {
    if s == [] then []
    else
      var r := Insert(s[0], SortBy(s[1..], le), le);
      InsertSorted(s[0], SortBy(s[1..], le), le);
      assert s == [s[0]] + s[1..];
      r
  }

  /** Inserting `x` adds it in front of the elements kept by `p`, when `p` keeps only elements
      that are all equal under `le`. */
  lemma {:induction false} InsertFilter<T(!new)>(x: T, s: seq<T>, le: (T, T) -> bool, p: T -> bool)
    requires forall a, b :: p(a) && p(b) ==> le(a, b)
    ensures Filter(Insert(x, s, le), p) == (if p(x) then [x] else []) + Filter(s, p)
  {
    if s == [] {
      assert Insert(x, s, le) == [x];
      assert Filter([x], p) == (if p(x) then [x] else []) + Filter([x][1..], p);
    } else if !le(x, s[0]) {
      InsertFilter(x, s[1..], le, p);
      if p(x) { assert !p(s[0]); }
      FilterPast(s[0], x, Insert(x, s[1..], le), s[1..], p);
      assert Insert(x, s, le) == [s[0]] + Insert(x, s[1..], le);
      assert s == [s[0]] + s[1..];
    } else {
      InsertFilterFront(x, s, le, p);
    }
  }

  /** Putting `h`, which `p` drops whenever it keeps `x`, in front of both sides. */
  lemma {:induction false} FilterPast<T(!new)>(h: T, x: T, t: seq<T>, u: seq<T>, p: T -> bool)
    requires p(x) ==> !p(h)
    requires Filter(t, p) == (if p(x) then [x] else []) + Filter(u, p)
    ensures Filter([h] + t, p) == (if p(x) then [x] else []) + Filter([h] + u, p)
  {
    FilterCons(h, t, p);
    FilterCons(h, u, p);
  }

  lemma {:induction false} FilterCons<T(!new)>(h: T, t: seq<T>, p: T -> bool)
    ensures Filter([h] + t, p) == (if p(h) then [h] else []) + Filter(t, p)
  {
    assert ([h] + t)[0] == h && ([h] + t)[1..] == t;
  }

  lemma {:induction false} InsertFilterFront<T(!new)>(x: T, s: seq<T>, le: (T, T) -> bool, p: T -> bool)
    requires s != [] && le(x, s[0])
    ensures Filter(Insert(x, s, le), p) == (if p(x) then [x] else []) + Filter(s, p)
  {
    var r := Insert(x, s, le);
    assert r[0] == x && r[1..] == s;
    assert Filter(r, p) == (if p(x) then [x] else []) + Filter(r[1..], p);
  }

  /** The sort keeps the relative order of elements that `p` picks when they are all equal under
      `le`. */
  lemma {:induction false} SortByFilter<T(!new)>(s: seq<T>, le: (T, T) -> bool, p: T -> bool)
    requires TotalPreorder(le)
    requires forall a, b :: p(a) && p(b) ==> le(a, b)
    ensures Filter(SortBy(s, le), p) == Filter(s, p)
  {
    if s != [] {
      SortByFilter(s[1..], le, p);
      InsertFilter(s[0], SortBy(s[1..], le), le, p);
    }
  }

  /** The sort is stable: the elements equal to `y` come out in the order they went in. */
  lemma {:induction false} SortByStable<T(!new)>(s: seq<T>, le: (T, T) -> bool, y: T)
    requires TotalPreorder(le)
    ensures Filter(SortBy(s, le), z => le(z, y) && le(y, z)) == Filter(s, z => le(z, y) && le(y, z))
  {
    SortByFilter(s, le, z => le(z, y) && le(y, z));
  }

  /** `s.map(f)`. */
  function Map<T, U>(s: seq<T>, f: T -> U): (r: seq<U>)
    ensures |r| == |s|
    ensures forall k :: 0 <= k < |s| ==> r[k] == f(s[k])
  {
    if s == [] then [] else [f(s[0])] + Map(s[1..], f)
  }

  /** How `Array.prototype.slice` reads an index argument: negative counts from the end, and
      the result is clamped to `0..len`. */
  function SliceIndex(i: int, len: nat): (k: nat)
    ensures k <= len
    ensures i >= 0 ==> k == if i <= len then i else len
    ensures i < 0 ==> k == if len + i >= 0 then len + i else 0
  {
    if i < 0 then (if len + i >= 0 then len + i else 0) else if i <= len then i else len
  }

  /** `s.slice(start, end)`. */
  function Slice<T>(s: seq<T>, start: int, end: int): (r: seq<T>)
    ensures var a, b := SliceIndex(start, |s|), SliceIndex(end, |s|);
      r == if a < b then s[a..b] else []
  {
    var a, b := SliceIndex(start, |s|), SliceIndex(end, |s|);
    if a < b then s[a..b] else []
  }

  /** An element of a duplicate-free sequence occurs once. */
  lemma {:induction false} OccursAtMostOnce<T>(s: seq<T>, x: T)
    requires NoDuplicates(s)
    ensures multiset(s)[x] <= 1
  {
    if s != [] {
      assert s == [s[0]] + s[1..];
      OccursAtMostOnce(s[1..], x);
      if s[0] == x {
        assert x !in s[1..];
      }
    }
  }

  /** Rearranging a duplicate-free sequence gives a duplicate-free sequence. */
  lemma {:induction false} PermutationKeepsNoDuplicates<T>(a: seq<T>, b: seq<T>)
    requires multiset(a) == multiset(b) && NoDuplicates(a)
    ensures NoDuplicates(b)
  {
    forall i, j | 0 <= i < j < |b| ensures b[i] != b[j] {
      if b[i] == b[j] {
        var x := b[i];
        assert b == b[..j] + [b[j]] + b[j + 1..];
        assert x in b[..j];
        assert multiset(b)[x] >= 2;
        OccursAtMostOnce(a, x);
        assert false;
      }
    }
  }
}
