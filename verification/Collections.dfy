/** Orderings and sorted sequences shared by the other modules. */
module Collections {

  datatype Option<+T> = None | Some(value: T)

  datatype Result<+T, +E> = Ok(value: T) | Err(error: E)

  function ToSet<T>(xs: seq<T>): set<T> {
    set x | x in xs
  }

  /** Some element of a non-empty set: the order a map iteration happens to take. */
  method AnyOf<T(==)>(s: set<T>) returns (x: T)
    requires s != {}
    ensures x in s
  {
    x :| x in s;
  }

  ghost predicate Distinct<T>(xs: seq<T>) {
    forall i, j :: 0 <= i < j < |xs| ==> xs[i] != xs[j]
  }

  lemma DistinctSnoc<T>(xs: seq<T>, x: T)
    requires Distinct(xs) && x !in ToSet(xs)
    ensures Distinct(xs + [x]) && ToSet(xs + [x]) == ToSet(xs) + {x}
  {
  }

  /** Without repetition the length of a sequence is the size of its set. */
  lemma {:induction false} DistinctCardinality<T>(xs: seq<T>)
    requires Distinct(xs)
    ensures |ToSet(xs)| == |xs|
  {
    if xs != [] {
      var last := xs[|xs| - 1];
      var front := xs[..|xs| - 1];
      DistinctCardinality(front);
      assert last !in front;
      assert ToSet(xs) == ToSet(front) + {last};
    }
  }

  lemma SubsetSize<T>(a: set<T>, b: set<T>)
    requires a <= b
    ensures |a| <= |b|
  {
    assert |b - a| == |b| - |a|;
  }

  function Max(a: int, b: int): int {
    if a < b then b else a
  }

  function Filter<T>(xs: seq<T>, keep: T -> bool): seq<T> {
    if xs == [] then []
    else Filter(xs[..|xs| - 1], keep) + (if keep(xs[|xs| - 1]) then [xs[|xs| - 1]] else [])
  }

  lemma {:induction false} FilterMembers<T>(xs: seq<T>, keep: T -> bool)
    ensures forall x :: x in Filter(xs, keep) <==> x in xs && keep(x)
  {
    if xs != [] {
      FilterMembers(xs[..|xs| - 1], keep);
      assert xs == xs[..|xs| - 1] + [xs[|xs| - 1]];
    }
  }

  lemma {:induction false} FilterDistinct<T>(xs: seq<T>, keep: T -> bool)
    requires Distinct(xs)
    ensures Distinct(Filter(xs, keep))
  {
    if xs != [] {
      var front, last := xs[..|xs| - 1], xs[|xs| - 1];
      FilterDistinct(front, keep);
      FilterMembers(front, keep);
      assert last !in front;
    }
  }

  lemma {:induction false} FilterAll<T>(xs: seq<T>, keep: T -> bool)
    requires forall x :: x in xs ==> keep(x)
    ensures Filter(xs, keep) == xs
  {
    if xs != [] {
      assert xs == xs[..|xs| - 1] + [xs[|xs| - 1]];
      FilterAll(xs[..|xs| - 1], keep);
    }
  }

  /** Filtering one element out of a sequence without repetition removes just that one. */
  lemma {:induction false} FilterAllBut<T>(xs: seq<T>, keep: T -> bool, t: T)
    requires Distinct(xs) && t in xs
    requires forall x :: x in xs ==> (keep(x) <==> x != t)
    ensures multiset(xs) == multiset{t} + multiset(Filter(xs, keep))
  {
    var front, last := xs[..|xs| - 1], xs[|xs| - 1];
    assert xs == front + [last];
    if last == t {
      assert t !in front;
      FilterAll(front, keep);
    } else {
      assert t in front;
      FilterAllBut(front, keep, t);
    }
  }

  function Without<T>(xs: seq<T>, i: nat): (ys: seq<T>)
    requires i < |xs|
    ensures |ys| == |xs| - 1
    ensures multiset(ys) + multiset{xs[i]} == multiset(xs)
  {
    assert xs == xs[..i] + [xs[i]] + xs[i + 1..];
    xs[..i] + xs[i + 1..]
  }

  /** Where an element first occurs, or -1. */
  function IndexOf<T(==)>(s: seq<T>, c: T): (i: int)
    ensures -1 <= i < |s|
    ensures i >= 0 ==> s[i] == c && forall k :: 0 <= k < i ==> s[k] != c
    ensures i < 0 ==> c !in s
  {
    if s == [] then -1
    else if s[0] == c then 0
    else
      var i := IndexOf(s[1..], c);
      if i < 0 then -1 else i + 1
  }

  // ----- sorting -----

  /** `less` is a strict weak order on the elements of `xs`. */
  ghost predicate WeakOrderOn<T>(xs: seq<T>, less: (T, T) -> bool) {
    && (forall x, y {:trigger less(x, y)} | x in xs && y in xs :: less(x, y) ==> !less(y, x))
    && (forall x, y, z {:trigger less(x, y), less(y, z)} | x in xs && y in xs && z in xs ::
          !less(x, y) && !less(y, z) ==> !less(x, z))
  }

  lemma WeakOrderWithin<T>(xs: seq<T>, ys: seq<T>, less: (T, T) -> bool)
    requires WeakOrderOn(xs, less)
    requires forall y :: y in ys ==> y in xs
    ensures WeakOrderOn(ys, less)
  {
  }

  ghost predicate SortedBy<T>(xs: seq<T>, less: (T, T) -> bool) {
    forall i, j :: 0 <= i < j < |xs| ==> !less(xs[j], xs[i])
  }

  /** What a library sort promises: the same elements, in order. */
  ghost predicate SortOf<T>(xs: seq<T>, ys: seq<T>, less: (T, T) -> bool) {
    multiset(ys) == multiset(xs) && SortedBy(ys, less)
  }

  /** Puts `x` behind every element it is not strictly less than. */
  function Insert<T>(ys: seq<T>, x: T, less: (T, T) -> bool): seq<T> {
    if ys == [] || !less(x, ys[|ys| - 1]) then ys + [x]
    else Insert(ys[..|ys| - 1], x, less) + [ys[|ys| - 1]]
  }

  lemma {:induction false} InsertMultiset<T>(ys: seq<T>, x: T, less: (T, T) -> bool)
    ensures multiset(Insert(ys, x, less)) == multiset(ys) + multiset{x}
  {
    if ys != [] && less(x, ys[|ys| - 1]) {
      InsertMultiset(ys[..|ys| - 1], x, less);
      assert ys == ys[..|ys| - 1] + [ys[|ys| - 1]];
    }
  }

  lemma MultisetMember<T>(xs: seq<T>, x: T)
    ensures x in multiset(xs) <==> x in xs
  {
  }

  lemma {:induction false} InsertSorted<T>(ys: seq<T>, x: T, less: (T, T) -> bool)
    requires WeakOrderOn(ys + [x], less)
    requires SortedBy(ys, less)
    ensures SortedBy(Insert(ys, x, less), less)
  {
    if ys == [] {
    } else if !less(x, ys[|ys| - 1]) {
      var last := ys[|ys| - 1];
      forall i | 0 <= i < |ys| ensures !less(x, ys[i]) {
        assert last in ys + [x] && ys[i] in ys + [x] && x in ys + [x];
        if i < |ys| - 1 { assert !less(last, ys[i]); }
      }
    } else {
      var front, last := ys[..|ys| - 1], ys[|ys| - 1];
      assert forall y :: y in front + [x] ==> y in ys + [x];
      InsertSorted(front, x, less);
      InsertMultiset(front, x, less);
      var r := Insert(front, x, less);
      forall i | 0 <= i < |r| ensures !less(last, r[i]) {
        MultisetMember(r, r[i]);
        assert r[i] == x || r[i] in front;
        if r[i] in front {
          var k :| 0 <= k < |front| && front[k] == r[i];
          assert !less(ys[|ys| - 1], ys[k]);
        } else {
          assert x in ys + [x] && last in ys + [x];
        }
      }
    }
  }

  /** Stable insertion sort, standing for the library's sort calls. */
  function Sort<T>(xs: seq<T>, less: (T, T) -> bool): seq<T> {
    if xs == [] then [] else Insert(Sort(xs[..|xs| - 1], less), xs[|xs| - 1], less)
  }

  lemma {:induction false} SortMultiset<T>(xs: seq<T>, less: (T, T) -> bool)
    ensures multiset(Sort(xs, less)) == multiset(xs)
    ensures |Sort(xs, less)| == |xs|
    ensures forall x :: x in Sort(xs, less) <==> x in xs
  {
    if xs != [] {
      SortMultiset(xs[..|xs| - 1], less);
      InsertMultiset(Sort(xs[..|xs| - 1], less), xs[|xs| - 1], less);
      assert xs == xs[..|xs| - 1] + [xs[|xs| - 1]];
    }
    assert |multiset(Sort(xs, less))| == |multiset(xs)|;
    forall x ensures x in Sort(xs, less) <==> x in xs {
      MultisetMember(xs, x);
      MultisetMember(Sort(xs, less), x);
    }
  }

  lemma SortExtends<T>(xs: seq<T>, front: seq<T>, last: T, less: (T, T) -> bool)
    requires WeakOrderOn(xs, less) && xs == front + [last]
    ensures WeakOrderOn(front, less)
    ensures WeakOrderOn(Sort(front, less) + [last], less)
  {
    SortMultiset(front, less);
    WeakOrderWithin(xs, front, less);
    assert xs[|front|] == last;
    forall y | y in Sort(front, less) + [last] ensures y in xs {
      var sorted := Sort(front, less);
      var k :| 0 <= k < |sorted + [last]| && (sorted + [last])[k] == y;
      if k < |sorted| {
        MultisetMember(sorted, y);
        MultisetMember(front, y);
      }
    }
    WeakOrderWithin(xs, Sort(front, less) + [last], less);
  }

  lemma {:induction false} SortSorts<T>(xs: seq<T>, less: (T, T) -> bool)
    requires WeakOrderOn(xs, less)
    ensures SortedBy(Sort(xs, less), less)
  {
    if xs != [] {
      var front, last := xs[..|xs| - 1], xs[|xs| - 1];
      SortExtends(xs, front, last, less);
      SortSorts(front, less);
      InsertSorted(Sort(front, less), last, less);
    }
  }

  lemma SortIsSortOf<T>(xs: seq<T>, less: (T, T) -> bool)
    requires WeakOrderOn(xs, less)
    ensures SortOf(xs, Sort(xs, less), less)
  {
    SortMultiset(xs, less);
    SortSorts(xs, less);
  }

  /** Insertion splits the list: everything behind `x` is greater. */
  lemma {:induction false} InsertSplits<T>(ys: seq<T>, x: T, less: (T, T) -> bool) returns (k: nat)
    ensures k <= |ys| && Insert(ys, x, less) == ys[..k] + [x] + ys[k..]
    ensures forall j :: k <= j < |ys| ==> less(x, ys[j])
  {
    k := |ys|;
    if ys != [] && less(x, ys[|ys| - 1]) {
      k := InsertSplits(ys[..|ys| - 1], x, less);
      assert ys[..|ys| - 1][..k] == ys[..k];
      assert ys[..|ys| - 1][k..] + [ys[|ys| - 1]] == ys[k..];
    }
  }

  /** `p` says where in `xs` each element of `ys` comes from, every element once. */
  ghost predicate DrawnFrom<T>(xs: seq<T>, ys: seq<T>, p: seq<nat>) {
    && |p| == |ys| == |xs| && Distinct(p)
    && (forall k: nat :: k in p <==> k < |xs|)
    && (forall i :: 0 <= i < |p| ==> p[i] < |xs| && ys[i] == xs[p[i]])
  }

  /** Sorted, with equal elements in the order they were drawn. */
  ghost predicate StableBy<T>(ys: seq<T>, p: seq<nat>, less: (T, T) -> bool)
    requires |p| == |ys|
  {
    forall i, j :: 0 <= i < j < |ys| ==> !less(ys[j], ys[i]) && (less(ys[i], ys[j]) || p[i] < p[j])
  }

  /** Putting a new element in keeps a list free of repetition. */
  lemma PutInDistinct<T>(q: seq<T>, k: nat, x: T)
    requires k <= |q| && Distinct(q) && x !in q
    ensures Distinct(q[..k] + [x] + q[k..])
    ensures forall y :: y in q[..k] + [x] + q[k..] <==> y in q || y == x
  {
    assert q == q[..k] + q[k..];
    var p := q[..k] + [x] + q[k..];
    assert multiset(p) == multiset(q) + multiset{x};
    DistinctMultiset(q);
    DistinctMultiset(p);
    MultisetMember(q, x);
    forall y ensures y in p <==> y in q || y == x {
      MultisetMember(p, y);
      MultisetMember(q, y);
    }
  }

  lemma DrawnStep<T>(xs: seq<T>, ys: seq<T>, q: seq<nat>, k: nat)
    requires xs != [] && DrawnFrom(xs[..|xs| - 1], ys, q) && k <= |ys|
    ensures DrawnFrom(xs, ys[..k] + [xs[|xs| - 1]] + ys[k..], q[..k] + [|xs| - 1] + q[k..])
  {
    var n := |xs| - 1;
    assert n !in q;
    PutInDistinct(q, k, n);
    var p, zs := q[..k] + [n] + q[k..], ys[..k] + [xs[n]] + ys[k..];
    hide Distinct;
    forall i | 0 <= i < |p| ensures p[i] < |xs| && zs[i] == xs[p[i]] {
      assert p[i] in p;
    }
  }

  lemma StableStep<T>(ys: seq<T>, q: seq<nat>, k: nat, x: T, n: nat, less: (T, T) -> bool)
    requires |q| == |ys| && StableBy(ys, q, less) && k <= |ys|
    requires forall i :: 0 <= i < |q| ==> q[i] < n
    requires forall j :: k <= j < |ys| ==> less(x, ys[j])
    requires SortedBy(ys[..k] + [x] + ys[k..], less)
    ensures StableBy(ys[..k] + [x] + ys[k..], q[..k] + [n] + q[k..], less)
  {
    var zs, p := ys[..k] + [x] + ys[k..], q[..k] + [n] + q[k..];
    forall i, j | 0 <= i < j < |zs| ensures less(zs[i], zs[j]) || p[i] < p[j] {
      if i != k && j != k {
        var u, v := if i < k then i else i - 1, if j < k then j else j - 1;
        assert zs[i] == ys[u] && p[i] == q[u] && zs[j] == ys[v] && p[j] == q[v];
      }
    }
  }

  /** Which element stands where after sorting; equal elements keep their order. */
  lemma {:induction false} SortPositions<T>(xs: seq<T>, less: (T, T) -> bool) returns (p: seq<nat>)
    requires WeakOrderOn(xs, less)
    ensures DrawnFrom(xs, Sort(xs, less), p) && StableBy(Sort(xs, less), p, less)
  {
    p := [];
    if xs != [] {
      var n := |xs| - 1;
      SortExtends(xs, xs[..n], xs[n], less);
      var q := SortPositions(xs[..n], less);
      var ys := Sort(xs[..n], less);
      var k := InsertSplits(ys, xs[n], less);
      SortSorts(xs, less);
      p := q[..k] + [n] + q[k..];
      DrawnStep(xs, ys, q, k);
      StableStep(ys, q, k, xs[n], n, less);
      hide WeakOrderOn, DrawnFrom, StableBy, SortedBy;
    }
  }

  lemma SameMultisetMembers<T>(xs: seq<T>, ys: seq<T>)
    requires multiset(xs) == multiset(ys)
    ensures |xs| == |ys|
    ensures forall x :: x in xs <==> x in ys
  {
    assert |multiset(xs)| == |multiset(ys)|;
    forall x ensures x in xs <==> x in ys {
      MultisetMember(xs, x);
      MultisetMember(ys, x);
    }
  }

  /** A sequence without repetition holds each of its elements once, wherever they stand. */
  lemma {:induction false} DistinctMultiset<T>(xs: seq<T>)
    ensures Distinct(xs) <==> forall x :: multiset(xs)[x] <= 1
  {
    if xs != [] {
      var front, last := xs[..|xs| - 1], xs[|xs| - 1];
      assert xs == front + [last];
      DistinctMultiset(front);
      MultisetMember(front, last);
      if Distinct(xs) {
        assert last !in front;
        assert Distinct(front);
      }
      if forall x :: multiset(xs)[x] <= 1 {
        assert multiset(xs)[last] == multiset(front)[last] + 1;
        forall x ensures multiset(front)[x] <= 1 {
          assert multiset(front)[x] <= multiset(xs)[x];
        }
      }
    }
  }

  lemma PermutationDistinct<T>(xs: seq<T>, ys: seq<T>)
    requires multiset(xs) == multiset(ys) && Distinct(xs)
    ensures Distinct(ys)
  {
    DistinctMultiset(xs);
    DistinctMultiset(ys);
  }

  // ----- byte-wise string order -----

  predicate StringLess(a: string, b: string) {
    b != "" && (a == "" || a[0] < b[0] || (a[0] == b[0] && StringLess(a[1..], b[1..])))
  }

  lemma {:induction false} StringLessTrichotomy(a: string, b: string)
    ensures a == b <==> !StringLess(a, b) && !StringLess(b, a)
    ensures !(StringLess(a, b) && StringLess(b, a))
  {
    if a != "" && b != "" {
      StringLessTrichotomy(a[1..], b[1..]);
      assert a == [a[0]] + a[1..] && b == [b[0]] + b[1..];
    }
  }

  lemma {:induction false} StringLessTransitive(a: string, b: string, c: string)
    requires StringLess(a, b) && StringLess(b, c)
    ensures StringLess(a, c)
  {
    if a != "" && a[0] == b[0] && b[0] == c[0] {
      StringLessTransitive(a[1..], b[1..], c[1..]);
    }
  }
}
