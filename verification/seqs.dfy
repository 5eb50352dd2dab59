/** Sequence operations with Python semantics: list slicing with negative
    and out-of-range bounds, comprehension filters, occurrence counts, and
    the stable sort behind `sorted(..., key=..., reverse=True)`. */
module Seqs {

  // ---------------------------------------------------------------------
  // Python slicing
  // ---------------------------------------------------------------------

  /** How Python resolves a slice bound `i` against a list of length `n`:
      negative bounds count from the end, and both kinds are clamped. */
  function SliceBound(i: int, n: nat): (b: nat)
    ensures b <= n
    ensures 0 <= i <= n ==> b == i
    ensures i > n ==> b == n
    ensures i < 0 && n + i >= 0 ==> b == n + i
    ensures n + i < 0 ==> b == 0
  {
    if i < 0 then (if n + i < 0 then 0 else n + i) else if i > n then n else i
  }

  /** Python's `s[i:j]`. */
  function PySlice<T>(s: seq<T>, i: int, j: int): (r: seq<T>)
    ensures 0 <= i <= j <= |s| ==> r == s[i..j]
    ensures |r| <= |s|
    ensures var lo, hi := SliceBound(i, |s|), SliceBound(j, |s|);
            |r| == (if lo < hi then hi - lo else 0)
  {
    var lo, hi := SliceBound(i, |s|), SliceBound(j, |s|);
    if lo < hi then s[lo..hi] else []
  }

  /** Python's `s[:k]`. */
  function PyTake<T>(s: seq<T>, k: int): (r: seq<T>)
    ensures 0 <= k ==> r == s[..if k < |s| then k else |s|]
    ensures k < 0 ==> r == s[..SliceBound(k, |s|)]
  {
    PySlice(s, 0, k)
  }

  /** Python's `s[k:]`. */
  function PyDrop<T>(s: seq<T>, k: int): (r: seq<T>)
    ensures 0 <= k ==> r == s[if k < |s| then k else |s|..]
    ensures k < 0 ==> r == s[SliceBound(k, |s|)..]
  {
    PySlice(s, k, |s|)
  }

  /** Python's `s[i]` is defined exactly for `-len(s) <= i < len(s)`. */
  predicate PyIndexOk<T>(s: seq<T>, i: int) {
    -|s| <= i < |s|
  }

  function PyIndex<T>(s: seq<T>, i: int): (x: T)
    requires PyIndexOk(s, i)
    ensures 0 <= i ==> x == s[i]
    ensures i < 0 ==> x == s[|s| + i]
  {
    if i < 0 then s[|s| + i] else s[i]
  }

  // ---------------------------------------------------------------------
  // Filters and counts
  // ---------------------------------------------------------------------

  /** `[f(x) for x in s]`. */
  function Map<T, U>(s: seq<T>, f: T -> U): (r: seq<U>)
    ensures |r| == |s|
    ensures forall i :: 0 <= i < |s| ==> r[i] == f(s[i])
  {
    seq(|s|, i requires 0 <= i < |s| => f(s[i]))
  }

  lemma AppendAssoc<T>(a: seq<T>, b: seq<T>, c: seq<T>)
    ensures (a + b) + c == a + (b + c)
  {
  }

  lemma MapConcat<T, U>(a: seq<T>, b: seq<T>, f: T -> U)
    ensures Map(a + b, f) == Map(a, f) + Map(b, f)
  {
  }

  /** `[x for x in s if p(x)]`. */
  function Filter<T(==)>(s: seq<T>, p: T -> bool): (r: seq<T>)
    ensures |r| <= |s|
    ensures forall i :: 0 <= i < |r| ==> p(r[i]) && r[i] in s
    ensures forall i :: 0 <= i < |s| && p(s[i]) ==> s[i] in r
  {
    if |s| == 0 then [] else (if p(s[0]) then [s[0]] else []) + Filter(s[1..], p)
  }

  lemma FilterMembers<T>(s: seq<T>, p: T -> bool)
    ensures forall x :: x in Filter(s, p) <==> x in s && p(x)
  {
    var r := Filter(s, p);
    forall x | x in r ensures x in s && p(x) {
      var i :| 0 <= i < |r| && r[i] == x;
    }
  }

  lemma {:induction false} FilterConcat<T>(a: seq<T>, b: seq<T>, p: T -> bool)
    ensures Filter(a + b, p) == Filter(a, p) + Filter(b, p)
  {
    if |a| == 0 {
      assert a + b == b;
    } else {
      assert (a + b)[0] == a[0];
      assert (a + b)[1..] == a[1..] + b;
      FilterConcat(a[1..], b, p);
    }
  }

  lemma FilterSingleton<T>(x: T, p: T -> bool)
    ensures Filter([x], p) == if p(x) then [x] else []
  {
    assert [x][1..] == [];
  }

  lemma MapTail<T, U>(s: seq<T>, f: T -> U)
    requires |s| > 0
    ensures Map(s, f)[1..] == Map(s[1..], f)
  {
  }

  /** Peels the first element off `[g(y) for y in map(f, s) if p(y)]`. */
  lemma MapFilterMapCons<A, B, C>(s: seq<A>, f: A -> B, p: B -> bool, g: B -> C)
    requires |s| > 0
    ensures Map(Filter(Map(s, f), p), g)
         == (if p(f(s[0])) then [g(f(s[0]))] else []) + Map(Filter(Map(s[1..], f), p), g)
  {
    var m := Map(s, f);
    MapTail(s, f);
    var head := if p(f(s[0])) then [f(s[0])] else [];
    var tail := Filter(Map(s[1..], f), p);
    assert Filter(m, p) == head + tail;
    MapConcat(head, tail, g);
    assert Map(head, g) == if p(f(s[0])) then [g(f(s[0]))] else [];
  }

  /** `sum(1 for x in s if p(x))`. */
  function Count<T>(s: seq<T>, p: T -> bool): (n: nat)
    ensures n <= |s|
    ensures n == 0 <==> forall i :: 0 <= i < |s| ==> !p(s[i])
    ensures n == |s| <==> forall i :: 0 <= i < |s| ==> p(s[i])
  {
    if |s| == 0 then 0 else (if p(s[0]) then 1 else 0) + Count(s[1..], p)
  }

  lemma {:induction false} CountIsFilterLength<T>(s: seq<T>, p: T -> bool)
    ensures Count(s, p) == |Filter(s, p)|
  {
    if |s| > 0 { CountIsFilterLength(s[1..], p); }
  }

  lemma {:induction false} CountConcat<T>(a: seq<T>, b: seq<T>, p: T -> bool)
    ensures Count(a + b, p) == Count(a, p) + Count(b, p)
  {
    if |a| == 0 {
      assert a + b == b;
    } else {
      assert (a + b)[0] == a[0];
      assert (a + b)[1..] == a[1..] + b;
      CountConcat(a[1..], b, p);
    }
  }

  /** Predicates that agree on the elements of `s` count alike. */
  lemma {:induction false} CountCongruent<T>(s: seq<T>, p: T -> bool, q: T -> bool)
    requires forall i :: 0 <= i < |s| ==> p(s[i]) == q(s[i])
    ensures Count(s, p) == Count(s, q)
  {
    if |s| > 0 {
      assert forall i :: 0 <= i < |s| - 1 ==> s[1..][i] == s[i + 1];
      CountCongruent(s[1..], p, q);
    }
  }

  /** Counting a disjoint union: `pq` holds exactly where one of the
      exclusive `p` and `q` holds. */
  lemma {:induction false} CountDisjointUnion<T>(s: seq<T>, p: T -> bool, q: T -> bool, pq: T -> bool)
    requires forall i :: 0 <= i < |s| ==> (pq(s[i]) <==> p(s[i]) || q(s[i])) && !(p(s[i]) && q(s[i]))
    ensures Count(s, pq) == Count(s, p) + Count(s, q)
  {
    if |s| > 0 {
      assert forall i :: 0 <= i < |s| - 1 ==> s[1..][i] == s[i + 1];
      CountDisjointUnion(s[1..], p, q, pq);
    }
  }

  /** `{f(x) for x in s}`. */
  function Image<T, U(!new)>(s: seq<T>, f: T -> U): (r: set<U>)
    ensures forall y :: y in r <==> exists i :: 0 <= i < |s| && f(s[i]) == y
    ensures |r| <= |s|
    ensures |s| > 0 ==> |r| > 0
  {
    if |s| == 0 then {}
    else
      var rest := Image(s[1..], f);
      assert forall i :: 0 <= i < |s| - 1 ==> s[1..][i] == s[i + 1];
      {f(s[0])} + rest
  }

  /** An image that merges at least what `f` merges is no larger than
      the image under `f`. */
  lemma {:induction false} ImageCoarser<T, U(!new), V(!new)>(s: seq<T>, f: T -> U, g: T -> V)
    requires forall i, j :: 0 <= i < |s| && 0 <= j < |s| && f(s[i]) == f(s[j]) ==> g(s[i]) == g(s[j])
    ensures |Image(s, g)| <= |Image(s, f)|
  {
    if |s| > 0 {
      CoarserTail(s, f, g);
      ImageCoarser(s[1..], f, g);
      ImageCoarserStep(s, f, g);
    }
  }

  lemma CoarserTail<T, U, V>(s: seq<T>, f: T -> U, g: T -> V)
    requires |s| > 0
    requires forall i, j :: 0 <= i < |s| && 0 <= j < |s| && f(s[i]) == f(s[j]) ==> g(s[i]) == g(s[j])
    ensures var rest := s[1..];
            forall i, j :: 0 <= i < |rest| && 0 <= j < |rest| && f(rest[i]) == f(rest[j]) ==> g(rest[i]) == g(rest[j])
  {
    var rest := s[1..];
    forall i, j | 0 <= i < |rest| && 0 <= j < |rest| && f(rest[i]) == f(rest[j])
      ensures g(rest[i]) == g(rest[j])
    {
      assert rest[i] == s[i + 1] && rest[j] == s[j + 1];
    }
  }

  lemma ImageCoarserStep<T, U(!new), V(!new)>(s: seq<T>, f: T -> U, g: T -> V)
    requires |s| > 0
    requires forall i, j :: 0 <= i < |s| && 0 <= j < |s| && f(s[i]) == f(s[j]) ==> g(s[i]) == g(s[j])
    requires |Image(s[1..], g)| <= |Image(s[1..], f)|
    ensures |Image(s, g)| <= |Image(s, f)|
  {
    var rest := s[1..];
    CardAdd(f(s[0]), Image(rest, f));
    CardAdd(g(s[0]), Image(rest, g));
    if f(s[0]) in Image(rest, f) {
      var j :| 0 <= j < |rest| && f(rest[j]) == f(s[0]);
      assert g(rest[j]) == g(s[0]) by { assert rest[j] == s[j + 1]; }
    }
  }

  lemma CardAdd<U>(x: U, b: set<U>)
    ensures |{x} + b| == if x in b then |b| else |b| + 1
  {
    if x in b { assert {x} + b == b; }
  }

  /** Two maps that merge exactly the same elements have images of the
      same size. */
  lemma ImageSameSize<T, U(!new), V(!new)>(s: seq<T>, f: T -> U, g: T -> V)
    requires forall i, j :: 0 <= i < |s| && 0 <= j < |s| ==> (f(s[i]) == f(s[j]) <==> g(s[i]) == g(s[j]))
    ensures |Image(s, g)| == |Image(s, f)|
  {
    ImageCoarser(s, f, g);
    ImageCoarser(s, g, f);
  }

  /** The sum of `f` over `s` (Python's `sum(f(x) for x in s)`). */
  function Sum<T>(s: seq<T>, f: T -> int): int
  {
    if |s| == 0 then 0 else f(s[0]) + Sum(s[1..], f)
  }

  lemma {:induction false} SumConcat<T>(a: seq<T>, b: seq<T>, f: T -> int)
    ensures Sum(a + b, f) == Sum(a, f) + Sum(b, f)
  {
    if |a| == 0 {
      assert a + b == b;
    } else {
      assert (a + b)[0] == a[0];
      assert (a + b)[1..] == a[1..] + b;
      SumConcat(a[1..], b, f);
    }
  }

  // ---------------------------------------------------------------------
  // Stable sort, largest key first
  // ---------------------------------------------------------------------

  /** The elements of `s` whose key is `v`, in their order in `s`. A sort is
      stable exactly when it leaves each of these subsequences unchanged. */
  function KeyClass<T>(s: seq<T>, key: T -> int, v: int): seq<T>
  {
    if |s| == 0 then [] else (if key(s[0]) == v then [s[0]] else []) + KeyClass(s[1..], key, v)
  }

  lemma {:induction false} KeyClassConcat<T>(a: seq<T>, b: seq<T>, key: T -> int, v: int)
    ensures KeyClass(a + b, key, v) == KeyClass(a, key, v) + KeyClass(b, key, v)
  {
    if |a| == 0 {
      assert a + b == b;
    } else {
      var h := if key(a[0]) == v then [a[0]] else [];
      assert (a + b)[0] == a[0];
      assert (a + b)[1..] == a[1..] + b;
      assert KeyClass(a + b, key, v) == h + KeyClass(a[1..] + b, key, v);
      KeyClassConcat(a[1..], b, key, v);
      AppendAssoc(h, KeyClass(a[1..], key, v), KeyClass(b, key, v));
    }
  }

  lemma KeyClassSingleton<T>(x: T, key: T -> int, v: int)
    ensures KeyClass([x], key, v) == if key(x) == v then [x] else []
  {
    assert [x][1..] == [];
  }

  lemma {:induction false} KeyClassAbsent<T>(s: seq<T>, key: T -> int, v: int)
    requires forall i :: 0 <= i < |s| ==> key(s[i]) != v
    ensures KeyClass(s, key, v) == []
  {
    if |s| > 0 { KeyClassAbsent(s[1..], key, v); }
  }

  predicate SortedDesc<T>(s: seq<T>, key: T -> int) {
    forall i, j :: 0 <= i < j < |s| ==> key(s[i]) >= key(s[j])
  }

  /** Inserts `x` after every element whose key is at least its own. */
  function Insert<T(==)>(x: T, s: seq<T>, key: T -> int): (r: seq<T>)
    requires SortedDesc(s, key)
    ensures |r| == |s| + 1
    ensures key(r[0]) == key(x) || (|s| > 0 && key(r[0]) == key(s[0]))
    ensures SortedDesc(r, key)
    ensures multiset(r) == multiset(s) + multiset{x}
  {
    if |s| == 0 then [x]
    else if key(s[0]) >= key(x) then
      var rest := Insert(x, s[1..], key);
      SortedCons(s[0], rest, key);
      assert s == [s[0]] + s[1..];
      [s[0]] + rest
    else
      SortedCons(x, s, key);
      [x] + s
  }

  lemma SortedCons<T>(x: T, s: seq<T>, key: T -> int)
    requires SortedDesc(s, key) && (|s| == 0 || key(x) >= key(s[0]))
    ensures SortedDesc([x] + s, key)
  {
    var r := [x] + s;
    forall i, j | 0 <= i < j < |r| ensures key(r[i]) >= key(r[j]) {
      assert r[j] == s[j - 1];
      if i > 0 { assert r[i] == s[i - 1]; }
    }
  }

  lemma {:induction false} InsertKeyClass<T>(x: T, s: seq<T>, key: T -> int, v: int)
    requires SortedDesc(s, key)
    ensures KeyClass(Insert(x, s, key), key, v) == KeyClass(s, key, v) + (if key(x) == v then [x] else [])
  {
    var e := if key(x) == v then [x] else [];
    KeyClassSingleton(x, key, v);
    if |s| == 0 {
    } else if key(s[0]) >= key(x) {
      var rest := Insert(x, s[1..], key);
      assert Insert(x, s, key) == [s[0]] + rest;
      KeyClassConcat([s[0]], rest, key, v);
      InsertKeyClass(x, s[1..], key, v);
      assert s == [s[0]] + s[1..];
      KeyClassConcat([s[0]], s[1..], key, v);
      AppendAssoc(KeyClass([s[0]], key, v), KeyClass(s[1..], key, v), e);
    } else {
      assert Insert(x, s, key) == [x] + s;
      KeyClassConcat([x], s, key, v);
      if key(x) == v { KeyClassAbsent(s, key, v); }
    }
  }

  /** Python's `sorted(s, key=key, reverse=True)`: a stable sort that puts
      larger keys first and keeps equal keys in input order. */
  function SortDesc<T(==)>(s: seq<T>, key: T -> int): (r: seq<T>)
    ensures |r| == |s|
    ensures SortedDesc(r, key)
    ensures multiset(r) == multiset(s)
    ensures forall v :: KeyClass(r, key, v) == KeyClass(s, key, v)
  {
    if |s| == 0 then []
    else
      var init, last := s[..|s| - 1], s[|s| - 1];
      var sorted := SortDesc(init, key);
      assert s == init + [last];
      InsertLast(init, last, sorted, key);
      Insert(last, sorted, key)
  }

  /** Inserting the last element into a stable sort of the others gives a
      stable sort of the whole. */
  lemma InsertLast<T>(init: seq<T>, last: T, sorted: seq<T>, key: T -> int)
    requires SortedDesc(sorted, key)
    requires forall v :: KeyClass(sorted, key, v) == KeyClass(init, key, v)
    ensures forall v :: KeyClass(Insert(last, sorted, key), key, v) == KeyClass(init + [last], key, v)
  {
    forall v ensures KeyClass(Insert(last, sorted, key), key, v) == KeyClass(init + [last], key, v) {
      InsertLastClass(init, last, sorted, key, v);
    }
  }

  lemma InsertLastClass<T>(init: seq<T>, last: T, sorted: seq<T>, key: T -> int, v: int)
    requires SortedDesc(sorted, key)
    requires KeyClass(sorted, key, v) == KeyClass(init, key, v)
    ensures KeyClass(Insert(last, sorted, key), key, v) == KeyClass(init + [last], key, v)
  {
    InsertKeyClass(last, sorted, key, v);
    KeyClassConcat(init, [last], key, v);
    assert KeyClass([last], key, v) == (if key(last) == v then [last] else []);
  }

  /** Sorting keeps exactly the elements it was given. */
  lemma SortDescMembers<T>(s: seq<T>, key: T -> int)
    ensures forall x :: x in SortDesc(s, key) <==> x in s
  {
    var r := SortDesc(s, key);
    assert forall x :: x in r <==> x in multiset(r);
    assert forall x :: x in s <==> x in multiset(s);
  }

  /** `sorted(s, key=key, reverse=True)[:n]`. */
  function TopN<T(==)>(s: seq<T>, key: T -> int, n: nat): (r: seq<T>)
    ensures |r| == if |s| < n then |s| else n
    ensures r == SortDesc(s, key)[..|r|]
    ensures SortedDesc(r, key)
    ensures forall x :: x in r ==> x in s
  {
    SortDescMembers(s, key);
    PyTake(SortDesc(s, key), n)
  }

  /** The first `k` elements of a descending sort are the `k` largest: no
      element left out has a larger key than one kept. */
  lemma TopKeysDominate<T>(s: seq<T>, key: T -> int, k: nat)
    requires k <= |s|
    ensures var r := SortDesc(s, key);
            forall x, y :: x in r[..k] && y in r[k..] ==> key(x) >= key(y)
  {
    var r := SortDesc(s, key);
    forall x, y | x in r[..k] && y in r[k..] ensures key(x) >= key(y) {
      var i :| 0 <= i < k && r[i] == x;
      var j :| 0 <= j < |r| - k && r[k..][j] == y;
      assert r[k + j] == y;
    }
  }

  lemma SumRemove<T>(b: seq<T>, k: nat, f: T -> int)
    requires k < |b|
    ensures Sum(b, f) == f(b[k]) + Sum(b[..k] + b[k + 1..], f)
  {
    assert b == b[..k] + b[k..];
    SumConcat(b[..k], b[k..], f);
    assert b[k..][1..] == b[k + 1..];
    SumConcat(b[..k], b[k + 1..], f);
  }

  lemma MultisetRemove<T>(b: seq<T>, k: nat)
    requires k < |b|
    ensures multiset(b[..k] + b[k + 1..]) == multiset(b) - multiset{b[k]}
  {
    assert b == b[..k] + [b[k]] + b[k + 1..];
    assert multiset(b) == multiset(b[..k]) + multiset{b[k]} + multiset(b[k + 1..]);
  }

  /** Reordering does not change a sum. */
  lemma {:induction false} SumPermutation<T>(a: seq<T>, b: seq<T>, f: T -> int)
    requires multiset(a) == multiset(b)
    ensures Sum(a, f) == Sum(b, f)
    decreases |a|
  {
    if |a| == 0 {
      assert |b| == |multiset(b)| == 0;
    } else {
      assert a[0] in multiset(b);
      var k :| 0 <= k < |b| && b[k] == a[0];
      var b' := b[..k] + b[k + 1..];
      SumRemove(b, k, f);
      MultisetRemove(b, k);
      MultisetRemove(a, 0);
      assert a[..0] + a[1..] == a[1..];
      assert multiset(a[1..]) == multiset(b');
      SumPermutation(a[1..], b', f);
      assert Sum(a, f) == f(a[0]) + Sum(a[1..], f);
    }
  }

  lemma {:induction false} SumNonNegative<T>(s: seq<T>, f: T -> int)
    requires forall i :: 0 <= i < |s| ==> f(s[i]) >= 0
    ensures Sum(s, f) >= 0
  {
    if |s| > 0 {
      assert forall i :: 0 <= i < |s| - 1 ==> s[1..][i] == s[i + 1];
      SumNonNegative(s[1..], f);
    }
  }

  lemma {:induction false} SumMonotone<T>(s: seq<T>, f: T -> int, g: T -> int)
    requires forall i :: 0 <= i < |s| ==> f(s[i]) <= g(s[i])
    ensures Sum(s, f) <= Sum(s, g)
  {
    if |s| > 0 {
      assert forall i :: 0 <= i < |s| - 1 ==> s[1..][i] == s[i + 1];
      SumMonotone(s[1..], f, g);
    }
  }

  // ---------------------------------------------------------------------
  // First occurrences (the key order of a Python dict built in a loop)
  // ---------------------------------------------------------------------

  /** `seen` followed by the elements of `xs` not seen before, each once,
      in order of first occurrence. */
  function DedupFrom<T(==)>(seen: seq<T>, xs: seq<T>): seq<T>
    decreases xs
  {
    if |xs| == 0 then seen
    else DedupFrom(if xs[0] in seen then seen else seen + [xs[0]], xs[1..])
  }

  function FirstOccurrences<T(==)>(xs: seq<T>): seq<T> {
    DedupFrom([], xs)
  }

  /** A name repeated three times is listed once. */
  lemma FirstOccurrencesTriple<T>(x: T)
    ensures FirstOccurrences([x, x, x]) == [x]
  {
    var xs := [x, x, x];
    assert xs[1..] == [x, x] && xs[1..][1..] == [x] && xs[1..][1..][1..] == [];
    var empty: seq<T> := [];
    assert empty + [x] == [x];
    assert DedupFrom([x], [x]) == [x];
    assert DedupFrom([x], [x, x]) == [x];
    assert DedupFrom(empty, xs) == DedupFrom([x], [x, x]);
  }

  predicate Distinct<T(==)>(s: seq<T>) {
    forall i, j :: 0 <= i < j < |s| ==> s[i] != s[j]
  }

  lemma {:induction false} DedupFromFacts<T>(seen: seq<T>, xs: seq<T>)
    requires Distinct(seen)
    ensures Distinct(DedupFrom(seen, xs))
    ensures forall i :: 0 <= i < |DedupFrom(seen, xs)| ==>
              DedupFrom(seen, xs)[i] in seen || DedupFrom(seen, xs)[i] in xs
    ensures forall i :: 0 <= i < |seen| ==> seen[i] in DedupFrom(seen, xs)
    ensures forall i :: 0 <= i < |xs| ==> xs[i] in DedupFrom(seen, xs)
    decreases xs
  {
    if |xs| > 0 {
      var next := if xs[0] in seen then seen else seen + [xs[0]];
      DedupFromFacts(next, xs[1..]);
      var r := DedupFrom(seen, xs);
      forall i | 0 <= i < |xs| ensures xs[i] in r {
        if i > 0 {
          assert xs[i] == xs[1..][i - 1];
        } else {
          assert xs[0] in next;
          var k :| 0 <= k < |next| && next[k] == xs[0];
        }
      }
      forall i | 0 <= i < |r| ensures r[i] in seen || r[i] in xs {
        if r[i] !in seen && r[i] !in xs[1..] {
          assert r[i] in next;
        }
      }
    }
  }

  /** The first occurrences are distinct and are exactly the elements. */
  lemma FirstOccurrencesFacts<T>(xs: seq<T>)
    ensures Distinct(FirstOccurrences(xs))
    ensures forall x :: x in FirstOccurrences(xs) <==> x in xs
  {
    DedupFromFacts([], xs);
    var r := FirstOccurrences(xs);
    forall x ensures x in r <==> x in xs {
      if x in r {
        var i :| 0 <= i < |r| && r[i] == x;
      }
      if x in xs {
        var i :| 0 <= i < |xs| && xs[i] == x;
      }
    }
  }

  /** A sequence is duplicate-free exactly when no element occurs twice. */
  lemma {:induction false} DistinctCounts<T>(s: seq<T>)
    ensures Distinct(s) <==> forall x :: multiset(s)[x] <= 1
  {
    if |s| > 0 {
      DistinctCounts(s[1..]);
      assert s == [s[0]] + s[1..];
      assert multiset(s) == multiset{s[0]} + multiset(s[1..]);
      if Distinct(s) {
        assert Distinct(s[1..]);
        assert s[0] !in s[1..];
      } else {
        var i, j :| 0 <= i < j < |s| && s[i] == s[j];
        if i == 0 {
          assert s[1..][j - 1] == s[0];
          assert multiset(s)[s[0]] >= 2;
        } else {
          assert s[1..][i - 1] == s[1..][j - 1];
          assert !Distinct(s[1..]);
          var x :| multiset(s[1..])[x] > 1;
          assert multiset(s)[x] > 1;
        }
      }
    }
  }

  /** A permutation of a duplicate-free sequence is duplicate-free. */
  lemma PermutationKeepsDistinct<T>(a: seq<T>, b: seq<T>)
    requires multiset(a) == multiset(b) && Distinct(a)
    ensures Distinct(b)
  {
    DistinctCounts(a);
    DistinctCounts(b);
  }

  /** A filter of a duplicate-free sequence is duplicate-free. */
  lemma {:induction false} FilterKeepsDistinct<T>(s: seq<T>, p: T -> bool)
    requires Distinct(s)
    ensures Distinct(Filter(s, p))
  {
    if |s| > 0 {
      assert Distinct(s[1..]) by {
        forall i, j | 0 <= i < j < |s| - 1 ensures s[1..][i] != s[1..][j] {
          assert s[1..][i] == s[i + 1] && s[1..][j] == s[j + 1];
        }
      }
      FilterKeepsDistinct(s[1..], p);
      var rest := Filter(s[1..], p);
      assert s[0] !in s[1..];
      assert s[0] !in rest;
    }
  }

  /** A permutation keeps a property that holds of every element. */
  lemma PermutationAll<T>(a: seq<T>, b: seq<T>, p: T -> bool)
    requires multiset(a) == multiset(b)
    requires forall i :: 0 <= i < |a| ==> p(a[i])
    ensures forall i :: 0 <= i < |b| ==> p(b[i])
  {
    forall i | 0 <= i < |b| ensures p(b[i]) {
      assert b[i] in multiset(a);
    }
  }

  /** A permutation keeps a property that holds of some element. */
  lemma PermutationSome<T>(a: seq<T>, b: seq<T>, p: T -> bool)
    requires multiset(a) == multiset(b)
    requires exists i :: 0 <= i < |a| && p(a[i])
    ensures exists i :: 0 <= i < |b| && p(b[i])
  {
    var i :| 0 <= i < |a| && p(a[i]);
    assert a[i] in multiset(b);
    var j :| 0 <= j < |b| && b[j] == a[i];
  }

  /** The index of the first occurrence of `x` in `xs`. */
  function IndexOf<T(==)>(xs: seq<T>, x: T): (k: nat)
    requires x in xs
    ensures k < |xs| && xs[k] == x
    ensures forall j :: 0 <= j < k ==> xs[j] != x
  {
    if xs[0] == x then 0 else 1 + IndexOf(xs[1..], x)
  }

  /** `DedupFrom(seen, xs)` starts with `seen`; what follows is new, comes
      from `xs`, and is in order of first occurrence in `xs`. */
  lemma {:induction false} DedupFromOrder<T>(seen: seq<T>, xs: seq<T>)
    ensures var r := DedupFrom(seen, xs);
            && |seen| <= |r| && r[..|seen|] == seen
            && (forall k :: |seen| <= k < |r| ==> r[k] in xs && r[k] !in seen)
            && (forall i, j :: |seen| <= i < j < |r| ==> IndexOf(xs, r[i]) < IndexOf(xs, r[j]))
    decreases xs
  {
    if |xs| > 0 {
      var next := if xs[0] in seen then seen else seen + [xs[0]];
      DedupFromOrder(next, xs[1..]);
      var r := DedupFrom(seen, xs);
      assert r == DedupFrom(next, xs[1..]);
      assert r[..|seen|] == seen by {
        assert r[..|next|][..|seen|] == seen;
      }
      forall k | |next| <= k < |r|
        ensures r[k] != xs[0] && IndexOf(xs, r[k]) == 1 + IndexOf(xs[1..], r[k])
      {
        assert xs[0] in next;
      }
      if xs[0] !in seen {
        assert r[|seen|] == next[|seen|] == xs[0];
      }
    }
  }

  /** First occurrences come in order of their first appearance. */
  lemma FirstOccurrencesOrdered<T>(xs: seq<T>)
    ensures var r := FirstOccurrences(xs);
            && (forall k :: 0 <= k < |r| ==> r[k] in xs)
            && forall i, j :: 0 <= i < j < |r| ==> IndexOf(xs, r[i]) < IndexOf(xs, r[j])
  {
    DedupFromOrder([], xs);
  }

  /** A relation between earlier and later elements survives filtering. */
  lemma {:induction false} FilterKeepsOrder<T>(s: seq<T>, p: T -> bool, before: (T, T) -> bool)
    requires forall i, j :: 0 <= i < j < |s| ==> before(s[i], s[j])
    ensures forall i, j :: 0 <= i < j < |Filter(s, p)| ==> before(Filter(s, p)[i], Filter(s, p)[j])
  {
    if |s| > 0 {
      FilterKeepsOrder(s[1..], p, before);
      var rest := Filter(s[1..], p);
      if p(s[0]) {
        var r := Filter(s, p);
        assert r == [s[0]] + rest;
        forall j | 0 <= j < |rest| ensures before(s[0], rest[j]) {
          var k :| 0 <= k < |s[1..]| && s[1..][k] == rest[j];
          assert s[k + 1] == rest[j];
        }
        forall i, j | 0 <= i < j < |r| ensures before(r[i], r[j]) {
          assert r[j] == rest[j - 1];
          if i > 0 {
            assert r[i] == rest[i - 1];
            assert before(rest[i - 1], rest[j - 1]);
          } else {
            assert r[i] == s[0];
          }
        }
      } else {
        assert Filter(s, p) == rest;
      }
    }
  }
}
