/** Python's `list.sort(key=...)` on real keys: a stable ascending sort. The
    model is an insertion sort; its specification is "sorted, a permutation,
    and the elements of every key keep their input order". */
module Sorting {
  import opened Wrappers

  ghost predicate Sorted<T>(s: seq<T>, key: T -> real) {
    forall i, j :: 0 <= i < j < |s| ==> key(s[i]) <= key(s[j])
  }

  /** The head and tail of a concatenation whose first part is not empty. */
  lemma ConcatHead<T>(xs: seq<T>, ys: seq<T>)
    requires |xs| > 0
    ensures (xs + ys)[0] == xs[0] && (xs + ys)[1..] == xs[1..] + ys
  {
  }

  /** A concatenation starts with its first part, followed by the head of
      its second. */
  lemma ConcatPrefix<T>(p: seq<T>, q: seq<T>)
    ensures |p| <= |p + q| && (p + q)[..|p|] == p
    ensures |q| > 0 ==> |p| < |p + q| && (p + q)[|p|] == q[0]
  {
  }

  /** A non-empty prefix is its first element followed by the matching
      prefix of the tail. */
  lemma PrefixTail<T>(s: seq<T>, j: nat)
    requires 0 < j <= |s|
    ensures s[..j][0] == s[0] && s[..j][1..] == s[1..][..j - 1]
  {
  }

  lemma ConsConcat<T>(a: T, p: seq<T>, q: seq<T>)
    ensures [a] + (p + q) == ([a] + p) + q
  {
  }

  /** No two positions of `s` share an `f`-value. */
  ghost predicate DistinctKeys<T, K>(s: seq<T>, f: T -> K) {
    forall i, j :: 0 <= i < j < |s| ==> f(s[i]) != f(s[j])
  }

  /** A new key in front keeps the keys distinct. */
  lemma ConsDistinctKeys<T, K>(h: T, t: seq<T>, f: T -> K)
    requires DistinctKeys(t, f) && forall x :: x in t ==> f(x) != f(h)
    ensures DistinctKeys([h] + t, f)
  {
    var r := [h] + t;
    forall i, j | 0 <= i < j < |r| ensures f(r[i]) != f(r[j]) {
      assert r[j] == t[j - 1];
      if i > 0 {
        assert r[i] == t[i - 1];
      }
    }
  }

  /** With distinct keys, no element occurs twice. */
  lemma {:induction false} DistinctCountsOne<T, K>(s: seq<T>, f: T -> K, x: T)
    requires DistinctKeys(s, f)
    ensures multiset(s)[x] <= 1
    decreases |s|
  {
    if |s| > 0 {
      var t := s[1..];
      assert s == [s[0]] + t;
      assert DistinctKeys(t, f) by {
        forall i, j | 0 <= i < j < |t| ensures f(t[i]) != f(t[j]) {
          assert t[i] == s[i + 1] && t[j] == s[j + 1];
        }
      }
      DistinctCountsOne(t, f, x);
      if x == s[0] {
        forall m | 0 <= m < |t| ensures t[m] != x {
          assert t[m] == s[m + 1];
        }
      }
    }
  }

  /** An element at two positions counts at least twice. */
  lemma RepeatCounts<T>(s: seq<T>, i: nat, j: nat)
    requires i < j < |s|
    ensures multiset(s)[s[i]] >= 1 + (if s[i] == s[j] then 1 else 0)
  {
    assert s == s[..j] + s[j..];
    assert s[i] in s[..j];
    assert s[j..][0] == s[j];
  }

  /** A permutation of a sequence with distinct keys has distinct keys. */
  lemma PermutationKeepsDistinctKeys<T, K>(a: seq<T>, b: seq<T>, f: T -> K)
    requires multiset(a) == multiset(b) && DistinctKeys(a, f)
    ensures DistinctKeys(b, f)
  {
    forall i, j | 0 <= i < j < |b| ensures f(b[i]) != f(b[j]) {
      DistinctCountsOne(a, f, b[i]);
      RepeatCounts(b, i, j);
      assert b[i] in multiset(a) && b[j] in multiset(a);
      var i' :| 0 <= i' < |a| && a[i'] == b[i];
      var j' :| 0 <= j' < |a| && a[j'] == b[j];
      if i' < j' {
        assert f(a[i']) != f(a[j']);
      } else {
        assert f(a[j']) != f(a[i']);
      }
    }
  }

  /** The elements of `s` whose key is `k`, in input order. */
  function WithKey<T>(s: seq<T>, key: T -> real, k: real): (r: seq<T>)
    ensures |r| <= |s|
    decreases |s|
  {
    if |s| == 0 then []
    else if key(s[0]) == k then [s[0]] + WithKey(s[1..], key, k)
    else WithKey(s[1..], key, k)
  }

  /** When every element has key `k`, filtering by `k` keeps the whole list. */
  lemma {:induction false} WithKeyAll<T>(s: seq<T>, key: T -> real, k: real)
    requires forall i :: 0 <= i < |s| ==> key(s[i]) == k
    ensures WithKey(s, key, k) == s
    decreases |s|
  {
    if |s| > 0 {
      WithKeyAll(s[1..], key, k);
      assert s == [s[0]] + s[1..];
    }
  }

  /** Sorting keeps the elements, so a key shared by all of them is shared
      by all of the result's. */
  lemma SortByKeepsKey<T>(s: seq<T>, key: T -> real, k: real)
    requires forall i :: 0 <= i < |s| ==> key(s[i]) == k
    ensures forall i :: 0 <= i < |SortBy(s, key)| ==> key(SortBy(s, key)[i]) == k
  {
    var r := SortBy(s, key);
    forall i | 0 <= i < |r| ensures key(r[i]) == k {
      assert r[i] in multiset(r);
      assert r[i] in multiset(s);
      var j :| 0 <= j < |s| && s[j] == r[i];
    }
  }

  /** Sorting by a key all elements share changes nothing. */
  lemma SortByConstant<T>(s: seq<T>, key: T -> real, k: real)
    requires forall i :: 0 <= i < |s| ==> key(s[i]) == k
    ensures SortBy(s, key) == s
  {
    SortByKeepsKey(s, key, k);
    SortByStable(s, key, k);
    WithKeyAll(s, key, k);
    WithKeyAll(SortBy(s, key), key, k);
  }

  /** Places `x` in front of the first element whose key is not smaller. */
  function Insert<T>(x: T, s: seq<T>, key: T -> real): (r: seq<T>)
    ensures |r| == |s| + 1
    ensures multiset(r) == multiset(s) + multiset{x}
    decreases |s|
  {
    if |s| == 0 || key(x) <= key(s[0]) then [x] + s
    else
      assert s == [s[0]] + s[1..];
      [s[0]] + Insert(x, s[1..], key)
  }

  function SortBy<T>(s: seq<T>, key: T -> real): (r: seq<T>)
    ensures |r| == |s|
    ensures multiset(r) == multiset(s)
    decreases |s|
  {
    if |s| == 0 then []
    else
      assert s == [s[0]] + s[1..];
      Insert(s[0], SortBy(s[1..], key), key)
  }

  lemma {:induction false} InsertSorted<T>(x: T, s: seq<T>, key: T -> real)
    requires Sorted(s, key)
    ensures Sorted(Insert(x, s, key), key)
    decreases |s|
  {
    if |s| == 0 || key(x) <= key(s[0]) {
      SortedCons(x, s, key);
    } else {
      var t := Insert(x, s[1..], key);
      SortedTail(s, key);
      InsertSorted(x, s[1..], key);
      InsertAbove(x, s, key);
      SortedCons(s[0], t, key);
    }
  }

  /** Dropping the head keeps a sequence sorted, and the head is below the rest. */
  lemma SortedTail<T>(s: seq<T>, key: T -> real)
    requires Sorted(s, key) && |s| > 0
    ensures Sorted(s[1..], key)
    ensures forall e :: e in s[1..] ==> key(s[0]) <= key(e)
  {
    forall e | e in s[1..] ensures key(s[0]) <= key(e) {
      var k :| 0 <= k < |s[1..]| && s[1..][k] == e;
      assert s[k + 1] == e;
    }
  }

  /** Inserting `x` behind a head it exceeds leaves everything above the head. */
  lemma InsertAbove<T>(x: T, s: seq<T>, key: T -> real)
    requires |s| > 0 && key(x) > key(s[0])
    requires forall e :: e in s[1..] ==> key(s[0]) <= key(e)
    ensures forall e :: e in Insert(x, s[1..], key) ==> key(s[0]) <= key(e)
  {
    var t := Insert(x, s[1..], key);
    forall e | e in t ensures key(s[0]) <= key(e) {
      assert e in multiset(t);
      if e != x {
        assert e in multiset(s[1..]);
      }
    }
  }

  /** A head no larger than anything in a sorted tail gives a sorted sequence. */
  lemma SortedCons<T>(h: T, t: seq<T>, key: T -> real)
    requires Sorted(t, key)
    requires forall e :: e in t ==> key(h) <= key(e)
    ensures Sorted([h] + t, key)
  {
    var r := [h] + t;
    forall i, j | 0 <= i < j < |r| ensures key(r[i]) <= key(r[j]) {
      assert r[j] == t[j - 1] && t[j - 1] in t;
      if i > 0 {
        assert r[i] == t[i - 1];
      }
    }
  }

  /** Sorting keeps the members. */
  lemma SortByMembers<T>(s: seq<T>, key: T -> real)
    ensures forall a :: a in SortBy(s, key) <==> a in s
  {
    assert forall a :: a in SortBy(s, key) <==> a in multiset(SortBy(s, key));
  }

  /** The result is in ascending key order. */
  lemma {:induction false} SortBySorted<T>(s: seq<T>, key: T -> real)
    ensures Sorted(SortBy(s, key), key)
    decreases |s|
  {
    if |s| > 0 {
      SortBySorted(s[1..], key);
      InsertSorted(s[0], SortBy(s[1..], key), key);
    }
  }

  lemma {:induction false} InsertWithKey<T>(x: T, s: seq<T>, key: T -> real, k: real)
    ensures WithKey(Insert(x, s, key), key, k)
         == if key(x) == k then [x] + WithKey(s, key, k) else WithKey(s, key, k)
    decreases |s|
  {
    if |s| > 0 && key(x) > key(s[0]) {
      InsertWithKey(x, s[1..], key, k);
      assert Insert(x, s, key)[1..] == Insert(x, s[1..], key);
    } else {
      assert ([x] + s)[1..] == s;
    }
  }

  /** Stability: for every key value, the elements carrying it come out in the
      order they went in. */
  lemma {:induction false} SortByStable<T>(s: seq<T>, key: T -> real, k: real)
    ensures WithKey(SortBy(s, key), key, k) == WithKey(s, key, k)
    decreases |s|
  {
    if |s| > 0 {
      SortByStable(s[1..], key, k);
      InsertWithKey(s[0], SortBy(s[1..], key), key, k);
    }
  }

  /** The first element after sorting is the FIRST element of the input that
      has the smallest key (so `sorted(...)[0]` breaks ties by input order). */
  lemma {:induction false} SortByHead<T>(s: seq<T>, key: T -> real) returns (i: nat)
    requires |s| > 0
    ensures i < |s| && SortBy(s, key)[0] == s[i]
    ensures forall j :: 0 <= j < |s| ==> key(s[i]) <= key(s[j])
    ensures forall j :: 0 <= j < i ==> key(s[i]) < key(s[j])
    decreases |s|
  {
    if |s| == 1 {
      i := 0;
      assert SortBy(s, key) == Insert(s[0], [], key);
    } else {
      var t := SortBy(s[1..], key);
      var i' := SortByHead(s[1..], key);
      assert SortBy(s, key) == Insert(s[0], t, key);
      InsertHead(s[0], t, key);
      if key(s[0]) <= key(t[0]) {
        i := 0;
        MinKeepsHead(s, key, i');
      } else {
        i := i' + 1;
        MinSkipsHead(s, key, i');
      }
    }
  }

  /** A head no larger than the tail's minimum is the minimum. */
  lemma MinKeepsHead<T>(s: seq<T>, key: T -> real, m: nat)
    requires 0 < |s| && m < |s| - 1
    requires forall j :: 0 <= j < |s| - 1 ==> key(s[1..][m]) <= key(s[1..][j])
    requires key(s[0]) <= key(s[1..][m])
    ensures forall j :: 0 <= j < |s| ==> key(s[0]) <= key(s[j])
  {
    forall j | 0 < j < |s| ensures key(s[0]) <= key(s[j]) {
      assert s[j] == s[1..][j - 1];
    }
  }

  /** A head larger than the tail's first minimum leaves that minimum first. */
  lemma MinSkipsHead<T>(s: seq<T>, key: T -> real, m: nat)
    requires 0 < |s| && m < |s| - 1
    requires forall j :: 0 <= j < |s| - 1 ==> key(s[1..][m]) <= key(s[1..][j])
    requires forall j :: 0 <= j < m ==> key(s[1..][m]) < key(s[1..][j])
    requires key(s[0]) > key(s[1..][m])
    ensures s[m + 1] == s[1..][m]
    ensures forall j :: 0 <= j < |s| ==> key(s[m + 1]) <= key(s[j])
    ensures forall j :: 0 <= j < m + 1 ==> key(s[m + 1]) < key(s[j])
  {
    forall j | 0 < j < |s| ensures key(s[m + 1]) <= key(s[j]) {
      assert s[j] == s[1..][j - 1];
    }
    forall j | 0 < j < m + 1 ensures key(s[m + 1]) < key(s[j]) {
      assert s[j] == s[1..][j - 1];
    }
  }

  /** The first element of `s` that satisfies `p`, scanning from the front. */
  function FirstWhere<T>(s: seq<T>, p: T -> bool): (r: Option<T>)
    ensures r.None? <==> forall i :: 0 <= i < |s| ==> !p(s[i])
    ensures r.Some? ==> r.value in s && p(r.value)
    decreases |s|
  {
    if |s| == 0 then None
    else if p(s[0]) then Some(s[0])
    else
      assert forall i :: 0 < i < |s| ==> s[i] == s[1..][i - 1];
      FirstWhere(s[1..], p)
  }

  /** Position `j` holds an element satisfying `p` whose key is the least
      among those elements, and strictly below the keys of the earlier ones. */
  ghost predicate LeastAt<T>(s: seq<T>, key: T -> real, p: T -> bool, j: int) {
    0 <= j < |s| && p(s[j])
    && (forall m :: 0 <= m < |s| && p(s[m]) ==> key(s[j]) <= key(s[m]))
    && (forall m :: 0 <= m < j && p(s[m]) ==> key(s[j]) < key(s[m]))
  }

  /** Among the elements of `s` that satisfy `p`, the first one with the
      least key. */
  function FirstLeastWhere<T>(s: seq<T>, key: T -> real, p: T -> bool): (r: Option<T>)
    ensures r.None? <==> forall i :: 0 <= i < |s| ==> !p(s[i])
    ensures r.Some? ==> exists j :: LeastAt(s, key, p, j) && s[j] == r.value
    decreases |s|
  {
    if |s| == 0 then None
    else
      var m := FirstLeastWhere(s[1..], key, p);
      LeastStep(s, key, p, m);
      if p(s[0]) && (m.None? || key(s[0]) <= key(m.value)) then Some(s[0]) else m
  }

  /** One step of `FirstLeastWhere`: the head wins when it satisfies `p`
      and no later candidate has a smaller key; otherwise the tail's answer
      stands. */
  lemma LeastStep<T>(s: seq<T>, key: T -> real, p: T -> bool, m: Option<T>)
    requires |s| > 0
    requires m.None? <==> forall i :: 0 <= i < |s| - 1 ==> !p(s[1..][i])
    requires m.Some? ==> exists j :: LeastAt(s[1..], key, p, j) && s[1..][j] == m.value
    ensures p(s[0]) && (m.None? || key(s[0]) <= key(m.value)) ==> LeastAt(s, key, p, 0)
    ensures !(p(s[0]) && (m.None? || key(s[0]) <= key(m.value))) ==>
              (m.None? <==> forall i :: 0 <= i < |s| ==> !p(s[i]))
              && (m.Some? ==> exists j :: LeastAt(s, key, p, j) && s[j] == m.value)
  {
    assert forall i :: 0 < i < |s| ==> s[i] == s[1..][i - 1];
    if m.Some? {
      var j :| LeastAt(s[1..], key, p, j) && s[1..][j] == m.value;
      forall k | 0 < k < |s| && p(s[k]) ensures key(m.value) <= key(s[k]) {
        assert s[k] == s[1..][k - 1];
      }
      if !(p(s[0]) && key(s[0]) <= key(m.value)) {
        forall k | 0 < k < j + 1 && p(s[k]) ensures key(m.value) < key(s[k]) {
          assert s[k] == s[1..][k - 1];
        }
        assert LeastAt(s, key, p, j + 1);
      }
    }
  }

  /** Inserting `x` into a sorted sequence: `x` becomes the first element
      satisfying `p` exactly when it satisfies `p` and the first such element
      of `s` has no smaller key. */
  lemma {:induction false} InsertFirstWhere<T>(x: T, s: seq<T>, key: T -> real, p: T -> bool)
    requires Sorted(s, key)
    ensures var f := FirstWhere(s, p);
            FirstWhere(Insert(x, s, key), p) == if p(x) && (f.None? || key(x) <= key(f.value)) then Some(x) else f
    decreases |s|
  {
    if |s| == 0 || key(x) <= key(s[0]) {
      assert ([x] + s)[1..] == s;
      var f := FirstWhere(s, p);
      if f.Some? {
        var k :| 0 <= k < |s| && s[k] == f.value;
        assert key(s[0]) <= key(s[k]);
      }
    } else {
      SortedTail(s, key);
      InsertFirstWhere(x, s[1..], key, p);
      assert ([s[0]] + Insert(x, s[1..], key))[1..] == Insert(x, s[1..], key);
    }
  }

  /** Stable sorting, then taking the first element that satisfies `p`,
      gives the first of the least-keyed elements that satisfy it: ties go to
      the earlier input element. */
  lemma {:induction false} SortByFirstWhere<T>(s: seq<T>, key: T -> real, p: T -> bool)
    ensures FirstWhere(SortBy(s, key), p) == FirstLeastWhere(s, key, p)
    decreases |s|
  {
    if |s| > 0 {
      SortByFirstWhere(s[1..], key, p);
      SortBySorted(s[1..], key);
      InsertFirstWhere(s[0], SortBy(s[1..], key), key, p);
    }
  }

  /** The head of an insertion. */
  lemma InsertHead<T>(x: T, s: seq<T>, key: T -> real)
    ensures Insert(x, s, key)[0] == if |s| == 0 || key(x) <= key(s[0]) then x else s[0]
  {
  }

  /** Python's `s[:n]` for an integer `n` (a negative `n` drops from the end). */
  function Prefix<T>(s: seq<T>, n: int): (r: seq<T>)
    ensures |r| <= |s|
    ensures n >= 0 ==> |r| == if n < |s| then n else |s|
    ensures n < 0 ==> |r| == if -n < |s| then |s| + n else 0
    ensures r == s[..|r|]
  {
    if n >= 0 then (if n < |s| then s[..n] else s)
    else if -n < |s| then s[..|s| + n] else []
  }

  /** Cutting a sorted sequence keeps the smallest keys: everything dropped
      has a key at least that of everything kept. */
  lemma PrefixKeepsSmallest<T>(s: seq<T>, key: T -> real, n: int)
    requires Sorted(s, key)
    ensures multiset(Prefix(s, n)) <= multiset(s) && forall a :: a in Prefix(s, n) ==> a in s
    ensures Sorted(Prefix(s, n), key)
    ensures forall a, b :: a in Prefix(s, n) && b in s && b !in Prefix(s, n) ==> key(a) <= key(b)
  {
    var p := Prefix(s, n);
    assert s == p + s[|p|..];
    assert multiset(s) == multiset(p) + multiset(s[|p|..]);
    forall a, b | a in p && b in s && b !in p ensures key(a) <= key(b) {
      var i :| 0 <= i < |p| && p[i] == a;
      var j :| 0 <= j < |s| && s[j] == b;
      assert |p| <= j;
      assert s[i] == a;
    }
  }

  /** Exchanges the elements at `i` and `j`. */
  function Swap<T>(s: seq<T>, i: nat, j: nat): (r: seq<T>)
    requires i < |s| && j < |s|
    ensures |r| == |s| && multiset(r) == multiset(s)
    ensures r[i] == s[j] && r[j] == s[i]
    ensures forall k :: 0 <= k < |s| && k != i && k != j ==> r[k] == s[k]
  {
    s[i := s[j]][j := s[i]]
  }

  /** `random.shuffle`: Fisher-Yates from the last position down to 1, the
      element at `i` swapped with the one at `randbelow(i + 1)`; `draws[i]`
      supplies that choice (taken modulo `i + 1`). */
  function Shuffle<T>(s: seq<T>, draws: seq<nat>): (r: seq<T>)
    ensures |r| == |s| && multiset(r) == multiset(s)
  {
    if |s| < 2 then s else ShuffleDown(s, draws, |s| - 1)
  }

  function ShuffleDown<T>(s: seq<T>, draws: seq<nat>, i: nat): (r: seq<T>)
    requires i < |s|
    ensures |r| == |s| && multiset(r) == multiset(s)
    decreases i
  {
    if i == 0 then s
    else
      var j := if i < |draws| then draws[i] % (i + 1) else i;
      ShuffleDown(Swap(s, i, j), draws, i - 1)
  }

  /** A scan that starts from minus infinity and replaces its best on a
      strictly greater value: the position of the first maximum. */
  function FirstMax(xs: seq<real>): (r: Option<nat>)
    ensures r.None? <==> |xs| == 0
    ensures r.Some? ==> r.value < |xs|
                        && (forall j :: 0 <= j < |xs| ==> xs[j] <= xs[r.value])
                        && (forall j :: 0 <= j < r.value ==> xs[j] < xs[r.value])
  {
    if |xs| == 0 then None
    else if |xs| == 1 then Some(0)
    else
      var init := xs[..|xs| - 1];
      var b := FirstMax(init).value;
      assert forall j :: 0 <= j < |init| ==> init[j] == xs[j];
      if xs[|xs| - 1] > xs[b] then Some(|xs| - 1) else Some(b)
  }

  /** A value equal to the first maximum sits at or after it. */
  lemma FirstMaxEarliest(xs: seq<real>, j: nat)
    requires j < |xs|
    ensures xs[j] == xs[FirstMax(xs).value] ==> FirstMax(xs).value <= j
  {
  }

  /** The mirror scan from plus infinity with a strict `<`: the position of
      the first minimum. */
  function FirstMin(xs: seq<real>): (r: Option<nat>)
    ensures r.None? <==> |xs| == 0
    ensures r.Some? ==> r.value < |xs|
                        && (forall j :: 0 <= j < |xs| ==> xs[r.value] <= xs[j])
                        && (forall j :: 0 <= j < r.value ==> xs[r.value] < xs[j])
  {
    if |xs| == 0 then None
    else if |xs| == 1 then Some(0)
    else
      var init := xs[..|xs| - 1];
      var b := FirstMin(init).value;
      assert forall j :: 0 <= j < |init| ==> init[j] == xs[j];
      if xs[|xs| - 1] < xs[b] then Some(|xs| - 1) else Some(b)
  }
}
