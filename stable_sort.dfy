/** Python's stable `sorted(xs, key=k)` / `xs.sort(key=k, reverse=...)` on a
    real-valued key, and the list slice `xs[:n]` that takes the top entries.
    A stable sort is pinned down by three facts proved here: the result is
    ordered by key, it is a permutation of the input, and the entries that
    share one key value appear in their input order. */
module StableSort {

  ghost predicate NonIncreasing<T>(s: seq<T>, key: T -> real) {
    forall i, j :: 0 <= i < j < |s| ==> key(s[i]) >= key(s[j])
  }

  ghost predicate NonDecreasing<T>(s: seq<T>, key: T -> real) {
    forall i, j :: 0 <= i < j < |s| ==> key(s[i]) <= key(s[j])
  }

  /** The entries of `s` whose key is `v`, in the order of `s`. */
  function WithKey<T>(s: seq<T>, key: T -> real, v: real): seq<T> {
    if s == [] then []
    else (if key(s[0]) == v then [s[0]] else []) + WithKey(s[1..], key, v)
  }

  lemma {:induction false} WithKeyConcat<T>(a: seq<T>, b: seq<T>, key: T -> real, v: real)
    ensures WithKey(a + b, key, v) == WithKey(a, key, v) + WithKey(b, key, v)
  {
    if a == [] {
      assert a + b == b;
    } else {
      var head := if key(a[0]) == v then [a[0]] else [];
      assert (a + b)[0] == a[0];
      assert (a + b)[1..] == a[1..] + b;
      assert WithKey(a + b, key, v) == head + WithKey(a[1..] + b, key, v);
      assert WithKey(a, key, v) == head + WithKey(a[1..], key, v);
      WithKeyConcat(a[1..], b, key, v);
      assert head + (WithKey(a[1..], key, v) + WithKey(b, key, v))
          == (head + WithKey(a[1..], key, v)) + WithKey(b, key, v);
    }
  }

  lemma {:induction false} WithKeyNone<T>(s: seq<T>, key: T -> real, v: real)
    requires forall i :: 0 <= i < |s| ==> key(s[i]) < v
    ensures WithKey(s, key, v) == []
  {
    if s != [] {
      WithKeyNone(s[1..], key, v);
    }
  }

  /** Insert `x` after every entry whose key is at least `x`'s key. */
  function InsertDesc<T(==)>(x: T, s: seq<T>, key: T -> real): (t: seq<T>)
    requires NonIncreasing(s, key)
    ensures NonIncreasing(t, key)
    ensures multiset(t) == multiset(s) + multiset{x}
    ensures |t| == |s| + 1
    ensures t[0] == x || (s != [] && t[0] == s[0])
  {
    if s == [] || key(s[0]) < key(x) then
      ConsNonIncreasing(x, s, key);
      [x] + s
    else
      var rest := InsertDesc(x, s[1..], key);
      assert s == [s[0]] + s[1..];
      assert key(s[0]) >= key(rest[0]);
      ConsNonIncreasing(s[0], rest, key);
      assert multiset([s[0]] + rest) == multiset{s[0]} + multiset(rest);
      [s[0]] + rest
  }

  /** An entry whose key is at least the head's can go in front. */
  lemma ConsNonIncreasing<T>(x: T, s: seq<T>, key: T -> real)
    requires NonIncreasing(s, key)
    requires s != [] ==> key(x) >= key(s[0])
    ensures NonIncreasing([x] + s, key)
  {
    var t := [x] + s;
    forall i, j | 0 <= i < j < |t| ensures key(t[i]) >= key(t[j]) {
      if i == 0 && j > 1 {
        assert key(s[0]) >= key(s[j - 1]);
      }
    }
  }

  /** Inserting `x` puts it after every entry with the same key. */
  lemma {:induction false} InsertDescStable<T>(x: T, s: seq<T>, key: T -> real, v: real)
    requires NonIncreasing(s, key)
    ensures WithKey(InsertDesc(x, s, key), key, v) == WithKey(s, key, v) + (if key(x) == v then [x] else [])
  {
    var t := InsertDesc(x, s, key);
    if s == [] || key(s[0]) < key(x) {
      assert t == [x] + s;
      assert t[1..] == s;
      assert WithKey(t, key, v) == (if key(x) == v then [x] else []) + WithKey(s, key, v);
      if key(x) == v {
        assert forall i :: 0 <= i < |s| ==> key(s[i]) <= key(s[0]);
        WithKeyNone(s, key, v);
      }
    } else {
      var rest := InsertDesc(x, s[1..], key);
      assert t == [s[0]] + rest;
      assert t[1..] == rest;
      InsertDescStable(x, s[1..], key, v);
      assert WithKey(t, key, v) == (if key(s[0]) == v then [s[0]] else []) + WithKey(rest, key, v);
    }
  }

  /** `sorted(s, key=key, reverse=True)`: descending and a permutation. */
  function SortDesc<T(==)>(s: seq<T>, key: T -> real): (t: seq<T>)
    ensures NonIncreasing(t, key)
    ensures multiset(t) == multiset(s)
    ensures |t| == |s|
  {
    if s == [] then []
    else
      assert s == s[..|s| - 1] + [s[|s| - 1]];
      InsertDesc(s[|s| - 1], SortDesc(s[..|s| - 1], key), key)
  }

  /** The descending sort is stable: entries sharing a key keep their order. */
  lemma {:induction false} SortDescStable<T>(s: seq<T>, key: T -> real, v: real)
    ensures WithKey(SortDesc(s, key), key, v) == WithKey(s, key, v)
  {
    if s != [] {
      var init, last := s[..|s| - 1], s[|s| - 1];
      var tail := if key(last) == v then [last] else [];
      assert s == init + [last];
      assert SortDesc(s, key) == InsertDesc(last, SortDesc(init, key), key);
      SortDescStable(init, key, v);
      InsertDescStable(last, SortDesc(init, key), key, v);
      assert WithKey(SortDesc(s, key), key, v) == WithKey(init, key, v) + tail;
      WithKeyConcat(init, [last], key, v);
      assert [last][1..] == [];
      assert WithKey([last], key, v) == tail + WithKey([last][1..], key, v);
      assert WithKey(s, key, v) == WithKey(init, key, v) + tail;
    }
  }

  /** `sorted(s, key=key)`: ascending and a permutation. Python's ascending
      and descending sorts order ties alike, so ascending on `key` is
      descending on the negated key. */
  function SortAsc<T(==)>(s: seq<T>, key: T -> real): (t: seq<T>)
    ensures NonDecreasing(t, key)
    ensures multiset(t) == multiset(s)
    ensures |t| == |s|
  {
    SortDesc(s, (x: T) => -key(x))
  }

  /** The ascending sort is stable as well. */
  lemma SortAscStable<T>(s: seq<T>, key: T -> real, v: real)
    ensures WithKey(SortAsc(s, key), key, v) == WithKey(s, key, v)
  {
    var neg := (x: T) => -key(x);
    SortDescStable(s, neg, -v);
    WithKeyNegated(SortDesc(s, neg), key, v);
    WithKeyNegated(s, key, v);
  }

  lemma {:induction false} WithKeyNegated<T>(s: seq<T>, key: T -> real, v: real)
    ensures WithKey(s, (x: T) => -key(x), -v) == WithKey(s, key, v)
  {
    if s != [] {
      WithKeyNegated(s[1..], key, v);
    }
  }

  /** Python's `s[:n]`: a negative `n` counts from the end. */
  function PyTake<T>(s: seq<T>, n: int): (r: seq<T>)
    ensures |r| == if n >= 0 then (if n <= |s| then n else |s|)
                   else (if |s| + n >= 0 then |s| + n else 0)
    ensures r == s[..|r|]
  {
    if n >= 0 then (if n <= |s| then s[..n] else s)
    else (if |s| + n >= 0 then s[..|s| + n] else [])
  }

  /** The first `n` entries of a descending sort are the `n` largest keys:
      each kept entry's key is at least that of every dropped entry. */
  lemma TopDescDominates<T>(s: seq<T>, key: T -> real, n: int)
    ensures var t := SortDesc(s, key);
            var top := PyTake(t, n);
            forall i, j :: 0 <= i < |top| <= j < |t| ==> key(top[i]) >= key(t[j])
  {
  }
}
