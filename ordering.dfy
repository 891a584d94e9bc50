/** Python's ordering of `str` values (code point by code point, a proper
    prefix first) and the stable sort that `sorted(..., key=...)` and
    `list.sort(key=...)` perform, as an insertion sort on string keys. */
module Ordering {

  /** `a < b` on Python strings. */
  predicate Less(a: string, b: string)
    decreases |a|
  {
    if |a| == 0 then |b| > 0
    else if |b| == 0 then false
    else if a[0] != b[0] then a[0] < b[0]
    else Less(a[1..], b[1..])
  }

  /** `a <= b` on Python strings. */
  predicate LessEq(a: string, b: string) {
    a == b || Less(a, b)
  }

  lemma {:induction false} LessIrreflexive(a: string)
    ensures !Less(a, a)
    decreases |a|
  {
    if |a| > 0 {
      LessIrreflexive(a[1..]);
    }
  }

  lemma {:induction false} LessTransitive(a: string, b: string, c: string)
    requires Less(a, b) && Less(b, c)
    ensures Less(a, c)
    decreases |a|
  {
    if |a| > 0 && a[0] == b[0] && b[0] == c[0] {
      LessTransitive(a[1..], b[1..], c[1..]);
    }
  }

  /** Any two distinct strings are ordered one way or the other. */
  lemma {:induction false} LessTotal(a: string, b: string)
    ensures a == b || Less(a, b) || Less(b, a)
    decreases |a|
  {
    if |a| > 0 && |b| > 0 && a[0] == b[0] {
      LessTotal(a[1..], b[1..]);
      if a[1..] == b[1..] {
        assert a == [a[0]] + a[1..] && b == [b[0]] + b[1..];
      }
    }
  }

  lemma LessAsymmetric(a: string, b: string)
    requires Less(a, b)
    ensures !Less(b, a)
  {
    if Less(b, a) {
      LessTransitive(a, b, a);
      LessIrreflexive(a);
    }
  }

  lemma LessEqTotal(a: string, b: string)
    ensures LessEq(a, b) || LessEq(b, a)
  {
    LessTotal(a, b);
  }

  lemma LessEqTransitive(a: string, b: string, c: string)
    requires LessEq(a, b) && LessEq(b, c)
    ensures LessEq(a, c)
  {
    if a != b && b != c {
      LessTransitive(a, b, c);
    }
  }

  /** `s` is ordered by `key`, as `list.sort(key=key)` leaves it. */
  predicate SortedByKey<T>(s: seq<T>, key: T -> string) {
    forall i, j :: 0 <= i < j < |s| ==> LessEq(key(s[i]), key(s[j]))
  }

  /** The elements of `s` whose key is `k`, in their order in `s`. */
  function WithKey<T>(s: seq<T>, key: T -> string, k: string): (r: seq<T>)
    ensures |r| <= |s|
    ensures forall i :: 0 <= i < |r| ==> key(r[i]) == k
  {
    if s == [] then [] else Keyed(s[0], key, k) + WithKey(s[1..], key, k)
  }

  /** `[y]` when the key of `y` is `k`, otherwise nothing. */
  function Keyed<T>(y: T, key: T -> string, k: string): seq<T> {
    if key(y) == k then [y] else []
  }

  /** Inserts `x` after every element of `s` whose key is not above its own. */
  function InsertByKey<T>(x: T, s: seq<T>, key: T -> string): (r: seq<T>)
    ensures |r| == |s| + 1
  {
    if s == [] then [x]
    else if LessEq(key(s[0]), key(x)) then [s[0]] + InsertByKey(x, s[1..], key)
    else [x] + s
  }

  /** Python's `sorted(xs, key=key)`, which is stable. */
  function SortByKey<T>(xs: seq<T>, key: T -> string): (r: seq<T>)
    ensures |r| == |xs|
  {
    if xs == [] then [] else InsertByKey(xs[|xs| - 1], SortByKey(xs[..|xs| - 1], key), key)
  }

  /** Every key in `s` is at least `lo`. */
  predicate AllAbove<T>(s: seq<T>, key: T -> string, lo: string) {
    forall i :: 0 <= i < |s| ==> LessEq(lo, key(s[i]))
  }

  lemma {:induction false} InsertByKeyAbove<T>(x: T, s: seq<T>, key: T -> string, lo: string)
    requires AllAbove(s, key, lo) && LessEq(lo, key(x))
    ensures AllAbove(InsertByKey(x, s, key), key, lo)
    decreases |s|
  {
    if s != [] && LessEq(key(s[0]), key(x)) {
      InsertByKeyAbove(x, s[1..], key, lo);
    }
  }

  lemma {:induction false} InsertByKeyMultiset<T>(x: T, s: seq<T>, key: T -> string)
    ensures multiset(InsertByKey(x, s, key)) == multiset(s) + multiset{x}
    decreases |s|
  {
    if s != [] && LessEq(key(s[0]), key(x)) {
      InsertByKeyMultiset(x, s[1..], key);
      assert s == [s[0]] + s[1..];
    }
  }

  lemma {:induction false} InsertByKeySorted<T>(x: T, s: seq<T>, key: T -> string)
    requires SortedByKey(s, key)
    ensures SortedByKey(InsertByKey(x, s, key), key)
    decreases |s|
  {
    if s == [] {
    } else if LessEq(key(s[0]), key(x)) {
      SortedTail(s, key);
      InsertByKeySorted(x, s[1..], key);
      InsertAfterHead(x, s, key);
    } else {
      InsertBeforeHead(x, s, key);
    }
  }

  /** The case where `x` goes after the head of `s`. */
  lemma InsertAfterHead<T>(x: T, s: seq<T>, key: T -> string)
    requires s != [] && SortedByKey(s, key) && LessEq(key(s[0]), key(x))
    requires SortedByKey(InsertByKey(x, s[1..], key), key)
    ensures SortedByKey(InsertByKey(x, s, key), key)
  {
    var rest := InsertByKey(x, s[1..], key);
    assert AllAbove(s[1..], key, key(s[0]));
    InsertByKeyAbove(x, s[1..], key, key(s[0]));
    assert InsertByKey(x, s, key) == [s[0]] + rest;
  }

  /** The case where `x` goes in front of `s`. */
  lemma InsertBeforeHead<T>(x: T, s: seq<T>, key: T -> string)
    requires s != [] && SortedByKey(s, key) && !LessEq(key(s[0]), key(x))
    ensures SortedByKey(InsertByKey(x, s, key), key)
  {
    assert InsertByKey(x, s, key) == [x] + s;
    LessEqTotal(key(s[0]), key(x));
    forall j | 0 <= j < |s| ensures LessEq(key(x), key(s[j])) {
      if j > 0 {
        LessEqTransitive(key(x), key(s[0]), key(s[j]));
      }
    }
  }

  lemma {:induction false} WithKeyAppend<T>(s: seq<T>, x: T, key: T -> string, k: string)
    ensures WithKey(s + [x], key, k) == WithKey(s, key, k) + Keyed(x, key, k)
    decreases |s|
  {
    if s == [] {
      assert [x][1..] == [];
    } else {
      assert (s + [x])[1..] == s[1..] + [x];
      WithKeyAppend(s[1..], x, key, k);
    }
  }

  lemma {:induction false} WithKeyNone<T>(s: seq<T>, key: T -> string, k: string)
    requires forall j :: 0 <= j < |s| ==> key(s[j]) != k
    ensures WithKey(s, key, k) == []
    decreases |s|
  {
    if s != [] {
      WithKeyNone(s[1..], key, k);
    }
  }

  lemma SortedTail<T>(s: seq<T>, key: T -> string)
    requires s != [] && SortedByKey(s, key)
    ensures SortedByKey(s[1..], key)
  {
  }

  lemma WithKeyCons<T>(y: T, s: seq<T>, key: T -> string, k: string)
    ensures WithKey([y] + s, key, k) == Keyed(y, key, k) + WithKey(s, key, k)
  {
    assert ([y] + s)[1..] == s;
  }

  lemma {:induction false} InsertByKeyWithKey<T>(x: T, s: seq<T>, key: T -> string, k: string)
    requires SortedByKey(s, key)
    ensures WithKey(InsertByKey(x, s, key), key, k) == WithKey(s, key, k) + Keyed(x, key, k)
    decreases |s|
  {
    if s == [] {
    } else if LessEq(key(s[0]), key(x)) {
      SortedTail(s, key);
      InsertByKeyWithKey(x, s[1..], key, k);
      WithKeyAfterHead(x, s, key, k);
    } else {
      WithKeyBeforeHead(x, s, key, k);
    }
  }

  lemma WithKeyAfterHead<T>(x: T, s: seq<T>, key: T -> string, k: string)
    requires s != [] && LessEq(key(s[0]), key(x))
    requires WithKey(InsertByKey(x, s[1..], key), key, k) == WithKey(s[1..], key, k) + Keyed(x, key, k)
    ensures WithKey(InsertByKey(x, s, key), key, k) == WithKey(s, key, k) + Keyed(x, key, k)
  {
    var rest := InsertByKey(x, s[1..], key);
    var head, tail := Keyed(s[0], key, k), Keyed(x, key, k);
    calc {
      WithKey(InsertByKey(x, s, key), key, k);
      { assert InsertByKey(x, s, key) == [s[0]] + rest; }
      WithKey([s[0]] + rest, key, k);
      { WithKeyCons(s[0], rest, key, k); }
      head + WithKey(rest, key, k);
      head + (WithKey(s[1..], key, k) + tail);
      (head + WithKey(s[1..], key, k)) + tail;
      { WithKeyCons(s[0], s[1..], key, k); assert s == [s[0]] + s[1..]; }
      WithKey(s, key, k) + tail;
    }
  }

  lemma WithKeyBeforeHead<T>(x: T, s: seq<T>, key: T -> string, k: string)
    requires s != [] && SortedByKey(s, key) && !LessEq(key(s[0]), key(x))
    ensures WithKey(InsertByKey(x, s, key), key, k) == WithKey(s, key, k) + Keyed(x, key, k)
  {
    assert InsertByKey(x, s, key) == [x] + s;
    WithKeyCons(x, s, key, k);
    if key(x) == k {
      forall j | 0 <= j < |s| ensures key(s[j]) != k {
        assert LessEq(key(s[0]), key(s[j]));
      }
      WithKeyNone(s, key, k);
    }
  }

  /** `SortByKey` orders the elements by key, keeps every one of them, and
      keeps elements with equal keys in their original relative order. */
  lemma {:induction false} SortByKeyCorrect<T>(xs: seq<T>, key: T -> string)
    ensures SortedByKey(SortByKey(xs, key), key)
    ensures multiset(SortByKey(xs, key)) == multiset(xs)
    ensures forall k :: WithKey(SortByKey(xs, key), key, k) == WithKey(xs, key, k)
    decreases |xs|
  {
    if xs != [] {
      var init, last := xs[..|xs| - 1], xs[|xs| - 1];
      SortByKeyCorrect(init, key);
      InsertByKeySorted(last, SortByKey(init, key), key);
      InsertByKeyMultiset(last, SortByKey(init, key), key);
      assert xs == init + [last];
      forall k ensures WithKey(SortByKey(xs, key), key, k) == WithKey(xs, key, k) {
        InsertByKeyWithKey(last, SortByKey(init, key), key, k);
        WithKeyAppend(init, last, key, k);
      }
    }
  }
  /** `s` is strictly increasing: sorted and free of duplicates, as
      `sorted(set_of_strings)` returns. */
  predicate StrictlySorted(s: seq<string>) {
    forall i, j :: 0 <= i < j < |s| ==> Less(s[i], s[j])
  }

  /** Every element of `s` is above `lo`. */
  predicate AllGreater(s: seq<string>, lo: string) {
    forall i :: 0 <= i < |s| ==> Less(lo, s[i])
  }

  /** Adds `x` to the strictly increasing `s` at its place. */
  function InsertString(x: string, s: seq<string>): (r: seq<string>)
  {
    if s == [] then [x]
    else if Less(s[0], x) then [s[0]] + InsertString(x, s[1..])
    else if s[0] == x then s
    else [x] + s
  }

  lemma {:induction false} InsertStringMembers(x: string, s: seq<string>)
    ensures forall y :: y in InsertString(x, s) <==> y == x || y in s
    decreases |s|
  {
    if s != [] && Less(s[0], x) {
      InsertStringMembers(x, s[1..]);
      assert s == [s[0]] + s[1..];
    }
  }

  lemma {:induction false} InsertStringGreater(x: string, s: seq<string>, lo: string)
    requires AllGreater(s, lo) && Less(lo, x)
    ensures AllGreater(InsertString(x, s), lo)
    decreases |s|
  {
    if s != [] && Less(s[0], x) {
      InsertStringGreater(x, s[1..], lo);
    }
  }

  /** Inserting keeps a strictly increasing sequence strictly increasing and
      adds exactly `x` to its elements. */
  lemma {:induction false} InsertStringSorted(x: string, s: seq<string>)
    requires StrictlySorted(s)
    ensures StrictlySorted(InsertString(x, s))
    ensures forall y :: y in InsertString(x, s) <==> y == x || y in s
    decreases |s|
  {
    InsertStringMembers(x, s);
    if s == [] {
    } else if Less(s[0], x) {
      InsertStringSorted(x, s[1..]);
      assert AllGreater(s[1..], s[0]);
      InsertStringGreater(x, s[1..], s[0]);
    } else if s[0] != x {
      LessTotal(s[0], x);
      forall j | 0 <= j < |s| ensures Less(x, s[j]) {
        if j > 0 {
          LessTransitive(x, s[0], s[j]);
        }
      }
    }
  }

  // ---------------------------------------------------------------------
  // Newest first

  /** `s` runs from the highest rank to the lowest, as an
      `ORDER BY ... DESC` returns it. */
  predicate DescendingBy<T>(s: seq<T>, rank: T -> int) {
    forall i, j :: 0 <= i < j < |s| ==> rank(s[i]) >= rank(s[j])
  }

  /** Inserts `x` after every element of `s` whose rank is not below its own. */
  function InsertDesc<T>(x: T, s: seq<T>, rank: T -> int): (r: seq<T>)
    ensures |r| == |s| + 1
  {
    if s == [] then [x]
    else if rank(s[0]) >= rank(x) then [s[0]] + InsertDesc(x, s[1..], rank)
    else [x] + s
  }

  /** The elements of `xs` from the highest rank to the lowest. */
  function SortDesc<T>(xs: seq<T>, rank: T -> int): (r: seq<T>)
    ensures |r| == |xs|
  {
    if xs == [] then [] else InsertDesc(xs[|xs| - 1], SortDesc(xs[..|xs| - 1], rank), rank)
  }

  lemma {:induction false} InsertDescMultiset<T>(x: T, s: seq<T>, rank: T -> int)
    ensures multiset(InsertDesc(x, s, rank)) == multiset(s) + multiset{x}
    decreases |s|
  {
    if s != [] && rank(s[0]) >= rank(x) {
      InsertDescMultiset(x, s[1..], rank);
      assert s == [s[0]] + s[1..];
    }
  }

  lemma {:induction false} InsertDescSorted<T>(x: T, s: seq<T>, rank: T -> int)
    requires DescendingBy(s, rank)
    ensures DescendingBy(InsertDesc(x, s, rank), rank)
    decreases |s|
  {
    if s != [] && rank(s[0]) >= rank(x) {
      var rest := InsertDesc(x, s[1..], rank);
      InsertDescSorted(x, s[1..], rank);
      InsertDescMultiset(x, s[1..], rank);
      forall k | 0 <= k < |rest| ensures rank(rest[k]) <= rank(s[0]) {
        assert rest[k] in multiset(rest);
        if rest[k] != x {
          assert rest[k] in multiset(s[1..]);
          var j :| 0 <= j < |s[1..]| && s[1..][j] == rest[k];
          assert s[j + 1] == rest[k];
        }
      }
      assert InsertDesc(x, s, rank) == [s[0]] + rest;
    }
  }

  /** `SortDesc` orders by rank, highest first, and keeps every element. */
  lemma {:induction false} SortDescCorrect<T>(xs: seq<T>, rank: T -> int)
    ensures DescendingBy(SortDesc(xs, rank), rank)
    ensures multiset(SortDesc(xs, rank)) == multiset(xs)
    decreases |xs|
  {
    if xs != [] {
      var init, last := xs[..|xs| - 1], xs[|xs| - 1];
      SortDescCorrect(init, rank);
      InsertDescSorted(last, SortDesc(init, rank), rank);
      InsertDescMultiset(last, SortDesc(init, rank), rank);
      assert xs == init + [last];
    }
  }

  /** The first `n` of `SortDesc(xs)` are the `n` highest ranked: they come
      from `xs`, highest first, and every element of `xs` left out ranks no
      higher than any of them. */
  lemma TopRanked<T>(xs: seq<T>, rank: T -> int, n: nat)
    ensures var top := SortDesc(xs, rank);
            var r := if |top| <= n then top else top[..n];
            && |r| == (if |xs| <= n then |xs| else n)
            && DescendingBy(r, rank)
            && (forall y :: y in r ==> y in xs)
            && (forall x :: x in xs ==> x in r || forall k :: 0 <= k < |r| ==> rank(x) <= rank(r[k]))
  {
    var top := SortDesc(xs, rank);
    SortDescCorrect(xs, rank);
    var r := if |top| <= n then top else top[..n];
    forall y | y in r ensures y in xs {
      assert y in multiset(top);
    }
    forall x | x in xs ensures x in r || forall k :: 0 <= k < |r| ==> rank(x) <= rank(r[k]) {
      assert x in multiset(top);
      var j :| 0 <= j < |top| && top[j] == x;
      if j < |r| {
        assert r[j] == x;
      }
    }
  }
}
