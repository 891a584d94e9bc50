/** List idioms the services use: keeping and transforming the elements
    that pass a test (a list comprehension with an `if`), the first index
    that passes a test (a loop with an early `return`), and Python's
    slices `xs[:n]` and `xs[-n:]`. */
module Seqs {

  /** `[f(x) for x in xs if keep(x)]` */
  function FilterMap<T, U>(xs: seq<T>, keep: T -> bool, f: T -> U): (r: seq<U>)
    ensures |r| <= |xs|
  {
    if xs == [] then []
    else FilterMap(xs[..|xs| - 1], keep, f) + (if keep(xs[|xs| - 1]) then [f(xs[|xs| - 1])] else [])
  }

  /** Extending the input by one element extends the output by that
      element's image when it passes. */
  lemma FilterMapSnoc<T, U>(xs: seq<T>, x: T, keep: T -> bool, f: T -> U)
    ensures FilterMap(xs + [x], keep, f) == FilterMap(xs, keep, f) + (if keep(x) then [f(x)] else [])
  {
    assert (xs + [x])[..|xs|] == xs;
  }

  /** When every element passes and is its own image, the output is the
      input. */
  lemma {:induction false} FilterMapFixed<T>(xs: seq<T>, keep: T -> bool, f: T -> T)
    requires forall i :: 0 <= i < |xs| ==> keep(xs[i]) && f(xs[i]) == xs[i]
    ensures FilterMap(xs, keep, f) == xs
  {
    if xs != [] {
      var init := xs[..|xs| - 1];
      FilterMapFixed(init, keep, f);
      assert xs == init + [xs[|xs| - 1]];
    }
  }

  /** The output holds the image of every element that passes, and nothing else. */
  lemma {:induction false} FilterMapMembers<T, U>(xs: seq<T>, keep: T -> bool, f: T -> U)
    ensures forall i :: 0 <= i < |xs| && keep(xs[i]) ==> f(xs[i]) in FilterMap(xs, keep, f)
    ensures forall y :: y in FilterMap(xs, keep, f) ==> exists i :: 0 <= i < |xs| && keep(xs[i]) && y == f(xs[i])
    decreases |xs|
  {
    if xs != [] {
      var init := xs[..|xs| - 1];
      var last := if keep(xs[|xs| - 1]) then [f(xs[|xs| - 1])] else [];
      assert FilterMap(xs, keep, f) == FilterMap(init, keep, f) + last;
      FilterMapMembers(init, keep, f);
      forall y | y in FilterMap(xs, keep, f)
        ensures exists i :: 0 <= i < |xs| && keep(xs[i]) && y == f(xs[i])
      {
        if y in FilterMap(init, keep, f) {
          var i :| 0 <= i < |init| && keep(init[i]) && y == f(init[i]);
          assert xs[i] == init[i];
        } else {
          assert y in last;
        }
      }
      forall i | 0 <= i < |xs| && keep(xs[i])
        ensures f(xs[i]) in FilterMap(xs, keep, f)
      {
        if i < |init| {
          assert init[i] == xs[i];
          assert f(init[i]) in FilterMap(init, keep, f);
        } else {
          assert f(xs[i]) in last;
        }
      }
    }
  }

  /** The loop `for x in xs: if keep(x): out.append(f(x))`. */
  method Collect<T, U>(xs: seq<T>, keep: T -> bool, f: T -> U) returns (out: seq<U>)
    ensures out == FilterMap(xs, keep, f)
  {
    out := [];
    var i := 0;
    while i < |xs|
      invariant 0 <= i <= |xs|
      invariant out == FilterMap(xs[..i], keep, f)
    {
      if keep(xs[i]) {
        out := out + [f(xs[i])];
      }
      FilterMapSnoc(xs[..i], xs[i], keep, f);
      assert xs[..i + 1] == xs[..i] + [xs[i]];
      i := i + 1;
    }
    assert xs[..i] == xs;
  }

  /** The first index whose element passes `p`, or `|xs|` when none does. */
  function FirstIndex<T>(xs: seq<T>, p: T -> bool): (r: nat)
    ensures r <= |xs|
    ensures forall j :: 0 <= j < r ==> !p(xs[j])
    ensures r < |xs| ==> p(xs[r])
  {
    if xs == [] then 0
    else if p(xs[0]) then 0
    else 1 + FirstIndex(xs[1..], p)
  }

  /** An index whose element passes, with none passing before it, is the
      first index. */
  lemma FirstIndexIs<T>(xs: seq<T>, p: T -> bool, i: nat)
    requires i < |xs| && p(xs[i])
    requires forall j :: 0 <= j < i ==> !p(xs[j])
    ensures FirstIndex(xs, p) == i
  {
  }

  /** `xs[:n]` */
  function Take<T>(xs: seq<T>, n: nat): (r: seq<T>)
    ensures |r| <= n && |r| <= |xs|
    ensures |xs| <= n ==> r == xs
    ensures |xs| > n ==> |r| == n
    ensures forall i :: 0 <= i < |r| ==> r[i] == xs[i]
  {
    if |xs| <= n then xs else xs[..n]
  }

  /** `xs[-n:]`; for `n == 0` this is the whole list, because `-0` is `0`. */
  function TakeLast<T>(xs: seq<T>, n: nat): (r: seq<T>)
    ensures n == 0 ==> r == xs
    ensures n > 0 ==> |r| == if |xs| <= n then |xs| else n
    ensures forall i :: 0 <= i < |r| ==> r[i] == xs[|xs| - |r| + i]
  {
    if n == 0 || |xs| <= n then xs else xs[|xs| - n..]
  }
}
