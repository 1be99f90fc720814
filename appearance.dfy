/** Sequences taken in order of first appearance and tallied, as
    `pandas.Index.unique` lists the senders and `collections.Counter`
    lists the words of a chat. */
module Appearance {

  /** Number of occurrences of `x` in `xs`. */
  function Count<T(==)>(xs: seq<T>, x: T): (n: nat)
    ensures n <= |xs|
    ensures n == 0 <==> x !in xs
  {
    if xs == [] then 0
    else
      assert xs == xs[..|xs| - 1] + [xs[|xs| - 1]];
      Count(xs[..|xs| - 1], x) + (if xs[|xs| - 1] == x then 1 else 0)
  }

  /** Position of the first occurrence of `x` in `xs`. */
  function FirstIndex<T(==)>(xs: seq<T>, x: T): (i: nat)
    requires x in xs
    ensures i < |xs| && xs[i] == x
    ensures forall k :: 0 <= k < i ==> xs[k] != x
  {
    if xs[0] == x then 0 else 1 + FirstIndex(xs[1..], x)
  }

  /** Appending an element moves no first occurrence, and a new element
      first occurs at the end. */
  lemma FirstIndexAppend<T>(xs: seq<T>, y: T)
    ensures forall x :: x in xs ==> FirstIndex(xs + [y], x) == FirstIndex(xs, x)
    ensures y !in xs ==> FirstIndex(xs + [y], y) == |xs|
  {
    forall x | x in xs
      ensures FirstIndex(xs + [y], x) == FirstIndex(xs, x)
    {
      var i, j := FirstIndex(xs + [y], x), FirstIndex(xs, x);
      assert (xs + [y])[j] == x;
      assert i <= j;
      assert xs[i] == x;
    }
  }

  /** True when no element occurs twice. */
  predicate Distinct<T(==)>(u: seq<T>) {
    forall i, j :: 0 <= i < j < |u| ==> u[i] != u[j]
  }

  /** The distinct elements of `xs` in order of first appearance. */
  function Unique<T(==)>(xs: seq<T>): (u: seq<T>)
    ensures forall i :: 0 <= i < |u| ==> u[i] in xs
    ensures forall i :: 0 <= i < |xs| ==> xs[i] in u
    ensures Distinct(u)
  {
    if xs == [] then []
    else
      var init, last := xs[..|xs| - 1], xs[|xs| - 1];
      assert xs == init + [last];
      var u := Unique(init);
      if last in u then u else u + [last]
  }

  /** The distinct elements are listed in the order of their first
      occurrences. */
  lemma {:induction false} UniqueInOrder<T>(xs: seq<T>)
    ensures forall i, j :: 0 <= i < j < |Unique(xs)| ==>
      FirstIndex(xs, Unique(xs)[i]) < FirstIndex(xs, Unique(xs)[j])
  {
    if xs != [] {
      var init, last := xs[..|xs| - 1], xs[|xs| - 1];
      assert xs == init + [last];
      UniqueInOrder(init);
      FirstIndexAppend(init, last);
    }
  }

  /** Each element of `u` paired with its number of occurrences in `xs`. */
  function TallyOf<T(==)>(u: seq<T>, xs: seq<T>): seq<(T, nat)> {
    if u == [] then []
    else TallyOf(u[..|u| - 1], xs) + [(u[|u| - 1], Count(xs, u[|u| - 1]))]
  }

  /** What `Counter(xs)` holds: every distinct element with its count, in
      order of first appearance. */
  function Tally<T(==)>(xs: seq<T>): seq<(T, nat)> {
    TallyOf(Unique(xs), xs)
  }

  /** Sum of the counts of a tally. */
  function Total<T>(t: seq<(T, nat)>): nat {
    if t == [] then 0 else Total(t[..|t| - 1]) + t[|t| - 1].1
  }

  lemma {:induction false} TallyOfAt<T>(u: seq<T>, xs: seq<T>)
    ensures |TallyOf(u, xs)| == |u|
    ensures forall i :: 0 <= i < |u| ==> TallyOf(u, xs)[i] == (u[i], Count(xs, u[i]))
  {
    if u != [] {
      var init := u[..|u| - 1];
      TallyOfAt(init, xs);
      forall i | 0 <= i < |u|
        ensures TallyOf(u, xs)[i] == (u[i], Count(xs, u[i]))
      {
        if i < |init| {
          assert u[i] == init[i];
        }
      }
    }
  }

  /** The tally lists each distinct element once, in first-appearance
      order, with its exact number of occurrences. */
  lemma TallyAt<T>(xs: seq<T>)
    ensures |Tally(xs)| == |Unique(xs)|
    ensures forall i :: 0 <= i < |Tally(xs)| ==>
      Tally(xs)[i].0 == Unique(xs)[i] && Tally(xs)[i].1 == Count(xs, Unique(xs)[i]) > 0
  {
    TallyOfAt(Unique(xs), xs);
  }

  lemma TotalAppend<T>(t: seq<(T, nat)>, p: (T, nat))
    ensures Total(t + [p]) == Total(t) + p.1
  {
    assert (t + [p])[..|t|] == t;
  }

  lemma CountAppend<T>(xs: seq<T>, y: T, v: T)
    ensures Count(xs + [y], v) == Count(xs, v) + (if y == v then 1 else 0)
  {
    assert (xs + [y])[..|xs|] == xs;
  }

  /** One more element adds one to the tally's total exactly when it is
      one of the tallied elements. */
  lemma {:induction false} TallyOfAppend<T>(u: seq<T>, xs: seq<T>, y: T)
    requires Distinct(u)
    ensures Total(TallyOf(u, xs + [y])) == Total(TallyOf(u, xs)) + (if y in u then 1 else 0)
  {
    if u != [] {
      var init, v := u[..|u| - 1], u[|u| - 1];
      assert u == init + [v];
      TallyOfAppend(init, xs, y);
      CountAppend(xs, y, v);
      TotalAppend(TallyOf(init, xs + [y]), (v, Count(xs + [y], v)));
      TotalAppend(TallyOf(init, xs), (v, Count(xs, v)));
    }
  }

  /** The counts of a tally add up to the length of the tallied sequence. */
  lemma {:induction false} TallyTotal<T>(xs: seq<T>)
    ensures Total(Tally(xs)) == |xs|
  {
    if xs != [] {
      var init, last := xs[..|xs| - 1], xs[|xs| - 1];
      assert xs == init + [last];
      TallyTotal(init);
      var u := Unique(init);
      TallyOfAppend(u, init, last);
      if last !in u {
        CountAppend(init, last, last);
        assert (u + [last])[..|u|] == u;
        TotalAppend(TallyOf(u, xs), (last, Count(xs, last)));
      }
    }
  }
}
