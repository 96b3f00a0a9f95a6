/** Sums over sequences, and the one counting fact the model needs again and again: grouping
    items by a label and summing group by group gives the sum over all items. */
module Sums {
  import opened Wrappers

  /** Puts what is already there in front of the rest of a run that may fail. */
  function Prepend<T>(front: seq<T>, rest: Option<seq<T>>): Option<seq<T>> {
    match rest
    case None => None
    case Some(more) => Some(front + more)
  }

  lemma PrependTwice<T>(a: seq<T>, b: seq<T>, rest: Option<seq<T>>)
    ensures Prepend(a, Prepend(b, rest)) == Prepend(a + b, rest)
    ensures Prepend([], rest) == rest
  {
    match rest
    case None =>
    case Some(more) =>
      assert a + (b + more) == (a + b) + more;
      assert [] + more == more;
  }

  function SumBy<T>(items: seq<T>, f: T -> int): int {
    if |items| == 0 then 0 else SumBy(items[..|items| - 1], f) + f(items[|items| - 1])
  }

  /** The sum over the items that carry label `l`. */
  function SumWhere<T, L(==)>(items: seq<T>, tag: T -> L, f: T -> int, l: L): int {
    if |items| == 0 then 0
    else
      var last := items[|items| - 1];
      SumWhere(items[..|items| - 1], tag, f, l) + if tag(last) == l then f(last) else 0
  }

  /** The group sums, by label. */
  function GroupSum<T, L(==)>(items: seq<T>, tag: T -> L, f: T -> int): L -> int {
    l => SumWhere(items, tag, f, l)
  }

  ghost predicate Distinct<T>(s: seq<T>) {
    forall i, j :: 0 <= i < j < |s| ==> s[i] != s[j]
  }

  /** `order` lists every element of `all` once. */
  ghost predicate Enumerates<T(!new)>(order: seq<T>, all: set<T>) {
    Distinct(order) && forall x :: x in order <==> x in all
  }

  /** The order in which a Go map with these keys happens to be iterated. */
  method IterationOrder<T(!new)>(keys: set<T>) returns (order: seq<T>)
    ensures Enumerates(order, keys)
  {
    order := [];
    var remaining := keys;
    while remaining != {}
      invariant remaining <= keys
      invariant Enumerates(order, keys - remaining)
      decreases remaining
    {
      var x :| x in remaining;
      order := order + [x];
      remaining := remaining - {x};
    }
  }

  lemma {:induction false} SomeOrder<T(!new)>(all: set<T>) returns (order: seq<T>)
    ensures Enumerates(order, all)
  {
    if all == {} {
      order := [];
    } else {
      var x :| x in all;
      var rest := SomeOrder(all - {x});
      order := StartWith(rest, all, x);
    }
  }

  lemma StartWith<T(!new)>(rest: seq<T>, all: set<T>, x: T) returns (order: seq<T>)
    requires x in all && Enumerates(rest, all - {x})
    ensures order == [x] + rest && Enumerates(order, all)
  {
    order := [x] + rest;
    assert forall i :: 0 <= i < |rest| ==> rest[i] in rest && rest[i] in all - {x};
    forall y: T ensures y in order <==> y in all {
      assert y in order <==> y == x || y in rest;
    }
  }

  function Flat<T, S>(items: seq<T>, f: T -> seq<S>): seq<S> {
    if |items| == 0 then [] else Flat(items[..|items| - 1], f) + f(items[|items| - 1])
  }

  lemma FlatStep<T, S>(items: seq<T>, i: nat, f: T -> seq<S>)
    requires i < |items|
    ensures Flat(items[..i + 1], f) == Flat(items[..i], f) + f(items[i])
    ensures Flat<T, S>([], f) == []
    ensures items[..|items|] == items
  {
    assert items[..i + 1][..i] == items[..i];
  }

  lemma FlatAppend<T, S>(base: seq<S>, items: seq<T>, i: nat, f: T -> seq<S>)
    requires i < |items|
    ensures base + Flat(items[..i + 1], f) == base + Flat(items[..i], f) + f(items[i])
  {
    FlatStep(items, i, f);
    assert base + (Flat(items[..i], f) + f(items[i])) == base + Flat(items[..i], f) + f(items[i]);
  }

  /** The items without the first one where that is lost. */
  function Spared<T>(firstLost: bool, items: seq<T>): seq<T> {
    if firstLost && |items| > 0 then items[1..] else items
  }

  lemma SparedStep<T, S>(base: seq<S>, firstLost: bool, items: seq<T>, i: nat, f: T -> seq<S>)
    requires i < |items|
    ensures base + Flat(Spared(firstLost, items[..i + 1]), f)
         == base + Flat(Spared(firstLost, items[..i]), f) + if firstLost && i == 0 then [] else f(items[i])
  {
    if firstLost {
      if i > 0 {
        var rest := items[1..];
        assert items[..i + 1][1..] == rest[..i] && items[..i][1..] == rest[..i - 1];
        FlatAppend(base, rest, i - 1, f);
      }
    } else {
      FlatAppend(base, items, i, f);
    }
  }

  lemma SparedNothing<T, S>(base: seq<S>, firstLost: bool, items: seq<T>, f: T -> seq<S>)
    ensures base + Flat(Spared(firstLost, items[..0]), f) == base && items[..|items|] == items
  {
  }

  lemma {:induction false} SumByCongruent<T>(items: seq<T>, f: T -> int, g: T -> int)
    requires forall x :: x in items ==> f(x) == g(x)
    ensures SumBy(items, f) == SumBy(items, g)
  {
    if |items| != 0 {
      SumByCongruent(items[..|items| - 1], f, g);
      assert items[|items| - 1] in items;
    }
  }

  lemma {:induction false} SumByAdd<T>(items: seq<T>, f: T -> int, g: T -> int, h: T -> int)
    requires forall x :: x in items ==> h(x) == f(x) + g(x)
    ensures SumBy(items, h) == SumBy(items, f) + SumBy(items, g)
  {
    if |items| != 0 {
      SumByAdd(items[..|items| - 1], f, g, h);
      assert items[|items| - 1] in items;
    }
  }

  lemma {:induction false} SumByConcat<T>(xs: seq<T>, ys: seq<T>, f: T -> int)
    ensures SumBy(xs + ys, f) == SumBy(xs, f) + SumBy(ys, f)
  {
    if |ys| == 0 {
      assert xs + ys == xs;
    } else {
      assert (xs + ys)[..|xs + ys| - 1] == xs + ys[..|ys| - 1];
      SumByConcat(xs, ys[..|ys| - 1], f);
    }
  }

  lemma SumByRemove<T>(xs: seq<T>, i: nat, f: T -> int)
    requires i < |xs|
    ensures SumBy(xs, f) == SumBy(xs[..i] + xs[i + 1..], f) + f(xs[i])
  {
    var front, one, back := xs[..i], [xs[i]], xs[i + 1..];
    assert SumBy(one, f) == SumBy(one[..0], f) + f(xs[i]);
    hide SumBy;
    assert front + (one + back) == xs;
    SumByConcat(front, one + back, f);
    SumByConcat(one, back, f);
    SumByConcat(front, back, f);
  }

  lemma MultisetRemove<T>(xs: seq<T>, i: nat)
    requires i < |xs|
    ensures multiset(xs[..i] + xs[i + 1..]) == multiset(xs) - multiset{xs[i]}
  {
    assert xs == xs[..i] + ([xs[i]] + xs[i + 1..]);
    assert multiset(xs) == multiset(xs[..i]) + multiset{xs[i]} + multiset(xs[i + 1..]);
  }

  lemma MultisetTail<T>(xs: seq<T>)
    requires |xs| > 0
    ensures multiset(xs[1..]) == multiset(xs) - multiset{xs[0]}
  {
    assert xs == [xs[0]] + xs[1..];
  }

  /** A sum does not depend on the order of its terms. */
  lemma {:induction false} SumByPermutation<T>(xs: seq<T>, ys: seq<T>, f: T -> int)
    requires multiset(xs) == multiset(ys)
    ensures SumBy(xs, f) == SumBy(ys, f)
    decreases |xs|
  {
    if |xs| == 0 {
      assert |multiset(ys)| == 0;
    } else {
      assert xs[0] in multiset(ys);
      var i :| 0 <= i < |ys| && ys[i] == xs[0];
      SumByRemove(xs, 0, f);
      SumByRemove(ys, i, f);
      MultisetRemove(xs, 0);
      MultisetRemove(ys, i);
      SumByPermutation(xs[..0] + xs[0 + 1..], ys[..i] + ys[i + 1..], f);
    }
  }

  lemma {:induction false} SumWhereConcat<T, L>(xs: seq<T>, ys: seq<T>, tag: T -> L, f: T -> int, l: L)
    ensures SumWhere(xs + ys, tag, f, l) == SumWhere(xs, tag, f, l) + SumWhere(ys, tag, f, l)
  {
    if |ys| == 0 {
      assert xs + ys == xs;
    } else {
      assert (xs + ys)[..|xs + ys| - 1] == xs + ys[..|ys| - 1];
      SumWhereConcat(xs, ys[..|ys| - 1], tag, f, l);
    }
  }

  /** One label of a duplicate-free list picks up a term exactly once. */
  lemma {:induction false} SumIndicator<L>(order: seq<L>, l: L, v: int)
    requires Distinct(order)
    ensures SumBy(order, x => if x == l then v else 0) == if l in order then v else 0
  {
    if |order| != 0 {
      var n := |order| - 1;
      assert order == order[..n] + [order[n]];
      SumIndicator(order[..n], l, v);
    }
  }

  /** Summing label by label over a list of labels that covers every item sums every item; an item
      that counts for nothing need not be covered. */
  lemma {:induction false} PartitionSum<T, L>(items: seq<T>, tag: T -> L, f: T -> int, order: seq<L>)
    requires Distinct(order)
    requires forall i :: 0 <= i < |items| ==> tag(items[i]) in order || f(items[i]) == 0
    ensures SumBy(order, GroupSum(items, tag, f)) == SumBy(items, f)
  {
    if |items| == 0 {
      SumByZero(order, GroupSum(items, tag, f));
    } else {
      var n := |items| - 1;
      var last := items[n];
      PartitionSum(items[..n], tag, f, order);
      SumByAdd(order, GroupSum(items[..n], tag, f), l => if l == tag(last) then f(last) else 0, GroupSum(items, tag, f));
      SumIndicator(order, tag(last), f(last));
    }
  }

  lemma {:induction false} SumByZero<T>(items: seq<T>, f: T -> int)
    requires forall x :: x in items ==> f(x) == 0
    ensures SumBy(items, f) == 0
  {
    if |items| != 0 {
      SumByZero(items[..|items| - 1], f);
      assert items[|items| - 1] in items;
    }
  }

  lemma {:induction false} FlatConcat<T, S>(xs: seq<T>, ys: seq<T>, f: T -> seq<S>)
    ensures Flat(xs + ys, f) == Flat(xs, f) + Flat(ys, f)
  {
    if |ys| == 0 {
      assert xs + ys == xs;
    } else {
      assert (xs + ys)[..|xs + ys| - 1] == xs + ys[..|ys| - 1];
      FlatConcat(xs, ys[..|ys| - 1], f);
    }
  }

  lemma {:induction false} FlatCongruent<T, S>(items: seq<T>, f: T -> seq<S>, g: T -> seq<S>)
    requires forall x :: x in items ==> f(x) == g(x)
    ensures Flat(items, f) == Flat(items, g)
  {
    if |items| != 0 {
      FlatCongruent(items[..|items| - 1], f, g);
      assert items[|items| - 1] in items;
    }
  }

  /** How often `s` occurs among what each item contributes. */
  function CountIn<T, S(==)>(f: T -> seq<S>, s: S): T -> int {
    x => multiset(f(x))[s]
  }

  lemma {:induction false} CountFlat<T, S>(items: seq<T>, f: T -> seq<S>, s: S)
    ensures multiset(Flat(items, f))[s] == SumBy(items, CountIn(f, s))
  {
    if |items| != 0 {
      CountFlat(items[..|items| - 1], f, s);
    }
  }
}
