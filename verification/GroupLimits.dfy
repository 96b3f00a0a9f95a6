/** The limit on distinct key groups (`key_groups.go`): groups are ranked, the first
    MaxDistinctKeyGroups are kept, the others are folded into one overflow entry. */
module GroupLimits {
  import opened Wrappers
  import opened Sums
  import opened KeyGroups

  // ---------- the comparator ----------

  /** Go's `<` on strings. */
  predicate LexLess(a: string, b: string) {
    if b == "" then false
    else if a == "" then true
    else a[0] < b[0] || (a[0] == b[0] && LexLess(a[1..], b[1..]))
  }

  /** The comparator passed to `sort.Slice`. */
  predicate Before(a: Entry, b: Entry) {
    if a.memory == b.memory then
      if a.count == b.count then LexLess(a.keyGroup, b.keyGroup) else a.count < b.count
    else a.memory > b.memory
  }

  lemma {:induction false} LexTotal(a: string, b: string)
    ensures a == b || LexLess(a, b) || LexLess(b, a)
    ensures !(LexLess(a, b) && LexLess(b, a))
  {
    if a != "" && b != "" && a[0] == b[0] {
      LexTotal(a[1..], b[1..]);
      if a[1..] == b[1..] {
        assert a == [a[0]] + a[1..] == [b[0]] + b[1..] == b;
      }
    }
  }

  lemma {:induction false} LexTransitive(a: string, b: string, c: string)
    requires LexLess(a, b) && LexLess(b, c)
    ensures LexLess(a, c)
  {
    if a != "" && a[0] == b[0] == c[0] {
      LexTransitive(a[1..], b[1..], c[1..]);
    }
  }

  /** The comparator is a strict total order on entries with different names. */
  lemma BeforeIsStrictTotalOrder(a: Entry, b: Entry, c: Entry)
    ensures !Before(a, a)
    ensures !(Before(a, b) && Before(b, a))
    ensures Before(a, b) && Before(b, c) ==> Before(a, c)
    ensures a.keyGroup != b.keyGroup ==> Before(a, b) || Before(b, a)
  {
    LexTotal(a.keyGroup, a.keyGroup);
    LexTotal(a.keyGroup, b.keyGroup);
    if LexLess(a.keyGroup, b.keyGroup) && LexLess(b.keyGroup, c.keyGroup) {
      LexTransitive(a.keyGroup, b.keyGroup, c.keyGroup);
    }
  }

  ghost predicate Sorted(s: seq<Entry>) {
    forall i, j :: 0 <= i < j < |s| ==> Before(s[i], s[j])
  }

  ghost predicate DistinctNames(s: seq<Entry>) {
    forall i, j :: 0 <= i < j < |s| ==> s[i].keyGroup != s[j].keyGroup
  }

  // ---------- sorting ----------

  function Insert(e: Entry, s: seq<Entry>): seq<Entry> {
    if |s| == 0 then [e]
    else if Before(e, s[0]) then [e] + s
    else [s[0]] + Insert(e, s[1..])
  }

  /** Stands for `sort.Slice`; any sort that meets its contract returns the same sequence. */
  function SortEntries(s: seq<Entry>): seq<Entry> {
    if |s| == 0 then [] else Insert(s[0], SortEntries(s[1..]))
  }

  lemma {:induction false} InsertMembers(e: Entry, s: seq<Entry>)
    ensures multiset(Insert(e, s)) == multiset(s) + multiset{e}
    ensures forall i :: 0 <= i < |Insert(e, s)| ==> Insert(e, s)[i] == e || Insert(e, s)[i] in s
  {
    if |s| != 0 {
      assert s == [s[0]] + s[1..];
      if !Before(e, s[0]) {
        InsertMembers(e, s[1..]);
      }
    }
  }

  lemma {:induction false} InsertSorts(e: Entry, s: seq<Entry>)
    requires Sorted(s) && forall i :: 0 <= i < |s| ==> s[i].keyGroup != e.keyGroup
    ensures Sorted(Insert(e, s))
  {
    if |s| != 0 {
      var head, rest := s[0], s[1..];
      if Before(e, head) {
        forall i | 0 <= i < |s| ensures Before(e, s[i]) {
          BeforeIsStrictTotalOrder(e, head, s[i]);
        }
      } else {
        BeforeIsStrictTotalOrder(head, e, e);
        InsertSorts(e, rest);
        InsertMembers(e, rest);
        var inserted := Insert(e, rest);
        hide Insert, Before;
        forall i | 0 <= i < |inserted| ensures Before(head, inserted[i]) {
          if inserted[i] != e {
            assert inserted[i] in rest;
          }
        }
      }
    }
  }

  lemma {:induction false} SortEntriesSorts(s: seq<Entry>)
    requires DistinctNames(s)
    ensures Sorted(SortEntries(s)) && multiset(SortEntries(s)) == multiset(s)
  {
    if |s| != 0 {
      var rest := s[1..];
      assert s == [s[0]] + rest;
      SortEntriesSorts(rest);
      var sorted := SortEntries(rest);
      forall i | 0 <= i < |sorted| ensures sorted[i].keyGroup != s[0].keyGroup {
        assert sorted[i] in multiset(rest);
      }
      InsertSorts(s[0], sorted);
      InsertMembers(s[0], sorted);
    }
  }

  lemma SortedHead(s: seq<Entry>, t: seq<Entry>)
    requires Sorted(s) && Sorted(t) && multiset(s) == multiset(t) && s != [] && t != []
    ensures s[0] == t[0]
  {
    if s[0] != t[0] {
      assert s[0] in multiset(t) && t[0] in multiset(s);
      var i :| 0 <= i < |t| && t[i] == s[0];
      var j :| 0 <= j < |s| && s[j] == t[0];
      assert Before(t[0], t[i]) && Before(s[0], s[j]);
      BeforeIsStrictTotalOrder(s[0], t[0], s[0]);
    }
  }

  /** There is one way to sort: the order the map was iterated in and the algorithm do not matter. */
  lemma {:induction false} SortedUnique(s: seq<Entry>, t: seq<Entry>)
    requires Sorted(s) && Sorted(t) && multiset(s) == multiset(t)
    ensures s == t
    decreases |s|
  {
    hide Before;
    assert |s| == |multiset(s)| == |multiset(t)| == |t|;
    if |s| != 0 {
      SortedHead(s, t);
      MultisetTail(s);
      MultisetTail(t);
      SortedUnique(s[1..], t[1..]);
      assert s == [s[0]] + s[1..] && t == [t[0]] + t[1..];
    }
  }

  // ---------- the ranking of a map of groups ----------

  /** `s` lists every group of `m` once. */
  ghost predicate Lists(s: seq<Entry>, m: Groups) {
    && DistinctNames(s)
    && (forall i :: 0 <= i < |s| ==> s[i].keyGroup in m && m[s[i].keyGroup] == Tally(s[i].count, s[i].memory))
    && (forall g :: g in m ==> exists i :: 0 <= i < |s| && s[i].keyGroup == g)
  }

  ghost predicate Ranking(s: seq<Entry>, m: Groups) { Lists(s, m) && Sorted(s) }

  lemma ListsSameEntries(s: seq<Entry>, t: seq<Entry>, m: Groups)
    requires Lists(s, m) && Lists(t, m)
    ensures multiset(s) == multiset(t)
  {
    forall e: Entry ensures multiset(s)[e] == multiset(t)[e] {
      ListsCount(s, m, e);
      ListsCount(t, m, e);
    }
  }

  lemma ListsCount(s: seq<Entry>, m: Groups, e: Entry)
    requires Lists(s, m)
    ensures multiset(s)[e] == if e.keyGroup in m && m[e.keyGroup] == Tally(e.count, e.memory) then 1 else 0
  {
    if e.keyGroup in m && m[e.keyGroup] == Tally(e.count, e.memory) {
      var i :| 0 <= i < |s| && s[i].keyGroup == e.keyGroup;
      MultisetRemove(s, i);
      var rest := s[..i] + s[i + 1..];
      forall j | 0 <= j < |rest| ensures rest[j].keyGroup != e.keyGroup {
        assert rest[j] == if j < i then s[j] else s[j + 1];
      }
      assert e !in multiset(rest);
      assert s[i] == e;
    }
  }

  /** The kept groups are a function of the map alone. */
  lemma RankingUnique(s: seq<Entry>, t: seq<Entry>, m: Groups)
    requires Ranking(s, m) && Ranking(t, m)
    ensures s == t
  {
    ListsSameEntries(s, t, m);
    SortedUnique(s, t);
  }

  // ---------- optimality ----------

  function Memory(): Entry -> int { (e: Entry) => e.memory }
  function Count(): Entry -> int { (e: Entry) => e.count }

  /** What an entry has above the threshold. */
  function Excess(t: int): Entry -> int { (e: Entry) => if e.memory > t then e.memory - t else 0 }

  lemma {:induction false} ExcessBound(s: seq<Entry>, t: int)
    ensures SumBy(s, Memory()) <= t * |s| + SumBy(s, Excess(t))
    ensures (forall i :: 0 <= i < |s| ==> s[i].memory >= t) ==> SumBy(s, Memory()) == t * |s| + SumBy(s, Excess(t))
    ensures SumBy(s, Excess(t)) >= 0
    ensures (forall i :: 0 <= i < |s| ==> s[i].memory <= t) ==> SumBy(s, Excess(t)) == 0
  {
    if |s| != 0 {
      ExcessBound(s[..|s| - 1], t);
    }
  }

  /** Every kept group uses at least as much memory as every folded one. */
  lemma KeptAtLeastFolded(r: seq<Entry>, i: nat, j: nat)
    requires Sorted(r) && i <= j < |r|
    ensures r[i].memory >= r[j].memory
  {
  }

  /** No other choice of k groups, in whatever order `p` has them first, folds less memory. */
  lemma OverflowIsLeast(r: seq<Entry>, p: seq<Entry>, k: nat)
    requires Sorted(r) && multiset(p) == multiset(r) && k <= |r|
    ensures |p| == |r| && SumBy(p[k..], Memory()) >= SumBy(r[k..], Memory())
  {
    assert |p| == |multiset(p)| == |multiset(r)| == |r|;
    SumByPermutation(p, r, Memory());
    assert p == p[..k] + p[k..] && r == r[..k] + r[k..];
    SumByConcat(p[..k], p[k..], Memory());
    SumByConcat(r[..k], r[k..], Memory());
    if k != 0 {
      var t := r[k - 1].memory;
      SumByPermutation(p, r, Excess(t));
      SumByConcat(p[..k], p[k..], Excess(t));
      SumByConcat(r[..k], r[k..], Excess(t));
      ExcessBound(p[..k], t);
      ExcessBound(p[k..], t);
      ExcessBound(r[..k], t);
      ExcessBound(r[k..], t);
    }
  }

  // ---------- applying the limit ----------

  /** `overflowedKeyGroupMetrics`. */
  datatype Overflowed = Overflowed(top: seq<Entry>, overflow: Entry, distinct: nat)

  method EntriesOf(allGroups: Groups) returns (entries: seq<Entry>)
    ensures Lists(entries, allGroups) && |entries| == |allGroups|
  {
    var names := IterationOrder(allGroups.Keys);
    entries := [];
    for i := 0 to |names|
      invariant |entries| == i
      invariant forall j :: 0 <= j < i ==> names[j] in allGroups
      invariant forall j :: 0 <= j < i ==> entries[j] == Entry(names[j], allGroups[names[j]].count, allGroups[names[j]].memory)
    {
      assert names[i] in names;
      entries := entries + [Entry(names[i], allGroups[names[i]].count, allGroups[names[i]].memory)];
    }
    ListedNames(entries, names, allGroups);
  }

  lemma ListedNames(entries: seq<Entry>, names: seq<string>, m: Groups)
    requires Enumerates(names, m.Keys) && |entries| == |names|
    requires forall j :: 0 <= j < |names| ==> names[j] in m
    requires forall j :: 0 <= j < |names| ==> entries[j] == Entry(names[j], m[names[j]].count, m[names[j]].memory)
    ensures Lists(entries, m) && |entries| == |m|
  {
    forall g | g in m ensures exists i :: 0 <= i < |entries| && entries[i].keyGroup == g {
      assert g in names;
      var i :| 0 <= i < |names| && names[i] == g;
      assert entries[i].keyGroup == g;
    }
    EnumerationSize(names, m.Keys);
  }

  lemma {:induction false} EnumerationSize<T(!new)>(order: seq<T>, all: set<T>)
    requires Enumerates(order, all)
    ensures |order| == |all|
    decreases |order|
  {
    if |order| == 0 {
      assert all == {};
    } else {
      var n := |order| - 1;
      assert order == order[..n] + [order[n]];
      EnumerationSize(order[..n], all - {order[n]});
      assert order[n] in all;
    }
  }

  /** The limit as `gatherKeyGroupsMetricsForAllDatabases` applies it to one database. */
  method ApplyLimit(allGroups: Groups, maxDistinct: nat) returns (limited: Option<Overflowed>, ghost ranking: seq<Entry>)
    ensures Ranking(ranking, allGroups) && |ranking| == |allGroups|
    ensures limited.Some? <==> |allGroups| > maxDistinct
    ensures limited.Some? ==> limited.value == Overflowed(ranking[..maxDistinct],
              Entry("overflow", SumBy(ranking[maxDistinct..], Count()), SumBy(ranking[maxDistinct..], Memory())),
              |allGroups|)
  {
    var metricsSlice := EntriesOf(allGroups);
    SortEntriesSorts(metricsSlice);
    ranking := SortEntries(metricsSlice);
    SortedLists(metricsSlice, ranking, allGroups);
    if |allGroups| <= maxDistinct {
      return None, ranking;
    }
    var sorted := SortEntries(metricsSlice);
    var overflow := Overflow(sorted[maxDistinct..]);
    limited := Some(Overflowed(sorted[..maxDistinct], overflow, |allGroups|));
  }

  method Overflow(folded: seq<Entry>) returns (overflow: Entry)
    ensures overflow == Entry("overflow", SumBy(folded, Count()), SumBy(folded, Memory()))
  {
    var overflowedCount, overflowedMemory := 0, 0;
    for i := 0 to |folded|
      invariant overflowedCount == SumBy(folded[..i], Count())
      invariant overflowedMemory == SumBy(folded[..i], Memory())
    {
      assert folded[..i + 1][..i] == folded[..i];
      overflowedCount := overflowedCount + folded[i].count;
      overflowedMemory := overflowedMemory + folded[i].memory;
    }
    assert folded[..|folded|] == folded;
    overflow := Entry("overflow", overflowedCount, overflowedMemory);
  }

  lemma SortedLists(s: seq<Entry>, t: seq<Entry>, m: Groups)
    requires Lists(s, m) && Sorted(t) && multiset(s) == multiset(t)
    ensures Ranking(t, m) && |t| == |s|
  {
    assert |s| == |multiset(s)| == |multiset(t)| == |t|;
    forall i | 0 <= i < |t| ensures t[i] in s {
      assert t[i] in multiset(s);
    }
    forall g | g in m ensures exists i :: 0 <= i < |t| && t[i].keyGroup == g {
      var j :| 0 <= j < |s| && s[j].keyGroup == g;
      assert s[j] in multiset(t);
      var i :| 0 <= i < |t| && t[i] == s[j];
      assert t[i].keyGroup == g;
    }
    forall i, j | 0 <= i < j < |t| ensures t[i].keyGroup != t[j].keyGroup {
      if t[i].keyGroup == t[j].keyGroup {
        assert t[i] in s && t[j] in s && t[i] == t[j];
        BeforeIsStrictTotalOrder(t[i], t[j], t[i]);
      }
    }
  }
}
