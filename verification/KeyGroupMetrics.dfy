/** Key group metrics of all databases (`key_groups.go`): gathering, limiting and emitting, and
    what the emitted samples add up to. */
module KeyGroupMetrics {
  import opened Wrappers
  import opened Text
  import opened Sums
  import opened Redis
  import opened Metrics
  import opened KeyGroups
  import opened GroupLimits

  /** What is kept of one database: nothing, its groups, or its groups and the limited view. */
  datatype Outcome = Skipped | Kept(groups: Groups) | Limited(groups: Groups, overflowed: Overflowed)

  datatype GroupOptions = GroupOptions(patterns: Patterns, batchSize: int, maxDistinct: nat)

  function OverflowedFrom(ranking: seq<Entry>, maxDistinct: nat): Overflowed
    requires maxDistinct <= |ranking|
  {
    Overflowed(ranking[..maxDistinct],
               Entry("overflow", SumBy(ranking[maxDistinct..], Count()), SumBy(ranking[maxDistinct..], Memory())),
               |ranking|)
  }

  /** The batches a database contributes, when it can be selected and the script succeeds. */
  ghost function BatchesIn(srv: Server, opts: GroupOptions, db: string): Option<seq<seq<KeyUsage>>>
    requires GroupsTerminate(srv, db, opts.batchSize)
  {
    if |opts.patterns.list| == 0 || !srv.selectable(db) then None else BatchesOf(srv, db, opts.batchSize)
  }

  /** The outcome is that of database `db`, of its batches alone. */
  ghost predicate OutcomeOf(opts: GroupOptions, batches: Option<seq<seq<KeyUsage>>>, o: Outcome) {
    match batches
    case None => o.Skipped?
    case Some(bs) =>
      var groups := Gathered(opts.patterns, bs);
      if |groups| <= opts.maxDistinct then o == Kept(groups)
      else
        exists ranking :: Ranking(ranking, groups) && |ranking| == |groups|
                          && o == Limited(groups, OverflowedFrom(ranking, opts.maxDistinct))
  }

  /** The outcome of database `db`; but an error left unread before its SELECT has it skipped. */
  ghost predicate OutcomeIn(srv: Server, opts: GroupOptions, tainted: bool, db: string, o: Outcome)
    requires GroupsTerminate(srv, db, opts.batchSize)
  {
    if tainted then o.Skipped? else OutcomeOf(opts, BatchesIn(srv, opts, db), o)
  }

  method GatherDatabase(c: Conn, opts: GroupOptions, db: string) returns (o: Outcome)
    requires c.outbox == [] && |opts.patterns.list| > 0 && GroupsTerminate(c.server, db, opts.batchSize)
    modifies c
    ensures c.View().Idle() && Moves(old(c.View()), c.View())
    ensures OutcomeIn(c.server, opts, old(c.View()).Tainted(), db, o)
  {
    ghost var before := c.View();
    var ok := c.SelectDatabase(db);
    if !ok {
      return Skipped;
    }
    ghost var selected := c.View();
    var allGroups := GatherKeyGroups(c, db, opts.patterns, opts.batchSize);
    MovesOn(before, selected, c.View());
    if allGroups.None? {
      return Skipped;
    }
    var limited, ranking := ApplyLimit(allGroups.value, opts.maxDistinct);
    if limited.Some? {
      assert limited.value == OverflowedFrom(ranking, opts.maxDistinct);
      return Limited(allGroups.value, limited.value);
    }
    return Kept(allGroups.value);
  }

  /** `gatherKeyGroupsMetricsForAllDatabases`. */
  method GatherAllDatabases(c: Conn, opts: GroupOptions, dbCount: nat) returns (outcomes: seq<Outcome>)
    requires c.outbox == []
    requires forall i :: 0 <= i < dbCount ==> GroupsTerminate(c.server, Itoa(i), opts.batchSize)
    modifies c
    ensures Moves(old(c.View()), c.View())
    ensures |outcomes| == dbCount
    ensures forall i :: 0 <= i < dbCount ==>
              OutcomeIn(c.server, opts, i == 0 && old(c.View()).Tainted(), Itoa(i), outcomes[i])
  {
    hide OutcomeIn, GroupsTerminate, Moves, Itoa;
    outcomes := [];
    ghost var start := c.View();
    MovesNothing(start);
    for i := 0 to dbCount
      invariant Moves(start, c.View())
      invariant if i == 0 || |opts.patterns.list| == 0 then c.View() == start else c.View().Idle()
      invariant |outcomes| == i
      invariant forall j :: 0 <= j < i ==> OutcomeIn(c.server, opts, j == 0 && start.Tainted(), Itoa(j), outcomes[j])
    {
      if |opts.patterns.list| == 0 {
        SkippedWithoutPatterns(c.server, opts, Itoa(i));
        outcomes := outcomes + [Skipped];
      } else {
        ghost var before := c.View();
        var o := GatherDatabase(c, opts, Itoa(i));
        MovesTransitive(start, before, c.View());
        outcomes := outcomes + [o];
      }
    }
  }

  lemma SkippedWithoutPatterns(srv: Server, opts: GroupOptions, db: string)
    requires |opts.patterns.list| == 0 && GroupsTerminate(srv, db, opts.batchSize)
    ensures forall tainted :: OutcomeIn(srv, opts, tainted, db, Skipped)
  {
  }

  // ---------- emitting ----------

  function EntrySamples(db: string): Entry -> seq<Sample> {
    (e: Entry) => [Sample("key_group_count", e.count as real, [DbLabel(db), e.keyGroup]),
                   Sample("key_group_memory_usage_bytes", e.memory as real, [DbLabel(db), e.keyGroup])]
  }

  /** `entries` are what is emitted for the outcome, in some order where a map is iterated. */
  ghost predicate Shown(o: Outcome, entries: seq<Entry>) {
    match o
    case Skipped => entries == []
    case Kept(groups) => Lists(entries, groups) && |entries| == |groups|
    case Limited(groups, overflowed) => entries == overflowed.top + [overflowed.overflow]
  }

  function OutcomeSamples(db: string, o: Outcome, entries: seq<Entry>): seq<Sample> {
    if o.Skipped? then []
    else
      Flat(entries, EntrySamples(db))
      + [Sample("number_of_distinct_key_groups",
                (if o.Kept? then |o.groups| else o.overflowed.distinct) as real, [DbLabel(db)])]
  }

  method EmitEntries(ch: Channel, db: string, entries: seq<Entry>)
    modifies ch
    ensures ch.samples == old(ch.samples) + Flat(entries, EntrySamples(db))
  {
    for i := 0 to |entries|
      invariant ch.samples == old(ch.samples) + Flat(entries[..i], EntrySamples(db))
    {
      FlatAppend(old(ch.samples), entries, i, EntrySamples(db));
      ghost var before := ch.samples;
      ch.Emit(Sample("key_group_count", entries[i].count as real, [DbLabel(db), entries[i].keyGroup]));
      ch.Emit(Sample("key_group_memory_usage_bytes", entries[i].memory as real, [DbLabel(db), entries[i].keyGroup]));
      assert ch.samples == before + EntrySamples(db)(entries[i]);
    }
    assert entries[..|entries|] == entries;
  }

  /** The database loop of `extractKeyGroupMetrics`. */
  method EmitOutcome(ch: Channel, db: string, o: Outcome) returns (ghost entries: seq<Entry>)
    modifies ch
    ensures Shown(o, entries)
    ensures ch.samples == old(ch.samples) + OutcomeSamples(db, o, entries)
  {
    hide Flat, Lists, EntrySamples;
    if o.Limited? {
      EmitEntries(ch, db, o.overflowed.top);
      EmitEntries(ch, db, [o.overflowed.overflow]);
      FlatConcat(o.overflowed.top, [o.overflowed.overflow], EntrySamples(db));
      ch.Emit(Sample("number_of_distinct_key_groups", o.overflowed.distinct as real, [DbLabel(db)]));
      entries := o.overflowed.top + [o.overflowed.overflow];
    } else if o.Kept? {
      var listed := EntriesOf(o.groups);
      EmitEntries(ch, db, listed);
      ch.Emit(Sample("number_of_distinct_key_groups", |o.groups| as real, [DbLabel(db)]));
      entries := listed;
    } else {
      entries := [];
    }
  }

  // ---------- conservation ----------

  lemma {:induction false} OnesCount(cs: seq<Charge>)
    ensures SumBy(cs, One()) == |cs|
  {
    if |cs| != 0 {
      OnesCount(cs[..|cs| - 1]);
    }
  }

  function NamesOf(s: seq<Entry>): (names: seq<string>)
    ensures |names| == |s|
    ensures forall i :: 0 <= i < |s| ==> names[i] == s[i].keyGroup
  {
    seq(|s|, i requires 0 <= i < |s| => s[i].keyGroup)
  }

  lemma {:induction false} NamedSum(s: seq<Entry>, f: Entry -> int, g: string -> int)
    requires forall i :: 0 <= i < |s| ==> f(s[i]) == g(s[i].keyGroup)
    ensures SumBy(s, f) == SumBy(NamesOf(s), g)
  {
    if |s| != 0 {
      var n := |s| - 1;
      NamedSum(s[..n], f, g);
      assert NamesOf(s)[..n] == NamesOf(s[..n]);
    }
  }

  /** The groups of a list of charges hold every key and every amount. */
  lemma {:induction false} ListedSums(s: seq<Entry>, cs: seq<Charge>)
    requires Lists(s, TallyOf(cs))
    ensures SumBy(s, Count()) == |cs|
    ensures SumBy(s, Memory()) == SumBy(cs, Amount())
  {
    var names := NamesOf(s);
    forall i | 0 <= i < |cs| ensures GroupTag()(cs[i]) in names {
      GroupsInMember(cs, cs[i].group);
      var j :| 0 <= j < |s| && s[j].keyGroup == cs[i].group;
      assert names[j] == cs[i].group;
    }
    PartitionSum(cs, GroupTag(), One(), names);
    PartitionSum(cs, GroupTag(), Amount(), names);
    NamedSum(s, Count(), GroupSum(cs, GroupTag(), One()));
    NamedSum(s, Memory(), GroupSum(cs, GroupTag(), Amount()));
    OnesCount(cs);
  }

  /** Whatever the limit, the entries shown for a database account for every key that SCAN returned
      and for all memory gathered; at most one entry more than the limit is shown, and the gauge is
      the number of groups. */
  lemma EntriesConserve(opts: GroupOptions, batches: seq<seq<KeyUsage>>, o: Outcome, entries: seq<Entry>)
    requires OutcomeOf(opts, Some(batches), o) && Shown(o, entries)
    ensures SumBy(entries, Count()) == |Joined(batches)|
    ensures SumBy(entries, Memory()) == SumBy(Flat(batches, ChargesIn(opts.patterns)), Amount())
    ensures !o.Skipped? && o.groups == Gathered(opts.patterns, batches)
    ensures |entries| == if |o.groups| <= opts.maxDistinct then |o.groups| else opts.maxDistinct + 1
    ensures o.Limited? ==> o.overflowed.distinct == |o.groups|
  {
    hide Flat, Lists, Sorted, TallyOf, SumBy, Joined;
    var cs := Flat(batches, ChargesIn(opts.patterns));
    ChargesPerKey(opts.patterns, batches);
    if o.Kept? {
      ListedSums(entries, cs);
    } else {
      var groups := Gathered(opts.patterns, batches);
      var ranking :| Ranking(ranking, groups) && |ranking| == |groups|
                     && o == Limited(groups, OverflowedFrom(ranking, opts.maxDistinct));
      ListedSums(ranking, cs);
      var k := opts.maxDistinct;
      FoldedSum(ranking, k, o.overflowed.overflow, Count());
      FoldedSum(ranking, k, o.overflowed.overflow, Memory());
    }
  }

  lemma FoldedSum(ranking: seq<Entry>, k: nat, overflow: Entry, f: Entry -> int)
    requires k <= |ranking| && f(overflow) == SumBy(ranking[k..], f)
    ensures SumBy(ranking[..k] + [overflow], f) == SumBy(ranking, f)
  {
    assert ranking == ranking[..k] + ranking[k..];
    SumByConcat(ranking[..k], ranking[k..], f);
    assert (ranking[..k] + [overflow])[..k] == ranking[..k];
  }

  lemma {:induction false} ChargesPerKey(p: Patterns, batches: seq<seq<KeyUsage>>)
    ensures |Flat(batches, ChargesIn(p))| == |Joined(batches)|
  {
    if |batches| != 0 {
      ChargesPerKey(p, batches[..|batches| - 1]);
    }
  }

  /** The sum of the values of all samples of one metric. */
  function MetricTotal(samples: seq<Sample>, metric: string): real {
    if |samples| == 0 then 0.0
    else
      var last := samples[|samples| - 1];
      MetricTotal(samples[..|samples| - 1], metric) + if last.metric == metric then last.value else 0.0
  }

  lemma {:induction false} EntryTotals(db: string, entries: seq<Entry>)
    ensures MetricTotal(Flat(entries, EntrySamples(db)), "key_group_count") == SumBy(entries, Count()) as real
    ensures MetricTotal(Flat(entries, EntrySamples(db)), "key_group_memory_usage_bytes") == SumBy(entries, Memory()) as real
  {
    if |entries| != 0 {
      var n := |entries| - 1;
      EntryTotals(db, entries[..n]);
      var before, two := Flat(entries[..n], EntrySamples(db)), EntrySamples(db)(entries[n]);
      MetricTotalTwo(before, two[0], two[1], "key_group_count");
      MetricTotalTwo(before, two[0], two[1], "key_group_memory_usage_bytes");
      assert before + two == before + [two[0], two[1]];
      assert two[0].metric[10] != two[1].metric[10];
    }
  }

  lemma MetricTotalTwo(samples: seq<Sample>, a: Sample, b: Sample, metric: string)
    ensures MetricTotal(samples + [a, b], metric)
         == MetricTotal(samples, metric) + (if a.metric == metric then a.value else 0.0)
                                         + (if b.metric == metric then b.value else 0.0)
  {
    var all := samples + [a, b];
    assert all[..|all| - 1] == samples + [a];
    assert (samples + [a])[..|samples|] == samples;
  }

  /** The samples emitted for a database gathered without error add up to what was gathered. */
  lemma SamplesConserve(opts: GroupOptions, db: string, batches: seq<seq<KeyUsage>>, o: Outcome, entries: seq<Entry>)
    requires OutcomeOf(opts, Some(batches), o) && Shown(o, entries)
    ensures var samples := OutcomeSamples(db, o, entries);
            && MetricTotal(samples, "key_group_count") == |Joined(batches)| as real
            && MetricTotal(samples, "key_group_memory_usage_bytes")
               == SumBy(Flat(batches, ChargesIn(opts.patterns)), Amount()) as real
            && MetricTotal(samples, "number_of_distinct_key_groups") == |Gathered(opts.patterns, batches)| as real
  {
    EntriesConserve(opts, batches, o, entries);
    EntryTotals(db, entries);
    EntriesWithoutGauge(db, entries);
    var samples := OutcomeSamples(db, o, entries);
    var n := |samples| - 1;
    assert samples[..n] == Flat(entries, EntrySamples(db));
    assert samples[n].metric == "number_of_distinct_key_groups";
    assert samples[n].metric[0] == 'n' && "key_group_count"[0] == 'k' && "key_group_memory_usage_bytes"[0] == 'k';
  }

  lemma {:induction false} EntriesWithoutGauge(db: string, entries: seq<Entry>)
    ensures MetricTotal(Flat(entries, EntrySamples(db)), "number_of_distinct_key_groups") == 0.0
  {
    if |entries| != 0 {
      var n := |entries| - 1;
      EntriesWithoutGauge(db, entries[..n]);
      var before, two := Flat(entries[..n], EntrySamples(db)), EntrySamples(db)(entries[n]);
      MetricTotalTwo(before, two[0], two[1], "number_of_distinct_key_groups");
      assert before + two == before + [two[0], two[1]];
      assert two[0].metric[0] == 'k' && two[1].metric[0] == 'k' && "number_of_distinct_key_groups"[0] == 'n';
    }
  }

  // ---------- colliding series ----------

  /** No two samples are of the same metric with the same labels. */
  ghost predicate DistinctSeries(samples: seq<Sample>) {
    forall i, j :: 0 <= i < j < |samples| ==> samples[i].metric != samples[j].metric || samples[i].labels != samples[j].labels
  }

  /** Where the limit applies, none of the groups kept has the name of the overflow entry. */
  ghost predicate OverflowNameFree(o: Outcome) {
    o.Limited? ==> forall i :: 0 <= i < |o.overflowed.top| ==> o.overflowed.top[i].keyGroup != "overflow"
  }

  lemma NamesDistinctIff(opts: GroupOptions, batches: seq<seq<KeyUsage>>, o: Outcome, entries: seq<Entry>)
    requires OutcomeOf(opts, Some(batches), o) && Shown(o, entries)
    ensures DistinctNames(entries) <==> OverflowNameFree(o)
  {
    hide Gathered, Sorted;
    if o.Limited? {
      var top, n := o.overflowed.top, |o.overflowed.top|;
      assert DistinctNames(top);
      assert entries[n].keyGroup == "overflow" && forall i :: 0 <= i < n ==> entries[i] == top[i];
    }
  }

  lemma {:induction false} FlatEntriesAt(db: string, entries: seq<Entry>)
    ensures |Flat(entries, EntrySamples(db))| == 2 * |entries|
    ensures forall i :: 0 <= i < |entries| ==>
              && Flat(entries, EntrySamples(db))[2 * i] == EntrySamples(db)(entries[i])[0]
              && Flat(entries, EntrySamples(db))[2 * i + 1] == EntrySamples(db)(entries[i])[1]
  {
    if |entries| != 0 {
      FlatEntriesAt(db, entries[..|entries| - 1]);
    }
  }

  /** What sample number `k` of a database's entries is. */
  lemma SampleAt(db: string, entries: seq<Entry>, k: nat)
    requires k < 2 * |entries|
    ensures var samples := Flat(entries, EntrySamples(db));
            |samples| == 2 * |entries| && samples[k].labels == [DbLabel(db), entries[k / 2].keyGroup]
            && samples[k].metric == if k % 2 == 0 then "key_group_count" else "key_group_memory_usage_bytes"
  {
    FlatEntriesAt(db, entries);
    hide Flat;
    assert k == 2 * (k / 2) + k % 2;
  }

  lemma EntriesDistinctIff(db: string, entries: seq<Entry>)
    ensures DistinctSeries(Flat(entries, EntrySamples(db))) <==> DistinctNames(entries)
  {
    var samples := Flat(entries, EntrySamples(db));
    FlatEntriesAt(db, entries);
    hide Flat;
    assert |"key_group_count"| != |"key_group_memory_usage_bytes"|;
    if DistinctNames(entries) {
      forall i, j | 0 <= i < j < |samples|
        ensures samples[i].metric != samples[j].metric || samples[i].labels != samples[j].labels
      {
        SampleAt(db, entries, i);
        SampleAt(db, entries, j);
        if i / 2 != j / 2 {
          assert samples[i].labels[1] != samples[j].labels[1];
        }
      }
    }
    if DistinctSeries(samples) {
      forall i, j | 0 <= i < j < |entries| ensures entries[i].keyGroup != entries[j].keyGroup {
        SampleAt(db, entries, 2 * i);
        SampleAt(db, entries, 2 * j);
      }
    }
  }

  /** No two samples of a database collide exactly when no group kept by the limit is itself named
      `overflow`. */
  lemma SeriesDistinctIff(opts: GroupOptions, db: string, batches: seq<seq<KeyUsage>>, o: Outcome, entries: seq<Entry>)
    requires OutcomeOf(opts, Some(batches), o) && Shown(o, entries)
    ensures DistinctSeries(OutcomeSamples(db, o, entries)) <==> OverflowNameFree(o)
  {
    NamesDistinctIff(opts, batches, o, entries);
    EntriesDistinctIff(db, entries);
    GaugeApart(db, o, entries);
  }

  lemma GaugeApart(db: string, o: Outcome, entries: seq<Entry>)
    requires !o.Skipped?
    ensures DistinctSeries(OutcomeSamples(db, o, entries)) <==> DistinctSeries(Flat(entries, EntrySamples(db)))
  {
    var all, front := OutcomeSamples(db, o, entries), Flat(entries, EntrySamples(db));
    var n := |front|;
    FlatEntriesAt(db, entries);
    hide Flat;
    assert forall i :: 0 <= i < n ==> all[i] == front[i];
    forall i | 0 <= i < n ensures all[i].metric != all[n].metric {
      SampleAt(db, entries, i);
      assert all[i].metric[0] == 'k' && all[n].metric[0] == 'n';
    }
  }

  // ---------- both in terms of the groups gathered ----------

  /** The groups that the ranking puts before `e`. */
  ghost function Ahead(m: Groups, e: Entry): set<string> {
    set g | g in m && Before(Entry(g, m[g].count, m[g].memory), e)
  }

  lemma RankedEntry(r: seq<Entry>, m: Groups, i: nat)
    requires Ranking(r, m) && i < |r|
    ensures var g := r[i].keyGroup; g in m && Entry(g, m[g].count, m[g].memory) == r[i]
  {
  }

  /** A group's position in the ranking is the number of groups ahead of it. */
  lemma PositionIsRank(r: seq<Entry>, m: Groups, i: nat)
    requires Ranking(r, m) && i < |r|
    ensures |Ahead(m, r[i])| == i
  {
    hide Before;
    var names := NamesOf(r[..i]);
    forall g: string ensures g in names <==> g in Ahead(m, r[i]) {
      if g in names {
        var j :| 0 <= j < i && names[j] == g;
        RankedEntry(r, m, j);
        assert r[j].keyGroup == g && Before(r[j], r[i]);
      }
      if g in Ahead(m, r[i]) {
        var j :| 0 <= j < |r| && r[j].keyGroup == g;
        RankedEntry(r, m, j);
        NotBeforeEarlier(r, i, j);
        assert names[j] == g;
      }
    }
    assert Distinct(names);
    EnumerationSize(names, Ahead(m, r[i]));
  }

  lemma NotBeforeEarlier(r: seq<Entry>, i: nat, j: nat)
    requires Sorted(r) && i < |r| && j < |r|
    ensures Before(r[j], r[i]) ==> j < i
  {
    BeforeIsStrictTotalOrder(r[i], r[j], r[i]);
  }

  /** The limit applies, some group is itself named `overflow`, and fewer than K are ahead of it. */
  ghost predicate OverflowKept(m: Groups, k: nat) {
    |m| > k && "overflow" in m && |Ahead(m, Entry("overflow", m["overflow"].count, m["overflow"].memory))| < k
  }

  lemma KeptIff(opts: GroupOptions, batches: seq<seq<KeyUsage>>, o: Outcome)
    requires OutcomeOf(opts, Some(batches), o)
    ensures OverflowNameFree(o) <==> !OverflowKept(Gathered(opts.patterns, batches), opts.maxDistinct)
  {
    hide Gathered, Ahead;
    var m, k := Gathered(opts.patterns, batches), opts.maxDistinct;
    if o.Limited? {
      var r: seq<Entry> :| Ranking(r, m) && |r| == |m| && o == Limited(m, OverflowedFrom(r, k));
      if "overflow" in m {
        hide Ranking;
        var i := PositionOf(r, m, "overflow");
        RankedEntry(r, m, i);
        PositionIsRank(r, m, i);
        NameFreeIff(r, m, k, i);
      } else {
        forall i | 0 <= i < k ensures r[i].keyGroup != "overflow" {
          RankedEntry(r, m, i);
        }
      }
    }
  }

  lemma PositionOf(r: seq<Entry>, m: Groups, g: string) returns (i: nat)
    requires Ranking(r, m) && g in m
    ensures i < |r| && r[i].keyGroup == g
  {
    hide Sorted;
    i :| 0 <= i < |r| && r[i].keyGroup == g;
  }

  lemma NameFreeIff(r: seq<Entry>, m: Groups, k: nat, i: nat)
    requires Ranking(r, m) && k <= |r| && i < |r| && r[i].keyGroup == "overflow"
    ensures (forall j :: 0 <= j < k ==> r[..k][j].keyGroup != "overflow") <==> k <= i
  {
    hide Sorted;
    if i < k {
      assert r[..k][i].keyGroup == "overflow";
    }
  }

  /** Two samples of a database collide exactly when the limit applies and a group named `overflow` is
      among the K groups with the most memory. */
  lemma SeriesCollideIff(opts: GroupOptions, db: string, batches: seq<seq<KeyUsage>>, o: Outcome, entries: seq<Entry>)
    requires OutcomeOf(opts, Some(batches), o) && Shown(o, entries)
    ensures !DistinctSeries(OutcomeSamples(db, o, entries)) <==>
            OverflowKept(Gathered(opts.patterns, batches), opts.maxDistinct)
  {
    hide DistinctSeries, OutcomeSamples, OverflowNameFree, OverflowKept, OutcomeOf, Shown;
    SeriesDistinctIff(opts, db, batches, o, entries);
    KeptIff(opts, batches, o);
  }

  function MemoryIn(m: Groups): string -> int { g => if g in m then m[g].memory else 0 }

  function EntriesAt(m: Groups, names: seq<string>): (s: seq<Entry>)
    requires forall i :: 0 <= i < |names| ==> names[i] in m
    ensures |s| == |names|
  {
    seq(|names|, i requires 0 <= i < |names| => Entry(names[i], m[names[i]].count, m[names[i]].memory))
  }

  /** Whatever K groups one keeps, the others have at least the memory that the overflow entry has. */
  lemma NoChoiceFoldsLess(opts: GroupOptions, batches: seq<seq<KeyUsage>>, o: Outcome, kept: set<string>, folded: seq<string>)
    requires OutcomeOf(opts, Some(batches), o) && o.Limited?
    requires kept <= o.groups.Keys && |kept| == opts.maxDistinct && Enumerates(folded, o.groups.Keys - kept)
    ensures o.groups == Gathered(opts.patterns, batches)
    ensures o.overflowed.overflow.memory <= SumBy(folded, MemoryIn(o.groups))
  {
    hide Gathered, SumBy, Ranking, EntriesAt, Enumerates;
    var m, k := o.groups, opts.maxDistinct;
    var r: seq<Entry> :| Ranking(r, m) && |r| == |m| && o == Limited(m, OverflowedFrom(r, k));
    RankingFoldsLeast(m, r, k, kept, folded);
  }

  lemma RankingFoldsLeast(m: Groups, r: seq<Entry>, k: nat, kept: set<string>, folded: seq<string>)
    requires Ranking(r, m) && k <= |r|
    requires kept <= m.Keys && |kept| == k && Enumerates(folded, m.Keys - kept)
    ensures SumBy(r[k..], Memory()) <= SumBy(folded, MemoryIn(m))
  {
    hide SumBy, Sorted, Lists, Enumerates;
    var first := SomeOrder(kept);
    EnumerationSize(first, kept);
    BothEnumerate(first, kept, folded, m.Keys);
    var p := EntriesAt(m, first + folded);
    ListedNames(p, first + folded, m);
    ListsSameEntries(p, r, m);
    OverflowIsLeast(r, p, k);
    assert p[k..] == EntriesAt(m, folded);
    FoldedMemory(m, folded);
  }

  lemma BothEnumerate(a: seq<string>, kept: set<string>, b: seq<string>, all: set<string>)
    requires kept <= all && Enumerates(a, kept) && Enumerates(b, all - kept)
    ensures Enumerates(a + b, all)
    ensures forall i :: 0 <= i < |a + b| ==> (a + b)[i] in all
    ensures forall i :: 0 <= i < |b| ==> b[i] in all
  {
    assert forall i :: 0 <= i < |a| ==> a[i] in a && a[i] in kept;
    assert forall i :: 0 <= i < |b| ==> b[i] in b && b[i] in all - kept;
  }

  lemma FoldedMemory(m: Groups, names: seq<string>)
    requires forall i :: 0 <= i < |names| ==> names[i] in m
    ensures SumBy(EntriesAt(m, names), Memory()) == SumBy(names, MemoryIn(m))
  {
    hide SumBy;
    NamedSum(EntriesAt(m, names), Memory(), MemoryIn(m));
    assert NamesOf(EntriesAt(m, names)) == names;
  }

  // ---------- a collision ----------

  /** One pattern that captures the whole key, and a limit of one group. */
  function WholeKeys(): GroupOptions {
    GroupOptions(Patterns(["(.*)"], (key: string, pattern) => Some([key])), 10, 1)
  }

  function CollidingBatch(): seq<KeyUsage> { [KeyUsage("overflow", Some(2)), KeyUsage("other", Some(1))] }

  function CollidingView(): Groups { map["overflow" := Tally(1, 2), "other" := Tally(1, 1)] }

  function CollidingEntries(): seq<Entry> { [Entry("overflow", 1, 2), Entry("other", 1, 1)] }

  /** The larger group kept, the other folded. */
  function Collision(): Outcome {
    Limited(CollidingView(), Overflowed([Entry("overflow", 1, 2)], Entry("overflow", 1, 1), 2))
  }

  /** Two keys, the larger one called `overflow`: both entries shown have its name. */
  lemma OverflowCollides(db: string)
    ensures var entries := [Entry("overflow", 1, 2), Entry("overflow", 1, 1)];
            && OutcomeOf(WholeKeys(), Some([CollidingBatch()]), Collision()) && Shown(Collision(), entries)
            && !DistinctSeries(OutcomeSamples(db, Collision(), entries))
  {
    hide OutcomeOf, DistinctSeries, OutcomeSamples, DistinctNames, CollidingBatch;
    var entries := [Entry("overflow", 1, 2), Entry("overflow", 1, 1)];
    CollisionReached();
    SeriesDistinctIff(WholeKeys(), db, [CollidingBatch()], Collision(), entries);
    assert Collision().overflowed.top[0].keyGroup == "overflow";
  }

  lemma CollisionReached()
    ensures OutcomeOf(WholeKeys(), Some([CollidingBatch()]), Collision())
  {
    hide Gathered, Ranking, OverflowedFrom, CollidingBatch, CollidingView, CollidingEntries;
    CollidingGroups();
    CollidingRanking();
    CollidingOutcome();
  }

  lemma CollidingGroups()
    ensures Gathered(WholeKeys().patterns, [CollidingBatch()]) == CollidingView()
  {
    var p, batch := WholeKeys().patterns, CollidingBatch();
    var a, b := Charge("overflow", 2), Charge("other", 1);
    JoinedTwo(p, batch, []);
    CollidingCharges();
    hide Charges, Flat;
    TallySnoc([], a);
    TallySnoc([a], b);
    assert [] + [a] == [a] && [a] + [b] == [a, b];
    assert |"overflow"| != |"other"|;
  }

  lemma CollidingCharges()
    ensures Charges(WholeKeys().patterns, CollidingBatch()) == [Charge("overflow", 2), Charge("other", 1)]
  {
    var p, batch := WholeKeys().patterns, CollidingBatch();
    assert batch[..1] == [batch[0]] && batch[..1][..0] == [];
    assert Concat(["overflow"]) == "overflow" by { assert ["overflow"][1..] == []; }
    assert Concat(["other"]) == "other" by { assert ["other"][1..] == []; }
    ChargeStep(p, batch, 0);
    ChargeStep(p, batch, 1);
    assert batch[..2] == batch && batch[..0] == [];
  }

  lemma CollidingRanking()
    ensures Ranking(CollidingEntries(), CollidingView()) && |CollidingEntries()| == |CollidingView()| == 2
  {
    var groups, r := CollidingView(), CollidingEntries();
    assert |"overflow"| != |"other"|;
    assert r[0].keyGroup == "overflow" && r[1].keyGroup == "other";
    assert groups.Keys == {"overflow", "other"};
    assert |groups| == |groups.Keys|;
  }

  lemma CollidingOutcome()
    ensures Collision() == Limited(CollidingView(), OverflowedFrom(CollidingEntries(), 1))
  {
    var r := CollidingEntries();
    assert r[..1] == [r[0]] && r[1..] == [r[1]] && r[1..][..0] == [];
  }
}
