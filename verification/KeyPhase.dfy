/** The key phase of a scrape outside cluster mode (`scrapeRedisHost` in `exporter.go`): checked
    keys, counted keys, streams, the slow log and key groups, one after the other on one connection.
    An error that the checked keys leave unread is returned by the next command; everything here
    says what that costs. */
module KeyPhase {
  import opened Wrappers
  import opened Text
  import opened Sums
  import opened Redis
  import opened Metrics
  import opened KeyInspection
  import opened Pipelining
  import opened Alignment
  import opened Scan
  import opened KeyArguments
  import Streams
  import opened KeyGroupMetrics
  import KeyGroups

  /** The options of the phase. `render` stands for the straight-line emission of a stream's
      samples; `inspectKeys` is false when key inspection is skipped for a master. */
  datatype Options<!S> = Options(
    checkKeys: string, checkSingleKeys: string, countKeys: string, checkStreams: string, checkSingleStreams: string,
    batchSize: int, keys: KeyOptions, decoders: Streams.Decoders<S>,
    render: (string, string, Streams.StreamInfo<S>) -> seq<Sample>,
    groups: GroupOptions, inspectKeys: bool)

  /** Every cursor run ends, as Redis promises of SCAN. */
  ghost predicate ScansEnd(srv: Server, batchSize: int, groupBatchSize: int) {
    && (forall db: string, pattern: string :: ScanTerminates(srv, db, pattern, batchSize))
    && (forall db: string :: KeyGroups.GroupsTerminate(srv, db, groupBatchSize))
  }

  /** The single keys, then the expanded ones unless the expansion fails. */
  ghost function WithExpanded(srv: Server, lost: bool, batchSize: int, singles: seq<DbKey>, keys: seq<DbKey>): seq<DbKey> {
    if AllExpandable(srv, lost, keys) then singles + Flat(keys, ExpandOf(srv, batchSize)) else singles
  }

  method ExpandKeys(c: Conn, batchSize: int, singles: seq<DbKey>, keys: seq<DbKey>) returns (allKeys: seq<DbKey>)
    requires c.outbox == [] && GlobsTerminate(c.server, batchSize, keys)
    modifies c
    ensures Moves(old(c.View()), c.View())
    ensures if HasGlob(keys) then c.View().Idle() else c.View() == old(c.View())
    ensures allKeys == WithExpanded(c.server, old(c.View()).Tainted(), batchSize, singles, keys)
  {
    var ok, expanded, stop := GetKeysFromPatterns(c, keys, batchSize);
    allKeys := if ok then singles + expanded else singles;
  }

  // ---------- checked keys ----------

  /** The keys `extractCheckKeyMetrics` inspects; None when one of the lists does not parse. */
  ghost function CheckedKeys<S>(srv: Server, opts: Options<S>): Option<seq<DbKey>> {
    var keys, singles := Parsed(opts.checkKeys), Parsed(opts.checkSingleKeys);
    if keys.None? || singles.None? then None
    else Some(WithExpanded(srv, false, opts.batchSize, singles.value, keys.value))
  }

  /** The samples of keys that are each read in their own database. */
  ghost function OwnSamples(srv: Server, opts: KeyOptions, keys: seq<DbKey>): multiset<Sample> {
    multiset(Flat(keys, PlainOf(srv, opts))) + multiset(Flat(keys, MissingOf(srv)))
  }

  /** Inspecting `keys` emitted `checked` and took the connection from `before` to `after`: every
      reply was read for the command it answers exactly on the condition of `OrderAligned`, and then
      every sample is made of replies from the database its label names. Nothing is left unread
      exactly when no SELECT and no TYPE is refused; then no database is missing. */
  ghost predicate Inspected(srv: Server, opts: KeyOptions, keys: seq<DbKey>, before: Wire, after: Wire, order: seq<string>,
                            checked: seq<Sample>) {
    && Enumerates(order, Databases(keys))
    && before.log <= after.log
    && (GrowsAligned(before.log, after.log) <==> OrderAligned(srv, order, keys))
    && (OrderAligned(srv, order, keys) ==> multiset(checked) == OwnSamples(srv, opts, Selectable(srv, keys)))
    && (after.inbox == [] <==> KeysOk(srv, keys))
    && (KeysOk(srv, keys) ==> OrderAligned(srv, order, keys) && Selectable(srv, keys) == keys)
  }

  /** The same for the keys of the options. */
  ghost predicate CheckedAs<S>(srv: Server, opts: Options<S>, before: Wire, after: Wire, order: seq<string>, checked: seq<Sample>) {
    match CheckedKeys(srv, opts)
    case None => checked == [] && after == before
    case Some(keys) => Inspected(srv, opts.keys, keys, before, after, order, checked)
  }

  /** `extractCheckKeyMetrics`. */
  method ExtractCheckKeys<S>(ch: Channel, c: Conn, opts: Options<S>) returns (ghost checked: seq<Sample>, ghost order: seq<string>)
    requires c.View().Idle() && ScansEnd(c.server, opts.batchSize, opts.groups.batchSize)
    modifies ch, c
    ensures c.outbox == []
    ensures CheckedAs(c.server, opts, old(c.View()), c.View(), order, checked)
    ensures ch.samples == old(ch.samples) + checked
  {
    hide Parsed, AllAligned, Inspected, GrowsAligned;
    checked, order := [], [];
    ghost var start := c.View();
    var ok, keys := ParseKeyArg(opts.checkKeys);
    if !ok {
      return;
    }
    var singles;
    ok, singles := ParseKeyArg(opts.checkSingleKeys);
    if !ok {
      return;
    }
    var allKeys := ExpandKeys(c, opts.batchSize, singles, keys);
    ghost var expanded := c.View();
    MovesWhenIdle(start, expanded);
    checked, order := InspectPipelined(ch, c, opts.keys, allKeys);
    InspectedFrom(c.server, opts.keys, allKeys, start, expanded, c.View(), order, checked);
  }

  lemma InspectedFrom(srv: Server, opts: KeyOptions, keys: seq<DbKey>, start: Wire, before: Wire, after: Wire, order: seq<string>,
                      checked: seq<Sample>)
    requires GrowsAligned(start.log, before.log) && Inspected(srv, opts, keys, before, after, order, checked)
    ensures Inspected(srv, opts, keys, start, after, order, checked)
  {
    hide OrderAligned, KeysOk, AllAligned, OwnSamples;
    AlignedFrom(start.log, before.log, after.log);
  }

  method InspectPipelined(ch: Channel, c: Conn, opts: KeyOptions, allKeys: seq<DbKey>)
      returns (ghost checked: seq<Sample>, ghost order: seq<string>)
    requires c.View().Idle()
    modifies ch, c
    ensures c.outbox == []
    ensures Inspected(c.server, opts, allKeys, old(c.View()), c.View(), order, checked)
    ensures ch.samples == old(ch.samples) + checked
  {
    hide RunDatabases, Inspected;
    ghost var w := c.View();
    order := ExtractPipelined(ch, c, opts, allKeys);
    checked := RunDatabases(c.server, opts, w, order, allKeys).samples;
    RunInspected(c.server, opts, w, order, allKeys);
  }

  lemma RunInspected(srv: Server, opts: KeyOptions, w: Wire, order: seq<string>, keys: seq<DbKey>)
    requires w.Idle() && Enumerates(order, Databases(keys))
    ensures var p := RunDatabases(srv, opts, w, order, keys);
            Inspected(srv, opts, keys, w, p.wire, order, p.samples)
  {
    hide RunDatabases, KeysOk, OrderAligned, GrowsAligned, Flat;
    PipelineAlignedIff(srv, opts, w, order, keys);
    PipelineDrainsIff(srv, opts, w, order, keys);
    RunLog(srv, opts, w, order, keys);
    if KeysOk(srv, keys) {
      AllSelectable(srv, keys);
    }
    if OrderAligned(srv, order, keys) {
      AlignedReportsOwn(srv, opts, w, order, keys);
    }
  }

  // ---------- counted keys ----------

  ghost function CountKeys<S>(opts: Options<S>): seq<DbKey> {
    GetOr(Parsed(opts.countKeys), [])
  }

  /** The counts; the first one is missing where an error left unread costs it. */
  ghost function CountedSamples<S>(srv: Server, opts: Options<S>, lost: bool): seq<Sample> {
    Flat(Spared(lost, CountKeys(opts)), CountOf(srv, opts.batchSize))
  }

  method ExtractCounts<S>(ch: Channel, c: Conn, opts: Options<S>)
    requires c.outbox == [] && ScansEnd(c.server, opts.batchSize, opts.groups.batchSize)
    modifies ch, c
    ensures Moves(old(c.View()), c.View())
    ensures if CountKeys(opts) == [] then c.View() == old(c.View()) else c.View().Idle()
    ensures ch.samples == old(ch.samples) + CountedSamples(c.server, opts, old(c.View()).Tainted())
  {
    hide Parsed, AllAligned;
    MovesNothing(c.View());
    var ok, keys := ParseKeyArg(opts.countKeys);
    if ok {
      ExtractCountKeys(ch, c, keys, opts.batchSize);
    }
  }

  // ---------- streams ----------

  /** The lists of streams parse, and there is a pattern to expand. */
  ghost predicate ExpandsStreams<S>(opts: Options<S>) {
    Parsed(opts.checkStreams).Some? && Parsed(opts.checkSingleStreams).Some? && HasGlob(Parsed(opts.checkStreams).value)
  }

  ghost function StreamKeys<S>(srv: Server, opts: Options<S>, lost: bool): seq<DbKey> {
    var streams, singles := Parsed(opts.checkStreams), Parsed(opts.checkSingleStreams);
    if streams.None? || singles.None? then []
    else WithExpanded(srv, lost, opts.batchSize, singles.value, streams.value)
  }

  function StreamSamples<S>(opts: Options<S>, k: DbKey, info: Option<Streams.StreamInfo<S>>): seq<Sample> {
    match info
    case None => []
    case Some(i) => opts.render(DbLabel(k.db), k.key, i)
  }

  function RenderAll<S>(opts: Options<S>, ks: seq<DbKey>, infos: seq<Option<Streams.StreamInfo<S>>>): seq<Sample>
    requires |ks| == |infos|
  {
    if |ks| == 0 then []
    else
      var n := |ks| - 1;
      RenderAll(opts, ks[..n], infos[..n]) + StreamSamples(opts, ks[n], infos[n])
  }

  /** `info` is what database `k.db` says about the stream, or nothing if it cannot be selected. */
  ghost predicate StreamInfoOf<S>(srv: Server, opts: Options<S>, k: DbKey, info: Option<Streams.StreamInfo<S>>) {
    if srv.selectable(k.db) then Streams.InfoOf(srv, opts.decoders, k.db, k.key, info) else info.None?
  }

  /** The same, except that an error left unread costs the stream its description. */
  ghost predicate StreamInfoIn<S>(srv: Server, opts: Options<S>, lost: bool, k: DbKey, info: Option<Streams.StreamInfo<S>>) {
    if lost then info.None? else StreamInfoOf(srv, opts, k, info)
  }

  method ExtractStream<S>(ch: Channel, c: Conn, opts: Options<S>, k: DbKey) returns (info: Option<Streams.StreamInfo<S>>)
    requires c.outbox == []
    modifies ch, c
    ensures c.View().Idle() && Moves(old(c.View()), c.View())
    ensures StreamInfoIn(c.server, opts, old(c.View()).Tainted(), k, info)
    ensures ch.samples == old(ch.samples) + StreamSamples(opts, k, info)
  {
    ghost var before := c.View();
    var ok := c.SelectDatabase(k.db);
    if !ok {
      return None;
    }
    ghost var selected := c.View();
    info := Streams.GetStreamInfo(c, k.db, opts.decoders, k.key);
    MovesOn(before, selected, c.View());
    if info.Some? {
      ch.EmitAll(opts.render(DbLabel(k.db), k.key, info.value));
    }
  }

  /** A described stream's samples are labelled with its own database and key; the samples of a list are
      those of its streams, in order. */
  lemma StreamLabelled<S>(opts: Options<S>, ks: seq<DbKey>, infos: seq<Option<Streams.StreamInfo<S>>>, k: DbKey,
                          info: Streams.StreamInfo<S>)
    requires |ks| == |infos|
    ensures RenderAll(opts, ks + [k], infos + [Some(info)]) == RenderAll(opts, ks, infos) + opts.render("db" + k.db, k.key, info)
    ensures RenderAll(opts, ks + [k], infos + [None]) == RenderAll(opts, ks, infos)
    ensures RenderAll(opts, [], []) == []
  {
    assert (ks + [k])[..|ks|] == ks && (infos + [Some(info)])[..|ks|] == infos && (infos + [None])[..|ks|] == infos;
  }

  lemma RenderStep<S>(opts: Options<S>, ks: seq<DbKey>, i: nat, infos: seq<Option<Streams.StreamInfo<S>>>,
                      info: Option<Streams.StreamInfo<S>>, base: seq<Sample>)
    requires i < |ks| && |infos| == i
    ensures base + RenderAll(opts, ks[..i + 1], infos + [info])
         == base + RenderAll(opts, ks[..i], infos) + StreamSamples(opts, ks[i], info)
  {
    assert ks[..i + 1][..i] == ks[..i] && (infos + [info])[..i] == infos;
  }

  lemma RenderNothing<S>(opts: Options<S>, ks: seq<DbKey>)
    ensures RenderAll(opts, ks[..0], []) == [] && ks[..|ks|] == ks
  {
  }

  /** The infos of a list of streams, the first one lost where an error is left unread. */
  ghost predicate StreamInfos<S>(srv: Server, opts: Options<S>, lost: bool, ks: seq<DbKey>, infos: seq<Option<Streams.StreamInfo<S>>>) {
    |infos| == |ks| && forall i :: 0 <= i < |ks| ==> StreamInfoIn(srv, opts, lost && i == 0, ks[i], infos[i])
  }

  /** `extractStreamMetrics`. An error left unread costs the expansion where there is one, else the
      first stream. */
  method ExtractStreams<S>(ch: Channel, c: Conn, opts: Options<S>) returns (ghost infos: seq<Option<Streams.StreamInfo<S>>>)
    requires c.outbox == [] && ScansEnd(c.server, opts.batchSize, opts.groups.batchSize)
    modifies ch, c
    ensures Moves(old(c.View()), c.View())
    ensures var lost := old(c.View()).Tainted();
            var ks := StreamKeys(c.server, opts, lost);
            && StreamInfos(c.server, opts, lost && !ExpandsStreams(opts), ks, infos)
            && ch.samples == old(ch.samples) + RenderAll(opts, ks, infos)
            && if ks == [] && !ExpandsStreams(opts) then c.View() == old(c.View()) else c.View().Idle()
  {
    hide Parsed, AllAligned, Moves, HasGlob, StreamInfoIn, WithExpanded;
    infos := [];
    ghost var start := c.View();
    MovesNothing(start);
    var ok, streams := ParseKeyArg(opts.checkStreams);
    if !ok {
      return;
    }
    var singles;
    ok, singles := ParseKeyArg(opts.checkSingleStreams);
    if !ok {
      return;
    }
    var ks := ExpandKeys(c, opts.batchSize, singles, streams);
    ghost var expanded := c.View();
    infos := ExtractStreamList(ch, c, opts, ks);
    MovesTransitive(start, expanded, c.View());
  }

  method ExtractStreamList<S>(ch: Channel, c: Conn, opts: Options<S>, ks: seq<DbKey>)
      returns (ghost infos: seq<Option<Streams.StreamInfo<S>>>)
    requires c.outbox == []
    modifies ch, c
    ensures Moves(old(c.View()), c.View())
    ensures if ks == [] then c.View() == old(c.View()) else c.View().Idle()
    ensures StreamInfos(c.server, opts, old(c.View()).Tainted(), ks, infos)
    ensures ch.samples == old(ch.samples) + RenderAll(opts, ks, infos)
  {
    hide RenderAll, StreamInfoIn, StreamSamples, Moves;
    infos := [];
    ghost var start := c.View();
    MovesNothing(start);
    RenderNothing(opts, ks);
    for i := 0 to |ks|
      invariant Moves(start, c.View())
      invariant if i == 0 then c.View() == start else c.View().Idle()
      invariant StreamInfos(c.server, opts, start.Tainted(), ks[..i], infos)
      invariant ch.samples == old(ch.samples) + RenderAll(opts, ks[..i], infos)
    {
      ghost var before := c.View();
      var info := ExtractStream(ch, c, opts, ks[i]);
      MovesTransitive(start, before, c.View());
      RenderStep(opts, ks, i, infos, info, old(ch.samples));
      infos := infos + [info];
    }
  }

  // ---------- the slow log ----------

  /** The id and the duration of the newest entry, 0 where the reply has no such number. */
  function NewestEntry(values: seq<Reply>): (int, int) {
    var entry: seq<Reply> := if |values| == 0 then [] else GetOr(AsValues(values[0]), []);
    (if |entry| > 0 && entry[0].Integer? then entry[0].n else 0,
     if |entry| > 2 && entry[2].Integer? then entry[2].n else 0)
  }

  function LengthSamples(reply: Reply): seq<Sample> {
    match AsInt64(reply)
    case None => []
    case Some(n) => [Sample("slowlog_length", n as real, [])]
  }

  function NewestSamples(reply: Reply): seq<Sample> {
    match AsValues(reply)
    case None => []
    case Some(values) =>
      var (id, usecs) := NewestEntry(values);
      [Sample("slowlog_last_id", id as real, []),
       Sample("last_slow_execution_duration_seconds", usecs as real / 1000000.0, [])]
  }

  /** What the slow log emits; its length is missing where an error left unread costs it. */
  function SlowLogSamples(srv: Server, db: string, lost: bool): seq<Sample> {
    (if lost then [] else LengthSamples(srv.answer(db, SlowLogLen))) + NewestSamples(srv.answer(db, SlowLogGet))
  }

  /** The newest entry is a list of its id, the time it was logged, its duration, and more; durations are
      printed in microseconds and reported in seconds. */
  lemma SlowLogRead(srv: Server, db: string, length: int, id: int, time: Reply, usecs: int, more: seq<Reply>, older: seq<Reply>)
    requires srv.answer(db, SlowLogLen) == Integer(length)
    requires srv.answer(db, SlowLogGet) == Array([Array([Integer(id), time, Integer(usecs)] + more)] + older)
    ensures var newest := [Sample("slowlog_last_id", id as real, []),
                           Sample("last_slow_execution_duration_seconds", usecs as real / 1000000.0, [])];
            && SlowLogSamples(srv, db, false) == [Sample("slowlog_length", length as real, [])] + newest
            && SlowLogSamples(srv, db, true) == newest
  {
    var entry := [Integer(id), time, Integer(usecs)] + more;
    assert ([Array(entry)] + older)[0] == Array(entry) && entry[0] == Integer(id) && entry[2] == Integer(usecs);
  }

  /** Without entries id and duration are 0; a refused reply says nothing. */
  lemma SlowLogEmpty(srv: Server, db: string)
    requires srv.answer(db, SlowLogLen).Error?
    ensures srv.answer(db, SlowLogGet) == Array([]) ==>
              SlowLogSamples(srv, db, false)
              == [Sample("slowlog_last_id", 0.0, []), Sample("last_slow_execution_duration_seconds", 0.0, [])]
    ensures srv.answer(db, SlowLogGet).Error? ==> SlowLogSamples(srv, db, false) == []
  {
  }

  ghost predicate SlowLogOf(srv: Server, lost: bool, samples: seq<Sample>) {
    exists db: string :: samples == SlowLogSamples(srv, db, lost)
  }

  /** `extractSlowLogMetrics`, whose first command reads whatever is left unread. */
  method ExtractSlowLog(ch: Channel, c: Conn) returns (ghost slow: seq<Sample>)
    requires c.outbox == []
    modifies ch, c
    ensures c.View().Idle() && Moves(old(c.View()), c.View())
    ensures SlowLogOf(c.server, old(c.View()).Tainted(), slow)
    ensures ch.samples == old(ch.samples) + slow
  {
    hide LengthSamples, NewestSamples;
    ghost var before, base := c.View(), ch.samples;
    var reply := DrainSlowLogLength(c);
    ghost var drained := c.View();
    ch.EmitAll(LengthSamples(reply));
    reply := c.Ask(c.selected, SlowLogGet);
    MovesOn(before, drained, c.View());
    ch.EmitAll(NewestSamples(reply));
    slow := SlowLogSamples(c.server, c.selected, before.Tainted());
    assert ch.samples == base + slow;
  }

  method DrainSlowLogLength(c: Conn) returns (reply: Reply)
    requires c.outbox == []
    modifies c
    ensures c.View().Idle() && Moves(old(c.View()), c.View()) && |old(c.log)| < |c.log| && c.selected == old(c.selected)
    ensures LengthSamples(reply) == if old(c.View()).Tainted() then [] else LengthSamples(c.server.answer(c.selected, SlowLogLen))
  {
    hide Moves, LengthSamples, Wire.Do, Wire.DoReply, Wire.Tainted;
    DoDrains(c.server, c.View(), c.selected, SlowLogLen);
    DoMoves(c.server, c.View(), SlowLogLen);
    reply := c.Do(c.selected, SlowLogLen);
    ErrorHasNoLength(reply);
  }

  lemma ErrorHasNoLength(reply: Reply)
    ensures reply.Error? ==> LengthSamples(reply) == []
  {
  }

  // ---------- key groups ----------

  function GroupSamples(outcomes: seq<Outcome>, shown: seq<seq<KeyGroups.Entry>>): seq<Sample>
    requires |outcomes| == |shown|
  {
    if |outcomes| == 0 then []
    else
      var n := |outcomes| - 1;
      GroupSamples(outcomes[..n], shown[..n]) + OutcomeSamples(Itoa(n), outcomes[n], shown[n])
  }

  /** A sample about key groups is labelled with the database whose outcome it is made of. */
  lemma {:induction false} GroupLabelled(outcomes: seq<Outcome>, shown: seq<seq<KeyGroups.Entry>>, s: Sample) returns (i: nat)
    requires |outcomes| == |shown| && s in GroupSamples(outcomes, shown)
    ensures i < |outcomes| && s in OutcomeSamples(Itoa(i), outcomes[i], shown[i])
    ensures |s.labels| >= 1 && s.labels[0] == "db" + Itoa(i)
  {
    hide OutcomeSamples;
    var n := |outcomes| - 1;
    if s in GroupSamples(outcomes[..n], shown[..n]) {
      i := GroupLabelled(outcomes[..n], shown[..n], s);
    } else {
      i := n;
      OutcomeLabelled(Itoa(n), outcomes[n], shown[n], s);
    }
  }

  lemma OutcomeLabelled(db: string, o: Outcome, entries: seq<KeyGroups.Entry>, s: Sample)
    requires s in OutcomeSamples(db, o, entries)
    ensures |s.labels| >= 1 && s.labels[0] == "db" + db
  {
    FlatEntriesAt(db, entries);
    var samples := OutcomeSamples(db, o, entries);
    var k :| 0 <= k < |samples| && samples[k] == s;
    if k < 2 * |entries| {
      SampleAt(db, entries, k);
    }
  }

  lemma GroupStep(outcomes: seq<Outcome>, i: nat, shown: seq<seq<KeyGroups.Entry>>, entries: seq<KeyGroups.Entry>,
                  base: seq<Sample>)
    requires i < |outcomes| && |shown| == i
    ensures base + GroupSamples(outcomes[..i + 1], shown + [entries])
         == base + GroupSamples(outcomes[..i], shown) + OutcomeSamples(Itoa(i), outcomes[i], entries)
  {
    assert outcomes[..i + 1][..i] == outcomes[..i] && (shown + [entries])[..i] == shown;
  }

  /** What each database 0..n-1 contributes: its own outcome, shown in some order; database 0 is
      skipped where an error left unread costs its SELECT. */
  ghost predicate GroupsShown(srv: Server, opts: GroupOptions, lost: bool, outcomes: seq<Outcome>,
                              shown: seq<seq<KeyGroups.Entry>>)
    requires forall db: string :: KeyGroups.GroupsTerminate(srv, db, opts.batchSize)
  {
    && |outcomes| == |shown|
    && forall i :: 0 <= i < |outcomes| ==>
         OutcomeIn(srv, opts, i == 0 && lost, Itoa(i), outcomes[i]) && Shown(outcomes[i], shown[i])
  }

  /** `extractKeyGroupMetrics`: all databases are gathered before the first sample is emitted. */
  method ExtractKeyGroups(ch: Channel, c: Conn, opts: GroupOptions, dbCount: nat)
      returns (ghost outcomes: seq<Outcome>, ghost shown: seq<seq<KeyGroups.Entry>>)
    requires c.outbox == [] && forall db: string :: KeyGroups.GroupsTerminate(c.server, db, opts.batchSize)
    modifies ch, c
    ensures Moves(old(c.View()), c.View())
    ensures |outcomes| == dbCount && GroupsShown(c.server, opts, old(c.View()).Tainted(), outcomes, shown)
    ensures ch.samples == old(ch.samples) + GroupSamples(outcomes, shown)
  {
    hide OutcomeIn, Shown, GroupSamples, Moves;
    var gathered := GatherAllDatabases(c, opts, dbCount);
    outcomes := gathered;
    shown := EmitOutcomes(ch, gathered);
  }

  method EmitOutcomes(ch: Channel, outcomes: seq<Outcome>) returns (ghost shown: seq<seq<KeyGroups.Entry>>)
    modifies ch
    ensures |shown| == |outcomes| && forall i :: 0 <= i < |outcomes| ==> Shown(outcomes[i], shown[i])
    ensures ch.samples == old(ch.samples) + GroupSamples(outcomes, shown)
  {
    shown := [];
    assert GroupSamples(outcomes[..0], shown) == [] && outcomes[..|outcomes|] == outcomes;
    hide GroupSamples, Shown, OutcomeSamples;
    for i := 0 to |outcomes|
      invariant |shown| == i && forall j :: 0 <= j < i ==> Shown(outcomes[j], shown[j])
      invariant ch.samples == old(ch.samples) + GroupSamples(outcomes[..i], shown)
    {
      ghost var entries := EmitOutcome(ch, Itoa(i), outcomes[i]);
      GroupStep(outcomes, i, shown, entries, old(ch.samples));
      shown := shown + [entries];
    }
  }

  // ---------- the phase ----------

  /** What the key phase emits, family by family, and the order in which the databases of the checked
      keys were visited. */
  datatype Emitted<S> = Emitted(
    order: seq<string>, checked: seq<Sample>, counted: seq<Sample>,
    infos: seq<Option<Streams.StreamInfo<S>>>, streams: seq<Sample>, slow: seq<Sample>,
    outcomes: seq<Outcome>, shown: seq<seq<KeyGroups.Entry>>)

  /** An error left unread by the checked keys is still there after the counts. */
  ghost predicate LostAfterCounts<S>(opts: Options<S>, lost: bool) { lost && CountKeys(opts) == [] }

  ghost predicate LostAfterStreams<S>(srv: Server, opts: Options<S>, lost: bool) {
    lost && !ExpandsStreams(opts) && StreamKeys(srv, opts, lost) == []
  }

  /** The counts, streams and slow log, `lost` saying whether the checked keys left an error unread:
      it costs the first count, or where there is none the expansion of the streams, or where there
      is none the first stream, or where there is none the length of the slow log, and never more
      than one of these. All the rest is made of replies from the databases named. */
  ghost predicate NamedAs<S>(srv: Server, opts: Options<S>, lost: bool, e: Emitted<S>) {
    var lostAtStreams := LostAfterCounts(opts, lost);
    var ks := StreamKeys(srv, opts, lostAtStreams);
    && e.counted == CountedSamples(srv, opts, lost)
    && StreamInfos(srv, opts, lostAtStreams && !ExpandsStreams(opts), ks, e.infos)
    && e.streams == RenderAll(opts, ks, e.infos)
    && SlowLogOf(srv, LostAfterStreams(srv, opts, lostAtStreams), e.slow)
  }

  /** Every sample but those of checked keys after a refused SELECT or TYPE is made of replies from
      the database its label names. Nothing here depends on the database that was selected when the
      phase began, or on what the checked keys left selected. The key groups lose nothing. */
  ghost predicate OwnDatabases<S>(srv: Server, opts: Options<S>, dbCount: nat, before: Wire, inspected: Wire, e: Emitted<S>)
    requires ScansEnd(srv, opts.batchSize, opts.groups.batchSize)
  {
    && |e.outcomes| == dbCount && GroupsShown(srv, opts.groups, false, e.outcomes, e.shown)
    && if opts.inspectKeys then
         CheckedAs(srv, opts, before, inspected, e.order, e.checked) && NamedAs(srv, opts, inspected.Tainted(), e)
       else
         inspected == before && e.checked == [] && e.counted == [] && e.streams == [] && SlowLogOf(srv, false, e.slow)
  }

  /** The counted keys, the streams and the slow log. */
  method InspectNamed<S>(ch: Channel, c: Conn, opts: Options<S>, ghost order: seq<string>, ghost checked: seq<Sample>)
      returns (ghost e: Emitted<S>)
    requires c.outbox == [] && ScansEnd(c.server, opts.batchSize, opts.groups.batchSize)
    modifies ch, c
    ensures c.View().Idle() && Moves(old(c.View()), c.View())
    ensures e.order == order && e.checked == checked && NamedAs(c.server, opts, old(c.View()).Tainted(), e)
    ensures ch.samples == old(ch.samples) + e.counted + e.streams + e.slow
  {
    hide CountedSamples, StreamKeys, RenderAll, StreamInfoIn, Moves, ScansEnd, SlowLogOf, ExpandsStreams, CountKeys;
    ghost var start := c.View();
    ExtractCounts(ch, c, opts);
    ghost var counted := c.View();
    assert counted.Tainted() == LostAfterCounts(opts, start.Tainted());
    ghost var infos := ExtractStreams(ch, c, opts);
    MovesTransitive(start, counted, c.View());
    ghost var streamed := c.View();
    assert streamed.Tainted() == LostAfterStreams(c.server, opts, counted.Tainted());
    ghost var slow := ExtractSlowLog(ch, c);
    MovesTransitive(start, streamed, c.View());
    e := Emitted(order, checked, CountedSamples(c.server, opts, start.Tainted()), infos,
                 RenderAll(opts, StreamKeys(c.server, opts, counted.Tainted()), infos), slow, [], []);
  }

  /** The key phase, for every server: `inspected` is the connection after the checked keys. From
      there on every reply is read for the command that asked for it, in the database that is meant,
      except that the first command may be given an error left unread. */
  method RunKeyPhase<S>(ch: Channel, c: Conn, opts: Options<S>, dbCount: nat) returns (ghost e: Emitted<S>, ghost inspected: Wire)
    requires c.View().Idle() && ScansEnd(c.server, opts.batchSize, opts.groups.batchSize)
    modifies ch, c
    ensures c.View().Idle() && Moves(inspected, c.View())
    ensures OwnDatabases(c.server, opts, dbCount, old(c.View()), inspected, e)
    ensures ch.samples == old(ch.samples) + e.checked + e.counted + e.streams + e.slow + GroupSamples(e.outcomes, e.shown)
  {
    hide CheckedAs, NamedAs, Moves, GroupSamples, GroupsShown, SlowLogOf;
    ghost var start := c.View();
    inspected := start;
    if opts.inspectKeys {
      ghost var checked, order := ExtractCheckKeys(ch, c, opts);
      inspected := c.View();
      e := InspectNamed(ch, c, opts, order, checked);
    } else {
      ghost var slow := ExtractSlowLog(ch, c);
      e := Emitted([], [], [], [], [], slow, [], []);
    }
    ghost var named := c.View();
    ghost var outcomes, shown := ExtractKeyGroups(ch, c, opts.groups, dbCount);
    MovesTransitive(inspected, named, c.View());
    MovesWhenIdle(named, c.View());
    NamedStays(c.server, opts, inspected.Tainted(), e, outcomes, shown);
    e := e.(outcomes := outcomes, shown := shown);
  }

  lemma NamedStays<S>(srv: Server, opts: Options<S>, lost: bool, e: Emitted<S>, outcomes: seq<Outcome>,
                      shown: seq<seq<KeyGroups.Entry>>)
    ensures NamedAs(srv, opts, lost, e) ==> NamedAs(srv, opts, lost, e.(outcomes := outcomes, shown := shown))
  {
  }
}
