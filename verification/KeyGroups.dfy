/** Key group aggregation (`key_groups.go`): the embedded Lua script, which groups one SCAN batch
    inside the server, and the Go loop that merges the batches. */
module KeyGroups {
  import opened Wrappers
  import opened Sums
  import opened Redis

  datatype Tally = Tally(count: int, memory: int)

  /** `keyGroupMetrics`: a tally together with the name of its group. */
  datatype Entry = Entry(keyGroup: string, count: int, memory: int)

  type Groups = map<string, Tally>

  /** The configured patterns and Lua's `string.find`: the captures when the key matches. */
  datatype Patterns = Patterns(list: seq<string>, find: (string, string) -> Option<seq<string>>)

  // ---------- the Lua script ----------

  function Concat(captures: seq<string>): string {
    if |captures| == 0 then "" else captures[0] + Concat(captures[1..])
  }

  predicate Matches(p: Patterns, key: string, i: nat)
    requires i < |p.list|
  {
    p.find(key, p.list[i]).Some?
  }

  /** `group` is the captures of the first pattern that matches, else "unclassified". */
  ghost predicate Classified(p: Patterns, key: string, group: string) {
    || (group == "unclassified" && forall i :: 0 <= i < |p.list| ==> !Matches(p, key, i))
    || (exists i :: 0 <= i < |p.list| && Matches(p, key, i) && group == Concat(p.find(key, p.list[i]).value)
                    && forall j :: 0 <= j < i ==> !Matches(p, key, j))
  }

  function GroupFrom(p: Patterns, key: string, i: nat): string
    requires i <= |p.list|
    decreases |p.list| - i
  {
    if i == |p.list| then "unclassified"
    else if Matches(p, key, i) then Concat(p.find(key, p.list[i]).value)
    else GroupFrom(p, key, i + 1)
  }

  function GroupOf(p: Patterns, key: string): string { GroupFrom(p, key, 0) }

  lemma {:induction false} GroupFromClassifies(p: Patterns, key: string, i: nat)
    requires i <= |p.list| && forall j :: 0 <= j < i ==> !Matches(p, key, j)
    ensures Classified(p, key, GroupFrom(p, key, i))
    decreases |p.list| - i
  {
    if i < |p.list| && !Matches(p, key, i) {
      GroupFromClassifies(p, key, i + 1);
    }
  }

  /** The pattern loop of the script. */
  method ClassifyKey(p: Patterns, key: string) returns (group: string)
    ensures group == GroupOf(p, key) && Classified(p, key, group)
  {
    GroupFromClassifies(p, key, 0);
    for i := 0 to |p.list|
      invariant GroupFrom(p, key, i) == GroupOf(p, key)
    {
      var captures := p.find(key, p.list[i]);
      if captures.Some? {
        return Concat(captures.value);
      }
    }
    group := "unclassified";
  }

  /** The memory charged to the last key of a batch: its MEMORY USAGE when that is a number, else
      what the key before it was charged, 0 at the start of a batch. */
  function UsageAfter(batch: seq<KeyUsage>): int {
    if |batch| == 0 then 0
    else
      match batch[|batch| - 1].usage
      case Some(n) => n
      case None => UsageAfter(batch[..|batch| - 1])
  }

  datatype Charge = Charge(group: string, amount: int)

  /** What each key of a batch is charged to, and how much. */
  function Charges(p: Patterns, batch: seq<KeyUsage>): (cs: seq<Charge>)
    ensures |cs| == |batch|
  {
    if |batch| == 0 then []
    else
      var n := |batch| - 1;
      Charges(p, batch[..n]) + [Charge(GroupOf(p, batch[n].key), UsageAfter(batch))]
  }

  function GroupTag(): Charge -> string { (c: Charge) => c.group }
  function One(): Charge -> int { (c: Charge) => 1 }
  function Amount(): Charge -> int { (c: Charge) => c.amount }

  function GroupsIn(cs: seq<Charge>): set<string> {
    if |cs| == 0 then {} else GroupsIn(cs[..|cs| - 1]) + {cs[|cs| - 1].group}
  }

  /** The tally of a list of charges: per group, how many and how much in all. */
  function TallyOf(cs: seq<Charge>): (m: Groups)
    ensures m.Keys == GroupsIn(cs)
  {
    map g | g in GroupsIn(cs) :: Tally(SumWhere(cs, GroupTag(), One(), g), SumWhere(cs, GroupTag(), Amount(), g))
  }

  lemma {:induction false} GroupsInMember(cs: seq<Charge>, g: string)
    ensures g in GroupsIn(cs) <==> exists i :: 0 <= i < |cs| && cs[i].group == g
    ensures g !in GroupsIn(cs) ==> SumWhere(cs, GroupTag(), One(), g) == 0 && SumWhere(cs, GroupTag(), Amount(), g) == 0
  {
    if |cs| != 0 {
      var n := |cs| - 1;
      GroupsInMember(cs[..n], g);
      if g in GroupsIn(cs[..n]) {
        var i :| 0 <= i < n && cs[..n][i].group == g;
        assert cs[i].group == g;
      }
    }
  }

  /** One more charge is one more key in its group, as the script's table update has it. */
  lemma TallySnoc(cs: seq<Charge>, c: Charge)
    ensures var before, after := TallyOf(cs), TallyOf(cs + [c]);
            after == before[c.group := if c.group in before
                                       then Tally(before[c.group].count + 1, before[c.group].memory + c.amount)
                                       else Tally(1, c.amount)]
  {
    var all := cs + [c];
    assert all[..|all| - 1] == cs;
    GroupsInMember(cs, c.group);
    assert GroupsIn(all) == GroupsIn(cs) + {c.group};
  }

  /** The key loop of the script. */
  method AggregateBatch(p: Patterns, batch: seq<KeyUsage>) returns (groups: Groups)
    ensures groups == TallyOf(Charges(p, batch))
  {
    hide TallyOf, Charges, UsageAfter;
    groups := map[];
    var usage := 0;
    NothingCharged(p, batch);
    for i := 0 to |batch|
      invariant groups == TallyOf(Charges(p, batch[..i]))
      invariant usage == UsageAfter(batch[..i])
    {
      ChargeStep(p, batch, i);
      if batch[i].usage.Some? {
        usage := batch[i].usage.value;
      }
      TallySnoc(Charges(p, batch[..i]), Charge(GroupOf(p, batch[i].key), usage));
      var group := ClassifyKey(p, batch[i].key);
      if group !in groups {
        groups := groups[group := Tally(1, usage)];
      } else {
        groups := groups[group := Tally(groups[group].count + 1, groups[group].memory + usage)];
      }
    }
  }

  lemma NothingCharged(p: Patterns, batch: seq<KeyUsage>)
    ensures TallyOf(Charges(p, batch[..0])) == map[] && UsageAfter(batch[..0]) == 0 && batch[..|batch|] == batch
  {
  }

  lemma ChargeStep(p: Patterns, batch: seq<KeyUsage>, i: nat)
    requires i < |batch|
    ensures var usage := if batch[i].usage.Some? then batch[i].usage.value else UsageAfter(batch[..i]);
            && UsageAfter(batch[..i + 1]) == usage
            && Charges(p, batch[..i + 1]) == Charges(p, batch[..i]) + [Charge(GroupOf(p, batch[i].key), usage)]
  {
    assert batch[..i + 1][..i] == batch[..i];
  }

  function RowsOf(order: seq<string>, m: Groups): (rows: seq<Entry>)
    requires forall i :: 0 <= i < |order| ==> order[i] in m
    ensures |rows| == |order|
  {
    seq(|order|, i requires 0 <= i < |order| => Entry(order[i], m[order[i]].count, m[order[i]].memory))
  }

  /** The rows the script returns: its table, in the arbitrary order of Lua's `pairs`. */
  method RunScript(p: Patterns, batch: seq<KeyUsage>) returns (rows: seq<Entry>, ghost order: seq<string>)
    ensures var m := TallyOf(Charges(p, batch));
            Enumerates(order, m.Keys) && rows == RowsOf(order, m)
  {
    var groups := AggregateBatch(p, batch);
    var names := IterationOrder(groups.Keys);
    rows := [];
    for i := 0 to |names|
      invariant |rows| == i
      invariant forall j :: 0 <= j < i ==> names[j] in groups
      invariant forall j :: 0 <= j < i ==> rows[j] == Entry(names[j], groups[names[j]].count, groups[names[j]].memory)
    {
      assert names[i] in names;
      var value := groups[names[i]];
      rows := rows + [Entry(names[i], value.count, value.memory)];
    }
    order := names;
  }

  // ---------- merging batches ----------

  function At(m: Groups, g: string): Tally { if g in m then m[g] else Tally(0, 0) }

  function Add(a: Groups, b: Groups): (m: Groups)
    ensures m.Keys == a.Keys + b.Keys
  {
    map g | g in a.Keys + b.Keys :: Tally(At(a, g).count + At(b, g).count, At(a, g).memory + At(b, g).memory)
  }

  lemma TallyConcat(xs: seq<Charge>, ys: seq<Charge>)
    ensures TallyOf(xs + ys) == Add(TallyOf(xs), TallyOf(ys))
  {
    var whole, sum := TallyOf(xs + ys), Add(TallyOf(xs), TallyOf(ys));
    hide GroupsIn, SumWhere;
    forall g: string
      ensures g in whole <==> g in sum
      ensures g in whole ==> whole[g] == sum[g]
    {
      GroupsInConcat(xs, ys, g);
      GroupsInMember(xs, g);
      GroupsInMember(ys, g);
      SumWhereConcat(xs, ys, GroupTag(), One(), g);
      SumWhereConcat(xs, ys, GroupTag(), Amount(), g);
    }
  }

  lemma {:induction false} GroupsInConcat(xs: seq<Charge>, ys: seq<Charge>, g: string)
    ensures g in GroupsIn(xs + ys) <==> g in GroupsIn(xs) || g in GroupsIn(ys)
  {
    if |ys| == 0 {
      assert xs + ys == xs;
    } else {
      assert (xs + ys)[..|xs + ys| - 1] == xs + ys[..|ys| - 1];
      GroupsInConcat(xs, ys[..|ys| - 1], g);
    }
  }

  function Part(m: Groups, names: set<string>): Groups {
    map g | g in m.Keys * names :: m[g]
  }

  lemma PartStep(acc: Groups, m: Groups, done: set<string>, g: string)
    requires g in m && g !in done
    ensures var before := Add(acc, Part(m, done));
            Add(acc, Part(m, done + {g}))
            == before[g := Tally(At(before, g).count + m[g].count, At(before, g).memory + m[g].memory)]
  {
    hide Add, Part;
    PartWith(m, done, g);
    AddWith(acc, Part(m, done), g, m[g]);
  }

  lemma PartWith(m: Groups, done: set<string>, g: string)
    requires g in m && g !in done
    ensures Part(m, done + {g}) == Part(m, done)[g := m[g]] && g !in Part(m, done)
  {
  }

  lemma AddWith(a: Groups, b: Groups, g: string, t: Tally)
    requires g !in b
    ensures Add(a, b[g := t])
         == Add(a, b)[g := Tally(At(Add(a, b), g).count + t.count, At(Add(a, b), g).memory + t.memory)]
  {
    assert Add(a, b[g := t]).Keys == Add(a, b).Keys + {g};
  }

  /** Adding the rows of one reply to what is there already. */
  method MergeRows(allGroups: Groups, rows: seq<Entry>, ghost order: seq<string>, ghost m: Groups) returns (merged: Groups)
    requires Enumerates(order, m.Keys) && (forall i :: 0 <= i < |order| ==> order[i] in m) && rows == RowsOf(order, m)
    ensures merged == Add(allGroups, m)
  {
    merged := allGroups;
    ghost var done: set<string> := {};
    assert Add(allGroups, Part(m, {})) == allGroups;
    hide Add, Part;
    for i := 0 to |rows|
      invariant forall j :: 0 <= j < |order| ==> (order[j] in done <==> j < i)
      invariant merged == Add(allGroups, Part(m, done))
    {
      PartStep(allGroups, m, done, order[i]);
      done := done + {order[i]};
      var row := rows[i];
      if row.keyGroup in merged {
        var current := merged[row.keyGroup];
        merged := merged[row.keyGroup := Tally(current.count + row.count, current.memory + row.memory)];
      } else {
        merged := merged[row.keyGroup := Tally(row.count, row.memory)];
      }
    }
    PartAll(m, order, done);
  }

  lemma PartAll(m: Groups, order: seq<string>, done: set<string>)
    requires Enumerates(order, m.Keys) && forall j :: 0 <= j < |order| ==> order[j] in done
    ensures Part(m, done) == m
  {
    forall g | g in m.Keys ensures g in done {
      assert g in order;
    }
  }

  // ---------- the cursor loop ----------

  /** The batches of a cursor run of the script end, at cursor 0 or with an error. */
  ghost predicate BatchesEnd(srv: Server, db: string, count: int, cursor: int, n: nat)
    decreases n
  {
    match srv.answer(db, KeyGroupScript(cursor, count))
    case Batch(next, _) => AsCursor(next) == 0 || (n > 0 && BatchesEnd(srv, db, count, AsCursor(next), n - 1))
    case _ => true
  }

  ghost predicate GroupsTerminate(srv: Server, db: string, count: int) {
    exists n: nat :: BatchesEnd(srv, db, count, 0, n)
  }

  ghost function BatchesFrom(srv: Server, db: string, count: int, cursor: int, n: nat): Option<seq<seq<KeyUsage>>>
    requires BatchesEnd(srv, db, count, cursor, n)
    decreases n
  {
    match srv.answer(db, KeyGroupScript(cursor, count))
    case Batch(next, keys) =>
      if AsCursor(next) == 0 then Some([keys])
      else Prepend([keys], BatchesFrom(srv, db, count, AsCursor(next), n - 1))
    case _ => None
  }

  lemma {:induction false} BatchesFromUnique(srv: Server, db: string, count: int, cursor: int, m: nat, n: nat)
    requires BatchesEnd(srv, db, count, cursor, m) && BatchesEnd(srv, db, count, cursor, n)
    ensures BatchesFrom(srv, db, count, cursor, m) == BatchesFrom(srv, db, count, cursor, n)
    decreases m
  {
    var reply := srv.answer(db, KeyGroupScript(cursor, count));
    if reply.Batch? && AsCursor(reply.next) != 0 {
      BatchesFromUnique(srv, db, count, AsCursor(reply.next), m - 1, n - 1);
    }
  }

  /** The batches SCAN hands out in database `db`; None when a run of the script fails. */
  ghost function BatchesOf(srv: Server, db: string, count: int): Option<seq<seq<KeyUsage>>>
    requires GroupsTerminate(srv, db, count)
  {
    var n: nat :| BatchesEnd(srv, db, count, 0, n);
    BatchesFrom(srv, db, count, 0, n)
  }

  function ChargesIn(p: Patterns): seq<KeyUsage> -> seq<Charge> {
    batch => Charges(p, batch)
  }

  /** What the cursor loop accumulates over a list of batches. */
  function Gathered(p: Patterns, batches: seq<seq<KeyUsage>>): Groups {
    TallyOf(Flat(batches, ChargesIn(p)))
  }

  lemma GatheredSnoc(p: Patterns, batches: seq<seq<KeyUsage>>, batch: seq<KeyUsage>)
    ensures Gathered(p, batches + [batch]) == Add(Gathered(p, batches), TallyOf(Charges(p, batch)))
  {
    var all := batches + [batch];
    assert all[..|all| - 1] == batches;
    TallyConcat(Flat(batches, ChargesIn(p)), Charges(p, batch));
  }

  /** The length of the run. */
  ghost function BatchesRun(srv: Server, db: string, count: int): (n: nat)
    requires GroupsTerminate(srv, db, count)
    ensures BatchesEnd(srv, db, count, 0, n) && BatchesFrom(srv, db, count, 0, n) == BatchesOf(srv, db, count)
  {
    var n: nat :| BatchesEnd(srv, db, count, 0, n);
    BatchesUnique(srv, db, count, n);
    n
  }

  lemma BatchesUnique(srv: Server, db: string, count: int, n: nat)
    requires GroupsTerminate(srv, db, count) && BatchesEnd(srv, db, count, 0, n)
    ensures BatchesFrom(srv, db, count, 0, n) == BatchesOf(srv, db, count)
  {
    forall k: nat | BatchesEnd(srv, db, count, 0, k)
      ensures BatchesFrom(srv, db, count, 0, k) == BatchesFrom(srv, db, count, 0, n)
    {
      BatchesFromUnique(srv, db, count, 0, k, n);
    }
  }

  lemma GatheredNothing(p: Patterns)
    ensures Gathered(p, []) == map[]
  {
  }

  /** `gatherKeyGroupMetrics`. */
  method GatherKeyGroups(c: Conn, ghost db: string, p: Patterns, count: int) returns (allGroups: Option<Groups>)
    requires c.View().Idle() && c.selected == db && GroupsTerminate(c.server, db, count)
    modifies c
    ensures c.View().Idle() && c.selected == db && GrowsAligned(old(c.log), c.log)
    ensures var batches := BatchesOf(c.server, db, count);
            if batches.None? then allGroups.None? else allGroups == Some(Gathered(p, batches.value))
  {
    hide Gathered, TallyOf, Charges, GroupsTerminate, BatchesOf, AllAligned, AsCursor;
    ghost var n := BatchesRun(c.server, db, count);
    ghost var whole, m, done := BatchesOf(c.server, db, count), n, [];
    var cursor := 0;
    var groups: Groups := map[];
    PrependTwice([], [], whole);
    GrowsNothing(c.log);
    GatheredNothing(p);
    while true
      invariant c.View().Idle() && c.selected == db && GrowsAligned(old(c.log), c.log)
      invariant BatchesEnd(c.server, db, count, cursor, m)
      invariant whole == Prepend(done, BatchesFrom(c.server, db, count, cursor, m))
      invariant groups == Gathered(p, done)
      decreases m
    {
      ghost var log := c.log;
      var reply := c.Ask(db, KeyGroupScript(cursor, count));
      GrowsOne(old(c.log), log, c.log[|log|]);
      if !reply.Batch? {
        return None;
      }
      var rows, order := RunScript(p, reply.keys);
      groups := MergeRows(groups, rows, order, TallyOf(Charges(p, reply.keys)));
      GatheredSnoc(p, done, reply.keys);
      ghost var before := done;
      done := done + [reply.keys];
      cursor := AsCursor(reply.next);
      if cursor == 0 {
        return Some(groups);
      }
      m := m - 1;
      PrependTwice(before, [reply.keys], BatchesFrom(c.server, db, count, cursor, m));
    }
  }

  // ---------- batching independence ----------

  /** A key's own MEMORY USAGE, 0 when it is not a number. */
  function OwnCharge(p: Patterns, k: KeyUsage): Charge {
    Charge(GroupOf(p, k.key), GetOr(k.usage, 0))
  }

  function OwnCharges(p: Patterns, keys: seq<KeyUsage>): (cs: seq<Charge>)
    ensures |cs| == |keys|
  {
    seq(|keys|, i requires 0 <= i < |keys| => OwnCharge(p, keys[i]))
  }

  /** The reference: one pass over all keys, each charged with its own memory usage. */
  function SinglePass(p: Patterns, keys: seq<KeyUsage>): Groups {
    TallyOf(OwnCharges(p, keys))
  }

  function Keys(): seq<KeyUsage> -> seq<KeyUsage> { batch => batch }

  function Joined(batches: seq<seq<KeyUsage>>): seq<KeyUsage> { Flat(batches, Keys()) }

  /** Wherever a reply is not a number, there is nothing to carry over from the keys before. */
  ghost predicate NothingStale(keys: seq<KeyUsage>) {
    forall i :: 0 <= i < |keys| && keys[i].usage.None? ==> UsageAfter(keys[..i + 1]) == 0
  }

  lemma {:induction false} UsageAfterSuffix(a: seq<KeyUsage>, b: seq<KeyUsage>)
    requires b != []
    ensures UsageAfter(a + b) == UsageAfter(b) || (UsageAfter(b) == 0 && forall i :: 0 <= i < |b| ==> b[i].usage.None?)
  {
    var n := |b| - 1;
    assert (a + b)[..|a + b| - 1] == a + b[..n];
    if b[n].usage.None? && n > 0 {
      UsageAfterSuffix(a, b[..n]);
    }
  }

  /** Cutting the keys before `b` off cannot make a charge stale. */
  lemma NothingStaleSuffix(a: seq<KeyUsage>, b: seq<KeyUsage>)
    requires NothingStale(a + b)
    ensures NothingStale(b)
  {
    forall i | 0 <= i < |b| && b[i].usage.None? ensures UsageAfter(b[..i + 1]) == 0 {
      assert (a + b)[|a| + i] == b[i];
      assert (a + b)[..|a| + i + 1] == a + b[..i + 1];
      UsageAfterSuffix(a, b[..i + 1]);
    }
  }

  lemma NothingStalePrefix(a: seq<KeyUsage>, b: seq<KeyUsage>)
    requires NothingStale(a + b)
    ensures NothingStale(a)
  {
    forall i | 0 <= i < |a| && a[i].usage.None? ensures UsageAfter(a[..i + 1]) == 0 {
      assert (a + b)[i] == a[i];
      assert (a + b)[..i + 1] == a[..i + 1];
    }
  }

  lemma {:induction false} ChargesAreOwn(p: Patterns, batch: seq<KeyUsage>)
    requires NothingStale(batch)
    ensures Charges(p, batch) == OwnCharges(p, batch)
  {
    if |batch| != 0 {
      var n := |batch| - 1;
      assert batch == batch[..n] + [batch[n]];
      NothingStalePrefix(batch[..n], [batch[n]]);
      ChargesAreOwn(p, batch[..n]);
      assert batch[..n + 1] == batch;
    }
  }

  lemma {:induction false} BatchedChargesAreOwn(p: Patterns, batches: seq<seq<KeyUsage>>)
    requires NothingStale(Joined(batches))
    ensures Flat(batches, ChargesIn(p)) == OwnCharges(p, Joined(batches))
  {
    if |batches| != 0 {
      var n := |batches| - 1;
      var front, last := Joined(batches[..n]), batches[n];
      NothingStalePrefix(front, last);
      NothingStaleSuffix(front, last);
      BatchedChargesAreOwn(p, batches[..n]);
      ChargesAreOwn(p, last);
      assert OwnCharges(p, front + last) == OwnCharges(p, front) + OwnCharges(p, last);
    }
  }

  lemma BatchedIsSinglePass(p: Patterns, batches: seq<seq<KeyUsage>>)
    requires NothingStale(Joined(batches))
    ensures Gathered(p, batches) == SinglePass(p, Joined(batches))
  {
    BatchedChargesAreOwn(p, batches);
  }

  lemma JoinedOne(a: seq<KeyUsage>)
    ensures Joined([a]) == a
  {
    assert Flat([a], Keys()) == Flat([a][..0], Keys()) + a;
  }

  lemma JoinedTwo(p: Patterns, a: seq<KeyUsage>, b: seq<KeyUsage>)
    ensures Joined([a, b]) == a + b
    ensures Flat([a, b], ChargesIn(p)) == Charges(p, a) + Charges(p, b)
    ensures Flat([a], ChargesIn(p)) == Charges(p, a)
  {
    assert [a, b][..1] == [a] && [a][..0] == [];
    assert Flat([a], ChargesIn(p)) == Flat([a][..0], ChargesIn(p)) + Charges(p, a);
    JoinedOne(a);
  }

  lemma {:induction false} ChargesConcat(p: Patterns, a: seq<KeyUsage>, b: seq<KeyUsage>)
    requires b == [] || b[0].usage.Some?
    ensures Charges(p, a + b) == Charges(p, a) + Charges(p, b)
  {
    if |b| == 0 {
      assert a + b == a;
    } else {
      var n := |b| - 1;
      assert (a + b)[..|a + b| - 1] == a + b[..n];
      ChargesConcat(p, a, b[..n]);
      UsageAfterSuffix(a, b);
      assert b[0].usage.Some?;
    }
  }

  /** The last key with a stale charge: the keys after it, if any, start with a number. */
  lemma {:induction false} LastStale(keys: seq<KeyUsage>, hi: nat) returns (i: nat)
    requires hi <= |keys|
    requires exists j :: 0 <= j < hi && keys[j].usage.None? && UsageAfter(keys[..j + 1]) != 0
    requires forall j :: hi <= j < |keys| && keys[j].usage.None? ==> UsageAfter(keys[..j + 1]) == 0
    ensures i < |keys| && keys[i].usage.None? && UsageAfter(keys[..i + 1]) != 0
    ensures forall j :: i < j < |keys| && keys[j].usage.None? ==> UsageAfter(keys[..j + 1]) == 0
  {
    i := hi - 1;
    if !(keys[i].usage.None? && UsageAfter(keys[..i + 1]) != 0) {
      i := LastStale(keys, hi - 1);
    }
  }

  lemma StaleSplit(p: Patterns, a: seq<KeyUsage>, k: KeyUsage, b: seq<KeyUsage>)
    requires k.usage.None? && UsageAfter(a + [k]) != 0
    requires b == [] || b[0].usage.Some?
    ensures Gathered(p, [a, [k] + b]) != Gathered(p, [a + [k] + b])
  {
    hide Charges, Flat, TallyOf, UsageAfter;
    var g, carried := GroupOf(p, k.key), UsageAfter(a + [k]);
    LastCharge(p, a, k);
    LastCharge(p, [], k);
    FirstUsage(k);
    assert [] + [k] == [k] && [] + [Charge(g, 0)] == [Charge(g, 0)];
    ChargesConcat(p, a + [k], b);
    ChargesConcat(p, [k], b);
    JoinedTwo(p, a, [k] + b);
    JoinedTwo(p, a + [k] + b, []);
    StaleSum(Charges(p, a), Charges(p, b), g, carried);
    assert Charges(p, a) + [Charge(g, 0)] + Charges(p, b) == Charges(p, a) + ([Charge(g, 0)] + Charges(p, b));
  }

  lemma LastCharge(p: Patterns, a: seq<KeyUsage>, k: KeyUsage)
    ensures Charges(p, a + [k]) == Charges(p, a) + [Charge(GroupOf(p, k.key), UsageAfter(a + [k]))]
    ensures Charges(p, []) == []
  {
    hide GroupOf, UsageAfter;
    assert (a + [k])[..|a|] == a;
  }

  lemma FirstUsage(k: KeyUsage)
    requires k.usage.None?
    ensures UsageAfter([k]) == 0
  {
    assert UsageAfter([k]) == UsageAfter([k][..0]);
  }

  lemma UsageCarries(keys: seq<KeyUsage>, i: nat)
    requires i < |keys|
    ensures keys[i].usage.None? ==> UsageAfter(keys[..i + 1]) == UsageAfter(keys[..i])
  {
    assert keys[..i + 1][..i] == keys[..i];
  }

  /** A stale charge shows: splitting the batch right before it changes that group's memory. */
  lemma StaleShows(p: Patterns, keys: seq<KeyUsage>) returns (i: nat)
    requires !NothingStale(keys)
    ensures i < |keys| && Gathered(p, [keys[..i], keys[i..]]) != Gathered(p, [keys])
  {
    i := LastStale(keys, |keys|);
    var a, k, b := keys[..i], keys[i], keys[i + 1..];
    assert keys[..i + 1] == a + [k] && keys == a + [k] + b && keys[i..] == [k] + b;
    if b != [] {
      UsageCarries(keys, i + 1);
    }
    StaleSplit(p, a, k, b);
  }

  lemma StaleSum(a: seq<Charge>, b: seq<Charge>, g: string, carried: int)
    requires carried != 0
    ensures TallyOf(a + [Charge(g, carried)] + b) != TallyOf(a + [Charge(g, 0)] + b)
  {
    forall v: int
      ensures g in TallyOf(a + [Charge(g, v)] + b)
      ensures SumWhere(a + [Charge(g, v)] + b, GroupTag(), Amount(), g)
           == SumWhere(a, GroupTag(), Amount(), g) + v + SumWhere(b, GroupTag(), Amount(), g)
    {
      var one := [Charge(g, v)];
      assert SumWhere(one, GroupTag(), Amount(), g) == SumWhere(one[..0], GroupTag(), Amount(), g) + v;
      SumWhereConcat(a + one, b, GroupTag(), Amount(), g);
      SumWhereConcat(a, one, GroupTag(), Amount(), g);
      assert (a + one + b)[|a|].group == g;
      GroupsInMember(a + one + b, g);
    }
    assert TallyOf(a + [Charge(g, carried)] + b)[g].memory != TallyOf(a + [Charge(g, 0)] + b)[g].memory;
  }

  /** Every way to split the keys into batches gives the single pass's groups, exactly when no
      reply that is not a number follows a number other than 0. */
  lemma BatchingIndependenceIff(p: Patterns, keys: seq<KeyUsage>)
    ensures (forall batches :: Joined(batches) == keys ==> Gathered(p, batches) == SinglePass(p, keys)) <==> NothingStale(keys)
  {
    hide Gathered, SinglePass, NothingStale, Flat;
    if NothingStale(keys) {
      forall batches | Joined(batches) == keys ensures Gathered(p, batches) == SinglePass(p, keys) {
        BatchedIsSinglePass(p, batches);
      }
    } else {
      var i := StaleShows(p, keys);
      JoinedOne(keys);
      JoinedTwo(p, keys[..i], keys[i..]);
      assert keys[..i] + keys[i..] == keys;
    }
  }

  /** With numbers throughout, batching never matters. */
  lemma NumericRepliesNeverStale(keys: seq<KeyUsage>)
    requires forall i :: 0 <= i < |keys| ==> keys[i].usage.Some?
    ensures NothingStale(keys)
  {
  }

  // ---------- counts ----------

  lemma {:induction false} CountsIgnoreUsage(a: seq<Charge>, b: seq<Charge>, g: string)
    requires |a| == |b| && forall i :: 0 <= i < |a| ==> a[i].group == b[i].group
    ensures GroupsIn(a) == GroupsIn(b)
    ensures SumWhere(a, GroupTag(), One(), g) == SumWhere(b, GroupTag(), One(), g)
  {
    if |a| != 0 {
      CountsIgnoreUsage(a[..|a| - 1], b[..|b| - 1], g);
    }
  }

  lemma {:induction false} ChargedGroups(p: Patterns, batch: seq<KeyUsage>)
    ensures forall i :: 0 <= i < |batch| ==> Charges(p, batch)[i].group == GroupOf(p, batch[i].key)
  {
    if |batch| != 0 {
      ChargedGroups(p, batch[..|batch| - 1]);
    }
  }

  lemma {:induction false} GatheredGroups(p: Patterns, batches: seq<seq<KeyUsage>>)
    ensures var cs, keys := Flat(batches, ChargesIn(p)), Joined(batches);
            |cs| == |keys| && forall i :: 0 <= i < |cs| ==> cs[i].group == GroupOf(p, keys[i].key)
  {
    hide GroupOf, Charges;
    if |batches| != 0 {
      var n := |batches| - 1;
      GatheredGroups(p, batches[..n]);
      ChargedGroups(p, batches[n]);
    }
  }

  /** The names and the counts of the groups never depend on batching, whatever the replies: any two
      ways to split the same keys agree on both. */
  lemma CountsIgnoreBatching(p: Patterns, a: seq<seq<KeyUsage>>, b: seq<seq<KeyUsage>>)
    requires Joined(a) == Joined(b)
    ensures Gathered(p, a).Keys == Gathered(p, b).Keys
    ensures forall g :: g in Gathered(p, a) ==> Gathered(p, a)[g].count == Gathered(p, b)[g].count
  {
    hide GroupOf, Charges, GroupsIn, SumWhere, Flat, Joined;
    GatheredGroups(p, a);
    GatheredGroups(p, b);
    var cs, ds := Flat(a, ChargesIn(p)), Flat(b, ChargesIn(p));
    forall g: string
      ensures GroupsIn(cs) == GroupsIn(ds) && SumWhere(cs, GroupTag(), One(), g) == SumWhere(ds, GroupTag(), One(), g)
    {
      CountsIgnoreUsage(cs, ds, g);
    }
    CountsIgnoreUsage(cs, ds, "");
  }
}
