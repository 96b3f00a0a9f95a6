/** What the pipelined path of `keys.go` owes to the one-at-a-time path: replies stay paired with
    their commands, none is left over, and the samples are the same. */
module Pipelining {
  import opened Wrappers
  import opened Sums
  import opened Redis
  import opened Metrics
  import opened KeyInspection

  ghost predicate TypesOk(srv: Server, db: string, ks: seq<string>) {
    forall i :: 0 <= i < |ks| ==> srv.TypeOk(db, ks[i])
  }

  // ---------- what the server says about a key, and what the pipelined path makes of it ----------

  function TypeOf(srv: Server, db: string, key: string): string {
    GetOr(AsString(srv.answer(db, Type(key))), "")
  }

  function TypesOf(srv: Server, db: string, ks: seq<string>): (types: seq<string>)
    ensures |types| == |ks|
  {
    if |ks| == 0 then [] else TypesOf(srv, db, ks[..|ks| - 1]) + [TypeOf(srv, db, ks[|ks| - 1])]
  }

  /** The samples of the second pipeline, from the replies to the key's own commands. */
  function PipelinedInfo(srv: Server, opts: KeyOptions, db: string, key: string): seq<Sample> {
    var keyType := TypeOf(srv, db, key);
    if keyType == "none" then [SizeSample(db, key, 0)]
    else if keyType == "string" then
      StringSamples(opts, db, key, srv.answer(db, PfCount(key)), srv.answer(db, StrLen(key)), srv.answer(db, Get(key)))
    else
      match SizeCommand(keyType)
      case None => []
      case Some(op) =>
        match AsInt64(srv.answer(db, Size(op, key)))
        case None => []
        case Some(n) => [SizeSample(db, key, n)]
  }

  function MemoryOf(srv: Server, db: string): string -> seq<Sample> {
    key => KeyMemory(srv, db, db, key)
  }

  function InfoOf(srv: Server, opts: KeyOptions, db: string): string -> seq<Sample> {
    key => PipelinedInfo(srv, opts, db, key)
  }

  function DatabaseSamples(srv: Server, opts: KeyOptions, db: string, ks: seq<string>): seq<Sample> {
    Flat(ks, MemoryOf(srv, db)) + Flat(ks, InfoOf(srv, opts, db))
  }

  // ---------- alignment ----------

  lemma ExchangesConcat(srv: Server, db: string, a: seq<Command>, b: seq<Command>)
    ensures Exchanges(srv, db, a + b) == Exchanges(srv, db, a) + Exchanges(srv, db, b)
    ensures Exchanges(srv, db, []) == []
  {
  }

  lemma TypeStepAligned(srv: Server, p: TypePass, db: string, key: string, rest: seq<Exchange>)
    requires srv.TypeOk(db, key)
    requires p.wire.inbox == [ExchangeIn(srv, db, Type(key)), ExchangeIn(srv, db, MemoryUsage(key))] + rest
    ensures var r := TypeStep(p, db, key);
            && r.wire == p.wire.(inbox := rest, log := r.wire.log)
            && GrowsAligned(p.wire.log, r.wire.log)
            && r.types == p.types + [TypeOf(srv, db, key)]
            && r.samples == p.samples + KeyMemory(srv, db, db, key)
  {
    assert p.wire.inbox[1..] == [ExchangeIn(srv, db, MemoryUsage(key))] + rest;
    assert p.wire.inbox[1..][1..] == rest;
  }

  lemma {:induction false} ReadTypesAligned(srv: Server, w: Wire, db: string, ks: seq<string>, rest: seq<Exchange>)
    requires TypesOk(srv, db, ks)
    requires w.inbox == Exchanges(srv, db, TypeCommands(ks)) + rest
    ensures var p := ReadTypes(w, db, ks);
            && p.wire == w.(inbox := rest, log := p.wire.log)
            && GrowsAligned(w.log, p.wire.log)
            && p.types == TypesOf(srv, db, ks)
            && p.samples == Flat(ks, MemoryOf(srv, db))
  {
    if |ks| == 0 {
      assert w.inbox == rest;
    } else {
      var n := |ks| - 1;
      var key := ks[n];
      var own := [ExchangeIn(srv, db, Type(key)), ExchangeIn(srv, db, MemoryUsage(key))];
      ExchangesConcat(srv, db, TypeCommands(ks[..n]), [Type(key), MemoryUsage(key)]);
      assert Exchanges(srv, db, [Type(key), MemoryUsage(key)]) == own;
      assert w.inbox == Exchanges(srv, db, TypeCommands(ks[..n])) + (own + rest);
      ReadTypesAligned(srv, w, db, ks[..n], own + rest);
      var before := ReadTypes(w, db, ks[..n]);
      TypeStepAligned(srv, before, db, key, rest);
      GrowsTransitive(w.log, before.wire.log, ReadTypes(w, db, ks).wire.log);
    }
  }

  lemma {:induction false} ReadInfoAligned(srv: Server, opts: KeyOptions, w: Wire, db: string, ks: seq<string>,
                                          types: seq<string>, rest: seq<Exchange>)
    requires types == TypesOf(srv, db, ks)
    requires w.inbox == Exchanges(srv, db, InfoCommands(ks, types)) + rest
    ensures var q := ReadInfo(w, opts, db, ks, types);
            && q.wire == w.(inbox := rest, log := q.wire.log)
            && GrowsAligned(w.log, q.wire.log)
            && q.samples == Flat(ks, InfoOf(srv, opts, db))
  {
    hide InfoStep, KeyCommands, PipelinedInfo, AllAligned, TypeOf, Exchanges;
    if |ks| == 0 {
      ExchangesConcat(srv, db, [], []);
      GrowsNothing(w.log);
      assert w.inbox == rest;
    } else {
      var n := |ks| - 1;
      var own := KeyCommands(ks[n], types[n]);
      assert types[..n] == TypesOf(srv, db, ks[..n]);
      ExchangesConcat(srv, db, InfoCommands(ks[..n], types[..n]), own);
      var after := Exchanges(srv, db, own) + rest;
      assert w.inbox == Exchanges(srv, db, InfoCommands(ks[..n], types[..n])) + after;
      ReadInfoAligned(srv, opts, w, db, ks[..n], types[..n], after);
      var before := ReadInfo(w, opts, db, ks[..n], types[..n]);
      InfoStepAligned(srv, opts, before, db, ks[n], rest);
      GrowsTransitive(w.log, before.wire.log, ReadInfo(w, opts, db, ks, types).wire.log);
    }
  }

  lemma InfoStepAligned(srv: Server, opts: KeyOptions, q: Pass, db: string, key: string, rest: seq<Exchange>)
    requires q.wire.inbox == Exchanges(srv, db, KeyCommands(key, TypeOf(srv, db, key))) + rest
    ensures var r := InfoStep(q, opts, db, key, TypeOf(srv, db, key));
            && r.wire == q.wire.(inbox := rest, log := r.wire.log)
            && GrowsAligned(q.wire.log, r.wire.log)
            && r.samples == q.samples + PipelinedInfo(srv, opts, db, key)
  {
    var keyType := TypeOf(srv, db, key);
    var inbox := q.wire.inbox;
    if keyType == "string" {
      assert inbox[1..][1..][1..] == rest;
    } else if SizeCommand(keyType).Some? {
      assert inbox[1..] == rest;
    } else {
      assert inbox == rest;
    }
  }

  lemma KeysPassAligned(srv: Server, opts: KeyOptions, w: Wire, db: string, ks: seq<string>)
    requires w.outbox == [] && w.selected == db && TypesOk(srv, db, ks)
    requires w.inbox == Exchanges(srv, db, TypeCommands(ks))
    ensures var p := KeysPass(srv, opts, w, db, ks);
            && p.wire == Wire(db, [], [], p.wire.log)
            && GrowsAligned(w.log, p.wire.log)
            && p.samples == DatabaseSamples(srv, opts, db, ks)
  {
    assert w.inbox == Exchanges(srv, db, TypeCommands(ks)) + [];
    ReadTypesAligned(srv, w, db, ks, []);
    var p := ReadTypes(w, db, ks);
    var info := InfoCommands(ks, p.types);
    InfoCommandsNoSelect(ks, p.types);
    hide ReadTypes, ReadInfo, TypesOf, Flat, AllAligned, TypeCommands, InfoCommands;
    ShipInSelected(srv, p.wire, info);
    var w2 := p.wire.SendAll(info).Flush(srv);
    assert w2.inbox == Exchanges(srv, db, info) + [];
    ReadInfoAligned(srv, opts, w2, db, ks, p.types, []);
    GrowsTransitive(w.log, p.wire.log, ReadInfo(w2, opts, db, ks, p.types).wire.log);
  }

  lemma ShipInSelected(srv: Server, w: Wire, cmds: seq<Command>)
    requires w.Idle() && NoSelect(cmds)
    ensures w.SendAll(cmds).Flush(srv) == w.(inbox := Exchanges(srv, w.selected, cmds))
  {
    ExecuteNoSelect(srv, w.selected, cmds);
    assert w.SendAll(cmds).outbox == cmds;
  }

  lemma ShipSelect(srv: Server, w: Wire, db: string, cmds: seq<Command>)
    requires w.Idle() && NoSelect(cmds) && srv.selectable(db)
    ensures var sent := w.SendAll([Select(db)] + cmds).Flush(srv);
            && sent.inbox[0] == Exchange(db, Select(db), Status("OK"))
            && sent.Receive(db, Select(db)) == Wire(db, [], Exchanges(srv, db, cmds), sent.Receive(db, Select(db)).log)
            && GrowsAligned(w.log, sent.Receive(db, Select(db)).log)
  {
    ExecuteSelected(srv, w.selected, db, cmds);
    assert w.SendAll([Select(db)] + cmds).outbox == [Select(db)] + cmds;
    var sent := w.SendAll([Select(db)] + cmds).Flush(srv);
    assert sent.inbox[1..] == Exchanges(srv, db, cmds);
  }

  /** A database whose SELECT and TYPE replies are no errors: every reply read is the one meant,
      none is left unread, and the samples are what the server says about the database's keys. */
  lemma DatabasePassAligned(srv: Server, opts: KeyOptions, w: Wire, db: string, ks: seq<string>)
    requires w.Idle() && srv.selectable(db) && TypesOk(srv, db, ks)
    ensures var p := DatabasePass(srv, opts, w, db, ks);
            && p.wire == Wire(db, [], [], p.wire.log)
            && GrowsAligned(w.log, p.wire.log)
            && p.samples == DatabaseSamples(srv, opts, db, ks)
  {
    hide KeysPass, TypesOk, DatabaseSamples, AllAligned, Execute, Exchanges, TypeCommands;
    ShipSelect(srv, w, db, TypeCommands(ks));
    var selected := w.SendAll([Select(db)] + TypeCommands(ks)).Flush(srv).Receive(db, Select(db));
    KeysPassAligned(srv, opts, selected, db, ks);
    GrowsTransitive(w.log, selected.log, KeysPass(srv, opts, selected, db, ks).wire.log);
  }

  lemma {:induction false} InfoCommandsNoSelect(ks: seq<string>, types: seq<string>)
    requires |ks| == |types|
    ensures NoSelect(InfoCommands(ks, types))
  {
    if |ks| != 0 {
      InfoCommandsNoSelect(ks[..|ks| - 1], types[..|ks| - 1]);
    }
  }

  // ---------- the exact condition under which nothing is left unread ----------

  lemma {:induction false} ReadTypesLeavesMore(srv: Server, w: Wire, db: string, ks: seq<string>, rest: seq<Exchange>)
    requires !TypesOk(srv, db, ks)
    requires w.inbox == Exchanges(srv, db, TypeCommands(ks)) + rest
    ensures |ReadTypes(w, db, ks).wire.inbox| > |rest|
  {
    var n := |ks| - 1;
    var key := ks[n];
    var own := [ExchangeIn(srv, db, Type(key)), ExchangeIn(srv, db, MemoryUsage(key))];
    ExchangesConcat(srv, db, TypeCommands(ks[..n]), [Type(key), MemoryUsage(key)]);
    assert Exchanges(srv, db, [Type(key), MemoryUsage(key)]) == own;
    assert w.inbox == Exchanges(srv, db, TypeCommands(ks[..n])) + (own + rest);
    if TypesOk(srv, db, ks[..n]) {
      ReadTypesAligned(srv, w, db, ks[..n], own + rest);
      assert !srv.TypeOk(db, key);
    } else {
      ReadTypesLeavesMore(srv, w, db, ks[..n], own + rest);
    }
  }

  /** Whatever the replies, a database never reads more replies than it asked for. */
  lemma DatabasePassPending(srv: Server, opts: KeyOptions, w: Wire, db: string, ks: seq<string>)
    requires w.outbox == []
    ensures |DatabasePass(srv, opts, w, db, ks).wire.inbox| >= |w.inbox|
  {
  }

  lemma KeysPassLeavesMore(srv: Server, opts: KeyOptions, w: Wire, db: string, ks: seq<string>)
    requires w.outbox == [] && w.inbox == Exchanges(srv, db, TypeCommands(ks)) && !TypesOk(srv, db, ks)
    ensures KeysPass(srv, opts, w, db, ks).wire.inbox != []
  {
    assert w.inbox == Exchanges(srv, db, TypeCommands(ks)) + [];
    ReadTypesLeavesMore(srv, w, db, ks, []);
  }

  lemma DatabaseLeavesMore(srv: Server, opts: KeyOptions, w: Wire, db: string, ks: seq<string>)
    requires w.Idle() && ks != []
    requires !(srv.selectable(db) && TypesOk(srv, db, ks))
    ensures DatabasePass(srv, opts, w, db, ks).wire.inbox != []
  {
    hide KeysPass, TypesOk;
    var cmds := [Select(db)] + TypeCommands(ks);
    if srv.selectable(db) {
      ShipSelect(srv, w, db, TypeCommands(ks));
      KeysPassLeavesMore(srv, opts, w.SendAll(cmds).Flush(srv).Receive(db, Select(db)), db, ks);
    } else {
      assert w.SendAll(cmds).outbox == cmds;
      ExecuteHead(srv, w.selected, Select(db), TypeCommands(ks));
      assert |w.SendAll(cmds).Flush(srv).inbox[1..]| == 2 * |ks|;
    }
  }

  /** A database ends with no reply unread exactly when its SELECT and its TYPEs succeed. */
  lemma DatabaseDrainsIff(srv: Server, opts: KeyOptions, w: Wire, db: string, ks: seq<string>)
    requires w.Idle() && ks != []
    ensures DatabasePass(srv, opts, w, db, ks).wire.inbox == [] <==> srv.selectable(db) && TypesOk(srv, db, ks)
  {
    hide DatabasePass;
    if srv.selectable(db) && TypesOk(srv, db, ks) {
      DatabasePassAligned(srv, opts, w, db, ks);
    } else {
      DatabaseLeavesMore(srv, opts, w, db, ks);
    }
  }

  ghost predicate DatabaseOk(srv: Server, db: string, allKeys: seq<DbKey>) {
    srv.selectable(db) && TypesOk(srv, db, KeysOf(db, allKeys))
  }

  lemma {:induction false} RunAligned(srv: Server, opts: KeyOptions, w: Wire, order: seq<string>, allKeys: seq<DbKey>)
    requires w.Idle()
    requires forall i :: 0 <= i < |order| ==> DatabaseOk(srv, order[i], allKeys)
    ensures var p := RunDatabases(srv, opts, w, order, allKeys);
            && p.wire.Idle()
            && GrowsAligned(w.log, p.wire.log)
            && p.samples == Flat(order, SamplesOfDatabase(srv, opts, allKeys))
  {
    hide DatabasePass;
    if |order| != 0 {
      var n := |order| - 1;
      RunAligned(srv, opts, w, order[..n], allKeys);
      var before := RunDatabases(srv, opts, w, order[..n], allKeys);
      DatabasePassAligned(srv, opts, before.wire, order[n], KeysOf(order[n], allKeys));
      GrowsTransitive(w.log, before.wire.log, RunDatabases(srv, opts, w, order, allKeys).wire.log);
    }
  }

  function SamplesOfDatabase(srv: Server, opts: KeyOptions, allKeys: seq<DbKey>): string -> seq<Sample> {
    db => DatabaseSamples(srv, opts, db, KeysOf(db, allKeys))
  }

  lemma {:induction false} RunDrainsOrder(srv: Server, opts: KeyOptions, w: Wire, order: seq<string>, allKeys: seq<DbKey>)
    requires w.Idle()
    requires forall i :: 0 <= i < |order| ==> KeysOf(order[i], allKeys) != []
    ensures RunDatabases(srv, opts, w, order, allKeys).wire.inbox == []
       <==> forall i :: 0 <= i < |order| ==> DatabaseOk(srv, order[i], allKeys)
  {
    hide DatabasePass;
    if |order| != 0 {
      var n := |order| - 1;
      RunDrainsOrder(srv, opts, w, order[..n], allKeys);
      var before := RunDatabases(srv, opts, w, order[..n], allKeys);
      DatabasePassPending(srv, opts, before.wire, order[n], KeysOf(order[n], allKeys));
      if before.wire.inbox == [] {
        DatabaseDrainsIff(srv, opts, before.wire, order[n], KeysOf(order[n], allKeys));
        assert forall i :: 0 <= i < n ==> order[i] == order[..n][i];
      } else {
        var i :| 0 <= i < n && !DatabaseOk(srv, order[..n][i], allKeys);
        assert order[i] == order[..n][i];
      }
    }
  }

  /** Every key's database can be selected and every key's TYPE succeeds. */
  ghost predicate KeysOk(srv: Server, allKeys: seq<DbKey>) {
    forall i :: 0 <= i < |allKeys| ==> srv.selectable(allKeys[i].db) && srv.TypeOk(allKeys[i].db, allKeys[i].key)
  }

  lemma {:induction false} KeysOfMember(allKeys: seq<DbKey>, db: string, key: string)
    ensures key in KeysOf(db, allKeys) <==> DbKey(db, key) in allKeys
    ensures KeysOf(db, allKeys) != [] <==> db in Databases(allKeys)
    ensures DbKey(db, key) in allKeys ==> db in Databases(allKeys)
  {
    if |allKeys| != 0 {
      var n := |allKeys| - 1;
      KeysOfMember(allKeys[..n], db, key);
      assert allKeys == allKeys[..n] + [allKeys[n]];
    }
  }

  lemma DatabasesOkIff(srv: Server, order: seq<string>, allKeys: seq<DbKey>)
    requires Enumerates(order, Databases(allKeys))
    ensures KeysOk(srv, allKeys) <==> forall i :: 0 <= i < |order| ==> DatabaseOk(srv, order[i], allKeys)
  {
    if KeysOk(srv, allKeys) {
      forall i | 0 <= i < |order| ensures DatabaseOk(srv, order[i], allKeys) {
        var db := order[i];
        assert db in order;
        KeysOfMember(allKeys, db, "");
        var ks := KeysOf(db, allKeys);
        forall j | 0 <= j < |ks| ensures srv.TypeOk(db, ks[j]) && srv.selectable(db) {
          KeysOfMember(allKeys, db, ks[j]);
        }
        assert srv.TypeOk(db, ks[0]);
      }
    }
    if forall i :: 0 <= i < |order| ==> DatabaseOk(srv, order[i], allKeys) {
      forall j | 0 <= j < |allKeys|
        ensures srv.selectable(allKeys[j].db) && srv.TypeOk(allKeys[j].db, allKeys[j].key)
      {
        var k := allKeys[j];
        KeysOfMember(allKeys, k.db, k.key);
        assert k.db in order;
        var i :| 0 <= i < |order| && order[i] == k.db;
        assert DatabaseOk(srv, order[i], allKeys);
      }
    }
  }

  /** The whole pipelined path leaves no reply unread exactly when no SELECT and no TYPE fails;
      errors of every other command are harmless. Then every reply read is the one meant. */
  lemma PipelineDrainsIff(srv: Server, opts: KeyOptions, w: Wire, order: seq<string>, allKeys: seq<DbKey>)
    requires w.Idle() && Enumerates(order, Databases(allKeys))
    ensures RunDatabases(srv, opts, w, order, allKeys).wire.inbox == [] <==> KeysOk(srv, allKeys)
    ensures KeysOk(srv, allKeys) ==> GrowsAligned(w.log, RunDatabases(srv, opts, w, order, allKeys).wire.log)
  {
    forall i | 0 <= i < |order| ensures KeysOf(order[i], allKeys) != [] {
      assert order[i] in order;
      KeysOfMember(allKeys, order[i], "");
    }
    RunDrainsOrder(srv, opts, w, order, allKeys);
    DatabasesOkIff(srv, order, allKeys);
    if KeysOk(srv, allKeys) {
      RunAligned(srv, opts, w, order, allKeys);
    }
  }

  // ---------- the pipelined path refines the one-at-a-time path ----------

  /** What the one-at-a-time path emits for a key read in its own database. */
  function PlainOf(srv: Server, opts: KeyOptions): DbKey -> seq<Sample> {
    (k: DbKey) => PlainKey(srv, opts, k.db, k.db, k.key)
  }

  /** The one intended difference: a missing key has a size of 0 in the pipelined path. */
  function MissingOf(srv: Server): DbKey -> seq<Sample> {
    (k: DbKey) => if TypeOf(srv, k.db, k.key) == "none" then [SizeSample(k.db, k.key, 0)] else []
  }

  function TotalOf(srv: Server, opts: KeyOptions, s: Sample): DbKey -> int {
    (k: DbKey) => multiset(PlainOf(srv, opts)(k))[s] + multiset(MissingOf(srv)(k))[s]
  }

  function DatabaseOf(): DbKey -> string {
    (k: DbKey) => k.db
  }

  lemma StringsAgree(srv: Server, opts: KeyOptions, db: string, key: string)
    requires TypeOf(srv, db, key) == "string"
    ensures multiset(PipelinedInfo(srv, opts, db, key)) == multiset(PlainKeyInfo(srv, opts, db, db, "string", key))
  {
    hide ValueSamples, AsInt64, AsString, SizeSample, TypeOf;
    var value := ValueSamples(opts, db, key, GetOr(AsString(srv.answer(db, Get(key))), ""));
    match StringInfo(srv, db, key) {
      case None =>
      case Some((reported, size)) =>
        var one := [SizeSample(db, key, size)];
        assert multiset(one + value) == multiset(value + one);
        assert one + [] == one;
    }
  }

  /** Reading the second round of a key one at a time or pipelined differs in order, and for a
      missing key. */
  lemma InfoAgrees(srv: Server, opts: KeyOptions, k: DbKey)
    ensures multiset(PipelinedInfo(srv, opts, k.db, k.key))
         == multiset(PlainKeyInfo(srv, opts, k.db, k.db, TypeOf(srv, k.db, k.key), k.key)) + multiset(MissingOf(srv)(k))
  {
    hide StringInfo, StringSamples, SizeCommand, AsInt64, TypeOf;
    if TypeOf(srv, k.db, k.key) == "string" {
      StringsAgree(srv, opts, k.db, k.key);
    }
  }

  lemma KeySamplesAgree(srv: Server, opts: KeyOptions, k: DbKey, s: Sample)
    requires srv.TypeOk(k.db, k.key)
    ensures multiset(KeyMemory(srv, k.db, k.db, k.key))[s] + multiset(PipelinedInfo(srv, opts, k.db, k.key))[s]
         == TotalOf(srv, opts, s)(k)
  {
    hide PlainKeyInfo, PipelinedInfo, KeyMemory, MissingOf;
    InfoAgrees(srv, opts, k);
    var memory := KeyMemory(srv, k.db, k.db, k.key);
    var plain := PlainKeyInfo(srv, opts, k.db, k.db, TypeOf(srv, k.db, k.key), k.key);
    assert PlainOf(srv, opts)(k) == memory + plain;
  }

  lemma {:induction false} DatabaseCount(srv: Server, opts: KeyOptions, db: string, allKeys: seq<DbKey>, s: Sample)
    requires KeysOk(srv, allKeys)
    ensures multiset(DatabaseSamples(srv, opts, db, KeysOf(db, allKeys)))[s]
         == SumWhere(allKeys, DatabaseOf(), TotalOf(srv, opts, s), db)
  {
    if |allKeys| != 0 {
      var n := |allKeys| - 1;
      var k := allKeys[n];
      var before := KeysOf(db, allKeys[..n]);
      DatabaseCount(srv, opts, db, allKeys[..n], s);
      if k.db == db {
        KeySamplesAgree(srv, opts, k, s);
        assert (before + [k.key])[..|before|] == before;
        var memory, info := Flat(before, MemoryOf(srv, db)), Flat(before, InfoOf(srv, opts, db));
        assert DatabaseSamples(srv, opts, db, before + [k.key])
            == (memory + KeyMemory(srv, db, db, k.key)) + (info + PipelinedInfo(srv, opts, db, k.key));
      } else {
        assert KeysOf(db, allKeys) == before;
      }
    }
  }

  /** Every key's database is visited. */
  ghost predicate Covers(order: seq<string>, allKeys: seq<DbKey>) {
    forall i :: 0 <= i < |allKeys| ==> allKeys[i].db in order
  }

  lemma EnumerationCovers(order: seq<string>, allKeys: seq<DbKey>)
    requires Enumerates(order, Databases(allKeys))
    ensures Covers(order, allKeys)
  {
    forall i | 0 <= i < |allKeys| ensures allKeys[i].db in order {
      KeysOfMember(allKeys, allKeys[i].db, allKeys[i].key);
    }
  }

  lemma PipelinedCount(srv: Server, opts: KeyOptions, order: seq<string>, allKeys: seq<DbKey>, s: Sample)
    requires Distinct(order) && Covers(order, allKeys) && KeysOk(srv, allKeys)
    ensures multiset(Flat(order, SamplesOfDatabase(srv, opts, allKeys)))[s]
         == multiset(Flat(allKeys, PlainOf(srv, opts)))[s] + multiset(Flat(allKeys, MissingOf(srv)))[s]
  {
    hide Flat, DatabaseSamples, SumWhere, SumBy;
    var total := TotalOf(srv, opts, s);
    var perDatabase := CountIn(SamplesOfDatabase(srv, opts, allKeys), s);
    CountFlat(order, SamplesOfDatabase(srv, opts, allKeys), s);
    forall db: string ensures perDatabase(db) == GroupSum(allKeys, DatabaseOf(), total)(db) {
      DatabaseCount(srv, opts, db, allKeys, s);
    }
    SumByCongruent(order, perDatabase, GroupSum(allKeys, DatabaseOf(), total));
    PartitionSum(allKeys, DatabaseOf(), total, order);
    CountFlat(allKeys, PlainOf(srv, opts), s);
    CountFlat(allKeys, MissingOf(srv), s);
    SumByAdd(allKeys, CountIn(PlainOf(srv, opts), s), CountIn(MissingOf(srv), s), total);
  }

  /** For every list of keys, duplicates included, and every server whose SELECT and TYPE replies
      are no errors: the pipelined path emits the samples of the one-at-a-time path, and one size
      of 0 for each occurrence of a missing key. */
  lemma PipelinedRefinesPlain(srv: Server, opts: KeyOptions, w: Wire, order: seq<string>, allKeys: seq<DbKey>)
    requires w.Idle() && Enumerates(order, Databases(allKeys)) && KeysOk(srv, allKeys)
    ensures multiset(RunDatabases(srv, opts, w, order, allKeys).samples)
         == multiset(Flat(allKeys, PlainOf(srv, opts))) + multiset(Flat(allKeys, MissingOf(srv)))
  {
    DatabasesOkIff(srv, order, allKeys);
    EnumerationCovers(order, allKeys);
    RunAligned(srv, opts, w, order, allKeys);
    hide *;
    forall s: Sample {
      PipelinedCount(srv, opts, order, allKeys, s);
    }
  }

  /** The two methods compared: for keys of db 0, on a server with nothing else selected. */
  lemma DbZeroRefinement(srv: Server, opts: KeyOptions, w: Wire, order: seq<string>, allKeys: seq<DbKey>)
    requires w.Idle() && Enumerates(order, Databases(allKeys)) && KeysOk(srv, allKeys)
    requires forall i :: 0 <= i < |allKeys| ==> allKeys[i].db == "0"
    ensures multiset(RunDatabases(srv, opts, w, order, allKeys).samples)
         == multiset(Flat(allKeys, PlainZero(srv, opts, "0"))) + multiset(Flat(allKeys, MissingOf(srv)))
  {
    PipelinedRefinesPlain(srv, opts, w, order, allKeys);
    FlatCongruent(allKeys, PlainOf(srv, opts), PlainZero(srv, opts, "0"));
  }

  // ---------- each database for itself ----------

  /** The two servers have the same database `db`; their other databases may differ at will. */
  ghost predicate SameDatabase(a: Server, b: Server, db: string) {
    forall cmd: Command :: a.answer(db, cmd) == b.answer(db, cmd)
  }

  ghost predicate LabelledOtherwise(samples: seq<Sample>, db: string) {
    forall i :: 0 <= i < |samples| ==> |samples[i].labels| > 0 && samples[i].labels[0] != DbLabel(db)
  }

  lemma KeyLabels(srv: Server, opts: KeyOptions, k: DbKey, db: string)
    requires k.db != db
    ensures LabelledOtherwise(PlainOf(srv, opts)(k), db) && LabelledOtherwise(MissingOf(srv)(k), db)
  {
    hide AsInt64, AsString, SizeCommand, TypeOf;
    assert DbLabel(k.db)[2..] == k.db && DbLabel(db)[2..] == db;
  }

  lemma SameKeySamples(a: Server, b: Server, opts: KeyOptions, k: DbKey, s: Sample)
    requires SameDatabase(a, b, k.db)
    ensures TotalOf(a, opts, s)(k) == TotalOf(b, opts, s)(k)
  {
    hide AsInt64, AsString, SizeCommand, ValueSamples;
    SamePlainKey(a, b, opts, k);
  }

  lemma SamePlainKey(a: Server, b: Server, opts: KeyOptions, k: DbKey)
    requires SameDatabase(a, b, k.db)
    ensures PlainOf(a, opts)(k) == PlainOf(b, opts)(k) && TypeOf(a, k.db, k.key) == TypeOf(b, k.db, k.key)
  {
    hide AsInt64, AsString, SizeCommand, ValueSamples;
  }

  lemma SameTotal(a: Server, b: Server, opts: KeyOptions, k: DbKey, db: string, s: Sample)
    requires SameDatabase(a, b, db) && |s.labels| > 0 && s.labels[0] == DbLabel(db)
    ensures TotalOf(a, opts, s)(k) == TotalOf(b, opts, s)(k)
  {
    hide PlainOf, MissingOf;
    if k.db == db {
      SameKeySamples(a, b, opts, k, s);
    } else {
      KeyLabels(a, opts, k, db);
      KeyLabels(b, opts, k, db);
      NotLabelled(PlainOf(a, opts)(k), db, s);
      NotLabelled(PlainOf(b, opts)(k), db, s);
      NotLabelled(MissingOf(a)(k), db, s);
      NotLabelled(MissingOf(b)(k), db, s);
    }
  }

  lemma NotLabelled(samples: seq<Sample>, db: string, s: Sample)
    requires LabelledOtherwise(samples, db) && |s.labels| > 0 && s.labels[0] == DbLabel(db)
    ensures multiset(samples)[s] == 0
  {
  }

  /** What the pipelined path reports for a database depends on that database's replies alone:
      whatever the other databases hold, whichever was selected before, and in whatever order they
      are visited, each sample labelled with it occurs equally often. */
  lemma {:induction false} ReportsOwnDatabase(a: Server, b: Server, opts: KeyOptions, v: Wire, w: Wire, orderA: seq<string>,
                                             orderB: seq<string>, allKeys: seq<DbKey>, db: string, s: Sample)
    requires v.Idle() && w.Idle() && KeysOk(a, allKeys) && KeysOk(b, allKeys)
    requires Enumerates(orderA, Databases(allKeys)) && Enumerates(orderB, Databases(allKeys))
    requires SameDatabase(a, b, db) && |s.labels| > 0 && s.labels[0] == DbLabel(db)
    ensures multiset(RunDatabases(a, opts, v, orderA, allKeys).samples)[s]
         == multiset(RunDatabases(b, opts, w, orderB, allKeys).samples)[s]
  {
    hide *;
    PipelinedRefinesPlain(a, opts, v, orderA, allKeys);
    PipelinedRefinesPlain(b, opts, w, orderB, allKeys);
    TotalCount(a, opts, allKeys, s);
    TotalCount(b, opts, allKeys, s);
    forall k: DbKey | k in allKeys ensures TotalOf(a, opts, s)(k) == TotalOf(b, opts, s)(k) {
      SameTotal(a, b, opts, k, db, s);
    }
    SumByCongruent(allKeys, TotalOf(a, opts, s), TotalOf(b, opts, s));
  }

  lemma TotalCount(srv: Server, opts: KeyOptions, allKeys: seq<DbKey>, s: Sample)
    ensures multiset(Flat(allKeys, PlainOf(srv, opts)))[s] + multiset(Flat(allKeys, MissingOf(srv)))[s]
         == SumBy(allKeys, TotalOf(srv, opts, s))
  {
    hide Flat, SumBy, PlainOf, MissingOf;
    CountFlat(allKeys, PlainOf(srv, opts), s);
    CountFlat(allKeys, MissingOf(srv), s);
    SumByAdd(allKeys, CountIn(PlainOf(srv, opts), s), CountIn(MissingOf(srv), s), TotalOf(srv, opts, s));
  }

  // ---------- why TYPE must not fail ----------

  /** Three databases with one list each; TYPE is refused in the first. */
  function RefusedType(): Server {
    Server(db => true,
           (db, cmd: Command) =>
             if cmd.Type? then (if db == "1" then Error("NOPERM") else Bulk("list"))
             else if cmd.MemoryUsage? then Integer(if db == "1" then 5 else if db == "2" then 7 else 9)
             else Error("ERR"))
  }

  function RefusedKeys(): seq<DbKey> {
    [DbKey("1", "a"), DbKey("2", "b"), DbKey("3", "c")]
  }

  /** One refused TYPE in db 1 makes the exporter report db 2's memory usage under db 3: its reply
      left unread is taken for db 2's SELECT reply, and db 2's replies for db 3's. */
  lemma RefusedTypeMislabels(opts: KeyOptions, w: Wire)
    requires w.Idle()
    ensures MemorySample("3", "c", 7) in RunDatabases(RefusedType(), opts, w, ["1", "2", "3"], RefusedKeys()).samples
    ensures MemorySample("3", "c", 7) !in Flat(RefusedKeys(), PlainOf(RefusedType(), opts))
  {
    var w1 := RefusedPassOne(opts, w);
    var w2 := RefusedPassTwo(opts, w1);
    RefusedPassThree(opts, w2);
    RefusedPlain(opts);
    RefusedKeysOf();
    hide *;
    RunThree(RefusedType(), opts, w, "1", "2", "3", RefusedKeys());
  }

  lemma RunThree(srv: Server, opts: KeyOptions, w: Wire, a: string, b: string, c: string, allKeys: seq<DbKey>)
    requires w.outbox == []
    ensures var w1 := DatabasePass(srv, opts, w, a, KeysOf(a, allKeys)).wire;
            var w2 := DatabasePass(srv, opts, w1, b, KeysOf(b, allKeys)).wire;
            var p := DatabasePass(srv, opts, w2, c, KeysOf(c, allKeys));
            forall s :: s in p.samples ==> s in RunDatabases(srv, opts, w, [a, b, c], allKeys).samples
  {
    var order := [a, b, c];
    assert RunDatabases(srv, opts, w, order[..0], allKeys) == Pass(w, []);
    hide *;
    RunDatabasesStep(srv, opts, w, order, 0, allKeys);
    RunDatabasesStep(srv, opts, w, order, 1, allKeys);
    RunDatabasesStep(srv, opts, w, order, 2, allKeys);
    assert order[..3] == order;
  }

  lemma RefusedKeysOf()
    ensures KeysOf("1", RefusedKeys()) == ["a"] && KeysOf("2", RefusedKeys()) == ["b"] && KeysOf("3", RefusedKeys()) == ["c"]
  {
    var keys := RefusedKeys();
    assert keys[..2] == [DbKey("1", "a"), DbKey("2", "b")];
    assert keys[..2][..1] == [DbKey("1", "a")];
    forall db: string
      ensures KeysOf(db, keys[..2]) == (if db == "1" then ["a"] else []) + (if db == "2" then ["b"] else [])
    {
      assert KeysOf(db, keys[..2][..1]) == KeysOf(db, keys[..2][..1][..0]) + if db == "1" then ["a"] else [];
    }
  }

  lemma RefusedPlain(opts: KeyOptions)
    ensures MemorySample("3", "c", 7) !in Flat(RefusedKeys(), PlainOf(RefusedType(), opts))
  {
    var keys, plain := RefusedKeys(), PlainOf(RefusedType(), opts);
    assert plain(keys[0]) == [];
    assert plain(keys[1]) == [MemorySample("2", "b", 7)];
    assert plain(keys[2]) == [MemorySample("3", "c", 9)];
    assert MemorySample("3", "c", 7).value != MemorySample("3", "c", 9).value;
    assert DbLabel("2")[2] != DbLabel("3")[2];
    hide PlainOf;
    FlatStep(keys, 0, plain);
    FlatStep(keys, 1, plain);
    FlatStep(keys, 2, plain);
    assert keys[..3] == keys && keys[..0] == [];
  }

  lemma RefusedPassOne(opts: KeyOptions, w: Wire) returns (w1: Wire)
    requires w.Idle()
    ensures w1 == DatabasePass(RefusedType(), opts, w, "1", ["a"]).wire
    ensures w1.outbox == [] && w1.selected == "1"
    ensures w1.inbox == [Exchange("1", MemoryUsage("a"), Integer(5))]
  {
    hide KeysPass;
    var srv := RefusedType();
    w1 := DatabasePass(srv, opts, w, "1", ["a"]).wire;
    var cmds := TypeCommands(["a"]);
    assert ["a"][..0] == [] && cmds == [Type("a"), MemoryUsage("a")];
    ExecuteSelected(srv, w.selected, "1", cmds);
    assert w.SendAll([Select("1")] + cmds).outbox == [Select("1")] + cmds;
    var selected := w.SendAll([Select("1")] + cmds).Flush(srv).Receive("1", Select("1"));
    assert selected.inbox == [ExchangeIn(srv, "1", Type("a")), ExchangeIn(srv, "1", MemoryUsage("a"))];
    RefusedKeysPass(opts, selected);
  }

  lemma RefusedKeysPass(opts: KeyOptions, w: Wire)
    requires w.outbox == []
    requires w.inbox == [ExchangeIn(RefusedType(), "1", Type("a")), ExchangeIn(RefusedType(), "1", MemoryUsage("a"))]
    ensures var w1 := KeysPass(RefusedType(), opts, w, "1", ["a"]).wire;
            w1.outbox == [] && w1.selected == w.selected && w1.inbox == [Exchange("1", MemoryUsage("a"), Integer(5))]
  {
    assert ReadTypes(w, "1", ["a"][..0]) == TypePass(w, [], []);
    var p := ReadTypes(w, "1", ["a"]);
    assert p == TypeStep(TypePass(w, [], []), "1", "a");
    assert InfoCommands(["a"], [""]) == InfoCommands(["a"][..0], [""][..0]) + [] == [];
    assert p.wire.SendAll([]).Flush(RefusedType()) == p.wire;
    assert ReadInfo(p.wire, opts, "1", ["a"], [""]) == ReadInfo(p.wire, opts, "1", ["a"][..0], [""][..0]);
  }

  lemma RefusedPassTwo(opts: KeyOptions, w: Wire) returns (w2: Wire)
    requires w.outbox == [] && w.inbox == [Exchange("1", MemoryUsage("a"), Integer(5))]
    ensures w2 == DatabasePass(RefusedType(), opts, w, "2", ["b"]).wire
    ensures w2.outbox == []
    ensures w2.inbox == [Exchange("2", Select("2"), Status("OK")), Exchange("2", Type("b"), Bulk("list")),
                         Exchange("2", MemoryUsage("b"), Integer(7))]
  {
    var srv := RefusedType();
    w2 := DatabasePass(srv, opts, w, "2", ["b"]).wire;
    var cmds := TypeCommands(["b"]);
    assert ["b"][..0] == [] && cmds == [Type("b"), MemoryUsage("b")];
    ExecuteSelected(srv, w.selected, "2", cmds);
    assert w.SendAll([Select("2")] + cmds).outbox == [Select("2")] + cmds;
  }

  lemma RefusedPassThree(opts: KeyOptions, w: Wire)
    requires w.outbox == []
    requires w.inbox == [Exchange("2", Select("2"), Status("OK")), Exchange("2", Type("b"), Bulk("list")),
                         Exchange("2", MemoryUsage("b"), Integer(7))]
    ensures MemorySample("3", "c", 7) in DatabasePass(RefusedType(), opts, w, "3", ["c"]).samples
  {
    var srv := RefusedType();
    var cmds := TypeCommands(["c"]);
    var sent := w.SendAll([Select("3")] + cmds).Flush(srv);
    var selected := sent.Receive("3", Select("3"));
    assert selected.inbox[..2] == [Exchange("2", Type("b"), Bulk("list")), Exchange("2", MemoryUsage("b"), Integer(7))];
    assert ["c"][..0] == [];
    assert ReadTypes(selected, "3", ["c"][..0]) == TypePass(selected, [], []);
    var p := ReadTypes(selected, "3", ["c"]);
    assert p == TypeStep(TypePass(selected, [], []), "3", "c");
    assert p.samples == [MemorySample("3", "c", 7)];
  }
}
