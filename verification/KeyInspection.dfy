/** Inspection of single keys (`keys.go`): one command at a time in cluster mode, pipelined
    otherwise. The source demands that the two paths stay in step. */
module KeyInspection {
  import opened Wrappers
  import opened Sums
  import opened Redis
  import opened Metrics

  datatype DbKey = DbKey(db: string, key: string)

  datatype KeyOptions = KeyOptions(disableExportingKeyValues: bool, parseFloat: string -> Option<real>)

  /** The command that measures a key of the given type, for types measured by one command. */
  function SizeCommand(keyType: string): Option<SizeOp> {
    if keyType == "list" then Some(LLEN)
    else if keyType == "set" then Some(SCARD)
    else if keyType == "zset" then Some(ZCARD)
    else if keyType == "hash" then Some(HLEN)
    else if keyType == "stream" then Some(XLEN)
    else if keyType == "array" then Some(ARCOUNT)
    else None
  }

  function MemorySample(db: string, key: string, n: int): Sample {
    Sample("key_memory_usage_bytes", n as real, [DbLabel(db), key])
  }

  function SizeSample(db: string, key: string, n: int): Sample {
    Sample("key_size", n as real, [DbLabel(db), key])
  }

  /** The sample for a string's value, as a number when it reads as one. */
  function ValueSamples(opts: KeyOptions, db: string, key: string, strVal: string): seq<Sample> {
    if opts.disableExportingKeyValues || strVal == "" then []
    else
      match opts.parseFloat(strVal)
      case Some(v) => [Sample("key_value", v, [DbLabel(db), key])]
      case None => [Sample("key_value_as_string", 1.0, [DbLabel(db), key, strVal])]
  }

  // ---------- the one-at-a-time path ----------

  /** The reported type of a string key and its size; None when neither PFCOUNT nor STRLEN works. */
  function StringInfo(srv: Server, runs: string, key: string): Option<(string, int)> {
    match AsInt64(srv.answer(runs, PfCount(key)))
    case Some(size) => Some(("HLL", size))
    case None =>
      match AsInt64(srv.answer(runs, StrLen(key)))
      case Some(size) => Some(("string", size))
      case None => None
  }

  /** What the one-at-a-time path emits about a key, read in database `runs`, labelled `db`. */
  function PlainKeyInfo(srv: Server, opts: KeyOptions, runs: string, db: string, keyType: string, key: string): seq<Sample> {
    if keyType == "none" then []
    else if keyType == "string" then
      match StringInfo(srv, runs, key)
      case None => []
      case Some((reported, size)) =>
        [SizeSample(db, key, size)]
        + if reported == "string" then ValueSamples(opts, db, key, GetOr(AsString(srv.answer(runs, Get(key))), ""))
          else []
    else
      match SizeCommand(keyType)
      case None => []
      case Some(op) =>
        match AsInt64(srv.answer(runs, Size(op, key)))
        case None => []
        case Some(size) => [SizeSample(db, key, size)]
  }

  function PlainKey(srv: Server, opts: KeyOptions, runs: string, db: string, key: string): seq<Sample> {
    match AsString(srv.answer(runs, Type(key)))
    case None => []
    case Some(keyType) =>
      KeyMemory(srv, runs, db, key) + PlainKeyInfo(srv, opts, runs, db, keyType, key)
  }

  function KeyMemory(srv: Server, runs: string, db: string, key: string): seq<Sample> {
    match AsInt64(srv.answer(runs, MemoryUsage(key)))
    case None => []
    case Some(n) => [MemorySample(db, key, n)]
  }

  /** The one-at-a-time path: every key is read in the selected database and labelled db 0. */
  function PlainZero(srv: Server, opts: KeyOptions, runs: string): DbKey -> seq<Sample> {
    (k: DbKey) => PlainKey(srv, opts, runs, "0", k.key)
  }

  lemma PlainZeroAt(srv: Server, opts: KeyOptions, runs: string, k: DbKey)
    ensures PlainZero(srv, opts, runs)(k) == PlainKey(srv, opts, runs, "0", k.key)
  {
  }

  ghost predicate Undisturbed(before: Wire, after: Wire) {
    after.Idle() && after.selected == before.selected
  }

  method GetStringInfo(c: Conn, key: string) returns (strVal: string, info: Option<(string, int)>)
    requires c.View().Idle()
    modifies c
    ensures Undisturbed(old(c.View()), c.View())
    ensures strVal == GetOr(AsString(c.server.answer(c.selected, Get(key))), "")
    ensures info == StringInfo(c.server, c.selected, key)
  {
    var reply := c.Ask(c.selected, Get(key));
    strVal := GetOr(AsString(reply), "");
    reply := c.Ask(c.selected, PfCount(key));
    if AsInt64(reply).Some? {
      return strVal, Some(("HLL", AsInt64(reply).value));
    }
    reply := c.Ask(c.selected, StrLen(key));
    if AsInt64(reply).Some? {
      return strVal, Some(("string", AsInt64(reply).value));
    }
    info := None;
  }

  method GetKeyInfo(ch: Channel, c: Conn, opts: KeyOptions, db: string, keyType: string, key: string)
    requires c.View().Idle()
    modifies ch, c
    ensures Undisturbed(old(c.View()), c.View())
    ensures ch.samples == old(ch.samples) + PlainKeyInfo(c.server, opts, c.selected, db, keyType, key)
  {
    if keyType == "none" {
      return;
    }
    if keyType == "string" {
      var strVal, info := GetStringInfo(c, key);
      if info.Some? {
        ch.Emit(SizeSample(db, key, info.value.1));
        if info.value.0 == "string" {
          ch.EmitAll(ValueSamples(opts, db, key, strVal));
        }
      }
    } else if SizeCommand(keyType).Some? {
      var reply := c.Ask(c.selected, Size(SizeCommand(keyType).value, key));
      if AsInt64(reply).Some? {
        ch.Emit(SizeSample(db, key, AsInt64(reply).value));
      }
    }
  }

  method ExtractOneNotPipelined(ch: Channel, c: Conn, opts: KeyOptions, key: string)
    requires c.View().Idle()
    modifies ch, c
    ensures Undisturbed(old(c.View()), c.View())
    ensures ch.samples == old(ch.samples) + PlainKey(c.server, opts, old(c.selected), "0", key)
  {
    hide PlainKeyInfo;
    var reply := c.Ask(c.selected, Type(key));
    if AsString(reply).Some? {
      var keyType := AsString(reply).value;
      reply := c.Ask(c.selected, MemoryUsage(key));
      if AsInt64(reply).Some? {
        ch.Emit(MemorySample("0", key, AsInt64(reply).value));
      }
      GetKeyInfo(ch, c, opts, "0", keyType, key);
    }
  }

  /** `extractCheckKeyMetricsNotPipelined`. The connection is the one opened for cluster mode, on
      which nothing is ever pipelined. */
  method ExtractNotPipelined(ch: Channel, c: Conn, opts: KeyOptions, allKeys: seq<DbKey>)
    requires c.View().Idle()
    modifies ch, c
    ensures Undisturbed(old(c.View()), c.View())
    ensures ch.samples == old(ch.samples) + Flat(allKeys, PlainZero(c.server, opts, old(c.selected)))
  {
    var runs := c.selected;
    ghost var plain := PlainZero(c.server, opts, runs);
    assert Flat(allKeys[..0], plain) == [];
    assert allKeys[..|allKeys|] == allKeys;
    hide Flat, PlainKey, PlainZero;
    for i := 0 to |allKeys|
      invariant c.View().Idle() && c.selected == runs
      invariant ch.samples == old(ch.samples) + Flat(allKeys[..i], plain)
    {
      FlatAppend(old(ch.samples), allKeys, i, plain);
      PlainZeroAt(c.server, opts, runs, allKeys[i]);
      ExtractOneNotPipelined(ch, c, opts, allKeys[i].key);
    }
  }

  // ---------- the pipelined path, as a function of the connection ----------

  /** The first pipeline of a database, after its SELECT. */
  function TypeCommands(ks: seq<string>): (cmds: seq<Command>)
    ensures |cmds| == 2 * |ks| && NoSelect(cmds)
  {
    if |ks| == 0 then []
    else TypeCommands(ks[..|ks| - 1]) + [Type(ks[|ks| - 1]), MemoryUsage(ks[|ks| - 1])]
  }

  datatype TypePass = TypePass(wire: Wire, types: seq<string>, samples: seq<Sample>)

  /** Reads the two replies of one key; after a failed TYPE the second one stays unread. */
  function TypeStep(p: TypePass, db: string, key: string): TypePass
    requires |p.wire.inbox| >= 2
  {
    var w1 := p.wire.Receive(db, Type(key));
    match AsString(p.wire.inbox[0].reply)
    case None => TypePass(w1, p.types + [""], p.samples)
    case Some(keyType) =>
      var w2 := w1.Receive(db, MemoryUsage(key));
      match AsInt64(w1.inbox[0].reply)
      case None => TypePass(w2, p.types + [keyType], p.samples)
      case Some(n) => TypePass(w2, p.types + [keyType], p.samples + [MemorySample(db, key, n)])
  }

  function ReadTypes(w: Wire, db: string, ks: seq<string>): (p: TypePass)
    requires |w.inbox| >= 2 * |ks|
    ensures |p.types| == |ks|
    ensures |p.wire.inbox| >= |w.inbox| - 2 * |ks|
    ensures p.wire.outbox == w.outbox
  {
    if |ks| == 0 then TypePass(w, [], [])
    else TypeStep(ReadTypes(w, db, ks[..|ks| - 1]), db, ks[|ks| - 1])
  }

  /** What the second pipeline sends for one key. */
  function KeyCommands(key: string, keyType: string): seq<Command> {
    if keyType == "string" then [PfCount(key), StrLen(key), Get(key)]
    else if SizeCommand(keyType).Some? then [Size(SizeCommand(keyType).value, key)]
    else []
  }

  function InfoCommands(ks: seq<string>, types: seq<string>): seq<Command>
    requires |ks| == |types|
  {
    if |ks| == 0 then []
    else InfoCommands(ks[..|ks| - 1], types[..|ks| - 1]) + KeyCommands(ks[|ks| - 1], types[|ks| - 1])
  }

  datatype Pass = Pass(wire: Wire, samples: seq<Sample>)

  /** What the pipelined path emits about a string, from its three replies. */
  function StringSamples(opts: KeyOptions, db: string, key: string, pf: Reply, len: Reply, val: Reply): seq<Sample> {
    match AsInt64(pf)
    case Some(size) => [SizeSample(db, key, size)]
    case None =>
      match AsInt64(len)
      case Some(size) => ValueSamples(opts, db, key, GetOr(AsString(val), "")) + [SizeSample(db, key, size)]
      case None => []
  }

  /** Reads the replies of one key in the second pipeline; a missing key falls through to a
      size of 0. */
  function InfoStep(q: Pass, opts: KeyOptions, db: string, key: string, keyType: string): (r: Pass)
    requires |q.wire.inbox| >= |KeyCommands(key, keyType)|
    ensures |r.wire.inbox| == |q.wire.inbox| - |KeyCommands(key, keyType)|
    ensures r.wire.outbox == q.wire.outbox
  {
    if keyType == "none" then
      q.(samples := q.samples + [SizeSample(db, key, 0)])
    else if keyType == "string" then
      var w1 := q.wire.Receive(db, PfCount(key));
      var w2 := w1.Receive(db, StrLen(key));
      var w3 := w2.Receive(db, Get(key));
      Pass(w3, q.samples
             + StringSamples(opts, db, key, q.wire.inbox[0].reply, w1.inbox[0].reply, w2.inbox[0].reply))
    else
      match SizeCommand(keyType)
      case None => q
      case Some(op) =>
        var w := q.wire.Receive(db, Size(op, key));
        match AsInt64(q.wire.inbox[0].reply)
        case None => Pass(w, q.samples)
        case Some(n) => Pass(w, q.samples + [SizeSample(db, key, n)])
  }

  function ReadInfo(w: Wire, opts: KeyOptions, db: string, ks: seq<string>, types: seq<string>): (q: Pass)
    requires |ks| == |types| && |w.inbox| >= |InfoCommands(ks, types)|
    ensures |q.wire.inbox| == |w.inbox| - |InfoCommands(ks, types)|
    ensures q.wire.outbox == w.outbox
  {
    if |ks| == 0 then Pass(w, [])
    else
      var n := |ks| - 1;
      InfoStep(ReadInfo(w, opts, db, ks[..n], types[..n]), opts, db, ks[n], types[n])
  }

  /** Both rounds of replies about the keys of one database, once its SELECT reply is read. */
  function KeysPass(srv: Server, opts: KeyOptions, w: Wire, db: string, ks: seq<string>): (r: Pass)
    requires w.outbox == [] && |w.inbox| >= 2 * |ks|
    ensures r.wire.outbox == []
  {
    var p := ReadTypes(w, db, ks);
    var q := ReadInfo(p.wire.SendAll(InfoCommands(ks, p.types)).Flush(srv), opts, db, ks, p.types);
    Pass(q.wire, p.samples + q.samples)
  }

  /** One database: both pipelines, or nothing more than the SELECT reply when that is an error. */
  function DatabasePass(srv: Server, opts: KeyOptions, w: Wire, db: string, ks: seq<string>): (p: Pass)
    requires w.outbox == []
    ensures p.wire.outbox == []
  {
    var sent := w.SendAll([Select(db)] + TypeCommands(ks)).Flush(srv);
    var selected := sent.Receive(db, Select(db));
    if AsString(sent.inbox[0].reply).None? then Pass(selected, [])
    else KeysPass(srv, opts, selected, db, ks)
  }

  function KeysOf(db: string, allKeys: seq<DbKey>): seq<string> {
    if |allKeys| == 0 then []
    else
      var last := allKeys[|allKeys| - 1];
      KeysOf(db, allKeys[..|allKeys| - 1]) + if last.db == db then [last.key] else []
  }

  /** All databases, in the order the key map happens to be iterated in. */
  function RunDatabases(srv: Server, opts: KeyOptions, w: Wire, order: seq<string>, allKeys: seq<DbKey>): (p: Pass)
    requires w.outbox == []
    ensures p.wire.outbox == []
  {
    if |order| == 0 then Pass(w, [])
    else
      var before := RunDatabases(srv, opts, w, order[..|order| - 1], allKeys);
      var db := order[|order| - 1];
      var p := DatabasePass(srv, opts, before.wire, db, KeysOf(db, allKeys));
      Pass(p.wire, before.samples + p.samples)
  }

  // ---------- the pipelined path, step by step ----------

  lemma {:induction false} InfoCommandsPrefix(ks: seq<string>, types: seq<string>, i: nat)
    requires |ks| == |types| && i <= |ks|
    ensures |InfoCommands(ks[..i], types[..i])| <= |InfoCommands(ks, types)|
    decreases |ks|
  {
    if i == |ks| {
      assert ks[..i] == ks && types[..i] == types;
    } else {
      var n := |ks| - 1;
      InfoCommandsPrefix(ks[..n], types[..n], i);
      assert ks[..n][..i] == ks[..i] && types[..n][..i] == types[..i];
    }
  }

  lemma InfoCommandsStep(ks: seq<string>, types: seq<string>, i: nat)
    requires |ks| == |types| && i < |ks|
    ensures InfoCommands(ks[..i + 1], types[..i + 1])
         == InfoCommands(ks[..i], types[..i]) + KeyCommands(ks[i], types[i])
    ensures |InfoCommands(ks[..i + 1], types[..i + 1])| <= |InfoCommands(ks, types)|
  {
    assert ks[..i + 1][..i] == ks[..i] && types[..i + 1][..i] == types[..i];
    InfoCommandsPrefix(ks, types, i + 1);
  }

  lemma ReadInfoStep(w: Wire, opts: KeyOptions, db: string, ks: seq<string>, types: seq<string>, i: nat)
    requires |ks| == |types| && i < |ks|
    requires |w.inbox| >= |InfoCommands(ks[..i + 1], types[..i + 1])|
    requires |InfoCommands(ks[..i + 1], types[..i + 1])|
          == |InfoCommands(ks[..i], types[..i])| + |KeyCommands(ks[i], types[i])|
    ensures ReadInfo(w, opts, db, ks[..i + 1], types[..i + 1])
         == InfoStep(ReadInfo(w, opts, db, ks[..i], types[..i]), opts, db, ks[i], types[i])
  {
    assert ks[..i + 1][..i] == ks[..i] && types[..i + 1][..i] == types[..i];
  }

  /** The sending loop of `getKeyInfoPipelined`. */
  method SendInfo(c: Conn, ks: seq<string>, types: seq<string>)
    requires |ks| == |types|
    modifies c
    ensures c.View() == old(c.View()).SendAll(InfoCommands(ks, types)).Flush(c.server)
  {
    assert InfoCommands([], []) == [];
    assert ks[..|ks|] == ks && types[..|ks|] == types;
    hide InfoCommands, KeyCommands;
    for i := 0 to |ks|
      invariant c.View() == old(c.View()).SendAll(InfoCommands(ks[..i], types[..i]))
    {
      InfoCommandsStep(ks, types, i);
      SendAllTwice(old(c.View()), InfoCommands(ks[..i], types[..i]), KeyCommands(ks[i], types[i]));
      SendKeyCommands(c, ks[i], types[i]);
    }
    c.Flush();
  }

  /** The receiving loop of `getKeyInfoPipelined`. */
  method ReceiveInfo(ch: Channel, c: Conn, opts: KeyOptions, db: string, ks: seq<string>, types: seq<string>)
    requires |ks| == |types| && |c.inbox| >= |InfoCommands(ks, types)|
    modifies ch, c
    ensures var q := ReadInfo(old(c.View()), opts, db, ks, types);
            c.View() == q.wire && ch.samples == old(ch.samples) + q.samples
  {
    ghost var w := c.View();
    assert InfoCommands([], []) == [] && ReadInfo(w, opts, db, [], []) == Pass(w, []);
    assert ks[..|ks|] == ks && types[..|ks|] == types;
    hide ReadInfo, InfoStep, InfoCommands;
    for i := 0 to |ks|
      invariant |w.inbox| >= |InfoCommands(ks, types)| >= |InfoCommands(ks[..i], types[..i])|
      invariant c.View() == ReadInfo(w, opts, db, ks[..i], types[..i]).wire
      invariant ch.samples == old(ch.samples) + ReadInfo(w, opts, db, ks[..i], types[..i]).samples
    {
      InfoCommandsStep(ks, types, i);
      ReadInfoStep(w, opts, db, ks, types, i);
      ReceiveKeyInfo(ch, c, opts, db, ks[i], types[i], old(ch.samples), ReadInfo(w, opts, db, ks[..i], types[..i]));
    }
  }

  /** `getKeyInfoPipelined`. */
  method GetKeyInfoPipelined(ch: Channel, c: Conn, opts: KeyOptions, db: string, ks: seq<string>, types: seq<string>)
    requires |ks| == |types|
    modifies ch, c
    ensures var sent := old(c.View()).SendAll(InfoCommands(ks, types)).Flush(c.server);
            var q := ReadInfo(sent, opts, db, ks, types);
            c.View() == q.wire && ch.samples == old(ch.samples) + q.samples
  {
    SendInfo(c, ks, types);
    ReceiveInfo(ch, c, opts, db, ks, types);
  }

  method SendKeyCommands(c: Conn, key: string, keyType: string)
    modifies c
    ensures c.View() == old(c.View()).SendAll(KeyCommands(key, keyType))
  {
    ghost var before := c.outbox;
    if keyType == "string" {
      c.Send(PfCount(key));
      c.Send(StrLen(key));
      c.Send(Get(key));
      assert c.outbox == before + [PfCount(key), StrLen(key), Get(key)];
    } else if SizeCommand(keyType).Some? {
      c.Send(Size(SizeCommand(keyType).value, key));
    } else {
      assert before + [] == before;
    }
  }

  method ReceiveKeyInfo(ch: Channel, c: Conn, opts: KeyOptions, db: string, key: string, keyType: string,
                        ghost base: seq<Sample>, ghost q: Pass)
    requires c.View() == q.wire && ch.samples == base + q.samples
    requires |c.inbox| >= |KeyCommands(key, keyType)|
    modifies ch, c
    ensures var r := InfoStep(q, opts, db, key, keyType);
            c.View() == r.wire && ch.samples == base + r.samples
  {
    var size := 0;
    if keyType == "string" {
      var pf := c.Receive(db, PfCount(key));
      var len := c.Receive(db, StrLen(key));
      var val := c.Receive(db, Get(key));
      if AsInt64(pf).Some? {
        size := AsInt64(pf).value;
      } else if AsInt64(len).Some? {
        size := AsInt64(len).value;
        ch.EmitAll(ValueSamples(opts, db, key, GetOr(AsString(val), "")));
      } else {
        return;
      }
    } else if SizeCommand(keyType).Some? {
      var reply := c.Receive(db, Size(SizeCommand(keyType).value, key));
      if AsInt64(reply).None? {
        return;
      }
      size := AsInt64(reply).value;
    } else if keyType != "none" {
      return;
    }
    ch.Emit(SizeSample(db, key, size));
  }

  /** Sends the first pipeline of a database and ships it. */
  method SendTypes(c: Conn, db: string, ks: seq<string>)
    modifies c
    ensures c.View() == old(c.View()).SendAll([Select(db)] + TypeCommands(ks)).Flush(c.server)
  {
    c.Send(Select(db));
    for i := 0 to |ks|
      invariant c.View() == old(c.View()).SendAll([Select(db)] + TypeCommands(ks[..i]))
    {
      assert ks[..i + 1][..i] == ks[..i];
      c.Send(Type(ks[i]));
      c.Send(MemoryUsage(ks[i]));
    }
    assert ks[..|ks|] == ks;
    c.Flush();
  }

  /** Collects the key types and emits the memory samples on the way. */
  method ReceiveTypes(ch: Channel, c: Conn, db: string, ks: seq<string>) returns (types: seq<string>)
    requires |c.inbox| >= 2 * |ks|
    modifies ch, c
    ensures var p := ReadTypes(old(c.View()), db, ks);
            c.View() == p.wire && types == p.types && ch.samples == old(ch.samples) + p.samples
  {
    types := [];
    for i := 0 to |ks|
      invariant c.View() == ReadTypes(old(c.View()), db, ks[..i]).wire
      invariant types == ReadTypes(old(c.View()), db, ks[..i]).types
      invariant ch.samples == old(ch.samples) + ReadTypes(old(c.View()), db, ks[..i]).samples
    {
      assert ks[..i + 1][..i] == ks[..i];
      var reply := c.Receive(db, Type(ks[i]));
      types := types + [GetOr(AsString(reply), "")];
      if AsString(reply).Some? {
        reply := c.Receive(db, MemoryUsage(ks[i]));
        if AsInt64(reply).Some? {
          ch.Emit(MemorySample(db, ks[i], AsInt64(reply).value));
        }
      }
    }
    assert ks[..|ks|] == ks;
  }

  method InspectKeys(ch: Channel, c: Conn, opts: KeyOptions, db: string, ks: seq<string>)
    requires c.outbox == [] && |c.inbox| >= 2 * |ks|
    modifies ch, c
    ensures var p := KeysPass(c.server, opts, old(c.View()), db, ks);
            c.View() == p.wire && ch.samples == old(ch.samples) + p.samples
  {
    hide ReadTypes, ReadInfo, InfoCommands;
    ghost var base := ch.samples;
    var types := ReceiveTypes(ch, c, db, ks);
    ghost var collected := ch.samples[|base|..];
    GetKeyInfoPipelined(ch, c, opts, db, ks, types);
    assert ch.samples == base + (collected + ch.samples[|base| + |collected|..]);
  }

  /** The body of the database loop of `extractCheckKeyMetricsPipelined`. */
  method InspectDatabase(ch: Channel, c: Conn, opts: KeyOptions, db: string, ks: seq<string>)
    requires c.outbox == []
    modifies ch, c
    ensures var p := DatabasePass(c.server, opts, old(c.View()), db, ks);
            c.View() == p.wire && ch.samples == old(ch.samples) + p.samples
  {
    SendTypes(c, db, ks);
    var reply := c.Receive(db, Select(db));
    if AsString(reply).Some? {
      InspectKeys(ch, c, opts, db, ks);
    }
  }

  function Databases(allKeys: seq<DbKey>): set<string> {
    if |allKeys| == 0 then {} else Databases(allKeys[..|allKeys| - 1]) + {allKeys[|allKeys| - 1].db}
  }

  /** The key map: each database named, with its keys in order. */
  method GroupByDatabase(allKeys: seq<DbKey>) returns (keysByDb: map<string, seq<string>>)
    ensures keysByDb.Keys == Databases(allKeys)
    ensures forall db :: db in keysByDb ==> keysByDb[db] == KeysOf(db, allKeys)
  {
    keysByDb := map[];
    for i := 0 to |allKeys|
      invariant keysByDb.Keys == Databases(allKeys[..i])
      invariant forall db :: db in keysByDb ==> keysByDb[db] == KeysOf(db, allKeys[..i])
      invariant forall db :: db !in keysByDb ==> KeysOf(db, allKeys[..i]) == []
    {
      var k := allKeys[i];
      assert allKeys[..i + 1][..i] == allKeys[..i];
      if k.db in keysByDb {
        keysByDb := keysByDb[k.db := keysByDb[k.db] + [k.key]];
      } else {
        keysByDb := keysByDb[k.db := [k.key]];
      }
    }
    assert allKeys[..|allKeys|] == allKeys;
  }

  lemma RunDatabasesStep(srv: Server, opts: KeyOptions, w: Wire, order: seq<string>, i: nat, allKeys: seq<DbKey>)
    requires w.outbox == [] && i < |order|
    ensures var before := RunDatabases(srv, opts, w, order[..i], allKeys);
            var p := DatabasePass(srv, opts, before.wire, order[i], KeysOf(order[i], allKeys));
            RunDatabases(srv, opts, w, order[..i + 1], allKeys) == Pass(p.wire, before.samples + p.samples)
  {
    assert order[..i + 1][..i] == order[..i];
  }

  /** The database loop of `extractCheckKeyMetricsPipelined`, over a given iteration order. */
  method InspectDatabases(ch: Channel, c: Conn, opts: KeyOptions, dbs: seq<string>,
                          keysByDb: map<string, seq<string>>, ghost allKeys: seq<DbKey>)
    requires c.outbox == []
    requires forall i :: 0 <= i < |dbs| ==> dbs[i] in keysByDb && keysByDb[dbs[i]] == KeysOf(dbs[i], allKeys)
    modifies ch, c
    ensures var p := RunDatabases(c.server, opts, old(c.View()), dbs, allKeys);
            c.View() == p.wire && ch.samples == old(ch.samples) + p.samples
  {
    hide DatabasePass, KeysOf;
    ghost var base, w := ch.samples, c.View();
    for i := 0 to |dbs|
      invariant c.View() == RunDatabases(c.server, opts, w, dbs[..i], allKeys).wire
      invariant ch.samples == base + RunDatabases(c.server, opts, w, dbs[..i], allKeys).samples
    {
      RunDatabasesStep(c.server, opts, w, dbs, i, allKeys);
      InspectDatabase(ch, c, opts, dbs[i], keysByDb[dbs[i]]);
    }
    assert dbs[..|dbs|] == dbs;
  }

  /** `extractCheckKeyMetricsPipelined`. The key map is iterated in an arbitrary order, which the
      ghost result records. */
  method ExtractPipelined(ch: Channel, c: Conn, opts: KeyOptions, allKeys: seq<DbKey>) returns (ghost order: seq<string>)
    requires c.outbox == []
    modifies ch, c
    ensures Enumerates(order, Databases(allKeys))
    ensures var p := RunDatabases(c.server, opts, old(c.View()), order, allKeys);
            c.View() == p.wire && ch.samples == old(ch.samples) + p.samples
  {
    var keysByDb := GroupByDatabase(allKeys);
    var dbs := IterationOrder(keysByDb.Keys);
    InspectDatabases(ch, c, opts, dbs, keysByDb, allKeys);
    order := dbs;
  }
}
