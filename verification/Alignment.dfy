/** When the replies of the pipelined path are read for the commands they answer (`keys.go`): the
    exact condition, for every order of the databases and every reply. */
module Alignment {
  import opened Sums
  import opened Redis
  import opened Metrics
  import opened KeyInspection
  import opened Pipelining

  // ---------- logs only grow ----------

  lemma MisalignedStays(a: seq<Read>, b: seq<Read>, c: seq<Read>)
    requires a <= b <= c
    ensures GrowsAligned(a, c) ==> GrowsAligned(a, b)
  {
    if GrowsAligned(a, c) {
      forall i | 0 <= i < |b[|a|..]| ensures b[|a|..][i].Aligned() {
        assert b[|a|..][i] == c[|a|..][i];
      }
    }
  }

  lemma AlignedFrom(a: seq<Read>, b: seq<Read>, c: seq<Read>)
    requires GrowsAligned(a, b) && b <= c
    ensures GrowsAligned(a, c) <==> GrowsAligned(b, c)
  {
    assert c[|a|..] == b[|a|..] + c[|b|..];
    if GrowsAligned(a, c) {
      forall i | 0 <= i < |c[|b|..]| ensures c[|b|..][i].Aligned() {
        assert c[|b|..][i] == c[|a|..][|b| - |a| + i];
      }
    }
  }

  /** The first read after `a` already settles it. */
  lemma FirstMisread(a: seq<Read>, c: seq<Read>, read: Read)
    requires a + [read] <= c && !read.Aligned()
    ensures !GrowsAligned(a, c)
  {
    assert c[|a|..][0] == read;
  }

  lemma {:induction false} ReadTypesLog(w: Wire, db: string, ks: seq<string>)
    requires |w.inbox| >= 2 * |ks|
    ensures w.log <= ReadTypes(w, db, ks).wire.log
  {
    if |ks| != 0 {
      ReadTypesLog(w, db, ks[..|ks| - 1]);
    }
  }

  lemma {:induction false} ReadInfoLog(w: Wire, opts: KeyOptions, db: string, ks: seq<string>, types: seq<string>)
    requires |ks| == |types| && |w.inbox| >= |InfoCommands(ks, types)|
    ensures w.log <= ReadInfo(w, opts, db, ks, types).wire.log
  {
    if |ks| != 0 {
      ReadInfoLog(w, opts, db, ks[..|ks| - 1], types[..|ks| - 1]);
    }
  }

  lemma KeysPassLog(srv: Server, opts: KeyOptions, w: Wire, db: string, ks: seq<string>)
    requires w.outbox == [] && |w.inbox| >= 2 * |ks|
    ensures ReadTypes(w, db, ks).wire.log <= KeysPass(srv, opts, w, db, ks).wire.log
    ensures w.log <= KeysPass(srv, opts, w, db, ks).wire.log
  {
    hide ReadTypes, ReadInfo, InfoCommands;
    ReadTypesLog(w, db, ks);
    var p := ReadTypes(w, db, ks);
    ReadInfoLog(p.wire.SendAll(InfoCommands(ks, p.types)).Flush(srv), opts, db, ks, p.types);
  }

  lemma DatabasePassLog(srv: Server, opts: KeyOptions, w: Wire, db: string, ks: seq<string>)
    requires w.outbox == []
    ensures var sent := w.SendAll([Select(db)] + TypeCommands(ks)).Flush(srv);
            w.log + [Read(db, Select(db), sent.inbox[0])] <= DatabasePass(srv, opts, w, db, ks).wire.log
  {
    hide KeysPass;
    var selected := w.SendAll([Select(db)] + TypeCommands(ks)).Flush(srv).Receive(db, Select(db));
    KeysPassLog(srv, opts, selected, db, ks);
  }

  // ---------- one database ----------

  /** The replies to one key's commands of the first pipeline. */
  function KeyReplies(srv: Server, db: string, key: string): seq<Exchange> {
    [ExchangeIn(srv, db, Type(key)), ExchangeIn(srv, db, MemoryUsage(key))]
  }

  lemma ReplyCount(srv: Server, db: string, ks: seq<string>)
    ensures |Exchanges(srv, db, TypeCommands(ks))| == 2 * |ks|
  {
  }

  lemma KeyExchanges(srv: Server, db: string, key: string)
    ensures Exchanges(srv, db, [Type(key), MemoryUsage(key)]) == KeyReplies(srv, db, key)
  {
  }

  lemma RepliesSnoc(srv: Server, db: string, ks: seq<string>, rest: seq<Exchange>)
    requires |ks| > 0
    ensures var n := |ks| - 1;
            Exchanges(srv, db, TypeCommands(ks)) + rest
            == Exchanges(srv, db, TypeCommands(ks[..n])) + (KeyReplies(srv, db, ks[n]) + rest)
    ensures |Exchanges(srv, db, TypeCommands(ks))| == 2 * |ks|
  {
    hide Exchanges, KeyReplies;
    var n := |ks| - 1;
    ReplyCount(srv, db, ks);
    ExchangesConcat(srv, db, TypeCommands(ks[..n]), [Type(ks[n]), MemoryUsage(ks[n])]);
    KeyExchanges(srv, db, ks[n]);
    var front, own := Exchanges(srv, db, TypeCommands(ks[..n])), KeyReplies(srv, db, ks[n]);
    assert front + own + rest == front + (own + rest);
  }

  /** After a refused TYPE the key's MEMORY USAGE reply is next in line. */
  lemma TypeRefused(srv: Server, p: TypePass, db: string, key: string, rest: seq<Exchange>)
    requires !srv.TypeOk(db, key) && p.wire.inbox == KeyReplies(srv, db, key) + rest
    ensures var r := TypeStep(p, db, key);
            && r.wire == p.wire.(inbox := [ExchangeIn(srv, db, MemoryUsage(key))] + rest, log := r.wire.log)
            && GrowsAligned(p.wire.log, r.wire.log)
            && r.types == p.types + [TypeOf(srv, db, key)] && r.samples == p.samples
  {
    assert p.wire.inbox[1..] == [ExchangeIn(srv, db, MemoryUsage(key))] + rest;
  }

  /** A key that follows one whose TYPE was refused gets that key's reply as its own type. */
  lemma TypeMisread(p: TypePass, db: string, key: string)
    requires |p.wire.inbox| >= 2 && p.wire.inbox[0].cmd.MemoryUsage?
    ensures !GrowsAligned(p.wire.log, TypeStep(p, db, key).wire.log)
    ensures p.wire.log <= TypeStep(p, db, key).wire.log
  {
    FirstMisread(p.wire.log, TypeStep(p, db, key).wire.log, Read(db, Type(key), p.wire.inbox[0]));
  }

  lemma TypeStepLog(p: TypePass, db: string, key: string)
    requires |p.wire.inbox| >= 2
    ensures p.wire.log <= TypeStep(p, db, key).wire.log
  {
  }

  /** A refused TYPE of any key but the last makes the first reading loop misread. */
  lemma {:induction false} ReadTypesMisread(srv: Server, w: Wire, db: string, ks: seq<string>, rest: seq<Exchange>)
    requires |ks| > 0 && !TypesOk(srv, db, ks[..|ks| - 1])
    requires w.inbox == Exchanges(srv, db, TypeCommands(ks)) + rest
    ensures !GrowsAligned(w.log, ReadTypes(w, db, ks).wire.log)
  {
    hide GrowsAligned, TypeStep, TypeCommands, Exchanges;
    var n := |ks| - 1;
    var front := ks[..n];
    RepliesSnoc(srv, db, ks, rest);
    var before := ReadTypes(w, db, front);
    var after := KeyReplies(srv, db, ks[n]) + rest;
    if TypesOk(srv, db, front[..n - 1]) {
      LastRefused(srv, w, db, front, after);
      TypeMisread(before, db, ks[n]);
      AlignedFrom(w.log, before.wire.log, ReadTypes(w, db, ks).wire.log);
    } else {
      ReadTypesMisread(srv, w, db, front, after);
      ReadTypesLog(w, db, front);
      TypeStepLog(before, db, ks[n]);
      MisalignedStays(w.log, before.wire.log, ReadTypes(w, db, ks).wire.log);
    }
  }

  /** Where only the last TYPE is refused, the loop reads what it means to, and leaves one reply. */
  lemma LastRefused(srv: Server, w: Wire, db: string, ks: seq<string>, rest: seq<Exchange>)
    requires |ks| > 0 && TypesOk(srv, db, ks[..|ks| - 1]) && !TypesOk(srv, db, ks)
    requires w.inbox == Exchanges(srv, db, TypeCommands(ks)) + rest
    ensures var p := ReadTypes(w, db, ks);
            && p.wire == w.(inbox := [ExchangeIn(srv, db, MemoryUsage(ks[|ks| - 1]))] + rest, log := p.wire.log)
            && GrowsAligned(w.log, p.wire.log)
            && p.types == TypesOf(srv, db, ks)
            && p.samples == Flat(ks[..|ks| - 1], MemoryOf(srv, db))
  {
    hide ReadTypes, TypeStep, TypesOf, TypeOf, TypesOk, TypeCommands, Exchanges, AllAligned, Flat;
    var n := |ks| - 1;
    LastTypeRefused(srv, db, ks);
    RepliesSnoc(srv, db, ks, rest);
    ReadTypesAligned(srv, w, db, ks[..n], KeyReplies(srv, db, ks[n]) + rest);
    var before := ReadTypes(w, db, ks[..n]);
    ReadTypesSnoc(srv, w, db, ks);
    TypeRefused(srv, before, db, ks[n], rest);
    GrowsTransitive(w.log, before.wire.log, ReadTypes(w, db, ks).wire.log);
  }

  lemma LastTypeRefused(srv: Server, db: string, ks: seq<string>)
    requires |ks| > 0 && TypesOk(srv, db, ks[..|ks| - 1]) && !TypesOk(srv, db, ks)
    ensures !srv.TypeOk(db, ks[|ks| - 1])
  {
  }

  lemma ReadTypesSnoc(srv: Server, w: Wire, db: string, ks: seq<string>)
    requires |ks| > 0 && |w.inbox| >= 2 * |ks|
    ensures var n := |ks| - 1;
            && ReadTypes(w, db, ks) == TypeStep(ReadTypes(w, db, ks[..n]), db, ks[n])
            && TypesOf(srv, db, ks) == TypesOf(srv, db, ks[..n]) + [TypeOf(srv, db, ks[n])]
  {
    hide TypeStep, TypeOf;
  }

  /** With nothing to read the second loop leaves the connection alone. */
  lemma {:induction false} ReadInfoNothing(w: Wire, opts: KeyOptions, db: string, ks: seq<string>, types: seq<string>)
    requires |ks| == |types| && InfoCommands(ks, types) == []
    ensures ReadInfo(w, opts, db, ks, types).wire == w
  {
    if |ks| != 0 {
      ReadInfoNothing(w, opts, db, ks[..|ks| - 1], types[..|ks| - 1]);
    }
  }

  lemma InfoMisread(q: Pass, opts: KeyOptions, db: string, key: string, keyType: string)
    requires |q.wire.inbox| >= |KeyCommands(key, keyType)| > 0 && q.wire.inbox[0].cmd.MemoryUsage?
    ensures !GrowsAligned(q.wire.log, InfoStep(q, opts, db, key, keyType).wire.log)
  {
    FirstMisread(q.wire.log, InfoStep(q, opts, db, key, keyType).wire.log, Read(db, KeyCommands(key, keyType)[0], q.wire.inbox[0]));
  }

  lemma InfoStepLog(q: Pass, opts: KeyOptions, db: string, key: string, keyType: string)
    requires |q.wire.inbox| >= |KeyCommands(key, keyType)|
    ensures q.wire.log <= InfoStep(q, opts, db, key, keyType).wire.log
  {
  }

  /** A MEMORY USAGE reply in front is taken for the reply to the first command of the second loop. */
  lemma {:induction false} ReadInfoMisread(w: Wire, opts: KeyOptions, db: string, ks: seq<string>, types: seq<string>)
    requires |ks| == |types| && |w.inbox| >= |InfoCommands(ks, types)| > 0 && w.inbox[0].cmd.MemoryUsage?
    ensures !GrowsAligned(w.log, ReadInfo(w, opts, db, ks, types).wire.log)
  {
    hide InfoStep, KeyCommands, GrowsAligned;
    var n := |ks| - 1;
    var before := ReadInfo(w, opts, db, ks[..n], types[..n]);
    if InfoCommands(ks[..n], types[..n]) == [] {
      ReadInfoNothing(w, opts, db, ks[..n], types[..n]);
      InfoMisread(before, opts, db, ks[n], types[n]);
    } else {
      ReadInfoMisread(w, opts, db, ks[..n], types[..n]);
      ReadInfoLog(w, opts, db, ks[..n], types[..n]);
      InfoStepLog(before, opts, db, ks[n], types[n]);
      MisalignedStays(w.log, before.wire.log, ReadInfo(w, opts, db, ks, types).wire.log);
    }
  }

  /** Nothing of the second pipeline follows a refused TYPE, which is that of the last key. */
  ghost predicate RefusedAtEnd(srv: Server, db: string, ks: seq<string>) {
    |ks| > 0 && TypesOk(srv, db, ks[..|ks| - 1]) && InfoCommands(ks, TypesOf(srv, db, ks)) == []
  }

  lemma RefusedAtEndIs(srv: Server, db: string, ks: seq<string>)
    requires |ks| > 0
    ensures RefusedAtEnd(srv, db, ks) <==> TypesOk(srv, db, ks[..|ks| - 1]) && InfoCommands(ks, TypesOf(srv, db, ks)) == []
    ensures TypesOk(srv, db, ks) ==> TypesOk(srv, db, ks[..|ks| - 1])
  {
  }

  lemma KeysAlignedIff(srv: Server, opts: KeyOptions, w: Wire, db: string, ks: seq<string>)
    requires w.outbox == [] && w.selected == db && |ks| > 0
    requires w.inbox == Exchanges(srv, db, TypeCommands(ks))
    ensures GrowsAligned(w.log, KeysPass(srv, opts, w, db, ks).wire.log)
       <==> TypesOk(srv, db, ks) || RefusedAtEnd(srv, db, ks)
  {
    hide *;
    RefusedAtEndIs(srv, db, ks);
    ReplyCount(srv, db, ks);
    assert w.inbox + [] == w.inbox;
    if TypesOk(srv, db, ks) {
      KeysPassAligned(srv, opts, w, db, ks);
    } else if TypesOk(srv, db, ks[..|ks| - 1]) {
      LastRefused(srv, w, db, ks, []);
      AfterLastRefused(srv, opts, w, db, ks);
    } else {
      ReadTypesMisread(srv, w, db, ks, []);
      ReadTypesLog(w, db, ks);
      KeysPassLog(srv, opts, w, db, ks);
      MisalignedStays(w.log, ReadTypes(w, db, ks).wire.log, KeysPass(srv, opts, w, db, ks).wire.log);
    }
  }

  lemma AfterLastRefused(srv: Server, opts: KeyOptions, w: Wire, db: string, ks: seq<string>)
    requires w.outbox == [] && |ks| > 0 && |w.inbox| >= 2 * |ks|
    requires var p := ReadTypes(w, db, ks);
             && p.types == TypesOf(srv, db, ks) && GrowsAligned(w.log, p.wire.log)
             && p.wire.inbox == [ExchangeIn(srv, db, MemoryUsage(ks[|ks| - 1]))]
    ensures GrowsAligned(w.log, KeysPass(srv, opts, w, db, ks).wire.log) <==> InfoCommands(ks, TypesOf(srv, db, ks)) == []
  {
    hide ReadTypes, ReadInfo, InfoCommands, TypesOf, GrowsAligned;
    var p := ReadTypes(w, db, ks);
    var sent := p.wire.SendAll(InfoCommands(ks, p.types)).Flush(srv);
    assert sent.inbox[0] == p.wire.inbox[0];
    KeysPassLog(srv, opts, w, db, ks);
    AlignedFrom(w.log, p.wire.log, KeysPass(srv, opts, w, db, ks).wire.log);
    if InfoCommands(ks, p.types) == [] {
      ReadInfoNothing(sent, opts, db, ks, p.types);
      AlignedNothing(p.wire.log);
    } else {
      ReadInfoMisread(sent, opts, db, ks, p.types);
    }
  }

  lemma AlignedNothing(a: seq<Read>)
    ensures GrowsAligned(a, a)
  {
  }

  /** The condition for a database visited from an idle connection. */
  ghost predicate DatabaseAligned(srv: Server, db: string, ks: seq<string>) {
    !srv.selectable(db) || TypesOk(srv, db, ks) || RefusedAtEnd(srv, db, ks)
  }

  /** From an idle connection, every reply of one database is read for the command it answers exactly
      when its SELECT fails, or no TYPE fails, or only that of the last key does and no second round
      follows. */
  lemma DatabaseAlignedIff(srv: Server, opts: KeyOptions, w: Wire, db: string, ks: seq<string>)
    requires w.Idle() && ks != []
    ensures GrowsAligned(w.log, DatabasePass(srv, opts, w, db, ks).wire.log) <==> DatabaseAligned(srv, db, ks)
  {
    hide KeysPass, GrowsAligned, TypesOk, RefusedAtEnd;
    if srv.selectable(db) {
      ShipSelect(srv, w, db, TypeCommands(ks));
      var selected := w.SendAll([Select(db)] + TypeCommands(ks)).Flush(srv).Receive(db, Select(db));
      KeysAlignedIff(srv, opts, selected, db, ks);
      KeysPassLog(srv, opts, selected, db, ks);
      AlignedFrom(w.log, selected.log, KeysPass(srv, opts, selected, db, ks).wire.log);
    } else {
      SelectRefused(srv, opts, w, db, ks);
    }
  }

  lemma SelectRefused(srv: Server, opts: KeyOptions, w: Wire, db: string, ks: seq<string>)
    requires w.Idle() && !srv.selectable(db)
    ensures GrowsAligned(w.log, DatabasePass(srv, opts, w, db, ks).wire.log)
  {
    hide KeysPass, Execute, TypeCommands, DatabaseAfter;
    var cmds := [Select(db)] + TypeCommands(ks);
    assert w.SendAll(cmds).outbox == cmds;
    ExecuteHead(srv, w.selected, Select(db), TypeCommands(ks));
  }

  /** In the harmless case one reply is left: if that is an error, the next command will be given it. */
  lemma RefusedAtEndLeaves(srv: Server, opts: KeyOptions, w: Wire, db: string, ks: seq<string>)
    requires w.Idle() && srv.selectable(db) && !TypesOk(srv, db, ks) && RefusedAtEnd(srv, db, ks)
    ensures var left := DatabasePass(srv, opts, w, db, ks).wire;
            && left.inbox == [ExchangeIn(srv, db, MemoryUsage(ks[|ks| - 1]))]
            && (left.Tainted() <==> srv.answer(db, MemoryUsage(ks[|ks| - 1])).Error?)
  {
    hide ReadTypes, ReadInfo, InfoCommands, TypesOf, TypeCommands, TypesOk, GrowsAligned;
    RefusedAtEndIs(srv, db, ks);
    ShipSelect(srv, w, db, TypeCommands(ks));
    var selected := w.SendAll([Select(db)] + TypeCommands(ks)).Flush(srv).Receive(db, Select(db));
    ReplyCount(srv, db, ks);
    assert selected.inbox + [] == selected.inbox;
    LastRefused(srv, selected, db, ks, []);
    var p := ReadTypes(selected, db, ks);
    var left := [ExchangeIn(srv, db, MemoryUsage(ks[|ks| - 1]))];
    assert p.wire.inbox == left + [] == left;
    var sent := p.wire.SendAll(InfoCommands(ks, p.types)).Flush(srv);
    assert sent.inbox == left + [];
    ReadInfoNothing(sent, opts, db, ks, p.types);
    assert left[0].reply == srv.answer(db, MemoryUsage(ks[|ks| - 1]));
  }

  // ---------- what a database leaves unread ----------

  predicate NoSelectAmong(es: seq<Exchange>) { forall i :: 0 <= i < |es| ==> !es[i].cmd.Select? }

  lemma {:induction false} ExecutedCommands(srv: Server, db: string, cmds: seq<Command>)
    ensures forall i :: 0 <= i < |cmds| ==> Execute(srv, db, cmds)[i].cmd == cmds[i]
  {
    if |cmds| != 0 {
      ExecutedCommands(srv, db, cmds[..|cmds| - 1]);
    }
  }

  lemma {:induction false} ReadTypesLeft(w: Wire, db: string, ks: seq<string>)
    requires |w.inbox| >= 2 * |ks| && NoSelectAmong(w.inbox)
    ensures NoSelectAmong(ReadTypes(w, db, ks).wire.inbox)
  {
    if |ks| != 0 {
      ReadTypesLeft(w, db, ks[..|ks| - 1]);
    }
  }

  lemma {:induction false} ReadInfoLeft(w: Wire, opts: KeyOptions, db: string, ks: seq<string>, types: seq<string>)
    requires |ks| == |types| && |w.inbox| >= |InfoCommands(ks, types)| && NoSelectAmong(w.inbox)
    ensures NoSelectAmong(ReadInfo(w, opts, db, ks, types).wire.inbox)
  {
    hide KeyCommands;
    if |ks| != 0 {
      var n := |ks| - 1;
      ReadInfoLeft(w, opts, db, ks[..n], types[..n]);
      InfoStepLeft(ReadInfo(w, opts, db, ks[..n], types[..n]), opts, db, ks[n], types[n]);
    }
  }

  lemma InfoStepLeft(q: Pass, opts: KeyOptions, db: string, key: string, keyType: string)
    requires |q.wire.inbox| >= |KeyCommands(key, keyType)| && NoSelectAmong(q.wire.inbox)
    ensures NoSelectAmong(InfoStep(q, opts, db, key, keyType).wire.inbox)
  {
  }

  lemma KeysPassLeft(srv: Server, opts: KeyOptions, w: Wire, db: string, ks: seq<string>)
    requires w.outbox == [] && |w.inbox| >= 2 * |ks| && NoSelectAmong(w.inbox)
    ensures NoSelectAmong(KeysPass(srv, opts, w, db, ks).wire.inbox)
  {
    hide ReadTypes, ReadInfo, InfoCommands;
    var p := ReadTypes(w, db, ks);
    var info := InfoCommands(ks, p.types);
    ReadTypesLeft(w, db, ks);
    InfoCommandsNoSelect(ks, p.types);
    ExecutedCommands(srv, p.wire.selected, info);
    var sent := p.wire.SendAll(info).Flush(srv);
    assert p.wire.SendAll(info).outbox == info;
    assert NoSelectAmong(sent.inbox);
    ReadInfoLeft(sent, opts, db, ks, p.types);
  }

  /** From an idle connection no database leaves a SELECT reply behind. */
  lemma DatabaseLeft(srv: Server, opts: KeyOptions, w: Wire, db: string, ks: seq<string>)
    requires w.Idle()
    ensures NoSelectAmong(DatabasePass(srv, opts, w, db, ks).wire.inbox)
  {
    hide KeysPass, TypeCommands, Execute;
    var cmds := [Select(db)] + TypeCommands(ks);
    var selected := w.SendAll(cmds).Flush(srv).Receive(db, Select(db));
    SelectedInbox(srv, w, db, TypeCommands(ks));
    KeysPassLeft(srv, opts, selected, db, ks);
  }

  lemma SelectedInbox(srv: Server, w: Wire, db: string, cmds: seq<Command>)
    requires w.Idle() && NoSelect(cmds)
    ensures var sent := w.SendAll([Select(db)] + cmds).Flush(srv);
            sent.inbox != [] && NoSelectAmong(sent.Receive(db, Select(db)).inbox)
  {
    hide Execute, DatabaseAfter;
    var all := [Select(db)] + cmds;
    assert w.SendAll(all).outbox == all;
    ExecutedCommands(srv, w.selected, all);
    var sent := w.SendAll(all).Flush(srv);
    forall i | 0 <= i < |sent.inbox[1..]| ensures !sent.inbox[1..][i].cmd.Select? {
      assert sent.inbox[i + 1].cmd == all[i + 1] == cmds[i];
    }
  }

  /** The next database takes what is left for its SELECT reply. */
  lemma NextMisreads(srv: Server, opts: KeyOptions, w: Wire, db: string, ks: seq<string>)
    requires w.outbox == [] && w.inbox != [] && NoSelectAmong(w.inbox)
    ensures !GrowsAligned(w.log, DatabasePass(srv, opts, w, db, ks).wire.log)
  {
    hide DatabasePass;
    DatabasePassLog(srv, opts, w, db, ks);
    FirstMisread(w.log, DatabasePass(srv, opts, w, db, ks).wire.log, Read(db, Select(db), w.inbox[0]));
  }

  // ---------- all databases ----------

  lemma PassLog(srv: Server, opts: KeyOptions, w: Wire, order: seq<string>, allKeys: seq<DbKey>)
    requires w.outbox == [] && order != []
    ensures RunDatabases(srv, opts, w, order[..|order| - 1], allKeys).wire.log
         <= RunDatabases(srv, opts, w, order, allKeys).wire.log
  {
    hide DatabasePass;
    var n := |order| - 1;
    DatabasePassLog(srv, opts, RunDatabases(srv, opts, w, order[..n], allKeys).wire, order[n], KeysOf(order[n], allKeys));
  }

  lemma {:induction false} RunLog(srv: Server, opts: KeyOptions, w: Wire, order: seq<string>, allKeys: seq<DbKey>)
    requires w.outbox == []
    ensures w.log <= RunDatabases(srv, opts, w, order, allKeys).wire.log
  {
    hide DatabasePass;
    if |order| != 0 {
      RunLog(srv, opts, w, order[..|order| - 1], allKeys);
      PassLog(srv, opts, w, order, allKeys);
    }
  }

  ghost predicate AllOk(srv: Server, order: seq<string>, allKeys: seq<DbKey>) {
    forall i :: 0 <= i < |order| ==> DatabaseOk(srv, order[i], allKeys)
  }

  /** A database that is refused a SELECT or a TYPE and is not the last one visited spoils the rest. */
  lemma {:induction false} RunMisreads(srv: Server, opts: KeyOptions, w: Wire, order: seq<string>, allKeys: seq<DbKey>)
    requires w.Idle() && order != [] && !AllOk(srv, order[..|order| - 1], allKeys)
    requires forall i :: 0 <= i < |order| ==> KeysOf(order[i], allKeys) != []
    ensures !GrowsAligned(w.log, RunDatabases(srv, opts, w, order, allKeys).wire.log)
  {
    hide DatabasePass, DatabaseOk, GrowsAligned, KeysOf;
    var n := |order| - 1;
    var front := order[..n];
    var before := RunDatabases(srv, opts, w, front, allKeys);
    RunLog(srv, opts, w, front, allKeys);
    PassLog(srv, opts, w, order, allKeys);
    if AllOk(srv, front[..n - 1], allKeys) {
      FirstBad(srv, opts, w, front, allKeys);
      NextMisreads(srv, opts, before.wire, order[n], KeysOf(order[n], allKeys));
      if GrowsAligned(w.log, before.wire.log) {
        AlignedFrom(w.log, before.wire.log, RunDatabases(srv, opts, w, order, allKeys).wire.log);
      } else {
        MisalignedStays(w.log, before.wire.log, RunDatabases(srv, opts, w, order, allKeys).wire.log);
      }
    } else {
      RunMisreads(srv, opts, w, front, allKeys);
      MisalignedStays(w.log, before.wire.log, RunDatabases(srv, opts, w, order, allKeys).wire.log);
    }
  }

  /** The first such database leaves something unread, and no SELECT reply. */
  lemma FirstBad(srv: Server, opts: KeyOptions, w: Wire, order: seq<string>, allKeys: seq<DbKey>)
    requires w.Idle() && order != [] && AllOk(srv, order[..|order| - 1], allKeys) && !AllOk(srv, order, allKeys)
    requires forall i :: 0 <= i < |order| ==> KeysOf(order[i], allKeys) != []
    ensures var left := RunDatabases(srv, opts, w, order, allKeys).wire.inbox;
            left != [] && NoSelectAmong(left)
  {
    hide DatabasePass, GrowsAligned, KeysOf, TypesOk, Flat;
    var n := |order| - 1;
    RunAligned(srv, opts, w, order[..n], allKeys);
    var before := RunDatabases(srv, opts, w, order[..n], allKeys);
    DatabaseLeavesMore(srv, opts, before.wire, order[n], KeysOf(order[n], allKeys));
    DatabaseLeft(srv, opts, before.wire, order[n], KeysOf(order[n], allKeys));
  }

  /** No database but the last is refused anything, and the last one only where it does no harm. */
  ghost predicate OrderAligned(srv: Server, order: seq<string>, allKeys: seq<DbKey>) {
    order == [] || (AllOk(srv, order[..|order| - 1], allKeys)
                    && DatabaseAligned(srv, order[|order| - 1], KeysOf(order[|order| - 1], allKeys)))
  }

  /** For any server and any order of visiting the databases: every reply is read for the command it
      answers exactly on that condition. */
  lemma PipelineAlignedIff(srv: Server, opts: KeyOptions, w: Wire, order: seq<string>, allKeys: seq<DbKey>)
    requires w.Idle() && Enumerates(order, Databases(allKeys))
    ensures GrowsAligned(w.log, RunDatabases(srv, opts, w, order, allKeys).wire.log) <==> OrderAligned(srv, order, allKeys)
  {
    hide GrowsAligned, DatabasePass, KeysOf, DatabaseAligned, Flat;
    VisitedHaveKeys(order, allKeys);
    if order != [] {
      var n := |order| - 1;
      if AllOk(srv, order[..n], allKeys) {
        RunAligned(srv, opts, w, order[..n], allKeys);
        var before := RunDatabases(srv, opts, w, order[..n], allKeys).wire;
        DatabaseAlignedIff(srv, opts, before, order[n], KeysOf(order[n], allKeys));
        PassLog(srv, opts, w, order, allKeys);
        AlignedFrom(w.log, before.log, RunDatabases(srv, opts, w, order, allKeys).wire.log);
      } else {
        RunMisreads(srv, opts, w, order, allKeys);
      }
    } else {
      AlignedNothing(w.log);
    }
  }

  lemma VisitedHaveKeys(order: seq<string>, allKeys: seq<DbKey>)
    requires Enumerates(order, Databases(allKeys))
    ensures forall i :: 0 <= i < |order| ==> KeysOf(order[i], allKeys) != []
  {
    forall i | 0 <= i < |order| ensures KeysOf(order[i], allKeys) != [] {
      assert order[i] in order;
      KeysOfMember(allKeys, order[i], "");
    }
  }

  // ---------- in every order ----------

  /** Some key of the list is in database `db` and is refused its SELECT or TYPE. */
  lemma RefusedDatabase(srv: Server, allKeys: seq<DbKey>) returns (db: string)
    requires !KeysOk(srv, allKeys)
    ensures db in Databases(allKeys) && !DatabaseOk(srv, db, allKeys)
  {
    var i :| 0 <= i < |allKeys|
             && !(srv.selectable(allKeys[i].db) && srv.TypeOk(allKeys[i].db, allKeys[i].key));
    db := allKeys[i].db;
    KeysOfMember(allKeys, db, allKeys[i].key);
    hide Databases, KeysOf;
    assert allKeys[i] == DbKey(db, allKeys[i].key) && allKeys[i] in allKeys;
    var ks := KeysOf(db, allKeys);
    var j :| 0 <= j < |ks| && ks[j] == allKeys[i].key;
  }

  /** With two databases or more: every reply is read for the command it answers, in whatever order the
      databases are visited, exactly when no key is refused its SELECT or TYPE. */
  lemma EveryOrderAlignedIff(srv: Server, opts: KeyOptions, w: Wire, allKeys: seq<DbKey>)
    requires w.Idle() && |Databases(allKeys)| >= 2
    ensures (forall order: seq<string> :: Enumerates(order, Databases(allKeys)) ==>
               GrowsAligned(w.log, RunDatabases(srv, opts, w, order, allKeys).wire.log))
       <==> KeysOk(srv, allKeys)
  {
    hide GrowsAligned, RunDatabases, Databases, DatabaseOk, KeysOk, OrderAligned;
    if KeysOk(srv, allKeys) {
      forall order: seq<string> | Enumerates(order, Databases(allKeys))
        ensures GrowsAligned(w.log, RunDatabases(srv, opts, w, order, allKeys).wire.log)
      {
        PipelineDrainsIff(srv, opts, w, order, allKeys);
      }
    } else {
      var db := RefusedDatabase(srv, allKeys);
      var rest := SomeOrder(Databases(allKeys) - {db});
      var order := StartWith(rest, Databases(allKeys), db);
      PipelineAlignedIff(srv, opts, w, order, allKeys);
      BadFirst(srv, order, allKeys);
      RestNotEmpty(rest, Databases(allKeys), db);
    }
  }

  lemma RestNotEmpty<T(!new)>(rest: seq<T>, all: set<T>, x: T)
    requires x in all && |all| >= 2 && Enumerates(rest, all - {x})
    ensures rest != []
  {
    assert all == (all - {x}) + {x};
    var y :| y in all - {x};
    assert y in rest;
  }

  lemma BadFirst(srv: Server, order: seq<string>, allKeys: seq<DbKey>)
    requires order != [] && !DatabaseOk(srv, order[0], allKeys)
    ensures |order| >= 2 ==> !OrderAligned(srv, order, allKeys)
  {
    hide DatabaseOk, DatabaseAligned, KeysOf;
    if |order| >= 2 {
      assert order[..|order| - 1][0] == order[0];
    }
  }

  /** With a single database: exactly when its SELECT is refused, or none of its TYPEs is, or only that
      of the last key and no second round follows. */
  lemma OneDatabaseAlignedIff(srv: Server, opts: KeyOptions, w: Wire, db: string, allKeys: seq<DbKey>)
    requires w.Idle() && Databases(allKeys) == {db}
    ensures GrowsAligned(w.log, RunDatabases(srv, opts, w, [db], allKeys).wire.log)
       <==> DatabaseAligned(srv, db, KeysOf(db, allKeys))
  {
    hide GrowsAligned, RunDatabases, Databases, DatabaseOk, DatabaseAligned, KeysOf;
    PipelineAlignedIff(srv, opts, w, [db], allKeys);
    assert [db][..0] == [];
  }

  // ---------- what an aligned run reports ----------

  /** The keys whose database can be selected. */
  function Selectable(srv: Server, keys: seq<DbKey>): seq<DbKey> {
    if |keys| == 0 then []
    else
      var last := keys[|keys| - 1];
      Selectable(srv, keys[..|keys| - 1]) + if srv.selectable(last.db) then [last] else []
  }

  /** Those of them whose TYPE is not refused. */
  function Accepted(srv: Server, keys: seq<DbKey>): seq<DbKey> {
    if |keys| == 0 then []
    else
      var last := keys[|keys| - 1];
      Accepted(srv, keys[..|keys| - 1]) + if srv.selectable(last.db) && srv.TypeOk(last.db, last.key) then [last] else []
  }

  function OkKeys(srv: Server, db: string, ks: seq<string>): seq<string> {
    if |ks| == 0 then []
    else OkKeys(srv, db, ks[..|ks| - 1]) + if srv.TypeOk(db, ks[|ks| - 1]) then [ks[|ks| - 1]] else []
  }

  lemma {:induction false} AcceptedAre(srv: Server, keys: seq<DbKey>)
    ensures KeysOk(srv, Accepted(srv, keys))
    ensures forall i :: 0 <= i < |Accepted(srv, keys)| ==> Accepted(srv, keys)[i] in keys
  {
    if |keys| != 0 {
      AcceptedAre(srv, keys[..|keys| - 1]);
    }
  }

  lemma {:induction false} AcceptedKeysOf(srv: Server, db: string, keys: seq<DbKey>)
    ensures KeysOf(db, Accepted(srv, keys)) == if srv.selectable(db) then OkKeys(srv, db, KeysOf(db, keys)) else []
  {
    if |keys| != 0 {
      var n := |keys| - 1;
      var front, last := Accepted(srv, keys[..n]), keys[n];
      AcceptedKeysOf(srv, db, keys[..n]);
      if srv.selectable(last.db) && srv.TypeOk(last.db, last.key) {
        assert (front + [last])[..|front|] == front;
      } else {
        assert front + [] == front;
      }
      if last.db == db {
        var ks := KeysOf(db, keys[..n]);
        assert (ks + [last.key])[..|ks|] == ks;
        assert OkKeys(srv, db, ks) + [] == OkKeys(srv, db, ks);
      } else {
        assert KeysOf(db, keys[..n]) + [] == KeysOf(db, keys[..n]);
        assert KeysOf(db, front) + [] == KeysOf(db, front);
      }
    }
  }

  lemma {:induction false} OkKeysAll(srv: Server, db: string, ks: seq<string>)
    requires TypesOk(srv, db, ks)
    ensures OkKeys(srv, db, ks) == ks
  {
    if |ks| != 0 {
      OkKeysAll(srv, db, ks[..|ks| - 1]);
    }
  }

  lemma OkKeysFront(srv: Server, db: string, ks: seq<string>)
    requires |ks| > 0 && TypesOk(srv, db, ks[..|ks| - 1]) && !TypesOk(srv, db, ks)
    ensures OkKeys(srv, db, ks) == ks[..|ks| - 1]
    ensures !srv.TypeOk(db, ks[|ks| - 1])
  {
    OkKeysAll(srv, db, ks[..|ks| - 1]);
  }

  /** With nothing to send the second loop still reports the sizes of missing keys. */
  lemma {:induction false} SilentInfo(srv: Server, w: Wire, opts: KeyOptions, db: string, ks: seq<string>, types: seq<string>)
    requires types == TypesOf(srv, db, ks) && InfoCommands(ks, types) == []
    ensures ReadInfo(w, opts, db, ks, types).samples == Flat(ks, InfoOf(srv, opts, db))
  {
    hide KeyCommands, InfoStep, PipelinedInfo, TypeOf;
    if |ks| != 0 {
      var n := |ks| - 1;
      assert types[..n] == TypesOf(srv, db, ks[..n]);
      SilentInfo(srv, w, opts, db, ks[..n], types[..n]);
      SilentStep(srv, ReadInfo(w, opts, db, ks[..n], types[..n]), opts, db, ks[n]);
    }
  }

  lemma SilentStep(srv: Server, q: Pass, opts: KeyOptions, db: string, key: string)
    requires KeyCommands(key, TypeOf(srv, db, key)) == []
    ensures InfoStep(q, opts, db, key, TypeOf(srv, db, key)).samples == q.samples + PipelinedInfo(srv, opts, db, key)
  {
  }

  lemma RefusedSaysNothing(srv: Server, opts: KeyOptions, k: DbKey)
    requires !srv.TypeOk(k.db, k.key)
    ensures PipelinedInfo(srv, opts, k.db, k.key) == [] && PlainOf(srv, opts)(k) == [] && MissingOf(srv)(k) == []
  {
  }

  lemma RefusedEndSamples(srv: Server, opts: KeyOptions, w: Wire, db: string, ks: seq<string>)
    requires w.Idle() && srv.selectable(db) && !TypesOk(srv, db, ks) && RefusedAtEnd(srv, db, ks)
    ensures DatabasePass(srv, opts, w, db, ks).samples == DatabaseSamples(srv, opts, db, ks[..|ks| - 1])
  {
    hide ReadTypes, ReadInfo, InfoCommands, TypesOf, TypeCommands, TypesOk, GrowsAligned, Flat;
    RefusedAtEndIs(srv, db, ks);
    ShipSelect(srv, w, db, TypeCommands(ks));
    var selected := w.SendAll([Select(db)] + TypeCommands(ks)).Flush(srv).Receive(db, Select(db));
    ReplyCount(srv, db, ks);
    assert selected.inbox + [] == selected.inbox;
    LastRefused(srv, selected, db, ks, []);
    var p := ReadTypes(selected, db, ks);
    var sent := p.wire.SendAll(InfoCommands(ks, p.types)).Flush(srv);
    SilentInfo(srv, sent, opts, db, ks, p.types);
    OkKeysFront(srv, db, ks);
    LastSaysNothing(srv, opts, db, ks);
  }

  lemma LastSaysNothing(srv: Server, opts: KeyOptions, db: string, ks: seq<string>)
    requires |ks| > 0 && !srv.TypeOk(db, ks[|ks| - 1])
    ensures Flat(ks, InfoOf(srv, opts, db)) == Flat(ks[..|ks| - 1], InfoOf(srv, opts, db))
  {
    hide PipelinedInfo, PlainOf, MissingOf;
    RefusedSaysNothing(srv, opts, DbKey(db, ks[|ks| - 1]));
  }

  lemma DatabaseAlignedSamples(srv: Server, opts: KeyOptions, w: Wire, db: string, keys: seq<DbKey>)
    requires w.Idle() && DatabaseAligned(srv, db, KeysOf(db, keys))
    ensures DatabasePass(srv, opts, w, db, KeysOf(db, keys)).samples
         == DatabaseSamples(srv, opts, db, KeysOf(db, Accepted(srv, keys)))
  {
    hide RefusedAtEnd, TypesOk, KeysOf, Accepted, DatabasePass, DatabaseSamples, OkKeys;
    var ks := KeysOf(db, keys);
    AcceptedKeysOf(srv, db, keys);
    if !srv.selectable(db) {
      UnselectedSamples(srv, opts, w, db, ks);
    } else if TypesOk(srv, db, ks) {
      OkKeysAll(srv, db, ks);
      DatabasePassAligned(srv, opts, w, db, ks);
    } else {
      RefusedAtEndNotEmpty(srv, db, ks);
      OkKeysFront(srv, db, ks);
      RefusedEndSamples(srv, opts, w, db, ks);
    }
  }

  lemma RefusedAtEndNotEmpty(srv: Server, db: string, ks: seq<string>)
    requires RefusedAtEnd(srv, db, ks)
    ensures |ks| > 0 && TypesOk(srv, db, ks[..|ks| - 1])
  {
  }

  lemma UnselectedSamples(srv: Server, opts: KeyOptions, w: Wire, db: string, ks: seq<string>)
    requires w.Idle() && !srv.selectable(db)
    ensures DatabasePass(srv, opts, w, db, ks).samples == DatabaseSamples(srv, opts, db, [])
  {
    hide KeysPass, Execute, TypeCommands, DatabaseAfter;
    var cmds := [Select(db)] + TypeCommands(ks);
    assert w.SendAll(cmds).outbox == cmds;
    ExecuteHead(srv, w.selected, Select(db), TypeCommands(ks));
  }

  lemma OkDatabaseKept(srv: Server, db: string, keys: seq<DbKey>)
    requires DatabaseOk(srv, db, keys)
    ensures KeysOf(db, Accepted(srv, keys)) == KeysOf(db, keys)
  {
    AcceptedKeysOf(srv, db, keys);
    OkKeysAll(srv, db, KeysOf(db, keys));
  }

  lemma RunAlignedSamples(srv: Server, opts: KeyOptions, w: Wire, order: seq<string>, keys: seq<DbKey>)
    requires w.Idle() && OrderAligned(srv, order, keys)
    ensures RunDatabases(srv, opts, w, order, keys).samples == Flat(order, SamplesOfDatabase(srv, opts, Accepted(srv, keys)))
  {
    hide GrowsAligned, DatabasePass, KeysOf, DatabaseAligned, DatabaseSamples, Accepted, DatabaseOk;
    if order != [] {
      var n := |order| - 1;
      var front := order[..n];
      RunAligned(srv, opts, w, front, keys);
      forall db: string | db in front
        ensures SamplesOfDatabase(srv, opts, keys)(db) == SamplesOfDatabase(srv, opts, Accepted(srv, keys))(db)
      {
        OkDatabaseKept(srv, db, keys);
      }
      FlatCongruent(front, SamplesOfDatabase(srv, opts, keys), SamplesOfDatabase(srv, opts, Accepted(srv, keys)));
      DatabaseAlignedSamples(srv, opts, RunDatabases(srv, opts, w, front, keys).wire, order[n], keys);
    }
  }

  lemma {:induction false} AcceptedSayAll(srv: Server, opts: KeyOptions, keys: seq<DbKey>)
    ensures Flat(Accepted(srv, keys), PlainOf(srv, opts)) == Flat(Selectable(srv, keys), PlainOf(srv, opts))
    ensures Flat(Accepted(srv, keys), MissingOf(srv)) == Flat(Selectable(srv, keys), MissingOf(srv))
  {
    hide PlainOf, MissingOf;
    if |keys| != 0 {
      var n := |keys| - 1;
      var a, b, last := Accepted(srv, keys[..n]), Selectable(srv, keys[..n]), keys[n];
      AcceptedSayAll(srv, opts, keys[..n]);
      assert (a + [last])[..|a|] == a && (b + [last])[..|b|] == b && a + [] == a && b + [] == b;
      if !srv.TypeOk(last.db, last.key) {
        RefusedSaysNothing(srv, opts, last);
      }
    }
  }

  lemma AcceptedCovered(srv: Server, order: seq<string>, keys: seq<DbKey>)
    requires Enumerates(order, Databases(keys))
    ensures Distinct(order) && Covers(order, Accepted(srv, keys))
  {
    EnumerationCovers(order, keys);
    AcceptedAre(srv, keys);
    hide Databases, Accepted;
    forall i | 0 <= i < |Accepted(srv, keys)| ensures Accepted(srv, keys)[i].db in order {
      var j :| 0 <= j < |keys| && keys[j] == Accepted(srv, keys)[i];
    }
  }

  /** Whenever every reply is read for the command it answers, harmless refusals included, what is
      reported is what the one-at-a-time path says, each key read in its own database, about the keys
      whose database can be selected, and a size of 0 for the missing ones. */
  lemma AlignedReportsOwn(srv: Server, opts: KeyOptions, w: Wire, order: seq<string>, keys: seq<DbKey>)
    requires w.Idle() && Enumerates(order, Databases(keys)) && OrderAligned(srv, order, keys)
    ensures multiset(RunDatabases(srv, opts, w, order, keys).samples)
         == multiset(Flat(Selectable(srv, keys), PlainOf(srv, opts))) + multiset(Flat(Selectable(srv, keys), MissingOf(srv)))
  {
    hide *;
    RunAlignedSamples(srv, opts, w, order, keys);
    AcceptedCovered(srv, order, keys);
    AcceptedAre(srv, keys);
    AcceptedSayAll(srv, opts, keys);
    forall s: Sample {
      PipelinedCount(srv, opts, order, Accepted(srv, keys), s);
    }
  }

  lemma {:induction false} AllSelectable(srv: Server, keys: seq<DbKey>)
    requires KeysOk(srv, keys)
    ensures Selectable(srv, keys) == keys
  {
    if |keys| != 0 {
      AllSelectable(srv, keys[..|keys| - 1]);
    }
  }
}
