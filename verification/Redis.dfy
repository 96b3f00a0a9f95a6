/** The connection to the Redis server, reduced to what the exporter can observe: a selected
    database, commands waiting to be flushed, and replies waiting to be read, first in first out.
    The keyspace is a fixed snapshot: the reply to a command is a function of the database it runs
    in, and any reply, error replies included, is possible. */
module Redis {
  import opened Wrappers
  import opened Text

  /** A key and the reply to its MEMORY USAGE, as the key group script sees it: None stands for
      a reply that is not a number. */
  datatype KeyUsage = KeyUsage(key: string, usage: Option<int>)

  datatype Reply =
    | Status(text: string)
    | Bulk(text: string)
    | Integer(n: int)
    | Nil
    | Error(message: string)
    | Array(items: seq<Reply>)
      // what one run of the key group script reads inside the server: SCAN's next cursor and batch
    | Batch(next: Reply, keys: seq<KeyUsage>)

  // ---------- the reply conversions of the client library ----------

  /** `redis.String`. */
  function AsString(r: Reply): Option<string> {
    match r
    case Status(text) => Some(text)
    case Bulk(text) => Some(text)
    case _ => None
  }

  /** `redis.Int64` and `redis.Int`. */
  function AsInt64(r: Reply): Option<int> {
    match r
    case Integer(n) => Some(n)
    case Bulk(text) => (match ParseInt64(text) case Valid(n) => Some(n) case _ => None)
    case _ => None
  }

  /** `redis.Int` with its error dropped: a number out of range leaves the clamped value, anything
      else that is no number leaves 0. */
  function AsCursor(r: Reply): int {
    match r
    case Integer(n) => n
    case Bulk(text) => AtoiLax(text)
    case _ => 0
  }

  /** `redis.Values`. */
  function AsValues(r: Reply): Option<seq<Reply>> {
    match r
    case Array(items) => Some(items)
    case _ => None
  }

  // ---------- commands, the server, and exchanges ----------

  datatype SizeOp = LLEN | SCARD | ZCARD | HLEN | XLEN | ARCOUNT

  datatype Command =
    | Select(db: string)
    | Type(key: string)
    | MemoryUsage(key: string)
    | PfCount(key: string)
    | StrLen(key: string)
    | Get(key: string)
    | Size(op: SizeOp, key: string)
    | Scan(cursor: int, pattern: string, count: int)
    | XInfoStream(key: string)
    | XInfoGroups(key: string)
    | XInfoConsumers(key: string, group: string)
    | XInfoFull(key: string)
    | KeyGroupScript(cursor: int, count: int)
    | SlowLogLen
    | SlowLogGet

  /** `selectable(d)` says whether SELECT d succeeds; `answer(d, c)` is the reply to any other
      command `c` run while database `d` is selected. */
  datatype Server = Server(selectable: string -> bool, answer: (string, Command) -> Reply) {

    function SelectReply(db: string): Reply {
      if selectable(db) then Status("OK") else Error("ERR DB index is out of range")
    }

    predicate TypeOk(db: string, key: string) { AsString(answer(db, Type(key))).Some? }
  }

  /** A command that ran, the database it ran in (for SELECT: the one it names), and its reply. */
  datatype Exchange = Exchange(db: string, cmd: Command, reply: Reply)

  /** One reply read by the exporter: the command and database it takes the reply to be about,
      and the exchange the reply really came from. */
  datatype Read = Read(db: string, wanted: Command, got: Exchange) {
    predicate Aligned() { got.db == db && got.cmd == wanted }
  }

  ghost predicate AllAligned(log: seq<Read>) {
    forall i :: 0 <= i < |log| ==> log[i].Aligned()
  }

  /** The reads added to the log are all of the reply that was meant. */
  ghost predicate GrowsAligned(before: seq<Read>, after: seq<Read>) {
    before <= after && AllAligned(after[|before|..])
  }

  lemma GrowsNothing(a: seq<Read>)
    ensures GrowsAligned(a, a)
  {
  }

  lemma GrowsOne(a: seq<Read>, b: seq<Read>, read: Read)
    requires GrowsAligned(a, b) && read.Aligned()
    ensures GrowsAligned(a, b + [read])
  {
    assert (b + [read])[|a|..] == b[|a|..] + [read];
  }

  lemma GrowsTransitive(a: seq<Read>, b: seq<Read>, c: seq<Read>)
    requires GrowsAligned(a, b) && GrowsAligned(b, c)
    ensures GrowsAligned(a, c)
  {
    assert c[|a|..] == b[|a|..] + c[|b|..];
  }

  /** Everything there is to know about a connection. */
  datatype Wire = Wire(selected: string, outbox: seq<Command>, inbox: seq<Exchange>, log: seq<Read>) {

    predicate Idle() { outbox == [] && inbox == [] }

    function Send(cmd: Command): Wire { this.(outbox := outbox + [cmd]) }

    function SendAll(cmds: seq<Command>): Wire { this.(outbox := outbox + cmds) }

    function Flush(srv: Server): Wire {
      this.(selected := DatabaseAfter(srv, selected, outbox),
            inbox := inbox + Execute(srv, selected, outbox),
            outbox := [])
    }

    /** Reads the oldest reply, taking it for the reply to `wanted` in `db`. */
    function Receive(db: string, wanted: Command): Wire
      requires inbox != []
    {
      this.(inbox := inbox[1..], log := log + [Read(db, wanted, inbox[0])])
    }

    /** Sends one command and reads every reply outstanding. What is returned, and recorded, is the
        first error among them, else the command's own reply. */
    function Do(srv: Server, db: string, cmd: Command): Wire {
      var w := Send(cmd).Flush(srv);
      w.(inbox := [], log := log + [Read(db, cmd, Returned(srv, cmd))])
    }

    function Own(srv: Server, cmd: Command): Exchange {
      var current := DatabaseAfter(srv, selected, outbox);
      Exchange(RunsIn(current, cmd), cmd, AnswerTo(srv, current, cmd))
    }

    function Returned(srv: Server, cmd: Command): Exchange {
      FirstError(Send(cmd).Flush(srv).inbox, Own(srv, cmd))
    }

    function DoReply(srv: Server, cmd: Command): Reply { Returned(srv, cmd).reply }

    /** Some reply left unread is an error: the next `Do` will return it. */
    ghost predicate Tainted() { exists i :: 0 <= i < |inbox| && inbox[i].reply.Error? }
  }

  lemma SendAllTwice(w: Wire, a: seq<Command>, b: seq<Command>)
    ensures w.SendAll(a).SendAll(b) == w.SendAll(a + b)
  {
    assert w.outbox + a + b == w.outbox + (a + b);
  }

  function FirstError(pending: seq<Exchange>, default: Exchange): Exchange {
    if |pending| == 0 then default
    else if pending[0].reply.Error? then pending[0]
    else FirstError(pending[1..], default)
  }

  lemma {:induction false} FirstErrorAmong(pending: seq<Exchange>, default: Exchange)
    ensures (exists i :: 0 <= i < |pending| && pending[i].reply.Error?) ==> FirstError(pending, default).reply.Error?
    ensures FirstError(pending + [default], default) == FirstError(pending, default)
    ensures (forall i :: 0 <= i < |pending| ==> !pending[i].reply.Error?) ==> FirstError(pending, default) == default
  {
    if |pending| != 0 {
      FirstErrorAmong(pending[1..], default);
      assert (pending + [default])[1..] == pending[1..] + [default];
      if i :| 0 <= i < |pending| && pending[i].reply.Error? {
        assert i == 0 || pending[1..][i - 1] == pending[i];
      }
    } else {
      assert pending + [default] == [default] && [default][1..] == [];
    }
  }

  function AnswerTo(srv: Server, db: string, cmd: Command): Reply {
    if cmd.Select? then srv.SelectReply(cmd.db) else srv.answer(db, cmd)
  }

  function RunsIn(db: string, cmd: Command): string {
    if cmd.Select? then cmd.db else db
  }

  function DatabaseAfterOne(srv: Server, db: string, cmd: Command): string {
    if cmd.Select? && srv.selectable(cmd.db) then cmd.db else db
  }

  function DatabaseAfter(srv: Server, db: string, cmds: seq<Command>): string {
    if |cmds| == 0 then db
    else DatabaseAfterOne(srv, DatabaseAfter(srv, db, cmds[..|cmds| - 1]), cmds[|cmds| - 1])
  }

  /** The exchanges that running `cmds` in order produces, starting in database `db`. */
  function Execute(srv: Server, db: string, cmds: seq<Command>): (es: seq<Exchange>)
    ensures |es| == |cmds|
  {
    if |cmds| == 0 then []
    else
      var before, cmd := cmds[..|cmds| - 1], cmds[|cmds| - 1];
      var current := DatabaseAfter(srv, db, before);
      Execute(srv, db, before) + [Exchange(RunsIn(current, cmd), cmd, AnswerTo(srv, current, cmd))]
  }

  predicate NoSelect(cmds: seq<Command>) { forall i :: 0 <= i < |cmds| ==> !cmds[i].Select? }

  function ExchangeIn(srv: Server, db: string, cmd: Command): Exchange {
    Exchange(db, cmd, srv.answer(db, cmd))
  }

  /** The exchanges of commands that all run in `db`. */
  function Exchanges(srv: Server, db: string, cmds: seq<Command>): seq<Exchange> {
    seq(|cmds|, i requires 0 <= i < |cmds| => ExchangeIn(srv, db, cmds[i]))
  }

  /** Commands that do not change the database all run in the one selected. */
  lemma {:induction false} ExecuteNoSelect(srv: Server, db: string, cmds: seq<Command>)
    requires NoSelect(cmds)
    ensures DatabaseAfter(srv, db, cmds) == db
    ensures Execute(srv, db, cmds) == Exchanges(srv, db, cmds)
  {
    if |cmds| != 0 {
      ExecuteNoSelect(srv, db, cmds[..|cmds| - 1]);
    }
  }

  /** A pipeline that starts with a successful SELECT runs the rest in the database it names. */
  lemma {:induction false} ExecuteSelected(srv: Server, db: string, target: string, cmds: seq<Command>)
    requires NoSelect(cmds) && srv.selectable(target)
    ensures DatabaseAfter(srv, db, [Select(target)] + cmds) == target
    ensures Execute(srv, db, [Select(target)] + cmds)
         == [Exchange(target, Select(target), srv.SelectReply(target))] + Exchanges(srv, target, cmds)
  {
    var all := [Select(target)] + cmds;
    if |cmds| == 0 {
      assert all[..0] == [];
    } else {
      ExecuteSelected(srv, db, target, cmds[..|cmds| - 1]);
      assert all[..|all| - 1] == [Select(target)] + cmds[..|cmds| - 1];
    }
  }

  lemma {:induction false} ExecuteHead(srv: Server, db: string, cmd: Command, cmds: seq<Command>)
    ensures Execute(srv, db, [cmd] + cmds)[0] == Exchange(RunsIn(db, cmd), cmd, AnswerTo(srv, db, cmd))
  {
    var all := [cmd] + cmds;
    if |cmds| == 0 {
      assert all[..0] == [];
    } else {
      assert all[..|all| - 1] == [cmd] + cmds[..|cmds| - 1];
      ExecuteHead(srv, db, cmd, cmds[..|cmds| - 1]);
    }
  }

  /** A connection of the client library: `Send` buffers a command, `Flush` ships the buffer,
      `Receive` reads one reply, `Do` is all three and drains what is outstanding. */
  class Conn {
    const server: Server
    var selected: string
    var outbox: seq<Command>
    var inbox: seq<Exchange>
    ghost var log: seq<Read>

    constructor (server: Server, selected: string)
      ensures this.server == server && View() == Wire(selected, [], [], [])
    {
      this.server, this.selected := server, selected;
      outbox, inbox, log := [], [], [];
    }

    ghost function View(): Wire
      reads this
    {
      Wire(selected, outbox, inbox, log)
    }

    method Send(cmd: Command)
      modifies this
      ensures View() == old(View()).Send(cmd)
    {
      outbox := outbox + [cmd];
    }

    method Flush()
      modifies this
      ensures View() == old(View()).Flush(server)
    {
      inbox := inbox + Execute(server, selected, outbox);
      selected := DatabaseAfter(server, selected, outbox);
      outbox := [];
    }

    method Receive(ghost db: string, ghost wanted: Command) returns (reply: Reply)
      requires inbox != []
      modifies this
      ensures View() == old(View()).Receive(db, wanted)
      ensures reply == old(inbox)[0].reply
    {
      reply := inbox[0].reply;
      log := log + [Read(db, wanted, inbox[0])];
      inbox := inbox[1..];
    }

    method Do(ghost db: string, cmd: Command) returns (reply: Reply)
      modifies this
      ensures View() == old(View()).Do(server, db, cmd)
      ensures reply == old(View()).DoReply(server, cmd)
    {
      Send(cmd);
      Flush();
      assert old(View()).Send(cmd).outbox[..|old(outbox)|] == old(outbox);
      var returned := FirstError(inbox, inbox[|inbox| - 1]);
      reply := returned.reply;
      log := log + [Read(db, cmd, returned)];
      inbox := [];
    }

    /** `Do` of a command other than SELECT, with no reply outstanding. */
    method Ask(ghost db: string, cmd: Command) returns (reply: Reply)
      requires View().Idle() && !cmd.Select?
      modifies this
      ensures View() == old(View()).(log := old(log) + [Read(db, cmd, ExchangeIn(server, selected, cmd))])
      ensures reply == server.answer(selected, cmd)
    {
      DoWhenIdle(server, View(), db, cmd);
      reply := Do(db, cmd);
    }

    /** `Do` of a SELECT, whatever replies are outstanding. An error among them is taken for
        SELECT's own, although the server does run the SELECT. */
    method SelectDatabase(db: string) returns (ok: bool)
      requires outbox == []
      modifies this
      ensures ok == (server.selectable(db) && !old(View()).Tainted())
      ensures View().Idle() && Moves(old(View()), View()) && |old(log)| < |log|
      ensures selected == if server.selectable(db) then db else old(selected)
    {
      DoDrains(server, View(), db, Select(db));
      var reply := Do(db, Select(db));
      ok := !reply.Error?;
    }
  }

  /** From `a` to `b` no command ran, or every reply has been read and was the one meant; but where
      an error was left unread, the first command got that. */
  ghost predicate Moves(a: Wire, b: Wire) {
    && b.outbox == [] && a.log <= b.log
    && if |a.log| == |b.log| then a == b
       else b.Idle() && AllAligned(b.log[|a.log| + (if a.Tainted() then 1 else 0)..])
  }

  lemma MovesNothing(a: Wire)
    requires a.outbox == []
    ensures Moves(a, a)
  {
  }

  lemma MovesTransitive(a: Wire, b: Wire, c: Wire)
    requires Moves(a, b) && Moves(b, c)
    ensures Moves(a, c)
  {
    if |a.log| < |b.log| < |c.log| {
      var skip := |a.log| + if a.Tainted() then 1 else 0;
      assert c.log[skip..] == b.log[skip..] + c.log[|b.log|..];
    }
  }

  /** With nothing unread, moving is reading only what is meant. */
  lemma MovesWhenIdle(a: Wire, b: Wire)
    requires a.Idle()
    ensures Moves(a, b) ==> b.Idle() && GrowsAligned(a.log, b.log)
    ensures b.Idle() && GrowsAligned(a.log, b.log) && |a.log| < |b.log| ==> Moves(a, b)
  {
  }

  /** More commands on the idle connection that a first one left. */
  lemma MovesOn(a: Wire, b: Wire, c: Wire)
    requires Moves(a, b) && |a.log| < |b.log| && c.Idle() && GrowsAligned(b.log, c.log)
    ensures Moves(a, c) && |a.log| < |c.log|
  {
    var skip := |a.log| + if a.Tainted() then 1 else 0;
    assert c.log[skip..] == b.log[skip..] + c.log[|b.log|..];
  }

  /** `Do` reads whatever is outstanding, and returns the command's own reply unless there is an
      error among it. */
  lemma DoDrains(srv: Server, w: Wire, db: string, cmd: Command)
    requires w.outbox == []
    ensures var after, own := w.Do(srv, db, cmd), Exchange(RunsIn(w.selected, cmd), cmd, AnswerTo(srv, w.selected, cmd));
            && after.Idle() && after.selected == DatabaseAfterOne(srv, w.selected, cmd)
            && w.log <= after.log && |after.log| == |w.log| + 1
            && (w.Tainted() ==> w.DoReply(srv, cmd).Error?)
            && (!w.Tainted() ==> after.log == w.log + [Read(db, cmd, own)] && w.DoReply(srv, cmd) == own.reply)
  {
    assert w.Send(cmd).outbox == [cmd] && [cmd][..0] == [];
    var own := Exchange(RunsIn(w.selected, cmd), cmd, AnswerTo(srv, w.selected, cmd));
    assert w.Send(cmd).Flush(srv).inbox == w.inbox + [own];
    FirstErrorAmong(w.inbox, own);
  }

  /** Read as what it is, `Do` moves the connection on. */
  lemma DoMoves(srv: Server, w: Wire, cmd: Command)
    requires w.outbox == []
    ensures Moves(w, w.Do(srv, RunsIn(w.selected, cmd), cmd))
  {
    hide Wire.Do;
    DoDrains(srv, w, RunsIn(w.selected, cmd), cmd);
  }

  /** On an idle connection `Do` is a plain request and its reply. */
  lemma DoWhenIdle(srv: Server, w: Wire, db: string, cmd: Command)
    requires w.Idle()
    ensures w.DoReply(srv, cmd) == AnswerTo(srv, w.selected, cmd)
    ensures w.Do(srv, db, cmd) == w.(selected := DatabaseAfterOne(srv, w.selected, cmd),
              log := w.log + [Read(db, cmd, Exchange(RunsIn(w.selected, cmd), cmd, AnswerTo(srv, w.selected, cmd)))])
  {
    DoDrains(srv, w, db, cmd);
  }
}
