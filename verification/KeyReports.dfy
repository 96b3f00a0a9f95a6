/** What is reported about one key, reply by reply (`keys.go`): every type, every reply that is no
    number, strings and HyperLogLogs, written out as the samples that reach the channel. */
module KeyReports {
  import opened Wrappers
  import opened Text
  import opened Sums
  import opened Redis
  import opened Metrics
  import opened KeyInspection
  import opened Pipelining

  /** The reply is no number and no text. */
  predicate Refused(r: Reply) { r.Error? || r.Nil? }

  /** The names of the types that one command measures, each with its command. */
  const MEASURED: seq<(string, SizeOp)> :=
    [("list", LLEN), ("set", SCARD), ("zset", ZCARD), ("hash", HLEN), ("stream", XLEN), ("array", ARCOUNT)]

  /** TYPE gives the name, and MEMORY USAGE the number if there is one. */
  ghost predicate Described(srv: Server, runs: string, key: string, keyType: string, memory: Option<int>) {
    && srv.answer(runs, Type(key)) == Status(keyType)
    && match memory
       case None => Refused(srv.answer(runs, MemoryUsage(key)))
       case Some(n) => srv.answer(runs, MemoryUsage(key)) == Integer(n)
  }

  function MemorySaid(db: string, key: string, memory: Option<int>): seq<Sample> {
    match memory
    case None => []
    case Some(n) => [Sample("key_memory_usage_bytes", n as real, ["db" + db, key])]
  }

  function SizeSaid(db: string, key: string, size: int): seq<Sample> {
    [Sample("key_size", size as real, ["db" + db, key])]
  }

  /** Both paths: what the one-at-a-time path says, read in `runs` and labelled `db`, is `memory`, then
      `rest`; and where both are the key's own database, the pipelined path says the same in its two
      rounds. */
  ghost predicate BothSay(srv: Server, opts: KeyOptions, runs: string, db: string, key: string, memory: Option<int>,
                          rest: seq<Sample>) {
    && PlainKey(srv, opts, runs, db, key) == MemorySaid(db, key, memory) + rest
    && (runs == db ==>
          && MemoryOf(srv, db)(key) == MemorySaid(db, key, memory)
          && multiset(InfoOf(srv, opts, db)(key)) == multiset(rest))
  }

  // ---------- the types that one command measures ----------

  /** A key of each of the six types is measured by its own command. */
  lemma MeasuredKey(srv: Server, opts: KeyOptions, runs: string, db: string, key: string, i: nat, memory: Option<int>, size: int)
    requires i < |MEASURED| && Described(srv, runs, key, MEASURED[i].0, memory)
    requires srv.answer(runs, Size(MEASURED[i].1, key)) == Integer(size)
    ensures BothSay(srv, opts, runs, db, key, memory, SizeSaid(db, key, size))
  {
    MeasuredCommand(i);
  }

  /** A size that is refused is not reported, nor anything else but the memory. */
  lemma UnmeasuredKey(srv: Server, opts: KeyOptions, runs: string, db: string, key: string, i: nat, memory: Option<int>)
    requires i < |MEASURED| && Described(srv, runs, key, MEASURED[i].0, memory)
    requires Refused(srv.answer(runs, Size(MEASURED[i].1, key)))
    ensures BothSay(srv, opts, runs, db, key, memory, [])
  {
    MeasuredCommand(i);
  }

  lemma MeasuredCommand(i: nat)
    requires i < |MEASURED|
    ensures SizeCommand(MEASURED[i].0) == Some(MEASURED[i].1) && MEASURED[i].0 != "none" && MEASURED[i].0 != "string"
  {
    assert |"list"| == 4 && |"hash"| == 4 && |"zset"| == 4 && |"none"| == 4 && |"set"| == 3 && |"array"| == 5;
    assert |"string"| == 6 && |"stream"| == 6;
    assert "list"[0] == 'l' && "hash"[0] == 'h' && "zset"[0] == 'z' && "none"[0] == 'n';
    assert "string"[3] == 'i' && "stream"[3] == 'e';
  }

  /** Of a type that is none of these, and not a string, only the memory is reported. */
  lemma UnknownKey(srv: Server, opts: KeyOptions, runs: string, db: string, key: string, keyType: string, memory: Option<int>)
    requires Described(srv, runs, key, keyType, memory) && keyType != "none" && keyType != "string"
    requires forall i :: 0 <= i < |MEASURED| ==> keyType != MEASURED[i].0
    ensures BothSay(srv, opts, runs, db, key, memory, [])
  {
    assert MEASURED[0].0 == "list" && MEASURED[1].0 == "set" && MEASURED[2].0 == "zset" && MEASURED[3].0 == "hash";
    assert MEASURED[4].0 == "stream" && MEASURED[5].0 == "array";
  }

  /** About a missing key the one-at-a-time path says nothing and the pipelined path a size of 0. */
  lemma MissingKey(srv: Server, opts: KeyOptions, runs: string, db: string, key: string)
    requires Described(srv, runs, key, "none", None)
    ensures PlainKey(srv, opts, runs, db, key) == []
    ensures MemoryOf(srv, runs)(key) == [] && InfoOf(srv, opts, runs)(key) == [Sample("key_size", 0.0, ["db" + runs, key])]
  {
  }

  /** After a refused TYPE the one-at-a-time path says nothing. */
  lemma UntypedKey(srv: Server, opts: KeyOptions, runs: string, db: string, key: string)
    requires Refused(srv.answer(runs, Type(key)))
    ensures PlainKey(srv, opts, runs, db, key) == []
  {
  }

  // ---------- strings ----------

  /** PFCOUNT is refused, STRLEN gives the length, and GET the text if there is one. */
  ghost predicate PlainString(srv: Server, runs: string, key: string, length: int, text: Option<string>) {
    && Refused(srv.answer(runs, PfCount(key)))
    && srv.answer(runs, StrLen(key)) == Integer(length)
    && match text
       case None => Refused(srv.answer(runs, Get(key)))
       case Some(t) => srv.answer(runs, Get(key)) == Bulk(t)
  }

  /** A string's text is reported as a number if it is one, else as a label, unless it is empty, was
      not had, or reporting values is disabled. */
  function ValueSaid(opts: KeyOptions, db: string, key: string, text: Option<string>): seq<Sample> {
    match text
    case None => []
    case Some(t) =>
      if opts.disableExportingKeyValues || |t| == 0 then []
      else if opts.parseFloat(t).Some? then [Sample("key_value", opts.parseFloat(t).value, ["db" + db, key])]
      else [Sample("key_value_as_string", 1.0, ["db" + db, key, t])]
  }

  lemma StringKey(srv: Server, opts: KeyOptions, runs: string, db: string, key: string, memory: Option<int>, length: int,
                  text: Option<string>)
    requires Described(srv, runs, key, "string", memory) && PlainString(srv, runs, key, length, text)
    ensures BothSay(srv, opts, runs, db, key, memory, SizeSaid(db, key, length) + ValueSaid(opts, db, key, text))
  {
    hide Described;
    StringPlain(srv, opts, runs, db, key, memory, length, text);
    if runs == db {
      StringPipelined(srv, opts, db, key, memory, length, text);
    }
  }

  lemma StringPlain(srv: Server, opts: KeyOptions, runs: string, db: string, key: string, memory: Option<int>, length: int,
                    text: Option<string>)
    requires Described(srv, runs, key, "string", memory) && PlainString(srv, runs, key, length, text)
    ensures PlainKey(srv, opts, runs, db, key)
         == MemorySaid(db, key, memory) + (SizeSaid(db, key, length) + ValueSaid(opts, db, key, text))
  {
  }

  lemma StringPipelined(srv: Server, opts: KeyOptions, db: string, key: string, memory: Option<int>, length: int,
                        text: Option<string>)
    requires Described(srv, db, key, "string", memory) && PlainString(srv, db, key, length, text)
    ensures MemoryOf(srv, db)(key) == MemorySaid(db, key, memory)
    ensures multiset(InfoOf(srv, opts, db)(key)) == multiset(SizeSaid(db, key, length) + ValueSaid(opts, db, key, text))
  {
    hide InfoOf, ValueSaid, SizeSaid, PlainString;
    MemoryRound(srv, db, key, "string", memory);
    StringRound(srv, opts, db, key, memory, length, text);
    assert multiset(ValueSaid(opts, db, key, text) + SizeSaid(db, key, length))
        == multiset(SizeSaid(db, key, length) + ValueSaid(opts, db, key, text));
  }

  lemma MemoryRound(srv: Server, db: string, key: string, keyType: string, memory: Option<int>)
    requires Described(srv, db, key, keyType, memory)
    ensures MemoryOf(srv, db)(key) == MemorySaid(db, key, memory)
  {
  }

  /** In the second round of the pipelined path a string's value comes before its size. */
  lemma StringRound(srv: Server, opts: KeyOptions, db: string, key: string, memory: Option<int>, length: int, text: Option<string>)
    requires Described(srv, db, key, "string", memory) && PlainString(srv, db, key, length, text)
    ensures InfoOf(srv, opts, db)(key) == ValueSaid(opts, db, key, text) + SizeSaid(db, key, length)
  {
  }

  /** A HyperLogLog has the size that PFCOUNT gives, whatever STRLEN and GET answer. */
  lemma HyperLogLogKey(srv: Server, opts: KeyOptions, runs: string, db: string, key: string, memory: Option<int>, size: int)
    requires Described(srv, runs, key, "string", memory) && srv.answer(runs, PfCount(key)) == Integer(size)
    ensures BothSay(srv, opts, runs, db, key, memory, SizeSaid(db, key, size))
  {
  }

  /** Without either length nothing but the memory is reported. */
  lemma LengthlessKey(srv: Server, opts: KeyOptions, runs: string, db: string, key: string, memory: Option<int>)
    requires Described(srv, runs, key, "string", memory)
    requires Refused(srv.answer(runs, PfCount(key))) && Refused(srv.answer(runs, StrLen(key)))
    ensures BothSay(srv, opts, runs, db, key, memory, [])
  {
  }

  /** In cluster mode keys are read wherever they are and labelled with database 0. */
  lemma ClusterLabel(srv: Server, opts: KeyOptions, runs: string, k: DbKey)
    ensures PlainZero(srv, opts, runs)(k) == PlainKey(srv, opts, runs, "0", k.key)
    ensures PlainOf(srv, opts)(k) == PlainKey(srv, opts, k.db, k.db, k.key)
  {
  }

  // ---------- replies as the client library converts them ----------

  /** A number may come as an integer or as text, a text as either kind of string. */
  lemma Conversions(n: int, m: nat, text: string)
    requires m <= 9223372036854775807
    ensures AsInt64(Integer(n)) == Some(n) && AsInt64(Bulk(Itoa(m))) == Some(m)
    ensures AsString(Status(text)) == Some(text) && AsString(Bulk(text)) == Some(text)
  {
    ParsePrinted(m);
  }

  /** Anything else is an error. */
  lemma NotConverted(r: Reply, text: string)
    ensures !r.Integer? && !r.Bulk? ==> AsInt64(r).None?
    ensures !r.Status? && !r.Bulk? ==> AsString(r).None?
    ensures AsValues(r) == if r.Array? then Some(r.items) else None
    ensures (text == "" || exists i :: 0 < i < |text| && !('0' <= text[i] <= '9')) ==> AsInt64(Bulk(text)).None?
  {
    if i :| 0 < i < |text| && !('0' <= text[i] <= '9') {
      var digits := if text[0] in {'-', '+'} then text[1..] else text;
      assert digits[if digits == text then i else i - 1] == text[i];
    }
  }
}
