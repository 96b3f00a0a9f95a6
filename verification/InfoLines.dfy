/** INFO as a server prints it (`info.go`): the names of sections and fields letter by letter, the fields
    that no other module's texts contain, and what becomes of all other lines. */
module InfoLines {
  import opened Wrappers
  import opened Text
  import opened Metrics
  import opened Keyspace
  import opened Info
  import opened InfoText
  import FieldText
  import EmptyDatabases
  import MultiMaster
  import Replicas
  import CommandRecords

  // ---------- letter by letter ----------

  lemma SectionsPrinted()
    ensures HeaderOf(REPLICATION) == "# Replication" && HeaderOf(KEYSPACE) == "# Keyspace"
    ensures HeaderOf(COMMANDSTATS) == "# Commandstats" && HeaderOf(LATENCYSTATS) == "# Latencystats"
  {
  }

  lemma MasterFieldsPrinted()
    ensures MultiMaster.FieldLine(0, HOST, "h") == "master_host:h" && MultiMaster.FieldLine(0, PORT, "1") == "master_port:1"
    ensures MultiMaster.FieldLine(0, LINK_STATUS, "up") == "master_link_status:up"
    ensures MultiMaster.FieldLine(2, LAST_IO, "7") == "master_2_last_io_seconds_ago:7"
    ensures MultiMaster.FieldLine(2, SYNC, "1") == "master_2_sync_in_progress:1"
  {
    PrefixesPrinted();
    hide MultiMaster.Prefix;
  }

  lemma PrefixesPrinted()
    ensures MultiMaster.Prefix(0) == "master" && MultiMaster.Prefix(2) == "master_2"
  {
    assert Itoa(2) == "2";
  }

  lemma RecordsPrinted()
    ensures CommandRecords.CommandKey(CommandRecords.CommandRecord("get", "21", "175", "8.33", None)) == "cmdstat_get"
    ensures CommandRecords.LatencyKey(CommandRecords.LatencyRecord("get", [])) == "latency_percentiles_usec_get"
    ensures Replicas.Name(0) == "slave0" && DbName(0) == "db0"
    ensures EmptyDatabases.DatabaseFields(EmptyDatabases.Database(0, "10", "2")) == "keys=10,expires=2"
  {
    assert Itoa(0) == "0";
  }

  lemma CommandPrinted()
    ensures CommandRecords.CommandLine(CommandRecords.CommandRecord("get", "21", "175", "8.33", None))
         == "cmdstat_get" + ":" + ("calls=21" + "," + "usec=175" + "," + "usec_per_call=8.33")
  {
    hide FieldText.PrintField, Join;
    FieldsPrinted();
    RecordsPrinted();
    ThreeJoined("calls=21", "usec=175", "usec_per_call=8.33");
    var c := CommandRecords.CommandRecord("get", "21", "175", "8.33", None);
    assert CommandRecords.CommandFields(c) == [("calls", "21"), ("usec", "175"), ("usec_per_call", "8.33")];
    assert FieldText.PrintFields(CommandRecords.CommandFields(c)) == ["calls=21", "usec=175", "usec_per_call=8.33"];
  }

  lemma LatencyPrinted()
    ensures CommandRecords.LatencyLine(CommandRecords.LatencyRecord("get", [("50", "1"), ("99.9", "2")]))
         == "latency_percentiles_usec_get" + ":" + ("p50=1" + "," + "p99.9=2")
  {
    hide FieldText.PrintField, Join;
    OtherFieldsPrinted();
    RecordsPrinted();
    JoinPair("p50=1", "p99.9=2", ',');
    var l := CommandRecords.LatencyRecord("get", [("50", "1"), ("99.9", "2")]);
    var fields := CommandRecords.LatencyFields(l);
    assert fields[0] == ("p50", "1") && fields[1] == ("p99.9", "2");
    assert FieldText.PrintFields(fields) == ["p50=1", "p99.9=2"];
  }

  lemma OtherFieldsPrinted()
    ensures "p" + "50" == "p50" && "p" + "99.9" == "p99.9"
    ensures FieldText.PrintField(("p50", "1")) == "p50=1" && FieldText.PrintField(("p99.9", "2")) == "p99.9=2"
    ensures FieldText.PrintField(("ip", "10.0.0.1")) == "ip=10.0.0.1" && FieldText.PrintField(("port", "6380")) == "port=6380"
  {
  }

  lemma ReplicaPrinted()
    ensures Replicas.ReplicaLine(0, [("ip", "10.0.0.1"), ("port", "6380")]) == "slave0" + ":" + ("ip=10.0.0.1" + "," + "port=6380")
  {
    hide FieldText.PrintField, Join;
    OtherFieldsPrinted();
    RecordsPrinted();
    JoinPair("ip=10.0.0.1", "port=6380", ',');
    assert FieldText.PrintFields([("ip", "10.0.0.1"), ("port", "6380")]) == ["ip=10.0.0.1", "port=6380"];
  }

  lemma FieldsPrinted()
    ensures FieldText.PrintField(("calls", "21")) == "calls=21" && FieldText.PrintField(("usec", "175")) == "usec=175"
    ensures FieldText.PrintField(("usec_per_call", "8.33")) == "usec_per_call=8.33"
  {
  }

  lemma ThreeJoined(a: string, b: string, c: string)
    ensures Join([a, b, c], ',') == a + "," + b + "," + c
  {
    assert [a, b, c][1..] == [b, c] && [b, c][1..] == [c];
    assert Join([b, c], ',') == b + [','] + Join([c], ',');
  }

  // ---------- names ----------

  /** The name is `master`, an underscore and digits or neither, the suffix, and anything after it. */
  ghost predicate MasterName(key: string, suffix: string, digits: string, rest: string) {
    AllDigits(digits) && key == "master" + (if digits == "" then "" else "_" + digits) + suffix + rest
  }

  lemma MasterFieldIff(key: string, suffix: string)
    requires |suffix| >= 2 && suffix[0] == '_' && !IsDigit(suffix[1])
    ensures MasterField(key, suffix) <==> exists digits: string, rest: string :: MasterName(key, suffix, digits, rest)
  {
    if MasterField(key, suffix) {
      NameOfField(key, suffix);
    } else if digits: string, rest: string :| MasterName(key, suffix, digits, rest) {
      FieldOfName(key, suffix, digits, rest);
    }
  }

  lemma NameOfField(key: string, suffix: string)
    requires MasterField(key, suffix)
    ensures exists digits: string, rest: string :: MasterName(key, suffix, digits, rest)
  {
    var tail := key[6..];
    var digits := IndexDigits(tail);
    hide AfterIndex, AllDigits;
    var left := AfterIndex(tail);
    assert key == "master" + tail && left == suffix + left[|suffix|..];
    assert MasterName(key, suffix, digits, left[|suffix|..]);
  }

  lemma IndexDigits(tail: string) returns (digits: string)
    ensures AllDigits(digits) && tail == (if digits == "" then "" else "_" + digits) + AfterIndex(tail)
  {
    digits := "";
    if AfterIndex(tail) != tail {
      digits := SkippedDigits(tail[1..]);
      assert tail == "_" + tail[1..];
    }
  }

  lemma {:induction false} SkippedDigits(s: string) returns (digits: string)
    ensures AllDigits(digits) && s == digits + SkipDigits(s)
    ensures s != "" && IsDigit(s[0]) ==> digits != ""
  {
    if s == "" || !IsDigit(s[0]) {
      digits := "";
    } else {
      var more := SkippedDigits(s[1..]);
      digits := [s[0]] + more;
    }
  }

  lemma FieldOfName(key: string, suffix: string, digits: string, rest: string)
    requires |suffix| >= 2 && suffix[0] == '_' && !IsDigit(suffix[1]) && MasterName(key, suffix, digits, rest)
    ensures MasterField(key, suffix)
  {
    if digits == "" {
      assert key[6..] == suffix + rest;
    } else {
      SkipThen(digits, suffix + rest);
      assert key[6..] == "_" + (digits + (suffix + rest));
      assert key[6..][1..] == digits + (suffix + rest);
    }
  }

  lemma {:induction false} SkipThen(digits: string, rest: string)
    requires AllDigits(digits) && rest != "" && !IsDigit(rest[0])
    ensures SkipDigits(digits + rest) == rest
  {
    if digits == "" {
      assert digits + rest == rest;
    } else {
      assert (digits + rest)[1..] == digits[1..] + rest;
      SkipThen(digits[1..], rest);
    }
  }

  /** The five suffixes are of that kind. */
  lemma SuffixesShape()
    ensures forall s :: s in [HOST, PORT, LINK_STATUS, LAST_IO, SYNC] ==> |s| >= 2 && s[0] == '_' && !IsDigit(s[1])
  {
  }

  /** Only a name that is `slave` and at least one digit can be a connected replica's. */
  lemma NumberedReplica(env: Env, key: string, value: string)
    requires !("slave" <= key && |key| > 5 && '0' <= key[5] <= '9')
    ensures SlaveSamples(env, key, value) == []
  {
  }

  // ---------- the other fields of a replica ----------

  /** The replication offset is emitted under its own name and the current master's host and port. */
  lemma ReplicationOffset(env: Env, s: State, n: int)
    requires s.section == REPLICATION && MIN_INT64 <= n <= MAX_INT64
    ensures var t := StepOrPanic(env, s, "slave_repl_offset" + ":" + MultiMaster.PrintInt(n));
            && t.Some?
            && t.value.samples == s.samples + [Sample("slave_repl_offset", n as real, [s.masterHost, s.masterPort])]
  {
    hide MultiMaster.PrintInt, AtoiLax, Classify, MasterField, DirectField, DirectName, REPLICATION, Undescribed;
    MultiMaster.PrintedInt(n);
    OffsetLine(MultiMaster.PrintInt(n));
    OffsetField();
  }

  lemma OffsetLine(value: string)
    requires value == "" || !IsSpace(value[|value| - 1])
    ensures Classify("slave_repl_offset" + ":" + value) == Field("slave_repl_offset", value)
  {
    hide Classify;
    ClassifyField("slave_repl_offset", value);
  }

  lemma OffsetField()
    ensures forall suffix: string :: !MasterField("slave_repl_offset", suffix)
    ensures DirectField("slave_repl_offset") && DirectName("slave_repl_offset") == "slave_repl_offset"
    ensures !Undescribed("slave_repl_offset")
  {
    var key := "slave_repl_offset";
    assert key[0] == 's' && "master"[0] == 'm' && key[16] == 't' && "last_io_seconds_ago"[18] == 'o' && "sync_in_progress"[15] == 's';
    SuffixAgrees(key, "last_io_seconds_ago");
    SuffixAgrees(key, "sync_in_progress");
  }

  /** A replica's own sample names the master last recorded; any other instance has none. */
  lemma SlaveInfoSaid(kv: map<string, string>)
    ensures SlaveInfo(kv)
         == if "role" in kv && kv["role"] == "slave" then
              [Sample("slave_info", 1.0, [if "master_host" in kv then kv["master_host"] else "",
                                          if "master_port" in kv then kv["master_port"] else "",
                                          if "slave_read_only" in kv then kv["slave_read_only"] else ""])]
            else []
  {
  }

  // ---------- recorded values ----------

  /** The value of the last field of this name, in whatever section; "" without one. */
  function LastNamed(lines: seq<string>, name: string): string {
    if |lines| == 0 then ""
    else
      match Classify(lines[|lines| - 1])
      case Field(key, value) => if key == name then value else LastNamed(lines[..|lines| - 1], name)
      case _ => LastNamed(lines[..|lines| - 1], name)
  }

  /** The role, and every other value used after the last line, is the last one named. */
  lemma {:induction false} RecordedAreLast(env: Env, lines: seq<string>, name: string)
    ensures ValueOf(Interpret(env, INITIAL, lines).keyValues, name) == LastNamed(lines, name)
  {
    hide Classify, InSection;
    if |lines| != 0 {
      var front, last := lines[..|lines| - 1], Classify(lines[|lines| - 1]);
      RecordedAreLast(env, front, name);
      if last.Field? {
        ValuesKept(env, Record(Interpret(env, INITIAL, front), last.key, last.value), last.key, last.value);
      }
    }
  }

  lemma ValuesKept(env: Env, s: State, key: string, value: string)
    ensures InSection(env, s, key, value).keyValues == s.keyValues
  {
  }

  // ---------- all other lines ----------

  /** A line that is neither a header nor has a colon says nothing; a header needs `#` and a blank. */
  lemma OtherLines(env: Env, s: State, line: string)
    requires ':' !in line && Trimmed(line) && !("# " <= line)
    ensures Step(env, s, line) == s
  {
  }

  /** Two characters make a field if one is a colon, and one never does. */
  lemma ShortLines(a: char, b: char)
    requires !IsSpace(a) && !IsSpace(b)
    ensures Classify([a, b]) == if a == ':' then Field("", [b]) else if b == ':' then Field([a], "") else Noise
    ensures Classify([a]) == Noise && Classify("") == Noise
  {
    assert [a, b][1..] == [b] && [b][1..] == "" && [a][1..] == "";
    assert Trimmed([a, b]) && Trimmed([a]) && Trimmed("");
  }

  /** White space at either end of a line is dropped, all six characters of it. */
  lemma SpacedLine(line: string)
    requires Trimmed(line)
    ensures Classify(" \t" + line) == Classify(line) && Classify(line + "\r") == Classify(line)
    ensures IsSpace('\n') && IsSpace('\U{000B}') && IsSpace('\U{000C}') && !IsSpace('a') && !IsSpace('0') && !IsSpace('_')
  {
    hide Classify;
    ClassifyEnded(line);
    var spaced := " \t" + line;
    assert spaced[1..] == "\t" + line && ("\t" + line)[1..] == line;
    assert TrimLeft(spaced) == TrimLeft("\t" + line) == TrimLeft(line);
    ClassifyTrimmed(spaced, line);
  }

  lemma ClassifyTrimmed(a: string, b: string)
    requires TrimSpace(a) == TrimSpace(b)
    ensures Classify(a) == Classify(b)
  {
    hide TrimSpace, Cut;
  }

  /** A field of a section that is none of the four emits nothing. */
  lemma OtherSections(env: Env, s: State, line: string)
    requires s.section != "Replication" && s.section != "Commandstats" && s.section != "Latencystats" && s.section != "Keyspace"
    ensures Step(env, s, line).samples == s.samples
  {
    hide Classify, MasterField;
  }

  // ---------- the optional numbers of a database ----------

  /** The average time to live is printed in milliseconds and reported in seconds. */
  lemma AverageTtl(parse: FloatParser, key: string, val: string)
    requires ParseDb(parse, key, val).Some?
    ensures var metrics, text := ParseDb(parse, key, val).value, LastCut(Split(val, ','), "avg_ttl");
            match text
            case Some(t) => parse(t).Some? && KeyspaceMetric("db_avg_ttl_seconds", parse(t).value / 1000.0) in metrics
            case None => forall k :: 0 <= k < |metrics| ==> metrics[k].name != "db_avg_ttl_seconds"
  {
    hide ParseDb, Split, LastCut, Scaled;
    OptionalSaid(parse, key, val, 2, "avg_ttl");
    var text := LastCut(Split(val, ','), "avg_ttl");
    if text.Some? {
      OptionalScales(GetOr(parse(text.value), 0.0));
    }
  }

  lemma OptionalScales(x: real)
    ensures Scaled(DEFINITIONS[2], x) == KeyspaceMetric("db_avg_ttl_seconds", x / 1000.0)
    ensures Scaled(DEFINITIONS[3], x) == KeyspaceMetric("db_keys_cached", x)
  {
  }

  lemma CachedKeys(parse: FloatParser, key: string, val: string)
    requires ParseDb(parse, key, val).Some?
    ensures var metrics, text := ParseDb(parse, key, val).value, LastCut(Split(val, ','), "cached_keys");
            match text
            case Some(t) => parse(t).Some? && KeyspaceMetric("db_keys_cached", parse(t).value) in metrics
            case None => forall k :: 0 <= k < |metrics| ==> metrics[k].name != "db_keys_cached"
  {
    hide ParseDb, Split, LastCut, Scaled;
    OptionalSaid(parse, key, val, 3, "cached_keys");
    var text := LastCut(Split(val, ','), "cached_keys");
    if text.Some? {
      OptionalScales(GetOr(parse(text.value), 0.0));
    }
  }

  /** Keys with expiring items go by the Redis name, or without it by the Valkey name. */
  lemma ExpiringItems(parse: FloatParser, key: string, val: string)
    requires ParseDb(parse, key, val).Some?
    ensures var metrics, redis, valkey := ParseDb(parse, key, val).value, LastCut(Split(val, ','), "subexpiry"),
                                          LastCut(Split(val, ','), "keys_with_volatile_items");
            match (if redis.Some? then redis else valkey)
            case Some(t) => parse(t).Some? && KeyspaceMetric("db_keys_with_expiring_items", parse(t).value) in metrics
            case None => forall k :: 0 <= k < |metrics| ==> metrics[k].name != "db_keys_with_expiring_items"
  {
    var parts := Split(val, ',');
    AcceptedSays(parse, key, val);
    FieldMapLast(parts);
    hide ParseDb, Split, FieldMap;
    var fields := FieldMap(parts).value;
    var names := ["subexpiry", "keys_with_volatile_items"];
    assert names[1..] == ["keys_with_volatile_items"];
    OneName(fields, "keys_with_volatile_items");
    assert FirstPresent(fields, names)
        == if "subexpiry" in fields then Some(fields["subexpiry"]) else FirstPresent(fields, names[1..]);
    assert DEFINITIONS[4] == EXPIRING_ITEMS && Says(parse, fields, DEFINITIONS[4], ParseDb(parse, key, val).value);
    assert At(fields, "subexpiry") == LastCut(parts, "subexpiry");
    assert At(fields, "keys_with_volatile_items") == LastCut(parts, "keys_with_volatile_items");
  }

  /** What an optional definition of one spelling says. */
  lemma OptionalSaid(parse: FloatParser, key: string, val: string, i: nat, field: string)
    requires ParseDb(parse, key, val).Some? && i < |DEFINITIONS| && DEFINITIONS[i].fields == [field]
    ensures var d, metrics, text := DEFINITIONS[i], ParseDb(parse, key, val).value, LastCut(Split(val, ','), field);
            match text
            case Some(t) => parse(t).Some? && Scaled(d, parse(t).value) in metrics
            case None => forall k :: 0 <= k < |metrics| ==> metrics[k].name != d.name
  {
    var parts := Split(val, ',');
    AcceptedSays(parse, key, val);
    FieldMapLast(parts);
    hide ParseDb, Split, FieldMap, DEFINITIONS, Scaled;
    var fields := FieldMap(parts).value;
    var d := DEFINITIONS[i];
    OneName(fields, field);
    assert At(fields, field) == LastCut(parts, field);
    assert Says(parse, fields, d, ParseDb(parse, key, val).value);
  }

  // ---------- numbers ----------

  /** Numbers out of range count as the nearest there is, text that is no number as 0. */
  lemma NumbersClamped(n: nat)
    ensures AtoiLax(Itoa(n)) == if n > 9223372036854775807 then 9223372036854775807 else n
    ensures AtoiLax("-" + Itoa(n)) == if n > 9223372036854775808 then -9223372036854775808 else -(n as int)
    ensures AtoiLax("+" + Itoa(n)) == AtoiLax(Itoa(n)) && AtoiLax("") == 0 && AtoiLax("x") == 0 && AtoiLax("-") == 0
  {
    ItoaValue(n);
    assert IsDigit(Itoa(n)[0]);
    assert ("-" + Itoa(n))[1..] == Itoa(n) && ("+" + Itoa(n))[1..] == Itoa(n);
    assert "-"[1..] == "";
  }
}
