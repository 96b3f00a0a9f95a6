/** The INFO interpreter (`extractInfoMetrics` in `info.go`): a state machine over lines that carries
    the section and the current master, and joins two sections after the last line. */
module Info {
  import opened Wrappers
  import opened Text
  import opened Sums
  import opened Metrics
  import opened Keyspace

  /** Float parsing, and the conversion of a parsed number of calls to an unsigned count. */
  datatype Env = Env(parse: FloatParser, toCount: real -> nat)

  datatype Line = Header(section: string) | Field(key: string, value: string) | Noise

  function Classify(raw: string): Line {
    var line := TrimSpace(raw);
    if "# " <= line then Header(line[2..])
    else if |line| < 2 then Noise
    else
      match Cut(line, ':')
      case None => Noise
      case Some((key, value)) => Field(key, value)
  }

  // ---------- replication ----------

  function SkipDigits(s: string): string {
    if s == "" || !IsDigit(s[0]) then s else SkipDigits(s[1..])
  }

  /** What follows `master` and an optional `_` and number. */
  function AfterIndex(rest: string): string {
    if |rest| >= 2 && rest[0] == '_' && IsDigit(rest[1]) then SkipDigits(rest[1..]) else rest
  }

  /** The patterns `^master(_[0-9]+)?` followed by a suffix that is no digit. */
  predicate MasterField(key: string, suffix: string) {
    "master" <= key && suffix <= AfterIndex(key[6..])
  }

  const HOST := "_host"
  const PORT := "_port"
  const LINK_STATUS := "_link_status"
  const LAST_IO := "_last_io_seconds_ago"
  const SYNC := "_sync_in_progress"
  const SLAVE_OFFSET := "slave_repl_offset"
  const SLAVE := "slave"

  /** `reMasterDirect`. */
  predicate DirectField(key: string) {
    MasterField(key, LAST_IO) || MasterField(key, SYNC) || SLAVE_OFFSET <= key
  }

  function DirectName(key: string): string {
    if HasSuffix(key, "last_io_seconds_ago") then "master_last_io_seconds_ago"
    else if HasSuffix(key, "sync_in_progress") then "master_sync_in_progress"
    else key
  }

  /** The key=value parts of a connected replica; None when a part has not exactly one `=`. */
  function SlaveFields(parts: seq<string>): Option<map<string, string>> {
    if |parts| == 0 then Some(map[])
    else
      var n := |parts| - 1;
      match SlaveFields(parts[..n])
      case None => None
      case Some(fields) =>
        var x := Split(parts[n], '=');
        if |x| != 2 then None else Some(fields[x[0] := x[1]])
  }

  function ValueOf(fields: map<string, string>, name: string): string {
    if name in fields then fields[name] else ""
  }

  // what the fields of a replica say, part by part

  ghost predicate AllOneEquals(parts: seq<string>) { forall i :: 0 <= i < |parts| ==> |Split(parts[i], '=')| == 2 }

  ghost predicate HasField(parts: seq<string>, name: string) { exists i :: 0 <= i < |parts| && Gives(parts[i], name) }

  /** The map has the names of the parts, each with the value of its last part. */
  ghost predicate FieldsOfParts(parts: seq<string>, fields: map<string, string>) {
    forall name: string :: (name in fields <==> HasField(parts, name)) && ValueOf(fields, name) == LastValue(parts, name)
  }

  lemma {:induction false} SlaveFieldsLaw(parts: seq<string>)
    ensures SlaveFields(parts).Some? <==> AllOneEquals(parts)
    ensures SlaveFields(parts).Some? ==> FieldsOfParts(parts, SlaveFields(parts).value)
  {
    hide Split;
    if |parts| != 0 {
      var n := |parts| - 1;
      SlaveFieldsLaw(parts[..n]);
      if SlaveFields(parts).Some? {
        FieldsStep(parts, SlaveFields(parts[..n]).value);
      }
    }
  }

  lemma FieldsStep(parts: seq<string>, before: map<string, string>)
    requires |parts| > 0 && |Split(parts[|parts| - 1], '=')| == 2 && FieldsOfParts(parts[..|parts| - 1], before)
    ensures var x := Split(parts[|parts| - 1], '=');
            FieldsOfParts(parts, before[x[0] := x[1]])
  {
    hide Split;
    var n := |parts| - 1;
    forall name: string ensures HasField(parts, name) <==> HasField(parts[..n], name) || Gives(parts[n], name) {
      if i :| 0 <= i < n && Gives(parts[..n][i], name) {
        assert Gives(parts[i], name);
      }
      if i :| 0 <= i < |parts| && Gives(parts[i], name) {
        assert i == n || Gives(parts[..n][i], name);
      }
    }
  }

  /** The field describes a connected replica: a numbered name, nothing but `name=value` parts, an
      offset that is a number, and a lag that is one or is missing. */
  ghost predicate IsReplica(env: Env, key: string, parts: seq<string>) {
    && SLAVE <= key && |key| > 5 && IsDigit(key[5])
    && AllOneEquals(parts)
    && env.parse(LastValue(parts, "offset")).Some?
    && (HasField(parts, "lag") ==> env.parse(LastValue(parts, "lag")).Some?)
  }

  /** Nothing is said about anything but a replica; about one its offset and, when there is one above
      -1, its lag, under its own ip, port and state, each being the last one given. */
  ghost predicate SaysReplica(env: Env, key: string, parts: seq<string>, samples: seq<Sample>) {
    var labels := [LastValue(parts, "ip"), LastValue(parts, "port"), LastValue(parts, "state")];
    if !IsReplica(env, key, parts) then samples == []
    else
      && |samples| >= 1
      && samples[0] == Sample("connected_slave_offset_bytes", env.parse(LastValue(parts, "offset")).value, labels)
      && samples[1..] == if HasField(parts, "lag") && env.parse(LastValue(parts, "lag")).value > -1.0
                         then [Sample("connected_slave_lag_seconds", env.parse(LastValue(parts, "lag")).value, labels)] else []
  }

  lemma SlaveLaw(env: Env, key: string, value: string)
    ensures SaysReplica(env, key, Split(value, ','), SlaveSamples(env, key, value))
  {
    var parts := Split(value, ',');
    SlaveFieldsLaw(parts);
    hide Split, SlaveFields, SLAVE, AllOneEquals, LastValue, HasField;
    if SlaveFields(parts).Some? {
      var fields := SlaveFields(parts).value;
      assert ValueOf(fields, "offset") == LastValue(parts, "offset") && ValueOf(fields, "lag") == LastValue(parts, "lag");
      assert ValueOf(fields, "ip") == LastValue(parts, "ip") && ValueOf(fields, "port") == LastValue(parts, "port");
      assert ValueOf(fields, "state") == LastValue(parts, "state");
      assert "lag" in fields <==> HasField(parts, "lag");
    }
  }

  /** The samples of a connected replica; its lag is unknown before Redis 3.0. */
  function SlaveSamples(env: Env, key: string, value: string): seq<Sample> {
    if !(SLAVE <= key && |key| > 5 && IsDigit(key[5])) then []
    else
      match SlaveFields(Split(value, ','))
      case None => []
      case Some(fields) =>
        var lag := if "lag" in fields then env.parse(fields["lag"]) else Some(-1.0);
        match env.parse(ValueOf(fields, "offset"))
        case None => []
        case Some(offset) =>
          if lag.None? then []
          else
            var labels := [ValueOf(fields, "ip"), ValueOf(fields, "port"), ValueOf(fields, "state")];
            [Sample("connected_slave_offset_bytes", offset, labels)]
            + if lag.value > -1.0 then [Sample("connected_slave_lag_seconds", lag.value, labels)] else []
  }

  /** A name that no description is found under: what follows a direct pattern's match stays in it. */
  predicate Undescribed(key: string) {
    && !MasterField(key, LINK_STATUS) && DirectField(key)
    && !HasSuffix(key, "last_io_seconds_ago") && !HasSuffix(key, "sync_in_progress") && key != SLAVE_OFFSET
  }

  /** `handleMetricsReplication`, for names that a description is found under. */
  function ReplicationSamples(env: Env, host: string, port: string, key: string, value: string): seq<Sample> {
    if MasterField(key, LINK_STATUS) then
      [Sample("master_link_up", if value == "up" then 1.0 else 0.0, [host, port])]
    else if DirectField(key) then [Sample(DirectName(key), AtoiLax(value) as real, [host, port])]
    else SlaveSamples(env, key, value)
  }

  // ---------- command statistics ----------

  function ExtractVal(env: Env, s: string): Option<real> {
    var split := Split(s, '=');
    if |split| != 2 then None else env.parse(split[1])
  }

  /** What a Commandstats line yields: a name, calls and time even when the line is refused, as far
      as it was parsed; samples only when it is accepted. */
  datatype CommandStats = CommandStats(cmd: string, calls: real, usecs: real, samples: seq<Sample>)

  const CMD_PREFIX := "cmdstat_"

  function CommandSamples(cmd: string, calls: real, usecs: real): seq<Sample> {
    [Sample("commands_total", calls, [cmd]), Sample("commands_duration_seconds_total", usecs / 1000000.0, [cmd])]
  }

  /** `handleMetricsCommandStats` without the per-command slow log fields. */
  function ParseCommandStats(env: Env, key: string, value: string): CommandStats {
    if !(CMD_PREFIX <= key) then CommandStats("", 0.0, 0.0, [])
    else
      var cmd, split := key[|CMD_PREFIX|..], Split(value, ',');
      if |split| < 3 then CommandStats(cmd, 0.0, 0.0, [])
      else
        match ExtractVal(env, split[0])
        case None => CommandStats(cmd, 0.0, 0.0, [])
        case Some(calls) =>
          match ExtractVal(env, split[1])
          case None => CommandStats(cmd, calls, 0.0, [])
          case Some(usecs) =>
            if |split| < 5 then CommandStats(cmd, calls, usecs, CommandSamples(cmd, calls, usecs))
            else
              var rejected, failed := ExtractVal(env, split[3]), ExtractVal(env, split[4]);
              if rejected.None? || failed.None? then CommandStats(cmd, calls, usecs, [])
              else
                CommandStats(cmd, calls, usecs,
                             CommandSamples(cmd, calls, usecs)
                             + [Sample("commands_rejected_calls_total", rejected.value, [cmd]),
                                Sample("commands_failed_calls_total", failed.value, [cmd])])
  }

  // ---------- latency statistics ----------

  const LATENCY_PREFIX := "latency_percentiles_usec_"

  /** `extractPercentileVal`; a part without exactly one `=` counts as percentile 0 of 0. */
  function Percentile(env: Env, s: string): Option<(real, real)> {
    var split := Split(s, '=');
    if |split| != 2 then Some((0.0, 0.0))
    else if split[0] == "" then None
    else
      match env.parse(split[0][1..])
      case None => None
      case Some(p) =>
        match env.parse(split[1])
        case None => None
        case Some(v) => Some((p, v))
  }

  function Percentiles(env: Env, parts: seq<string>): Option<map<real, real>> {
    if |parts| == 0 then Some(map[])
    else
      var n := |parts| - 1;
      match Percentiles(env, parts[..n])
      case None => None
      case Some(ps) =>
        match Percentile(env, parts[n])
        case None => None
        case Some((p, v)) => Some(ps[p := v])
  }

  /** The part has exactly one `=` and a side that is empty or no number. */
  predicate Refuses(env: Env, part: string) {
    var split := Split(part, '=');
    |split| == 2 && (split[0] == "" || env.parse(split[0][1..]).None? || env.parse(split[1]).None?)
  }

  /** The percentile a part gives and its value: 0 and 0 unless it has exactly one `=`. */
  function Given(env: Env, part: string): (real, real)
    requires !Refuses(env, part)
  {
    var split := Split(part, '=');
    if |split| != 2 then (0.0, 0.0) else (env.parse(split[0][1..]).value, env.parse(split[1]).value)
  }

  ghost predicate NoneRefuses(env: Env, parts: seq<string>) { forall i :: 0 <= i < |parts| ==> !Refuses(env, parts[i]) }

  /** Part `i` is the last one that gives percentile `p`. */
  ghost predicate LastGiving(env: Env, parts: seq<string>, p: real, i: nat)
    requires NoneRefuses(env, parts)
  {
    i < |parts| && Given(env, parts[i]).0 == p && forall j :: i < j < |parts| ==> Given(env, parts[j]).0 != p
  }

  /** The map has exactly the percentiles given, each with the value of the last part that gives it. */
  ghost predicate PercentilesOfParts(env: Env, parts: seq<string>, ps: map<real, real>)
    requires NoneRefuses(env, parts)
  {
    && (forall p: real :: p in ps <==> exists i :: 0 <= i < |parts| && Given(env, parts[i]).0 == p)
    && (forall p: real, i: nat :: LastGiving(env, parts, p, i) ==> p in ps && ps[p] == Given(env, parts[i]).1)
  }

  lemma PercentileLaw(env: Env, part: string)
    ensures Percentile(env, part) == if Refuses(env, part) then None else Some(Given(env, part))
  {
  }

  lemma {:induction false} PercentilesLaw(env: Env, parts: seq<string>)
    ensures Percentiles(env, parts).Some? <==> NoneRefuses(env, parts)
    ensures Percentiles(env, parts).Some? ==> PercentilesOfParts(env, parts, Percentiles(env, parts).value)
  {
    hide Percentile, Refuses, Given, PercentilesOfParts;
    if |parts| == 0 {
      NoPercentiles(env, parts);
    } else {
      var n := |parts| - 1;
      PercentilesLaw(env, parts[..n]);
      PercentileLaw(env, parts[n]);
      if NoneRefuses(env, parts) {
        PercentilesStep(env, parts, Percentiles(env, parts[..n]).value);
      }
    }
  }

  lemma NoPercentiles(env: Env, parts: seq<string>)
    requires |parts| == 0
    ensures PercentilesOfParts(env, parts, map[])
  {
  }

  lemma PercentilesStep(env: Env, parts: seq<string>, before: map<real, real>)
    requires |parts| > 0 && NoneRefuses(env, parts) && NoneRefuses(env, parts[..|parts| - 1])
    requires PercentilesOfParts(env, parts[..|parts| - 1], before)
    ensures var (p, v) := Given(env, parts[|parts| - 1]);
            PercentilesOfParts(env, parts, before[p := v])
  {
    hide Refuses, Given;
    var n := |parts| - 1;
    var front := parts[..n];
    var (p0, v0) := Given(env, parts[n]);
    var after := before[p0 := v0];
    assert forall i :: 0 <= i < n ==> front[i] == parts[i];
    forall p: real ensures p in after <==> exists i :: 0 <= i < |parts| && Given(env, parts[i]).0 == p {
      if p in before {
        var i :| 0 <= i < n && Given(env, front[i]).0 == p;
        assert Given(env, parts[i]).0 == p;
      }
      if i :| 0 <= i < n && Given(env, parts[i]).0 == p {
        assert Given(env, front[i]).0 == p;
      }
      assert p == p0 ==> Given(env, parts[n]).0 == p;
    }
    forall p: real, i: nat | LastGiving(env, parts, p, i) ensures p in after && after[p] == Given(env, parts[i]).1 {
      if i < n {
        assert Given(env, parts[n]).0 != p;
        assert LastGiving(env, front, p, i);
      }
    }
  }

  /** `parseMetricsLatencyStats`: the command and its percentiles; None when the line is refused. */
  function ParseLatencyStats(env: Env, key: string, value: string): Option<(string, map<real, real>)> {
    if !(LATENCY_PREFIX <= key) then None
    else
      match Percentiles(env, Split(value, ','))
      case None => None
      case Some(ps) => Some((key[|LATENCY_PREFIX|..], ps))
  }

  // ---------- the state machine ----------

  datatype State = State(
    section: string, masterHost: string, masterPort: string,
    keyValues: map<string, string>, handledDBs: set<string>,
    calls: map<string, real>, usecs: map<string, real>, latencies: map<string, map<real, real>>,
    samples: seq<Sample>)

  const INITIAL := State("", "", "", map[], {}, map[], map[], map[], [])

  const REPLICATION := "Replication"
  const COMMANDSTATS := "Commandstats"
  const LATENCYSTATS := "Latencystats"
  const KEYSPACE := "Keyspace"

  function MetricSamples(db: string, metrics: seq<KeyspaceMetric>): (ss: seq<Sample>)
    ensures |ss| == |metrics|
  {
    seq(|metrics|, i requires 0 <= i < |metrics| => Sample(metrics[i].name, metrics[i].value, [db]))
  }

  /** A field, once key values and the current master are recorded. */
  function InSection(env: Env, s: State, key: string, value: string): State {
    if s.section == REPLICATION then
      s.(samples := s.samples + ReplicationSamples(env, s.masterHost, s.masterPort, key, value))
    else if s.section == COMMANDSTATS then
      var c := ParseCommandStats(env, key, value);
      s.(calls := s.calls[c.cmd := c.calls], usecs := s.usecs[c.cmd := c.usecs], samples := s.samples + c.samples)
    else if s.section == LATENCYSTATS then
      match ParseLatencyStats(env, key, value)
      case None => s
      case Some((cmd, ps)) => s.(latencies := s.latencies[cmd := ps])
    else if s.section == KEYSPACE then
      match ParseDb(env.parse, key, value)
      case None => s
      case Some(metrics) => s.(samples := s.samples + MetricSamples(key, metrics), handledDBs := s.handledDBs + {key})
    else s
  }

  function Record(s: State, key: string, value: string): State {
    s.(keyValues := s.keyValues[key := value],
       masterHost := if MasterField(key, HOST) then value else s.masterHost,
       masterPort := if MasterField(key, PORT) then value else s.masterPort)
  }

  function Step(env: Env, s: State, raw: string): State {
    match Classify(raw)
    case Header(section) => s.(section := section)
    case Noise => s
    case Field(key, value) => InSection(env, Record(s, key, value), key, value)
  }

  function Interpret(env: Env, s: State, lines: seq<string>): State {
    if |lines| == 0 then s else Step(env, Interpret(env, s, lines[..|lines| - 1]), lines[|lines| - 1])
  }

  /** The section in force after some lines. */
  function SectionAfter(section: string, lines: seq<string>): string {
    if |lines| == 0 then section
    else
      match Classify(lines[|lines| - 1])
      case Header(next) => next
      case _ => SectionAfter(section, lines[..|lines| - 1])
  }

  /** The fields that belong to section `wanted`, in order. */
  function FieldsFrom(section: string, lines: seq<string>, wanted: string): seq<(string, string)> {
    if |lines| == 0 then []
    else
      var n := |lines| - 1;
      FieldsFrom(section, lines[..n], wanted)
      + match Classify(lines[n])
        case Field(key, value) => if SectionAfter(section, lines[..n]) == wanted then [(key, value)] else []
        case _ => []
  }

  function FieldsOf(lines: seq<string>, wanted: string): seq<(string, string)> { FieldsFrom("", lines, wanted) }

  // ---------- the run that a missing description stops ----------

  /** One line; None where the lookup of a description panics. */
  function StepOrPanic(env: Env, s: State, raw: string): Option<State> {
    if Classify(raw).Field? && s.section == REPLICATION && Undescribed(Classify(raw).key) then None else Some(Step(env, s, raw))
  }

  function Scrape(env: Env, s: State, lines: seq<string>): Option<State> {
    if |lines| == 0 then Some(s)
    else
      match Scrape(env, s, lines[..|lines| - 1])
      case None => None
      case Some(t) => StepOrPanic(env, t, lines[|lines| - 1])
  }

  /** Some Replication field has such a name. */
  ghost predicate Panics(lines: seq<string>) {
    exists i :: 0 <= i < |FieldsOf(lines, REPLICATION)| && Undescribed(FieldsOf(lines, REPLICATION)[i].0)
  }

  lemma FieldSection(env: Env, s: State, key: string, value: string)
    ensures InSection(env, Record(s, key, value), key, value).section == s.section
  {
  }

  /** For every text: the run panics exactly when some Replication field has a name that no description
      is found under, and otherwise interprets every line. */
  lemma {:induction false} PanicsIff(env: Env, lines: seq<string>)
    ensures Interpret(env, INITIAL, lines).section == SectionAfter("", lines)
    ensures Scrape(env, INITIAL, lines) == if Panics(lines) then None else Some(Interpret(env, INITIAL, lines))
  {
    hide Classify, InSection, Record, Undescribed, REPLICATION, Panics, FieldsOf, FieldsFrom;
    if |lines| == 0 {
      NoPanic(lines);
    } else {
      var n := |lines| - 1;
      PanicsIff(env, lines[..n]);
      PanicsStep(lines);
      match Classify(lines[n]) {
        case Field(key, value) =>
          FieldSection(env, Interpret(env, INITIAL, lines[..n]), key, value);
        case _ =>
      }
    }
  }

  lemma NoPanic(lines: seq<string>)
    requires |lines| == 0
    ensures !Panics(lines)
  {
  }

  lemma PanicsStep(lines: seq<string>)
    requires |lines| > 0
    ensures var n := |lines| - 1;
            Panics(lines) <==> Panics(lines[..n])
                               || (SectionAfter("", lines[..n]) == REPLICATION && Classify(lines[n]).Field?
                                   && Undescribed(Classify(lines[n]).key))
  {
    hide Classify, Undescribed, REPLICATION;
    var n := |lines| - 1;
    var before, after := FieldsOf(lines[..n], REPLICATION), FieldsOf(lines, REPLICATION);
    assert before <= after;
    assert forall i :: 0 <= i < |before| ==> after[i] == before[i];
    if Classify(lines[n]).Field? && SectionAfter("", lines[..n]) == REPLICATION {
      assert after[|before|] == (Classify(lines[n]).key, Classify(lines[n]).value);
    } else {
      assert after == before;
    }
  }

  /** The line has no such name. */
  predicate Safe(raw: string) { Classify(raw).Field? ==> !Undescribed(Classify(raw).key) }

  lemma {:induction false} SafeScrape(env: Env, s: State, lines: seq<string>)
    requires forall i :: 0 <= i < |lines| ==> Safe(lines[i])
    ensures Scrape(env, s, lines) == Some(Interpret(env, s, lines))
  {
    hide Classify, Step, Undescribed;
    if |lines| != 0 {
      SafeScrape(env, s, lines[..|lines| - 1]);
    }
  }

  /** Only names of masters and of the replication offset can lack a description. */
  lemma OtherNamesDescribed(key: string)
    ensures key == "" || (key[0] != 'm' && key[0] != 's') ==> !Undescribed(key)
  {
    hide HasSuffix;
    assert "master"[0] == 'm' && SLAVE_OFFSET[0] == 's';
    PrefixAgrees("master", key, 0);
    PrefixAgrees(SLAVE_OFFSET, key, 0);
  }

  /** Such as a second replication offset. */
  lemma SecondOffsetPanics(env: Env)
    ensures Scrape(env, INITIAL, Split("# Replication\nslave_repl_offset2:1", '\n')).None?
  {
    hide Split, Scrape, Classify, Undescribed, INITIAL, REPLICATION;
    OffsetTextLines();
    OffsetLinesClassified();
    SecondOffsetUndescribed();
    TwoLines(env, "# Replication", "slave_repl_offset2:1");
  }

  lemma OffsetTextLines()
    ensures Split("# Replication\nslave_repl_offset2:1", '\n') == ["# Replication"] + ["slave_repl_offset2:1"]
  {
    hide Split;
    var header, line := "# Replication", "slave_repl_offset2:1";
    assert header + ['\n'] + line == "# Replication\nslave_repl_offset2:1";
    assert '\n' !in header && '\n' !in line;
    SplitPrefix(header, '\n', line);
    SplitNoSep(line, '\n');
  }

  lemma OffsetLinesClassified()
    ensures Classify("# Replication") == Header(REPLICATION)
    ensures Classify("slave_repl_offset2:1") == Field("slave_repl_offset2", "1")
  {
    hide TrimSpace, Cut;
    var header, line, key := "# Replication", "slave_repl_offset2:1", "slave_repl_offset2";
    assert header[..2] == "# " && header[2..] == REPLICATION;
    assert line == key + [':'] + "1" && ':' !in key && line[0] == 's';
    CutPrinted(key, ':', "1");
  }

  lemma SecondOffsetUndescribed()
    ensures Undescribed("slave_repl_offset2")
  {
    var key := "slave_repl_offset2";
    assert key[..17] == SLAVE_OFFSET && key[0] == 's' && "master"[0] == 'm';
    assert key[|key| - 1] == '2' && "last_io_seconds_ago"[18] == 'o' && "sync_in_progress"[15] == 's';
    PrefixAgrees("master", key, 0);
    SuffixAgrees(key, "last_io_seconds_ago");
    SuffixAgrees(key, "sync_in_progress");
  }

  lemma TwoLines(env: Env, header: string, line: string)
    requires Classify(header) == Header(REPLICATION) && Classify(line).Field? && Undescribed(Classify(line).key)
    ensures Scrape(env, INITIAL, [header] + [line]).None?
  {
    hide Classify, Undescribed, InSection, Record;
    var lines := [header] + [line];
    assert lines[..1] == [header] && [header][..0] == [];
    assert Scrape(env, INITIAL, [header]) == StepOrPanic(env, INITIAL, header);
  }

  // ---------- after the last line ----------

  /** A latency summary: count and time from Commandstats, percentiles from Latencystats. */
  datatype Summary = Summary(cmd: string, count: nat, sum: real, percentiles: map<real, real>)

  /** One summary for each command in all three maps, in some order. */
  ghost predicate SummariesOf(env: Env, s: State, summaries: seq<Summary>) {
    && (forall i, j :: 0 <= i < j < |summaries| ==> summaries[i].cmd != summaries[j].cmd)
    && (forall i :: 0 <= i < |summaries| ==>
          var cmd := summaries[i].cmd;
          && cmd in s.latencies && cmd in s.calls && cmd in s.usecs
          && summaries[i] == Summary(cmd, env.toCount(s.calls[cmd]), s.usecs[cmd], s.latencies[cmd]))
    && (forall cmd :: cmd in s.latencies && cmd in s.calls && cmd in s.usecs ==>
          exists i :: 0 <= i < |summaries| && summaries[i].cmd == cmd)
  }

  function DbName(i: nat): string { "db" + Itoa(i) }

  function PaddingFor(handled: set<string>): nat -> seq<Sample> {
    (i: nat) => if DbName(i) in handled then []
         else [Sample("db_keys", 0.0, [DbName(i)]), Sample("db_keys_expiring", 0.0, [DbName(i)])]
  }

  function Upto(n: nat): (s: seq<nat>)
    ensures |s| == n && forall i :: 0 <= i < n ==> s[i] == i
  {
    seq(n, i => i)
  }

  function Padding(handled: set<string>, dbCount: nat): seq<Sample> {
    Flat(Upto(dbCount), PaddingFor(handled))
  }

  function SlaveInfo(kv: map<string, string>): seq<Sample> {
    if ValueOf(kv, "role") == SLAVE then
      [Sample("slave_info", 1.0, [ValueOf(kv, "master_host"), ValueOf(kv, "master_port"), ValueOf(kv, "slave_read_only")])]
    else []
  }

  /** The line loop of `extractInfoMetrics`; None when it panics. */
  method InterpretLines(env: Env, lines: seq<string>) returns (r: Option<State>)
    ensures r == Scrape(env, INITIAL, lines)
  {
    hide StepOrPanic;
    var s := INITIAL;
    for i := 0 to |lines|
      invariant Scrape(env, INITIAL, lines[..i]) == Some(s)
    {
      assert lines[..i + 1][..i] == lines[..i];
      var t := StepLine(env, s, lines[i]);
      if t.None? {
        ScrapeStopped(env, INITIAL, lines, i + 1);
        return None;
      }
      s := t.value;
    }
    assert lines[..|lines|] == lines;
    r := Some(s);
  }

  lemma {:induction false} ScrapeStopped(env: Env, s: State, lines: seq<string>, i: nat)
    requires i <= |lines| && Scrape(env, s, lines[..i]).None?
    ensures Scrape(env, s, lines).None?
    decreases |lines|
  {
    hide StepOrPanic;
    if i == |lines| {
      assert lines[..i] == lines;
    } else {
      assert lines[..|lines| - 1][..i] == lines[..i];
      ScrapeStopped(env, s, lines[..|lines| - 1], i);
    }
  }

  lemma {:induction false} SlaveFieldsFailed(parts: seq<string>, i: nat)
    requires i <= |parts| && SlaveFields(parts[..i]).None?
    ensures SlaveFields(parts).None?
    decreases |parts|
  {
    if i == |parts| {
      assert parts[..i] == parts;
    } else {
      assert parts[..|parts| - 1][..i] == parts[..i];
      SlaveFieldsFailed(parts[..|parts| - 1], i);
    }
  }

  /** The field loop of `parseConnectedSlaveString`. */
  method CollectSlaveFields(parts: seq<string>) returns (fields: Option<map<string, string>>)
    ensures fields == SlaveFields(parts)
    ensures fields.Some? <==> AllOneEquals(parts)
    ensures fields.Some? ==> FieldsOfParts(parts, fields.value)
  {
    hide Split, AllOneEquals, FieldsOfParts;
    SlaveFieldsLaw(parts);
    var collected: map<string, string> := map[];
    for i := 0 to |parts|
      invariant SlaveFields(parts[..i]) == Some(collected)
    {
      assert parts[..i + 1][..i] == parts[..i];
      var x := Split(parts[i], '=');
      if |x| != 2 {
        SlaveFieldsFailed(parts, i + 1);
        return None;
      }
      collected := collected[x[0] := x[1]];
    }
    assert parts[..|parts|] == parts;
    fields := Some(collected);
  }

  /** `parseConnectedSlaveString` and the samples made of it. */
  method HandleSlave(env: Env, key: string, value: string) returns (samples: seq<Sample>)
    ensures samples == SlaveSamples(env, key, value)
    ensures SaysReplica(env, key, Split(value, ','), samples)
  {
    hide SlaveFields, Split, SLAVE, SaysReplica, AllOneEquals, FieldsOfParts;
    SlaveLaw(env, key, value);
    if !(SLAVE <= key && |key| > 5 && IsDigit(key[5])) {
      return [];
    }
    var found := CollectSlaveFields(Split(value, ','));
    if found.None? {
      return [];
    }
    var fields := found.value;
    var offset := env.parse(ValueOf(fields, "offset"));
    if offset.None? {
      return [];
    }
    var lag := -1.0;
    if "lag" in fields {
      var parsed := env.parse(fields["lag"]);
      if parsed.None? {
        return [];
      }
      lag := parsed.value;
    }
    var labels := [ValueOf(fields, "ip"), ValueOf(fields, "port"), ValueOf(fields, "state")];
    samples := [Sample("connected_slave_offset_bytes", offset.value, labels)];
    if lag > -1.0 {
      samples := samples + [Sample("connected_slave_lag_seconds", lag, labels)];
    }
  }

  /** `handleMetricsReplication`; None when it finds no description. */
  method HandleReplication(env: Env, host: string, port: string, key: string, value: string) returns (r: Option<seq<Sample>>)
    ensures r == if Undescribed(key) then None else Some(ReplicationSamples(env, host, port, key, value))
  {
    hide MasterField, SlaveSamples, AtoiLax, HasSuffix, SLAVE_OFFSET;
    if MasterField(key, LINK_STATUS) {
      return Some([Sample("master_link_up", if value == "up" then 1.0 else 0.0, [host, port])]);
    }
    if DirectField(key) {
      var name := key;
      if HasSuffix(key, "last_io_seconds_ago") {
        name := "master_last_io_seconds_ago";
      } else if HasSuffix(key, "sync_in_progress") {
        name := "master_sync_in_progress";
      } else if key != SLAVE_OFFSET {
        return None;
      }
      return Some([Sample(name, AtoiLax(value) as real, [host, port])]);
    }
    var samples := HandleSlave(env, key, value);
    r := Some(samples);
  }

  lemma {:induction false} PercentilesFailed(env: Env, parts: seq<string>, i: nat)
    requires i <= |parts| && Percentiles(env, parts[..i]).None?
    ensures Percentiles(env, parts).None?
    decreases |parts|
  {
    hide Percentile;
    if i == |parts| {
      assert parts[..i] == parts;
    } else {
      assert parts[..|parts| - 1][..i] == parts[..i];
      PercentilesFailed(env, parts[..|parts| - 1], i);
    }
  }

  /** The percentile loop of `parseMetricsLatencyStats`. */
  method CollectPercentiles(env: Env, parts: seq<string>) returns (percentiles: Option<map<real, real>>)
    ensures percentiles == Percentiles(env, parts)
    ensures percentiles.Some? <==> NoneRefuses(env, parts)
    ensures percentiles.Some? ==> PercentilesOfParts(env, parts, percentiles.value)
  {
    hide Percentile, NoneRefuses, PercentilesOfParts;
    PercentilesLaw(env, parts);
    var collected: map<real, real> := map[];
    for i := 0 to |parts|
      invariant Percentiles(env, parts[..i]) == Some(collected)
    {
      assert parts[..i + 1][..i] == parts[..i];
      var kv := Percentile(env, parts[i]);
      if kv.None? {
        PercentilesFailed(env, parts, i + 1);
        return None;
      }
      collected := collected[kv.value.0 := kv.value.1];
    }
    assert parts[..|parts|] == parts;
    percentiles := Some(collected);
  }

  /** `parseMetricsLatencyStats`. */
  method HandleLatencyStats(env: Env, key: string, value: string) returns (r: Option<(string, map<real, real>)>)
    ensures r == ParseLatencyStats(env, key, value)
    ensures r.Some? <==> LATENCY_PREFIX <= key && NoneRefuses(env, Split(value, ','))
    ensures r.Some? ==> key == LATENCY_PREFIX + r.value.0 && PercentilesOfParts(env, Split(value, ','), r.value.1)
  {
    hide Percentiles, Split, LATENCY_PREFIX, NoneRefuses, PercentilesOfParts;
    if !(LATENCY_PREFIX <= key) {
      return None;
    }
    var percentiles := CollectPercentiles(env, Split(value, ','));
    r := if percentiles.None? then None else Some((key[|LATENCY_PREFIX|..], percentiles.value));
  }

  /** One line: each section's handler updates the maps and emits its samples; None when it panics. */
  method StepLine(env: Env, before: State, raw: string) returns (r: Option<State>)
    ensures r == StepOrPanic(env, before, raw)
  {
    hide Classify, Undescribed, MasterField, ReplicationSamples, ParseCommandStats, ParseLatencyStats, ParseDb, REPLICATION, COMMANDSTATS,
         LATENCYSTATS, KEYSPACE;
    var s := before;
    match Classify(raw) {
      case Header(section) =>
        s := s.(section := section);
      case Noise =>
      case Field(key, value) =>
        s := s.(keyValues := s.keyValues[key := value]);
        if MasterField(key, HOST) {
          s := s.(masterHost := value);
        }
        if MasterField(key, PORT) {
          s := s.(masterPort := value);
        }
        assert s == Record(before, key, value);
        if s.section == REPLICATION {
          var samples := HandleReplication(env, s.masterHost, s.masterPort, key, value);
          if samples.None? {
            return None;
          }
          s := s.(samples := s.samples + samples.value);
        } else if s.section == COMMANDSTATS {
          var c := ParseCommandStats(env, key, value);
          s := s.(calls := s.calls[c.cmd := c.calls], usecs := s.usecs[c.cmd := c.usecs], samples := s.samples + c.samples);
        } else if s.section == LATENCYSTATS {
          var r := HandleLatencyStats(env, key, value);
          if r.Some? {
            s := s.(latencies := s.latencies[r.value.0 := r.value.1]);
          }
        } else if s.section == KEYSPACE {
          var metrics := ParseDBKeyspaceString(env.parse, key, value);
          if metrics.Some? {
            s := s.(samples := s.samples + MetricSamples(key, metrics.value), handledDBs := s.handledDBs + {key});
          }
        }
    }
    r := Some(s);
  }

  /** The summaries of the commands already visited. */
  ghost predicate SummariesAmong(env: Env, s: State, summaries: seq<Summary>, visited: set<string>) {
    && (forall i, j :: 0 <= i < j < |summaries| ==> summaries[i].cmd != summaries[j].cmd)
    && (forall i :: 0 <= i < |summaries| ==>
          var cmd := summaries[i].cmd;
          && cmd in visited && cmd in s.latencies && cmd in s.calls && cmd in s.usecs
          && summaries[i] == Summary(cmd, env.toCount(s.calls[cmd]), s.usecs[cmd], s.latencies[cmd]))
    && (forall cmd :: cmd in visited && cmd in s.latencies && cmd in s.calls && cmd in s.usecs ==>
          exists i :: 0 <= i < |summaries| && summaries[i].cmd == cmd)
  }

  lemma VisitCommand(env: Env, s: State, summaries: seq<Summary>, visited: set<string>, cmd: string)
    requires SummariesAmong(env, s, summaries, visited) && cmd !in visited && cmd in s.latencies
    ensures SummariesAmong(env, s,
              if cmd in s.calls && cmd in s.usecs
              then summaries + [Summary(cmd, env.toCount(s.calls[cmd]), s.usecs[cmd], s.latencies[cmd])] else summaries,
              visited + {cmd})
  {
    if cmd in s.calls && cmd in s.usecs {
      var after := summaries + [Summary(cmd, env.toCount(s.calls[cmd]), s.usecs[cmd], s.latencies[cmd])];
      assert after[|summaries|].cmd == cmd;
      forall c | c in visited && c in s.latencies && c in s.calls && c in s.usecs
        ensures exists i :: 0 <= i < |after| && after[i].cmd == c
      {
        var i :| 0 <= i < |summaries| && summaries[i].cmd == c;
        assert after[i].cmd == c;
      }
    }
  }

  /** `generateCommandLatencySummaries`. */
  method GenerateSummaries(env: Env, s: State) returns (summaries: seq<Summary>)
    ensures SummariesOf(env, s, summaries)
  {
    hide SummariesAmong, SummariesOf;
    var order := IterationOrder(s.latencies.Keys);
    summaries := [];
    ghost var visited: set<string> := {};
    NothingVisited(env, s);
    for i := 0 to |order|
      invariant forall k :: 0 <= k < |order| ==> (order[k] in visited <==> k < i)
      invariant visited <= s.latencies.Keys
      invariant SummariesAmong(env, s, summaries, visited)
    {
      var cmd := order[i];
      assert cmd in order;
      VisitCommand(env, s, summaries, visited, cmd);
      visited := visited + {cmd};
      if cmd in s.calls && cmd in s.usecs {
        summaries := summaries + [Summary(cmd, env.toCount(s.calls[cmd]), s.usecs[cmd], s.latencies[cmd])];
      }
    }
    forall cmd | cmd in s.latencies.Keys ensures cmd in visited {
      assert cmd in order;
    }
    AllVisited(env, s, summaries, visited);
  }

  lemma NothingVisited(env: Env, s: State)
    ensures SummariesAmong(env, s, [], {})
  {
  }

  lemma AllVisited(env: Env, s: State, summaries: seq<Summary>, visited: set<string>)
    requires SummariesAmong(env, s, summaries, visited) && visited == s.latencies.Keys
    ensures SummariesOf(env, s, summaries)
  {
  }

  method PadDatabases(handled: set<string>, dbCount: nat) returns (samples: seq<Sample>)
    ensures samples == Padding(handled, dbCount)
  {
    samples := [];
    var upto := Upto(dbCount);
    for i := 0 to dbCount
      invariant samples == Flat(upto[..i], PaddingFor(handled))
    {
      FlatStep(upto, i, PaddingFor(handled));
      if DbName(i) !in handled {
        samples := samples + [Sample("db_keys", 0.0, [DbName(i)]), Sample("db_keys_expiring", 0.0, [DbName(i)])];
      }
    }
    assert upto[..dbCount] == upto;
  }

  /** What becomes of a scrape of INFO: the samples in order, the latency summaries, and the
      instance's role; or the panic that ends the exporter. */
  datatype Scraped = Panicked | Scraped(samples: seq<Sample>, summaries: seq<Summary>, role: string)

  /** `extractInfoMetrics`. */
  method ExtractInfoMetrics(env: Env, info: string, dbCount: nat, padEmpty: bool) returns (r: Scraped)
    ensures r.Panicked? <==> Panics(Split(info, '\n'))
    ensures r.Scraped? ==>
              var s := Interpret(env, INITIAL, Split(info, '\n'));
              && r.samples == s.samples + (if padEmpty then Padding(s.handledDBs, dbCount) else []) + SlaveInfo(s.keyValues)
              && SummariesOf(env, s, r.summaries)
              && r.role == ValueOf(s.keyValues, "role")
  {
    hide Interpret, SummariesOf, Scrape, Panics, Split;
    PanicsIff(env, Split(info, '\n'));
    var run := InterpretLines(env, Split(info, '\n'));
    if run.None? {
      return Panicked;
    }
    var s := run.value;
    var summaries := GenerateSummaries(env, s);
    var samples := s.samples;
    if padEmpty {
      var padding := PadDatabases(s.handledDBs, dbCount);
      samples := samples + padding;
    }
    r := Scraped(samples + SlaveInfo(s.keyValues), summaries, ValueOf(s.keyValues, "role"));
  }
}
