/** The records of commands in INFO (`parseMetricsCommandStats` and `parseMetricsLatencyStats` in
    `info.go`): printed as Commandstats and Latencystats lines and interpreted, each command has its
    counts, its times and its percentiles back. */
module CommandRecords {
  import opened Wrappers
  import opened Text
  import opened Sums
  import opened Metrics
  import opened FieldText
  import opened Info
  import opened InfoText
  import opened LatencyJoin

  /** A Commandstats line; servers before 6.2 do not print rejected and failed calls. */
  datatype CommandRecord = CommandRecord(name: string, calls: string, usec: string, perCall: string,
                                         failures: Option<(string, string)>)

  /** A Latencystats line: percentiles and their values. */
  datatype LatencyRecord = LatencyRecord(name: string, percentiles: seq<(string, string)>)

  predicate OneField(s: string) { Plain(s) && ',' !in s }

  predicate NameText(s: string) { forall i :: 0 <= i < |s| ==> s[i] != ':' && s[i] != '\n' }

  predicate NumberField(env: Env, s: string) { OneField(s) && env.parse(s).Some? }

  function NumberOf(env: Env, s: string): real { GetOr(env.parse(s), 0.0) }

  // ---------- lists of fields ----------

  ghost predicate AllFields(pairs: seq<(string, string)>) {
    pairs != [] && forall i :: 0 <= i < |pairs| ==> OneField(pairs[i].0) && OneField(pairs[i].1)
  }

  lemma FieldsSplit(pairs: seq<(string, string)>)
    requires AllFields(pairs)
    ensures Split(Join(PrintFields(pairs), ','), ',') == PrintFields(pairs)
    ensures forall i :: 0 <= i < |pairs| ==> Split(PrintFields(pairs)[i], '=') == [pairs[i].0, pairs[i].1]
  {
    hide Plain;
    forall i | 0 <= i < |pairs|
      ensures ',' !in PrintFields(pairs)[i] && Split(PrintFields(pairs)[i], '=') == [pairs[i].0, pairs[i].1]
    {
      PrintedField(pairs[i]);
      assert ',' !in pairs[i].0 + "=" + pairs[i].1;
    }
    hide Split;
    SplitJoin(PrintFields(pairs), ',');
  }

  /** Such a list is one word. */
  lemma {:induction false} FieldsWord(pairs: seq<(string, string)>)
    requires AllFields(pairs)
    ensures var text := Join(PrintFields(pairs), ',');
            text != "" && forall k :: 0 <= k < |text| ==> !IsSpace(text[k])
  {
    var parts := PrintFields(pairs);
    assert parts[0] == pairs[0].0 + "=" + pairs[0].1;
    if |pairs| > 1 {
      FieldsWord(pairs[1..]);
      assert parts[1..] == PrintFields(pairs[1..]);
    }
  }

  // ---------- Commandstats ----------

  function CommandFields(c: CommandRecord): seq<(string, string)> {
    [("calls", c.calls), ("usec", c.usec), ("usec_per_call", c.perCall)]
    + match c.failures
      case None => []
      case Some((rejected, failed)) => [("rejected_calls", rejected), ("failed_calls", failed)]
  }

  /** The line can be printed, whether or not its numbers can be read. */
  predicate TextCommand(c: CommandRecord) {
    && NameText(c.name) && OneField(c.calls) && OneField(c.usec) && OneField(c.perCall)
    && (c.failures.Some? ==> OneField(c.failures.value.0) && OneField(c.failures.value.1))
  }

  predicate PrintableCommand(env: Env, c: CommandRecord) {
    && TextCommand(c) && env.parse(c.calls).Some? && env.parse(c.usec).Some?
    && (c.failures.Some? ==> env.parse(c.failures.value.0).Some? && env.parse(c.failures.value.1).Some?)
  }

  function CommandKey(c: CommandRecord): string { CMD_PREFIX + c.name }
  function CommandValue(c: CommandRecord): string { Join(PrintFields(CommandFields(c)), ',') }
  function CommandLine(c: CommandRecord): string { CommandKey(c) + ":" + CommandValue(c) }

  /** What is to be said about a command: its calls, its time in seconds, and its failures if printed. */
  function SamplesOf(env: Env): CommandRecord -> seq<Sample> {
    (c: CommandRecord) =>
      [Sample("commands_total", NumberOf(env, c.calls), [c.name]),
       Sample("commands_duration_seconds_total", NumberOf(env, c.usec) / 1000000.0, [c.name])]
      + match c.failures
        case None => []
        case Some((rejected, failed)) =>
          [Sample("commands_rejected_calls_total", NumberOf(env, rejected), [c.name]),
           Sample("commands_failed_calls_total", NumberOf(env, failed), [c.name])]
  }

  /** What a line yields for the latency summaries: the name always, the calls once they are read, the
      time once both are. */
  function YieldOf(env: Env, c: CommandRecord): (string, real, real) {
    (c.name, NumberOf(env, c.calls), if env.parse(c.calls).None? then 0.0 else NumberOf(env, c.usec))
  }

  lemma CommandFieldsPrintable(c: CommandRecord)
    requires TextCommand(c)
    ensures AllFields(CommandFields(c))
  {
    hide Plain;
    assert OneField("calls") && OneField("usec") && OneField("usec_per_call") by { PlainLabels(); }
    assert OneField("rejected_calls") && OneField("failed_calls") by { PlainLabels(); }
  }

  lemma PlainLabels()
    ensures Plain("calls") && Plain("usec") && Plain("usec_per_call") && Plain("rejected_calls") && Plain("failed_calls")
    ensures ',' !in "calls" && ',' !in "usec" && ',' !in "usec_per_call" && ',' !in "rejected_calls" && ',' !in "failed_calls"
  {
  }

  lemma PrintedVal(env: Env, part: string, p: (string, string))
    requires Split(part, '=') == [p.0, p.1]
    ensures ExtractVal(env, part) == env.parse(p.1)
  {
  }

  /** Any printed line, with three fields or with five: samples exactly when all its numbers can be
      read, and what it yields in any case. */
  lemma CommandYields(env: Env, c: CommandRecord)
    requires TextCommand(c)
    ensures var r, y := ParseCommandStats(env, CommandKey(c), CommandValue(c)), YieldOf(env, c);
            && r.cmd == y.0 && r.calls == y.1 && r.usecs == y.2
            && r.samples == if PrintableCommand(env, c) then SamplesOf(env)(c) else []
  {
    hide Split, Join, PrintFields, Plain, ExtractVal, CMD_PREFIX, AllFields;
    var pairs := CommandFields(c);
    var parts := PrintFields(pairs);
    CommandFieldsPrintable(c);
    FieldsSplit(pairs);
    assert CommandKey(c)[|CMD_PREFIX|..] == c.name;
    PrintedVal(env, parts[0], pairs[0]);
    PrintedVal(env, parts[1], pairs[1]);
    if c.failures.Some? {
      PrintedVal(env, parts[3], pairs[3]);
      PrintedVal(env, parts[4], pairs[4]);
    }
  }

  lemma CommandRead(env: Env, c: CommandRecord)
    requires PrintableCommand(env, c)
    ensures ParseCommandStats(env, CommandKey(c), CommandValue(c))
         == CommandStats(c.name, NumberOf(env, c.calls), NumberOf(env, c.usec), SamplesOf(env)(c))
  {
    hide ParseCommandStats, SamplesOf, NumberOf;
    CommandYields(env, c);
  }

  /** A line of fewer than three fields yields its name alone; one that is no command's, an empty name. */
  lemma OtherCommandLines(env: Env, name: string, value: string, key: string)
    ensures |Split(value, ',')| < 3 ==> ParseCommandStats(env, "cmdstat_" + name, value) == CommandStats(name, 0.0, 0.0, [])
    ensures !("cmdstat_" <= key) ==> ParseCommandStats(env, key, value) == CommandStats("", 0.0, 0.0, [])
  {
    assert ("cmdstat_" + name)[8..] == name;
  }

  /** A part is read when it has one `=` and a number after it. */
  lemma FieldNumber(env: Env, field: string, number: string)
    requires '=' !in field && '=' !in number
    ensures ExtractVal(env, field + "=" + number) == env.parse(number)
    ensures ExtractVal(env, field) == None && ExtractVal(env, field + "=" + number + "=") == None
  {
    hide Split;
    var tail := number + "=";
    assert field + "=" + number == field + ['='] + number && field + "=" + number + "=" == field + ['='] + tail;
    assert tail == number + ['='] + "";
    SplitPrefix(field, '=', number);
    SplitPrefix(field, '=', tail);
    SplitPrefix(number, '=', "");
    SplitNoSep(field, '=');
    SplitNoSep(number, '=');
    SplitNoSep("", '=');
  }

  lemma CommandLineRead(env: Env, c: CommandRecord)
    requires PrintableCommand(env, c)
    ensures Classify(CommandLine(c)) == Field(CommandKey(c), CommandValue(c))
    ensures Safe(CommandLine(c)) && '\n' !in CommandLine(c)
  {
    hide Classify, Undescribed, Join, PrintFields, CommandFields, AllFields;
    CommandFieldsPrintable(c);
    FieldsWord(CommandFields(c));
    KeyShape(CMD_PREFIX, c.name);
    SafeField(CommandKey(c), CommandValue(c));
  }

  lemma KeyShape(prefix: string, name: string)
    requires (prefix == CMD_PREFIX || prefix == LATENCY_PREFIX) && NameText(name)
    ensures var key := prefix + name;
            |key| >= 2 && key[0] !in {'#', 'm', 's'} && !IsSpace(key[0]) && ':' !in key && '\n' !in key
  {
    PrefixText();
    hide CMD_PREFIX, LATENCY_PREFIX;
    var key := prefix + name;
    forall k | 0 <= k < |key| ensures key[k] != ':' && key[k] != '\n' {
      assert key[k] == if k < |prefix| then prefix[k] else name[k - |prefix|];
    }
  }

  lemma PrefixText()
    ensures NameText(CMD_PREFIX) && |CMD_PREFIX| >= 2 && CMD_PREFIX[0] == 'c'
    ensures NameText(LATENCY_PREFIX) && |LATENCY_PREFIX| >= 2 && LATENCY_PREFIX[0] == 'l'
  {
  }

  // ---------- Latencystats ----------

  function LatencyFields(l: LatencyRecord): (pairs: seq<(string, string)>)
    ensures |pairs| == |l.percentiles|
  {
    seq(|l.percentiles|, i requires 0 <= i < |l.percentiles| => ("p" + l.percentiles[i].0, l.percentiles[i].1))
  }

  predicate PrintableLatencies(env: Env, l: LatencyRecord) {
    && NameText(l.name) && l.percentiles != []
    && forall i :: 0 <= i < |l.percentiles| ==> NumberField(env, l.percentiles[i].0) && NumberField(env, l.percentiles[i].1)
  }

  function LatencyKey(l: LatencyRecord): string { LATENCY_PREFIX + l.name }
  function LatencyValue(l: LatencyRecord): string { Join(PrintFields(LatencyFields(l)), ',') }
  function LatencyLine(l: LatencyRecord): string { LatencyKey(l) + ":" + LatencyValue(l) }

  /** The percentiles as numbers, the last value given for each. */
  function PercentileMap(env: Env, percentiles: seq<(string, string)>): map<real, real> {
    if |percentiles| == 0 then map[]
    else
      var last := percentiles[|percentiles| - 1];
      PercentileMap(env, percentiles[..|percentiles| - 1])[NumberOf(env, last.0) := NumberOf(env, last.1)]
  }

  lemma LatencyFieldsPrintable(env: Env, l: LatencyRecord)
    requires PrintableLatencies(env, l)
    ensures AllFields(LatencyFields(l))
  {
    var pairs := LatencyFields(l);
    forall i | 0 <= i < |pairs| ensures OneField(pairs[i].0) && OneField(pairs[i].1) {
      assert NumberField(env, l.percentiles[i].0) && NumberField(env, l.percentiles[i].1);
      assert pairs[i].0 == "p" + l.percentiles[i].0;
    }
  }

  /** A line that is no command's is refused, as is a percentile without a name; text without an `=`
      counts as percentile 0 of 0. */
  lemma OtherLatencyLines(env: Env, key: string, value: string, number: string)
    requires '=' !in number
    ensures !("latency_percentiles_usec_" <= key) ==> ParseLatencyStats(env, key, value) == None
    ensures Percentile(env, "=" + number) == None && Percentile(env, number) == Some((0.0, 0.0))
  {
    hide Split;
    assert "=" + number == "" + ['='] + number;
    SplitPrefix("", '=', number);
    SplitNoSep(number, '=');
  }

  lemma PercentileRead(env: Env, part: string, p: (string, string))
    requires Split(part, '=') == ["p" + p.0, p.1] && env.parse(p.0).Some? && env.parse(p.1).Some?
    ensures Percentile(env, part) == Some((NumberOf(env, p.0), NumberOf(env, p.1)))
  {
    assert ("p" + p.0)[1..] == p.0;
  }

  lemma {:induction false} PercentilesRead(env: Env, parts: seq<string>, percentiles: seq<(string, string)>)
    requires |parts| == |percentiles|
    requires forall i :: 0 <= i < |parts| ==>
               && Split(parts[i], '=') == ["p" + percentiles[i].0, percentiles[i].1]
               && env.parse(percentiles[i].0).Some? && env.parse(percentiles[i].1).Some?
    ensures Percentiles(env, parts) == Some(PercentileMap(env, percentiles))
  {
    hide Split, Percentile;
    if |parts| != 0 {
      var n := |parts| - 1;
      PercentilesRead(env, parts[..n], percentiles[..n]);
      PercentileRead(env, parts[n], percentiles[n]);
    }
  }

  /** A printed line is accepted and gives its percentiles. */
  lemma LatencyRead(env: Env, l: LatencyRecord)
    requires PrintableLatencies(env, l)
    ensures ParseLatencyStats(env, LatencyKey(l), LatencyValue(l)) == Some((l.name, PercentileMap(env, l.percentiles)))
  {
    hide Split, Join, PrintFields, LATENCY_PREFIX, Percentiles, PercentileMap, AllFields;
    var pairs := LatencyFields(l);
    LatencyFieldsPrintable(env, l);
    FieldsSplit(pairs);
    assert LatencyKey(l)[|LATENCY_PREFIX|..] == l.name;
    assert forall i :: 0 <= i < |l.percentiles| ==> NumberField(env, l.percentiles[i].0);
    PercentilesRead(env, PrintFields(pairs), l.percentiles);
  }

  lemma LatencyLineRead(env: Env, l: LatencyRecord)
    requires PrintableLatencies(env, l)
    ensures Classify(LatencyLine(l)) == Field(LatencyKey(l), LatencyValue(l))
    ensures Safe(LatencyLine(l)) && '\n' !in LatencyLine(l)
  {
    hide Classify, Undescribed, Join, PrintFields, LatencyFields, AllFields;
    LatencyFieldsPrintable(env, l);
    FieldsWord(LatencyFields(l));
    KeyShape(LATENCY_PREFIX, l.name);
    SafeField(LatencyKey(l), LatencyValue(l));
  }

  // ---------- the text of both sections ----------

  function PrintCommands(cs: seq<CommandRecord>): (lines: seq<string>)
    ensures |lines| == |cs|
  {
    seq(|cs|, i requires 0 <= i < |cs| => CommandLine(cs[i]))
  }

  function PrintLatencies(ls: seq<LatencyRecord>): (lines: seq<string>)
    ensures |lines| == |ls|
  {
    seq(|ls|, i requires 0 <= i < |ls| => LatencyLine(ls[i]))
  }

  function CommandPart(cs: seq<CommandRecord>): seq<string> { [HeaderOf(COMMANDSTATS)] + PrintCommands(cs) }

  function LatencyPart(ls: seq<LatencyRecord>): seq<string> { [HeaderOf(LATENCYSTATS)] + PrintLatencies(ls) }

  function KeysAndValues(cs: seq<CommandRecord>): (fields: seq<(string, string)>)
    ensures |fields| == |cs|
  {
    seq(|cs|, i requires 0 <= i < |cs| => (CommandKey(cs[i]), CommandValue(cs[i])))
  }

  function LatencyKeysAndValues(ls: seq<LatencyRecord>): (fields: seq<(string, string)>)
    ensures |fields| == |ls|
  {
    seq(|ls|, i requires 0 <= i < |ls| => (LatencyKey(ls[i]), LatencyValue(ls[i])))
  }

  ghost predicate AllPrintable(env: Env, cs: seq<CommandRecord>, ls: seq<LatencyRecord>) {
    && (forall i :: 0 <= i < |cs| ==> PrintableCommand(env, cs[i]))
    && (forall i :: 0 <= i < |ls| ==> PrintableLatencies(env, ls[i]))
  }

  /** Lines that are all fields are the fields of their section. */
  lemma {:induction false} FieldsOfLines(section: string, lines: seq<string>, fields: seq<(string, string)>)
    requires |lines| == |fields| && forall i :: 0 <= i < |lines| ==> Classify(lines[i]) == Field(fields[i].0, fields[i].1)
    ensures FieldsFrom(section, lines, section) == fields && SectionAfter(section, lines) == section
  {
    hide Classify;
    if |lines| != 0 {
      FieldsOfLines(section, lines[..|lines| - 1], fields[..|fields| - 1]);
      assert fields == fields[..|fields| - 1] + [fields[|fields| - 1]];
    }
  }

  lemma LinesRead(env: Env, cs: seq<CommandRecord>, ls: seq<LatencyRecord>)
    requires AllPrintable(env, cs, ls)
    ensures forall i :: 0 <= i < |cs| ==>
              Classify(PrintCommands(cs)[i]) == Field(KeysAndValues(cs)[i].0, KeysAndValues(cs)[i].1)
    ensures forall i :: 0 <= i < |ls| ==>
              Classify(PrintLatencies(ls)[i]) == Field(LatencyKeysAndValues(ls)[i].0, LatencyKeysAndValues(ls)[i].1)
    ensures PrintableLines(PrintCommands(cs)) && PrintableLines(PrintLatencies(ls))
  {
    hide Classify, Safe, CommandLine, CommandKey, CommandValue, LatencyLine, LatencyKey, LatencyValue, PrintableCommand,
         PrintableLatencies;
    forall i | 0 <= i < |cs|
      ensures Classify(CommandLine(cs[i])) == Field(CommandKey(cs[i]), CommandValue(cs[i]))
      ensures Safe(CommandLine(cs[i])) && '\n' !in CommandLine(cs[i])
    {
      CommandLineRead(env, cs[i]);
    }
    forall i | 0 <= i < |ls|
      ensures Classify(LatencyLine(ls[i])) == Field(LatencyKey(ls[i]), LatencyValue(ls[i]))
      ensures Safe(LatencyLine(ls[i])) && '\n' !in LatencyLine(ls[i])
    {
      LatencyLineRead(env, ls[i]);
    }
  }

  /** The text has exactly the printed fields in the two sections. */
  lemma TextFields(env: Env, cs: seq<CommandRecord>, ls: seq<LatencyRecord>)
    requires AllPrintable(env, cs, ls)
    ensures var lines := CommandPart(cs) + LatencyPart(ls);
            && FieldsOf(lines, COMMANDSTATS) == KeysAndValues(cs) && FieldsOf(lines, LATENCYSTATS) == LatencyKeysAndValues(ls)
            && PrintableLines(lines)
  {
    hide Classify, Undescribed, PrintCommands, PrintLatencies, KeysAndValues, LatencyKeysAndValues, AllPrintable, FieldsFrom,
         SectionAfter, HeaderOf, SectionName, COMMANDSTATS, LATENCYSTATS;
    var c, l := PrintCommands(cs), PrintLatencies(ls);
    LinesRead(env, cs, ls);
    SectionNames();
    HeaderRead(COMMANDSTATS);
    HeaderRead(LATENCYSTATS);
    DifferentSections();
    FieldsOfLines(COMMANDSTATS, c, KeysAndValues(cs));
    FieldsOfLines(LATENCYSTATS, l, LatencyKeysAndValues(ls));
    assert NoHeader(c) && NoHeader(l);
    FieldsUnderHeader(COMMANDSTATS, HeaderOf(COMMANDSTATS), c, COMMANDSTATS);
    FieldsUnderHeader(COMMANDSTATS, HeaderOf(COMMANDSTATS), c, LATENCYSTATS);
    FieldsUnderHeader(LATENCYSTATS, HeaderOf(LATENCYSTATS), l, COMMANDSTATS);
    FieldsUnderHeader(LATENCYSTATS, HeaderOf(LATENCYSTATS), l, LATENCYSTATS);
    FieldsConcat("", CommandPart(cs), LatencyPart(ls), COMMANDSTATS);
    FieldsConcat("", CommandPart(cs), LatencyPart(ls), LATENCYSTATS);
    assert PrintableLines([HeaderOf(COMMANDSTATS)]) && PrintableLines([HeaderOf(LATENCYSTATS)]);
    PrintableJoined([HeaderOf(COMMANDSTATS)], c);
    PrintableJoined([HeaderOf(LATENCYSTATS)], l);
    PrintableJoined(CommandPart(cs), LatencyPart(ls));
  }

  lemma DifferentSections()
    ensures COMMANDSTATS != LATENCYSTATS
  {
    assert COMMANDSTATS[0] == 'C' && LATENCYSTATS[0] == 'L';
  }

  // ---------- what the text says ----------

  lemma CommandRecordStep(env: Env, s: State, c: CommandRecord)
    requires s.section == COMMANDSTATS && PrintableCommand(env, c)
    ensures var t := Step(env, s, CommandLine(c));
            t.section == COMMANDSTATS && t.samples == s.samples + SamplesOf(env)(c)
  {
    hide Classify, MasterField, ParseCommandStats, PrintableCommand, CommandKey, CommandValue, CommandLine, SamplesOf;
    CommandLineRead(env, c);
    CommandRead(env, c);
  }

  lemma {:induction false} CommandsPrinted(env: Env, s: State, cs: seq<CommandRecord>)
    requires s.section == COMMANDSTATS && AllPrintable(env, cs, [])
    ensures var t := Interpret(env, s, PrintCommands(cs));
            t.section == COMMANDSTATS && t.samples == s.samples + Flat(cs, SamplesOf(env))
  {
    hide Step, PrintableCommand, CommandLine, SamplesOf, COMMANDSTATS;
    if |cs| != 0 {
      var n := |cs| - 1;
      assert PrintCommands(cs)[..n] == PrintCommands(cs[..n]);
      CommandsPrinted(env, s, cs[..n]);
      CommandRecordStep(env, Interpret(env, s, PrintCommands(cs[..n])), cs[n]);
    }
  }

  lemma LatencyStepSilent(env: Env, s: State, raw: string)
    requires s.section == LATENCYSTATS && Classify(raw).Field?
    ensures var t := Step(env, s, raw); t.section == LATENCYSTATS && t.samples == s.samples
  {
    hide Classify, MasterField, ParseLatencyStats;
  }

  lemma {:induction false} LatenciesSilent(env: Env, s: State, lines: seq<string>)
    requires s.section == LATENCYSTATS && forall i :: 0 <= i < |lines| ==> Classify(lines[i]).Field?
    ensures var t := Interpret(env, s, lines); t.section == LATENCYSTATS && t.samples == s.samples
  {
    hide Step, Classify, LATENCYSTATS;
    if |lines| != 0 {
      LatenciesSilent(env, s, lines[..|lines| - 1]);
      LatencyStepSilent(env, Interpret(env, s, lines[..|lines| - 1]), lines[|lines| - 1]);
    }
  }

  lemma TextSamples(env: Env, cs: seq<CommandRecord>, ls: seq<LatencyRecord>)
    requires AllPrintable(env, cs, ls)
    ensures Interpret(env, INITIAL, CommandPart(cs) + LatencyPart(ls)).samples == Flat(cs, SamplesOf(env))
  {
    hide Interpret, Classify, PrintCommands, PrintLatencies, SamplesOf, HeaderOf, SectionName, PrintableCommand,
         PrintableLatencies, COMMANDSTATS, LATENCYSTATS;
    LinesRead(env, cs, ls);
    SectionNames();
    HeaderRead(COMMANDSTATS);
    HeaderRead(LATENCYSTATS);
    var s1 := INITIAL.(section := COMMANDSTATS);
    InterpretConcat(env, INITIAL, CommandPart(cs), LatencyPart(ls));
    InterpretConcat(env, INITIAL, [HeaderOf(COMMANDSTATS)], PrintCommands(cs));
    InterpretHeader(env, INITIAL, HeaderOf(COMMANDSTATS), COMMANDSTATS);
    CommandsPrinted(env, s1, cs);
    var s2 := Interpret(env, s1, PrintCommands(cs));
    InterpretConcat(env, s2, [HeaderOf(LATENCYSTATS)], PrintLatencies(ls));
    InterpretHeader(env, s2, HeaderOf(LATENCYSTATS), LATENCYSTATS);
    LatenciesSilent(env, s2.(section := LATENCYSTATS), PrintLatencies(ls));
    SectionStart(COMMANDSTATS);
  }

  ghost predicate LastCommand(cs: seq<CommandRecord>, name: string, i: nat) {
    i < |cs| && cs[i].name == name && forall j :: i < j < |cs| ==> cs[j].name != name
  }

  ghost predicate LastLatencies(ls: seq<LatencyRecord>, name: string, i: nat) {
    i < |ls| && ls[i].name == name && forall j :: i < j < |ls| ==> ls[j].name != name
  }

  /** One summary for each name in both lists, with the numbers of its last line in each. */
  ghost predicate JoinedRecords(env: Env, cs: seq<CommandRecord>, ls: seq<LatencyRecord>, summaries: seq<Summary>) {
    && (forall name: string :: Summarized(summaries, name) <==>
          (exists i :: 0 <= i < |cs| && cs[i].name == name) && (exists j :: 0 <= j < |ls| && ls[j].name == name))
    && (forall k, i: nat, j: nat ::
          0 <= k < |summaries| && LastCommand(cs, summaries[k].cmd, i) && LastLatencies(ls, summaries[k].cmd, j) ==>
            summaries[k] == Summary(summaries[k].cmd, env.toCount(NumberOf(env, cs[i].calls)), NumberOf(env, cs[i].usec),
                                    PercentileMap(env, ls[j].percentiles)))
    && (forall k, l :: 0 <= k < l < |summaries| ==> summaries[k].cmd != summaries[l].cmd)
  }

  /** What the fields of the two sections say is what was printed. */
  ghost predicate ReadAs(env: Env, cs: seq<CommandRecord>, ls: seq<LatencyRecord>,
                         c: seq<(string, string)>, l: seq<(string, string)>) {
    && |c| == |cs| && |l| == |ls|
    && (forall i :: 0 <= i < |cs| ==> YieldIs(env, c[i], cs[i]))
    && (forall i :: 0 <= i < |ls| ==> LatencyIs(env, l[i], ls[i]))
  }

  predicate YieldIs(env: Env, field: (string, string), c: CommandRecord) {
    var y := Yield(env, field);
    y.cmd == c.name && y.calls == NumberOf(env, c.calls) && y.usecs == NumberOf(env, c.usec)
  }

  predicate LatencyIs(env: Env, field: (string, string), l: LatencyRecord) {
    Latency(env, field) == Some((l.name, PercentileMap(env, l.percentiles)))
  }

  lemma FieldsRead(env: Env, cs: seq<CommandRecord>, ls: seq<LatencyRecord>)
    requires AllPrintable(env, cs, ls)
    ensures ReadAs(env, cs, ls, KeysAndValues(cs), LatencyKeysAndValues(ls))
  {
    hide ParseCommandStats, ParseLatencyStats, PrintableCommand, PrintableLatencies, CommandKey, CommandValue, LatencyKey,
         LatencyValue, PercentileMap, NumberOf;
    var c, l := KeysAndValues(cs), LatencyKeysAndValues(ls);
    forall i | 0 <= i < |cs| ensures YieldIs(env, c[i], cs[i]) {
      CommandRead(env, cs[i]);
    }
    forall i | 0 <= i < |ls| ensures LatencyIs(env, l[i], ls[i]) {
      LatencyRead(env, ls[i]);
    }
  }

  lemma TextSummaries(env: Env, cs: seq<CommandRecord>, ls: seq<LatencyRecord>, lines: seq<string>, summaries: seq<Summary>)
    requires AllPrintable(env, cs, ls) && SummariesOf(env, Interpret(env, INITIAL, lines), summaries)
    requires FieldsOf(lines, COMMANDSTATS) == KeysAndValues(cs) && FieldsOf(lines, LATENCYSTATS) == LatencyKeysAndValues(ls)
    ensures JoinedRecords(env, cs, ls, summaries)
  {
    hide Interpret, SummariesOf, FieldsOf, FieldsFrom, Yield, Latency, KeysAndValues, LatencyKeysAndValues, AllPrintable, ReadAs,
         Summarized, PercentileMap, NumberOf, LastYield, LastLatency, COMMANDSTATS, LATENCYSTATS;
    var c, l := KeysAndValues(cs), LatencyKeysAndValues(ls);
    FieldsRead(env, cs, ls);
    forall name: string
      ensures Summarized(summaries, name) <==>
              (exists i :: 0 <= i < |cs| && cs[i].name == name) && (exists j :: 0 <= j < |ls| && ls[j].name == name)
    {
      LatencySummaries(env, lines, summaries, name);
      SameNames(env, cs, ls, c, l, name);
    }
    LatencySummaries(env, lines, summaries, "");
    forall k, i: nat, j: nat
      | 0 <= k < |summaries| && LastCommand(cs, summaries[k].cmd, i) && LastLatencies(ls, summaries[k].cmd, j)
      ensures summaries[k] == Summary(summaries[k].cmd, env.toCount(NumberOf(env, cs[i].calls)), NumberOf(env, cs[i].usec),
                                      PercentileMap(env, ls[j].percentiles))
    {
      SameLast(env, cs, ls, c, l, summaries[k].cmd, i, j);
    }
  }

  lemma SameLast(env: Env, cs: seq<CommandRecord>, ls: seq<LatencyRecord>,
                  c: seq<(string, string)>, l: seq<(string, string)>, name: string,
                 i: nat, j: nat)
    requires ReadAs(env, cs, ls, c, l) && LastCommand(cs, name, i) && LastLatencies(ls, name, j)
    ensures LastYield(env, c, name, i) && LastLatency(env, l, name, j)
    ensures Yield(env, c[i]).calls == NumberOf(env, cs[i].calls) && Yield(env, c[i]).usecs == NumberOf(env, cs[i].usec)
    ensures Latency(env, l[j]).value.1 == PercentileMap(env, ls[j].percentiles)
  {
    hide Yield, Latency, NumberOf, PercentileMap;
    assert YieldIs(env, c[i], cs[i]) && LatencyIs(env, l[j], ls[j]);
    forall k | i < k < |c| ensures Yield(env, c[k]).cmd != name {
      assert YieldIs(env, c[k], cs[k]);
    }
    forall k | j < k < |l| ensures Latency(env, l[k]).None? || Latency(env, l[k]).value.0 != name {
      assert LatencyIs(env, l[k], ls[k]);
    }
  }

  lemma SameNames(env: Env, cs: seq<CommandRecord>, ls: seq<LatencyRecord>,
                  c: seq<(string, string)>, l: seq<(string, string)>, name: string)
    requires ReadAs(env, cs, ls, c, l)
    ensures (exists i :: 0 <= i < |c| && Yield(env, c[i]).cmd == name) <==> (exists i :: 0 <= i < |cs| && cs[i].name == name)
    ensures (exists i :: 0 <= i < |l| && Latency(env, l[i]).Some? && Latency(env, l[i]).value.0 == name)
       <==> (exists i :: 0 <= i < |ls| && ls[i].name == name)
  {
    hide Yield, Latency, NumberOf, PercentileMap;
    if i :| 0 <= i < |cs| && cs[i].name == name {
      assert YieldIs(env, c[i], cs[i]);
    }
    if i :| 0 <= i < |c| && Yield(env, c[i]).cmd == name {
      assert YieldIs(env, c[i], cs[i]);
    }
    if i :| 0 <= i < |ls| && ls[i].name == name {
      assert LatencyIs(env, l[i], ls[i]);
    }
    if i :| 0 <= i < |l| && Latency(env, l[i]).Some? && Latency(env, l[i]).value.0 == name {
      assert LatencyIs(env, l[i], ls[i]);
    }
  }

  /** Printing any commands and any latencies as the two sections, with carriage returns or without, and
      interpreting the text emits each command's counts and times, in order, and summarizes exactly the
      names in both lists, with the numbers printed last. */
  lemma CommandRecordsRoundTrip(env: Env, cs: seq<CommandRecord>, ls: seq<LatencyRecord>, ended: seq<string>,
                                summaries: seq<Summary>)
    requires AllPrintable(env, cs, ls) && Ended(CommandPart(cs) + LatencyPart(ls), ended)
    ensures var r := Scrape(env, INITIAL, Split(Join(ended, '\n'), '\n'));
            && r.Some? && r.value.samples == Flat(cs, SamplesOf(env))
            && (SummariesOf(env, r.value, summaries) ==> JoinedRecords(env, cs, ls, summaries))
  {
    hide *;
    var lines := CommandPart(cs) + LatencyPart(ls);
    TextFields(env, cs, ls);
    PartNotEmpty(cs, ls);
    PrintedText(env, lines, ended);
    TextSamples(env, cs, ls);
    if SummariesOf(env, Interpret(env, INITIAL, lines), summaries) {
      TextSummaries(env, cs, ls, lines, summaries);
    }
  }

  lemma PartNotEmpty(cs: seq<CommandRecord>, ls: seq<LatencyRecord>)
    ensures CommandPart(cs) + LatencyPart(ls) != []
  {
  }
}
