/** The latency summaries of INFO: a join of the Commandstats and Latencystats sections that depends
    on the lines of those two sections alone. */
module LatencyJoin {
  import opened Wrappers
  import opened Keyspace
  import opened Info

  function Yield(env: Env, field: (string, string)): CommandStats { ParseCommandStats(env, field.0, field.1) }

  function Latency(env: Env, field: (string, string)): Option<(string, map<real, real>)> {
    ParseLatencyStats(env, field.0, field.1)
  }

  /** Field `i` is the last one that yields the name `cmd`. */
  ghost predicate LastYield(env: Env, fields: seq<(string, string)>, cmd: string, i: nat) {
    && i < |fields| && Yield(env, fields[i]).cmd == cmd
    && forall j :: i < j < |fields| ==> Yield(env, fields[j]).cmd != cmd
  }

  /** Field `i` is the last accepted latency line of `cmd`. */
  ghost predicate LastLatency(env: Env, fields: seq<(string, string)>, cmd: string, i: nat) {
    && i < |fields| && Latency(env, fields[i]).Some? && Latency(env, fields[i]).value.0 == cmd
    && forall j :: i < j < |fields| ==> Latency(env, fields[j]).None? || Latency(env, fields[j]).value.0 != cmd
  }

  // ---------- the accumulator maps ----------

  /** The maps hold, for each name, what its last field says. */
  ghost predicate MapsOf(env: Env, s: State, commands: seq<(string, string)>, latencies: seq<(string, string)>) {
    && s.calls.Keys == s.usecs.Keys
    && (forall cmd: string :: cmd in s.calls <==> exists i :: 0 <= i < |commands| && Yield(env, commands[i]).cmd == cmd)
    && (forall cmd: string, i: nat :: LastYield(env, commands, cmd, i) ==>
          cmd in s.calls && s.calls[cmd] == Yield(env, commands[i]).calls && s.usecs[cmd] == Yield(env, commands[i]).usecs)
    && (forall cmd: string :: cmd in s.latencies <==>
          exists i :: 0 <= i < |latencies| && Latency(env, latencies[i]).Some? && Latency(env, latencies[i]).value.0 == cmd)
    && (forall cmd: string, i: nat :: LastLatency(env, latencies, cmd, i) ==>
          cmd in s.latencies && s.latencies[cmd] == Latency(env, latencies[i]).value.1)
  }

  lemma CommandStep(env: Env, s: State, t: State, commands: seq<(string, string)>, latencies: seq<(string, string)>,
                    field: (string, string))
    requires MapsOf(env, s, commands, latencies)
    requires var c := Yield(env, field);
             t == s.(calls := s.calls[c.cmd := c.calls], usecs := s.usecs[c.cmd := c.usecs],
                     samples := t.samples, keyValues := t.keyValues, masterHost := t.masterHost, masterPort := t.masterPort)
    ensures MapsOf(env, t, commands + [field], latencies)
  {
    hide ParseCommandStats, ParseLatencyStats;
    var all, n := commands + [field], |commands|;
    assert all[n] == field && forall i :: 0 <= i < n ==> all[i] == commands[i];
    forall cmd: string ensures cmd in t.calls <==> exists i :: 0 <= i < |all| && Yield(env, all[i]).cmd == cmd {
      if cmd == Yield(env, field).cmd {
        assert Yield(env, all[n]).cmd == cmd;
      } else if cmd in s.calls {
        var i :| 0 <= i < n && Yield(env, commands[i]).cmd == cmd;
        assert Yield(env, all[i]).cmd == cmd;
      }
    }
    forall cmd: string, i: nat | LastYield(env, all, cmd, i)
      ensures cmd in t.calls && t.calls[cmd] == Yield(env, all[i]).calls && t.usecs[cmd] == Yield(env, all[i]).usecs
    {
      if i < n {
        assert Yield(env, all[n]).cmd != cmd;
        assert LastYield(env, commands, cmd, i);
      }
    }
  }

  lemma LatencyStep(env: Env, s: State, t: State, commands: seq<(string, string)>, latencies: seq<(string, string)>,
                    field: (string, string))
    requires MapsOf(env, s, commands, latencies)
    requires t.calls == s.calls && t.usecs == s.usecs
    requires t.latencies == match Latency(env, field) case None => s.latencies case Some((cmd, ps)) => s.latencies[cmd := ps]
    ensures MapsOf(env, t, commands, latencies + [field])
  {
    hide ParseCommandStats, ParseLatencyStats;
    var all, n := latencies + [field], |latencies|;
    assert all[n] == field && forall i :: 0 <= i < n ==> all[i] == latencies[i];
    forall cmd: string
      ensures cmd in t.latencies <==>
              exists i :: 0 <= i < |all| && Latency(env, all[i]).Some? && Latency(env, all[i]).value.0 == cmd
    {
      if Latency(env, field).Some? && Latency(env, field).value.0 == cmd {
        assert Latency(env, all[n]).Some? && Latency(env, all[n]).value.0 == cmd;
      } else if cmd in s.latencies {
        var i :| 0 <= i < n && Latency(env, latencies[i]).Some? && Latency(env, latencies[i]).value.0 == cmd;
        assert Latency(env, all[i]).Some? && Latency(env, all[i]).value.0 == cmd;
      }
    }
    forall cmd: string, i: nat | LastLatency(env, all, cmd, i)
      ensures cmd in t.latencies && t.latencies[cmd] == Latency(env, all[i]).value.1
    {
      if i < n {
        assert Latency(env, all[n]).None? || Latency(env, all[n]).value.0 != cmd;
        assert LastLatency(env, latencies, cmd, i);
      }
    }
  }

  lemma FieldMaps(env: Env, s: State, key: string, value: string, commands: seq<(string, string)>, latencies: seq<(string, string)>)
    requires MapsOf(env, s, commands, latencies)
    ensures MapsOf(env, InSection(env, Record(s, key, value), key, value),
                   commands + (if s.section == COMMANDSTATS then [(key, value)] else []),
                   latencies + (if s.section == LATENCYSTATS then [(key, value)] else []))
  {
    hide ReplicationSamples, ParseCommandStats, ParseLatencyStats, ParseDb, MasterField, MapsOf;
    var t := InSection(env, Record(s, key, value), key, value);
    assert commands + [] == commands && latencies + [] == latencies;
    if s.section == COMMANDSTATS {
      CommandStep(env, s, t, commands, latencies, (key, value));
    } else if s.section == LATENCYSTATS {
      LatencyStep(env, s, t, commands, latencies, (key, value));
    } else {
      SameMaps(env, s, t, commands, latencies);
    }
  }

  lemma {:induction false} InterpretMaps(env: Env, lines: seq<string>)
    ensures Interpret(env, INITIAL, lines).section == SectionAfter("", lines)
    ensures MapsOf(env, Interpret(env, INITIAL, lines), FieldsOf(lines, COMMANDSTATS), FieldsOf(lines, LATENCYSTATS))
  {
    hide Classify, MapsOf, InSection, Record;
    if |lines| == 0 {
      NoMaps(env);
    } else {
      var n := |lines| - 1;
      InterpretMaps(env, lines[..n]);
      var s, t := Interpret(env, INITIAL, lines[..n]), Interpret(env, INITIAL, lines);
      var commands, latencies := FieldsOf(lines[..n], COMMANDSTATS), FieldsOf(lines[..n], LATENCYSTATS);
      assert commands + [] == commands && latencies + [] == latencies;
      match Classify(lines[n]) {
        case Field(key, value) =>
          FieldMaps(env, s, key, value, commands, latencies);
          FieldSection(env, s, key, value);
        case _ =>
          SameMaps(env, s, t, commands, latencies);
      }
    }
  }

  lemma NoMaps(env: Env)
    ensures MapsOf(env, INITIAL, [], [])
  {
  }

  lemma SameMaps(env: Env, s: State, t: State, commands: seq<(string, string)>, latencies: seq<(string, string)>)
    requires MapsOf(env, s, commands, latencies)
    requires t.calls == s.calls && t.usecs == s.usecs && t.latencies == s.latencies
    ensures MapsOf(env, t, commands, latencies)
  {
  }

  // ---------- the join ----------

  ghost predicate Summarized(summaries: seq<Summary>, cmd: string) {
    exists i :: 0 <= i < |summaries| && summaries[i].cmd == cmd
  }

  /** For every INFO text: a summary is emitted at most once per command, exactly for the names that
      have an accepted Latencystats line and are yielded by a Commandstats line, with the count and
      time of the last such Commandstats line and the percentiles of the last Latencystats line. */
  lemma LatencySummaries(env: Env, lines: seq<string>, summaries: seq<Summary>, cmd: string)
    requires SummariesOf(env, Interpret(env, INITIAL, lines), summaries)
    ensures var commands, latencies := FieldsOf(lines, COMMANDSTATS), FieldsOf(lines, LATENCYSTATS);
            && (Summarized(summaries, cmd) <==>
                  && (exists i :: 0 <= i < |commands| && Yield(env, commands[i]).cmd == cmd)
                  && (exists i :: 0 <= i < |latencies| && Latency(env, latencies[i]).Some?
                                  && Latency(env, latencies[i]).value.0 == cmd))
            && (forall k, i: nat, j: nat ::
                  0 <= k < |summaries| && LastYield(env, commands, summaries[k].cmd, i)
                  && LastLatency(env, latencies, summaries[k].cmd, j) ==>
                    summaries[k] == Summary(summaries[k].cmd, env.toCount(Yield(env, commands[i]).calls),
                                            Yield(env, commands[i]).usecs, Latency(env, latencies[j]).value.1))
            && (forall k, l :: 0 <= k < l < |summaries| ==> summaries[k].cmd != summaries[l].cmd)
  {
    hide Interpret, ParseCommandStats, ParseLatencyStats, FieldsFrom;
    InterpretMaps(env, lines);
    var s := Interpret(env, INITIAL, lines);
    if Summarized(summaries, cmd) {
      var i :| 0 <= i < |summaries| && summaries[i].cmd == cmd;
      assert cmd in s.latencies && cmd in s.calls;
    }
    if cmd in s.latencies && cmd in s.calls {
      assert cmd in s.usecs;
      assert Summarized(summaries, cmd);
    }
  }

  // ---------- sections in any order ----------

  predicate NoHeader(lines: seq<string>) { forall i :: 0 <= i < |lines| ==> !Classify(lines[i]).Header? }

  lemma {:induction false} FieldsConcat(section: string, a: seq<string>, b: seq<string>, wanted: string)
    ensures FieldsFrom(section, a + b, wanted) == FieldsFrom(section, a, wanted) + FieldsFrom(SectionAfter(section, a), b, wanted)
    ensures SectionAfter(section, a + b) == SectionAfter(SectionAfter(section, a), b)
  {
    hide Classify;
    if |b| == 0 {
      assert a + b == a;
    } else {
      assert (a + b)[..|a + b| - 1] == a + b[..|b| - 1];
      FieldsConcat(section, a, b[..|b| - 1], wanted);
    }
  }

  lemma {:induction false} FieldsUnderHeader(section: string, header: string, body: seq<string>, wanted: string)
    requires Classify(header) == Header(section) && NoHeader(body)
    ensures forall before: string :: SectionAfter(before, [header] + body) == section
    ensures forall before: string :: FieldsFrom(before, [header] + body, wanted) == FieldsFrom(section, body, wanted)
    ensures section != wanted ==> FieldsFrom(section, body, wanted) == []
    ensures SectionAfter(section, body) == section
  {
    hide Classify;
    var all := [header] + body;
    if |body| == 0 {
      assert all[..0] == [];
      forall before: string
        ensures SectionAfter(before, all) == section && FieldsFrom(before, all, wanted) == []
      {
        assert FieldsFrom(before, all[..0], wanted) == [];
      }
    } else {
      assert all[..|all| - 1] == [header] + body[..|body| - 1];
      FieldsUnderHeader(section, header, body[..|body| - 1], wanted);
    }
  }

  /** Some whole sections, or none. */
  predicate Sections(lines: seq<string>) { lines == [] || Classify(lines[0]).Header? }

  /** Swapping a Commandstats and a Latencystats section, with whatever other sections before, between
      and after them, leaves the fields of both, and so the summaries, as they are. */
  lemma SwapSections(pre: seq<string>, commandHeader: string, commands: seq<string>, mid: seq<string>, latencyHeader: string,
                     latencies: seq<string>, post: seq<string>, wanted: string)
    requires Classify(commandHeader) == Header(COMMANDSTATS) && NoHeader(commands)
    requires Classify(latencyHeader) == Header(LATENCYSTATS) && NoHeader(latencies)
    requires Sections(mid) && Sections(post)
    requires wanted in {COMMANDSTATS, LATENCYSTATS} && FieldsOf(mid, wanted) == []
    ensures var c, l := [commandHeader] + commands, [latencyHeader] + latencies;
            FieldsOf(pre + c + mid + l + post, wanted) == FieldsOf(pre + l + mid + c + post, wanted)
  {
    hide Classify;
    var c, l := [commandHeader] + commands, [latencyHeader] + latencies;
    FieldsUnderHeader(COMMANDSTATS, commandHeader, commands, wanted);
    FieldsUnderHeader(LATENCYSTATS, latencyHeader, latencies, wanted);
    hide FieldsFrom, SectionAfter;
    FiveParts(pre, c, mid, l, post, wanted);
    FiveParts(pre, l, mid, c, post, wanted);
    forall section: string ensures FieldsFrom(section, mid, wanted) == [] {
      HeaderFirst(mid, section, "", wanted);
    }
    HeaderFirst(post, LATENCYSTATS, COMMANDSTATS, wanted);
    var ours, theirs := FieldsFrom(COMMANDSTATS, commands, wanted), FieldsFrom(LATENCYSTATS, latencies, wanted);
    var before, after := FieldsFrom("", pre, wanted), FieldsFrom(COMMANDSTATS, post, wanted);
    assert ours == [] || theirs == [];
    assert before + ours + [] + theirs == before + theirs + [] + ours;
  }

  lemma FiveParts(pre: seq<string>, a: seq<string>, mid: seq<string>, b: seq<string>, post: seq<string>, wanted: string)
    ensures var s1 := SectionAfter("", pre);
            var s2 := SectionAfter(s1, a);
            var s3 := SectionAfter(s2, mid);
            FieldsOf(pre + a + mid + b + post, wanted)
            == FieldsFrom("", pre, wanted) + FieldsFrom(s1, a, wanted) + FieldsFrom(s2, mid, wanted) + FieldsFrom(s3, b, wanted)
             + FieldsFrom(SectionAfter(s3, b), post, wanted)
  {
    hide FieldsFrom, SectionAfter;
    FieldsConcat("", pre, a, wanted);
    FieldsConcat("", pre + a, mid, wanted);
    FieldsConcat("", pre + a + mid, b, wanted);
    FieldsConcat("", pre + a + mid + b, post, wanted);
  }

  lemma {:induction false} HeaderFirst(post: seq<string>, a: string, b: string, wanted: string)
    requires post == [] || Classify(post[0]).Header?
    ensures FieldsFrom(a, post, wanted) == FieldsFrom(b, post, wanted)
    ensures post != [] ==> SectionAfter(a, post) == SectionAfter(b, post)
  {
    hide Classify;
    if |post| > 1 {
      HeaderFirst(post[..|post| - 1], a, b, wanted);
    }
  }

  /** The summaries of two texts whose two sections have the same fields are the same. */
  lemma SameFieldsSameSummaries(env: Env, a: seq<string>, b: seq<string>, sa: seq<Summary>, sb: seq<Summary>)
    requires FieldsOf(a, COMMANDSTATS) == FieldsOf(b, COMMANDSTATS)
    requires FieldsOf(a, LATENCYSTATS) == FieldsOf(b, LATENCYSTATS)
    requires SummariesOf(env, Interpret(env, INITIAL, a), sa) && SummariesOf(env, Interpret(env, INITIAL, b), sb)
    ensures forall x: Summary :: x in sa <==> x in sb
  {
    hide Interpret, ParseCommandStats, ParseLatencyStats, FieldsFrom;
    forall x: Summary | x in sa ensures x in sb {
      SummaryCarries(env, a, b, sa, sb, x);
    }
    forall x: Summary | x in sb ensures x in sa {
      SummaryCarries(env, b, a, sb, sa, x);
    }
  }

  /** Swapping the two sections of any text changes nothing about its summaries. */
  lemma SwapChangesNothing(env: Env, pre: seq<string>, commandHeader: string, commands: seq<string>, mid: seq<string>,
                           latencyHeader: string, latencies: seq<string>, post: seq<string>, sa: seq<Summary>, sb: seq<Summary>)
    requires Classify(commandHeader) == Header(COMMANDSTATS) && NoHeader(commands)
    requires Classify(latencyHeader) == Header(LATENCYSTATS) && NoHeader(latencies)
    requires Sections(mid) && Sections(post) && FieldsOf(mid, COMMANDSTATS) == FieldsOf(mid, LATENCYSTATS) == []
    requires var c, l := [commandHeader] + commands, [latencyHeader] + latencies;
             && SummariesOf(env, Interpret(env, INITIAL, pre + c + mid + l + post), sa)
             && SummariesOf(env, Interpret(env, INITIAL, pre + l + mid + c + post), sb)
    ensures forall x: Summary :: x in sa <==> x in sb
  {
    hide *;
    SwapSections(pre, commandHeader, commands, mid, latencyHeader, latencies, post, COMMANDSTATS);
    SwapSections(pre, commandHeader, commands, mid, latencyHeader, latencies, post, LATENCYSTATS);
    var c, l := [commandHeader] + commands, [latencyHeader] + latencies;
    SameFieldsSameSummaries(env, pre + c + mid + l + post, pre + l + mid + c + post, sa, sb);
  }

  lemma SummaryCarries(env: Env, a: seq<string>, b: seq<string>, sa: seq<Summary>, sb: seq<Summary>, x: Summary)
    requires FieldsOf(a, COMMANDSTATS) == FieldsOf(b, COMMANDSTATS)
    requires FieldsOf(a, LATENCYSTATS) == FieldsOf(b, LATENCYSTATS)
    requires SummariesOf(env, Interpret(env, INITIAL, a), sa) && SummariesOf(env, Interpret(env, INITIAL, b), sb)
    requires x in sa
    ensures x in sb
  {
    hide Interpret, ParseCommandStats, ParseLatencyStats, FieldsFrom, SummariesOf;
    var commands, latencies := FieldsOf(a, COMMANDSTATS), FieldsOf(a, LATENCYSTATS);
    LatencySummaries(env, a, sa, x.cmd);
    LatencySummaries(env, b, sb, x.cmd);
    assert Summarized(sa, x.cmd);
    var k :| 0 <= k < |sb| && sb[k].cmd == x.cmd;
    var l :| 0 <= l < |sa| && sa[l] == x;
    var i := LastYieldExists(env, commands, x.cmd);
    var j := LastLatencyExists(env, latencies, x.cmd);
    assert LastYield(env, commands, sb[k].cmd, i) && LastLatency(env, latencies, sb[k].cmd, j);
    assert LastYield(env, commands, sa[l].cmd, i) && LastLatency(env, latencies, sa[l].cmd, j);
    assert sb[k] == x;
  }

  lemma {:induction false} LastYieldExists(env: Env, fields: seq<(string, string)>, cmd: string) returns (i: nat)
    requires exists k :: 0 <= k < |fields| && Yield(env, fields[k]).cmd == cmd
    ensures LastYield(env, fields, cmd, i)
  {
    hide ParseCommandStats;
    var n := |fields| - 1;
    if Yield(env, fields[n]).cmd == cmd {
      i := n;
    } else {
      var k :| 0 <= k < |fields| && Yield(env, fields[k]).cmd == cmd;
      assert fields[..n][k] == fields[k];
      i := LastYieldExists(env, fields[..n], cmd);
    }
  }

  lemma {:induction false} LastLatencyExists(env: Env, fields: seq<(string, string)>, cmd: string) returns (i: nat)
    requires exists k :: 0 <= k < |fields| && Latency(env, fields[k]).Some? && Latency(env, fields[k]).value.0 == cmd
    ensures LastLatency(env, fields, cmd, i)
  {
    hide ParseLatencyStats;
    var n := |fields| - 1;
    if Latency(env, fields[n]).Some? && Latency(env, fields[n]).value.0 == cmd {
      i := n;
    } else {
      var k :| 0 <= k < |fields| && Latency(env, fields[k]).Some? && Latency(env, fields[k]).value.0 == cmd;
      assert fields[..n][k] == fields[k];
      i := LastLatencyExists(env, fields[..n], cmd);
    }
  }
}
