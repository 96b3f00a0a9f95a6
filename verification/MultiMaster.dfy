/** Replicas with several masters (KeyDB): the Replication lines of each master are labelled with
    that master's own host and port (`info.go`). */
module MultiMaster {
  import opened Text
  import opened Sums
  import opened Metrics
  import opened Info
  import opened InfoText

  datatype Master = Master(host: string, port: string, linkStatus: string, lastIo: int, syncInProgress: int)

  /** Text that survives as a field value: on one line, with no white space at its end. */
  predicate LineText(s: string) { '\n' !in s && (s == "" || !IsSpace(s[|s| - 1])) }

  ghost predicate Printable(m: Master) {
    && LineText(m.host) && LineText(m.port) && LineText(m.linkStatus)
    && MIN_INT64 <= m.lastIo <= MAX_INT64 && MIN_INT64 <= m.syncInProgress <= MAX_INT64
  }

  function PrintInt(n: int): string { if n < 0 then "-" + Itoa(-n) else Itoa(n) }

  /** The first master's fields are not numbered. */
  function Prefix(i: nat): string { if i == 0 then "master" else "master_" + Itoa(i) }

  function FieldLine(i: nat, suffix: string, value: string): string { Prefix(i) + suffix + ":" + value }

  function MasterLines(i: nat, m: Master): seq<string> {
    [FieldLine(i, HOST, m.host), FieldLine(i, PORT, m.port), FieldLine(i, LINK_STATUS, m.linkStatus),
     FieldLine(i, LAST_IO, PrintInt(m.lastIo)), FieldLine(i, SYNC, PrintInt(m.syncInProgress))]
  }

  function PrintMasters(ms: seq<Master>): seq<string> {
    if |ms| == 0 then [] else PrintMasters(ms[..|ms| - 1]) + MasterLines(|ms| - 1, ms[|ms| - 1])
  }

  /** What is to be said about a master, under its own host and port. */
  function MasterSamples(): Master -> seq<Sample> {
    (m: Master) => [Sample("master_link_up", if m.linkStatus == "up" then 1.0 else 0.0, [m.host, m.port]),
                    Sample("master_last_io_seconds_ago", m.lastIo as real, [m.host, m.port]),
                    Sample("master_sync_in_progress", m.syncInProgress as real, [m.host, m.port])]
  }

  // ---------- reading a printed field ----------

  lemma {:induction false} SkipPrinted(digits: string, suffix: string)
    requires AllDigits(digits) && suffix != "" && !IsDigit(suffix[0])
    ensures SkipDigits(digits + suffix) == suffix
  {
    if digits == "" {
      assert digits + suffix == suffix;
    } else {
      assert (digits + suffix)[1..] == digits[1..] + suffix;
      SkipPrinted(digits[1..], suffix);
    }
  }

  lemma AfterPrefix(i: nat, suffix: string)
    requires |suffix| >= 2 && suffix[0] == '_' && !IsDigit(suffix[1])
    ensures AfterIndex((if i == 0 then "" else "_" + Itoa(i)) + suffix) == suffix
  {
    hide SkipDigits, Itoa;
    if i != 0 {
      var digits := Itoa(i);
      assert ("_" + digits + suffix)[1..] == digits + suffix;
      assert IsDigit(digits[0]);
      SkipPrinted(digits, suffix);
    }
  }

  lemma PrefixShape(i: nat, suffix: string)
    ensures var key := Prefix(i) + suffix;
            "master" <= key && key[6..] == (if i == 0 then "" else "_" + Itoa(i)) + suffix && key[0] == 'm'
  {
    hide Itoa;
  }

  /** The number in a field name does not matter to the patterns. */
  lemma PrintedField(i: nat, suffix: string, wanted: string)
    requires |suffix| >= 2 && suffix[0] == '_' && !IsDigit(suffix[1])
    ensures MasterField(Prefix(i) + suffix, wanted) <==> wanted <= suffix
    ensures (Prefix(i) + suffix)[0] == 'm'
  {
    hide Itoa, Prefix, AfterIndex;
    PrefixShape(i, suffix);
    AfterPrefix(i, suffix);
  }

  lemma NoColon(i: nat)
    ensures ':' !in Prefix(i) && '\n' !in Prefix(i)
  {
    var p := Prefix(i);
    forall k | 0 <= k < |p| ensures p[k] != ':' && p[k] != '\n' {
      assert k < 7 || IsDigit(p[k]);
    }
  }

  lemma ClassifyPrinted(i: nat, suffix: string, value: string)
    requires LineText(value) && ':' !in suffix
    ensures Classify(FieldLine(i, suffix, value)) == Field(Prefix(i) + suffix, value)
  {
    var key := Prefix(i) + suffix;
    NoColon(i);
    assert key[0] == 'm' && |key| >= 6;
    ClassifyField(key, value);
  }

  /** The suffixes of a master's fields. */
  predicate Suffix(s: string) { s == HOST || s == PORT || s == LINK_STATUS || s == LAST_IO || s == SYNC }

  lemma SuffixFacts(s: string)
    requires Suffix(s)
    ensures |s| >= 3 && s[0] == '_' && !IsDigit(s[1]) && ':' !in s && '\n' !in s
  {
  }

  lemma SuffixLetters()
    ensures |HOST| >= 3 && |PORT| >= 3 && |LINK_STATUS| >= 3 && |LAST_IO| >= 3 && |SYNC| >= 3
    ensures HOST[1] == 'h' && PORT[1] == 'p' && LINK_STATUS[1] == 'l' && LAST_IO[1] == 'l' && SYNC[1] == 's'
    ensures LINK_STATUS[2] == 'i' && LAST_IO[2] == 'a'
    ensures |SLAVE| >= 3 && |SLAVE_OFFSET| >= 3 && SLAVE[0] == 's' && SLAVE_OFFSET[0] == 's'
  {
  }

  /** Only the pattern of its own suffix matches a printed field. */
  lemma Matching(i: nat, suffix: string, wanted: string)
    requires Suffix(suffix) && Suffix(wanted)
    ensures MasterField(Prefix(i) + suffix, wanted) <==> wanted == suffix
    ensures !(SLAVE_OFFSET <= Prefix(i) + suffix) && !(SLAVE <= Prefix(i) + suffix)
  {
    hide Prefix, MasterField, HOST, PORT, LINK_STATUS, LAST_IO, SYNC, SLAVE, SLAVE_OFFSET;
    SuffixFacts(suffix);
    SuffixLetters();
    PrintedField(i, suffix, wanted);
    PrefixAgrees(SLAVE, Prefix(i) + suffix, 0);
    PrefixAgrees(SLAVE_OFFSET, Prefix(i) + suffix, 0);
    PrefixAgrees(wanted, suffix, 1);
    PrefixAgrees(wanted, suffix, 2);
  }

  lemma PrintedNames(i: nat)
    ensures DirectName(Prefix(i) + LAST_IO) == "master_last_io_seconds_ago"
    ensures DirectName(Prefix(i) + SYNC) == "master_sync_in_progress"
  {
    hide Prefix;
    var io, sync := Prefix(i) + LAST_IO, Prefix(i) + SYNC;
    assert io[|io| - 19..] == LAST_IO[1..] == "last_io_seconds_ago";
    assert sync[|sync| - 16..] == SYNC[1..] == "sync_in_progress";
    assert sync[|sync| - 1] == 's' && "last_io_seconds_ago"[18] == 'o';
    SuffixAgrees(sync, "last_io_seconds_ago");
  }

  lemma PrintedInt(n: int)
    requires MIN_INT64 <= n <= MAX_INT64
    ensures AtoiLax(PrintInt(n)) == n && LineText(PrintInt(n))
  {
    var digits := Itoa(if n < 0 then -n else n);
    ItoaValue(if n < 0 then -n else n);
    assert IsDigit(digits[0]) && IsDigit(digits[|digits| - 1]);
    var s := PrintInt(n);
    assert s[|s| - 1] == digits[|digits| - 1];
    if n < 0 {
      assert s[1..] == digits;
    }
    forall k | 0 <= k < |s| ensures s[k] != '\n' {
      assert s[k] == '-' || IsDigit(s[k]);
    }
  }

  // ---------- one master ----------

  /** A field of the Replication section, once it is known which patterns its name matches. */
  lemma ReplicationStep(env: Env, s: State, raw: string, key: string, value: string)
    requires Classify(raw) == Field(key, value) && s.section == REPLICATION
    ensures var t, r := Step(env, s, raw), Record(s, key, value);
            && t.section == s.section && t.masterHost == r.masterHost && t.masterPort == r.masterPort
            && t.samples == s.samples + ReplicationSamples(env, r.masterHost, r.masterPort, key, value)
  {
    hide Classify, MasterField, ReplicationSamples, REPLICATION;
  }

  /** What a master's field does to host, port and samples. */
  lemma MasterStep(env: Env, s: State, i: nat, suffix: string, value: string)
    requires Suffix(suffix) && LineText(value) && s.section == REPLICATION
    ensures var t := Step(env, s, FieldLine(i, suffix, value));
            && t.section == s.section
            && t.masterHost == (if suffix == HOST then value else s.masterHost)
            && t.masterPort == (if suffix == PORT then value else s.masterPort)
            && t.samples == s.samples + FieldSamples(t.masterHost, t.masterPort, i, suffix, value)
  {
    hide Prefix, MasterField, Classify, FieldLine, Step, DirectName, AtoiLax, HOST, PORT, LINK_STATUS, LAST_IO, SYNC, SLAVE,
         SLAVE_OFFSET, REPLICATION, Suffix, LineText;
    SuffixFacts(suffix);
    AllSuffixes();
    FieldsDiffer();
    var key := Prefix(i) + suffix;
    ClassifyPrinted(i, suffix, value);
    ReplicationStep(env, s, FieldLine(i, suffix, value), key, value);
    Matching(i, suffix, HOST);
    Matching(i, suffix, PORT);
    Matching(i, suffix, LINK_STATUS);
    Matching(i, suffix, LAST_IO);
    Matching(i, suffix, SYNC);
  }

  function FieldSamples(host: string, port: string, i: nat, suffix: string, value: string): seq<Sample> {
    if suffix == LINK_STATUS then [Sample("master_link_up", if value == "up" then 1.0 else 0.0, [host, port])]
    else if suffix == LAST_IO || suffix == SYNC then
      [Sample(DirectName(Prefix(i) + suffix), AtoiLax(value) as real, [host, port])]
    else []
  }

  lemma AllSuffixes()
    ensures Suffix(HOST) && Suffix(PORT) && Suffix(LINK_STATUS) && Suffix(LAST_IO) && Suffix(SYNC)
  {
    hide HOST, PORT, LINK_STATUS, LAST_IO, SYNC;
  }

  lemma FieldsDiffer()
    ensures HOST != PORT && LINK_STATUS != HOST && LINK_STATUS != PORT && LAST_IO != HOST && LAST_IO != PORT
    ensures SYNC != HOST && SYNC != PORT && LAST_IO != LINK_STATUS && SYNC != LINK_STATUS
  {
    SuffixLetters();
  }

  lemma PrintedValues(m: Master)
    requires Printable(m)
    ensures LineText(m.host) && LineText(m.port) && LineText(m.linkStatus)
    ensures LineText(PrintInt(m.lastIo)) && LineText(PrintInt(m.syncInProgress))
    ensures AtoiLax(PrintInt(m.lastIo)) == m.lastIo && AtoiLax(PrintInt(m.syncInProgress)) == m.syncInProgress
  {
    PrintedInt(m.lastIo);
    PrintedInt(m.syncInProgress);
  }

  lemma LinkSamples(host: string, port: string, i: nat, status: string)
    ensures FieldSamples(host, port, i, LINK_STATUS, status)
         == [Sample("master_link_up", if status == "up" then 1.0 else 0.0, [host, port])]
  {
  }

  lemma DirectSamples(host: string, port: string, i: nat, value: string)
    ensures FieldSamples(host, port, i, LAST_IO, value) == [Sample("master_last_io_seconds_ago", AtoiLax(value) as real, [host, port])]
    ensures FieldSamples(host, port, i, SYNC, value) == [Sample("master_sync_in_progress", AtoiLax(value) as real, [host, port])]
  {
    PrintedNames(i);
    FieldsDiffer();
    hide Prefix, AtoiLax, DirectName, HOST, PORT, LINK_STATUS, LAST_IO, SYNC;
  }

  lemma NoFieldSamples(host: string, port: string, i: nat, value: string)
    ensures FieldSamples(host, port, i, HOST, value) == [] && FieldSamples(host, port, i, PORT, value) == []
  {
    FieldsDiffer();
    hide Prefix, AtoiLax, DirectName, HOST, PORT, LINK_STATUS, LAST_IO, SYNC;
  }

  lemma SamplesOfMaster(m: Master, host: string, port: string, i: nat)
    requires Printable(m) && host == m.host && port == m.port
    ensures FieldSamples(host, port, i, LINK_STATUS, m.linkStatus)
          + FieldSamples(host, port, i, LAST_IO, PrintInt(m.lastIo))
          + FieldSamples(host, port, i, SYNC, PrintInt(m.syncInProgress))
         == MasterSamples()(m)
  {
    hide FieldSamples, Printable, LineText, AtoiLax, PrintInt, LINK_STATUS, LAST_IO, SYNC;
    PrintedValues(m);
    LinkSamples(host, port, i, m.linkStatus);
    DirectSamples(host, port, i, PrintInt(m.lastIo));
    DirectSamples(host, port, i, PrintInt(m.syncInProgress));
  }

  lemma AddressSteps(env: Env, s: State, i: nat, host: string, port: string)
    requires LineText(host) && LineText(port) && s.section == REPLICATION
    ensures var t := Step(env, Step(env, s, FieldLine(i, HOST, host)), FieldLine(i, PORT, port));
            t.section == REPLICATION && t.masterHost == host && t.masterPort == port && t.samples == s.samples
  {
    hide *;
    FieldsDiffer();
    AllSuffixes();
    MasterStep(env, s, i, HOST, host);
    var s1 := Step(env, s, FieldLine(i, HOST, host));
    MasterStep(env, s1, i, PORT, port);
    NoFieldSamples(s1.masterHost, s1.masterPort, i, host);
    NoFieldSamples(s1.masterHost, port, i, port);
    assert s.samples + [] == s.samples;
  }

  lemma StatusStep(env: Env, s: State, i: nat, suffix: string, value: string)
    requires Suffix(suffix) && suffix != HOST && suffix != PORT && LineText(value) && s.section == REPLICATION
    ensures var t := Step(env, s, FieldLine(i, suffix, value));
            && t.section == REPLICATION && t.masterHost == s.masterHost && t.masterPort == s.masterPort
            && t.samples == s.samples + FieldSamples(s.masterHost, s.masterPort, i, suffix, value)
  {
    hide *;
    MasterStep(env, s, i, suffix, value);
  }

  lemma MasterPrinted(env: Env, s: State, i: nat, m: Master)
    requires Printable(m) && s.section == REPLICATION
    ensures var t := Interpret(env, s, MasterLines(i, m));
            t.section == REPLICATION && t.samples == s.samples + MasterSamples()(m)
  {
    hide FieldLine, Step, Prefix, FieldSamples, PrintInt, HOST, PORT, LINK_STATUS, LAST_IO, SYNC, REPLICATION, Interpret,
         MasterSamples, Printable, LineText, Suffix, AtoiLax;
    var l := MasterLines(i, m);
    FieldsDiffer();
    AllSuffixes();
    PrintedValues(m);
    SamplesOfMaster(m, m.host, m.port, i);
    FiveSteps(env, s, l);
    AddressSteps(env, s, i, m.host, m.port);
    var s2 := Step(env, Step(env, s, l[0]), l[1]);
    StatusStep(env, s2, i, LINK_STATUS, m.linkStatus);
    var s3 := Step(env, s2, l[2]);
    StatusStep(env, s3, i, LAST_IO, PrintInt(m.lastIo));
    var s4 := Step(env, s3, l[3]);
    StatusStep(env, s4, i, SYNC, PrintInt(m.syncInProgress));
    var a, b, c := FieldSamples(m.host, m.port, i, LINK_STATUS, m.linkStatus),
      FieldSamples(m.host, m.port, i, LAST_IO, PrintInt(m.lastIo)), FieldSamples(m.host, m.port, i, SYNC, PrintInt(m.syncInProgress));
    assert s.samples + a + b + c == s.samples + (a + b + c);
  }

  /** The five lines of a master, with carriage returns or without, emit its three samples, whatever
      master came before. */
  lemma OneMaster(env: Env, s: State, i: nat, m: Master, ended: seq<string>)
    requires Printable(m) && s.section == REPLICATION && Ended(MasterLines(i, m), ended)
    ensures var t := Interpret(env, s, ended);
            t.section == REPLICATION && t.samples == s.samples + MasterSamples()(m)
  {
    hide *;
    MasterPrinted(env, s, i, m);
    InterpretEnded(env, s, MasterLines(i, m), ended);
  }

  lemma FiveSteps(env: Env, s: State, l: seq<string>)
    requires |l| == 5
    ensures Interpret(env, s, l)
         == Step(env, Step(env, Step(env, Step(env, Step(env, s, l[0]), l[1]), l[2]), l[3]), l[4])
  {
    hide Step;
    assert Interpret(env, s, []) == s;
    InterpretSnoc(env, s, [], l[0]);
    InterpretSnoc(env, s, [l[0]], l[1]);
    InterpretSnoc(env, s, [l[0], l[1]], l[2]);
    InterpretSnoc(env, s, [l[0], l[1], l[2]], l[3]);
    InterpretSnoc(env, s, [l[0], l[1], l[2], l[3]], l[4]);
    hide Interpret;
    assert [] + [l[0]] == [l[0]] && [l[0]] + [l[1]] == [l[0], l[1]] && [l[0], l[1]] + [l[2]] == [l[0], l[1], l[2]];
    assert [l[0], l[1], l[2]] + [l[3]] == [l[0], l[1], l[2], l[3]] && [l[0], l[1], l[2], l[3]] + [l[4]] == l;
  }

  // ---------- all masters ----------

  lemma PrintMastersStep(ms: seq<Master>, n: nat)
    requires |ms| == n + 1
    ensures PrintMasters(ms) == PrintMasters(ms[..n]) + MasterLines(n, ms[n])
    ensures Flat(ms, MasterSamples()) == Flat(ms[..n], MasterSamples()) + MasterSamples()(ms[n])
  {
    hide MasterLines;
  }

  lemma {:induction false} MastersPrinted(env: Env, s: State, ms: seq<Master>)
    requires s.section == REPLICATION && forall i :: 0 <= i < |ms| ==> Printable(ms[i])
    ensures var t := Interpret(env, s, PrintMasters(ms));
            t.section == REPLICATION && t.samples == s.samples + Flat(ms, MasterSamples())
  {
    hide *;
    if |ms| == 0 {
      NoMasters(env, s, ms);
    } else {
      var n := |ms| - 1;
      MastersPrinted(env, s, ms[..n]);
      PrintMastersStep(ms, n);
      InterpretConcat(env, s, PrintMasters(ms[..n]), MasterLines(n, ms[n]));
      MasterPrinted(env, Interpret(env, s, PrintMasters(ms[..n])), n, ms[n]);
      assert s.samples + Flat(ms[..n], MasterSamples()) + MasterSamples()(ms[n])
          == s.samples + (Flat(ms[..n], MasterSamples()) + MasterSamples()(ms[n]));
    }
  }

  /** Any list of masters, from any state within the section. */
  lemma AllMasters(env: Env, s: State, ms: seq<Master>, ended: seq<string>)
    requires s.section == REPLICATION && forall i :: 0 <= i < |ms| ==> Printable(ms[i])
    requires Ended(PrintMasters(ms), ended)
    ensures var t := Interpret(env, s, ended);
            t.section == REPLICATION && t.samples == s.samples + Flat(ms, MasterSamples())
  {
    hide *;
    MastersPrinted(env, s, ms);
    InterpretEnded(env, s, PrintMasters(ms), ended);
  }

  lemma NoMasters(env: Env, s: State, ms: seq<Master>)
    requires |ms| == 0
    ensures Interpret(env, s, PrintMasters(ms)) == s && s.samples == s.samples + Flat(ms, MasterSamples())
  {
  }

  lemma OneLine(i: nat, suffix: string, value: string)
    requires Suffix(suffix) && LineText(value)
    ensures '\n' !in FieldLine(i, suffix, value)
  {
    hide Prefix, Suffix;
    NoColon(i);
    SuffixFacts(suffix);
  }

  /** A printed field has a description. */
  lemma PrintedSafe(i: nat, suffix: string, value: string)
    requires Suffix(suffix) && LineText(value)
    ensures Safe(FieldLine(i, suffix, value)) && '\n' !in FieldLine(i, suffix, value)
  {
    hide Prefix, MasterField, Classify, FieldLine, HOST, PORT, LINK_STATUS, LAST_IO, SYNC, SLAVE, SLAVE_OFFSET, Suffix, LineText,
         HasSuffix;
    SuffixFacts(suffix);
    AllSuffixes();
    FieldsDiffer();
    ClassifyPrinted(i, suffix, value);
    OneLine(i, suffix, value);
    Matching(i, suffix, LINK_STATUS);
    Matching(i, suffix, LAST_IO);
    Matching(i, suffix, SYNC);
    PrintedSuffixes(i);
    SuffixCases(suffix);
  }

  lemma SuffixCases(suffix: string)
    requires Suffix(suffix)
    ensures suffix == HOST || suffix == PORT || suffix == LINK_STATUS || suffix == LAST_IO || suffix == SYNC
  {
    hide HOST, PORT, LINK_STATUS, LAST_IO, SYNC;
  }

  lemma PrintedSuffixes(i: nat)
    ensures HasSuffix(Prefix(i) + LAST_IO, "last_io_seconds_ago") && HasSuffix(Prefix(i) + SYNC, "sync_in_progress")
  {
    hide Prefix;
    var io, sync := Prefix(i) + LAST_IO, Prefix(i) + SYNC;
    assert io[|io| - 19..] == LAST_IO[1..] == "last_io_seconds_ago";
    assert sync[|sync| - 16..] == SYNC[1..] == "sync_in_progress";
  }

  lemma {:induction false} PrintedLines(ms: seq<Master>)
    requires forall i :: 0 <= i < |ms| ==> Printable(ms[i])
    ensures PrintableLines(PrintMasters(ms))
  {
    hide PrintableLines, MasterLines, Printable;
    if |ms| == 0 {
      NoLines(ms);
    } else {
      var n := |ms| - 1;
      PrintedLines(ms[..n]);
      MasterOneLine(n, ms[n]);
      PrintableJoined(PrintMasters(ms[..n]), MasterLines(n, ms[n]));
    }
  }

  lemma NoLines(ms: seq<Master>)
    requires |ms| == 0
    ensures PrintableLines(PrintMasters(ms))
  {
  }

  lemma MasterOneLine(i: nat, m: Master)
    requires Printable(m)
    ensures PrintableLines(MasterLines(i, m))
  {
    hide FieldLine, PrintInt, LineText, Printable, Suffix, AtoiLax, HOST, PORT, LINK_STATUS, LAST_IO, SYNC, Safe;
    PrintedValues(m);
    AllSuffixes();
    PrintedSafe(i, HOST, m.host);
    PrintedSafe(i, PORT, m.port);
    PrintedSafe(i, LINK_STATUS, m.linkStatus);
    PrintedSafe(i, LAST_IO, PrintInt(m.lastIo));
    PrintedSafe(i, SYNC, PrintInt(m.syncInProgress));
  }

  /** Printing any list of masters as a Replication section, with carriage returns or without, and
      interpreting the text emits each master's samples, in order, with its own host and port. */
  lemma MastersRoundTrip(env: Env, ms: seq<Master>, ended: seq<string>)
    requires (forall i :: 0 <= i < |ms| ==> Printable(ms[i])) && Ended([HeaderOf(REPLICATION)] + PrintMasters(ms), ended)
    ensures var r := Scrape(env, INITIAL, Split(Join(ended, '\n'), '\n'));
            r.Some? && r.value.samples == Flat(ms, MasterSamples())
  {
    hide *;
    SectionNames();
    PrintedLines(ms);
    SectionText(env, REPLICATION, PrintMasters(ms), ended);
    SectionStart(REPLICATION);
    MastersPrinted(env, INITIAL.(section := REPLICATION), ms);
  }
}
