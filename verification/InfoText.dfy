/** Interpreting printed INFO texts (`extractInfoMetrics` in `info.go`): line after line, and whether the
    lines end in a carriage return or not. */
module InfoText {
  import opened Wrappers
  import opened Text
  import opened Metrics
  import opened Info

  lemma InterpretSnoc(env: Env, s: State, lines: seq<string>, line: string)
    ensures Interpret(env, s, lines + [line]) == Step(env, Interpret(env, s, lines), line)
  {
    assert (lines + [line])[..|lines|] == lines;
  }

  lemma {:induction false} InterpretConcat(env: Env, s: State, a: seq<string>, b: seq<string>)
    ensures Interpret(env, s, a + b) == Interpret(env, Interpret(env, s, a), b)
  {
    hide Step;
    if |b| == 0 {
      assert a + b == a;
    } else {
      assert (a + b)[..|a + b| - 1] == a + b[..|b| - 1];
      InterpretConcat(env, s, a, b[..|b| - 1]);
    }
  }

  // ---------- carriage returns ----------

  /** The same lines, each with or without a carriage return at its end, as a server sends them. */
  ghost predicate Ended(lines: seq<string>, ended: seq<string>) {
    |ended| == |lines| && forall i :: 0 <= i < |lines| ==> ended[i] == lines[i] || ended[i] == lines[i] + "\r"
  }

  lemma {:induction false} TrimLeftEnded(s: string)
    ensures TrimLeft(s + "\r") == if TrimLeft(s) == "" then "" else TrimLeft(s) + "\r"
  {
    if s == "" {
      assert s + "\r" == "\r" && "\r"[1..] == "";
      assert TrimLeft("\r") == TrimLeft("\r"[1..]);
    } else {
      assert (s + "\r")[1..] == s[1..] + "\r";
      TrimLeftEnded(s[1..]);
    }
  }

  lemma ClassifyEnded(line: string)
    ensures Classify(line + "\r") == Classify(line)
  {
    TrimLeftEnded(line);
    var t := TrimLeft(line);
    assert (t + "\r")[..|t + "\r"| - 1] == t;
    assert TrimSpace(line + "\r") == TrimSpace(line);
  }

  /** For every text, carriage returns at the ends of lines change nothing. */
  lemma {:induction false} InterpretEnded(env: Env, s: State, lines: seq<string>, ended: seq<string>)
    requires Ended(lines, ended)
    ensures Interpret(env, s, ended) == Interpret(env, s, lines)
  {
    hide Classify, Record, InSection;
    if |lines| != 0 {
      var n := |lines| - 1;
      InterpretEnded(env, s, lines[..n], ended[..n]);
      ClassifyEnded(lines[n]);
    }
  }

  // ---------- printed texts ----------

  /** Lines that can be printed: each on its own line, with no name that lacks a description. */
  ghost predicate PrintableLines(lines: seq<string>) {
    forall i :: 0 <= i < |lines| ==> '\n' !in lines[i] && Safe(lines[i])
  }

  lemma PrintableJoined(a: seq<string>, b: seq<string>)
    requires PrintableLines(a) && PrintableLines(b)
    ensures PrintableLines(a + b)
  {
    hide Safe;
  }

  /** A whole text of such lines, whatever their ends, is interpreted line by line without a panic. */
  lemma PrintedText(env: Env, lines: seq<string>, ended: seq<string>)
    requires lines != [] && PrintableLines(lines) && Ended(lines, ended)
    ensures Scrape(env, INITIAL, Split(Join(ended, '\n'), '\n')) == Some(Interpret(env, INITIAL, lines))
  {
    hide Interpret, Classify, Undescribed, Split, Join;
    forall i | 0 <= i < |ended| ensures '\n' !in ended[i] && Safe(ended[i]) {
      ClassifyEnded(lines[i]);
    }
    SplitJoin(ended, '\n');
    SafeScrape(env, INITIAL, ended);
    InterpretEnded(env, INITIAL, lines, ended);
  }

  /** A header and the lines of its section. */
  lemma SectionText(env: Env, section: string, lines: seq<string>, ended: seq<string>)
    requires SectionName(section) && PrintableLines(lines) && Ended([HeaderOf(section)] + lines, ended)
    ensures Scrape(env, INITIAL, Split(Join(ended, '\n'), '\n')) == Some(Interpret(env, INITIAL.(section := section), lines))
  {
    hide Interpret, Classify, Split, Join, Ended, SectionName, HeaderOf;
    var header := HeaderOf(section);
    HeaderRead(section);
    assert PrintableLines([header]);
    PrintableJoined([header], lines);
    PrintedText(env, [header] + lines, ended);
    InterpretConcat(env, INITIAL, [header], lines);
    InterpretHeader(env, INITIAL, header, section);
  }

  lemma InterpretHeader(env: Env, s: State, header: string, section: string)
    requires Classify(header) == Header(section)
    ensures Interpret(env, s, [header]) == s.(section := section)
  {
    hide Classify;
    assert [header][..0] == [];
    assert Interpret(env, s, [header]) == Step(env, Interpret(env, s, [header][..0]), header);
  }

  // ---------- headers and fields ----------

  function HeaderOf(section: string): string { "# " + section }

  predicate SectionName(section: string) { section != "" && !IsSpace(section[|section| - 1]) && '\n' !in section }

  lemma HeaderRead(section: string)
    requires SectionName(section)
    ensures Classify(HeaderOf(section)) == Header(section) && '\n' !in HeaderOf(section)
  {
    hide TrimSpace, Cut;
    var header := HeaderOf(section);
    assert header[0] == '#' && header[2..] == section;
  }

  lemma SectionNames()
    ensures SectionName(REPLICATION) && SectionName(KEYSPACE) && SectionName(COMMANDSTATS) && SectionName(LATENCYSTATS)
  {
  }

  /** A printed field of any section is read as that field. */
  lemma ClassifyField(key: string, value: string)
    requires key != "" && ':' !in key && key[0] != '#' && !IsSpace(key[0])
    requires |key| >= 2 && (value == "" || !IsSpace(value[|value| - 1]))
    ensures Classify(key + ":" + value) == Field(key, value)
  {
    var line := key + ":" + value;
    assert line == key + [':'] + value;
    assert line[0] == key[0] && line[|line| - 1] == if value == "" then ':' else value[|value| - 1];
    assert Trimmed(line) && !("# " <= line);
    CutPrinted(key, ':', value);
  }

  /** A field whose name is of no master and no replication offset. */
  lemma SafeField(key: string, value: string)
    requires ':' !in key && key != "" && key[0] !in {'#', 'm', 's'} && !IsSpace(key[0])
    requires |key| >= 2 && (value == "" || !IsSpace(value[|value| - 1]))
    ensures Safe(key + ":" + value) && Classify(key + ":" + value) == Field(key, value)
  {
    hide Undescribed, Classify;
    ClassifyField(key, value);
    OtherNamesDescribed(key);
  }

  lemma SectionStart(section: string)
    ensures forall samples: seq<Sample> :: INITIAL.(section := section).samples + samples == samples
    ensures INITIAL.(section := section).section == section
  {
  }
}
