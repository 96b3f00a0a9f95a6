/** The total time of a command for its latency histogram (`extractTotalUsecForCommand` in
    `latency.go`): a sum, modulo 2^64, over the matching Commandstats lines. */
module LatencyTotals {
  import opened Wrappers
  import opened Text
  import opened Sums

  // ---------- the pattern ----------

  predicate NameChar(c: char) { 'a' <= c <= 'z' || 'A' <= c <= 'Z' || '0' <= c <= '9' || c == '|' }

  predicate ValidName(name: string) { name != "" && forall i :: 0 <= i < |name| ==> NameChar(name[i]) }

  function TakeDigits(s: string): string {
    if s == "" || !IsDigit(s[0]) then "" else [s[0]] + TakeDigits(s[1..])
  }

  const USEC := "usec="
  const CMDSTAT := "cmdstat_"

  /** `usec=` and a digit stand at position `i`. */
  predicate UsecAt(s: string, i: nat) {
    i + 5 < |s| && s[i..i + 5] == USEC && IsDigit(s[i + 5])
  }

  /** The digits after the last such position: the `.*` before it takes all it can. */
  function LastUsec(s: string): Option<string> {
    if s == "" then None
    else
      match LastUsec(s[1..])
      case Some(digits) => Some(digits)
      case None => if UsecAt(s, 0) then Some(TakeDigits(s[5..])) else None
  }

  /** `^cmdstat_([a-zA-Z0-9|]+):.*usec=([0-9]+).*$` on one line: the name and the digits. */
  function LineMatch(line: string): Option<(string, string)> {
    if !(CMDSTAT <= line) then None
    else
      match Cut(line[8..], ':')
      case None => None
      case Some((name, rest)) =>
        if !ValidName(name) then None
        else
          match LastUsec(rest)
          case None => None
          case Some(digits) => Some((name, digits))
  }

  lemma {:induction false} LastUsecIsLast(s: string)
    ensures LastUsec(s).Some? <==> exists i: nat :: UsecAt(s, i)
    ensures forall i: nat :: UsecAt(s, i) && (forall j: nat :: UsecAt(s, j) ==> j <= i) ==>
              LastUsec(s) == Some(TakeDigits(s[i + 5..]))
  {
    if s != "" {
      var t := s[1..];
      LastUsecIsLast(t);
      forall i: nat ensures UsecAt(t, i) <==> UsecAt(s, i + 1) {
        if i + 6 < |s| {
          assert t[i..i + 5] == s[i + 1..i + 6];
        }
      }
      if i: nat :| UsecAt(s, i) {
        if i > 0 {
          assert UsecAt(t, i - 1);
        }
      }
      forall i: nat | UsecAt(s, i) && (forall j: nat :: UsecAt(s, j) ==> j <= i)
        ensures LastUsec(s) == Some(TakeDigits(s[i + 5..]))
      {
        if i > 0 {
          assert UsecAt(t, i - 1);
          forall j: nat | UsecAt(t, j) ensures j <= i - 1 {
            assert UsecAt(s, j + 1);
          }
          assert t[i - 1 + 5..] == s[i + 5..];
        }
      }
    }
  }

  // ---------- the sum ----------

  /** The command itself, or one of its sub-commands. */
  predicate Counted(name: string, cmd: string) { name == cmd || cmd + "|" <= name }

  predicate Under(name: string, cmd: string) { cmd + "|" <= name }

  /** The time on a line; 0 when the line does not match or its number does not fit 64 bits. */
  function TimeOn(line: string): nat {
    match LineMatch(line)
    case None => 0
    case Some((_, digits)) =>
      if digits == "" || !AllDigits(digits) || DigitsValue(digits) >= TWO_64 then 0 else DigitsValue(digits)
  }

  predicate NameOn(line: string, wanted: string -> bool) {
    match LineMatch(line)
    case None => false
    case Some((name, _)) => wanted(name)
  }

  function TimeIf(wanted: string -> bool): string -> int {
    line => if NameOn(line, wanted) then TimeOn(line) else 0
  }

  function CountedFor(cmd: string): string -> bool { name => Counted(name, cmd) }
  function Exactly(cmd: string): string -> bool { name => name == cmd }
  function Below(cmd: string): string -> bool { name => Under(name, cmd) }

  /** The exact total of a command over some lines. */
  function TotalTime(lines: seq<string>, cmd: string): int { SumBy(lines, TimeIf(CountedFor(cmd))) }

  /** The command's own time, its sub-commands aside. */
  function OwnTime(lines: seq<string>, cmd: string): int { SumBy(lines, TimeIf(Exactly(cmd))) }

  lemma ModAdd(a: int, b: int)
    ensures (a % TWO_64 + b) % TWO_64 == (a + b) % TWO_64
  {
    assert a == TWO_64 * (a / TWO_64) + a % TWO_64;
    ModShift(a % TWO_64 + b, a / TWO_64);
  }

  lemma {:induction false} ModShift(a: int, k: int)
    ensures (a + TWO_64 * k) % TWO_64 == a % TWO_64
  {
    assert a == TWO_64 * (a / TWO_64) + a % TWO_64;
    assert a + TWO_64 * k == TWO_64 * (a / TWO_64 + k) + a % TWO_64;
  }

  lemma TotalStep(lines: seq<string>, i: nat, cmd: string)
    requires i < |lines|
    ensures TotalTime(lines[..i + 1], cmd) % TWO_64
         == (TotalTime(lines[..i], cmd) % TWO_64 + TimeIf(CountedFor(cmd))(lines[i])) % TWO_64
    ensures TotalTime([], cmd) == 0 && lines[..|lines|] == lines && lines[..0] == []
  {
    hide TimeIf;
    assert lines[..i + 1][..i] == lines[..i];
    ModAdd(TotalTime(lines[..i], cmd), TimeIf(CountedFor(cmd))(lines[i]));
  }

  /** `extractTotalUsecForCommand`. */
  method ExtractTotalUsecForCommand(infoAll: string, cmd: string) returns (total: nat)
    ensures total == TotalTime(Split(infoAll, '\n'), cmd) % TWO_64
  {
    hide TotalTime, TimeIf, Split;
    total := 0;
    var lines := Split(infoAll, '\n');
    TotalStep(lines, 0, cmd);
    for i := 0 to |lines|
      invariant total == TotalTime(lines[..i], cmd) % TWO_64
    {
      TotalStep(lines, i, cmd);
      total := AddLine(total, lines[i], cmd);
    }
  }

  method AddLine(total: nat, line: string, cmd: string) returns (sum: nat)
    requires total < TWO_64
    ensures sum == (total + TimeIf(CountedFor(cmd))(line)) % TWO_64
  {
    sum := total;
    var m := LineMatch(line);
    if m.Some? {
      var name, digits := m.value.0, m.value.1;
      if name == cmd || cmd + "|" <= name {
        if digits != "" && AllDigits(digits) && DigitsValue(digits) < TWO_64 {
          sum := (sum + DigitsValue(digits)) % TWO_64;
        }
      }
    }
  }

  // ---------- laws ----------

  /** Over concatenated line lists the total is additive. */
  lemma TotalConcat(a: seq<string>, b: seq<string>, cmd: string)
    ensures TotalTime(a + b, cmd) == TotalTime(a, cmd) + TotalTime(b, cmd)
  {
    SumByConcat(a, b, TimeIf(CountedFor(cmd)));
  }

  /** A command that merely starts with the same text is not counted. */
  lemma SiblingNotCounted(cmd: string, c: char, rest: string)
    requires c != '|'
    ensures !Counted(cmd + [c] + rest, cmd)
  {
    var name := cmd + [c] + rest;
    assert name[|cmd|] == c && (cmd + "|")[|cmd|] == '|';
    assert |name| > |cmd|;
  }

  /** The first component below `cmd` of a name. */
  function SubOf(name: string, cmd: string): string
    requires Under(name, cmd)
  {
    match Cut(name[|cmd| + 1..], '|')
    case None => name[|cmd| + 1..]
    case Some((sub, _)) => sub
  }

  /** A name is counted for the sub-command `cmd|sub` exactly when `sub` is its component below `cmd`. */
  lemma CountedBySub(name: string, cmd: string, sub: string)
    requires '|' !in sub
    ensures Counted(name, cmd + "|" + sub) <==> Under(name, cmd) && SubOf(name, cmd) == sub
  {
    var child := cmd + "|" + sub;
    if Under(name, cmd) {
      var rest := name[|cmd| + 1..];
      assert name == cmd + "|" + rest;
      if SubOf(name, cmd) == sub {
        match Cut(rest, '|') {
          case None =>
          case Some((s, t)) =>
            assert name == child + "|" + t;
        }
      }
      if child + "|" <= name {
        var t := name[|child| + 1..];
        assert name == child + "|" + t;
        assert rest == sub + ['|'] + t;
        CutPrinted(sub, '|', t);
      }
      if name == child {
        assert rest == sub;
      }
    } else {
      assert cmd + "|" <= child;
      PrefixTransitive(cmd + "|", child, name);
      PrefixTransitive(cmd + "|", child + "|", name);
    }
  }

  lemma PrefixTransitive(a: string, b: string, c: string)
    ensures a <= b && b <= c ==> a <= c
  {
  }

  /** The sub-command a line belongs to; "" for lines that are not below `cmd`. */
  function SubTag(cmd: string): string -> string {
    line => match LineMatch(line)
            case None => ""
            case Some((name, _)) => if Under(name, cmd) then SubOf(name, cmd) else ""
  }

  function ChildTotal(lines: seq<string>, cmd: string): string -> int {
    sub => TotalTime(lines, cmd + "|" + sub)
  }

  /** `subs` lists, once each, sub-command names without `|`, among them all that occur below `cmd`. */
  ghost predicate CoversSubs(lines: seq<string>, cmd: string, subs: seq<string>) {
    && Distinct(subs)
    && (forall i :: 0 <= i < |subs| ==> '|' !in subs[i])
    && (forall i :: 0 <= i < |lines| && NameOn(lines[i], Below(cmd)) ==> SubTag(cmd)(lines[i]) in subs)
  }

  lemma SplitLine(line: string, cmd: string)
    ensures TimeIf(CountedFor(cmd))(line) == TimeIf(Exactly(cmd))(line) + TimeIf(Below(cmd))(line)
  {
    hide LineMatch, TimeOn;
  }

  lemma ChildLine(line: string, cmd: string, sub: string)
    requires '|' !in sub
    ensures TimeIf(CountedFor(cmd + "|" + sub))(line)
         == if SubTag(cmd)(line) == sub then TimeIf(Below(cmd))(line) else 0
  {
    hide LineMatch, TimeOn, Under, Counted, SubOf;
    match LineMatch(line) {
      case None =>
      case Some((name, _)) =>
        CountedBySub(name, cmd, sub);
    }
  }

  lemma {:induction false} ChildSum(lines: seq<string>, cmd: string, sub: string)
    requires '|' !in sub
    ensures SumWhere(lines, SubTag(cmd), TimeIf(Below(cmd)), sub) == TotalTime(lines, cmd + "|" + sub)
  {
    hide SubTag, TimeIf;
    if |lines| != 0 {
      var n := |lines| - 1;
      ChildSum(lines[..n], cmd, sub);
      ChildLine(lines[n], cmd, sub);
    }
  }

  /** A command's total is its own time plus the totals of its sub-commands. */
  lemma TotalIsOwnPlusChildren(lines: seq<string>, cmd: string, subs: seq<string>)
    requires CoversSubs(lines, cmd, subs)
    ensures TotalTime(lines, cmd) == OwnTime(lines, cmd) + SumBy(subs, ChildTotal(lines, cmd))
  {
    hide SubTag, TimeIf, SumBy, SumWhere, NameOn;
    forall line: string | line in lines
      ensures TimeIf(CountedFor(cmd))(line) == TimeIf(Exactly(cmd))(line) + TimeIf(Below(cmd))(line)
    {
      SplitLine(line, cmd);
    }
    SumByAdd(lines, TimeIf(Exactly(cmd)), TimeIf(Below(cmd)), TimeIf(CountedFor(cmd)));
    forall i | 0 <= i < |lines| ensures SubTag(cmd)(lines[i]) in subs || TimeIf(Below(cmd))(lines[i]) == 0 {
      NotBelow(lines[i], cmd);
    }
    PartitionSum(lines, SubTag(cmd), TimeIf(Below(cmd)), subs);
    forall sub: string | sub in subs
      ensures GroupSum(lines, SubTag(cmd), TimeIf(Below(cmd)))(sub) == ChildTotal(lines, cmd)(sub)
    {
      ChildSum(lines, cmd, sub);
    }
    SumByCongruent(subs, GroupSum(lines, SubTag(cmd), TimeIf(Below(cmd))), ChildTotal(lines, cmd));
  }

  lemma NotBelow(line: string, cmd: string)
    ensures !NameOn(line, Below(cmd)) ==> TimeIf(Below(cmd))(line) == 0
  {
  }

  lemma {:induction false} SumOfRemainders(subs: seq<string>, f: string -> int, g: string -> int)
    requires forall s :: s in subs ==> g(s) == f(s) % TWO_64
    ensures SumBy(subs, g) % TWO_64 == SumBy(subs, f) % TWO_64
  {
    if |subs| != 0 {
      var n := |subs| - 1;
      SumOfRemainders(subs[..n], f, g);
      assert subs[n] in subs;
      var a, b := SumBy(subs[..n], f), SumBy(subs[..n], g);
      ModAdd(a, f(subs[n]));
      ModAdd(b, g(subs[n]));
      ModAdd(f(subs[n]), a % TWO_64);
    }
  }

  /** What the exporter reports: modulo 2^64, a command's total is its own time plus what it reports
      for each of its sub-commands. */
  lemma ReportedTotals(lines: seq<string>, cmd: string, subs: seq<string>, reported: string -> int)
    requires CoversSubs(lines, cmd, subs)
    requires forall s :: s in subs ==> reported(s) == TotalTime(lines, cmd + "|" + s) % TWO_64
    ensures TotalTime(lines, cmd) % TWO_64 == (OwnTime(lines, cmd) + SumBy(subs, reported)) % TWO_64
  {
    TotalIsOwnPlusChildren(lines, cmd, subs);
    hide TotalTime, OwnTime, SumBy, CoversSubs;
    SumOfRemainders(subs, ChildTotal(lines, cmd), reported);
    var exact := SumBy(subs, ChildTotal(lines, cmd));
    ModAdd(exact, OwnTime(lines, cmd));
    ModAdd(SumBy(subs, reported), OwnTime(lines, cmd));
  }

  /** Below 2^64 the reported total is the exact sum. */
  lemma {:induction false} TotalNonNegative(lines: seq<string>, cmd: string)
    ensures TotalTime(lines, cmd) >= 0
    ensures TotalTime(lines, cmd) < TWO_64 ==> TotalTime(lines, cmd) % TWO_64 == TotalTime(lines, cmd)
  {
    hide LineMatch, TimeOn, NameOn;
    if |lines| != 0 {
      TotalNonNegative(lines[..|lines| - 1], cmd);
    }
  }

  // ---------- the format of INFO ----------

  lemma {:induction false} TakePrinted(digits: string, post: string)
    requires AllDigits(digits) && (post == "" || !IsDigit(post[0]))
    ensures TakeDigits(digits + post) == digits
  {
    if digits == "" {
      assert digits + post == post;
    } else {
      assert (digits + post)[1..] == digits[1..] + post;
      TakePrinted(digits[1..], post);
      assert [digits[0]] + digits[1..] == digits;
    }
  }

  lemma {:induction false} NoUsecInDigits(digits: string, post: string)
    requires AllDigits(digits) && LastUsec(post).None?
    ensures LastUsec(digits + post).None?
  {
    var s := digits + post;
    if digits == "" {
      assert s == post;
    } else {
      assert s[1..] == digits[1..] + post;
      NoUsecInDigits(digits[1..], post);
      UsecStarts(s);
    }
  }

  lemma UsecStarts(s: string)
    ensures UsecAt(s, 0) ==> s[0] == 'u'
  {
    if UsecAt(s, 0) {
      assert s[0..5][0] == s[0] && USEC[0] == 'u';
    }
  }

  lemma {:induction false} UsecFound(pre: string, digits: string, post: string)
    requires digits != "" && AllDigits(digits) && LastUsec(post).None? && (post == "" || !IsDigit(post[0]))
    ensures LastUsec(pre + USEC + digits + post) == Some(digits)
  {
    var s := pre + USEC + digits + post;
    if pre == "" {
      assert s == "usec=" + (digits + post);
      NoUsecInDigits(digits, post);
      UsecTail(digits + post);
      assert s[5..] == digits + post && s[0..5] == USEC;
      TakePrinted(digits, post);
    } else {
      assert s[1..] == pre[1..] + USEC + digits + post;
      UsecFound(pre[1..], digits, post);
    }
  }

  /** No second match starts inside `usec=` itself. */
  lemma UsecTail(rest: string)
    requires LastUsec(rest).None?
    ensures LastUsec(("usec=" + rest)[1..]).None?
  {
    hide UsecAt, TakeDigits;
    var s := "usec=" + rest;
    var s1, s2, s3, s4 := s[1..], s[2..], s[3..], s[4..];
    assert s1[1..] == s2 && s2[1..] == s3 && s3[1..] == s4 && s4[1..] == rest;
    UsecStarts(s1);
    UsecStarts(s2);
    UsecStarts(s3);
    UsecStarts(s4);
    assert LastUsec(s4).None? && LastUsec(s3).None? && LastUsec(s2).None?;
  }

  /** A Commandstats line as Redis prints it is read for its name and its total time, exactly when the
      name has nothing in it but letters, digits and `|`. */
  lemma PrintedLineMatches(name: string, calls: string, usecs: nat, post: string)
    requires ':' !in name
    requires LastUsec(post).None? && (post == "" || !IsDigit(post[0])) && usecs < TWO_64
    ensures var line := "cmdstat_" + name + ":" + calls + "usec=" + Itoa(usecs) + post;
            && LineMatch(line) == (if ValidName(name) then Some((name, Itoa(usecs))) else None)
            && TimeOn(line) == if ValidName(name) then usecs else 0
  {
    hide LastUsec, Itoa, USEC, CMDSTAT, DigitsValue, ValidName;
    var rest := calls + USEC + Itoa(usecs) + post;
    var line := "cmdstat_" + name + ":" + calls + "usec=" + Itoa(usecs) + post;
    PrintedLine(line, name, calls, Itoa(usecs), post);
    CutPrinted(name, ':', rest);
    UsecFound(calls, Itoa(usecs), post);
    ItoaValue(usecs);
  }

  lemma PrintedLine(line: string, name: string, calls: string, digits: string, post: string)
    requires line == "cmdstat_" + name + ":" + calls + "usec=" + digits + post
    ensures CMDSTAT <= line && line[8..] == name + [':'] + (calls + USEC + digits + post)
  {
    assert line[..8] == CMDSTAT;
    assert line[8..] == name + [':'] + (calls + USEC + digits + post);
  }

  /** One printed Commandstats line. */
  datatype Stat = Stat(name: string, calls: string, usecs: nat, post: string)

  predicate Printable(st: Stat) {
    ':' !in st.name && LastUsec(st.post).None? && (st.post == "" || !IsDigit(st.post[0])) && st.usecs < TWO_64
  }

  function PrintStat(st: Stat): string { "cmdstat_" + st.name + ":" + st.calls + "usec=" + Itoa(st.usecs) + st.post }

  function PrintStats(sts: seq<Stat>): (lines: seq<string>)
    ensures |lines| == |sts|
  {
    seq(|sts|, i requires 0 <= i < |sts| => PrintStat(sts[i]))
  }

  function TimeFor(cmd: string): Stat -> int {
    (st: Stat) => if ValidName(st.name) && Counted(st.name, cmd) then st.usecs else 0
  }

  /** The total over printed lines is the sum over those of the command and its sub-commands, less the
      ones whose names the pattern does not match. */
  lemma {:induction false} PrintedTotal(sts: seq<Stat>, cmd: string)
    requires forall i :: 0 <= i < |sts| ==> Printable(sts[i])
    ensures TotalTime(PrintStats(sts), cmd) == SumBy(sts, TimeFor(cmd))
  {
    if |sts| != 0 {
      var n := |sts| - 1;
      var st := sts[n];
      PrintedTotal(sts[..n], cmd);
      PrintedLineMatches(st.name, st.calls, st.usecs, st.post);
      hide LineMatch, TimeOn, LastUsec, PrintStat;
      assert PrintStats(sts)[..n] == PrintStats(sts[..n]);
      PrintedTime(st, cmd);
    }
  }

  lemma PrintedTime(st: Stat, cmd: string)
    requires Printable(st)
    ensures TimeIf(CountedFor(cmd))(PrintStat(st)) == TimeFor(cmd)(st)
  {
    PrintedLineMatches(st.name, st.calls, st.usecs, st.post);
    hide LineMatch, TimeOn, LastUsec, ValidName, Counted;
  }

  /** A command whose name has any other character has a total of 0, over any lines. */
  lemma UnmatchedTotal(lines: seq<string>, cmd: string)
    requires cmd != "" && !ValidName(cmd)
    ensures TotalTime(lines, cmd) == 0
  {
    forall line: string ensures TimeIf(CountedFor(cmd))(line) == 0 {
      NeverCounted(line, cmd);
    }
    SumByZero(lines, TimeIf(CountedFor(cmd)));
  }

  /** A matched name that is counted for a command is made of the command's characters and more. */
  lemma CountedIsValid(name: string, cmd: string)
    requires ValidName(name)
    ensures Counted(name, cmd) ==> cmd == "" || ValidName(cmd)
  {
    if Counted(name, cmd) {
      forall i | 0 <= i < |cmd| ensures NameChar(cmd[i]) {
        assert name[i] == (cmd + "|")[i];
      }
    }
  }

  lemma NeverCounted(line: string, cmd: string)
    requires cmd != "" && !ValidName(cmd)
    ensures !NameOn(line, CountedFor(cmd))
  {
    hide LastUsec, Counted;
    var m := LineMatch(line);
    if m.Some? {
      CountedIsValid(m.value.0, cmd);
    }
  }

  /** Such as `georadius_ro`, whatever time its line gives. */
  lemma UnderscoreUnmatched(calls: string, usecs: nat, post: string)
    ensures TotalTime([PrintStat(Stat("georadius_ro", calls, usecs, post))], "georadius_ro") == 0
  {
    var cmd := "georadius_ro";
    assert !NameChar(cmd[9]);
    UnmatchedTotal([PrintStat(Stat(cmd, calls, usecs, post))], cmd);
  }

  /** The characters of a matched name, and the number that sums are taken modulo. */
  lemma MatchedCharacters(c: char)
    ensures ValidName([c]) <==> c in "abcdefghijklmnopqrstuvwxyzABCDEFGHIJKLMNOPQRSTUVWXYZ0123456789|"
    ensures TWO_64 == 18446744073709551616
  {
    assert ValidName([c]) <==> NameChar([c][0]);
    assert c in "abcdefghijklmnopqrstuvwxyz" <==> 'a' <= c <= 'z' by { LowerCase(c); }
    assert c in "ABCDEFGHIJKLMNOPQRSTUVWXYZ" <==> 'A' <= c <= 'Z' by { UpperCase(c); }
  }

  lemma LowerCase(c: char)
    ensures c in "abcdefghijklmnopqrstuvwxyz" <==> 'a' <= c <= 'z'
  {
  }

  lemma UpperCase(c: char)
    ensures c in "ABCDEFGHIJKLMNOPQRSTUVWXYZ" <==> 'A' <= c <= 'Z'
  {
  }
}
