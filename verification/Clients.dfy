/** CLIENT LIST (`clients.go`): parsing its lines, and the one `connected_client_info` sample of each,
    whose labels differ from client to client. */
module Clients {
  import opened Wrappers
  import opened Text
  import opened Sums
  import opened FieldText
  import opened Addresses
  import opened Descriptions

  const NO_CLIENT := ClientInfo("", "", "", "", "", "", "", "")

  // ---------- one line ----------

  /** `\S`. */
  predicate NoBlank(c: char) { c !in {' ', '\t', '\n', '\r', '\U{000C}'} }

  /** `^id=\d+ addr=\S+`. */
  predicate ClientLine(line: string) {
    "id=" <= line
    && var rest := line[3..];
       var n := DigitsLength(rest);
       n > 0 && " addr=" <= rest[n..] && |rest| > n + 6 && NoBlank(rest[n + 6])
  }

  /** What one `key=value` part makes of the client; None when it makes the line unusable. Of the
      fields that are no labels only the ages can do that. */
  function SetField(info: ClientInfo, part: string): Option<ClientInfo> {
    var v := Split(part, '=');
    if |v| != 2 then None else SetValue(info, v[0], v[1])
  }

  function SetValue(info: ClientInfo, key: string, value: string): Option<ClientInfo> {
    match key
    case "id" => Some(info.(id := value))
    case "name" => Some(info.(name := value))
    case "user" => Some(info.(user := value))
    case "flags" => Some(info.(flags := value))
    case "db" => Some(info.(db := value))
    case "resp" => Some(info.(resp := value))
    case "age" => if ParseInt64(value).Valid? then Some(info) else None
    case "idle" => if ParseInt64(value).Valid? then Some(info) else None
    case "addr" =>
      (match HostPort(value)
       case None => None
       case Some((host, port)) => Some(info.(host := host, port := port)))
    case _ => Some(info)
  }

  function FromParts(parts: seq<string>): Option<ClientInfo> {
    if |parts| == 0 then Some(NO_CLIENT)
    else
      match FromParts(parts[..|parts| - 1])
      case None => None
      case Some(info) => SetField(info, parts[|parts| - 1])
  }

  function ParsedClient(line: string): Option<ClientInfo> {
    if !ClientLine(line) then None else FromParts(Split(line, ' '))
  }

  /** The field loop of `parseClientListString`. */
  method ParseFields(parts: seq<string>) returns (client: Option<ClientInfo>)
    ensures client == FromParts(parts)
  {
    hide SetField;
    var info := NO_CLIENT;
    for i := 0 to |parts|
      invariant FromParts(parts[..i]) == Some(info)
    {
      assert parts[..i + 1][..i] == parts[..i];
      var next := ApplyField(info, parts[i]);
      if next.None? {
        FromPartsFailed(parts, i + 1);
        return None;
      }
      info := next.value;
    }
    assert parts[..|parts|] == parts;
    client := Some(info);
  }

  method ApplyField(before: ClientInfo, part: string) returns (r: Option<ClientInfo>)
    ensures r == SetField(before, part)
  {
    hide Split, HostPort;
    var info := before;
    var v := Split(part, '=');
    if |v| != 2 {
      return None;
    }
    match v[0] {
      case "id" => info := info.(id := v[1]);
      case "name" => info := info.(name := v[1]);
      case "user" => info := info.(user := v[1]);
      case "flags" => info := info.(flags := v[1]);
      case "db" => info := info.(db := v[1]);
      case "resp" => info := info.(resp := v[1]);
      case "age" =>
        if !ParseInt64(v[1]).Valid? {
          return None;
        }
      case "idle" =>
        if !ParseInt64(v[1]).Valid? {
          return None;
        }
      case "addr" =>
        var hostPort := HostPort(v[1]);
        if hostPort.None? {
          return None;
        }
        info := info.(host := hostPort.value.0, port := hostPort.value.1);
      case _ =>
    }
    r := Some(info);
  }

  lemma {:induction false} FromPartsFailed(parts: seq<string>, i: nat)
    requires i <= |parts| && FromParts(parts[..i]).None?
    ensures FromParts(parts).None?
    decreases |parts|
  {
    hide SetField;
    if i == |parts| {
      assert parts[..i] == parts;
    } else {
      assert parts[..|parts| - 1][..i] == parts[..i];
      FromPartsFailed(parts[..|parts| - 1], i);
    }
  }

  /** `parseClientListString`, as far as its fields become labels. */
  method ParseClientListString(line: string) returns (client: Option<ClientInfo>)
    ensures client == ParsedClient(line)
  {
    if !ClientLine(line) {
      return None;
    }
    client := ParseFields(Split(line, ' '));
  }

  // ---------- what a line says, field by field ----------

  /** The part is usable, whatever came before it. */
  predicate Usable(part: string) {
    var v := Split(part, '=');
    |v| == 2 && UsableValue(v[0], v[1])
  }

  predicate UsableValue(key: string, value: string) {
    && (key == "age" || key == "idle" ==> ParseInt64(value).Valid?)
    && (key == "addr" ==> ':' in value)
  }

  function ClientOf(value: string -> string): ClientInfo {
    var (host, port) := GetOr(HostPort(value("addr")), ("", ""));
    ClientInfo(value("id"), value("name"), value("flags"), value("db"), host, port, value("user"), value("resp"))
  }

  function LastOf(parts: seq<string>): string -> string { key => LastValue(parts, key) }

  lemma {:induction false} FieldByField(parts: seq<string>)
    ensures FromParts(parts)
         == if forall i :: 0 <= i < |parts| ==> Usable(parts[i]) then Some(ClientOf(LastOf(parts))) else None
  {
    hide Usable, SetField, LastValue, ClientOf;
    if |parts| == 0 {
      NoFields(parts);
    } else {
      FieldByField(parts[..|parts| - 1]);
      OneMoreField(parts);
      UsableSets(ClientOf(LastOf(parts[..|parts| - 1])), parts[|parts| - 1]);
    }
  }

  lemma NoFields(parts: seq<string>)
    requires |parts| == 0
    ensures ClientOf(LastOf(parts)) == NO_CLIENT
  {
    HostPortRebuilds("");
  }

  lemma UsableSets(info: ClientInfo, part: string)
    ensures Usable(part) <==> SetField(info, part).Some?
  {
    hide Split, HostPort, ParseInt64;
    var v := Split(part, '=');
    if |v| == 2 {
      HostPortRebuilds(v[1]);
    }
  }

  lemma OneMoreField(parts: seq<string>)
    requires |parts| > 0
    ensures Usable(parts[|parts| - 1]) ==>
              SetField(ClientOf(LastOf(parts[..|parts| - 1])), parts[|parts| - 1]) == Some(ClientOf(LastOf(parts)))
  {
    hide Split, HostPort, ParseInt64;
    var v := Split(parts[|parts| - 1], '=');
    if |v| == 2 {
      HostPortRebuilds(v[1]);
    }
  }

  // ---------- the round trip ----------

  /** A line starts as the pattern demands. */
  lemma PrintedLine(id: string, addr: string, rest: string)
    requires id != "" && AllDigits(id) && addr != "" && Plain(addr)
    ensures ClientLine("id=" + id + " addr=" + addr + rest)
  {
    var line := "id=" + id + " addr=" + addr + rest;
    var tail := " addr=" + addr + rest;
    assert line[3..] == id + tail;
    DigitsThen(id, tail);
    assert (id + tail)[|id|..] == tail;
    assert (id + tail)[|id| + 6] == addr[0];
  }

  /** The line is an id of digits, an address that starts with `c`, which is no blank, and the rest. */
  ghost predicate Starts(line: string, id: string, c: char, rest: string) {
    id != "" && AllDigits(id) && c !in " \t\n\r\U{000C}" && line == "id=" + id + " addr=" + [c] + rest
  }

  lemma ClientLineIff(line: string)
    ensures ClientLine(line) <==> exists id: string, c: char, rest: string :: Starts(line, id, c, rest)
  {
    if ClientLine(line) {
      StartOf(line);
    } else if id: string, c: char, rest: string :| Starts(line, id, c, rest) {
      StartMatches(line, id, c, rest);
    }
  }

  lemma StartOf(line: string)
    requires ClientLine(line)
    ensures exists id: string, c: char, rest: string :: Starts(line, id, c, rest)
  {
    var n := DigitsLength(line[3..]);
    var id, c, rest := line[3..][..n], line[n + 9], line[n + 10..];
    BlankIff(c);
    Rebuilt(line, "id=", n, " addr=");
    hide AllDigits, NoBlank;
    assert Starts(line, id, c, rest);
  }

  lemma Rebuilt(line: string, p: string, n: nat, q: string)
    requires |p| + n + |q| < |line| && p <= line && q <= line[|p|..][n..]
    ensures var k := |p| + n + |q|; line == p + line[|p|..][..n] + q + [line[k]] + line[k + 1..]
  {
    var tail := line[|p|..];
    assert line == p + tail && tail == tail[..n] + tail[n..];
    assert tail[n..] == q + line[|p| + n + |q|..];
  }

  lemma BlankIff(c: char)
    ensures NoBlank(c) <==> c !in " \t\n\r\U{000C}"
  {
  }

  lemma StartMatches(line: string, id: string, c: char, rest: string)
    requires Starts(line, id, c, rest)
    ensures ClientLine(line)
  {
    var tail := " addr=" + [c] + rest;
    assert line[3..] == id + tail;
    DigitsThen(id, tail);
    assert (id + tail)[|id|..] == tail;
    assert (id + tail)[|id| + 6] == c;
  }

  lemma JoinTwo(a: string, b: string, rest: seq<string>)
    ensures exists tail: string :: Join([a, b] + rest, ' ') == a + " " + b + tail
  {
    var parts := [a, b] + rest;
    assert parts[1..] == [b] + rest && parts[1..][1..] == rest;
    var tail := if rest == [] then "" else " " + Join(rest, ' ');
    assert Join(parts[1..], ' ') == b + tail;
    assert Join(parts, ' ') == a + " " + b + tail;
  }

  lemma PrintedLineMatches(pairs: seq<(string, string)>)
    requires |pairs| >= 2 && AllPlain(pairs)
    requires pairs[0].0 == "id" && pairs[0].1 != "" && AllDigits(pairs[0].1)
    requires pairs[1].0 == "addr" && pairs[1].1 != ""
    ensures ClientLine(Join(PrintFields(pairs), ' '))
  {
    hide ClientLine, Join, AllDigits, PrintFields, Plain;
    var parts := PrintFields(pairs);
    PrintedStart(pairs);
    JoinTwo(parts[0], parts[1], parts[2..]);
    var tail :| Join([parts[0], parts[1]] + parts[2..], ' ') == parts[0] + " " + parts[1] + tail;
    PrintedLine(pairs[0].1, pairs[1].1, tail);
    SameStart(pairs[0].1, pairs[1].1, tail);
  }

  lemma PrintedStart(pairs: seq<(string, string)>)
    requires |pairs| >= 2
    ensures var parts := PrintFields(pairs);
            parts == [parts[0], parts[1]] + parts[2..] && parts[0] == PrintField(pairs[0]) && parts[1] == PrintField(pairs[1])
  {
    hide PrintField;
  }

  lemma SameStart(id: string, addr: string, tail: string)
    ensures PrintField(("id", id)) + " " + PrintField(("addr", addr)) + tail == "id=" + id + " addr=" + addr + tail
  {
  }

  /** What a server prints about a client. */
  function FieldsShown(c: ClientInfo, age: nat, idle: nat): seq<(string, string)> {
    [("id", c.id), ("addr", c.host + ":" + c.port), ("name", c.name), ("age", Itoa(age)), ("idle", Itoa(idle)), ("flags", c.flags),
     ("db", c.db), ("user", c.user), ("resp", c.resp)]
  }

  /** The line gives the client's fields, and others, each once, id and address first. */
  ghost predicate Shows(pairs: seq<(string, string)>, c: ClientInfo, age: nat, idle: nat) {
    && AllPlain(pairs) && DistinctKeys(pairs) && (forall p :: p in FieldsShown(c, age, idle) ==> p in pairs)
    && |pairs| >= 2 && pairs[0] == ("id", c.id) && pairs[1] == ("addr", c.host + ":" + c.port)
  }

  /** A printed client is read back field by field, whatever the order of all but the first two. */
  lemma ClientRead(pairs: seq<(string, string)>, c: ClientInfo, age: nat, idle: nat)
    requires Shows(pairs, c, age, idle) && c.id != "" && AllDigits(c.id) && ':' !in c.port
    requires age <= MAX_INT64 && idle <= MAX_INT64
    ensures ParsedClient(Join(PrintFields(pairs), ' ')) == Some(c)
  {
    hide *;
    AddressShown(pairs, c, age, idle);
    ClientRoundTrip(pairs);
    ShownUsable(pairs, c, age, idle);
    ShownValues(pairs, c, age, idle);
  }

  lemma AddressShown(pairs: seq<(string, string)>, c: ClientInfo, age: nat, idle: nat)
    requires Shows(pairs, c, age, idle)
    ensures |pairs| >= 2 && AllPlain(pairs) && pairs[0] == ("id", c.id)
    ensures pairs[1].0 == "addr" && pairs[1].1 != ""
  {
    hide AllPlain, DistinctKeys, FieldsShown;
  }

  lemma ShownUsable(pairs: seq<(string, string)>, c: ClientInfo, age: nat, idle: nat)
    requires Shows(pairs, c, age, idle) && age <= MAX_INT64 && idle <= MAX_INT64
    ensures forall i :: 0 <= i < |pairs| ==> UsableValue(pairs[i].0, pairs[i].1)
  {
    hide AllPlain, FieldsShown, ParseInt64, Itoa;
    ParsePrinted(age);
    ParsePrinted(idle);
    ShownIn(c, age, idle);
    assert ("age", Itoa(age)) in pairs && ("idle", Itoa(idle)) in pairs;
    assert (c.host + ":" + c.port)[|c.host|] == ':';
  }

  lemma ShownIn(c: ClientInfo, age: nat, idle: nat)
    ensures var shown := FieldsShown(c, age, idle);
            && ("id", c.id) in shown && ("addr", c.host + ":" + c.port) in shown && ("name", c.name) in shown
            && ("age", Itoa(age)) in shown && ("idle", Itoa(idle)) in shown && ("flags", c.flags) in shown
            && ("db", c.db) in shown && ("user", c.user) in shown && ("resp", c.resp) in shown
  {
  }

  lemma ShownValues(pairs: seq<(string, string)>, c: ClientInfo, age: nat, idle: nat)
    requires Shows(pairs, c, age, idle) && ':' !in c.port
    ensures ClientOf(LastPair(pairs)) == c
  {
    hide AllPlain, DistinctKeys, FieldsShown, LastPair, HostPort, Itoa;
    ShownIn(c, age, idle);
    LastPairIs(pairs, "id", c.id);
    LastPairIs(pairs, "addr", c.host + ":" + c.port);
    LastPairIs(pairs, "name", c.name);
    LastPairIs(pairs, "flags", c.flags);
    LastPairIs(pairs, "db", c.db);
    LastPairIs(pairs, "user", c.user);
    LastPairIs(pairs, "resp", c.resp);
    HostPortPrinted(c.host, c.port);
  }

  /** An instance, printed as the server prints it. */
  lemma ClientPrinted()
    ensures Join(PrintFields([("id", "3"), ("addr", "10.0.0.1:50"), ("name", "a")]), ' ') == "id=3 addr=10.0.0.1:50 name=a"
  {
    var parts := PrintFields([("id", "3"), ("addr", "10.0.0.1:50"), ("name", "a")]);
    assert PrintField(("id", "3")) == "id=3" && PrintField(("addr", "10.0.0.1:50")) == "addr=10.0.0.1:50";
    assert PrintField(("name", "a")) == "name=a";
    assert parts == ["id=3", "addr=10.0.0.1:50", "name=a"];
    assert parts[1..] == ["addr=10.0.0.1:50", "name=a"] && parts[1..][1..] == ["name=a"];
    hide PrintFields;
  }

  /** Printing an id, an address and any further fields, in any order and with repetitions, and
      parsing the line gives the last value of each label; it is refused exactly when an age is no
      number or an address has no colon. */
  lemma {:induction false} ClientRoundTrip(pairs: seq<(string, string)>)
    requires |pairs| >= 2 && AllPlain(pairs)
    requires pairs[0].0 == "id" && pairs[0].1 != "" && AllDigits(pairs[0].1)
    requires pairs[1].0 == "addr" && pairs[1].1 != ""
    ensures ParsedClient(Join(PrintFields(pairs), ' '))
         == if forall i :: 0 <= i < |pairs| ==> UsableValue(pairs[i].0, pairs[i].1) then Some(ClientOf(LastPair(pairs))) else None
  {
    hide *;
    var parts := PrintFields(pairs);
    PrintedLineMatches(pairs);
    PrintedUsable(pairs);
    SplitJoin(parts, ' ');
    FieldByField(parts);
    SameValues(pairs);
    ParsedBySplit(Join(parts, ' '), parts);
  }

  lemma ParsedBySplit(line: string, parts: seq<string>)
    requires ClientLine(line) && Split(line, ' ') == parts
    ensures ParsedClient(line) == FromParts(parts)
  {
  }

  lemma PrintedUsable(pairs: seq<(string, string)>)
    requires AllPlain(pairs)
    ensures forall i :: 0 <= i < |pairs| ==> ' ' !in PrintFields(pairs)[i]
    ensures forall i :: 0 <= i < |pairs| ==> (Usable(PrintFields(pairs)[i]) <==> UsableValue(pairs[i].0, pairs[i].1))
  {
    hide UsableValue, Split, PrintField;
    forall i | 0 <= i < |pairs|
      ensures ' ' !in PrintFields(pairs)[i] && (Usable(PrintFields(pairs)[i]) <==> UsableValue(pairs[i].0, pairs[i].1))
    {
      PrintedField(pairs[i]);
    }
  }

  lemma SameValues(pairs: seq<(string, string)>)
    requires AllPlain(pairs)
    ensures ClientOf(LastOf(PrintFields(pairs))) == ClientOf(LastPair(pairs))
  {
    hide LastValue, PrintFields, ClientOf, AllPlain;
    forall key: string ensures LastOf(PrintFields(pairs))(key) == LastPair(pairs)(key) {
      PrintedValues(pairs, key);
    }
    SameClient(LastOf(PrintFields(pairs)), LastPair(pairs));
  }

  lemma SameClient(f: string -> string, g: string -> string)
    requires forall key: string :: f(key) == g(key)
    ensures ClientOf(f) == ClientOf(g)
  {
  }

  // ---------- all lines ----------

  /** What is sent about the client on a line, if it is one. */
  function ClientMetrics(appendRole: bool, role: string, inclPort: bool): string -> seq<Metric> {
    line => match ParsedClient(line)
            case None => []
            case Some(info) => [Labelled(appendRole, role, "connected_client_info", ClientPairs(info, inclPort))]
  }

  /** The `connected_client_info` samples of `parseConnectedClientMetrics`: each client gets its own
      labels and values, however the label sets change from line to line, and none is dropped. */
  method ParseConnectedClients(e: Exporter, input: string, inclPort: bool)
    requires e.View().Coherent()
    modifies e
    ensures e.View().Coherent() && e.instanceRole == old(e.instanceRole)
    ensures e.sent == old(e.sent) + Flat(Split(input, '\n'), ClientMetrics(e.appendRole, e.instanceRole, inclPort))
  {
    var lines := Split(input, '\n');
    ghost var metrics := ClientMetrics(e.appendRole, e.instanceRole, inclPort);
    hide ParsedClient, Flat, Labelled, ClientPairs, Split;
    FlatNone(lines, metrics);
    for i := 0 to |lines|
      invariant e.View().Coherent() && e.instanceRole == old(e.instanceRole)
      invariant e.sent == old(e.sent) + Flat(lines[..i], metrics)
    {
      FlatAppend(old(e.sent), lines, i, metrics);
      var client := ParseClientListString(lines[i]);
      if client.Some? {
        e.RegisterClientInfo(client.value, inclPort);
      }
    }
  }

  lemma FlatNone<T, S>(items: seq<T>, f: T -> seq<S>)
    ensures Flat(items[..0], f) == [] && items[..|items|] == items
  {
  }
}
