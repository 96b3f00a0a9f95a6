/** Addresses in CLIENT LIST (`clients.go`) and CLUSTER NODES (`nodes.go`). */
module Addresses {
  import opened Wrappers
  import opened Text

  // ---------- client addresses ----------

  /** Splits `addr` at its last colon, as `parseClientListString` does; None without a colon. */
  function HostPort(addr: string): Option<(string, string)> {
    var parts := Split(addr, ':');
    if |parts| < 2 then None else Some((Join(parts[..|parts| - 1], ':'), parts[|parts| - 1]))
  }

  lemma {:induction false} JoinLast(parts: seq<string>, sep: char)
    requires |parts| >= 2
    ensures Join(parts, sep) == Join(parts[..|parts| - 1], sep) + [sep] + parts[|parts| - 1]
  {
    var front := parts[..|parts| - 1];
    if |parts| == 2 {
      assert parts[1..] == [parts[1]];
    } else {
      JoinLast(parts[1..], sep);
      assert parts[1..][..|parts| - 2] == front[1..];
    }
  }

  lemma {:induction false} SplitCount(s: string, sep: char)
    ensures |Split(s, sep)| >= 2 <==> sep in s
  {
    if s != "" {
      SplitCount(s[1..], sep);
    }
  }

  /** An address is accepted exactly when it has a colon; then host, colon and port rebuild it, and
      the port has no colon: the colons of an IPv6 host stay with the host. */
  lemma HostPortRebuilds(addr: string)
    ensures HostPort(addr).Some? <==> ':' in addr
    ensures HostPort(addr).Some? ==>
              addr == HostPort(addr).value.0 + ":" + HostPort(addr).value.1 && ':' !in HostPort(addr).value.1
  {
    SplitCount(addr, ':');
    var parts := Split(addr, ':');
    if |parts| >= 2 {
      JoinSplit(addr, ':');
      JoinLast(parts, ':');
    }
  }

  /** Conversely, printing a host and a port without a colon and splitting returns both. */
  lemma HostPortPrinted(host: string, port: string)
    requires ':' !in port
    ensures HostPort(host + ":" + port) == Some((host, port))
  {
    var addr := host + ":" + port;
    assert addr[|host|] == ':';
    HostPortRebuilds(addr);
    var (h, p) := HostPort(addr).value;
    ColonNotAfter(host, port, h, p);
    ColonNotAfter(h, p, host, port);
    assert host == addr[..|host|] == addr[..|h|] == h;
    assert port == addr[|host| + 1..] == addr[|h| + 1..] == p;
  }

  lemma ColonNotAfter(a: string, b: string, c: string, d: string)
    requires a + ":" + b == c + ":" + d
    ensures ':' in b || |c| <= |a|
  {
    assert (c + ":" + d)[|c|] == ':';
    if |c| > |a| {
      assert b[|c| - |a| - 1] == (a + ":" + b)[|c|];
    }
  }

  // ---------- cluster nodes ----------

  function DigitsLength(s: string): (n: nat)
    ensures n <= |s| && AllDigits(s[..n])
  {
    if s == "" || !IsDigit(s[0]) then 0
    else
      var n := DigitsLength(s[1..]);
      assert s[..n + 1] == [s[0]] + s[1..][..n];
      n + 1
  }

  /** Port, cluster port and host name in the text after a colon: digits, `@`, digits, and a host
      name when a comma and more text follow. */
  function PortsAt(s: string): Option<(string, string)> {
    var n := DigitsLength(s);
    if n == 0 || n >= |s| || s[n] != '@' then None
    else
      var rest := s[n + 1..];
      var m := DigitsLength(rest);
      if m == 0 then None
      else Some((s[..n], if m + 1 < |rest| && rest[m] == ',' then rest[m + 1..] else ""))
  }

  datatype Address = Address(ip: string, port: string, hostname: string)

  /** `^(.+):(\d+)@(\d+)(?:,(.+))?`: the ip takes all it can, so the last colon that fits is used.
      The search goes down from position `i`. */
  function AddressBefore(s: string, i: nat): Option<Address>
    requires i <= |s|
  {
    if i <= 1 then None
    else if s[i - 1] == ':' && PortsAt(s[i..]).Some? then
      Some(Address(s[..i - 1], PortsAt(s[i..]).value.0, PortsAt(s[i..]).value.1))
    else AddressBefore(s, i - 1)
  }

  function MatchAddress(s: string): Option<Address> { AddressBefore(s, |s|) }

  /** `strings.Fields`. */
  function Fields(s: string): seq<string> { FieldsAfter("", s) }

  function FieldsAfter(word: string, s: string): seq<string>
    decreases |s|
  {
    if s == "" then (if word == "" then [] else [word])
    else if IsSpace(s[0]) then (if word == "" then [] else [word]) + FieldsAfter("", s[1..])
    else FieldsAfter(word + [s[0]], s[1..])
  }

  /** `parseClusterNodeString`. */
  function ParseClusterNode(node: string, resolveHostname: bool): Option<string> {
    var fields := Fields(node);
    if |fields| < 2 then None
    else
      match MatchAddress(fields[1])
      case None => None
      case Some(a) => Some((if resolveHostname && a.hostname != "" then a.hostname else a.ip) + ":" + a.port)
  }

  /** `getClusterNodes`, from the reply text: the lines that parse, in order. */
  method GetClusterNodes(output: string, resolveHostnames: bool) returns (nodes: seq<string>)
    ensures nodes == ParsedNodes(Split(output, '\n'), resolveHostnames)
  {
    nodes := [];
    var lines := Split(output, '\n');
    hide ParseClusterNode, Split;
    for i := 0 to |lines|
      invariant nodes == ParsedNodes(lines[..i], resolveHostnames)
    {
      assert lines[..i + 1][..i] == lines[..i];
      var node := ParseClusterNode(lines[i], resolveHostnames);
      if node.Some? {
        nodes := nodes + [node.value];
      }
    }
    assert lines[..|lines|] == lines;
  }

  function ParsedNodes(lines: seq<string>, resolveHostnames: bool): seq<string> {
    if |lines| == 0 then []
    else
      ParsedNodes(lines[..|lines| - 1], resolveHostnames)
      + match ParseClusterNode(lines[|lines| - 1], resolveHostnames) case None => [] case Some(node) => [node]
  }

  // ---------- the round trip ----------

  predicate NoSpaceOrAt(s: string) { forall i :: 0 <= i < |s| ==> !IsSpace(s[i]) && s[i] != '@' }

  predicate Word(s: string) { s != "" && forall i :: 0 <= i < |s| ==> !IsSpace(s[i]) }

  function PrintAddress(ip: string, port: string, cport: string, hostname: string): string {
    ip + ":" + port + "@" + cport + (if hostname == "" then "" else "," + hostname)
  }

  lemma {:induction false} DigitsThen(digits: string, rest: string)
    requires AllDigits(digits) && (rest == "" || !IsDigit(rest[0]))
    ensures DigitsLength(digits + rest) == |digits|
  {
    if digits == "" {
      assert digits + rest == rest;
    } else {
      assert (digits + rest)[1..] == digits[1..] + rest;
      DigitsThen(digits[1..], rest);
    }
  }

  lemma PrintedPorts(port: string, cport: string, hostname: string)
    requires AllDigits(port) && port != "" && AllDigits(cport) && cport != ""
    ensures PortsAt(port + "@" + cport + (if hostname == "" then "" else "," + hostname)) == Some((port, hostname))
  {
    var tail := if hostname == "" then "" else "," + hostname;
    var rest := cport + tail;
    var s := port + "@" + cport + tail;
    assert s == port + ("@" + rest);
    DigitsThen(port, "@" + rest);
    assert s[|port| + 1..] == rest;
    DigitsThen(cport, tail);
    assert s[..|port|] == port;
    if hostname != "" {
      assert rest[|cport| + 1..] == hostname;
    }
  }

  /** No text without `@` before its end can hold the ports. */
  lemma NoAtNoPorts(s: string)
    requires '@' !in s
    ensures PortsAt(s).None?
  {
  }

  /** Whatever follows the printed `@`, no colon there starts a match: a match needs an `@` after it. */
  lemma {:induction false} SkipTail(s: string, at: nat, i: nat)
    requires at < i <= |s| && s[at] == '@' && at >= 1
    requires forall k :: at < k < |s| ==> s[k] != '@'
    ensures AddressBefore(s, i) == AddressBefore(s, at + 1)
    decreases i
  {
    if i > at + 1 {
      assert '@' !in s[i..];
      NoAtNoPorts(s[i..]);
      SkipTail(s, at, i - 1);
    }
  }

  /** From just after the `@` down to the port's colon there is no other colon. */
  lemma {:induction false} SkipPort(s: string, colon: nat, i: nat)
    requires 1 <= colon < i <= |s| && s[colon] == ':' && PortsAt(s[colon + 1..]).Some?
    requires forall k :: colon < k < i ==> s[k] != ':'
    ensures AddressBefore(s, i) == AddressBefore(s, colon + 1)
    decreases i
  {
    hide PortsAt;
    if i > colon + 1 {
      SkipPort(s, colon, i - 1);
    }
  }

  lemma PrintedAddress(ip: string, port: string, cport: string, hostname: string)
    requires ip != "" && NoSpaceOrAt(ip) && NoSpaceOrAt(hostname)
    requires AllDigits(port) && port != "" && AllDigits(cport) && cport != ""
    ensures MatchAddress(PrintAddress(ip, port, cport, hostname)) == Some(Address(ip, port, hostname))
  {
    hide PortsAt, PrintAddress;
    var s := PrintAddress(ip, port, cport, hostname);
    var colon, at := |ip|, |ip| + 1 + |port|;
    PrintedLayout(ip, port, cport, hostname);
    PrintedPorts(port, cport, hostname);
    SkipTail(s, at, |s|);
    SkipPort(s, colon, at + 1);
  }

  lemma PrintedLayout(ip: string, port: string, cport: string, hostname: string)
    requires NoSpaceOrAt(ip) && NoSpaceOrAt(hostname) && AllDigits(port) && AllDigits(cport)
    ensures var s, colon, at := PrintAddress(ip, port, cport, hostname), |ip|, |ip| + 1 + |port|;
            && at < |s| && s[colon] == ':' && s[at] == '@' && s[..colon] == ip
            && s[colon + 1..] == port + "@" + cport + (if hostname == "" then "" else "," + hostname)
            && (forall k :: at < k < |s| ==> s[k] != '@')
            && (forall k :: colon < k < at + 1 ==> s[k] != ':')
  {
    hide IsSpace;
    var s, colon, at := PrintAddress(ip, port, cport, hostname), |ip|, |ip| + 1 + |port|;
    var tail := if hostname == "" then "" else "," + hostname;
    forall k | at < k < |s| ensures s[k] != '@' {
      assert s[k] == (cport + tail)[k - at - 1];
    }
    forall k | colon < k < at ensures s[k] != ':' {
      assert s[k] == port[k - colon - 1];
    }
  }

  lemma {:induction false} FieldsWord(word: string, s: string, rest: string)
    requires forall i :: 0 <= i < |s| ==> !IsSpace(s[i])
    ensures FieldsAfter(word, s + rest) == FieldsAfter(word + s, rest)
    decreases |s|
  {
    if s == "" {
      assert s + rest == rest && word + s == word;
    } else {
      assert (s + rest)[1..] == s[1..] + rest;
      FieldsWord(word + [s[0]], s[1..], rest);
      assert word + [s[0]] + s[1..] == word + s;
    }
  }

  lemma FieldsOfLine(id: string, address: string, rest: string)
    requires Word(id) && Word(address)
    ensures |Fields(id + " " + address + " " + rest)| >= 2
    ensures Fields(id + " " + address + " " + rest)[1] == address
  {
    var after := address + " " + rest;
    assert id + " " + address + " " + rest == id + (" " + after);
    FieldsWord("", id, " " + after);
    assert "" + id == id && (" " + after)[1..] == after;
    assert FieldsAfter(id, " " + after) == [id] + FieldsAfter("", after);
    assert after == address + (" " + rest);
    FieldsWord("", address, " " + rest);
    assert "" + address == address && (" " + rest)[1..] == rest;
    assert FieldsAfter(address, " " + rest) == [address] + FieldsAfter("", rest);
  }

  /** Printing a node line and parsing it returns `ip:port`, or `hostname:port` exactly when host
      names are asked for and the node has one; the ip may contain colons. */
  lemma NodeRoundTrip(id: string, ip: string, port: string, cport: string, hostname: string, rest: string, resolve: bool)
    requires Word(id) && ip != "" && NoSpaceOrAt(ip) && NoSpaceOrAt(hostname)
    requires AllDigits(port) && port != "" && AllDigits(cport) && cport != ""
    ensures ParseClusterNode(id + " " + PrintAddress(ip, port, cport, hostname) + " " + rest, resolve)
         == Some((if resolve && hostname != "" then hostname else ip) + ":" + port)
  {
    hide MatchAddress, Fields, DigitsLength;
    PrintedAddress(ip, port, cport, hostname);
    AddressIsWord(ip, port, cport, hostname);
    FieldsOfLine(id, PrintAddress(ip, port, cport, hostname), rest);
  }

  lemma AddressIsWord(ip: string, port: string, cport: string, hostname: string)
    requires NoSpaceOrAt(ip) && NoSpaceOrAt(hostname) && AllDigits(port) && AllDigits(cport)
    ensures Word(PrintAddress(ip, port, cport, hostname))
  {
    forall c: char | IsDigit(c) ensures !IsSpace(c) {
    }
  }
}
