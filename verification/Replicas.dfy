/** The connected replicas of a master (`parseConnectedSlaveString` in `info.go`): printed as numbered
    Replication fields and interpreted, each one's offset and lag appear under its own address. */
module Replicas {
  import opened Wrappers
  import opened Text
  import opened Sums
  import opened Metrics
  import opened FieldText
  import opened Info
  import opened InfoText

  /** A replica as INFO describes it; servers before Redis 3.0 give no lag. */
  datatype Replica = Replica(ip: string, port: string, state: string, offset: string, lag: Option<string>)

  function FieldsOf(r: Replica): seq<(string, string)> {
    [("ip", r.ip), ("port", r.port), ("state", r.state), ("offset", r.offset)]
    + match r.lag case None => [] case Some(lag) => [("lag", lag)]
  }

  predicate OneField(s: string) { Plain(s) && ',' !in s }

  ghost predicate Printable(r: Replica) {
    && OneField(r.ip) && OneField(r.port) && OneField(r.state) && OneField(r.offset)
    && (r.lag.Some? ==> OneField(r.lag.value))
  }

  /** What is to be said about a replica: nothing when a number cannot be read. */
  function ReplicaSamples(env: Env): Replica -> seq<Sample> {
    (r: Replica) =>
      var labels := [r.ip, r.port, r.state];
      match env.parse(r.offset)
      case None => []
      case Some(offset) =>
        match r.lag
        case None => [Sample("connected_slave_offset_bytes", offset, labels)]
        case Some(text) =>
          match env.parse(text)
          case None => []
          case Some(lag) =>
            [Sample("connected_slave_offset_bytes", offset, labels)]
            + if lag > -1.0 then [Sample("connected_slave_lag_seconds", lag, labels)] else []
  }

  function Name(i: nat): string { SLAVE + Itoa(i) }

  /** Line `i`, the fields in the order of `pairs`. */
  function ReplicaLine(i: nat, pairs: seq<(string, string)>): string { Name(i) + ":" + Join(PrintFields(pairs), ',') }

  function PrintReplicas(orders: seq<seq<(string, string)>>): (lines: seq<string>)
    ensures |lines| == |orders|
  {
    seq(|orders|, i requires 0 <= i < |orders| => ReplicaLine(i, orders[i]))
  }

  /** Each replica's fields in some order. */
  ghost predicate SomeOrders(rs: seq<Replica>, orders: seq<seq<(string, string)>>) {
    |orders| == |rs| && forall i :: 0 <= i < |rs| ==> Printable(rs[i]) && Reordered(orders[i], FieldsOf(rs[i]))
  }

  // ---------- one line's text ----------

  lemma PrintedPairs(r: Replica, pairs: seq<(string, string)>)
    requires Printable(r) && Reordered(pairs, FieldsOf(r))
    ensures forall i :: 0 <= i < |pairs| ==> Plain(pairs[i].0) && ',' !in pairs[i].0 && OneField(pairs[i].1)
    ensures AllPlain(pairs) && pairs != []
  {
    forall i | 0 <= i < |pairs| ensures Plain(pairs[i].0) && ',' !in pairs[i].0 && OneField(pairs[i].1) {
      assert pairs[i] in pairs;
      assert pairs[i] in FieldsOf(r);
    }
    assert FieldsOf(r)[0] in pairs;
  }

  lemma PrintedParts(r: Replica, pairs: seq<(string, string)>)
    requires Printable(r) && Reordered(pairs, FieldsOf(r))
    ensures Split(Join(PrintFields(pairs), ','), ',') == PrintFields(pairs)
    ensures AllOneEquals(PrintFields(pairs))
  {
    hide Printable, Reordered, Plain;
    PrintedPairs(r, pairs);
    forall i | 0 <= i < |pairs| ensures ',' !in PrintFields(pairs)[i] && |Split(PrintFields(pairs)[i], '=')| == 2 {
      PrintedField(pairs[i]);
      assert ',' !in pairs[i].0 + "=" + pairs[i].1;
    }
    hide Split;
    SplitJoin(PrintFields(pairs), ',');
  }

  /** A field of the line has the replica's value, whatever the order. */
  lemma PrintedValue(r: Replica, pairs: seq<(string, string)>, name: string, value: string)
    requires Printable(r) && Reordered(pairs, FieldsOf(r)) && (name, value) in FieldsOf(r)
    ensures LastValue(PrintFields(pairs), name) == value && HasField(PrintFields(pairs), name)
  {
    hide Printable, Plain, FieldsOf, Split;
    PrintedPairs(r, pairs);
    PrintedValues(pairs, name);
    LastPairIs(pairs, name, value);
    var i :| 0 <= i < |pairs| && pairs[i] == (name, value);
    PrintedGives(pairs[i], name);
    assert PrintFields(pairs)[i] == PrintField(pairs[i]);
  }

  lemma NoLag(r: Replica, pairs: seq<(string, string)>)
    requires Printable(r) && Reordered(pairs, FieldsOf(r)) && r.lag.None?
    ensures !HasField(PrintFields(pairs), "lag")
  {
    hide Printable, Plain, Split;
    PrintedPairs(r, pairs);
    forall i | 0 <= i < |pairs| ensures !Gives(PrintFields(pairs)[i], "lag") {
      assert pairs[i] in FieldsOf(r);
      assert |"ip"| == 2 && |"port"| == 4 && |"state"| == 5 && |"offset"| == 6;
      PrintedGives(pairs[i], "lag");
    }
  }

  lemma PrintedFields(r: Replica, pairs: seq<(string, string)>)
    requires Printable(r) && Reordered(pairs, FieldsOf(r))
    ensures var parts := PrintFields(pairs);
            && LastValue(parts, "ip") == r.ip && LastValue(parts, "port") == r.port && LastValue(parts, "state") == r.state
            && LastValue(parts, "offset") == r.offset
            && (HasField(parts, "lag") <==> r.lag.Some?) && (r.lag.Some? ==> LastValue(parts, "lag") == r.lag.value)
  {
    hide Printable, Reordered, LastValue, HasField;
    assert FieldsOf(r)[0] == ("ip", r.ip) && FieldsOf(r)[1] == ("port", r.port);
    assert FieldsOf(r)[2] == ("state", r.state) && FieldsOf(r)[3] == ("offset", r.offset);
    PrintedValue(r, pairs, "ip", r.ip);
    PrintedValue(r, pairs, "port", r.port);
    PrintedValue(r, pairs, "state", r.state);
    PrintedValue(r, pairs, "offset", r.offset);
    if r.lag.Some? {
      assert FieldsOf(r)[4] == ("lag", r.lag.value);
      PrintedValue(r, pairs, "lag", r.lag.value);
    } else {
      NoLag(r, pairs);
    }
  }

  // ---------- one line interpreted ----------

  lemma NameShape(i: nat)
    ensures SLAVE <= Name(i) && |Name(i)| > 5 && IsDigit(Name(i)[5])
    ensures Name(i)[0] == 's' && ':' !in Name(i) && '\n' !in Name(i)
  {
    assert IsDigit(Itoa(i)[0]);
    forall k | 0 <= k < |Name(i)| ensures Name(i)[k] != ':' && Name(i)[k] != '\n' {
      assert k < 5 || IsDigit(Name(i)[k]);
    }
  }

  /** The other Replication patterns do not match a replica's name. */
  lemma NotAMaster(i: nat)
    ensures forall suffix: string :: !MasterField(Name(i), suffix)
    ensures !DirectField(Name(i))
  {
    hide Name, SLAVE;
    NameShape(i);
    assert "master"[0] == 'm';
    assert SLAVE_OFFSET[5] == '_';
    PrefixAgrees(SLAVE_OFFSET, Name(i), 5);
  }

  lemma ClassifyReplica(i: nat, text: string)
    requires text != "" && !IsSpace(text[|text| - 1])
    ensures Classify(Name(i) + ":" + text) == Field(Name(i), text)
  {
    hide Name;
    NameShape(i);
    ClassifyField(Name(i), text);
  }

  /** A printed list of fields is not empty and has white space nowhere. */
  lemma {:induction false} JoinedPlain(pairs: seq<(string, string)>)
    requires AllPlain(pairs) && pairs != []
    ensures var text := Join(PrintFields(pairs), ',');
            text != "" && forall k :: 0 <= k < |text| ==> !IsSpace(text[k])
  {
    var parts := PrintFields(pairs);
    assert parts[0] == pairs[0].0 + "=" + pairs[0].1;
    if |pairs| > 1 {
      JoinedPlain(pairs[1..]);
      assert parts[1..] == PrintFields(pairs[1..]);
    }
  }

  lemma SaidAboutReplica(env: Env, i: nat, r: Replica, pairs: seq<(string, string)>)
    requires Printable(r) && Reordered(pairs, FieldsOf(r))
    ensures SlaveSamples(env, Name(i), Join(PrintFields(pairs), ',')) == ReplicaSamples(env)(r)
  {
    hide Printable, Reordered, SlaveSamples, AllOneEquals, LastValue, HasField, Split, Join, PrintFields, Name, SLAVE;
    var text, parts := Join(PrintFields(pairs), ','), PrintFields(pairs);
    SlaveLaw(env, Name(i), text);
    PrintedParts(r, pairs);
    PrintedFields(r, pairs);
    NameShape(i);
    var samples := SlaveSamples(env, Name(i), text);
    if samples != [] {
      assert samples == [samples[0]] + samples[1..];
    }
  }

  /** A replica's line, its fields in any order, emits its samples under its own ip, port and state. */
  lemma ReplicaStep(env: Env, s: State, i: nat, r: Replica, pairs: seq<(string, string)>)
    requires s.section == REPLICATION && Printable(r) && Reordered(pairs, FieldsOf(r))
    ensures var t := Step(env, s, ReplicaLine(i, pairs));
            t.section == REPLICATION && t.samples == s.samples + ReplicaSamples(env)(r)
  {
    hide Printable, Reordered, SlaveSamples, Join, PrintFields, Name, Classify, MasterField, DirectField, REPLICATION, AllPlain;
    var text := Join(PrintFields(pairs), ',');
    PrintedPairs(r, pairs);
    JoinedPlain(pairs);
    ClassifyReplica(i, text);
    NotAMaster(i);
    SaidAboutReplica(env, i, r, pairs);
    assert ReplicaLine(i, pairs) == Name(i) + ":" + text;
  }

  // ---------- all replicas ----------

  lemma {:induction false} ReplicasPrinted(env: Env, s: State, rs: seq<Replica>, orders: seq<seq<(string, string)>>)
    requires s.section == REPLICATION && SomeOrders(rs, orders)
    ensures var t := Interpret(env, s, PrintReplicas(orders));
            t.section == REPLICATION && t.samples == s.samples + Flat(rs, ReplicaSamples(env))
  {
    hide Step, Printable, Reordered, ReplicaLine, ReplicaSamples, REPLICATION;
    if |rs| != 0 {
      var n := |rs| - 1;
      assert PrintReplicas(orders)[..n] == PrintReplicas(orders[..n]);
      ReplicasPrinted(env, s, rs[..n], orders[..n]);
      ReplicaStep(env, Interpret(env, s, PrintReplicas(orders[..n])), n, rs[n], orders[n]);
    }
  }

  lemma PrintedReplicaLines(rs: seq<Replica>, orders: seq<seq<(string, string)>>)
    requires SomeOrders(rs, orders)
    ensures PrintableLines(PrintReplicas(orders))
  {
    hide Printable, Reordered, Join, PrintFields, Name, AllPlain, Classify, MasterField, DirectField, HasSuffix, SLAVE_OFFSET;
    forall i | 0 <= i < |orders| ensures '\n' !in ReplicaLine(i, orders[i]) && Safe(ReplicaLine(i, orders[i])) {
      PrintedPairs(rs[i], orders[i]);
      JoinedPlain(orders[i]);
      NameShape(i);
      NotAMaster(i);
      ClassifyReplica(i, Join(PrintFields(orders[i]), ','));
    }
  }

  /** Printing any list of replicas as a Replication section, each one's fields in any order, with
      carriage returns or without, and interpreting the text emits each replica's offset and lag, in
      order, under its own ip, port and state. */
  lemma ReplicasRoundTrip(env: Env, rs: seq<Replica>, orders: seq<seq<(string, string)>>, ended: seq<string>)
    requires SomeOrders(rs, orders) && Ended([HeaderOf(REPLICATION)] + PrintReplicas(orders), ended)
    ensures var r := Scrape(env, INITIAL, Split(Join(ended, '\n'), '\n'));
            r.Some? && r.value.samples == Flat(rs, ReplicaSamples(env))
  {
    hide *;
    SectionNames();
    PrintedReplicaLines(rs, orders);
    SectionText(env, REPLICATION, PrintReplicas(orders), ended);
    SectionStart(REPLICATION);
    ReplicasPrinted(env, INITIAL.(section := REPLICATION), rs, orders);
  }
}
