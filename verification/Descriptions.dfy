/** The cache of metric descriptions (`metrics.go`), filled by the constructor in `exporter.go` and
    rebuilt when a metric's label set changes between scrapes. */
module Descriptions {
  import opened Wrappers
  import opened Sums

  /** A description: the metric's name and label names, the part of it that samples must match. */
  datatype Desc = Desc(name: string, labels: seq<string>)

  /** A metric as sent on the channel. */
  datatype Metric = Metric(desc: Desc, labelValues: seq<string>)

  datatype Outcome = Sent(metric: Metric) | Dropped | Panicked

  const ROLE_LABEL := "instance_role"

  /** Collected before the instance role is known, and so never labelled with it. */
  predicate BeforeRole(name: string) {
    name == "exporter_last_scrape_connect_time_seconds" || name == "exporter_last_scrape_ping_time_seconds"
  }

  datatype Cache = Cache(appendRole: bool, descs: map<string, Desc>, labels: map<string, seq<string>>) {

    predicate Roled(name: string) { appendRole && !BeforeRole(name) }

    function Effective(name: string, ls: seq<string>): seq<string> {
      if Roled(name) then ls + [ROLE_LABEL] else ls
    }

    /** Each name's recorded labels are those its description was built with. */
    ghost predicate Coherent() {
      && descs.Keys == labels.Keys
      && forall n :: n in descs ==> descs[n] == Desc(n, labels[n])
    }

    /** `createMetricDescription`. */
    function Create(name: string, ls: seq<string>): Cache {
      var effective := Effective(name, ls);
      if name in descs && (effective == [] || (if name in labels then labels[name] else []) == effective) then this
      else this.(descs := descs[name := Desc(name, effective)], labels := labels[name := effective])
    }

    /** The library's constructor takes a sample exactly when the label counts match. */
    function Offer(name: string, values: seq<string>, mismatch: Outcome): Outcome {
      if name !in descs then Panicked
      else if |descs[name].labels| == |values| then Sent(Metric(descs[name], values))
      else mismatch
    }
  }

  /** A call on the exporter, as far as the cache is concerned. */
  datatype Op =
    | CreateOp(name: string, labels: seq<string>)
    | RegisterOp(name: string, values: seq<string>)   // registerConstMetric
    | MustRegisterOp(name: string, values: seq<string>)   // registerConstSummary, registerConstHistogram

  /** The cache after a call. */
  function Step(c: Cache, op: Op): Cache {
    match op
    case CreateOp(name, labels) => c.Create(name, labels)
    case RegisterOp(name, values) => if values == [] then c.Create(name, []) else c
    case MustRegisterOp(_, _) => c
  }

  function Run(c: Cache, ops: seq<Op>): Cache {
    if |ops| == 0 then c else Step(Run(c, ops[..|ops| - 1]), ops[|ops| - 1])
  }

  /** What becomes of a registered value. */
  function Result(c: Cache, role: string, op: Op): Outcome
    requires !op.CreateOp?
  {
    match op
    case RegisterOp(name, values) =>
      Step(c, op).Offer(name, if c.Roled(name) then values + [role] else values, Dropped)
    case MustRegisterOp(name, values) =>
      c.Offer(name, if c.appendRole then values + [role] else values, Panicked)
  }

  /** The state of the constructor: the role label is appended to every entry of the table. */
  function Constructed(appendRole: bool, table: map<string, seq<string>>): Cache {
    var labels := map n | n in table :: if appendRole then table[n] + [ROLE_LABEL] else table[n];
    Cache(appendRole, map n | n in table :: Desc(n, labels[n]), labels)
  }

  /** The entries of the table under the given names. */
  function Part(table: map<string, seq<string>>, names: seq<string>): map<string, seq<string>> {
    map n | n in table && n in names :: table[n]
  }

  lemma ConstructedNothing(appendRole: bool, table: map<string, seq<string>>)
    ensures forall names: seq<string> :: Constructed(appendRole, Part(table, names[..0])) == Cache(appendRole, map[], map[])
  {
  }

  lemma ConstructedStep(appendRole: bool, table: map<string, seq<string>>, names: seq<string>, i: nat)
    requires i < |names| && names[i] in table
    ensures var before := Constructed(appendRole, Part(table, names[..i]));
            var labels := if appendRole then table[names[i]] + [ROLE_LABEL] else table[names[i]];
            Constructed(appendRole, Part(table, names[..i + 1]))
            == before.(descs := before.descs[names[i] := Desc(names[i], labels)], labels := before.labels[names[i] := labels])
  {
    hide Part, Constructed;
    PartStep(table, names, i);
    ConstructedWith(appendRole, Part(table, names[..i]), names[i], table[names[i]]);
  }

  lemma PartStep(table: map<string, seq<string>>, names: seq<string>, i: nat)
    requires i < |names| && names[i] in table
    ensures Part(table, names[..i + 1]) == Part(table, names[..i])[names[i] := table[names[i]]]
  {
    assert names[..i + 1] == names[..i] + [names[i]];
  }

  lemma ConstructedWith(appendRole: bool, table: map<string, seq<string>>, name: string, ls: seq<string>)
    ensures var before, labels := Constructed(appendRole, table), if appendRole then ls + [ROLE_LABEL] else ls;
            Constructed(appendRole, table[name := ls])
            == before.(descs := before.descs[name := Desc(name, labels)], labels := before.labels[name := labels])
  {
  }

  lemma PartAll(table: map<string, seq<string>>, names: seq<string>)
    requires forall n :: n in table.Keys ==> n in names
    ensures Part(table, names[..|names|]) == table
  {
    assert names[..|names|] == names;
  }

  // ---------- coherence over every run ----------

  /** From the constructed state on, after any sequence of calls: the cache is coherent, and no
      name that had a description loses it. */
  lemma {:induction false} RunKeepsCoherent(c: Cache, ops: seq<Op>)
    requires c.Coherent()
    ensures Run(c, ops).Coherent() && Run(c, ops).appendRole == c.appendRole
    ensures c.descs.Keys <= Run(c, ops).descs.Keys
  {
    if |ops| != 0 {
      RunKeepsCoherent(c, ops[..|ops| - 1]);
    }
  }

  lemma ConstructedCoherent(appendRole: bool, table: map<string, seq<string>>)
    ensures Constructed(appendRole, table).Coherent()
    ensures Constructed(appendRole, table).descs.Keys == table.Keys
  {
  }

  /** The labels recorded for one name. */
  function LabelsOf(c: Cache, name: string): Option<seq<string>> {
    if name in c.labels then Some(c.labels[name]) else None
  }

  /** The label set a call asks for: by creating, or by registering without values. */
  function Asked(c: Cache, name: string, op: Op): Option<seq<string>> {
    match op
    case CreateOp(n, labels) => if n == name then Some(c.Effective(name, labels)) else None
    case RegisterOp(n, values) => if n == name && values == [] then Some(c.Effective(name, [])) else None
    case MustRegisterOp(_, _) => None
  }

  /** Reference: the last label set asked for under the name, an empty one counting only for a
      name that has none yet. */
  function LastAsked(c: Cache, name: string, ops: seq<Op>): Option<seq<string>> {
    if |ops| == 0 then LabelsOf(c, name)
    else
      var before := LastAsked(c, name, ops[..|ops| - 1]);
      match Asked(c, name, ops[|ops| - 1])
      case None => before
      case Some(labels) => if labels == [] && before.Some? then before else Some(labels)
  }

  /** A name's labels depend on the calls that name it, and on nothing else. */
  lemma {:induction false} LabelsAreLastAsked(c: Cache, name: string, ops: seq<Op>)
    requires c.Coherent()
    ensures LabelsOf(Run(c, ops), name) == LastAsked(c, name, ops)
  {
    hide Step, Asked, LabelsOf;
    if |ops| != 0 {
      var before, op := Run(c, ops[..|ops| - 1]), ops[|ops| - 1];
      LabelsAreLastAsked(c, name, ops[..|ops| - 1]);
      RunKeepsCoherent(c, ops[..|ops| - 1]);
      LabelsAfterStep(before, name, op);
      AskedByRole(c, before, name, op);
    }
  }

  lemma LabelsAfterStep(c: Cache, name: string, op: Op)
    requires c.Coherent()
    ensures LabelsOf(Step(c, op), name)
         == match Asked(c, name, op)
            case None => LabelsOf(c, name)
            case Some(labels) => if labels == [] && LabelsOf(c, name).Some? then LabelsOf(c, name) else Some(labels)
  {
  }

  lemma AskedByRole(a: Cache, b: Cache, name: string, op: Op)
    requires a.appendRole == b.appendRole
    ensures Asked(a, name, op) == Asked(b, name, op)
  {
  }

  // ---------- when a sample gets through ----------

  /** Registering a value after any calls. `registerConstMetric` panics exactly when the name was never
      described, and sends exactly when the number of values matches the labels last asked for, its
      own request for none included; the other two send on the same terms and panic otherwise. */
  lemma RegisterOutcome(c: Cache, ops: seq<Op>, role: string, name: string, values: seq<string>)
    requires c.Coherent()
    ensures var op := RegisterOp(name, values);
            var labels, o := LastAsked(c, name, ops + [op]), Result(Run(c, ops), role, op);
            && (o.Panicked? <==> labels.None?)
            && (o.Sent? <==> labels.Some? && |labels.value| == |c.Effective(name, values)|)
    ensures var labels, o := LastAsked(c, name, ops), Result(Run(c, ops), role, MustRegisterOp(name, values));
            && (o.Sent? <==> labels.Some? && |labels.value| == |values| + if c.appendRole then 1 else 0)
            && (o.Panicked? <==> !o.Sent?)
  {
    var op := RegisterOp(name, values);
    assert (ops + [op])[..|ops|] == ops;
    LabelsAreLastAsked(c, name, ops);
    LabelsAreLastAsked(c, name, ops + [op]);
    RunKeepsCoherent(c, ops);
    RunKeepsCoherent(c, ops + [op]);
  }

  /** The call does not relabel `name` away from labels `ls`. */
  predicate Keeps(c: Cache, name: string, ls: seq<string>, op: Op) {
    match Asked(c, name, op)
    case None => true
    case Some(labels) => labels == [] || labels == c.Effective(name, ls)
  }

  lemma {:induction false} KeptLabels(c: Cache, name: string, ls: seq<string>, ops: seq<Op>)
    requires LabelsOf(c, name) == Some(c.Effective(name, ls))
    requires forall i :: 0 <= i < |ops| ==> Keeps(c, name, ls, ops[i])
    ensures LastAsked(c, name, ops) == Some(c.Effective(name, ls))
  {
    if |ops| != 0 {
      KeptLabels(c, name, ls, ops[..|ops| - 1]);
    }
  }

  lemma KeepsByRole(a: Cache, b: Cache, name: string, ls: seq<string>, op: Op)
    requires a.appendRole == b.appendRole
    ensures Keeps(a, name, ls, op) == Keeps(b, name, ls, op)
  {
  }

  lemma RegisteredAfter(c: Cache, name: string, ls: seq<string>, between: seq<Op>, role: string, values: seq<string>)
    requires c.Coherent() && LabelsOf(c, name) == Some(c.Effective(name, ls))
    requires ls != [] && |values| == |ls|
    requires AllKeep(c, name, ls, between)
    ensures Result(Run(c, between), role, RegisterOp(name, values))
         == Sent(Metric(Desc(name, c.Effective(name, ls)), if c.Roled(name) then values + [role] else values))
  {
    KeptLabels(c, name, ls, between);
    LabelsAreLastAsked(c, name, between);
    RunKeepsCoherent(c, between);
  }

  lemma CreatedIn(c: Cache, name: string, ls: seq<string>)
    requires c.Coherent() && ls != []
    ensures c.Create(name, ls).Coherent() && c.Create(name, ls).appendRole == c.appendRole
    ensures LabelsOf(c.Create(name, ls), name) == Some(c.Effective(name, ls))
  {
  }

  /** The calls between creating and registering leave the labels of `name` alone. */
  ghost predicate AllKeep(c: Cache, name: string, ls: seq<string>, ops: seq<Op>) {
    forall i :: 0 <= i < |ops| ==> Keeps(c, name, ls, ops[i])
  }

  lemma AllKeepByRole(a: Cache, b: Cache, name: string, ls: seq<string>, ops: seq<Op>)
    requires a.appendRole == b.appendRole && AllKeep(a, name, ls, ops)
    ensures AllKeep(b, name, ls, ops)
  {
    forall i | 0 <= i < |ops| ensures Keeps(b, name, ls, ops[i]) {
      KeepsByRole(a, b, name, ls, ops[i]);
    }
  }

  /** From the constructed state, after any calls: creating a metric with labels, then any calls
      that do not relabel it, then registering as many values: the sample is sent, with those
      labels, whether or not the role label is appended. */
  lemma CreatedThenRegistered(appendRole: bool, table: map<string, seq<string>>, before: seq<Op>, name: string, ls: seq<string>,
                              between: seq<Op>, role: string, values: seq<string>)
    requires ls != [] && |values| == |ls| && AllKeep(Constructed(appendRole, table), name, ls, between)
    ensures var c := Run(Constructed(appendRole, table), before).Create(name, ls);
            Result(Run(c, between), role, RegisterOp(name, values))
            == Sent(Metric(Desc(name, c.Effective(name, ls)), if c.Roled(name) then values + [role] else values))
  {
    ConstructedCoherent(appendRole, table);
    assert Constructed(appendRole, table).appendRole == appendRole;
    hide Constructed, AllKeep, Run, Result, LabelsOf;
    var c0 := Constructed(appendRole, table);
    RunKeepsCoherent(c0, before);
    var c := Run(c0, before).Create(name, ls);
    CreatedIn(Run(c0, before), name, ls);
    AllKeepByRole(c0, c, name, ls, between);
    RegisteredAfter(c, name, ls, between, role, values);
  }

  /** With the role label on, registering without values does relabel: it shrinks the labels to the
      role label alone, and the next sample with the old values is dropped. */
  lemma RegisteringBareRelabels(table: map<string, seq<string>>, name: string, role: string, values: seq<string>)
    requires name in table && |table[name]| == |values| > 0 && !BeforeRole(name)
    ensures var c := Constructed(true, table);
            && Result(c, role, RegisterOp(name, values)).Sent?
            && Result(Run(c, [RegisterOp(name, [])]), role, RegisterOp(name, values)) == Dropped
  {
    var c := Constructed(true, table);
    assert [RegisterOp(name, [])][..0] == [];
    assert Run(c, [RegisterOp(name, [])]) == c.Create(name, []);
    assert c.labels[name] == table[name] + [ROLE_LABEL];
  }

  // ---------- the exporter ----------

  class Exporter {
    const appendRole: bool
    var instanceRole: string
    var metricDescriptions: map<string, Desc>
    var metricDescriptionLabels: map<string, seq<string>>
    var sent: seq<Metric>

    ghost function View(): Cache
      reads this
    {
      Cache(appendRole, metricDescriptions, metricDescriptionLabels)
    }

    constructor (appendRole: bool, table: map<string, seq<string>>)
      ensures View() == Constructed(appendRole, table) && sent == [] && this.appendRole == appendRole
    {
      this.appendRole := appendRole;
      instanceRole, sent := "", [];
      metricDescriptions, metricDescriptionLabels := map[], map[];
      new;
      hide Constructed, Part;
      ConstructedNothing(appendRole, table);
      var names := IterationOrder(table.Keys);
      for i := 0 to |names|
        invariant sent == [] && this.appendRole == appendRole
        invariant View() == Constructed(appendRole, Part(table, names[..i]))
      {
        assert names[i] in names;
        ConstructedStep(appendRole, table, names, i);
        var labels := table[names[i]];
        if appendRole {
          labels := labels + [ROLE_LABEL];
        }
        metricDescriptions := metricDescriptions[names[i] := Desc(names[i], labels)];
        metricDescriptionLabels := metricDescriptionLabels[names[i] := labels];
      }
      PartAll(table, names);
    }

    method CreateMetricDescription(name: string, labels: seq<string>) returns (d: Desc)
      requires View().Coherent()
      modifies this
      ensures View() == old(View()).Create(name, labels) && View().Coherent()
      ensures sent == old(sent) && instanceRole == old(instanceRole)
      ensures name in metricDescriptions && d == metricDescriptions[name]
    {
      var effective := labels;
      if appendRole && !BeforeRole(name) {
        effective := effective + [ROLE_LABEL];
      }
      if name in metricDescriptions {
        var recorded := if name in metricDescriptionLabels then metricDescriptionLabels[name] else [];
        if |effective| == 0 || recorded == effective {
          return metricDescriptions[name];
        }
      }
      d := Desc(name, effective);
      metricDescriptions := metricDescriptions[name := d];
      metricDescriptionLabels := metricDescriptionLabels[name := effective];
    }

    method RegisterConstMetric(name: string, values: seq<string>) returns (o: Outcome)
      requires View().Coherent()
      modifies this
      ensures View() == Step(old(View()), RegisterOp(name, values)) && View().Coherent()
      ensures o == Result(old(View()), instanceRole, RegisterOp(name, values))
      ensures sent == (if o.Sent? then old(sent) + [o.metric] else old(sent)) && instanceRole == old(instanceRole)
    {
      var desc: Desc;
      if |values| == 0 {
        desc := CreateMetricDescription(name, []);
      } else if name in metricDescriptions {
        desc := metricDescriptions[name];
      } else {
        return Panicked;
      }
      var labelValues := values;
      if appendRole && !BeforeRole(name) {
        labelValues := labelValues + [instanceRole];
      }
      if |desc.labels| != |labelValues| {
        return Dropped;
      }
      o := Sent(Metric(desc, labelValues));
      sent := sent + [o.metric];
    }

    /** `registerConstSummary` and `registerConstHistogram`. */
    method MustRegister(name: string, values: seq<string>) returns (o: Outcome)
      requires View().Coherent()
      modifies this`sent
      ensures o == Result(View(), instanceRole, MustRegisterOp(name, values))
      ensures sent == if o.Sent? then old(sent) + [o.metric] else old(sent)
    {
      var labelValues := values;
      if appendRole {
        labelValues := labelValues + [instanceRole];
      }
      if name !in metricDescriptions || |metricDescriptions[name].labels| != |labelValues| {
        return Panicked;
      }
      o := Sent(Metric(metricDescriptions[name], labelValues));
      sent := sent + [o.metric];
    }

    /** Creating a metric with labels and registering one value per label always gets through. */
    method CreateAndRegister(name: string, labels: seq<string>, values: seq<string>)
      requires View().Coherent() && labels != [] && |labels| == |values|
      modifies this
      ensures View() == old(View()).Create(name, labels) && View().Coherent() && instanceRole == old(instanceRole)
      ensures sent == old(sent) + [Metric(Desc(name, View().Effective(name, labels)),
                                          if View().Roled(name) then values + [instanceRole] else values)]
    {
      var d := CreateMetricDescription(name, labels);
      assert d == Desc(name, View().Effective(name, labels));
      var o := RegisterConstMetric(name, values);
    }

    /** The `instance_info` sample of `extractInfoMetrics`: optional fields extend labels and values
        together. */
    method RegisterInstanceInfo(keyValues: map<string, string>)
      requires View().Coherent()
      modifies this
      ensures View().Coherent() && instanceRole == old(instanceRole)
      ensures sent == old(sent) + [Labelled(appendRole, instanceRole, "instance_info", InstanceInfo(keyValues))]
    {
      hide Names, Values, BasicInfo, InstanceInfo;
      BasicInfoLists(keyValues);
      var mode := ValueAt(keyValues, "redis_mode");
      if mode == "" {
        mode := ValueAt(keyValues, "server_mode");
      }
      var lbls := ["role", "redis_version", "redis_build_id", "redis_mode", "os", "maxmemory_policy", "tcp_port", "run_id",
                   "process_id", "master_replid"];
      var lblVals := [ValueAt(keyValues, "role"), ValueAt(keyValues, "redis_version"), ValueAt(keyValues, "redis_build_id"),
                      mode, ValueAt(keyValues, "os"), ValueAt(keyValues, "maxmemory_policy"), ValueAt(keyValues, "tcp_port"),
                      ValueAt(keyValues, "run_id"), ValueAt(keyValues, "process_id"), ValueAt(keyValues, "master_replid")];
      ghost var pairs := BasicInfo(keyValues);
      if "valkey_version" in keyValues {
        pairs := Grow(pairs, "valkey_version", keyValues["valkey_version"]);
        lbls, lblVals := lbls + ["valkey_version"], lblVals + [keyValues["valkey_version"]];
      }
      if "valkey_release_stage" in keyValues {
        pairs := Grow(pairs, "valkey_release_stage", keyValues["valkey_release_stage"]);
        lbls, lblVals := lbls + ["valkey_release_stage"], lblVals + [keyValues["valkey_release_stage"]];
      }
      if ValueAt(keyValues, "availability_zone") != "" {
        pairs := Grow(pairs, "availability_zone", ValueAt(keyValues, "availability_zone"));
        lbls, lblVals := lbls + ["availability_zone"], lblVals + [ValueAt(keyValues, "availability_zone")];
      }
      InstanceInfoParts(keyValues, pairs);
      CreateAndRegister("instance_info", lbls, lblVals);
    }

    /** The `connected_client_info` sample of `parseConnectedClientMetrics`. */
    method RegisterClientInfo(info: ClientInfo, inclPort: bool)
      requires View().Coherent()
      modifies this
      ensures View().Coherent() && instanceRole == old(instanceRole)
      ensures sent == old(sent) + [Labelled(appendRole, instanceRole, "connected_client_info", ClientPairs(info, inclPort))]
    {
      var lbls := ["id", "name", "flags", "db", "host"];
      var lblVals := [info.id, info.name, info.flags, info.db, info.host];
      ghost var pairs := ClientBasics(info);
      assert lbls == Names(pairs) && lblVals == Values(pairs);
      hide Names, Values, ClientBasics;
      if inclPort {
        pairs := Grow(pairs, "port", info.port);
        lbls, lblVals := lbls + ["port"], lblVals + [info.port];
      }
      if info.user != "" {
        pairs := Grow(pairs, "user", info.user);
        lbls, lblVals := lbls + ["user"], lblVals + [info.user];
      }
      if info.resp != "" {
        pairs := Grow(pairs, "resp", info.resp);
        lbls, lblVals := lbls + ["resp"], lblVals + [info.resp];
      }
      assert pairs == ClientPairs(info, inclPort);
      CreateAndRegister("connected_client_info", lbls, lblVals);
    }
  }

  // ---------- label lists that grow with their values ----------

  function ValueAt(kv: map<string, string>, key: string): string {
    if key in kv then kv[key] else ""
  }

  function Names(pairs: seq<(string, string)>): (ns: seq<string>)
    ensures |ns| == |pairs|
  {
    seq(|pairs|, i requires 0 <= i < |pairs| => pairs[i].0)
  }

  function Values(pairs: seq<(string, string)>): (vs: seq<string>)
    ensures |vs| == |pairs|
  {
    seq(|pairs|, i requires 0 <= i < |pairs| => pairs[i].1)
  }

  /** The metric with these labels and values, and the role where it is appended. */
  function Labelled(appendRole: bool, role: string, name: string, pairs: seq<(string, string)>): Metric {
    if appendRole then Metric(Desc(name, Names(pairs) + [ROLE_LABEL]), Values(pairs) + [role])
    else Metric(Desc(name, Names(pairs)), Values(pairs))
  }

  lemma NamesSnoc(pairs: seq<(string, string)>, p: (string, string))
    ensures Names(pairs + [p]) == Names(pairs) + [p.0] && Values(pairs + [p]) == Values(pairs) + [p.1]
  {
  }

  /** Adds a label and its value. */
  ghost function Grow(pairs: seq<(string, string)>, name: string, value: string): (grown: seq<(string, string)>)
    ensures Names(grown) == Names(pairs) + [name] && Values(grown) == Values(pairs) + [value]
  {
    NamesSnoc(pairs, (name, value));
    pairs + [(name, value)]
  }

  function Optional(present: bool, name: string, value: string): seq<(string, string)> {
    if present then [(name, value)] else []
  }

  function BasicInfo(kv: map<string, string>): seq<(string, string)> {
    var mode := ValueAt(kv, "redis_mode");
    [("role", ValueAt(kv, "role")), ("redis_version", ValueAt(kv, "redis_version")),
     ("redis_build_id", ValueAt(kv, "redis_build_id")),
     ("redis_mode", if mode == "" then ValueAt(kv, "server_mode") else mode), ("os", ValueAt(kv, "os")),
     ("maxmemory_policy", ValueAt(kv, "maxmemory_policy")), ("tcp_port", ValueAt(kv, "tcp_port")),
     ("run_id", ValueAt(kv, "run_id")), ("process_id", ValueAt(kv, "process_id")),
     ("master_replid", ValueAt(kv, "master_replid"))]
  }

  /** Each label of `instance_info` with its own value. */
  function InstanceInfo(kv: map<string, string>): seq<(string, string)> {
    BasicInfo(kv)
    + Optional("valkey_version" in kv, "valkey_version", ValueAt(kv, "valkey_version"))
    + Optional("valkey_release_stage" in kv, "valkey_release_stage", ValueAt(kv, "valkey_release_stage"))
    + Optional(ValueAt(kv, "availability_zone") != "", "availability_zone", ValueAt(kv, "availability_zone"))
  }

  lemma BasicInfoLists(kv: map<string, string>)
    ensures var mode := ValueAt(kv, "redis_mode");
            Values(BasicInfo(kv))
            == [ValueAt(kv, "role"), ValueAt(kv, "redis_version"), ValueAt(kv, "redis_build_id"),
                if mode == "" then ValueAt(kv, "server_mode") else mode, ValueAt(kv, "os"), ValueAt(kv, "maxmemory_policy"),
                ValueAt(kv, "tcp_port"), ValueAt(kv, "run_id"), ValueAt(kv, "process_id"), ValueAt(kv, "master_replid")]
    ensures Names(BasicInfo(kv))
         == ["role", "redis_version", "redis_build_id", "redis_mode", "os", "maxmemory_policy", "tcp_port", "run_id",
             "process_id", "master_replid"]
  {
    hide ValueAt;
  }

  lemma InstanceInfoParts(kv: map<string, string>, pairs: seq<(string, string)>)
    requires pairs == BasicInfo(kv)
                      + (if "valkey_version" in kv then [("valkey_version", kv["valkey_version"])] else [])
                      + (if "valkey_release_stage" in kv then [("valkey_release_stage", kv["valkey_release_stage"])] else [])
                      + (if ValueAt(kv, "availability_zone") != ""
                         then [("availability_zone", ValueAt(kv, "availability_zone"))] else [])
    ensures pairs == InstanceInfo(kv)
  {
    hide BasicInfo;
  }

  /** The fields of a parsed client line that become labels. */
  datatype ClientInfo = ClientInfo(id: string, name: string, flags: string, db: string, host: string, port: string,
                                   user: string, resp: string)

  function ClientBasics(info: ClientInfo): seq<(string, string)> {
    [("id", info.id), ("name", info.name), ("flags", info.flags), ("db", info.db), ("host", info.host)]
  }

  /** Each label of `connected_client_info` with its own value. */
  function ClientPairs(info: ClientInfo, inclPort: bool): seq<(string, string)> {
    ClientBasics(info) + Optional(inclPort, "port", info.port) + Optional(info.user != "", "user", info.user)
    + Optional(info.resp != "", "resp", info.resp)
  }
}
