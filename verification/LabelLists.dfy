/** The labels metrics are described and sent with, letter by letter (`metrics.go`, `info.go`,
    `clients.go`): the role label, and the two metrics whose labels depend on what is present. */
module LabelLists {
  import opened Descriptions

  // ---------- the role label ----------

  /** The two metrics that never have the role label when they are registered. */
  predicate Early(name: string) {
    name == "exporter_last_scrape_connect_time_seconds" || name == "exporter_last_scrape_ping_time_seconds"
  }

  /** A metric described for the first time has the labels asked for and, where roles are appended, the
      label `instance_role` after them, unless it is collected before the role is known. */
  lemma FirstDescribed(c: Cache, name: string, ls: seq<string>)
    requires name !in c.descs
    ensures c.Create(name, ls).descs
         == c.descs[name := Desc(name, if c.appendRole && !Early(name) then ls + ["instance_role"] else ls)]
  {
  }

  /** A sample registered under a description is sent with its values and, in the same cases, the role. */
  lemma RegisteredWith(c: Cache, role: string, name: string, values: seq<string>)
    requires name in c.descs && values != []
    ensures var sent := if c.appendRole && !Early(name) then values + [role] else values;
            Result(c, role, RegisterOp(name, values))
            == if |c.descs[name].labels| == |sent| then Sent(Metric(c.descs[name], sent)) else Dropped
  {
  }

  /** Summaries and histograms have the role appended whatever their name. */
  lemma SummaryWith(c: Cache, role: string, name: string, values: seq<string>)
    requires name in c.descs
    ensures var sent := if c.appendRole then values + [role] else values;
            Result(c, role, MustRegisterOp(name, values))
            == if |c.descs[name].labels| == |sent| then Sent(Metric(c.descs[name], sent)) else Panicked
  {
  }

  /** A metric without labels that is registered unasked is described and sent at once. */
  lemma BareRegistered(c: Cache, role: string, name: string)
    requires name !in c.descs
    ensures Result(c, role, RegisterOp(name, []))
         == if c.appendRole && !Early(name) then Sent(Metric(Desc(name, ["instance_role"]), [role]))
            else Sent(Metric(Desc(name, []), []))
  {
  }

  /** The constructor appends the role label to every entry of the table, the early ones included. */
  lemma ConstructedWith(appendRole: bool, table: map<string, seq<string>>, name: string)
    requires name in table
    ensures Constructed(appendRole, table).descs[name]
         == Desc(name, if appendRole then table[name] + ["instance_role"] else table[name])
  {
  }

  // ---------- instance_info ----------

  /** The labels: ten always, three more when their field is there. */
  function InstanceLabels(kv: map<string, string>): seq<string> {
    ["role", "redis_version", "redis_build_id", "redis_mode", "os", "maxmemory_policy", "tcp_port", "run_id", "process_id",
     "master_replid"]
    + (if "valkey_version" in kv then ["valkey_version"] else [])
    + (if "valkey_release_stage" in kv then ["valkey_release_stage"] else [])
    + (if "availability_zone" in kv && kv["availability_zone"] != "" then ["availability_zone"] else [])
  }

  function Recorded(kv: map<string, string>, name: string): string { if name in kv then kv[name] else "" }

  /** A label has the value recorded under its own name; only the mode falls back on another name. */
  function InstanceValue(kv: map<string, string>, tag: string): string {
    if tag == "redis_mode" && Recorded(kv, "redis_mode") == "" then Recorded(kv, "server_mode") else Recorded(kv, tag)
  }

  lemma InstanceInfoLabels(kv: map<string, string>)
    ensures Names(InstanceInfo(kv)) == InstanceLabels(kv)
  {
    hide BasicInfo, ValueAt;
    BasicInfoLists(kv);
    AvailableIff(kv);
    hide Names;
    SplitNames(kv);
  }

  lemma AvailableIff(kv: map<string, string>)
    ensures ValueAt(kv, "availability_zone") != "" <==> "availability_zone" in kv && kv["availability_zone"] != ""
  {
  }

  lemma NamesOfParts(a: seq<(string, string)>, b: seq<(string, string)>)
    ensures Names(a + b) == Names(a) + Names(b)
  {
  }

  lemma OptionalNames(present: bool, name: string, value: string)
    ensures Names(Optional(present, name, value)) == if present then [name] else []
  {
  }

  lemma SplitNames(kv: map<string, string>)
    ensures Names(InstanceInfo(kv))
         == Names(BasicInfo(kv))
          + (if "valkey_version" in kv then ["valkey_version"] else [])
          + (if "valkey_release_stage" in kv then ["valkey_release_stage"] else [])
          + (if ValueAt(kv, "availability_zone") != "" then ["availability_zone"] else [])
  {
    hide BasicInfo, Names, Optional, ValueAt;
    var a, b, c, d := BasicInfo(kv), Optional("valkey_version" in kv, "valkey_version", ValueAt(kv, "valkey_version")),
      Optional("valkey_release_stage" in kv, "valkey_release_stage", ValueAt(kv, "valkey_release_stage")),
      Optional(ValueAt(kv, "availability_zone") != "", "availability_zone", ValueAt(kv, "availability_zone"));
    NamesOfParts(a + b + c, d);
    NamesOfParts(a + b, c);
    NamesOfParts(a, b);
    OptionalNames("valkey_version" in kv, "valkey_version", ValueAt(kv, "valkey_version"));
    OptionalNames("valkey_release_stage" in kv, "valkey_release_stage", ValueAt(kv, "valkey_release_stage"));
    OptionalNames(ValueAt(kv, "availability_zone") != "", "availability_zone", ValueAt(kv, "availability_zone"));
  }

  ghost predicate Valued(kv: map<string, string>, pairs: seq<(string, string)>) {
    forall i :: 0 <= i < |pairs| ==> pairs[i].1 == InstanceValue(kv, pairs[i].0)
  }

  lemma ValuedParts(kv: map<string, string>, a: seq<(string, string)>, b: seq<(string, string)>)
    requires Valued(kv, a) && Valued(kv, b)
    ensures Valued(kv, a + b)
  {
    hide InstanceValue;
  }

  lemma ValuedOptional(kv: map<string, string>, present: bool, name: string)
    requires name != "redis_mode"
    ensures Valued(kv, Optional(present, name, ValueAt(kv, name)))
  {
  }

  lemma ValuedMode(kv: map<string, string>)
    ensures Valued(kv, [ModePair(kv)])
  {
  }

  function ValuePair(kv: map<string, string>, name: string): (string, string) { (name, ValueAt(kv, name)) }

  lemma ValuedBasics(kv: map<string, string>)
    ensures Valued(kv, BasicInfo(kv))
  {
    BasicParts(kv);
    hide BasicInfo, Valued, ValueAt, ValuePair;
    NotTheMode();
    forall name: string | name != "redis_mode" ensures Valued(kv, [ValuePair(kv, name)]) {
      ValuedPair(kv, name);
    }
    ValuedMode(kv);
    var a := [ValuePair(kv, "role")] + [ValuePair(kv, "redis_version")] + [ValuePair(kv, "redis_build_id")];
    ValuedParts(kv, [ValuePair(kv, "role")], [ValuePair(kv, "redis_version")]);
    ValuedParts(kv, [ValuePair(kv, "role")] + [ValuePair(kv, "redis_version")], [ValuePair(kv, "redis_build_id")]);
    var b := a + [ModePair(kv)];
    ValuedParts(kv, a, [ModePair(kv)]);
    var c := b + [ValuePair(kv, "os")] + [ValuePair(kv, "maxmemory_policy")] + [ValuePair(kv, "tcp_port")];
    ValuedParts(kv, b, [ValuePair(kv, "os")]);
    ValuedParts(kv, b + [ValuePair(kv, "os")], [ValuePair(kv, "maxmemory_policy")]);
    ValuedParts(kv, b + [ValuePair(kv, "os")] + [ValuePair(kv, "maxmemory_policy")], [ValuePair(kv, "tcp_port")]);
    ValuedParts(kv, c, [ValuePair(kv, "run_id")]);
    ValuedParts(kv, c + [ValuePair(kv, "run_id")], [ValuePair(kv, "process_id")]);
    ValuedParts(kv, c + [ValuePair(kv, "run_id")] + [ValuePair(kv, "process_id")], [ValuePair(kv, "master_replid")]);
  }

  function ModePair(kv: map<string, string>): (string, string) {
    ("redis_mode", if ValueAt(kv, "redis_mode") == "" then ValueAt(kv, "server_mode") else ValueAt(kv, "redis_mode"))
  }

  lemma ValuedPair(kv: map<string, string>, name: string)
    requires name != "redis_mode"
    ensures Valued(kv, [ValuePair(kv, name)])
  {
  }

  lemma BasicParts(kv: map<string, string>)
    ensures BasicInfo(kv)
         == [ValuePair(kv, "role")] + [ValuePair(kv, "redis_version")] + [ValuePair(kv, "redis_build_id")] + [ModePair(kv)]
          + [ValuePair(kv, "os")] + [ValuePair(kv, "maxmemory_policy")] + [ValuePair(kv, "tcp_port")]
          + [ValuePair(kv, "run_id")] + [ValuePair(kv, "process_id")] + [ValuePair(kv, "master_replid")]
  {
    hide ValueAt;
  }

  lemma NotTheMode()
    ensures "role" != "redis_mode" && "redis_version" != "redis_mode" && "redis_build_id" != "redis_mode" && "os" != "redis_mode"
    ensures "maxmemory_policy" != "redis_mode" && "tcp_port" != "redis_mode" && "run_id" != "redis_mode"
    ensures "process_id" != "redis_mode" && "master_replid" != "redis_mode" && "valkey_version" != "redis_mode"
    ensures "valkey_release_stage" != "redis_mode" && "availability_zone" != "redis_mode"
  {
    assert |"redis_mode"| == 10 && |"process_id"| == 10 && "redis_mode"[0] == 'r' && "process_id"[0] == 'p';
  }

  /** Every label of the list has its own value beside it. */
  lemma InstanceInfoValues(kv: map<string, string>, i: nat)
    requires i < |InstanceInfo(kv)|
    ensures InstanceInfo(kv)[i].1 == InstanceValue(kv, InstanceInfo(kv)[i].0)
  {
    hide BasicInfo, ValueAt, Optional, InstanceValue;
    NotTheMode();
    ValuedBasics(kv);
    var b, c, d := Optional("valkey_version" in kv, "valkey_version", ValueAt(kv, "valkey_version")),
      Optional("valkey_release_stage" in kv, "valkey_release_stage", ValueAt(kv, "valkey_release_stage")),
      Optional(ValueAt(kv, "availability_zone") != "", "availability_zone", ValueAt(kv, "availability_zone"));
    ValuedOptional(kv, "valkey_version" in kv, "valkey_version");
    ValuedOptional(kv, "valkey_release_stage" in kv, "valkey_release_stage");
    ValuedOptional(kv, ValueAt(kv, "availability_zone") != "", "availability_zone");
    ValuedParts(kv, BasicInfo(kv), b);
    ValuedParts(kv, BasicInfo(kv) + b, c);
    ValuedParts(kv, BasicInfo(kv) + b + c, d);
  }

  // ---------- connected_client_info ----------

  /** The labels: five always, then the port if it is wanted, the user and the protocol if there are any. */
  function ClientLabels(info: ClientInfo, inclPort: bool): seq<string> {
    ["id", "name", "flags", "db", "host"] + (if inclPort then ["port"] else [])
    + (if info.user != "" then ["user"] else []) + (if info.resp != "" then ["resp"] else [])
  }

  function ClientValue(info: ClientInfo, tag: string): string {
    match tag
    case "id" => info.id
    case "name" => info.name
    case "flags" => info.flags
    case "db" => info.db
    case "host" => info.host
    case "port" => info.port
    case "user" => info.user
    case _ => info.resp
  }

  lemma ClientInfoLabels(info: ClientInfo, inclPort: bool)
    ensures Names(ClientPairs(info, inclPort)) == ClientLabels(info, inclPort)
  {
    var a, b, c, d := ClientBasics(info), Optional(inclPort, "port", info.port), Optional(info.user != "", "user", info.user),
      Optional(info.resp != "", "resp", info.resp);
    assert Names(a) == ["id", "name", "flags", "db", "host"];
    hide Names;
    NamesOfParts(a + b + c, d);
    NamesOfParts(a + b, c);
    NamesOfParts(a, b);
    OptionalNames(inclPort, "port", info.port);
    OptionalNames(info.user != "", "user", info.user);
    OptionalNames(info.resp != "", "resp", info.resp);
  }

  lemma ClientInfoValues(info: ClientInfo, inclPort: bool, i: nat)
    requires i < |ClientPairs(info, inclPort)|
    ensures ClientPairs(info, inclPort)[i].1 == ClientValue(info, ClientPairs(info, inclPort)[i].0)
  {
    var pair := ClientPairs(info, inclPort)[i];
    assert pair in ClientBasics(info) || pair in Optional(inclPort, "port", info.port)
        || pair in Optional(info.user != "", "user", info.user) || pair in Optional(info.resp != "", "resp", info.resp);
  }

  /** What is sent is those names as labels and those values as label values, and the role where roles
      are appended. */
  lemma SentWith(appendRole: bool, role: string, name: string, pairs: seq<(string, string)>)
    ensures var m := Labelled(appendRole, role, name, pairs);
            && m.desc.name == name
            && m.desc.labels == Names(pairs) + (if appendRole then ["instance_role"] else [])
            && m.labelValues == Values(pairs) + (if appendRole then [role] else [])
            && |Names(pairs)| == |Values(pairs)| == |pairs|
            && forall i :: 0 <= i < |pairs| ==> Names(pairs)[i] == pairs[i].0 && Values(pairs)[i] == pairs[i].1
  {
  }
}
