/** Key counts per database (`extractInfoMetrics` in `info.go`): the Keyspace lines of INFO, padded
    with zeros for the databases INFO does not list. */
module EmptyDatabases {
  import opened Wrappers
  import opened Text
  import opened Sums
  import opened Metrics
  import opened Keyspace
  import opened Info
  import opened InfoText

  /** The two metrics every database must have. */
  predicate KeyMetric(metric: string) { metric == "db_keys" || metric == "db_keys_expiring" }

  /** 1 for a sample of the metric labelled with the database. */
  function Hit(metric: string, db: string): Sample -> int {
    (s: Sample) => if s.metric == metric && s.labels == [db] then 1 else 0
  }

  /** How many samples of a metric there are for a database. */
  function CountFor(samples: seq<Sample>, metric: string, db: string): int { SumBy(samples, Hit(metric, db)) }

  /** 1 for a Keyspace field that is accepted under the database's name. */
  function Listing(env: Env, db: string): ((string, string)) -> int {
    (f: (string, string)) => if f.0 == db && ParseDb(env.parse, f.0, f.1).Some? then 1 else 0
  }

  function TimesListed(env: Env, lines: seq<string>, db: string): int {
    SumBy(FieldsOf(lines, KEYSPACE), Listing(env, db))
  }

  // ---------- samples of other families ----------

  ghost predicate OtherFamily(samples: seq<Sample>) {
    forall i :: 0 <= i < |samples| ==> samples[i].metric != "" && samples[i].metric[0] != 'd'
  }

  lemma NoHits(samples: seq<Sample>, metric: string, db: string)
    requires OtherFamily(samples) && KeyMetric(metric)
    ensures CountFor(samples, metric, db) == 0
  {
    assert metric[0] == 'd';
    SumByZero(samples, Hit(metric, db));
  }

  lemma ReplicationOther(env: Env, host: string, port: string, key: string, value: string)
    ensures OtherFamily(ReplicationSamples(env, host, port, key, value))
  {
    if !MasterField(key, LINK_STATUS) && DirectField(key) {
      assert key[0] == 'm' || key[0] == 's' by {
        if SLAVE_OFFSET <= key {
          assert key[0] == SLAVE_OFFSET[0];
        } else {
          assert "master" <= key && key[0] == "master"[0];
        }
      }
    }
  }

  lemma CommandOther(env: Env, key: string, value: string)
    ensures OtherFamily(ParseCommandStats(env, key, value).samples)
  {
  }

  // ---------- one accepted line ----------

  lemma {:induction false} NamedOnce(db: string, metrics: seq<KeyspaceMetric>, metric: string, i: nat, other: string)
    requires i < |metrics| && metrics[i].name == metric
    requires forall j, k :: 0 <= j < k < |metrics| ==> metrics[j].name != metrics[k].name
    ensures CountFor(MetricSamples(db, metrics), metric, other) == if db == other then 1 else 0
  {
    var n := |metrics| - 1;
    assert MetricSamples(db, metrics)[..n] == MetricSamples(db, metrics[..n]);
    if i < n {
      NamedOnce(db, metrics[..n], metric, i, other);
    } else {
      SumByZero(MetricSamples(db, metrics[..n]), Hit(metric, other));
    }
    assert [db] == [other] <==> db == other by {
      assert [db][0] == db && [other][0] == other;
    }
  }

  lemma AcceptedOnce(env: Env, key: string, value: string, metric: string, db: string)
    requires ParseDb(env.parse, key, value).Some? && KeyMetric(metric)
    ensures CountFor(MetricSamples(key, ParseDb(env.parse, key, value).value), metric, db) == if key == db then 1 else 0
  {
    AcceptedShape(env.parse, key, value);
    hide ParseDb;
    var metrics := ParseDb(env.parse, key, value).value;
    NamedOnce(key, metrics, metric, if metric == "db_keys" then 0 else 1, db);
  }

  // ---------- all lines ----------

  lemma FieldCount(env: Env, s: State, key: string, value: string, metric: string, db: string)
    requires KeyMetric(metric)
    ensures var t := InSection(env, Record(s, key, value), key, value);
            var listed := if s.section == KEYSPACE then Listing(env, db)((key, value)) else 0;
            && CountFor(t.samples, metric, db) == CountFor(s.samples, metric, db) + listed
            && (db in t.handledDBs <==> db in s.handledDBs || listed == 1)
  {
    hide ReplicationSamples, ParseCommandStats, ParseLatencyStats, ParseDb, MasterField, OtherFamily;
    var r := Record(s, key, value);
    if s.section == REPLICATION {
      var own := ReplicationSamples(env, r.masterHost, r.masterPort, key, value);
      ReplicationOther(env, r.masterHost, r.masterPort, key, value);
      NoHits(own, metric, db);
      SumByConcat(s.samples, own, Hit(metric, db));
    } else if s.section == COMMANDSTATS {
      var own := ParseCommandStats(env, key, value).samples;
      CommandOther(env, key, value);
      NoHits(own, metric, db);
      SumByConcat(s.samples, own, Hit(metric, db));
    } else if s.section == KEYSPACE && ParseDb(env.parse, key, value).Some? {
      AcceptedOnce(env, key, value, metric, db);
      SumByConcat(s.samples, MetricSamples(key, ParseDb(env.parse, key, value).value), Hit(metric, db));
    }
  }

  lemma {:induction false} LinesCount(env: Env, lines: seq<string>, metric: string, db: string)
    requires KeyMetric(metric)
    ensures var s := Interpret(env, INITIAL, lines);
            && s.section == SectionAfter("", lines)
            && CountFor(s.samples, metric, db) == TimesListed(env, lines, db) >= 0
            && (db in s.handledDBs <==> TimesListed(env, lines, db) > 0)
  {
    hide Classify, InSection, Record, Listing;
    if |lines| != 0 {
      var n := |lines| - 1;
      LinesCount(env, lines[..n], metric, db);
      var s := Interpret(env, INITIAL, lines[..n]);
      var fields := FieldsOf(lines[..n], KEYSPACE);
      assert fields + [] == fields;
      match Classify(lines[n]) {
        case Field(key, value) =>
          FieldCount(env, s, key, value, metric, db);
          FieldSection(env, s, key, value);
          ListingAt(env, db, (key, value));
          assert (fields + [(key, value)])[..|fields|] == fields;
        case _ =>
      }
    }
  }

  lemma ListingAt(env: Env, db: string, field: (string, string))
    ensures Listing(env, db)(field) == 0 || Listing(env, db)(field) == 1
  {
  }

  // ---------- padding ----------

  lemma DbNameInjective(i: nat, j: nat)
    requires DbName(i) == DbName(j)
    ensures i == j
  {
    assert DbName(i)[2..] == Itoa(i) && DbName(j)[2..] == Itoa(j);
    ItoaInjective(i, j);
  }

  ghost predicate Configured(dbCount: nat, db: string) { exists i: nat :: i < dbCount && DbName(i) == db }

  lemma {:induction false} PaddingCount(handled: set<string>, dbCount: nat, metric: string, db: string)
    requires KeyMetric(metric)
    ensures CountFor(Padding(handled, dbCount), metric, db) == if Configured(dbCount, db) && db !in handled then 1 else 0
  {
    if dbCount != 0 {
      var n := dbCount - 1;
      PaddingCount(handled, n, metric, db);
      assert Upto(dbCount)[..n] == Upto(n);
      var own := PaddingFor(handled)(n);
      SumByConcat(Padding(handled, n), own, Hit(metric, db));
      PaddingOne(handled, n, metric, db);
      if i: nat :| i < n && DbName(i) == db && DbName(n) == db {
        DbNameInjective(i, n);
      }
      assert DbName(n) == db ==> Configured(dbCount, db);
      if i: nat :| i < dbCount && DbName(i) == db {
        assert i == n || Configured(n, db);
      }
      assert Configured(n, db) ==> Configured(dbCount, db);
    }
  }

  lemma PaddingOne(handled: set<string>, n: nat, metric: string, db: string)
    requires KeyMetric(metric)
    ensures CountFor(PaddingFor(handled)(n), metric, db) == if DbName(n) == db && db !in handled then 1 else 0
  {
    var own := PaddingFor(handled)(n);
    if DbName(n) !in handled {
      var h := Hit(metric, db);
      assert own[..1] == [own[0]];
      assert SumBy([own[0]], h) == SumBy([own[0]][..0], h) + h(own[0]);
      assert SumBy(own, h) == SumBy(own[..1], h) + h(own[1]);
      assert [DbName(n)] == [db] <==> DbName(n) == db by {
        assert [DbName(n)][0] == DbName(n) && [db][0] == db;
      }
      assert |"db_keys"| != |"db_keys_expiring"|;
    }
  }

  // ---------- the result ----------

  /** What `extractInfoMetrics` emits with padding enabled, unless it panics. */
  function PaddedSamples(env: Env, lines: seq<string>, dbCount: nat): seq<Sample> {
    var s := Interpret(env, INITIAL, lines);
    s.samples + Padding(s.handledDBs, dbCount) + SlaveInfo(s.keyValues)
  }

  /** For every INFO text: a database has one sample of each key metric for each accepted line under
      its name, and one more exactly when it is configured and has no such line. */
  lemma KeyMetricCount(env: Env, lines: seq<string>, dbCount: nat, metric: string, db: string)
    requires KeyMetric(metric)
    ensures CountFor(PaddedSamples(env, lines, dbCount), metric, db)
         == TimesListed(env, lines, db) + if Configured(dbCount, db) && TimesListed(env, lines, db) == 0 then 1 else 0
  {
    var s := Interpret(env, INITIAL, lines);
    LinesCount(env, lines, metric, db);
    PaddingCount(s.handledDBs, dbCount, metric, db);
    SlaveInfoOther(s.keyValues);
    hide Interpret, Padding, SlaveInfo, TimesListed;
    NoHits(SlaveInfo(s.keyValues), metric, db);
    SumByConcat(s.samples, Padding(s.handledDBs, dbCount), Hit(metric, db));
    SumByConcat(s.samples + Padding(s.handledDBs, dbCount), SlaveInfo(s.keyValues), Hit(metric, db));
  }

  lemma SlaveInfoOther(kv: map<string, string>)
    ensures OtherFamily(SlaveInfo(kv))
  {
  }

  /** Every Keyspace field is accepted, and no two have the same name. */
  ghost predicate WellFormedKeyspace(env: Env, lines: seq<string>) {
    var fields := FieldsOf(lines, KEYSPACE);
    && (forall i :: 0 <= i < |fields| ==> ParseDb(env.parse, fields[i].0, fields[i].1).Some?)
    && (forall i, j :: 0 <= i < j < |fields| ==> fields[i].0 != fields[j].0)
  }

  ghost predicate Listed(lines: seq<string>, db: string) {
    exists i :: 0 <= i < |FieldsOf(lines, KEYSPACE)| && FieldsOf(lines, KEYSPACE)[i].0 == db
  }

  lemma {:induction false} ListedOnce(env: Env, fields: seq<(string, string)>, db: string)
    requires forall i :: 0 <= i < |fields| ==> ParseDb(env.parse, fields[i].0, fields[i].1).Some?
    requires forall i, j :: 0 <= i < j < |fields| ==> fields[i].0 != fields[j].0
    ensures SumBy(fields, Listing(env, db)) == if exists i :: 0 <= i < |fields| && fields[i].0 == db then 1 else 0
  {
    hide ParseDb;
    if |fields| != 0 {
      var n := |fields| - 1;
      ListedOnce(env, fields[..n], db);
      if i :| 0 <= i < |fields| && fields[i].0 == db {
        assert i == n || fields[..n][i].0 == db;
      }
      if i :| 0 <= i < n && fields[..n][i].0 == db {
        assert fields[i].0 == db;
      }
    }
  }

  /** With well-formed Keyspace lines, every configured database and every listed one, configured or
      not, has exactly one sample of each key metric; no other database has any. */
  lemma EveryDatabaseOnce(env: Env, lines: seq<string>, dbCount: nat, metric: string, db: string)
    requires KeyMetric(metric) && WellFormedKeyspace(env, lines)
    ensures CountFor(PaddedSamples(env, lines, dbCount), metric, db)
         == if Listed(lines, db) || Configured(dbCount, db) then 1 else 0
  {
    KeyMetricCount(env, lines, dbCount, metric, db);
    ListedOnce(env, FieldsOf(lines, KEYSPACE), db);
  }

  /** The sample of a listed database has the number of the line's last `keys` or `expires`, that of a
      padded one is zero. */
  lemma KeyMetricValues(env: Env, lines: seq<string>, dbCount: nat, metric: string)
    requires KeyMetric(metric)
    ensures var fields := FieldsOf(lines, KEYSPACE);
            forall i :: 0 <= i < |fields| && ParseDb(env.parse, fields[i].0, fields[i].1).Some? ==>
              Sample(metric, KeyValue(env, fields[i], metric), [fields[i].0]) in PaddedSamples(env, lines, dbCount)
    ensures forall i: nat :: i < dbCount && TimesListed(env, lines, DbName(i)) == 0 ==>
              Sample(metric, 0.0, [DbName(i)]) in PaddedSamples(env, lines, dbCount)
  {
    var s := Interpret(env, INITIAL, lines);
    ListedValues(env, lines, metric);
    hide Interpret, TimesListed, FieldsOf, FieldsFrom, ParseDb;
    forall i: nat | i < dbCount && TimesListed(env, lines, DbName(i)) == 0
      ensures Sample(metric, 0.0, [DbName(i)]) in PaddedSamples(env, lines, dbCount)
    {
      LinesCount(env, lines, metric, DbName(i));
      PaddedValue(s.handledDBs, dbCount, metric, i);
    }
  }

  /** The number a Keyspace field gives for the metric. */
  function KeyValue(env: Env, field: (string, string), metric: string): real
    requires ParseDb(env.parse, field.0, field.1).Some?
  {
    AcceptedValues(env.parse, field.0, field.1);
    env.parse(LastCut(Split(field.1, ','), if metric == "db_keys" then "keys" else "expires").value).value
  }

  lemma {:induction false} PaddedValue(handled: set<string>, dbCount: nat, metric: string, i: nat)
    requires KeyMetric(metric) && i < dbCount && DbName(i) !in handled
    ensures Sample(metric, 0.0, [DbName(i)]) in Padding(handled, dbCount)
  {
    var n := dbCount - 1;
    assert Upto(dbCount)[..n] == Upto(n);
    var own := PaddingFor(handled)(n);
    assert Padding(handled, dbCount) == Padding(handled, n) + own;
    if i < n {
      PaddedValue(handled, n, metric, i);
    } else {
      assert Sample(metric, 0.0, [DbName(i)]) == own[0] || Sample(metric, 0.0, [DbName(i)]) == own[1];
    }
  }

  lemma {:induction false} ListedValues(env: Env, lines: seq<string>, metric: string)
    requires KeyMetric(metric)
    ensures Interpret(env, INITIAL, lines).section == SectionAfter("", lines)
    ensures var fields := FieldsOf(lines, KEYSPACE);
            forall i :: 0 <= i < |fields| && ParseDb(env.parse, fields[i].0, fields[i].1).Some? ==>
              Sample(metric, KeyValue(env, fields[i], metric), [fields[i].0]) in Interpret(env, INITIAL, lines).samples
  {
    hide Classify, InSection, Record, ParseDb, KeyValue;
    if |lines| != 0 {
      var n := |lines| - 1;
      ListedValues(env, lines[..n], metric);
      var s := Interpret(env, INITIAL, lines[..n]);
      assert FieldsOf(lines[..n], KEYSPACE) + [] == FieldsOf(lines[..n], KEYSPACE);
      match Classify(lines[n]) {
        case Field(key, value) =>
          FieldValue(env, s, key, value, metric);
          FieldSection(env, s, key, value);
        case _ =>
      }
    }
  }

  lemma FieldValue(env: Env, s: State, key: string, value: string, metric: string)
    requires KeyMetric(metric)
    ensures var t := InSection(env, Record(s, key, value), key, value);
            && s.samples <= t.samples
            && (s.section == KEYSPACE && ParseDb(env.parse, key, value).Some? ==>
                  Sample(metric, KeyValue(env, (key, value), metric), [key]) in t.samples)
  {
    hide ReplicationSamples, ParseCommandStats, ParseLatencyStats, MasterField;
    if s.section == KEYSPACE && ParseDb(env.parse, key, value).Some? {
      AcceptedShape(env.parse, key, value);
      AcceptedValues(env.parse, key, value);
      hide ParseDb, LastCut, Split;
      var own := MetricSamples(key, ParseDb(env.parse, key, value).value);
      var i := if metric == "db_keys" then 0 else 1;
      assert own[i] == Sample(metric, KeyValue(env, (key, value), metric), [key]);
    }
  }

  // ---------- printed databases ----------

  datatype Database = Database(index: nat, keys: string, expires: string)

  function DatabaseFields(d: Database): string { "keys=" + d.keys + ",expires=" + d.expires }

  function DatabaseLine(d: Database): string { DbName(d.index) + ":" + DatabaseFields(d) }

  predicate NumberText(env: Env, s: string) {
    env.parse(s).Some? && ',' !in s && '\n' !in s && (s == "" || !IsSpace(s[|s| - 1]))
  }

  predicate Printable(env: Env, d: Database) { NumberText(env, d.keys) && NumberText(env, d.expires) }

  function PrintDatabases(ds: seq<Database>): (lines: seq<string>)
    ensures |lines| == |ds|
  {
    seq(|ds|, i requires 0 <= i < |ds| => DatabaseLine(ds[i]))
  }

  function DatabaseSamples(env: Env): Database -> seq<Sample> {
    (d: Database) => [Sample("db_keys", GetOr(env.parse(d.keys), 0.0), [DbName(d.index)]),
                      Sample("db_keys_expiring", GetOr(env.parse(d.expires), 0.0), [DbName(d.index)])]
  }

  lemma DbNameShape(i: nat)
    ensures "db" <= DbName(i) && |DbName(i)| >= 2 && DbName(i)[0] == 'd' && ':' !in DbName(i) && '\n' !in DbName(i)
  {
    var name := DbName(i);
    forall k | 0 <= k < |name| ensures name[k] != ':' && name[k] != '\n' {
      assert k < 2 || IsDigit(name[k]);
    }
  }

  lemma DatabaseLineRead(env: Env, d: Database)
    requires Printable(env, d)
    ensures Classify(DatabaseLine(d)) == Field(DbName(d.index), DatabaseFields(d))
    ensures Safe(DatabaseLine(d)) && '\n' !in DatabaseLine(d)
  {
    hide DbName, Classify, Undescribed;
    DbNameShape(d.index);
    var fields := DatabaseFields(d);
    assert fields[|fields| - 1] == if d.expires == "" then '=' else d.expires[|d.expires| - 1];
    SafeField(DbName(d.index), fields);
  }

  lemma DatabaseStep(env: Env, s: State, d: Database)
    requires s.section == KEYSPACE && Printable(env, d)
    ensures var t := Step(env, s, DatabaseLine(d));
            t.section == KEYSPACE && t.samples == s.samples + DatabaseSamples(env)(d)
  {
    hide DbName, Classify, MasterField, ParseDb, DatabaseFields;
    DbNameShape(d.index);
    DatabaseLineRead(env, d);
    DatabaseFieldsRead(env, d);
  }

  lemma DatabaseFieldsRead(env: Env, d: Database)
    requires Printable(env, d)
    ensures ParseDb(env.parse, DbName(d.index), DatabaseFields(d))
         == Some([KeyspaceMetric("db_keys", GetOr(env.parse(d.keys), 0.0)),
                  KeyspaceMetric("db_keys_expiring", GetOr(env.parse(d.expires), 0.0))])
  {
    hide DbName, ParseDb;
    DbNameShape(d.index);
    PrintedDatabase(env.parse, DbName(d.index), d.keys, d.expires);
  }

  lemma {:induction false} DatabasesPrinted(env: Env, s: State, ds: seq<Database>)
    requires s.section == KEYSPACE && forall i :: 0 <= i < |ds| ==> Printable(env, ds[i])
    ensures var t := Interpret(env, s, PrintDatabases(ds));
            t.section == KEYSPACE && t.samples == s.samples + Flat(ds, DatabaseSamples(env))
  {
    hide Step, Printable, DatabaseLine, DatabaseSamples, KEYSPACE;
    if |ds| != 0 {
      var n := |ds| - 1;
      assert PrintDatabases(ds)[..n] == PrintDatabases(ds[..n]);
      DatabasesPrinted(env, s, ds[..n]);
      DatabaseStep(env, Interpret(env, s, PrintDatabases(ds[..n])), ds[n]);
    }
  }

  lemma PrintedDatabaseLines(env: Env, ds: seq<Database>)
    requires forall i :: 0 <= i < |ds| ==> Printable(env, ds[i])
    ensures PrintableLines(PrintDatabases(ds))
  {
    hide Printable, DatabaseLine, Safe;
    forall i | 0 <= i < |ds| ensures '\n' !in DatabaseLine(ds[i]) && Safe(DatabaseLine(ds[i])) {
      DatabaseLineRead(env, ds[i]);
    }
  }

  /** Printing any list of databases as a Keyspace section, with carriage returns or without, and
      interpreting the text emits each database's two numbers, in order, under its own name. */
  lemma KeyspaceRoundTrip(env: Env, ds: seq<Database>, ended: seq<string>)
    requires (forall i :: 0 <= i < |ds| ==> Printable(env, ds[i])) && Ended([HeaderOf(KEYSPACE)] + PrintDatabases(ds), ended)
    ensures var r := Scrape(env, INITIAL, Split(Join(ended, '\n'), '\n'));
            r.Some? && r.value.samples == Flat(ds, DatabaseSamples(env))
  {
    hide *;
    SectionNames();
    PrintedDatabaseLines(env, ds);
    SectionText(env, KEYSPACE, PrintDatabases(ds), ended);
    SectionStart(KEYSPACE);
    DatabasesPrinted(env, INITIAL.(section := KEYSPACE), ds);
  }
}
