/** Keyspace lines of INFO (`parseDBKeyspaceString` in `info.go`), such as
    `db0:keys=10,expires=2,avg_ttl=1500`. */
module Keyspace {
  import opened Wrappers
  import opened Text

  type FloatParser = string -> Option<real>

  datatype KeyspaceMetric = KeyspaceMetric(name: string, value: real)

  datatype Definition = Definition(fields: seq<string>, name: string, scale: real, required: bool)

  const KEYS := Definition(["keys"], "db_keys", 1.0, true)
  const EXPIRES := Definition(["expires"], "db_keys_expiring", 1.0, true)
  const AVG_TTL := Definition(["avg_ttl"], "db_avg_ttl_seconds", 1.0 / 1000.0, false)
  const CACHED := Definition(["cached_keys"], "db_keys_cached", 1.0, false)
  // Redis and Valkey name the keys with expiring items differently
  const EXPIRING_ITEMS := Definition(["subexpiry", "keys_with_volatile_items"], "db_keys_with_expiring_items", 1.0, false)

  const DEFINITIONS: seq<Definition> := [KEYS, EXPIRES, AVG_TTL, CACHED, EXPIRING_ITEMS]

  /** The fields of a value, the last one of each name; None when a part has no `=`. */
  function FieldMap(parts: seq<string>): Option<map<string, string>> {
    if |parts| == 0 then Some(map[])
    else
      var n := |parts| - 1;
      match FieldMap(parts[..n])
      case None => None
      case Some(fields) =>
        match Cut(parts[n], '=')
        case None => None
        case Some((field, value)) => Some(fields[field := value])
  }

  /** The value of the first of the names that is present. */
  function FirstPresent(fields: map<string, string>, names: seq<string>): Option<string> {
    if |names| == 0 then None
    else if names[0] in fields then Some(fields[names[0]])
    else FirstPresent(fields, names[1..])
  }

  datatype Field = Absent | Refused | Measured(metric: KeyspaceMetric)

  /** What one definition makes of the fields. */
  function Measure(parse: FloatParser, fields: map<string, string>, d: Definition): Field {
    match FirstPresent(fields, d.fields)
    case None => if d.required then Refused else Absent
    case Some(value) =>
      match parse(value)
      case None => Refused
      case Some(v) => Measured(KeyspaceMetric(d.name, v * d.scale))
  }

  /** The metrics of the first definitions, in table order; None when one of them refuses. */
  function MeasureAll(parse: FloatParser, fields: map<string, string>, defs: seq<Definition>): Option<seq<KeyspaceMetric>> {
    if |defs| == 0 then Some([])
    else
      var n := |defs| - 1;
      match MeasureAll(parse, fields, defs[..n])
      case None => None
      case Some(metrics) =>
        match Measure(parse, fields, defs[n])
        case Absent => Some(metrics)
        case Refused => None
        case Measured(m) => Some(metrics + [m])
  }

  function ParseParts(parse: FloatParser, key: string, parts: seq<string>): Option<seq<KeyspaceMetric>> {
    if !("db" <= key) then None
    else
      match FieldMap(parts)
      case None => None
      case Some(fields) => MeasureAll(parse, fields, DEFINITIONS)
  }

  function ParseDb(parse: FloatParser, key: string, val: string): Option<seq<KeyspaceMetric>> {
    ParseParts(parse, key, Split(val, ','))
  }

  // ---------- the loops ----------

  lemma {:induction false} FieldMapFailed(parts: seq<string>, i: nat)
    requires i <= |parts| && FieldMap(parts[..i]).None?
    ensures FieldMap(parts).None?
    decreases |parts|
  {
    if i == |parts| {
      assert parts[..i] == parts;
    } else {
      assert parts[..|parts| - 1][..i] == parts[..i];
      FieldMapFailed(parts[..|parts| - 1], i);
    }
  }

  lemma {:induction false} MeasureAllFailed(parse: FloatParser, fields: map<string, string>, defs: seq<Definition>, i: nat)
    requires i <= |defs|
    ensures MeasureAll(parse, fields, defs[..i]).None? ==> MeasureAll(parse, fields, defs).None?
    decreases |defs|
  {
    if i == |defs| {
      assert defs[..i] == defs;
    } else {
      assert defs[..|defs| - 1][..i] == defs[..i];
      MeasureAllFailed(parse, fields, defs[..|defs| - 1], i);
    }
  }

  method CollectFields(parts: seq<string>) returns (fields: Option<map<string, string>>)
    ensures fields == FieldMap(parts)
  {
    var collected: map<string, string> := map[];
    for i := 0 to |parts|
      invariant FieldMap(parts[..i]) == Some(collected)
    {
      assert parts[..i + 1][..i] == parts[..i];
      var cut := Cut(parts[i], '=');
      if cut.None? {
        FieldMapFailed(parts, i + 1);
        return None;
      }
      collected := collected[cut.value.0 := cut.value.1];
    }
    assert parts[..|parts|] == parts;
    fields := Some(collected);
  }

  method FindValue(fields: map<string, string>, names: seq<string>) returns (value: Option<string>)
    ensures value == FirstPresent(fields, names)
  {
    for i := 0 to |names|
      invariant FirstPresent(fields, names[i..]) == FirstPresent(fields, names)
    {
      if names[i] in fields {
        return Some(fields[names[i]]);
      }
    }
    value := None;
  }

  /** `parseDBKeyspaceString`. */
  method ParseDBKeyspaceString(parse: FloatParser, inputKey: string, inputVal: string) returns (metrics: Option<seq<KeyspaceMetric>>)
    ensures metrics == ParseDb(parse, inputKey, inputVal)
  {
    if !("db" <= inputKey) {
      return None;
    }
    var fields := CollectFields(Split(inputVal, ','));
    if fields.None? {
      return None;
    }
    metrics := MeasureFields(parse, fields.value, DEFINITIONS);
  }

  method MeasureFields(parse: FloatParser, fields: map<string, string>, defs: seq<Definition>)
      returns (metrics: Option<seq<KeyspaceMetric>>)
    ensures metrics == MeasureAll(parse, fields, defs)
  {
    hide FirstPresent, MeasureAll;
    var collected := [];
    MeasureNothing(parse, fields, defs);
    for i := 0 to |defs|
      invariant MeasureAll(parse, fields, defs[..i]) == Some(collected)
    {
      MeasureStep(parse, fields, defs, i);
      MeasureAllFailed(parse, fields, defs, i + 1);
      var value := FindValue(fields, defs[i].fields);
      if value.None? {
        if defs[i].required {
          return None;
        }
      } else {
        var parsed := parse(value.value);
        if parsed.None? {
          return None;
        }
        var metric := KeyspaceMetric(defs[i].name, parsed.value * defs[i].scale);
        assert Measure(parse, fields, defs[i]) == Measured(metric);
        collected := collected + [metric];
      }
    }
    metrics := Some(collected);
  }

  lemma MeasureNothing(parse: FloatParser, fields: map<string, string>, defs: seq<Definition>)
    ensures MeasureAll(parse, fields, defs[..0]) == Some([]) && defs[..|defs|] == defs
  {
  }

  lemma MeasureStep(parse: FloatParser, fields: map<string, string>, defs: seq<Definition>, i: nat)
    requires i < |defs| && MeasureAll(parse, fields, defs[..i]).Some?
    ensures var before := MeasureAll(parse, fields, defs[..i]).value;
            MeasureAll(parse, fields, defs[..i + 1])
            == match Measure(parse, fields, defs[i])
               case Absent => Some(before)
               case Refused => None
               case Measured(m) => Some(before + [m])
  {
    hide Measure;
    var upto := defs[..i + 1];
    assert upto[..i] == defs[..i] && upto[i] == defs[i];
  }

  // ---------- field order ----------

  ghost predicate DistinctFields(parts: seq<string>) {
    forall i, j :: 0 <= i < j < |parts| && Cut(parts[i], '=').Some? && Cut(parts[j], '=').Some? ==>
      Cut(parts[i], '=').value.0 != Cut(parts[j], '=').value.0
  }

  lemma {:induction false} FieldMapMembers(parts: seq<string>, field: string, value: string)
    requires DistinctFields(parts)
    ensures FieldMap(parts).Some? <==> forall i :: 0 <= i < |parts| ==> Cut(parts[i], '=').Some?
    ensures FieldMap(parts).Some? ==>
              ((field in FieldMap(parts).value && FieldMap(parts).value[field] == value) <==>
               exists i :: 0 <= i < |parts| && Cut(parts[i], '=') == Some((field, value)))
  {
    hide Cut;
    if |parts| != 0 {
      var n := |parts| - 1;
      var front := parts[..n];
      FieldMapMembers(front, field, value);
      if FieldMap(parts).Some? {
        var fields := FieldMap(parts).value;
        var last := Cut(parts[n], '=').value;
        if field in fields && fields[field] == value {
          if field == last.0 {
            assert Cut(parts[n], '=') == Some((field, value));
          } else {
            var i :| 0 <= i < n && Cut(front[i], '=') == Some((field, value));
            assert Cut(parts[i], '=') == Some((field, value));
          }
        }
        if i :| 0 <= i < |parts| && Cut(parts[i], '=') == Some((field, value)) {
          if i < n {
            assert Cut(front[i], '=') == Some((field, value));
            assert Cut(parts[i], '=').value.0 != Cut(parts[n], '=').value.0;
          }
        }
      }
    }
  }

  /** For distinct field names, any order of the fields gives the same verdict and metrics. */
  lemma FieldOrderIrrelevant(parse: FloatParser, key: string, p: seq<string>, q: seq<string>)
    requires multiset(p) == multiset(q) && DistinctFields(p) && DistinctFields(q)
    ensures ParseParts(parse, key, p) == ParseParts(parse, key, q)
  {
    forall x: string ensures x in p <==> x in q {
      assert x in multiset(p) <==> x in multiset(q);
    }
    SameFields(p, q);
  }

  lemma SameFields(p: seq<string>, q: seq<string>)
    requires (forall x: string :: x in p <==> x in q) && DistinctFields(p) && DistinctFields(q)
    ensures FieldMap(p) == FieldMap(q)
  {
    hide Cut;
    FieldMapMembers(p, "", "");
    FieldMapMembers(q, "", "");
    CutThroughout(p, q);
    CutThroughout(q, p);
    if FieldMap(p).Some? {
      var a, b := FieldMap(p).value, FieldMap(q).value;
      forall f | f in a ensures f in b && b[f] == a[f] {
        FieldMapMembers(p, f, a[f]);
        FieldMapMembers(q, f, a[f]);
        SomeCut(p, q, f, a[f]);
      }
      forall f | f in b ensures f in a {
        FieldMapMembers(p, f, b[f]);
        FieldMapMembers(q, f, b[f]);
        SomeCut(q, p, f, b[f]);
      }
      assert a == b;
    }
  }

  lemma CutThroughout(p: seq<string>, q: seq<string>)
    requires forall x: string :: x in q ==> x in p
    ensures (forall i :: 0 <= i < |p| ==> Cut(p[i], '=').Some?) ==> forall i :: 0 <= i < |q| ==> Cut(q[i], '=').Some?
  {
    hide Cut;
    forall i | 0 <= i < |q| ensures q[i] in p {
    }
  }

  lemma SomeCut(p: seq<string>, q: seq<string>, f: string, v: string)
    requires forall x: string :: x in p ==> x in q
    ensures (exists i :: 0 <= i < |p| && Cut(p[i], '=') == Some((f, v))) ==>
              exists i :: 0 <= i < |q| && Cut(q[i], '=') == Some((f, v))
  {
    hide Cut;
    if i :| 0 <= i < |p| && Cut(p[i], '=') == Some((f, v)) {
      assert p[i] in q;
      var j :| 0 <= j < |q| && q[j] == p[i];
    }
  }

  /** The same on the printed text: printing the fields in any order and parsing the line. */
  lemma {:induction false} PrintedOrderIrrelevant(parse: FloatParser, key: string, p: seq<string>, q: seq<string>)
    requires multiset(p) == multiset(q) && DistinctFields(p) && DistinctFields(q)
    requires |p| >= 1 && forall i :: 0 <= i < |p| ==> ',' !in p[i]
    ensures ParseDb(parse, key, Join(p, ',')) == ParseDb(parse, key, Join(q, ','))
  {
    forall i | 0 <= i < |q| ensures ',' !in q[i] {
      assert q[i] in multiset(p);
      assert q[i] in p;
    }
    assert |p| == |multiset(p)| == |multiset(q)| == |q|;
    SplitJoin(p, ',');
    SplitJoin(q, ',');
    FieldOrderIrrelevant(parse, key, p, q);
  }

  // ---------- the shape of accepted output ----------

  /** The metric names are definition names in table order, each at most once. */
  ghost predicate InTableOrder(metrics: seq<KeyspaceMetric>, defs: seq<Definition>) {
    if |metrics| == 0 then true
    else if |defs| == 0 then false
    else
      var n := |defs| - 1;
      if metrics[|metrics| - 1].name == defs[n].name then InTableOrder(metrics[..|metrics| - 1], defs[..n])
      else InTableOrder(metrics, defs[..n])
  }

  ghost predicate DistinctNames(defs: seq<Definition>) {
    forall i, j :: 0 <= i < j < |defs| ==> defs[i].name != defs[j].name
  }

  lemma {:induction false} MeasuredInOrder(parse: FloatParser, fields: map<string, string>, defs: seq<Definition>)
    requires DistinctNames(defs)
    ensures var metrics := MeasureAll(parse, fields, defs);
            metrics.Some? ==> InTableOrder(metrics.value, defs) && NamesFrom(metrics.value, defs)
  {
    hide Measure, MeasureAll, InTableOrder, NamesFrom;
    MeasureNothing(parse, fields, defs);
    if |defs| == 0 {
      assert defs[..0] == defs;
      NothingInOrder(defs);
    } else {
      var n := |defs| - 1;
      MeasuredInOrder(parse, fields, defs[..n]);
      MeasureAllFailed(parse, fields, defs, n);
      var before := MeasureAll(parse, fields, defs[..n]);
      if before.Some? {
        MeasureStep(parse, fields, defs, n);
        MeasureName(parse, fields, defs[n]);
        OrderStep(before.value, defs, Measure(parse, fields, defs[n]));
      }
    }
  }

  ghost predicate NamesFrom(metrics: seq<KeyspaceMetric>, defs: seq<Definition>) {
    forall k :: 0 <= k < |metrics| ==> Named(metrics[k], defs)
  }

  ghost predicate Named(m: KeyspaceMetric, defs: seq<Definition>) { exists i :: 0 <= i < |defs| && m.name == defs[i].name }

  lemma NothingInOrder(defs: seq<Definition>)
    ensures InTableOrder([], defs) && NamesFrom([], defs)
  {
  }

  lemma OrderStep(before: seq<KeyspaceMetric>, defs: seq<Definition>, f: Field)
    requires |defs| > 0 && DistinctNames(defs)
    requires InTableOrder(before, defs[..|defs| - 1]) && NamesFrom(before, defs[..|defs| - 1])
    requires f.Measured? ==> f.metric.name == defs[|defs| - 1].name
    ensures var after := if f.Measured? then before + [f.metric] else before;
            InTableOrder(after, defs) && NamesFrom(after, defs)
  {
    var n := |defs| - 1;
    var after := if f.Measured? then before + [f.metric] else before;
    NamesStep(before, after, defs);
    if f.Measured? {
      assert after[..|before|] == before;
    }
  }

  lemma MeasureName(parse: FloatParser, fields: map<string, string>, d: Definition)
    ensures Measure(parse, fields, d).Measured? ==> Measure(parse, fields, d).metric.name == d.name
  {
  }

  lemma {:induction false} OrderedOnce(metrics: seq<KeyspaceMetric>, defs: seq<Definition>, name: string)
    requires InTableOrder(metrics, defs) && DistinctNames(defs)
    ensures (forall i :: 0 <= i < |defs| ==> defs[i].name != name) ==> forall k :: 0 <= k < |metrics| ==> metrics[k].name != name
    ensures forall j, k :: 0 <= j < k < |metrics| ==> metrics[j].name != name || metrics[k].name != name
    decreases |defs|
  {
    if |metrics| != 0 && |defs| != 0 {
      var n, m := |defs| - 1, |metrics| - 1;
      if metrics[m].name == defs[n].name {
        OrderedOnce(metrics[..m], defs[..n], name);
      } else {
        OrderedOnce(metrics, defs[..n], name);
      }
    }
  }

  lemma DefinitionNamesDistinct()
    ensures |DEFINITIONS| == 5 && DistinctNames(DEFINITIONS)
  {
    assert |KEYS.name| == 7 && |EXPIRES.name| == 16 && |AVG_TTL.name| == 18 && |CACHED.name| == 14 && |EXPIRING_ITEMS.name| == 27;
  }

  lemma {:induction false} RequiredFirst(parse: FloatParser, fields: map<string, string>, defs: seq<Definition>)
    requires |defs| >= 2 && defs[0].required && defs[1].required
    ensures var metrics := MeasureAll(parse, fields, defs);
            metrics.Some? ==> |metrics.value| >= 2 && metrics.value[0].name == defs[0].name && metrics.value[1].name == defs[1].name
  {
    if |defs| == 2 {
      assert defs[..1][..0] == [] && defs[..1][0] == defs[0];
      assert MeasureAll(parse, fields, defs[..1][..0]) == Some([]);
    } else {
      RequiredFirst(parse, fields, defs[..|defs| - 1]);
    }
  }

  /** Accepted output starts with the two required metrics, follows the table, and has at most one
      metric of each name, so one for expiring items even when both spellings are present. */
  lemma AcceptedShape(parse: FloatParser, key: string, val: string)
    requires ParseDb(parse, key, val).Some?
    ensures var metrics := ParseDb(parse, key, val).value;
            && |metrics| >= 2 && metrics[0].name == "db_keys" && metrics[1].name == "db_keys_expiring"
            && InTableOrder(metrics, DEFINITIONS)
            && forall j, k :: 0 <= j < k < |metrics| ==> metrics[j].name != metrics[k].name
  {
    var fields := FieldMap(Split(val, ',')).value;
    DefinitionNamesDistinct();
    RequiredFirst(parse, fields, DEFINITIONS);
    MeasuredInOrder(parse, fields, DEFINITIONS);
    var metrics := ParseDb(parse, key, val).value;
    forall j, k | 0 <= j < k < |metrics| ensures metrics[j].name != metrics[k].name {
      OrderedOnce(metrics, DEFINITIONS, metrics[j].name);
    }
  }

  /** Redis's spelling wins over Valkey's. */
  lemma RedisSpellingWins(parse: FloatParser, fields: map<string, string>)
    requires "subexpiry" in fields
    ensures Measure(parse, fields, EXPIRING_ITEMS)
         == match parse(fields["subexpiry"])
            case None => Refused
            case Some(v) => Measured(KeyspaceMetric("db_keys_with_expiring_items", v))
  {
  }

  // ---------- the values of accepted output ----------

  /** The text after the first `=` of the last part that has this name before it. */
  function LastCut(parts: seq<string>, name: string): Option<string> {
    if |parts| == 0 then None
    else
      match Cut(parts[|parts| - 1], '=')
      case None => LastCut(parts[..|parts| - 1], name)
      case Some((field, value)) => if field == name then Some(value) else LastCut(parts[..|parts| - 1], name)
  }

  ghost predicate AllCut(parts: seq<string>) { forall i :: 0 <= i < |parts| ==> '=' in parts[i] }

  function At(fields: map<string, string>, name: string): Option<string> {
    if name in fields then Some(fields[name]) else None
  }

  /** The fields exist exactly when every part has an `=`, and are the last ones of each name. */
  lemma {:induction false} FieldMapLast(parts: seq<string>)
    ensures FieldMap(parts).Some? <==> AllCut(parts)
    ensures FieldMap(parts).Some? ==> forall name: string :: At(FieldMap(parts).value, name) == LastCut(parts, name)
  {
    hide Cut;
    if |parts| != 0 {
      FieldMapLast(parts[..|parts| - 1]);
    }
  }

  /** The definition can be measured: its value, if there is one, is a number, and is there if required. */
  predicate Measurable(parse: FloatParser, fields: map<string, string>, d: Definition) {
    match FirstPresent(fields, d.fields)
    case None => !d.required
    case Some(text) => parse(text).Some?
  }

  function Scaled(d: Definition, v: real): KeyspaceMetric { KeyspaceMetric(d.name, v * d.scale) }

  lemma {:induction false} OneName(fields: map<string, string>, name: string)
    ensures FirstPresent(fields, [name]) == At(fields, name)
  {
    assert [name][1..] == [];
  }

  /** The metrics say what the fields say about the definition: its number, scaled, or nothing. */
  ghost predicate Says(parse: FloatParser, fields: map<string, string>, d: Definition, metrics: seq<KeyspaceMetric>)
    requires Measurable(parse, fields, d)
  {
    match FirstPresent(fields, d.fields)
    case None => forall k :: 0 <= k < |metrics| ==> metrics[k].name != d.name
    case Some(text) => Scaled(d, parse(text).value) in metrics
  }

  lemma MeasureSays(parse: FloatParser, fields: map<string, string>, d: Definition)
    ensures Measurable(parse, fields, d) <==> !Measure(parse, fields, d).Refused?
    ensures FirstPresent(fields, d.fields).None? ==> !Measure(parse, fields, d).Measured?
    ensures Measurable(parse, fields, d) && FirstPresent(fields, d.fields).Some? ==>
              Measure(parse, fields, d)
              == Measured(Scaled(d, parse(FirstPresent(fields, d.fields).value).value))
  {
  }

  ghost predicate AllMeasurable(parse: FloatParser, fields: map<string, string>, defs: seq<Definition>) {
    forall i :: 0 <= i < |defs| ==> Measurable(parse, fields, defs[i])
  }

  ghost predicate AllSaid(parse: FloatParser, fields: map<string, string>, defs: seq<Definition>, metrics: seq<KeyspaceMetric>) {
    AllMeasurable(parse, fields, defs) && forall i :: 0 <= i < |defs| ==> Says(parse, fields, defs[i], metrics)
  }

  lemma {:induction false} MeasureAllSays(parse: FloatParser, fields: map<string, string>, defs: seq<Definition>)
    requires DistinctNames(defs)
    ensures MeasureAll(parse, fields, defs).Some? <==> AllMeasurable(parse, fields, defs)
    ensures MeasureAll(parse, fields, defs).Some? ==>
              AllSaid(parse, fields, defs, MeasureAll(parse, fields, defs).value)
              && NamesFrom(MeasureAll(parse, fields, defs).value, defs)
  {
    hide Measure, MeasureAll, Measurable, AllSaid, NamesFrom, FirstPresent, Scaled;
    MeasureNothing(parse, fields, defs);
    if |defs| == 0 {
      assert defs[..0] == defs;
      NothingSaid(parse, fields, defs);
    } else {
      var n := |defs| - 1;
      MeasureAllSays(parse, fields, defs[..n]);
      MeasureAllFailed(parse, fields, defs, n);
      MeasureSays(parse, fields, defs[n]);
      var before := MeasureAll(parse, fields, defs[..n]);
      assert AllMeasurable(parse, fields, defs) <==> AllMeasurable(parse, fields, defs[..n]) && Measurable(parse, fields, defs[n]);
      if before.Some? {
        MeasureStep(parse, fields, defs, n);
        if Measurable(parse, fields, defs[n]) {
          SaidStep(parse, fields, defs, before.value);
        }
      }
    }
  }

  lemma NothingSaid(parse: FloatParser, fields: map<string, string>, defs: seq<Definition>)
    requires |defs| == 0
    ensures AllSaid(parse, fields, defs, []) && NamesFrom([], defs)
  {
  }

  function WithField(parse: FloatParser, fields: map<string, string>, d: Definition, before: seq<KeyspaceMetric>): seq<KeyspaceMetric>
    requires Measurable(parse, fields, d)
  {
    match FirstPresent(fields, d.fields)
    case None => before
    case Some(text) => before + [Scaled(d, parse(text).value)]
  }

  lemma SaidStep(parse: FloatParser, fields: map<string, string>, defs: seq<Definition>, before: seq<KeyspaceMetric>)
    requires |defs| > 0 && DistinctNames(defs) && Measurable(parse, fields, defs[|defs| - 1])
    requires AllSaid(parse, fields, defs[..|defs| - 1], before) && NamesFrom(before, defs[..|defs| - 1])
    ensures var after := WithField(parse, fields, defs[|defs| - 1], before);
            AllSaid(parse, fields, defs, after) && NamesFrom(after, defs)
  {
    hide FirstPresent;
    var n := |defs| - 1;
    var d, front := defs[n], defs[..n];
    var after := WithField(parse, fields, d, before);
    NamesStep(before, after, defs);
    forall i | 0 <= i < |defs| ensures Measurable(parse, fields, defs[i]) && Says(parse, fields, defs[i], after) {
      if i < n {
        assert front[i] == defs[i] && Says(parse, fields, front[i], before);
        assert defs[i].name != d.name;
        assert forall k :: 0 <= k < |after| ==> (k < |before| && after[k] == before[k]) || after[k].name == d.name;
        assert forall x :: x in before ==> x in after;
      }
    }
  }

  lemma NamesStep(before: seq<KeyspaceMetric>, after: seq<KeyspaceMetric>, defs: seq<Definition>)
    requires |defs| > 0 && DistinctNames(defs) && NamesFrom(before, defs[..|defs| - 1])
    requires after == before || (|after| == |before| + 1 && before <= after && after[|before|].name == defs[|defs| - 1].name)
    ensures NamesFrom(after, defs)
    ensures forall k :: 0 <= k < |before| ==> before[k].name != defs[|defs| - 1].name
  {
    var n := |defs| - 1;
    forall k | 0 <= k < |before| ensures before[k].name != defs[n].name && Named(before[k], defs) {
      assert Named(before[k], defs[..n]);
      var i :| 0 <= i < n && before[k].name == defs[..n][i].name;
      assert before[k].name == defs[i].name;
    }
    forall k | 0 <= k < |after| ensures Named(after[k], defs) {
      assert if k < |before| then after[k] == before[k] else after[k].name == defs[n].name;
    }
  }

  /** A line is accepted exactly when its name starts with `db`, every part has an `=`, and every
      definition can be measured; then the metrics say what its fields say, definition by definition. */
  lemma AcceptedSays(parse: FloatParser, key: string, val: string)
    ensures var fields := FieldMap(Split(val, ','));
            && (ParseDb(parse, key, val).Some? <==>
                  "db" <= key && fields.Some? && AllMeasurable(parse, fields.value, DEFINITIONS))
            && (ParseDb(parse, key, val).Some? ==> AllSaid(parse, fields.value, DEFINITIONS, ParseDb(parse, key, val).value))
  {
    DefinitionNamesDistinct();
    var fields := FieldMap(Split(val, ','));
    hide FieldMap, MeasureAll, AllMeasurable, AllSaid, DEFINITIONS, Split;
    if fields.Some? {
      MeasureAllSays(parse, fields.value, DEFINITIONS);
    }
  }

  /** The first two metrics of an accepted line are the numbers of its last `keys` and `expires`. */
  lemma AcceptedValues(parse: FloatParser, key: string, val: string)
    requires ParseDb(parse, key, val).Some?
    ensures var metrics, parts := ParseDb(parse, key, val).value, Split(val, ',');
            && LastCut(parts, "keys").Some? && LastCut(parts, "expires").Some? && |metrics| >= 2
            && parse(LastCut(parts, "keys").value) == Some(metrics[0].value)
            && parse(LastCut(parts, "expires").value) == Some(metrics[1].value)
  {
    var metrics, parts := ParseDb(parse, key, val).value, Split(val, ',');
    AcceptedSays(parse, key, val);
    AcceptedShape(parse, key, val);
    FieldMapLast(parts);
    hide ParseDb, Split, FieldMap, InTableOrder;
    assert DEFINITIONS[0] == KEYS && DEFINITIONS[1] == EXPIRES;
    var fields := FieldMap(parts).value;
    RequiredSaid(parse, fields, KEYS, "keys", metrics);
    RequiredSaid(parse, fields, EXPIRES, "expires", metrics);
    assert At(fields, "keys") == LastCut(parts, "keys") && At(fields, "expires") == LastCut(parts, "expires");
  }

  lemma RequiredSaid(parse: FloatParser, fields: map<string, string>, d: Definition, field: string, metrics: seq<KeyspaceMetric>)
    requires d.required && d.fields == [field] && d.scale == 1.0
    requires Measurable(parse, fields, d) && Says(parse, fields, d, metrics)
    ensures field in fields && parse(fields[field]).Some?
    ensures KeyspaceMetric(d.name, parse(fields[field]).value) in metrics
  {
    OneName(fields, field);
  }

  // ---------- printed databases ----------

  /** The two fields that every version prints. */
  lemma PrintedDatabase(parse: FloatParser, key: string, keys: string, expires: string)
    requires "db" <= key && ',' !in keys && ',' !in expires && parse(keys).Some? && parse(expires).Some?
    ensures ParseDb(parse, key, "keys=" + keys + ",expires=" + expires)
         == Some([KeyspaceMetric("db_keys", parse(keys).value), KeyspaceMetric("db_keys_expiring", parse(expires).value)])
  {
    var a, b := "keys=" + keys, "expires=" + expires;
    assert "keys=" + keys + ",expires=" + expires == a + [','] + b;
    SplitPrefix(a, ',', b);
    SplitNoSep(b, ',');
    hide Split, Cut, MeasureAll, Measure, DEFINITIONS;
    TwoFields(keys, expires);
    TwoMeasured(parse, keys, expires);
  }

  lemma TwoFields(keys: string, expires: string)
    ensures FieldMap(["keys=" + keys] + ["expires=" + expires]) == Some(map["keys" := keys, "expires" := expires])
  {
    hide Cut;
    var a, b := "keys=" + keys, "expires=" + expires;
    assert a == "keys" + ['='] + keys && b == "expires" + ['='] + expires;
    CutPrinted("keys", '=', keys);
    CutPrinted("expires", '=', expires);
    var parts := [a] + [b];
    assert parts[..1] == [a] && parts[..1][..0] == [];
    assert FieldMap(parts[..1][..0]) == Some(map[]);
    assert FieldMap(parts[..1]) == Some(map["keys" := keys]);
  }

  lemma TwoMeasured(parse: FloatParser, keys: string, expires: string)
    requires parse(keys).Some? && parse(expires).Some?
    ensures MeasureAll(parse, map["keys" := keys, "expires" := expires], DEFINITIONS)
         == Some([KeyspaceMetric("db_keys", parse(keys).value), KeyspaceMetric("db_keys_expiring", parse(expires).value)])
  {
    hide MeasureAll, Measure, KEYS, EXPIRES, AVG_TTL, CACHED, EXPIRING_ITEMS;
    var fields := map["keys" := keys, "expires" := expires];
    MeasureNothing(parse, fields, DEFINITIONS);
    OthersAbsent(parse, fields);
    RequiredMeasured(parse, fields);
    var a, b := Measure(parse, fields, KEYS).metric, Measure(parse, fields, EXPIRES).metric;
    assert DEFINITIONS[0] == KEYS && DEFINITIONS[1] == EXPIRES && DEFINITIONS[2] == AVG_TTL && DEFINITIONS[3] == CACHED;
    assert DEFINITIONS[4] == EXPIRING_ITEMS && DEFINITIONS[..0] == [];
    MeasureStep(parse, fields, DEFINITIONS, 0);
    assert [] + [a] == [a] && [a] + [b] == [a, b];
    assert MeasureAll(parse, fields, DEFINITIONS[..1]) == Some([a]);
    MeasureStep(parse, fields, DEFINITIONS, 1);
    assert MeasureAll(parse, fields, DEFINITIONS[..2]) == Some([a, b]);
    MeasureStep(parse, fields, DEFINITIONS, 2);
    MeasureStep(parse, fields, DEFINITIONS, 3);
    MeasureStep(parse, fields, DEFINITIONS, 4);
    assert DEFINITIONS[..5] == DEFINITIONS;
  }

  lemma RequiredMeasured(parse: FloatParser, fields: map<string, string>)
    requires "keys" in fields && "expires" in fields && parse(fields["keys"]).Some? && parse(fields["expires"]).Some?
    ensures Measure(parse, fields, KEYS) == Measured(KeyspaceMetric("db_keys", parse(fields["keys"]).value))
    ensures Measure(parse, fields, EXPIRES) == Measured(KeyspaceMetric("db_keys_expiring", parse(fields["expires"]).value))
  {
    OneName(fields, "keys");
    OneName(fields, "expires");
  }

  lemma OthersAbsent(parse: FloatParser, fields: map<string, string>)
    requires fields.Keys <= {"keys", "expires"}
    ensures Measure(parse, fields, AVG_TTL).Absent? && Measure(parse, fields, CACHED).Absent?
    ensures Measure(parse, fields, EXPIRING_ITEMS).Absent?
  {
    assert |"keys"| == 4 && |"expires"| == 7 && "avg_ttl"[0] == 'a' && |"cached_keys"| == 11 && |"subexpiry"| == 9;
    assert |"keys_with_volatile_items"| == 24;
    var others := ["subexpiry", "keys_with_volatile_items"];
    assert others[1..] == ["keys_with_volatile_items"];
    OneName(fields, "avg_ttl");
    OneName(fields, "cached_keys");
    OneName(fields, "keys_with_volatile_items");
    assert FirstPresent(fields, others) == FirstPresent(fields, others[1..]);
  }
}
