/** Stream inspection (`streams.go`): the XINFO calls for one stream, and the join of the
    not-acknowledged counts into the consumer groups. */
module Streams {
  import opened Wrappers
  import opened Redis

  datatype GroupFields = GroupFields(name: string, consumers: int, pending: int, lastDeliveredId: string,
                                     entriesRead: int, lag: int)

  datatype Consumer = Consumer(name: string, pending: int, idle: int)

  /** `streamGroupsInfo`. */
  datatype Group = Group(fields: GroupFields, nackedCount: int, nackedCountAvailable: bool, consumers: seq<Consumer>)

  /** The client library's `ScanStruct`, which fills a struct from a list of names and values; None
      where it returns an error. `stream` covers all stream fields other than the groups. */
  datatype Decoders<!S> = Decoders(stream: seq<Reply> -> Option<S>,
                                   group: seq<Reply> -> Option<GroupFields>,
                                   consumer: seq<Reply> -> Option<Consumer>)

  datatype StreamInfo<S> = StreamInfo(fields: S, groups: seq<Group>)

  // ---------- groups and consumers ----------

  function DecodeWith<T>(decode: seq<Reply> -> Option<T>, r: Reply): Option<T> {
    match AsValues(r)
    case None => None
    case Some(values) => decode(values)
  }

  /** Consumers that cannot be decoded are skipped. */
  function ConsumersFrom<S>(d: Decoders<S>, items: seq<Reply>): seq<Consumer> {
    if |items| == 0 then []
    else
      var n := |items| - 1;
      ConsumersFrom(d, items[..n])
      + match DecodeWith(d.consumer, items[n]) case None => [] case Some(consumer) => [consumer]
  }

  function ConsumersOf<S>(srv: Server, d: Decoders<S>, db: string, key: string, group: string): Option<seq<Consumer>> {
    match AsValues(srv.answer(db, XInfoConsumers(key, group)))
    case None => None
    case Some(items) => Some(ConsumersFrom(d, items))
  }

  /** Groups that cannot be decoded are skipped; a failed consumer call fails the whole scan. */
  function GroupsFrom<S>(srv: Server, d: Decoders<S>, db: string, key: string, items: seq<Reply>): Option<seq<Group>> {
    if |items| == 0 then Some([])
    else
      var n := |items| - 1;
      match GroupsFrom(srv, d, db, key, items[..n])
      case None => None
      case Some(before) =>
        match DecodeWith(d.group, items[n])
        case None => Some(before)
        case Some(fields) =>
          match ConsumersOf(srv, d, db, key, fields.name)
          case None => None
          case Some(consumers) => Some(before + [Group(fields, 0, false, consumers)])
  }

  function ScannedGroups<S>(srv: Server, d: Decoders<S>, db: string, key: string): Option<seq<Group>> {
    match AsValues(srv.answer(db, XInfoGroups(key)))
    case None => None
    case Some(items) => GroupsFrom(srv, d, db, key, items)
  }

  method ScanStreamGroupConsumers<S>(c: Conn, ghost db: string, d: Decoders<S>, key: string, group: string)
      returns (consumers: Option<seq<Consumer>>)
    requires c.View().Idle() && c.selected == db
    modifies c
    ensures c.View().Idle() && c.selected == db && GrowsAligned(old(c.log), c.log)
    ensures consumers == ConsumersOf(c.server, d, db, key, group)
  {
    var reply := c.Ask(db, XInfoConsumers(key, group));
    if AsValues(reply).None? {
      return None;
    }
    var items := AsValues(reply).value;
    var result := DecodeConsumers(d, items);
    consumers := Some(result);
  }

  method DecodeConsumers<S>(d: Decoders<S>, items: seq<Reply>) returns (result: seq<Consumer>)
    ensures result == ConsumersFrom(d, items)
  {
    result := [];
    for i := 0 to |items|
      invariant result == ConsumersFrom(d, items[..i])
    {
      assert items[..i + 1][..i] == items[..i];
      var consumer := DecodeWith(d.consumer, items[i]);
      if consumer.Some? {
        result := result + [consumer.value];
      }
    }
    assert items[..|items|] == items;
  }

  lemma {:induction false} GroupsFromFailed<S>(srv: Server, d: Decoders<S>, db: string, key: string, items: seq<Reply>, i: nat)
    requires i <= |items| && GroupsFrom(srv, d, db, key, items[..i]).None?
    ensures GroupsFrom(srv, d, db, key, items).None?
    decreases |items|
  {
    var n := |items| - 1;
    if i == |items| {
      assert items[..i] == items;
    } else {
      assert items[..n][..i] == items[..i];
      GroupsFromFailed(srv, d, db, key, items[..n], i);
    }
  }

  method ScanStreamGroups<S>(c: Conn, ghost db: string, d: Decoders<S>, key: string) returns (groups: Option<seq<Group>>)
    requires c.View().Idle() && c.selected == db
    modifies c
    ensures c.View().Idle() && c.selected == db && GrowsAligned(old(c.log), c.log)
    ensures groups == ScannedGroups(c.server, d, db, key)
  {
    var reply := c.Ask(db, XInfoGroups(key));
    if AsValues(reply).None? {
      return None;
    }
    var items := AsValues(reply).value;
    var result := [];
    hide ConsumersOf;
    for i := 0 to |items|
      invariant c.View().Idle() && c.selected == db && GrowsAligned(old(c.log), c.log)
      invariant GroupsFrom(c.server, d, db, key, items[..i]) == Some(result)
    {
      assert items[..i + 1][..i] == items[..i];
      var fields := DecodeWith(d.group, items[i]);
      if fields.Some? {
        ghost var before := c.log;
        var consumers := ScanStreamGroupConsumers(c, db, d, key, fields.value.name);
        GrowsTransitive(old(c.log), before, c.log);
        if consumers.None? {
          GroupsFromFailed(c.server, d, db, key, items, i + 1);
          return None;
        }
        result := result + [Group(fields.value, 0, false, consumers.value)];
      }
    }
    assert items[..|items|] == items;
    groups := Some(result);
  }

  // ---------- not-acknowledged counts ----------

  /** The value of the first "groups" pair at or after `i`: an empty list when there is none, None
      when it is no list. */
  function FindGroups(values: seq<Reply>, i: nat): Option<seq<Reply>>
    decreases |values| - i
  {
    if i + 1 >= |values| then Some([])
    else if AsString(values[i]) == Some("groups") then AsValues(values[i + 1])
    else FindGroups(values, i + 2)
  }

  /** A group's name and count as the pair loop finds them: the last "name" and "nacked-count" win,
      and either one that does not convert is an error. */
  datatype Nacked = Nacked(name: string, count: Option<int>)

  function NackedPairs(fields: seq<Reply>, pairs: nat): Option<Nacked>
    requires 2 * pairs <= |fields|
  {
    if pairs == 0 then Some(Nacked("", None))
    else
      match NackedPairs(fields, pairs - 1)
      case None => None
      case Some(before) =>
        var key, value := AsString(fields[2 * pairs - 2]), fields[2 * pairs - 1];
        if key == Some("name") then
          (match AsString(value) case None => None case Some(name) => Some(before.(name := name)))
        else if key == Some("nacked-count") then
          (match AsInt64(value) case None => None case Some(n) => Some(before.(count := Some(n))))
        else Some(before)
  }

  function NackedEntry(raw: Reply): Option<Nacked> {
    match AsValues(raw)
    case None => None
    case Some(fields) => NackedPairs(fields, |fields| / 2)
  }

  predicate Counts(e: Option<Nacked>, name: string) {
    e.Some? && e.value.name == name && name != "" && e.value.count.Some?
  }

  /** Position `i` of the list holds the last entry that counts for `name`. */
  ghost predicate LastCounting(groups: seq<Reply>, name: string, i: nat) {
    && i < |groups| && Counts(NackedEntry(groups[i]), name)
    && forall j :: i < j < |groups| ==> !Counts(NackedEntry(groups[j]), name)
  }

  ghost predicate AllEntriesParse(groups: seq<Reply>) {
    forall i :: 0 <= i < |groups| ==> NackedEntry(groups[i]).Some?
  }

  /** `m` maps each name to the count of the last entry that counts for it. */
  ghost predicate NackedMap(groups: seq<Reply>, m: map<string, int>) {
    forall name: string ::
      && (name in m <==> exists i :: 0 <= i < |groups| && Counts(NackedEntry(groups[i]), name))
      && (forall i: nat :: LastCounting(groups, name, i) ==> name in m && m[name] == NackedEntry(groups[i]).value.count.value)
  }

  /** Where some entry counts for a name there is a last one, so the map has exactly one value for it. */
  lemma {:induction false} SomeLastCounting(groups: seq<Reply>, name: string, i: nat) returns (last: nat)
    requires i < |groups| && Counts(NackedEntry(groups[i]), name)
    ensures LastCounting(groups, name, last)
    decreases |groups| - i
  {
    if j: nat :| i < j < |groups| && Counts(NackedEntry(groups[j]), name) {
      last := SomeLastCounting(groups, name, j);
    } else {
      last := i;
    }
  }

  method ParseNackedEntry(fields: seq<Reply>) returns (e: Option<Nacked>)
    ensures e == NackedPairs(fields, |fields| / 2)
  {
    var name, count := "", None;
    var idx := 0;
    while idx + 1 < |fields|
      invariant idx % 2 == 0 && idx / 2 <= |fields| / 2
      invariant NackedPairs(fields, idx / 2) == Some(Nacked(name, count))
    {
      ghost var pairs := idx / 2 + 1;
      var key := AsString(fields[idx]);
      if key == Some("name") {
        var value := AsString(fields[idx + 1]);
        if value.None? {
          NackedPairsFailed(fields, pairs, |fields| / 2);
          return None;
        }
        name := value.value;
      } else if key == Some("nacked-count") {
        var value := AsInt64(fields[idx + 1]);
        if value.None? {
          NackedPairsFailed(fields, pairs, |fields| / 2);
          return None;
        }
        count := value;
      }
      idx := idx + 2;
    }
    e := Some(Nacked(name, count));
  }

  lemma {:induction false} NackedPairsFailed(fields: seq<Reply>, i: nat, pairs: nat)
    requires i <= pairs && 2 * pairs <= |fields| && NackedPairs(fields, i).None?
    ensures NackedPairs(fields, pairs).None?
    decreases pairs
  {
    if i < pairs {
      NackedPairsFailed(fields, i, pairs - 1);
    }
  }

  method FindGroupsValue(values: seq<Reply>) returns (groups: Option<seq<Reply>>)
    ensures groups == FindGroups(values, 0)
  {
    var idx := 0;
    while idx + 1 < |values|
      invariant FindGroups(values, idx) == FindGroups(values, 0)
    {
      if AsString(values[idx]) == Some("groups") {
        return AsValues(values[idx + 1]);
      }
      idx := idx + 2;
    }
    groups := Some([]);
  }

  /** `parseStreamGroupNackedCounts`. */
  method ParseNackedCounts(values: seq<Reply>) returns (counts: Option<map<string, int>>)
    ensures var groups := FindGroups(values, 0);
            && (counts.Some? <==> groups.Some? && AllEntriesParse(groups.value))
            && (counts.Some? ==> NackedMap(groups.value, counts.value))
  {
    var found := FindGroupsValue(values);
    if found.None? {
      return None;
    }
    var groups := found.value;
    var result: map<string, int> := map[];
    assert groups[..0] == [];
    hide NackedPairs;
    for i := 0 to |groups|
      invariant AllEntriesParse(groups[..i])
      invariant NackedMap(groups[..i], result)
    {
      var fields := AsValues(groups[i]);
      if fields.None? {
        return None;
      }
      var e := ParseNackedEntry(fields.value);
      assert e == NackedEntry(groups[i]);
      if e.None? {
        return None;
      }
      assert groups[..i + 1] == groups[..i] + [groups[i]];
      NackedMapStep(groups[..i], groups[i], result);
      if e.value.name != "" && e.value.count.Some? {
        result := result[e.value.name := e.value.count.value];
      }
    }
    assert groups[..|groups|] == groups;
    counts := Some(result);
  }

  lemma NackedMapStep(groups: seq<Reply>, raw: Reply, m: map<string, int>)
    requires NackedMap(groups, m) && NackedEntry(raw).Some?
    ensures var e := NackedEntry(raw).value;
            NackedMap(groups + [raw], if e.name != "" && e.count.Some? then m[e.name := e.count.value] else m)
  {
    hide NackedEntry;
    var e, all := NackedEntry(raw).value, groups + [raw];
    var after := if e.name != "" && e.count.Some? then m[e.name := e.count.value] else m;
    forall name: string
      ensures name in after <==> exists i :: 0 <= i < |all| && Counts(NackedEntry(all[i]), name)
      ensures forall i: nat :: LastCounting(all, name, i) ==> name in after && after[name] == NackedEntry(all[i]).value.count.value
    {
      var n := |groups|;
      assert all[n] == raw && forall i :: 0 <= i < n ==> all[i] == groups[i];
      if Counts(NackedEntry(raw), name) {
        assert name in after && Counts(NackedEntry(all[n]), name);
      } else {
        if name in after {
          var i :| 0 <= i < n && Counts(NackedEntry(groups[i]), name);
          assert Counts(NackedEntry(all[i]), name);
        }
        forall i: nat | LastCounting(all, name, i) ensures name in after && after[name] == NackedEntry(all[i]).value.count.value {
          assert LastCounting(groups, name, i);
        }
      }
    }
  }

  // ---------- the join ----------

  /** The group entries of the FULL reply, when it was fetched and parses. */
  ghost function FullGroups(srv: Server, db: string, key: string): Option<seq<Reply>> {
    match AsValues(srv.answer(db, XInfoFull(key)))
    case None => None
    case Some(values) =>
      match FindGroups(values, 0)
      case None => None
      case Some(groups) => if AllEntriesParse(groups) then Some(groups) else None
  }

  /** `g` is the scanned group with its not-acknowledged count: available exactly when the FULL
      reply was fetched and parsed and has an entry that counts for the group's name, and then
      the count of the last such entry. */
  ghost predicate WithNacked(full: Option<seq<Reply>>, scanned: Group, g: Group) {
    var name := scanned.fields.name;
    && g.fields == scanned.fields && g.consumers == scanned.consumers
    && (g.nackedCountAvailable <==> full.Some? && exists j :: 0 <= j < |full.value| && Counts(NackedEntry(full.value[j]), name))
    && (!g.nackedCountAvailable ==> g.nackedCount == 0)
    && (full.Some? ==>
          forall j: nat :: LastCounting(full.value, name, j) ==> g.nackedCount == NackedEntry(full.value[j]).value.count.value)
  }

  method ScanNackedCounts(c: Conn, ghost db: string, key: string) returns (counts: Option<map<string, int>>)
    requires c.View().Idle() && c.selected == db
    modifies c
    ensures c.View().Idle() && c.selected == db && GrowsAligned(old(c.log), c.log)
    ensures counts.Some? <==> FullGroups(c.server, db, key).Some?
    ensures counts.Some? ==> NackedMap(FullGroups(c.server, db, key).value, counts.value)
  {
    var reply := c.Ask(db, XInfoFull(key));
    if AsValues(reply).None? {
      return None;
    }
    var values := AsValues(reply).value;
    counts := ParseNackedCounts(values);
  }

  /** The update loop of `getStreamInfo`, in place. */
  method JoinCounts(groups: array<Group>, counts: map<string, int>, ghost full: seq<Reply>)
    requires NackedMap(full, counts)
    requires forall i :: 0 <= i < groups.Length ==> !groups[i].nackedCountAvailable && groups[i].nackedCount == 0
    modifies groups
    ensures forall i :: 0 <= i < groups.Length ==> WithNacked(Some(full), old(groups[i]), groups[i])
  {
    hide WithNacked, NackedMap;
    for idx := 0 to groups.Length
      invariant forall i :: 0 <= i < idx ==> WithNacked(Some(full), old(groups[i]), groups[i])
      invariant forall i :: idx <= i < groups.Length ==> groups[i] == old(groups[i])
    {
      var group := groups[idx];
      if group.fields.name in counts {
        groups[idx] := group.(nackedCount := counts[group.fields.name], nackedCountAvailable := true);
      }
      JoinOne(full, counts, group, groups[idx]);
    }
  }

  lemma JoinOne(full: seq<Reply>, counts: map<string, int>, scanned: Group, g: Group)
    requires NackedMap(full, counts)
    requires !scanned.nackedCountAvailable && scanned.nackedCount == 0
    requires g == if scanned.fields.name in counts
                  then scanned.(nackedCount := counts[scanned.fields.name], nackedCountAvailable := true) else scanned
    ensures WithNacked(Some(full), scanned, g)
  {
    hide NackedEntry;
    var name := scanned.fields.name;
    forall j: nat | LastCounting(full, name, j)
      ensures g.nackedCount == NackedEntry(full[j]).value.count.value
    {
      assert name in counts;
    }
  }

  lemma {:induction false} ScannedUnmarked<S>(srv: Server, d: Decoders<S>, db: string, key: string, items: seq<Reply>)
    ensures var groups := GroupsFrom(srv, d, db, key, items);
            groups.Some? ==>
              forall i :: 0 <= i < |groups.value| ==> !groups.value[i].nackedCountAvailable && groups.value[i].nackedCount == 0
  {
    if |items| != 0 {
      ScannedUnmarked(srv, d, db, key, items[..|items| - 1]);
    }
  }

  /** `info` is what there is to say about stream `key` of database `db`: its fields, and its groups
      in scan order, each with its not-acknowledged count. */
  ghost predicate InfoOf<S>(srv: Server, d: Decoders<S>, db: string, key: string, info: Option<StreamInfo<S>>) {
    var fields, scanned := DecodeWith(d.stream, srv.answer(db, XInfoStream(key))), ScannedGroups(srv, d, db, key);
    && (info.Some? <==> fields.Some? && scanned.Some?)
    && (info.Some? ==>
          && info.value.fields == fields.value
          && |info.value.groups| == |scanned.value|
          && forall i :: 0 <= i < |scanned.value| ==>
               WithNacked(FullGroups(srv, db, key), scanned.value[i], info.value.groups[i]))
  }

  /** `getStreamInfo`. */
  method GetStreamInfo<S>(c: Conn, ghost db: string, d: Decoders<S>, key: string) returns (info: Option<StreamInfo<S>>)
    requires c.View().Idle() && c.selected == db
    modifies c
    ensures c.View().Idle() && c.selected == db && GrowsAligned(old(c.log), c.log)
    ensures InfoOf(c.server, d, db, key, info)
  {
    var reply := c.Ask(db, XInfoStream(key));
    var fields := DecodeWith(d.stream, reply);
    if fields.None? {
      return None;
    }
    ghost var log1 := c.log;
    var scanned := ScanStreamGroups(c, db, d, key);
    GrowsTransitive(old(c.log), log1, c.log);
    if scanned.None? {
      return None;
    }
    hide ScannedGroups, FullGroups, NackedMap, WithNacked, InfoOf, AllAligned;
    Unmarked(c.server, d, db, key);
    var groups := scanned.value;
    if |groups| > 0 {
      ghost var log2 := c.log;
      var counts := ScanNackedCounts(c, db, key);
      GrowsTransitive(old(c.log), log2, c.log);
      if counts.Some? {
        groups := JoinedGroups(groups, counts.value, FullGroups(c.server, db, key).value);
      } else {
        NotJoined(scanned.value);
      }
    }
    info := Some(StreamInfo(fields.value, groups));
    InfoMade(c.server, d, db, key, info.value);
  }

  lemma Unmarked<S>(srv: Server, d: Decoders<S>, db: string, key: string)
    ensures var groups := ScannedGroups(srv, d, db, key);
            groups.Some? ==>
              forall i :: 0 <= i < |groups.value| ==> !groups.value[i].nackedCountAvailable && groups.value[i].nackedCount == 0
  {
    var items := AsValues(srv.answer(db, XInfoGroups(key)));
    if items.Some? {
      ScannedUnmarked(srv, d, db, key, items.value);
    }
  }

  /** Without a FULL reply that parses no group is marked. */
  lemma NotJoined(scanned: seq<Group>)
    requires forall i :: 0 <= i < |scanned| ==> !scanned[i].nackedCountAvailable && scanned[i].nackedCount == 0
    ensures forall i :: 0 <= i < |scanned| ==> WithNacked(None, scanned[i], scanned[i])
  {
  }

  lemma InfoMade<S>(srv: Server, d: Decoders<S>, db: string, key: string, info: StreamInfo<S>)
    requires DecodeWith(d.stream, srv.answer(db, XInfoStream(key))) == Some(info.fields)
    requires ScannedGroups(srv, d, db, key).Some?
    requires var scanned := ScannedGroups(srv, d, db, key).value;
             |info.groups| == |scanned|
             && forall i :: 0 <= i < |scanned| ==> WithNacked(FullGroups(srv, db, key), scanned[i], info.groups[i])
    ensures InfoOf(srv, d, db, key, Some(info))
  {
    hide ScannedGroups, FullGroups, WithNacked;
  }

  method JoinedGroups(scanned: seq<Group>, counts: map<string, int>, ghost full: seq<Reply>) returns (groups: seq<Group>)
    requires NackedMap(full, counts)
    requires forall i :: 0 <= i < |scanned| ==> !scanned[i].nackedCountAvailable && scanned[i].nackedCount == 0
    ensures |groups| == |scanned|
    ensures forall i :: 0 <= i < |scanned| ==> WithNacked(Some(full), scanned[i], groups[i])
  {
    hide WithNacked, NackedMap;
    var a := new Group[|scanned|](i requires 0 <= i < |scanned| => scanned[i]);
    JoinCounts(a, counts, full);
    groups := a[..];
  }
}
