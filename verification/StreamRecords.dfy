/** Replies about streams as a server prints them (`streams.go`): the not-acknowledged counts of a FULL
    reply, and the groups and consumers of the other two. */
module StreamRecords {
  import opened Wrappers
  import opened Redis
  import opened Streams

  // ---------- the entries of a FULL reply ----------

  /** A field of an entry that is neither its name nor its count. */
  predicate OtherField(field: Reply) {
    field != Bulk("name") && field != Status("name") && field != Bulk("nacked-count") && field != Status("nacked-count")
  }

  function Flattened(pairs: seq<(Reply, Reply)>): (fields: seq<Reply>)
    ensures |fields| == 2 * |pairs|
    ensures forall i :: 0 <= i < |pairs| ==> fields[2 * i] == pairs[i].0 && fields[2 * i + 1] == pairs[i].1
  {
    if |pairs| == 0 then []
    else
      var n := |pairs| - 1;
      Flattened(pairs[..n]) + [pairs[n].0, pairs[n].1]
  }

  /** An entry: its name, its count, and any other fields before, between and after them. */
  function EntryOf(name: string, count: int, a: seq<(Reply, Reply)>, b: seq<(Reply, Reply)>, c: seq<(Reply, Reply)>): Reply {
    Array(Flattened(a + [(Bulk("name"), Bulk(name))] + b + [(Bulk("nacked-count"), Integer(count))] + c))
  }

  ghost predicate Others(pairs: seq<(Reply, Reply)>) { forall i :: 0 <= i < |pairs| ==> OtherField(pairs[i].0) }

  /** The pairs read one after the other, from any state. */
  function ReadPairs(before: Nacked, pairs: seq<(Reply, Reply)>): Option<Nacked> {
    if |pairs| == 0 then Some(before)
    else
      match ReadPairs(before, pairs[..|pairs| - 1])
      case None => None
      case Some(e) =>
        var (key, value) := pairs[|pairs| - 1];
        if AsString(key) == Some("name") then
          (match AsString(value) case None => None case Some(name) => Some(e.(name := name)))
        else if AsString(key) == Some("nacked-count") then
          (match AsInt64(value) case None => None case Some(n) => Some(e.(count := Some(n))))
        else Some(e)
  }

  lemma {:induction false} PairsRead(pairs: seq<(Reply, Reply)>, n: nat)
    requires n <= |pairs|
    ensures NackedPairs(Flattened(pairs), n) == ReadPairs(Nacked("", None), pairs[..n])
  {
    if n != 0 {
      PairsRead(pairs, n - 1);
      assert pairs[..n][..n - 1] == pairs[..n - 1];
    }
  }

  lemma {:induction false} ReadMore(before: Nacked, a: seq<(Reply, Reply)>, b: seq<(Reply, Reply)>)
    requires ReadPairs(before, a).Some?
    ensures ReadPairs(before, a + b) == ReadPairs(ReadPairs(before, a).value, b)
  {
    if |b| == 0 {
      assert a + b == a;
    } else {
      assert (a + b)[..|a + b| - 1] == a + b[..|b| - 1];
      ReadMore(before, a, b[..|b| - 1]);
    }
  }

  lemma {:induction false} OthersIgnored(before: Nacked, pairs: seq<(Reply, Reply)>)
    requires Others(pairs)
    ensures ReadPairs(before, pairs) == Some(before)
  {
    if |pairs| != 0 {
      OthersIgnored(before, pairs[..|pairs| - 1]);
      assert OtherField(pairs[|pairs| - 1].0);
    }
  }

  lemma OnePair(before: Nacked, name: string, count: int)
    ensures ReadPairs(before, [(Bulk("name"), Bulk(name))]) == Some(before.(name := name))
    ensures ReadPairs(before, [(Bulk("nacked-count"), Integer(count))]) == Some(before.(count := Some(count)))
  {
    var a, b := [(Bulk("name"), Bulk(name))], [(Bulk("nacked-count"), Integer(count))];
    assert a[..0] == [] && b[..0] == [] && |"name"| != |"nacked-count"|;
  }

  /** An entry counts for the name it gives, with the count it gives, whatever else it has. */
  lemma EntryRead(name: string, count: int, a: seq<(Reply, Reply)>, b: seq<(Reply, Reply)>, c: seq<(Reply, Reply)>)
    requires Others(a) && Others(b) && Others(c)
    ensures NackedEntry(EntryOf(name, count, a, b, c)) == Some(Nacked(name, Some(count)))
  {
    hide ReadPairs;
    var p, q := [(Bulk("name"), Bulk(name))], [(Bulk("nacked-count"), Integer(count))];
    var none, named, full := Nacked("", None), Nacked(name, None), Nacked(name, Some(count));
    OthersIgnored(none, a);
    OnePair(none, name, count);
    OthersIgnored(named, b);
    OnePair(named, name, count);
    OthersIgnored(full, c);
    ReadMore(none, a, p);
    ReadMore(none, a + p, b);
    ReadMore(none, a + p + b, q);
    ReadMore(none, a + p + b + q, c);
    var pairs := a + p + b + q + c;
    PairsRead(pairs, |pairs|);
    assert pairs[..|pairs|] == pairs;
  }

  /** Without a count an entry counts for nothing; with a count that is no number the reply is an error. */
  lemma EntryWithout(name: string)
    ensures NackedEntry(Array([Bulk("name"), Bulk(name)])) == Some(Nacked(name, None))
    ensures NackedEntry(Array([Bulk("name"), Bulk(name), Bulk("nacked-count"), Nil])) == None
    ensures NackedEntry(Array([Bulk("name"), Nil])) == None && NackedEntry(Nil) == None
  {
    var a, b := [Bulk("name"), Bulk(name)], [Bulk("name"), Bulk(name), Bulk("nacked-count"), Nil];
    assert |"name"| != |"nacked-count"|;
    assert NackedPairs(a, 0) == Some(Nacked("", None)) && NackedPairs(b, 0) == Some(Nacked("", None));
    assert NackedPairs(b, 1) == Some(Nacked(name, None));
    assert NackedPairs([Bulk("name"), Nil], 0) == Some(Nacked("", None));
  }

  // ---------- where the entries are ----------

  /** The entries are those of the first field `groups`; other fields before it do not matter. */
  lemma {:induction false} GroupsFound(values: seq<Reply>, i: nat, at: nat)
    requires i <= at && (at - i) % 2 == 0 && at + 1 < |values| && values[at] == Bulk("groups")
    requires forall k :: i <= k < at && (k - i) % 2 == 0 ==> AsString(values[k]) != Some("groups")
    ensures FindGroups(values, i) == if values[at + 1].Array? then Some(values[at + 1].items) else None
    decreases at - i
  {
    if i < at {
      assert i + 2 <= at;
      GroupsFound(values, i + 2, at);
    }
  }

  lemma {:induction false} GroupsMissing(values: seq<Reply>, i: nat)
    requires forall k :: i <= k < |values| ==> AsString(values[k]) != Some("groups")
    ensures FindGroups(values, i) == Some([])
    decreases |values| - i
  {
    if i + 1 < |values| {
      GroupsMissing(values, i + 2);
    }
  }

  // ---------- the join ----------

  /** The names and counts a FULL reply prints, one entry each. */
  ghost predicate Prints(entries: seq<Reply>, names: seq<string>, counts: seq<int>) {
    && |entries| == |names| == |counts|
    && forall i :: 0 <= i < |entries| ==> NackedEntry(entries[i]) == Some(Nacked(names[i], Some(counts[i])))
  }

  /** A group is marked exactly when the FULL reply prints its name, with the count printed last, and
      has a name at all; nothing else of it changes. */
  lemma GroupMarked(entries: seq<Reply>, names: seq<string>, counts: seq<int>, scanned: Group, g: Group)
    requires Prints(entries, names, counts) && WithNacked(Some(entries), scanned, g)
    ensures g.fields == scanned.fields && g.consumers == scanned.consumers
    ensures g.nackedCountAvailable <==> scanned.fields.name in names && scanned.fields.name != ""
    ensures forall i: nat :: i < |names| && names[i] == scanned.fields.name && (forall j :: i < j < |names| ==> names[j] != names[i]) ==>
              g.nackedCount == if names[i] != "" then counts[i] else 0
  {
    hide NackedEntry;
    var name := scanned.fields.name;
    forall i | 0 <= i < |entries| ensures Counts(NackedEntry(entries[i]), name) <==> names[i] == name && name != "" {
    }
    forall i: nat | i < |names| && names[i] == name && (forall j :: i < j < |names| ==> names[j] != names[i])
      ensures g.nackedCount == if name != "" then counts[i] else 0
    {
      if name != "" {
        assert LastCounting(entries, name, i);
      }
    }
  }

  // ---------- groups and consumers ----------

  /** When every item can be decoded, each group is its own item, with the consumers of its own call. */
  lemma {:induction false} GroupsScanned<S>(srv: Server, d: Decoders<S>, db: string, key: string, items: seq<Reply>)
    requires forall i :: 0 <= i < |items| ==> GroupGiven(srv, d, db, key, items[i])
    ensures GroupsFrom(srv, d, db, key, items).Some?
    ensures var groups := GroupsFrom(srv, d, db, key, items).value;
            |groups| == |items| && forall i :: 0 <= i < |items| ==> groups[i] == GroupOf(srv, d, db, key, items[i])
  {
    if |items| != 0 {
      var n := |items| - 1;
      GroupsScanned(srv, d, db, key, items[..n]);
      assert GroupGiven(srv, d, db, key, items[n]);
    }
  }

  /** The item is a list that can be decoded, and the call for its consumers returns a list. */
  predicate GroupGiven<S>(srv: Server, d: Decoders<S>, db: string, key: string, item: Reply) {
    item.Array? && d.group(item.items).Some? && srv.answer(db, XInfoConsumers(key, d.group(item.items).value.name)).Array?
  }

  function GroupOf<S>(srv: Server, d: Decoders<S>, db: string, key: string, item: Reply): Group
    requires GroupGiven(srv, d, db, key, item)
  {
    var fields := d.group(item.items).value;
    Group(fields, 0, false, ConsumersFrom(d, srv.answer(db, XInfoConsumers(key, fields.name)).items))
  }

  /** The consumers are the items that can be decoded, in order. */
  lemma {:induction false} ConsumersScanned<S>(d: Decoders<S>, items: seq<Reply>)
    requires forall i :: 0 <= i < |items| ==> items[i].Array? && d.consumer(items[i].items).Some?
    ensures |ConsumersFrom(d, items)| == |items|
    ensures forall i :: 0 <= i < |items| ==> ConsumersFrom(d, items)[i] == d.consumer(items[i].items).value
  {
    if |items| != 0 {
      ConsumersScanned(d, items[..|items| - 1]);
    }
  }

  /** An item that is no list or cannot be decoded is left out, of groups as of consumers. */
  lemma UndecodedSkipped<S>(srv: Server, d: Decoders<S>, db: string, key: string, items: seq<Reply>, item: Reply)
    ensures !item.Array? || d.consumer(item.items).None? ==> ConsumersFrom(d, items + [item]) == ConsumersFrom(d, items)
    ensures !item.Array? || d.group(item.items).None? ==>
              GroupsFrom(srv, d, db, key, items + [item]) == GroupsFrom(srv, d, db, key, items)
  {
    assert (items + [item])[..|items|] == items;
  }

  /** The fields of a description are those of the stream's own call, and the entries those of its FULL
      reply. */
  lemma DescribedBy<S>(srv: Server, d: Decoders<S>, db: string, key: string, values: seq<Reply>, full: seq<Reply>,
                       info: Option<StreamInfo<S>>)
    requires srv.answer(db, XInfoStream(key)) == Array(values) && srv.answer(db, XInfoFull(key)) == Array(full)
    ensures InfoOf(srv, d, db, key, info) && info.Some? ==> d.stream(values) == Some(info.value.fields)
    ensures InfoOf(srv, d, db, key, info) && d.stream(values).None? ==> info == None
    ensures FindGroups(full, 0).Some? && AllEntriesParse(FindGroups(full, 0).value) ==>
              FullGroups(srv, db, key) == FindGroups(full, 0)
    ensures FindGroups(full, 0).None? ==> FullGroups(srv, db, key) == None
  {
    hide FindGroups, NackedEntry, ScannedGroups, WithNacked;
  }

  /** A FULL call that returns no list marks no group. */
  lemma NoFullReply(srv: Server, db: string, key: string, scanned: Group, g: Group)
    requires !srv.answer(db, XInfoFull(key)).Array?
    ensures WithNacked(FullGroups(srv, db, key), scanned, g) ==> !g.nackedCountAvailable && g.nackedCount == 0
  {
  }

  /** Any call that returns no list, or a stream that cannot be decoded, leaves the stream undescribed. */
  lemma Undescribed<S>(srv: Server, d: Decoders<S>, db: string, key: string, info: Option<StreamInfo<S>>)
    requires InfoOf(srv, d, db, key, info)
    requires !srv.answer(db, XInfoStream(key)).Array? || !srv.answer(db, XInfoGroups(key)).Array?
    ensures info == None
  {
  }
}
