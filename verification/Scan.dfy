/** Cursor runs of SCAN: expanding key patterns and counting keys (`keys.go`). */
module Scan {
  import opened Wrappers
  import opened Sums
  import opened Redis
  import opened Metrics
  import opened KeyInspection

  predicate IsGlob(key: string) {
    exists i :: 0 <= i < |key| && key[i] in {'?', '*', '[', ']', '^'}
  }

  // ---------- one cursor run ----------

  datatype ScanStep = ScanFailed | ScanBatch(keys: seq<Reply>, next: int)

  /** A reply to SCAN: two elements, a cursor and a batch. */
  function DecodeScan(r: Reply): ScanStep {
    match AsValues(r)
    case None => ScanFailed
    case Some(items) =>
      if |items| != 2 then ScanFailed
      else ScanBatch(GetOr(AsValues(items[1]), []), AsCursor(items[0]))
  }

  function ScanStepAt(srv: Server, db: string, pattern: string, count: int, cursor: int): ScanStep {
    DecodeScan(srv.answer(db, Redis.Scan(cursor, pattern, count)))
  }

  /** The run that starts at `cursor` ends, with cursor 0 or an error, after at most n + 1 replies. */
  ghost predicate ScanEnds(srv: Server, db: string, pattern: string, count: int, cursor: int, n: nat)
    decreases n
  {
    match ScanStepAt(srv, db, pattern, count, cursor)
    case ScanFailed => true
    case ScanBatch(_, next) => next == 0 || (n > 0 && ScanEnds(srv, db, pattern, count, next, n - 1))
  }

  ghost predicate ScanTerminates(srv: Server, db: string, pattern: string, count: int) {
    exists n: nat :: ScanEnds(srv, db, pattern, count, 0, n)
  }

  /** All batches of the run, in order; None when one of its replies is an error. */
  ghost function ScanFrom(srv: Server, db: string, pattern: string, count: int, cursor: int, n: nat): Option<seq<Reply>>
    requires ScanEnds(srv, db, pattern, count, cursor, n)
    decreases n
  {
    match ScanStepAt(srv, db, pattern, count, cursor)
    case ScanFailed => None
    case ScanBatch(keys, next) =>
      if next == 0 then Some(keys)
      else Prepend(keys, ScanFrom(srv, db, pattern, count, next, n - 1))
  }

  lemma {:induction false} ScanFromUnique(srv: Server, db: string, pattern: string, count: int, cursor: int, m: nat, n: nat)
    requires ScanEnds(srv, db, pattern, count, cursor, m) && ScanEnds(srv, db, pattern, count, cursor, n)
    ensures ScanFrom(srv, db, pattern, count, cursor, m) == ScanFrom(srv, db, pattern, count, cursor, n)
    decreases m
  {
    var step := ScanStepAt(srv, db, pattern, count, cursor);
    if step.ScanBatch? && step.next != 0 {
      ScanFromUnique(srv, db, pattern, count, step.next, m - 1, n - 1);
    }
  }

  /** What `scanKeys` returns in database `db`. */
  ghost function ScanResult(srv: Server, db: string, pattern: string, count: int): Option<seq<Reply>>
    requires ScanTerminates(srv, db, pattern, count)
  {
    if pattern == "" then None
    else
      var n: nat :| ScanEnds(srv, db, pattern, count, 0, n);
      ScanFrom(srv, db, pattern, count, 0, n)
  }

  /** Only reads that were meant happened, and the connection is as before. */
  ghost predicate OnlyAligned(before: Wire, after: Wire) {
    after.Idle() && after.selected == before.selected && GrowsAligned(before.log, after.log)
  }

  method ScanKeys(c: Conn, ghost db: string, pattern: string, count: int) returns (keys: Option<seq<Reply>>)
    requires c.View().Idle() && c.selected == db
    requires ScanTerminates(c.server, db, pattern, count)
    modifies c
    ensures OnlyAligned(old(c.View()), c.View())
    ensures keys == ScanResult(c.server, db, pattern, count)
  {
    if pattern == "" {
      return None;
    }
    ghost var n: nat :| ScanEnds(c.server, db, pattern, count, 0, n);
    ghost var m := n;
    forall k: nat | ScanEnds(c.server, db, pattern, count, 0, k) {
      ScanFromUnique(c.server, db, pattern, count, 0, k, n);
    }
    keys := Some([]);
    var iter := 0;
    PrependTwice([], [], ScanFrom(c.server, db, pattern, count, 0, n));
    while true
      invariant keys.Some? && OnlyAligned(old(c.View()), c.View())
      invariant ScanEnds(c.server, db, pattern, count, iter, m)
      invariant ScanFrom(c.server, db, pattern, count, 0, n)
             == Prepend(keys.value, ScanFrom(c.server, db, pattern, count, iter, m))
      decreases m
    {
      ghost var log := c.log;
      var reply := c.Ask(db, Redis.Scan(iter, pattern, count));
      GrowsOne(old(c.log), log, c.log[|log|]);
      var step := DecodeScan(reply);
      if step.ScanFailed? {
        return None;
      }
      ghost var before := keys.value;
      keys := Some(keys.value + step.keys);
      iter := step.next;
      if iter == 0 {
        return;
      }
      m := m - 1;
      PrependTwice(before, step.keys, ScanFrom(c.server, db, pattern, count, iter, m));
    }
  }

  // ---------- expanding patterns ----------

  /** `redis.Strings` on an array: nil elements become empty strings. */
  function AsStrings(elements: seq<Reply>): Option<seq<string>> {
    if |elements| == 0 then Some([])
    else
      var n := |elements| - 1;
      match AsStrings(elements[..n])
      case None => None
      case Some(names) =>
        if elements[n].Nil? then Some(names + [""])
        else
          match AsString(elements[n])
          case None => None
          case Some(name) => Some(names + [name])
  }

  function Tag(db: string): string -> seq<DbKey> {
    name => [DbKey(db, name)]
  }

  /** What one entry of the key list expands to: itself, or its matches in its own database
      (nothing when the scan fails). */
  ghost function ExpandOne(srv: Server, count: int, k: DbKey): seq<DbKey> {
    if !IsGlob(k.key) then [k]
    else if !ScanTerminates(srv, k.db, k.key, count) then []
    else
      match ScanResult(srv, k.db, k.key, count)
      case None => []
      case Some(elements) =>
        match AsStrings(elements)
        case None => []
        case Some(names) => Flat(names, Tag(k.db))
  }

  ghost function ExpandOf(srv: Server, count: int): DbKey -> seq<DbKey> {
    k => ExpandOne(srv, count, k)
  }

  /** The key needs no SELECT, or its SELECT succeeds. */
  predicate Expandable(srv: Server, k: DbKey) { IsGlob(k.key) ==> srv.selectable(k.db) }

  ghost predicate GlobsTerminate(srv: Server, count: int, keys: seq<DbKey>) {
    forall i :: 0 <= i < |keys| && IsGlob(keys[i].key) ==> ScanTerminates(srv, keys[i].db, keys[i].key, count)
  }

  method ExpandGlob(c: Conn, k: DbKey, count: int) returns (ok: bool, found: seq<DbKey>)
    requires c.outbox == [] && IsGlob(k.key)
    requires ScanTerminates(c.server, k.db, k.key, count)
    modifies c
    ensures c.View().Idle() && Moves(old(c.View()), c.View())
    ensures ok == (c.server.selectable(k.db) && !old(c.View()).Tainted())
    ensures ok ==> found == ExpandOne(c.server, count, k)
  {
    found := [];
    ghost var before := c.View();
    ok := c.SelectDatabase(k.db);
    if !ok {
      return;
    }
    ghost var selected := c.View();
    var elements := ScanKeys(c, k.db, k.key, count);
    MovesOn(before, selected, c.View());
    if elements.None? || AsStrings(elements.value).None? {
      return;
    }
    found := TagAll(k.db, AsStrings(elements.value).value);
  }

  method TagAll(db: string, names: seq<string>) returns (found: seq<DbKey>)
    ensures found == Flat(names, Tag(db))
  {
    found := [];
    for j := 0 to |names|
      invariant found == Flat(names[..j], Tag(db))
    {
      FlatStep(names, j, Tag(db));
      found := found + [DbKey(db, names[j])];
    }
    assert names[..|names|] == names;
  }

  ghost predicate HasGlob(keys: seq<DbKey>) { exists i :: 0 <= i < |keys| && IsGlob(keys[i].key) }

  /** Every pattern's database can be selected, and no earlier error is taken for a SELECT's. */
  ghost predicate AllExpandable(srv: Server, tainted: bool, keys: seq<DbKey>) {
    (forall i :: 0 <= i < |keys| ==> Expandable(srv, keys[i])) && !(tainted && HasGlob(keys))
  }

  /** `getKeysFromPatterns`: the flat map that keeps literal keys and replaces each pattern by its
      matches. A failed SELECT ends it with what was expanded so far. */
  method GetKeysFromPatterns(c: Conn, keys: seq<DbKey>, count: int) returns (ok: bool, expanded: seq<DbKey>, ghost stop: nat)
    requires c.outbox == [] && GlobsTerminate(c.server, count, keys)
    modifies c
    ensures Moves(old(c.View()), c.View())
    ensures if HasGlob(keys) then c.View().Idle() else c.View() == old(c.View())
    ensures ok <==> AllExpandable(c.server, old(c.View()).Tainted(), keys)
    ensures stop <= |keys| && expanded == Flat(keys[..stop], ExpandOf(c.server, count))
    ensures ok ==> stop == |keys| && expanded == Flat(keys, ExpandOf(c.server, count))
    ensures !ok ==> stop < |keys| && !AllExpandable(c.server, old(c.View()).Tainted(), keys[..stop + 1])
    ensures AllExpandable(c.server, old(c.View()).Tainted(), keys[..stop])
  {
    expanded := [];
    stop := 0;
    ghost var start := c.View();
    MovesNothing(start);
    for i := 0 to |keys|
      invariant Moves(start, c.View())
      invariant if HasGlob(keys[..i]) then c.View().Idle() else c.View() == start
      invariant stop == i
      invariant AllExpandable(c.server, start.Tainted(), keys[..i])
      invariant expanded == Flat(keys[..i], ExpandOf(c.server, count))
    {
      var k := keys[i];
      FlatStep(keys, i, ExpandOf(c.server, count));
      ExpandableStep(c.server, start.Tainted(), keys, i);
      if IsGlob(k.key) {
        ghost var before := c.View();
        var selected, found := ExpandGlob(c, k, count);
        MovesTransitive(start, before, c.View());
        if !selected {
          NotExpandable(c.server, start.Tainted(), keys, i);
          return false, expanded, stop;
        }
        expanded := expanded + found;
      } else {
        expanded := expanded + [k];
      }
      stop := i + 1;
    }
    assert keys[..|keys|] == keys;
    ok := true;
  }

  lemma ExpandableStep(srv: Server, tainted: bool, keys: seq<DbKey>, i: nat)
    requires i < |keys|
    ensures HasGlob(keys[..i + 1]) <==> HasGlob(keys[..i]) || IsGlob(keys[i].key)
    ensures AllExpandable(srv, tainted, keys[..i + 1]) <==>
            AllExpandable(srv, tainted, keys[..i]) && Expandable(srv, keys[i]) && !(tainted && IsGlob(keys[i].key))
    ensures HasGlob(keys[..i]) ==> HasGlob(keys)
  {
    hide IsGlob;
    var front := keys[..i + 1];
    assert front == keys[..i] + [keys[i]];
    assert front[i] == keys[i];
    if j :| 0 <= j < i && IsGlob(keys[..i][j].key) {
      assert front[j] == keys[..i][j] == keys[j];
    }
    if forall j :: 0 <= j < i + 1 ==> Expandable(srv, front[j]) {
      forall j | 0 <= j < i ensures Expandable(srv, keys[..i][j]) {
        assert front[j] == keys[..i][j];
      }
    }
  }

  lemma NotExpandable(srv: Server, tainted: bool, keys: seq<DbKey>, i: nat)
    requires i < |keys| && !AllExpandable(srv, tainted, keys[..i + 1])
    ensures !AllExpandable(srv, tainted, keys)
    ensures IsGlob(keys[i].key) ==> HasGlob(keys)
  {
    hide IsGlob, Expandable;
    var front := keys[..i + 1];
    if j :| 0 <= j < |front| && !Expandable(srv, front[j]) {
      assert keys[j] == front[j];
    }
    if j :| 0 <= j < |front| && IsGlob(front[j].key) {
      assert keys[j] == front[j];
    }
  }

  // ---------- counting keys ----------

  /** What one entry of the count-keys list contributes. */
  ghost function CountOne(srv: Server, count: int, k: DbKey): seq<Sample> {
    if !srv.selectable(k.db) || !ScanTerminates(srv, k.db, k.key, count) then []
    else
      match ScanResult(srv, k.db, k.key, count)
      case None => []
      case Some(elements) => [Sample("keys_count", |elements| as real, [DbLabel(k.db), k.key])]
  }

  ghost function CountOf(srv: Server, count: int): DbKey -> seq<Sample> {
    k => CountOne(srv, count, k)
  }

  method CountKey(ch: Channel, c: Conn, k: DbKey, count: int)
    requires c.outbox == [] && ScanTerminates(c.server, k.db, k.key, count)
    modifies ch, c
    ensures c.View().Idle() && Moves(old(c.View()), c.View())
    ensures ch.samples == old(ch.samples) + if old(c.View()).Tainted() then [] else CountOne(c.server, count, k)
  {
    ghost var before := c.View();
    var ok := c.SelectDatabase(k.db);
    if ok {
      ghost var selected := c.View();
      var elements := ScanKeys(c, k.db, k.key, count);
      MovesOn(before, selected, c.View());
      if elements.Some? {
        ch.Emit(Sample("keys_count", |elements.value| as real, [DbLabel(k.db), k.key]));
      }
    }
  }

  /** `extractCountKeysMetrics`, from the parsed list. An error left unread before it costs the first
      entry and nothing else. */
  method ExtractCountKeys(ch: Channel, c: Conn, keys: seq<DbKey>, count: int)
    requires c.outbox == []
    requires forall i :: 0 <= i < |keys| ==> ScanTerminates(c.server, keys[i].db, keys[i].key, count)
    modifies ch, c
    ensures Moves(old(c.View()), c.View())
    ensures if keys == [] then c.View() == old(c.View()) else c.View().Idle()
    ensures ch.samples == old(ch.samples) + Flat(Spared(old(c.View()).Tainted(), keys), CountOf(c.server, count))
  {
    hide Flat, CountOne, Moves, Spared, ScanTerminates;
    ghost var start, counts, base := c.View(), CountOf(c.server, count), ch.samples;
    MovesNothing(start);
    SparedNothing(base, start.Tainted(), keys, counts);
    for i := 0 to |keys|
      invariant Moves(start, c.View())
      invariant if i == 0 then c.View() == start else c.View().Idle()
      invariant ch.samples == base + Flat(Spared(start.Tainted(), keys[..i]), counts)
    {
      SparedStep(base, start.Tainted(), keys, i, counts);
      ghost var before := c.View();
      CountKey(ch, c, keys[i], count);
      MovesTransitive(start, before, c.View());
    }
  }

  /** SCAN's guarantee: every key present throughout the run is returned. */
  ghost predicate ReturnsAll(elements: seq<Reply>, matches: set<string>) {
    forall k :: k in matches ==> Bulk(k) in elements
  }

  /** SCAN returned nothing but the matches, and none of them twice. */
  ghost predicate ReturnsOnly(elements: seq<Reply>, matches: set<string>) {
    Distinct(elements) && forall i :: 0 <= i < |elements| ==> elements[i].Bulk? && elements[i].text in matches
  }

  /** Under that guarantee, `keys_count` is emitted once, is at least the number of matches, and is
      equal to it exactly when SCAN returned nothing else and nothing twice. */
  lemma KeysCountBounds(srv: Server, count: int, k: DbKey, matches: set<string>)
    requires srv.selectable(k.db) && ScanTerminates(srv, k.db, k.key, count) && ScanResult(srv, k.db, k.key, count).Some?
    requires ReturnsAll(ScanResult(srv, k.db, k.key, count).value, matches)
    ensures var emitted := CountOne(srv, count, k);
            && |emitted| == 1 && emitted[0].metric == "keys_count" && emitted[0].labels == [DbLabel(k.db), k.key]
            && emitted[0].value >= |matches| as real
            && (emitted[0].value == |matches| as real <==> ReturnsOnly(ScanResult(srv, k.db, k.key, count).value, matches))
  {
    hide ScanResult, ScanTerminates;
    ElementsBound(ScanResult(srv, k.db, k.key, count).value, matches);
  }

  lemma ElementsBound(elements: seq<Reply>, matches: set<string>)
    requires ReturnsAll(elements, matches)
    ensures |elements| >= |matches|
    ensures |elements| == |matches| <==> ReturnsOnly(elements, matches)
  {
    var returned := set e | e in elements;
    var wanted := set k | k in matches :: Bulk(k);
    WantedSize(matches);
    assert wanted <= returned;
    DistinctSize(elements);
    SubsetSize(wanted, returned);
    if |elements| == |matches| {
      forall i | 0 <= i < |elements| ensures elements[i].Bulk? && elements[i].text in matches {
        assert elements[i] in wanted;
      }
    }
    if Distinct(elements) && (forall i :: 0 <= i < |elements| ==> elements[i].Bulk? && elements[i].text in matches) {
      forall e | e in returned ensures e in wanted {
        assert e in elements && e.text in matches && e == Bulk(e.text);
      }
      assert wanted == returned;
    }
  }

  lemma {:induction false} WantedSize(matches: set<string>)
    ensures |set k | k in matches :: Bulk(k)| == |matches|
    decreases |matches|
  {
    if matches != {} {
      var x :| x in matches;
      WantedSize(matches - {x});
      assert (set k | k in matches :: Bulk(k)) == (set k | k in matches - {x} :: Bulk(k)) + {Bulk(x)};
    }
  }

  lemma {:induction false} SubsetSize<T>(a: set<T>, b: set<T>)
    requires a <= b
    ensures |a| <= |b|
    ensures |a| == |b| ==> a == b
    decreases |a|
  {
    if a != {} {
      var x :| x in a;
      SubsetSize(a - {x}, b - {x});
      if |a| == |b| {
        assert a == (a - {x}) + {x} == (b - {x}) + {x} == b;
      }
    } else if |b| == 0 {
      assert b == {};
    }
  }

  lemma {:induction false} DistinctSize<T>(s: seq<T>)
    ensures |set x | x in s| <= |s|
    ensures |set x | x in s| == |s| <==> Distinct(s)
  {
    if |s| != 0 {
      var n := |s| - 1;
      DistinctSize(s[..n]);
      assert s == s[..n] + [s[n]];
      var before := set x | x in s[..n];
      assert (set x | x in s) == before + {s[n]};
      if s[n] in before {
        assert before + {s[n]} == before;
        var i :| 0 <= i < n && s[..n][i] == s[n];
        assert s[i] == s[n];
      }
    }
  }
}
