/** Runs of SCAN as a server answers them (`keys.go`, `key_groups.go`): cursors printed as text, batch
    after batch until the cursor is 0; and what patterns expand to, key by key. */
module CursorRuns {
  import opened Wrappers
  import opened Text
  import opened Sums
  import opened Redis
  import opened Metrics
  import opened KeyInspection
  import opened Scan
  import KeyGroups

  const LARGEST := 9223372036854775807

  // ---------- cursors ----------

  /** A printed cursor is read back; one too large counts as the largest number there is, and one that
      is no number as 0. */
  lemma CursorRead(n: nat)
    ensures AsCursor(Bulk(Itoa(n))) == if n <= LARGEST then n else LARGEST
    ensures AsCursor(Integer(n)) == n && AsCursor(Bulk("")) == 0 && AsCursor(Nil) == 0
  {
    ItoaValue(n);
    assert IsDigit(Itoa(n)[0]);
  }

  /** The cursors of a run: 0 first, never 0 again, each small enough to be read back. */
  ghost predicate Cursors(cursors: seq<nat>) {
    && |cursors| >= 1 && cursors[0] == 0
    && (forall i :: 0 < i < |cursors| ==> cursors[i] != 0)
    && (forall i :: 0 <= i < |cursors| ==> cursors[i] <= LARGEST)
  }

  /** The cursor that follows number `i`: 0 after the last one. */
  function NextOf(cursors: seq<nat>, i: nat): nat
    requires i < |cursors|
  {
    if i + 1 < |cursors| then cursors[i + 1] else 0
  }

  /** All batches joined in order. */
  function Together<T>(batches: seq<seq<T>>): seq<T> {
    if |batches| == 0 then [] else batches[0] + Together(batches[1..])
  }

  // ---------- runs of SCAN ----------

  /** The server answers each cursor with the next one and a batch. */
  ghost predicate Answers(srv: Server, db: string, pattern: string, count: int, cursors: seq<nat>, batches: seq<seq<Reply>>) {
    && Cursors(cursors) && |batches| <= |cursors|
    && forall i :: 0 <= i < |batches| ==>
         srv.answer(db, Redis.Scan(cursors[i], pattern, count)) == Array([Bulk(Itoa(NextOf(cursors, i))), Array(batches[i])])
  }

  lemma StepRead(srv: Server, db: string, pattern: string, count: int, cursors: seq<nat>, batches: seq<seq<Reply>>, i: nat)
    requires Answers(srv, db, pattern, count, cursors, batches) && i < |batches|
    ensures ScanStepAt(srv, db, pattern, count, cursors[i]) == ScanBatch(batches[i], NextOf(cursors, i))
  {
    hide AsCursor, Itoa;
    CursorRead(NextOf(cursors, i));
  }

  /** The run from a cursor ends within n + 1 replies and gives `result`. */
  ghost predicate RunGives(srv: Server, db: string, pattern: string, count: int, cursor: int, n: nat, result: Option<seq<Reply>>) {
    ScanEnds(srv, db, pattern, count, cursor, n) && ScanFrom(srv, db, pattern, count, cursor, n) == result
  }

  lemma RunEnd(srv: Server, db: string, pattern: string, count: int, cursor: int, n: nat)
    ensures ScanStepAt(srv, db, pattern, count, cursor).ScanFailed? ==> RunGives(srv, db, pattern, count, cursor, n, None)
    ensures var step := ScanStepAt(srv, db, pattern, count, cursor);
            step.ScanBatch? && step.next == 0 ==> RunGives(srv, db, pattern, count, cursor, n, Some(step.keys))
  {
    hide ScanStepAt;
  }

  lemma RunOn(srv: Server, db: string, pattern: string, count: int, cursor: int, n: nat, rest: Option<seq<Reply>>)
    requires var step := ScanStepAt(srv, db, pattern, count, cursor);
             step.ScanBatch? && step.next != 0 && RunGives(srv, db, pattern, count, step.next, n, rest)
    ensures RunGives(srv, db, pattern, count, cursor, n + 1,
                     Prepend(ScanStepAt(srv, db, pattern, count, cursor).keys, rest))
  {
    hide ScanStepAt;
  }

  lemma {:induction false} RunFrom(srv: Server, db: string, pattern: string, count: int, cursors: seq<nat>,
                                  batches: seq<seq<Reply>>, i: nat)
    requires Answers(srv, db, pattern, count, cursors, batches) && |batches| == |cursors| && i < |cursors|
    ensures RunGives(srv, db, pattern, count, cursors[i], |cursors| - 1 - i, Some(Together(batches[i..])))
    decreases |cursors| - i
  {
    hide ScanStepAt, Answers, RunGives;
    StepRead(srv, db, pattern, count, cursors, batches, i);
    NextCursor(srv, db, pattern, count, cursors, batches, i);
    assert batches[i..][0] == batches[i] && batches[i..][1..] == batches[i + 1..];
    if i + 1 < |cursors| {
      RunFrom(srv, db, pattern, count, cursors, batches, i + 1);
      RunOn(srv, db, pattern, count, cursors[i], |cursors| - 2 - i, Some(Together(batches[i + 1..])));
    } else {
      assert batches[i + 1..] == [] && batches[i] + [] == batches[i];
      RunEnd(srv, db, pattern, count, cursors[i], 0);
    }
  }

  lemma NextCursor(srv: Server, db: string, pattern: string, count: int, cursors: seq<nat>, batches: seq<seq<Reply>>, i: nat)
    requires Answers(srv, db, pattern, count, cursors, batches) && i < |cursors|
    ensures NextOf(cursors, i) == 0 <==> i + 1 == |cursors|
  {
  }

  /** A run of any number of batches ends, and returns all of them joined in order; of an empty pattern
      there is no run. */
  lemma RunReturnsAll(srv: Server, db: string, pattern: string, count: int, cursors: seq<nat>, batches: seq<seq<Reply>>)
    requires Answers(srv, db, pattern, count, cursors, batches) && |batches| == |cursors|
    ensures ScanTerminates(srv, db, pattern, count)
    ensures ScanResult(srv, db, pattern, count) == if pattern == "" then None else Some(Together(batches))
  {
    RunFrom(srv, db, pattern, count, cursors, batches, 0);
    assert batches[0..] == batches;
    ScanIs(srv, db, pattern, count, |cursors| - 1);
  }

  lemma ScanIs(srv: Server, db: string, pattern: string, count: int, n: nat)
    requires ScanEnds(srv, db, pattern, count, 0, n)
    ensures ScanTerminates(srv, db, pattern, count)
    ensures pattern != "" ==> ScanResult(srv, db, pattern, count) == ScanFrom(srv, db, pattern, count, 0, n)
  {
    forall k: nat | ScanEnds(srv, db, pattern, count, 0, k) {
      ScanFromUnique(srv, db, pattern, count, 0, k, n);
    }
  }

  /** The reply is no pair. */
  predicate Malformed(r: Reply) { !r.Array? || |r.items| != 2 }

  lemma {:induction false} FailedFrom(srv: Server, db: string, pattern: string, count: int, cursors: seq<nat>,
                                     batches: seq<seq<Reply>>, i: nat)
    requires Answers(srv, db, pattern, count, cursors, batches) && |batches| == |cursors| - 1 && i < |cursors|
    requires Malformed(srv.answer(db, Redis.Scan(cursors[|cursors| - 1], pattern, count)))
    ensures RunGives(srv, db, pattern, count, cursors[i], |cursors| - 1 - i, None)
    decreases |cursors| - i
  {
    hide ScanStepAt, Answers, Malformed, RunGives;
    if i + 1 < |cursors| {
      StepRead(srv, db, pattern, count, cursors, batches, i);
      NextCursor(srv, db, pattern, count, cursors, batches, i);
      FailedFrom(srv, db, pattern, count, cursors, batches, i + 1);
      RunOn(srv, db, pattern, count, cursors[i], |cursors| - 2 - i, None);
    } else {
      MalformedFails(srv, db, pattern, count, cursors[i]);
      RunEnd(srv, db, pattern, count, cursors[i], 0);
    }
  }

  lemma MalformedFails(srv: Server, db: string, pattern: string, count: int, cursor: int)
    requires Malformed(srv.answer(db, Redis.Scan(cursor, pattern, count)))
    ensures ScanStepAt(srv, db, pattern, count, cursor).ScanFailed?
  {
  }

  /** A run whose last reply is an error or no pair returns nothing. */
  lemma RunFails(srv: Server, db: string, pattern: string, count: int, cursors: seq<nat>, batches: seq<seq<Reply>>)
    requires Answers(srv, db, pattern, count, cursors, batches) && |batches| == |cursors| - 1
    requires Malformed(srv.answer(db, Redis.Scan(cursors[|cursors| - 1], pattern, count)))
    ensures ScanTerminates(srv, db, pattern, count) && ScanResult(srv, db, pattern, count) == None
  {
    FailedFrom(srv, db, pattern, count, cursors, batches, 0);
    ScanIs(srv, db, pattern, count, |cursors| - 1);
  }

  // ---------- runs of the key group script ----------

  ghost predicate ScriptAnswers(srv: Server, db: string, count: int, cursors: seq<nat>, batches: seq<seq<KeyUsage>>) {
    && Cursors(cursors) && |batches| == |cursors|
    && forall i :: 0 <= i < |batches| ==>
         srv.answer(db, KeyGroupScript(cursors[i], count)) == Batch(Bulk(Itoa(NextOf(cursors, i))), batches[i])
  }

  ghost predicate ScriptGives(srv: Server, db: string, count: int, cursor: int, n: nat, batches: seq<seq<KeyUsage>>) {
    KeyGroups.BatchesEnd(srv, db, count, cursor, n) && KeyGroups.BatchesFrom(srv, db, count, cursor, n) == Some(batches)
  }

  lemma ScriptEnd(srv: Server, db: string, count: int, cursor: int, next: nat, keys: seq<KeyUsage>)
    requires srv.answer(db, KeyGroupScript(cursor, count)) == Batch(Bulk(Itoa(next)), keys) && next == 0
    ensures ScriptGives(srv, db, count, cursor, 0, [keys])
  {
    hide Itoa, AsCursor;
    CursorRead(next);
  }

  lemma ScriptOn(srv: Server, db: string, count: int, cursor: int, next: nat, keys: seq<KeyUsage>, n: nat,
                 rest: seq<seq<KeyUsage>>)
    requires srv.answer(db, KeyGroupScript(cursor, count)) == Batch(Bulk(Itoa(next)), keys) && 0 < next <= LARGEST
    requires ScriptGives(srv, db, count, next, n, rest)
    ensures ScriptGives(srv, db, count, cursor, n + 1, [keys] + rest)
  {
    hide Itoa, AsCursor;
    CursorRead(next);
  }

  lemma ScriptAnswered(srv: Server, db: string, count: int, cursors: seq<nat>, batches: seq<seq<KeyUsage>>, i: nat)
    requires ScriptAnswers(srv, db, count, cursors, batches) && i < |cursors|
    ensures |batches| == |cursors|
    ensures i + 1 < |cursors| ==>
              0 < cursors[i + 1] <= LARGEST
              && srv.answer(db, KeyGroupScript(cursors[i], count)) == Batch(Bulk(Itoa(cursors[i + 1])), batches[i])
    ensures i + 1 == |cursors| ==> srv.answer(db, KeyGroupScript(cursors[i], count)) == Batch(Bulk(Itoa(0)), batches[i])
  {
    hide Itoa;
  }

  lemma {:induction false} ScriptFrom(srv: Server, db: string, count: int, cursors: seq<nat>, batches: seq<seq<KeyUsage>>, i: nat)
    requires ScriptAnswers(srv, db, count, cursors, batches) && i < |cursors|
    ensures ScriptGives(srv, db, count, cursors[i], |cursors| - 1 - i, batches[i..])
    decreases |cursors| - i
  {
    hide ScriptGives, ScriptAnswers, Itoa;
    ScriptAnswered(srv, db, count, cursors, batches, i);
    assert batches[i..] == [batches[i]] + batches[i + 1..];
    if i + 1 < |cursors| {
      ScriptFrom(srv, db, count, cursors, batches, i + 1);
      ScriptOn(srv, db, count, cursors[i], cursors[i + 1], batches[i], |cursors| - 2 - i, batches[i + 1..]);
    } else {
      assert batches[i + 1..] == [] && [batches[i]] + [] == [batches[i]];
      ScriptEnd(srv, db, count, cursors[i], 0, batches[i]);
    }
  }

  /** The script is run until its cursor is 0, and every batch is gathered. */
  lemma ScriptReturnsAll(srv: Server, db: string, count: int, cursors: seq<nat>, batches: seq<seq<KeyUsage>>)
    requires ScriptAnswers(srv, db, count, cursors, batches)
    ensures KeyGroups.GroupsTerminate(srv, db, count) && KeyGroups.BatchesOf(srv, db, count) == Some(batches)
  {
    ScriptFrom(srv, db, count, cursors, batches, 0);
    assert batches[0..] == batches;
    KeyGroups.BatchesUnique(srv, db, count, |cursors| - 1);
  }

  // ---------- what a pattern expands to ----------

  /** A key is taken for a pattern exactly when it has one of five characters. */
  lemma PatternIff(key: string)
    ensures IsGlob(key) <==> '?' in key || '*' in key || '[' in key || ']' in key || '^' in key
  {
  }

  ghost predicate AllBulk(elements: seq<Reply>) { forall i :: 0 <= i < |elements| ==> elements[i].Bulk? }

  /** A list of replies is a list of text exactly when each is either kind of string or nil, which counts
      as the empty text. */
  lemma {:induction false} StringsAt(elements: seq<Reply>)
    ensures AsStrings(elements).Some?
       <==> forall i :: 0 <= i < |elements| ==> elements[i].Bulk? || elements[i].Status? || elements[i].Nil?
    ensures AsStrings(elements).Some? ==> |AsStrings(elements).value| == |elements|
    ensures AsStrings(elements).Some? ==>
              forall i :: 0 <= i < |elements| ==>
                AsStrings(elements).value[i] == if elements[i].Nil? then "" else elements[i].text
  {
    if |elements| != 0 {
      StringsAt(elements[..|elements| - 1]);
    }
  }

  lemma {:induction false} TaggedAt(db: string, names: seq<string>)
    ensures |Flat(names, Tag(db))| == |names|
    ensures forall i :: 0 <= i < |names| ==> Flat(names, Tag(db))[i] == DbKey(db, names[i])
  {
    if |names| != 0 {
      TaggedAt(db, names[..|names| - 1]);
    }
  }

  /** A literal key stays as it is. */
  lemma LiteralKept(srv: Server, count: int, k: DbKey)
    requires '?' !in k.key && '*' !in k.key && '[' !in k.key && ']' !in k.key && '^' !in k.key
    ensures ExpandOne(srv, count, k) == [k] && Expandable(srv, k)
  {
    PatternIff(k.key);
  }

  /** A pattern is replaced by all keys of all batches of its run, in order, each in the pattern's own
      database. */
  lemma PatternExpanded(srv: Server, count: int, k: DbKey, cursors: seq<nat>, batches: seq<seq<Reply>>)
    requires '?' in k.key || '*' in k.key || '[' in k.key || ']' in k.key || '^' in k.key
    requires Answers(srv, k.db, k.key, count, cursors, batches) && |batches| == |cursors| && AllBulk(Together(batches))
    ensures var found, all := ExpandOne(srv, count, k), Together(batches);
            |found| == |all| && forall i :: 0 <= i < |all| ==> found[i] == DbKey(k.db, all[i].text)
  {
    hide Answers, Tag;
    PatternIff(k.key);
    RunReturnsAll(srv, k.db, k.key, count, cursors, batches);
    StringsAt(Together(batches));
    TaggedAt(k.db, AsStrings(Together(batches)).value);
  }

  /** An element that is no text, or a reply of the run that is no pair, leaves nothing of a pattern, nor a
      failure that would end the expansion. */
  lemma PatternDropped(srv: Server, count: int, k: DbKey, cursors: seq<nat>, batches: seq<seq<Reply>>)
    requires '?' in k.key || '*' in k.key || '[' in k.key || ']' in k.key || '^' in k.key
    requires Answers(srv, k.db, k.key, count, cursors, batches)
    requires if |batches| == |cursors| then exists i :: 0 <= i < |Together(batches)| && NoText(Together(batches)[i])
             else |batches| == |cursors| - 1 && Malformed(srv.answer(k.db, Redis.Scan(cursors[|cursors| - 1], k.key, count)))
    ensures ExpandOne(srv, count, k) == [] && (Expandable(srv, k) <==> srv.selectable(k.db))
  {
    hide Answers, Tag, Malformed, AsStrings;
    PatternIff(k.key);
    if |batches| == |cursors| {
      RunReturnsAll(srv, k.db, k.key, count, cursors, batches);
      StringsAt(Together(batches));
    } else {
      RunFails(srv, k.db, k.key, count, cursors, batches);
    }
  }

  predicate NoText(r: Reply) { r.Integer? || r.Error? || r.Array? || r.Batch? }

  /** Whatever the replies, a key that an entry expands to has the entry's database. */
  lemma ExpandedInOwn(srv: Server, count: int, k: DbKey, i: nat)
    requires i < |ExpandOne(srv, count, k)|
    ensures ExpandOne(srv, count, k)[i].db == k.db
  {
    hide ScanResult, ScanTerminates, Tag, IsGlob;
    if IsGlob(k.key) {
      TaggedAt(k.db, AsStrings(ScanResult(srv, k.db, k.key, count).value).value);
    }
  }

  lemma {:induction false} ExpandedInSome(srv: Server, count: int, keys: seq<DbKey>, i: nat) returns (j: nat)
    requires i < |Flat(keys, ExpandOf(srv, count))|
    ensures j < |keys| && Flat(keys, ExpandOf(srv, count))[i] in ExpandOne(srv, count, keys[j])
    ensures Flat(keys, ExpandOf(srv, count))[i].db == keys[j].db
  {
    hide ExpandOne;
    var n := |keys| - 1;
    var before := Flat(keys[..n], ExpandOf(srv, count));
    if i < |before| {
      j := ExpandedInSome(srv, count, keys[..n], i);
    } else {
      j := n;
      ExpandedInOwn(srv, count, keys[n], i - |before|);
    }
  }

  /** The count of a pattern is the number of all keys of its run, under its own database and text. */
  lemma PatternCounted(srv: Server, count: int, k: DbKey, cursors: seq<nat>, batches: seq<seq<Reply>>)
    requires srv.selectable(k.db) && k.key != ""
    requires Answers(srv, k.db, k.key, count, cursors, batches) && |batches| == |cursors|
    ensures CountOne(srv, count, k) == [Sample("keys_count", |Together(batches)| as real, ["db" + k.db, k.key])]
  {
    hide Answers;
    RunReturnsAll(srv, k.db, k.key, count, cursors, batches);
  }
}
