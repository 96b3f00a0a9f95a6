/** Key groups told key by key (`key_groups.go`): the name a key's captures give it, the memory it is
    charged, and the order groups are ranked in. */
module GroupNaming {
  import opened Wrappers
  import opened Redis
  import opened KeyGroups
  import opened GroupLimits

  // ---------- names ----------

  lemma {:induction false} ConcatAppend(a: seq<string>, b: seq<string>)
    ensures Concat(a + b) == Concat(a) + Concat(b)
  {
    if |a| == 0 {
      assert a + b == b;
    } else {
      assert (a + b)[1..] == a[1..] + b;
      ConcatAppend(a[1..], b);
    }
  }

  lemma ConcatOne(x: string)
    ensures Concat([x]) == x && Concat([]) == ""
  {
    assert [x][1..] == [];
  }

  /** The summed length of the first `n` captures. */
  function Offset(captures: seq<string>, n: nat): nat
    requires n <= |captures|
  {
    if n == 0 then 0 else Offset(captures, n - 1) + |captures[n - 1]|
  }

  /** `name` is the captures in order, one right after the other. */
  ghost predicate InOrder(captures: seq<string>, name: string) {
    && |name| == Offset(captures, |captures|)
    && forall i :: 0 <= i < |captures| ==>
         Offset(captures, i) + |captures[i]| <= |name|
         && name[Offset(captures, i)..Offset(captures, i) + |captures[i]|] == captures[i]
  }

  lemma {:induction false} ConcatLength(captures: seq<string>, n: nat)
    requires n <= |captures|
    ensures |Concat(captures[..n])| == Offset(captures, n)
  {
    if n != 0 {
      assert captures[..n] == captures[..n - 1] + [captures[n - 1]];
      ConcatLength(captures, n - 1);
      ConcatAppend(captures[..n - 1], [captures[n - 1]]);
      ConcatOne(captures[n - 1]);
    }
  }

  lemma ConcatAt(captures: seq<string>, i: nat)
    requires i < |captures|
    ensures var start := Offset(captures, i);
            start + |captures[i]| <= |Concat(captures)| && Concat(captures)[start..start + |captures[i]|] == captures[i]
  {
    hide Concat, Offset;
    var front, one, back := captures[..i], [captures[i]], captures[i + 1..];
    assert captures == front + one + back;
    ConcatAppend(front + one, back);
    ConcatAppend(front, one);
    ConcatOne(captures[i]);
    ConcatLength(captures, i);
  }

  lemma ConcatInOrder(captures: seq<string>)
    ensures InOrder(captures, Concat(captures))
  {
    hide Concat, Offset;
    ConcatLength(captures, |captures|);
    assert captures[..|captures|] == captures;
    forall i | 0 <= i < |captures|
      ensures Offset(captures, i) + |captures[i]| <= |Concat(captures)|
      ensures Concat(captures)[Offset(captures, i)..Offset(captures, i) + |captures[i]|] == captures[i]
    {
      ConcatAt(captures, i);
    }
  }

  /** A key's group is the captures of the first pattern that matches, in order, one right after the
      other; without a match it is `unclassified`. */
  lemma NamedByFirstMatch(p: Patterns, key: string, i: nat, captures: seq<string>)
    requires i < |p.list| && p.find(key, p.list[i]) == Some(captures)
    requires forall j :: 0 <= j < i ==> p.find(key, p.list[j]).None?
    ensures InOrder(captures, GroupOf(p, key))
  {
    FirstMatch(p, key, 0, i);
    ConcatInOrder(captures);
  }

  lemma {:induction false} FirstMatch(p: Patterns, key: string, from: nat, i: nat)
    requires from <= i < |p.list| && p.find(key, p.list[i]).Some?
    requires forall j :: from <= j < i ==> p.find(key, p.list[j]).None?
    ensures GroupFrom(p, key, from) == Concat(p.find(key, p.list[i]).value)
    decreases i - from
  {
    if from < i {
      FirstMatch(p, key, from + 1, i);
    }
  }

  lemma NamedUnclassified(p: Patterns, key: string)
    requires forall j :: 0 <= j < |p.list| ==> p.find(key, p.list[j]).None?
    ensures GroupOf(p, key) == "unclassified"
  {
    NoMatch(p, key, 0);
  }

  lemma {:induction false} NoMatch(p: Patterns, key: string, from: nat)
    requires from <= |p.list| && forall j :: from <= j < |p.list| ==> p.find(key, p.list[j]).None?
    ensures GroupFrom(p, key, from) == "unclassified"
    decreases |p.list| - from
  {
    if from < |p.list| {
      NoMatch(p, key, from + 1);
    }
  }

  /** A pattern with two captures names `user:42` after both, in order. */
  lemma TwoCaptures(p: Patterns)
    requires p.list == ["^(%a+):(%d+)$"] && p.find("user:42", "^(%a+):(%d+)$") == Some(["user", "42"])
    ensures GroupOf(p, "user:42") == "user42"
  {
    FirstMatch(p, "user:42", 0, 0);
    ConcatAppend(["user"], ["42"]);
    ConcatOne("user");
    ConcatOne("42");
    assert ["user"] + ["42"] == ["user", "42"];
  }

  // ---------- charges ----------

  /** Key by key: a numeric usage is charged, any other reply charges what the key before was charged,
      and nothing at the start of a batch. */
  lemma {:induction false} ChargedKeyByKey(p: Patterns, batch: seq<KeyUsage>, i: nat)
    requires i < |batch|
    ensures Charges(p, batch)[i].group == GroupOf(p, batch[i].key)
    ensures Charges(p, batch)[i].amount
         == match batch[i].usage
            case Some(n) => n
            case None => if i == 0 then 0 else Charges(p, batch)[i - 1].amount
    decreases |batch|
  {
    var n := |batch| - 1;
    if i < n {
      ChargedKeyByKey(p, batch[..n], i);
    } else if n > 0 {
      LastCharged(p, batch[..n]);
    } else {
      assert batch[..n] == [];
    }
  }

  lemma LastCharged(p: Patterns, batch: seq<KeyUsage>)
    requires |batch| > 0
    ensures Charges(p, batch)[|batch| - 1].amount == UsageAfter(batch)
  {
  }

  /** Reply `i` is a number, and the replies after it up to number `j` are not. */
  ghost predicate Carries(keys: seq<KeyUsage>, i: nat, j: nat) {
    i < j < |keys| && keys[i].usage.Some? && NoNumbers(keys, i + 1, j + 1)
  }

  /** Nothing is stale exactly when every number whose reply is followed by replies that are no numbers
      is 0. */
  lemma NothingStaleMeans(keys: seq<KeyUsage>)
    ensures NothingStale(keys) <==> forall i: nat, j: nat :: Carries(keys, i, j) ==> keys[i].usage.value == 0
  {
    if NothingStale(keys) {
      forall i: nat, j: nat | Carries(keys, i, j) ensures keys[i].usage.value == 0 {
        CarriedTo(keys, i, j);
        assert keys[j].usage.None?;
      }
    } else {
      var j :| 0 <= j < |keys| && keys[j].usage.None? && UsageAfter(keys[..j + 1]) != 0;
      var i := CarriedFrom(keys, j + 1);
      assert Carries(keys, i, j);
    }
  }

  /** The replies from `lo` up to `hi` are no numbers. */
  ghost predicate NoNumbers(keys: seq<KeyUsage>, lo: nat, hi: nat) {
    hi <= |keys| && forall k :: lo <= k < hi ==> keys[k].usage.None?
  }

  lemma {:induction false} CarriedTo(keys: seq<KeyUsage>, i: nat, j: nat)
    requires i <= j < |keys| && keys[i].usage.Some? && NoNumbers(keys, i + 1, j + 1)
    ensures UsageAfter(keys[..j + 1]) == keys[i].usage.value
    decreases j
  {
    assert keys[..j + 1][..j] == keys[..j];
    if i < j {
      CarriedTo(keys, i, j - 1);
    }
  }

  lemma {:induction false} CarriedFrom(keys: seq<KeyUsage>, n: nat) returns (i: nat)
    requires n <= |keys| && UsageAfter(keys[..n]) != 0
    ensures i < n && keys[i].usage.Some? && keys[i].usage.value == UsageAfter(keys[..n]) && NoNumbers(keys, i + 1, n)
  {
    assert n > 0 && keys[..n][..n - 1] == keys[..n - 1];
    if keys[n - 1].usage.Some? {
      i := n - 1;
    } else {
      i := CarriedFrom(keys, n - 1);
    }
  }

  // ---------- the order of the ranking ----------

  /** A group is ahead of another when it has more memory; with the same memory, when it has fewer keys;
      with as many of both, when its name comes first. */
  lemma RankedBy(a: Entry, b: Entry)
    ensures a.memory > b.memory ==> Before(a, b)
    ensures a.memory == b.memory && a.count < b.count ==> Before(a, b)
    ensures a.memory == b.memory && a.count == b.count ==> (Before(a, b) <==> LexLess(a.keyGroup, b.keyGroup))
  {
  }

  /** Names are compared at the first place where they differ; the beginning of a name comes before it. */
  lemma {:induction false} NamesCompared(shared: string, c: char, x: string, d: char, y: string)
    ensures LexLess(shared, shared + [c] + x)
    ensures c < d ==> LexLess(shared + [c] + x, shared + [d] + y)
  {
    if shared != "" {
      NamesCompared(shared[1..], c, x, d, y);
      assert (shared + [c] + x)[1..] == shared[1..] + [c] + x && (shared + [d] + y)[1..] == shared[1..] + [d] + y;
    }
  }
}
