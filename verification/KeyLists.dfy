/** The lists of keys in the exporter's options, as they are printed (`keys.go`, `streams.go`): which keys
    each family inspects, and in which databases. */
module KeyLists {
  import opened Wrappers
  import opened Text
  import opened Sums
  import opened Redis
  import opened KeyInspection
  import opened Scan
  import opened KeyArguments
  import opened CursorRuns
  import opened KeyPhase

  /** The option lists these keys. */
  ghost predicate Lists(option: string, ts: seq<Target>) {
    (forall i :: 0 <= i < |ts| ==> Printable(ts[i])) && option == Join(PrintTargets(ts), ',')
  }

  ghost predicate Working(srv: Server, ts: seq<Target>) { forall i :: 0 <= i < |ts| ==> srv.selectable(Itoa(ts[i].db)) }

  lemma ListsParsed(option: string, ts: seq<Target>)
    requires Lists(option, ts)
    ensures Parsed(option) == Some(AsPairs(ts))
  {
    KeyArgRoundTrip(ts);
  }

  lemma WorkingExpandable(srv: Server, ts: seq<Target>)
    requires Working(srv, ts)
    ensures AllExpandable(srv, false, AsPairs(ts))
  {
  }

  /** The keys of a family: its single keys as they are listed, then those its other keys expand to, each
      of which has the database of a listed key. */
  ghost predicate Inspects(srv: Server, batchSize: int, singles: seq<Target>, keys: seq<Target>, all: seq<DbKey>) {
    && |all| >= |singles|
    && (forall i :: 0 <= i < |singles| ==> all[i] == DbKey(Itoa(singles[i].db), singles[i].key))
    && all[|singles|..] == Flat(AsPairs(keys), ExpandOf(srv, batchSize))
    && (forall i :: |singles| <= i < |all| ==> exists j :: 0 <= j < |keys| && all[i].db == Itoa(keys[j].db))
  }

  lemma ExpandedInspects(srv: Server, batchSize: int, singles: seq<Target>, keys: seq<Target>)
    requires Working(srv, keys)
    ensures Inspects(srv, batchSize, singles, keys, WithExpanded(srv, false, batchSize, AsPairs(singles), AsPairs(keys)))
  {
    WorkingExpandable(srv, keys);
    hide ExpandOf, Flat, Working, AllExpandable;
    var found := Flat(AsPairs(keys), ExpandOf(srv, batchSize));
    forall i | 0 <= i < |found| ensures exists j :: 0 <= j < |keys| && found[i].db == Itoa(keys[j].db) {
      var j := ExpandedInSome(srv, batchSize, AsPairs(keys), i);
      assert found[i].db == Itoa(keys[j].db);
    }
    var all := AsPairs(singles) + found;
    assert all[|singles|..] == found;
    assert forall i :: |singles| <= i < |all| ==> all[i] == found[i - |singles|];
  }

  /** The checked keys are those of the options `checkSingleKeys` and `checkKeys`. */
  lemma CheckedAreListed<S>(srv: Server, opts: Options<S>, singles: seq<Target>, keys: seq<Target>)
    requires Lists(opts.checkSingleKeys, singles) && Lists(opts.checkKeys, keys) && Working(srv, keys)
    ensures CheckedKeys(srv, opts).Some? && Inspects(srv, opts.batchSize, singles, keys, CheckedKeys(srv, opts).value)
  {
    hide Inspects, WithExpanded, Parsed, Lists, Working;
    ListsParsed(opts.checkSingleKeys, singles);
    ListsParsed(opts.checkKeys, keys);
    ExpandedInspects(srv, opts.batchSize, singles, keys);
  }

  /** The streams are those of the options `checkSingleStreams` and `checkStreams`. */
  lemma StreamsAreListed<S>(srv: Server, opts: Options<S>, singles: seq<Target>, keys: seq<Target>)
    requires Lists(opts.checkSingleStreams, singles) && Lists(opts.checkStreams, keys) && Working(srv, keys)
    ensures Inspects(srv, opts.batchSize, singles, keys, StreamKeys(srv, opts, false))
  {
    hide Inspects, WithExpanded, Parsed, Lists, Working;
    ListsParsed(opts.checkSingleStreams, singles);
    ListsParsed(opts.checkStreams, keys);
    ExpandedInspects(srv, opts.batchSize, singles, keys);
  }

  /** The counted keys are those of the option `countKeys`. */
  lemma CountedAreListed<S>(opts: Options<S>, keys: seq<Target>)
    requires Lists(opts.countKeys, keys)
    ensures |CountKeys(opts)| == |keys|
    ensures forall i :: 0 <= i < |keys| ==> CountKeys(opts)[i] == DbKey(Itoa(keys[i].db), keys[i].key)
  {
    hide Parsed, Lists;
    ListsParsed(opts.countKeys, keys);
  }

  /** Where the SELECT of a listed pattern fails only the single keys are inspected. */
  lemma FailedExpansion<S>(srv: Server, opts: Options<S>, singles: seq<Target>, keys: seq<Target>, i: nat)
    requires Lists(opts.checkSingleKeys, singles) && Lists(opts.checkKeys, keys)
    requires i < |keys| && '*' in keys[i].key && !srv.selectable(Itoa(keys[i].db))
    ensures CheckedKeys(srv, opts) == Some(AsPairs(singles))
  {
    hide Parsed, Lists;
    ListsParsed(opts.checkSingleKeys, singles);
    ListsParsed(opts.checkKeys, keys);
    PatternIff(keys[i].key);
    assert !Expandable(srv, AsPairs(keys)[i]);
  }

  // ---------- the printed form ----------

  /** Letters, digits and four other characters stand for themselves, a blank is printed as `+`, and any
      other byte as two hexadecimal digits, which are read in either case. */
  lemma EscapesPrinted(c: char)
    requires c as int < 256
    ensures var code := c as nat;
            EscapeByte(c) == if Letter(c) || c in "0123456789-_.~" then [c]
                             else if c == ' ' then "+"
                             else ['%', "0123456789ABCDEF"[code / 16], "0123456789ABCDEF"[code % 16]]
    ensures QueryUnescape("%2f%2F") == Some("//") && QueryUnescape("%") == None && QueryUnescape("%4g") == None
  {
    SomeEscapes();
    HexDigits(c as nat / 16);
    HexDigits(c as nat % 16);
    hide HexDigit, HexValue, QueryUnescape;
  }

  predicate Letter(c: char) { 'a' <= c <= 'z' || 'A' <= c <= 'Z' }

  lemma HexDigits(d: nat)
    requires d < 16
    ensures HexDigit(d) == "0123456789ABCDEF"[d]
  {
  }

  lemma SomeEscapes()
    ensures QueryUnescape("%2f%2F") == Some("//") && QueryUnescape("%") == None && QueryUnescape("%4g") == None
  {
    assert HexValue('2') == Some(2) && HexValue('F') == Some(15) && HexValue('f') == Some(15) && HexValue('g') == None;
    assert (16 * 2 + 15) as char == '/';
    hide HexValue;
    assert "%2f%2F" == ['%', '2', 'f'] + "%2F" && "%2F" == ['%', '2', 'F'] + "" && "%4g"[2] == 'g';
    EscapeRead('2', 'F', "", "");
    assert ['/'] + "" == "/" && ['/'] + "/" == "//";
    EscapeRead('2', 'f', "%2F", "/");
  }

  lemma EscapeRead(a: char, b: char, rest: string, text: string)
    requires HexValue(a).Some? && HexValue(b).Some? && QueryUnescape(rest) == Some(text)
    ensures QueryUnescape(['%', a, b] + rest) == Some([(16 * HexValue(a).value + HexValue(b).value) as char] + text)
  {
    hide HexValue;
    assert (['%', a, b] + rest)[3..] == rest;
  }

  /** An option lists its keys separated by commas, each after its database. */
  lemma OptionPrinted(a: Target, b: Target, option: string)
    requires Printable(a) && Printable(b) && Lists(option, [a, b])
    ensures option == PrintTarget(a) + "," + PrintTarget(b)
  {
    hide PrintTarget;
    var printed := PrintTargets([a, b]);
    assert printed == [PrintTarget(a), PrintTarget(b)];
    JoinPair(PrintTarget(a), PrintTarget(b), ',');
    hide Join;
  }

  lemma TargetPrinted()
    ensures PrintTarget(Target(3, "x")) == "db3=x"
  {
    NumberPrinted(0, 3);
    assert "x"[1..] == "";
    assert QueryEscape("x") == EscapeByte('x') + QueryEscape("") == "x";
    hide QueryEscape, Itoa;
  }

  // ---------- other forms of an argument ----------

  /** A key without a database is of database 0. */
  lemma BareKey(key: string)
    requires key != "" && IsBytes(key)
    ensures ParsePart(QueryEscape(key)) == Pair(DbKey("0", key))
  {
    EscapedChars(key);
    UnescapeEscape(key);
    SplitNoSep(QueryEscape(key), '=');
    ParsePrinted(0);
    assert Itoa(0) == "0";
    hide QueryEscape, QueryUnescape, Split;
  }

  /** A part with one `=`, from its two sides once they are read. */
  lemma TwoSides(left: string, right: string, db: string, key: string)
    requires '=' !in left && '=' !in right
    requires RemoveDb(TrimSpace(left)) == db && QueryUnescape(TrimSpace(right)) == Some(key)
    ensures ParsePart(left + "=" + right)
         == if db == "" || key == "" then Empty
            else if ParseInt64(db).Valid? && ParseInt64(db).n >= 0 then Pair(DbKey(db, key)) else Bad
  {
    hide RemoveDb, QueryUnescape, TrimSpace, ParseInt64, Split;
    assert left + "=" + right == left + ['='] + right;
    SplitPrefix(left, '=', right);
    SplitNoSep(right, '=');
  }

  lemma KeySide(key: string)
    requires IsBytes(key)
    ensures '=' !in QueryEscape(key) && Trimmed(QueryEscape(key))
    ensures QueryUnescape(TrimSpace(QueryEscape(key))) == Some(key)
    ensures QueryUnescape(TrimSpace(" " + QueryEscape(key) + " ")) == Some(key)
  {
    hide QueryEscape, QueryUnescape, TrimSpace;
    EscapedChars(key);
    UnescapeEscape(key);
    Spaced(QueryEscape(key));
  }

  lemma DatabaseSide(db: nat)
    requires db <= 9223372036854775807
    ensures '=' !in Itoa(db) && Itoa(db) != "" && ParseInt64(Itoa(db)) == Valid(db)
    ensures RemoveDb(TrimSpace("db" + Itoa(db))) == Itoa(db) && RemoveDb(TrimSpace(" db" + Itoa(db) + " ")) == Itoa(db)
  {
    hide TrimSpace, Itoa, RemoveDb, ParseInt64;
    NoEquals(db);
    ParsePrinted(db);
    RemoveDbDigits(Itoa(db));
    Spaced("db" + Itoa(db));
    assert " db" + Itoa(db) + " " == " " + ("db" + Itoa(db)) + " ";
  }

  lemma NoEquals(db: nat)
    ensures '=' !in Itoa(db) && Trimmed("db" + Itoa(db)) && Itoa(db) != ""
  {
    var s := Itoa(db);
    assert IsDigit(s[|s| - 1]);
    assert forall i :: 0 <= i < |s| ==> IsDigit(s[i]);
  }

  lemma Spaced(s: string)
    requires Trimmed(s)
    ensures TrimSpace(" " + s + " ") == s && TrimSpace(s) == s
  {
    assert (" " + s + " ")[1..] == s + " ";
    assert (s + " ")[..|s + " "| - 1] == s;
    if s == "" {
      assert s + " " == " " && " "[1..] == "";
      assert TrimLeft(" ") == TrimLeft(" "[1..]);
    } else {
      assert (s + " ")[0] == s[0];
      assert TrimLeft(" " + s + " ") == TrimLeft(s + " ") == s + " ";
      assert TrimRight(s + " ") == TrimRight(s) == s;
    }
  }

  /** White space around the parts of a pair, and any `db` in its first one, are dropped. */
  lemma SpacedPair(db: nat, key: string)
    requires db <= 9223372036854775807 && key != "" && IsBytes(key)
    ensures ParsePart(" db" + Itoa(db) + " " + "=" + (" " + QueryEscape(key) + " ")) == Pair(DbKey(Itoa(db), key))
  {
    hide *;
    KeySide(key);
    DatabaseSide(db);
    TwoSides(" db" + Itoa(db) + " ", " " + QueryEscape(key) + " ", Itoa(db), key);
  }

  /** Every `db` in the first side is dropped, but not one that dropping others leaves behind. */
  lemma DatabaseNames()
    ensures RemoveDb("1db2db") == "12" && RemoveDb("ddbb") == "db" && RemoveDb("bd") == "bd"
  {
    assert "1db2db"[1..] == "db2db" && "db2db"[2..] == "2db" && "2db"[1..] == "db" && "db"[2..] == "";
    assert "ddbb"[1..] == "dbb" && "dbb"[2..] == "b" && "b"[1..] == "" && "bd"[1..] == "d" && "d"[1..] == "";
    assert RemoveDb("db") == "" && RemoveDb("2db") == "2" && RemoveDb("dbb") == "b";
  }

  /** A pair with an empty side is skipped, and so is an empty part. */
  lemma EmptySides(db: nat, key: string)
    requires db <= 9223372036854775807 && IsBytes(key)
    ensures ParsePart("") == Empty
    ensures ParsePart("" + "=" + QueryEscape(key)) == Empty && ParsePart("db" + Itoa(db) + "=" + "") == Empty
  {
    hide QueryEscape, QueryUnescape, RemoveDb, Itoa, ParseInt64, ParsePart;
    KeySide(key);
    DatabaseSide(db);
    EmptySide();
    TwoSides("", QueryEscape(key), "", key);
    TwoSides("db" + Itoa(db), "", Itoa(db), "");
  }

  lemma EmptySide()
    ensures RemoveDb(TrimSpace("")) == "" && QueryUnescape(TrimSpace("")) == Some("") && ParsePart("") == Empty
  {
  }

  /** A negative database, one that is no number, and a second `=` are errors. */
  lemma RefusedPairs(db: nat, key: string)
    requires 0 < db <= 9223372036854775807 && key != "" && IsBytes(key)
    ensures ParsePart("-" + Itoa(db) + "=" + QueryEscape(key)) == Bad && ParsePart("x" + "=" + QueryEscape(key)) == Bad
    ensures ParsePart("1" + "=" + (QueryEscape(key) + "=")) == Bad
  {
    hide QueryEscape, QueryUnescape, RemoveDb, TrimSpace, ParseInt64, ParsePart, Itoa;
    KeySide(key);
    NoEquals(db);
    NegativeSide(db);
    TwoSides("-" + Itoa(db), QueryEscape(key), "-" + Itoa(db), key);
    TwoSides("x", QueryEscape(key), "x", key);
    SecondEquals(QueryEscape(key));
  }

  lemma NegativeSide(db: nat)
    requires 0 < db <= 9223372036854775807
    ensures RemoveDb(TrimSpace("-" + Itoa(db))) == "-" + Itoa(db) && RemoveDb(TrimSpace("x")) == "x"
    ensures ParseInt64("-" + Itoa(db)) == Valid(-(db as int)) && ParseInt64("x") == BadSyntax
  {
    var minus := "-" + Itoa(db);
    NoEquals(db);
    ItoaValue(db);
    RemoveDbDigits(Itoa(db));
    hide Itoa;
    assert minus[1..] == Itoa(db) && minus[|minus| - 1] == Itoa(db)[|Itoa(db)| - 1];
    assert ("db" + Itoa(db))[|"db" + Itoa(db)| - 1] == Itoa(db)[|Itoa(db)| - 1];
    assert Trimmed(minus) && Trimmed("x") && "x"[1..] == "";
    assert RemoveDb("x") == ['x'] + RemoveDb("x"[1..]);
  }

  lemma SecondEquals(k: string)
    requires '=' !in k
    ensures ParsePart("1" + "=" + (k + "=")) == Bad
  {
    hide Split;
    assert "1" + ['='] + (k + "=") == "1" + "=" + (k + "=") && k + ['='] + "" == k + "=";
    SplitPrefix("1", '=', k + "=");
    SplitPrefix(k, '=', "");
    SplitNoSep("", '=');
  }
}
