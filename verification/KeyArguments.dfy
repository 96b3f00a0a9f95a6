/** The key list arguments (`parseKeyArg` in `keys.go`): comma separated `db=key` pairs, keys query
    escaped as in section 2.1 of RFC 3986 with `+` for a space. Text is a sequence of bytes, one
    char each. */
module KeyArguments {
  import opened Wrappers
  import opened Text
  import opened Sums
  import opened KeyInspection

  predicate IsBytes(s: string) { forall i :: 0 <= i < |s| ==> s[i] as int < 256 }

  // ---------- query escaping ----------

  predicate Unreserved(c: char) {
    'a' <= c <= 'z' || 'A' <= c <= 'Z' || '0' <= c <= '9' || c in {'-', '_', '.', '~'}
  }

  function HexDigit(d: nat): (c: char)
    requires d < 16
    ensures Unreserved(c)
  {
    if d < 10 then '0' + d as char else 'A' + (d - 10) as char
  }

  function HexValue(c: char): (v: Option<nat>)
    ensures v.Some? ==> v.value < 16
  {
    if '0' <= c <= '9' then Some((c - '0') as nat)
    else if 'a' <= c <= 'f' then Some((c - 'a') as nat + 10)
    else if 'A' <= c <= 'F' then Some((c - 'A') as nat + 10)
    else None
  }

  function EscapeByte(c: char): string
    requires c as int < 256
  {
    if Unreserved(c) then [c]
    else if c == ' ' then "+"
    else ['%', HexDigit(c as nat / 16), HexDigit(c as nat % 16)]
  }

  /** `url.QueryEscape`. */
  function QueryEscape(s: string): string
    requires IsBytes(s)
  {
    if s == "" then "" else EscapeByte(s[0]) + QueryEscape(s[1..])
  }

  /** `url.QueryUnescape`; None for a malformed escape. */
  function QueryUnescape(s: string): Option<string> {
    if s == "" then Some("")
    else if s[0] == '%' then
      if |s| < 3 || HexValue(s[1]).None? || HexValue(s[2]).None? then None
      else
        match QueryUnescape(s[3..])
        case None => None
        case Some(rest) => Some([(16 * HexValue(s[1]).value + HexValue(s[2]).value) as char] + rest)
    else
      match QueryUnescape(s[1..])
      case None => None
      case Some(rest) => Some([if s[0] == '+' then ' ' else s[0]] + rest)
  }

  lemma HexRoundTrip(d: nat)
    requires d < 16
    ensures HexValue(HexDigit(d)) == Some(d)
  {
  }

  /** Escaping any bytes and unescaping them again returns them. */
  lemma {:induction false} UnescapeEscape(s: string)
    requires IsBytes(s)
    ensures QueryUnescape(QueryEscape(s)) == Some(s)
  {
    if s != "" {
      var c, rest := s[0], QueryEscape(s[1..]);
      UnescapeEscape(s[1..]);
      assert s == [c] + s[1..];
      var e := EscapeByte(c) + rest;
      if Unreserved(c) || c == ' ' {
        assert e[1..] == rest;
      } else {
        HexRoundTrip(c as nat / 16);
        HexRoundTrip(c as nat % 16);
        assert e[3..] == rest;
      }
    }
  }

  /** Escaped text has no separator of the argument syntax and no white space. */
  lemma {:induction false} EscapedChars(s: string)
    requires IsBytes(s)
    ensures ',' !in QueryEscape(s) && '=' !in QueryEscape(s)
    ensures Trimmed(QueryEscape(s))
    ensures s != "" ==> QueryEscape(s) != ""
  {
    EscapedCharsAt(s);
  }

  lemma {:induction false} EscapedCharsAt(s: string)
    requires IsBytes(s)
    ensures forall i :: 0 <= i < |QueryEscape(s)| ==> Unreserved(QueryEscape(s)[i]) || QueryEscape(s)[i] in {'+', '%'}
  {
    if s != "" {
      EscapedCharsAt(s[1..]);
    }
  }

  // ---------- parsing ----------

  /** `strings.ReplaceAll(s, "db", "")`. */
  function RemoveDb(s: string): string {
    if s == "" then ""
    else if "db" <= s then RemoveDb(s[2..])
    else [s[0]] + RemoveDb(s[1..])
  }

  datatype Part = Empty | Bad | Pair(pair: DbKey)

  /** One comma separated part: skipped when it, its db or its key is empty. */
  function ParsePart(k: string): Part {
    if k == "" then Empty
    else
      var frags := Split(k, '=');
      if |frags| > 2 then Bad
      else
        var db := if |frags| == 1 then "0" else RemoveDb(TrimSpace(frags[0]));
        match QueryUnescape(TrimSpace(frags[|frags| - 1]))
        case None => Bad
        case Some(key) =>
          if db == "" || key == "" then Empty
          else
            var number := ParseInt64(db);
            if number.Valid? && number.n >= 0 then Pair(DbKey(db, key)) else Bad
  }

  function PairOf(): string -> seq<DbKey> {
    k => match ParsePart(k) case Pair(pair) => [pair] case _ => []
  }

  function Parts(arg: string): seq<string> {
    if arg == "" then [] else Split(arg, ',')
  }

  ghost predicate ValidPair(k: DbKey) {
    k.key != "" && k.db != "" && ParseInt64(k.db).Valid? && ParseInt64(k.db).n >= 0
  }

  ghost predicate NoneBad(parts: seq<string>) {
    forall i :: 0 <= i < |parts| ==> !ParsePart(parts[i]).Bad?
  }

  lemma ParsedPartValid(k: string)
    ensures ParsePart(k).Pair? ==> ValidPair(ParsePart(k).pair)
  {
  }

  lemma ParsedStep(parts: seq<string>, i: nat)
    requires i < |parts|
    ensures ParsePart(parts[i]).Pair? ==>
              Flat(parts[..i + 1], PairOf()) == Flat(parts[..i], PairOf()) + [ParsePart(parts[i]).pair]
    ensures !ParsePart(parts[i]).Pair? ==> Flat(parts[..i + 1], PairOf()) == Flat(parts[..i], PairOf())
  {
    FlatStep(parts, i, PairOf());
    assert PairOf()(parts[i]) == if ParsePart(parts[i]).Pair? then [ParsePart(parts[i]).pair] else [];
    hide ParsePart, Flat;
    assert Flat(parts[..i], PairOf()) + [] == Flat(parts[..i], PairOf());
  }

  lemma NoneBadStep(parts: seq<string>, i: nat)
    requires i < |parts| && NoneBad(parts[..i]) && !ParsePart(parts[i]).Bad?
    ensures NoneBad(parts[..i + 1])
  {
    hide ParsePart;
    assert parts[..i + 1] == parts[..i] + [parts[i]];
  }

  /** The loop of `parseKeyArg`. On an error the pairs before the bad part, number `stop`, are
      returned with it. */
  method ParseParts(parts: seq<string>) returns (ok: bool, keys: seq<DbKey>, ghost stop: nat)
    ensures stop <= |parts| && keys == Flat(parts[..stop], PairOf())
    ensures ok <==> stop == |parts|
    ensures !ok ==> ParsePart(parts[stop]).Bad?
    ensures NoneBad(parts[..stop])
    ensures forall i :: 0 <= i < |keys| ==> ValidPair(keys[i])
  {
    keys, stop := [], 0;
    assert Flat(parts[..0], PairOf()) == [] && NoneBad(parts[..0]);
    hide *;
    for i := 0 to |parts|
      invariant stop == i && keys == Flat(parts[..i], PairOf())
      invariant NoneBad(parts[..i])
      invariant forall j :: 0 <= j < |keys| ==> ValidPair(keys[j])
    {
      ParsedStep(parts, i);
      ParsedPartValid(parts[i]);
      var part := ParsePart(parts[i]);
      if part.Bad? {
        return false, keys, stop;
      }
      NoneBadStep(parts, i);
      if part.Pair? {
        keys := keys + [part.pair];
      }
      stop := i + 1;
    }
    ok := true;
  }

  /** The pairs of an argument; None when some part is bad. */
  ghost function Parsed(arg: string): Option<seq<DbKey>> {
    if NoneBad(Parts(arg)) then Some(Flat(Parts(arg), PairOf())) else None
  }

  /** `parseKeyArg`. */
  method ParseKeyArg(arg: string) returns (ok: bool, keys: seq<DbKey>)
    ensures ok <==> Parsed(arg).Some?
    ensures ok ==> keys == Parsed(arg).value
    ensures forall i :: 0 <= i < |keys| ==> ValidPair(keys[i])
  {
    if arg == "" {
      return true, [];
    }
    ghost var stop;
    ok, keys, stop := ParseParts(Split(arg, ','));
    assert Parts(arg)[..|Parts(arg)|] == Parts(arg);
  }

  // ---------- the round trip ----------

  datatype Target = Target(db: nat, key: string)

  ghost predicate Printable(t: Target) { t.db <= MAX_INT64 && t.key != "" && IsBytes(t.key) }

  function PrintTarget(t: Target): string
    requires Printable(t)
  {
    "db" + Itoa(t.db) + "=" + QueryEscape(t.key)
  }

  function PrintTargets(ts: seq<Target>): (printed: seq<string>)
    requires forall i :: 0 <= i < |ts| ==> Printable(ts[i])
    ensures |printed| == |ts|
  {
    seq(|ts|, i requires 0 <= i < |ts| => PrintTarget(ts[i]))
  }

  function AsPairs(ts: seq<Target>): seq<DbKey> {
    seq(|ts|, i requires 0 <= i < |ts| => DbKey(Itoa(ts[i].db), ts[i].key))
  }

  lemma {:induction false} RemoveDbDigits(s: string)
    requires AllDigits(s)
    ensures RemoveDb(s) == s && RemoveDb("db" + s) == s
  {
    assert ("db" + s)[2..] == s;
    if s != "" {
      assert IsDigit(s[0]) && s[0] != "db"[0];
      RemoveDbDigits(s[1..]);
    }
  }

  lemma PrintedPart(t: Target)
    requires Printable(t)
    ensures ParsePart(PrintTarget(t)) == Pair(DbKey(Itoa(t.db), t.key))
    ensures ',' !in PrintTarget(t) && PrintTarget(t) != ""
  {
    var db, key := "db" + Itoa(t.db), QueryEscape(t.key);
    EscapedChars(t.key);
    UnescapeEscape(t.key);
    assert IsDigit(Itoa(t.db)[|Itoa(t.db)| - 1]);
    assert Trimmed(db);
    RemoveDbDigits(Itoa(t.db));
    ParsePrinted(t.db);
    hide QueryUnescape, QueryEscape, RemoveDb, Itoa, ParseInt64;
    forall i | 0 <= i < |db| ensures db[i] != '=' && db[i] != ',' {
      assert db[i] == 'd' || db[i] == 'b' || IsDigit(db[i]);
    }
    assert PrintTarget(t) == db + ['='] + key;
    SplitPrefix(db, '=', key);
    SplitNoSep(key, '=');
    hide Split;
  }

  lemma {:induction false} PrintedPairs(ts: seq<Target>)
    requires forall i :: 0 <= i < |ts| ==> Printable(ts[i])
    ensures Flat(PrintTargets(ts), PairOf()) == AsPairs(ts)
  {
    hide ParsePart, PrintTarget;
    if |ts| != 0 {
      var n := |ts| - 1;
      PrintedPairs(ts[..n]);
      assert PrintTargets(ts)[..n] == PrintTargets(ts[..n]);
      PrintedPart(ts[n]);
      ParsedStep(PrintTargets(ts), n);
      assert PrintTargets(ts)[..n + 1] == PrintTargets(ts);
    }
  }

  /** Printing any list of targets and parsing it returns the same list in the same order. */
  lemma KeyArgRoundTrip(ts: seq<Target>)
    requires forall i :: 0 <= i < |ts| ==> Printable(ts[i])
    ensures var arg := Join(PrintTargets(ts), ',');
            Parsed(arg) == Some(AsPairs(ts))
  {
    var printed := PrintTargets(ts);
    forall i | 0 <= i < |ts|
      ensures ',' !in printed[i] && printed[i] != "" && !ParsePart(printed[i]).Bad?
    {
      PrintedPart(ts[i]);
    }
    PrintedPairs(ts);
    hide ParsePart, PrintTarget;
    if |ts| != 0 {
      SplitJoin(printed, ',');
      assert Join(printed, ',') != "" by {
        assert |printed[0]| > 0;
      }
    }
  }
}
