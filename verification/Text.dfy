/** The parts of Go's `strings` and `strconv` packages that the exporter's parsers rely on.
    Only ASCII white space is trimmed. */
module Text {
  import opened Wrappers

  const MAX_INT64: int := 0x7fff_ffff_ffff_ffff
  const MIN_INT64: int := -0x8000_0000_0000_0000
  const TWO_64: int := 0x1_0000_0000_0000_0000

  // ---------- predicates on text ----------

  predicate IsDigit(c: char) { '0' <= c <= '9' }

  predicate IsSpace(c: char) { c in {' ', '\t', '\n', '\r', '\U{000B}', '\U{000C}'} }

  predicate AllDigits(s: string) { forall i :: 0 <= i < |s| ==> IsDigit(s[i]) }

  predicate HasSuffix(s: string, suffix: string) {
    |suffix| <= |s| && s[|s| - |suffix|..] == suffix
  }

  /** No white space at either end: trimming changes nothing. */
  predicate Trimmed(s: string) {
    s == "" || (!IsSpace(s[0]) && !IsSpace(s[|s| - 1]))
  }

  lemma PrefixAgrees(a: string, b: string, k: nat)
    requires k < |a|
    ensures a <= b ==> k < |b| && a[k] == b[k]
  {
  }

  lemma SuffixAgrees(s: string, suffix: string)
    requires suffix != ""
    ensures HasSuffix(s, suffix) ==> |s| >= 1 && s[|s| - 1] == suffix[|suffix| - 1]
  {
  }

  // ---------- trimming ----------

  function TrimLeft(s: string): (r: string)
    ensures r == "" || !IsSpace(r[0])
  {
    if s == "" then "" else if IsSpace(s[0]) then TrimLeft(s[1..]) else s
  }

  function TrimRight(s: string): (r: string)
    ensures r <= s
    ensures r == "" || !IsSpace(r[|r| - 1])
  {
    if s == "" then "" else if IsSpace(s[|s| - 1]) then TrimRight(s[..|s| - 1]) else s
  }

  function TrimSpace(s: string): (r: string)
    ensures Trimmed(r)
    ensures Trimmed(s) ==> r == s
  {
    TrimRight(TrimLeft(s))
  }

  // ---------- splitting and joining ----------

  function Split(s: string, sep: char): (parts: seq<string>)
    ensures |parts| >= 1
    ensures forall i :: 0 <= i < |parts| ==> sep !in parts[i]
  {
    if s == "" then [""]
    else
      var rest := Split(s[1..], sep);
      if s[0] == sep then [""] + rest
      else [[s[0]] + rest[0]] + rest[1..]
  }

  function Join(parts: seq<string>, sep: char): string {
    if |parts| == 0 then ""
    else if |parts| == 1 then parts[0]
    else parts[0] + [sep] + Join(parts[1..], sep)
  }

  lemma JoinPair(a: string, b: string, sep: char)
    ensures Join([a, b], sep) == a + [sep] + b
  {
    assert [a, b][1..] == [b];
  }

  /** Splitting loses nothing: joining the parts rebuilds the text. */
  lemma {:induction false} JoinSplit(s: string, sep: char)
    ensures Join(Split(s, sep), sep) == s
  {
    if s != "" {
      JoinSplit(s[1..], sep);
      var rest := Split(s[1..], sep);
      var parts := Split(s, sep);
      if s[0] == sep {
        assert parts[1..] == rest;
      } else if |rest| > 1 {
        assert parts[1..] == rest[1..];
      }
    }
  }

  lemma {:induction false} SplitNoSep(s: string, sep: char)
    requires sep !in s
    ensures Split(s, sep) == [s]
  {
    if s != "" {
      assert sep !in s[1..];
      SplitNoSep(s[1..], sep);
      assert [s[0]] + s[1..] == s;
    }
  }

  lemma {:induction false} SplitPrefix(s: string, sep: char, rest: string)
    requires sep !in s
    ensures Split(s + [sep] + rest, sep) == [s] + Split(rest, sep)
  {
    var t := s + [sep] + rest;
    if s == "" {
      assert t[1..] == rest;
    } else {
      assert sep !in s[1..];
      assert t[1..] == s[1..] + [sep] + rest;
      SplitPrefix(s[1..], sep, rest);
      assert [s[0]] + s[1..] == s;
    }
  }

  /** Joining separator-free parts and splitting again returns the parts. */
  lemma {:induction false} SplitJoin(parts: seq<string>, sep: char)
    requires |parts| >= 1
    requires forall i :: 0 <= i < |parts| ==> sep !in parts[i]
    ensures Split(Join(parts, sep), sep) == parts
  {
    if |parts| == 1 {
      SplitNoSep(parts[0], sep);
    } else {
      SplitPrefix(parts[0], sep, Join(parts[1..], sep));
      SplitJoin(parts[1..], sep);
    }
  }

  /** `strings.Cut`: the text before and after the first separator. */
  function Cut(s: string, sep: char): (r: Option<(string, string)>)
    ensures r.Some? <==> sep in s
    ensures r.Some? ==> s == r.value.0 + [sep] + r.value.1 && sep !in r.value.0
  {
    if s == "" then None
    else if s[0] == sep then Some(("", s[1..]))
    else
      match Cut(s[1..], sep)
      case None => None
      case Some((before, after)) => Some(([s[0]] + before, after))
  }

  lemma {:induction false} CutPrinted(before: string, sep: char, after: string)
    requires sep !in before
    ensures Cut(before + [sep] + after, sep) == Some((before, after))
  {
    var s := before + [sep] + after;
    if before == "" {
      assert s[1..] == after;
    } else {
      assert sep !in before[1..];
      assert s[1..] == before[1..] + [sep] + after;
      CutPrinted(before[1..], sep, after);
      assert [before[0]] + before[1..] == before;
    }
  }

  // ---------- `key=value` parts ----------

  /** The part is this key, one `=`, and a value. */
  predicate Gives(part: string, key: string) { |Split(part, '=')| == 2 && Split(part, '=')[0] == key }

  /** The value of the last part with this key, "" without one. */
  function LastValue(parts: seq<string>, key: string): string {
    if |parts| == 0 then ""
    else if Gives(parts[|parts| - 1], key) then Split(parts[|parts| - 1], '=')[1]
    else LastValue(parts[..|parts| - 1], key)
  }

  // ---------- decimal numbers ----------

  function DigitChar(d: nat): (c: char)
    requires d < 10
    ensures IsDigit(c)
  {
    '0' + d as char
  }

  function Itoa(n: nat): (s: string)
    ensures s != "" && AllDigits(s)
  {
    if n < 10 then [DigitChar(n)] else Itoa(n / 10) + [DigitChar(n % 10)]
  }

  function DigitsValue(s: string): nat
    requires AllDigits(s)
  {
    if s == "" then 0
    else 10 * DigitsValue(s[..|s| - 1]) + (s[|s| - 1] - '0') as nat
  }

  /** Numbers are printed in decimal, the most significant digit first. */
  lemma NumberPrinted(n: nat, d: nat)
    requires d < 10
    ensures Itoa(d) == ["0123456789"[d]] && (n > 0 ==> Itoa(10 * n + d) == Itoa(n) + ["0123456789"[d]])
  {
  }

  lemma {:induction false} ItoaValue(n: nat)
    ensures DigitsValue(Itoa(n)) == n
  {
    if n >= 10 {
      ItoaValue(n / 10);
      assert Itoa(n)[..|Itoa(n)| - 1] == Itoa(n / 10);
    }
  }

  lemma ItoaInjective(m: nat, n: nat)
    requires Itoa(m) == Itoa(n)
    ensures m == n
  {
    ItoaValue(m);
    ItoaValue(n);
  }

  /** `strconv.ParseInt(s, 10, 64)`: an optional sign, then digits only. */
  datatype ParsedInt = Valid(n: int) | BadSyntax | OutOfRange(clamped: int)

  function ParseInt64(s: string): (r: ParsedInt)
    ensures r.Valid? ==> MIN_INT64 <= r.n <= MAX_INT64
    ensures r.OutOfRange? ==> r.clamped in {MIN_INT64, MAX_INT64}
  {
    var negative := s != "" && s[0] == '-';
    var digits := if s != "" && s[0] in {'-', '+'} then s[1..] else s;
    if digits == "" || !AllDigits(digits) then BadSyntax
    else
      var value: int := DigitsValue(digits);
      var n := if negative then -value else value;
      if n < MIN_INT64 then OutOfRange(MIN_INT64)
      else if n > MAX_INT64 then OutOfRange(MAX_INT64)
      else Valid(n)
  }

  /** `val, _ := strconv.Atoi(s)`: the error is dropped, the value Go returns with it is kept. */
  function AtoiLax(s: string): int {
    match ParseInt64(s)
    case Valid(n) => n
    case BadSyntax => 0
    case OutOfRange(clamped) => clamped
  }

  /** A printed number parses back to itself, as long as it fits a Go int. */
  lemma ParsePrinted(n: nat)
    requires n <= MAX_INT64
    ensures ParseInt64(Itoa(n)) == Valid(n)
  {
    ItoaValue(n);
    assert IsDigit(Itoa(n)[0]);
  }
}
