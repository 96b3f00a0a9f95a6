/** Printed lists of `key=value` fields, as CLIENT LIST and the replicas of INFO have them. */
module FieldText {
  import opened Text

  /** Text that can stand on either side of `=`. */
  predicate Plain(s: string) { forall i :: 0 <= i < |s| ==> s[i] != '=' && !IsSpace(s[i]) }

  ghost predicate AllPlain(pairs: seq<(string, string)>) {
    forall i :: 0 <= i < |pairs| ==> Plain(pairs[i].0) && Plain(pairs[i].1)
  }

  function PrintField(p: (string, string)): string { p.0 + "=" + p.1 }

  function PrintFields(pairs: seq<(string, string)>): (parts: seq<string>)
    ensures |parts| == |pairs|
  {
    seq(|pairs|, i requires 0 <= i < |pairs| => PrintField(pairs[i]))
  }

  /** The last value given for a key. */
  function LastPair(pairs: seq<(string, string)>): string -> string {
    key => if |pairs| == 0 then ""
           else if pairs[|pairs| - 1].0 == key then pairs[|pairs| - 1].1
           else LastPair(pairs[..|pairs| - 1])(key)
  }

  lemma PrintedField(p: (string, string))
    requires Plain(p.0) && Plain(p.1)
    ensures Split(PrintField(p), '=') == [p.0, p.1] && ' ' !in PrintField(p)
  {
    assert PrintField(p) == p.0 + ['='] + p.1;
    SplitPrefix(p.0, '=', p.1);
    SplitNoSep(p.1, '=');
  }

  lemma {:induction false} PrintedValues(pairs: seq<(string, string)>, key: string)
    requires AllPlain(pairs)
    ensures LastValue(PrintFields(pairs), key) == LastPair(pairs)(key)
  {
    if |pairs| != 0 {
      var n := |pairs| - 1;
      PrintedField(pairs[n]);
      PrintedValues(pairs[..n], key);
      hide Split, PrintField;
      assert PrintFields(pairs)[..n] == PrintFields(pairs[..n]);
    }
  }

  lemma PrintedGives(p: (string, string), key: string)
    requires Plain(p.0) && Plain(p.1)
    ensures Gives(PrintField(p), key) <==> p.0 == key
  {
    PrintedField(p);
  }

  ghost predicate DistinctKeys(pairs: seq<(string, string)>) {
    forall i, j :: 0 <= i < j < |pairs| ==> pairs[i].0 != pairs[j].0
  }

  /** The same pairs in some order. */
  ghost predicate Reordered(pairs: seq<(string, string)>, all: seq<(string, string)>) {
    DistinctKeys(pairs) && forall p :: p in pairs <==> p in all
  }

  lemma {:induction false} LastPairIs(pairs: seq<(string, string)>, key: string, value: string)
    requires DistinctKeys(pairs) && (key, value) in pairs
    ensures LastPair(pairs)(key) == value
  {
    var n := |pairs| - 1;
    if pairs[n] != (key, value) {
      var i :| 0 <= i < |pairs| && pairs[i] == (key, value);
      assert pairs[..n][i] == pairs[i];
      assert pairs[i].0 != pairs[n].0;
      LastPairIs(pairs[..n], key, value);
    }
  }
}
