/**
 * Extraction of a source position from an engine error message
 * (getLineAndColumnNumberFromErrorMessage in server/server.js).
 *
 * The source matches the message against the regular expression
 * `\[(\d+):(\d+)\]` and, when it matches, converts the two captured digit
 * runs with `parseInt`; otherwise it answers line 0, column 0.
 */
module ErrorLocator {
  import opened Wrappers

  /** A line/column pair; 0, 0 means "no location found". */
  datatype Position = Position(line: nat, column: nat)

  /** `\d` of a JavaScript regular expression without the `u` flag: ASCII digits only. */
  predicate IsDigit(c: char) {
    '0' <= c <= '9'
  }

  predicate AllDigits(s: string) {
    forall i :: 0 <= i < |s| ==> IsDigit(s[i])
  }

  function DigitValue(c: char): (d: nat)
    requires IsDigit(c)
    ensures d < 10
  {
    (c as int) - ('0' as int)
  }

  /** `10` to the power `n`. */
  function Pow10(n: nat): (p: nat)
    ensures p >= 1
  {
    if n == 0 then 1 else 10 * Pow10(n - 1)
  }

  /**
   * The decimal value of a run of digits, as `parseInt` reads it (leading
   * zeros allowed); a run of `n` digits reads as less than `10^n`.
   */
  function DecimalValue(s: string): (v: nat)
    requires AllDigits(s)
    ensures v < Pow10(|s|)
  {
    if s == [] then 0 else 10 * DecimalValue(s[..|s| - 1]) + DigitValue(s[|s| - 1])
  }

  /** Leading zeros do not change the value `parseInt` gives a digit run. */
  lemma {:induction false} LeadingZeroIgnored(s: string)
    requires AllDigits(s)
    ensures AllDigits("0" + s) && DecimalValue("0" + s) == DecimalValue(s)
  {
    if s != [] {
      assert ("0" + s)[..|"0" + s| - 1] == "0" + s[..|s| - 1];
      LeadingZeroIgnored(s[..|s| - 1]);
    }
  }

  /** The regular expression matches the message at index `i`, with the colon at `j` and the closing bracket at `k`. */
  ghost predicate MatchesAt(s: string, i: int, j: int, k: int) {
    && 0 <= i && i + 1 < j && j + 1 < k < |s|
    && s[i] == '['
    && AllDigits(s[i + 1..j])
    && s[j] == ':'
    && AllDigits(s[j + 1..k])
    && s[k] == ']'
  }

  /** The first index at or after `p` that does not hold a digit (`|s|` when the digits run to the end). */
  function DigitRunEnd(s: string, p: nat): (e: nat)
    requires p <= |s|
    ensures p <= e <= |s|
    ensures AllDigits(s[p..e])
    ensures e < |s| ==> !IsDigit(s[e])
    decreases |s| - p
  {
    if p < |s| && IsDigit(s[p]) then
      var e := DigitRunEnd(s, p + 1);
      assert s[p..e] == [s[p]] + s[p + 1..e];
      e
    else
      p
  }

  /** A digit run followed by a non-digit ends exactly there: greedy `\d+` has only one way to match. */
  lemma {:induction false} DigitRunEndUnique(s: string, p: nat, e: nat)
    requires p <= e < |s|
    requires AllDigits(s[p..e]) && !IsDigit(s[e])
    ensures DigitRunEnd(s, p) == e
    decreases e - p
  {
    if p < e {
      assert s[p] == s[p..e][0];
      assert s[p + 1..e] == s[p..e][1..];
      DigitRunEndUnique(s, p + 1, e);
    }
  }

  /** Index of the colon of a marker starting at `i`, if a marker starts there. */
  function ColonAt(s: string, i: nat): nat
    requires i < |s|
  {
    DigitRunEnd(s, i + 1)
  }

  /** Index of the closing bracket of a marker starting at `i`, if a marker starts there. */
  function CloseAt(s: string, i: nat): nat
    requires i < |s|
  {
    var j := ColonAt(s, i);
    if j < |s| then DigitRunEnd(s, j + 1) else j
  }

  /** The executable test of whether a marker starts at `i`. */
  predicate MarkerAt(s: string, i: nat)
    requires i < |s|
  {
    var j := ColonAt(s, i);
    var k := CloseAt(s, i);
    s[i] == '[' && i + 1 < j && j + 1 < k < |s| && s[j] == ':' && s[k] == ']'
  }

  /** MarkerAt agrees with the regular expression, and the match at `i` fixes where its groups end. */
  lemma MarkerAtMeansMatch(s: string, i: nat)
    requires i < |s|
    ensures MarkerAt(s, i) <==> MatchesAt(s, i, ColonAt(s, i), CloseAt(s, i))
  {
  }

  lemma MatchIsMarker(s: string, i: nat, j: int, k: int)
    requires MatchesAt(s, i, j, k)
    ensures MarkerAt(s, i) && j == ColonAt(s, i) && k == CloseAt(s, i)
  {
    DigitRunEndUnique(s, i + 1, j);
    DigitRunEndUnique(s, j + 1, k);
  }

  /** The leftmost index at or after `from` where a marker starts, as `String.prototype.match` searches. */
  function FindMarker(s: string, from: nat): (r: Option<nat>)
    requires from <= |s|
    ensures r.Some? ==> from <= r.value < |s| && MarkerAt(s, r.value)
    ensures r.Some? ==> forall i :: from <= i < r.value ==> !MarkerAt(s, i)
    ensures r.None? ==> forall i :: from <= i < |s| ==> !MarkerAt(s, i)
    decreases |s| - from
  {
    if from == |s| then None
    else if MarkerAt(s, from) then Some(from)
    else FindMarker(s, from + 1)
  }

  /**
   * The location the source reports for an error message: read from the
   * first marker, and 0, 0 whenever the regular expression matches nowhere.
   */
  function Locate(message: string): (p: Position)
    ensures !HasMarker(message) ==> p == Position(0, 0)
  {
    match FindMarker(message, 0)
    case None => Position(0, 0)
    case Some(i) =>
      MarkerAtMeansMatch(message, i);
      var j := ColonAt(message, i);
      var k := CloseAt(message, i);
      Position(DecimalValue(message[i + 1..j]), DecimalValue(message[j + 1..k]))
  }

  /** The match at `i` is the leftmost one, the one `String.prototype.match` reports. */
  ghost predicate LeftmostMatch(s: string, i: int, j: int, k: int) {
    MatchesAt(s, i, j, k) && forall i', j', k' :: MatchesAt(s, i', j', k') ==> i <= i'
  }

  ghost predicate HasMarker(s: string) {
    exists i, j, k :: MatchesAt(s, i, j, k)
  }

  /** Match found: the leftmost marker's two digit runs, read in decimal, are the result. */
  lemma LocateLeftmostMatch(s: string, i: nat, j: int, k: int)
    requires LeftmostMatch(s, i, j, k)
    ensures Locate(s) == Position(DecimalValue(s[i + 1..j]), DecimalValue(s[j + 1..k]))
  {
    MatchIsMarker(s, i, j, k);
    var r := FindMarker(s, 0);
    assert r.Some?;
    var i0 := r.value;
    MarkerAtMeansMatch(s, i0);
    assert MatchesAt(s, i0, ColonAt(s, i0), CloseAt(s, i0));
    assert i0 == i;
  }

  /**
   * Totality and soundness: a message with a marker yields the value of its
   * leftmost one; a message without yields 0, 0.
   */
  lemma LocateCharacterised(s: string)
    ensures HasMarker(s) ==> exists i, j, k ::
      LeftmostMatch(s, i, j, k) && Locate(s) == Position(DecimalValue(s[i + 1..j]), DecimalValue(s[j + 1..k]))
    ensures !HasMarker(s) ==> Locate(s) == Position(0, 0)
  {
    var r := FindMarker(s, 0);
    if r.Some? {
      var i := r.value;
      var j, k := ColonAt(s, i), CloseAt(s, i);
      MarkerAtMeansMatch(s, i);
      forall i', j', k' | MatchesAt(s, i', j', k') ensures i <= i' {
        MatchIsMarker(s, i', j', k');
      }
      assert LeftmostMatch(s, i, j, k);
    } else {
      if HasMarker(s) {
        var i, j, k :| MatchesAt(s, i, j, k);
        MatchIsMarker(s, i, j, k);
        assert false;
      }
    }
  }

  /** The shape of the example in the source's comment: a message ending in a marker. */
  lemma ExampleTrailingMarker()
    ensures Locate("at [65:7]") == Position(65, 7)
  {
    var s := "at [65:7]";
    assert MatchesAt(s, 3, 6, 8);
    forall i', j', k' | MatchesAt(s, i', j', k') ensures 3 <= i' {
      assert s[i'] == '[';
    }
    assert LeftmostMatch(s, 3, 6, 8);
    LocateLeftmostMatch(s, 3, 6, 8);
    assert s[4..6] == "65" && s[7..8] == "7";
    assert DecimalValue("6") == 6;
    assert DecimalValue("65") == 65 by { assert "65"[..1] == "6"; }
  }

  /** First match wins, and leading zeros are read away. */
  lemma ExampleFirstMarkerWins()
    ensures Locate("[07:1][3:4]") == Position(7, 1)
  {
    var s := "[07:1][3:4]";
    assert LeftmostMatch(s, 0, 3, 5);
    LocateLeftmostMatch(s, 0, 3, 5);
    assert s[1..3] == "07" && s[4..5] == "1";
  }

  /** A malformed marker, or none at all, gives 0, 0. */
  lemma ExampleNoMarker()
    ensures Locate("[12:]") == Position(0, 0)
    ensures Locate("") == Position(0, 0)
  {
  }
}
