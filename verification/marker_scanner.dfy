/**
 The marker scanner behind the code-lens provider: the global, case-insensitive
 regular expression `\bat line (\d+)\b` run to exhaustion over a document's
 text, written out by hand.

 `IsMarker` is the declarative reading of the pattern at a fixed start and end;
 `MatchAt`, `FindFrom` and `ScanFrom` are the executable search that mirrors the
 `exec` loop (leftmost match from `lastIndex`, then continue at the match's end).
 `Scan`'s contract ties the two together: it reports every marker, only markers,
 each once, in increasing order, with the value of its digits.
 */
module MarkerScanner {
  import opened Basics

  /** One match: the half-open character range `[start, end)` and the value of its digits. */
  datatype Occurrence = Occurrence(start: nat, end: nat, value: nat)

  /** The fixed part of the pattern, in its folded (lower-case) form, trailing space included. */
  const Literal: string := "at line "

  /** `text[p..]` begins with "at line " up to ASCII case; each space matches only a space. */
  predicate LiteralAt(text: string, p: nat) {
    p + |Literal| <= |text| &&
    forall k :: 0 <= k < |Literal| ==> LowerAscii(text[p + k]) == Literal[k]
  }

  /** Every character of `ds` is an ASCII digit. */
  predicate AllDigits(ds: string) {
    forall k :: 0 <= k < |ds| ==> IsDigit(ds[k])
  }

  /**
   The pattern matches `text[s..e]`: a word boundary before `s` (the `a` is a word
   character, so the character before it, if any, is not), the literal, one or more
   digits, and a word boundary at `e` (the last digit is a word character, so the
   character at `e`, if any, is not).
   */
  predicate IsMarker(text: string, s: nat, e: nat) {
    s + |Literal| < e <= |text| &&
    (s == 0 || !IsWordChar(text[s - 1])) &&
    LiteralAt(text, s) &&
    (forall k :: s + |Literal| <= k < e ==> IsDigit(text[k])) &&
    (e == |text| || !IsWordChar(text[e]))
  }

  /** The digits a marker `[s, e)` captures (group 1 of the pattern). */
  function Captured(text: string, s: nat, e: nat): (ds: string)
    requires IsMarker(text, s, e)
    ensures |ds| == e - s - |Literal| && |ds| > 0 && AllDigits(ds)
  {
    text[s + |Literal|..e]
  }

  /** `parseInt(ds, 10)` on a string of digits, as an unbounded natural number. */
  function ParseDecimal(ds: string): nat
    requires AllDigits(ds)
  {
    if |ds| == 0 then 0
    else ParseDecimal(ds[..|ds| - 1]) * 10 + (ds[|ds| - 1] as int - '0' as int)
  }

  /** The decimal numeral of `n` without leading zeros: the inverse of `ParseDecimal`. */
  function Decimal(n: nat): (ds: string)
    ensures |ds| > 0 && AllDigits(ds)
    ensures n > 0 ==> ds[0] != '0'
  {
    var d := ((n % 10) + '0' as int) as char;
    if n < 10 then [d] else Decimal(n / 10) + [d]
  }

  /** Printing a number and parsing it back gives the number. */
  lemma {:induction false} ParseDecimalOfDecimal(n: nat)
    ensures ParseDecimal(Decimal(n)) == n
  {
    var ds := Decimal(n);
    if n >= 10 {
      assert ds[..|ds| - 1] == Decimal(n / 10);
      ParseDecimalOfDecimal(n / 10);
    }
  }

  /** A marker is determined by its start: the digit run is maximal, so two markers at `s` have the same end. */
  lemma MarkerEndUnique(text: string, s: nat, e1: nat, e2: nat)
    requires IsMarker(text, s, e1) && IsMarker(text, s, e2)
    ensures e1 == e2
  {
    assert e1 < e2 ==> IsDigit(text[e1]);
    assert e2 < e1 ==> IsDigit(text[e2]);
  }

  /** No marker starts strictly inside another: no character after a marker's `a` folds to `a`. */
  lemma NoMarkerInside(text: string, p: nat, e: nat, s: nat, e': nat)
    requires IsMarker(text, p, e)
    requires p < s < e
    ensures !IsMarker(text, s, e')
  {
    assert Literal[0] == 'a';
    if s < p + |Literal| {
      assert LowerAscii(text[p + (s - p)]) == Literal[s - p];
      assert Literal[s - p] != 'a';
    } else {
      assert IsDigit(text[s]);
    }
    assert LowerAscii(text[s]) != 'a';
  }

  /** The end of the run of digits starting at `i`. */
  function DigitRunEnd(text: string, i: nat): (e: nat)
    requires i <= |text|
    ensures i <= e <= |text|
    ensures forall k :: i <= k < e ==> IsDigit(text[k])
    ensures e == |text| || !IsDigit(text[e])
    decreases |text| - i
  {
    if i < |text| && IsDigit(text[i]) then DigitRunEnd(text, i + 1) else i
  }

  /** The pattern tried at exactly one start position, as the regex engine does after `lastIndex` reaches `s`. */
  function MatchAt(text: string, s: nat): (r: Option<Occurrence>)
    requires s <= |text|
    ensures r.Some? ==> r.value.start == s && IsMarker(text, s, r.value.end) &&
                        r.value.value == ParseDecimal(Captured(text, s, r.value.end))
    ensures r.None? ==> forall e :: !IsMarker(text, s, e)
  {
    if (s == 0 || !IsWordChar(text[s - 1])) && LiteralAt(text, s) then
      var e := DigitRunEnd(text, s + |Literal|);
      if e > s + |Literal| && (e == |text| || !IsWordChar(text[e])) then
        Some(Occurrence(s, e, ParseDecimal(text[s + |Literal|..e])))
      else
        NoMarkerAt(text, s, e);
        None
    else
      None
  }

  /** When the maximal digit run after the literal is empty or runs into a word character, nothing matches at `s`. */
  lemma NoMarkerAt(text: string, s: nat, e: nat)
    requires LiteralAt(text, s)
    requires e == DigitRunEnd(text, s + |Literal|)
    requires !(e > s + |Literal| && (e == |text| || !IsWordChar(text[e])))
    ensures forall e' :: !IsMarker(text, s, e')
  {
    forall e': nat
      ensures !IsMarker(text, s, e')
    {
      if s + |Literal| <= e' < e {
        assert IsDigit(text[e']);
      }
    }
  }

  /** `regex.exec(text)` with `lastIndex == from`: the leftmost match starting at or after `from`. */
  function FindFrom(text: string, from: nat): (r: Option<Occurrence>)
    requires from <= |text|
    ensures r.Some? ==> from <= r.value.start && IsMarker(text, r.value.start, r.value.end) &&
                        r.value.value == ParseDecimal(Captured(text, r.value.start, r.value.end))
    ensures r.Some? ==> forall s, e :: from <= s < r.value.start ==> !IsMarker(text, s, e)
    ensures r.None? ==> forall s, e :: from <= s ==> !IsMarker(text, s, e)
    decreases |text| - from
  {
    match MatchAt(text, from)
    case Some(o) => Some(o)
    case None => if from == |text| then None else FindFrom(text, from + 1)
  }

  /**
   The `while ((match = regex.exec(text)) !== null)` loop from `lastIndex == from`:
   after each match the search resumes at the match's end.
   */
  function ScanFrom(text: string, from: nat): (occs: seq<Occurrence>)
    requires from <= |text|
    ensures ScanSound(text, from, occs)
    ensures Disjoint(occs)
    ensures ScanComplete(text, from, occs)
    decreases |text| - from
  {
    match FindFrom(text, from)
    case None => []
    case Some(o) =>
      var rest := ScanFrom(text, o.end);
      ConsSound(text, from, o, rest);
      ConsDisjoint(o, rest, from);
      CoveredByFirst(text, from, o, rest);
      [o] + rest
  }

  /** Every reported occurrence is a marker at or after `from`, carrying the value of its digits. */
  ghost predicate ScanSound(text: string, from: nat, occs: seq<Occurrence>) {
    forall i :: 0 <= i < |occs| ==>
      from <= occs[i].start && IsMarker(text, occs[i].start, occs[i].end) &&
      occs[i].value == ParseDecimal(Captured(text, occs[i].start, occs[i].end))
  }

  /** Occurrences come in increasing order and do not overlap. */
  ghost predicate Disjoint(occs: seq<Occurrence>) {
    forall i, j :: 0 <= i < j < |occs| ==> occs[i].end <= occs[j].start
  }

  /** Every marker starting at or after `from` is reported. */
  ghost predicate ScanComplete(text: string, from: nat, occs: seq<Occurrence>) {
    forall s, e :: from <= s && IsMarker(text, s, e) ==>
      exists i :: 0 <= i < |occs| && occs[i].start == s && occs[i].end == e
  }

  lemma ConsSound(text: string, from: nat, o: Occurrence, rest: seq<Occurrence>)
    requires from <= o.start && IsMarker(text, o.start, o.end)
    requires o.value == ParseDecimal(Captured(text, o.start, o.end))
    requires ScanSound(text, o.end, rest)
    ensures ScanSound(text, from, [o] + rest)
  {
    var all := [o] + rest;
    forall i | 0 <= i < |all|
      ensures from <= all[i].start && IsMarker(text, all[i].start, all[i].end) &&
              all[i].value == ParseDecimal(Captured(text, all[i].start, all[i].end))
    {
      if i > 0 {
        assert all[i] == rest[i - 1];
      }
    }
  }

  lemma ConsDisjoint(o: Occurrence, rest: seq<Occurrence>, from: nat)
    requires o.start <= o.end
    requires forall i :: 0 <= i < |rest| ==> o.end <= rest[i].start
    requires Disjoint(rest)
    ensures Disjoint([o] + rest)
  {
    var all := [o] + rest;
    forall i, j | 0 <= i < j < |all|
      ensures all[i].end <= all[j].start
    {
      assert all[j] == rest[j - 1];
      if i > 0 {
        assert all[i] == rest[i - 1];
      }
    }
  }

  /** Completeness step of `ScanFrom`: a marker at or after `from` is either the first match or one found after it. */
  lemma CoveredByFirst(text: string, from: nat, o: Occurrence, rest: seq<Occurrence>)
    requires from <= o.start && IsMarker(text, o.start, o.end)
    requires forall s, e :: from <= s < o.start ==> !IsMarker(text, s, e)
    requires ScanComplete(text, o.end, rest)
    ensures ScanComplete(text, from, [o] + rest)
  {
    var all := [o] + rest;
    forall s, e | from <= s && IsMarker(text, s, e)
      ensures exists i :: 0 <= i < |all| && all[i].start == s && all[i].end == e
    {
      if s == o.start {
        MarkerEndUnique(text, s, e, o.end);
        assert all[0].start == s && all[0].end == e;
      } else if s < o.end {
        NoMarkerInside(text, o.start, o.end, s, e);
      } else {
        var i :| 0 <= i < |rest| && rest[i].start == s && rest[i].end == e;
        assert all[i + 1] == rest[i];
      }
    }
  }

  /**
   All markers of `text`, as the provider's exec loop reports them (it starts at
   `lastIndex == 0`, and the loop only ends when `exec` returns null, which
   resets `lastIndex` to 0 for the next call).
   */
  function Scan(text: string): (occs: seq<Occurrence>)
    ensures forall i :: 0 <= i < |occs| ==>
              IsMarker(text, occs[i].start, occs[i].end) &&
              occs[i].value == ParseDecimal(Captured(text, occs[i].start, occs[i].end))
    ensures forall i, j :: 0 <= i < j < |occs| ==> occs[i].end <= occs[j].start
    ensures forall s, e :: IsMarker(text, s, e) <==>
              exists i :: 0 <= i < |occs| && occs[i].start == s && occs[i].end == e
  {
    ScanFrom(text, 0)
  }

  /**
   End to end: the text "at line N" (N printed in decimal) holds exactly one
   marker, spanning the whole text, whose value is N.
   */
  lemma SingleMarkerRoundTrip(n: nat)
    ensures Scan(Literal + Decimal(n)) == [Occurrence(0, |Literal| + |Decimal(n)|, n)]
  {
    var ds := Decimal(n);
    var text := Literal + ds;
    var e := |text|;
    assert text[|Literal|..] == ds;
    assert forall k :: 0 <= k < |Literal| ==> text[k] == Literal[k];
    assert IsMarker(text, 0, e);
    ParseDecimalOfDecimal(n);
    var m := MatchAt(text, 0);
    MarkerEndUnique(text, 0, m.value.end, e);
    assert FindFrom(text, 0) == m;
    assert FindFrom(text, e) == None;
    assert ScanFrom(text, e) == [];
    assert Captured(text, 0, e) == ds;
    assert m.value == Occurrence(0, e, n);
    assert ScanFrom(text, 0) == [m.value];
  }
}
