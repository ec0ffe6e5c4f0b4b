/**
 * `duration` of src/bot/lib/util.js, token branch: the sum of n × unit over every match of
 * /\b(\d+)(d|h|m|s)\b/g. A string containing '/' or '-' goes to the date branch instead.
 */
module Durations {
  import opened Wrappers
  import opened Strings

  const Day := 86400000
  const Hour := 3600000
  const Minute := 60000
  const Second := 1000

  /** The `units` table. */
  function UnitMillis(c: char): (r: Option<nat>)
    ensures r.Some? <==> c in "dhms"
  {
    if c == 'd' then Some(Day)
    else if c == 'h' then Some(Hour)
    else if c == 'm' then Some(Minute)
    else if c == 's' then Some(Second)
    else None
  }

  predicate WordAt(s: string, i: int) {
    0 <= i < |s| && IsWordChar(s[i])
  }

  /** `\b` at position i: a word character on exactly one side. */
  predicate BoundaryAt(s: string, i: int) {
    WordAt(s, i - 1) != WordAt(s, i)
  }

  /** The end of the run of digits that starts at p. */
  function DigitEnd(s: string, p: nat): (e: nat)
    requires p <= |s|
    ensures p <= e <= |s|
    ensures forall k :: p <= k < e ==> IsDigit(s[k])
    decreases |s| - p
  {
    if p < |s| && IsDigit(s[p]) then DigitEnd(s, p + 1) else p
  }

  /** A match starting at p: its value and the position after it. `\d+` is greedy, and giving
      back a digit never helps since a digit is not a unit letter, so the digits are maximal. */
  function MatchAt(s: string, p: nat): (r: Option<(nat, nat)>)
    requires p <= |s|
    ensures r.Some? ==> p < r.value.1 <= |s|
  {
    if !BoundaryAt(s, p) then None
    else
      var e := DigitEnd(s, p);
      if e == p || e >= |s| || UnitMillis(s[e]).None? || !BoundaryAt(s, e + 1) then None
      else Some((DigitsValue(s[p..e]) * UnitMillis(s[e]).value, e + 1))
  }

  /** The run of digits ends where the digits end, wherever the text sits. */
  lemma {:induction false} DigitEndShift(a: string, b: string, i: nat)
    requires i <= |b|
    ensures DigitEnd(a + b, |a| + i) == |a| + DigitEnd(b, i)
    decreases |b| - i
  {
    var s := a + b;
    if i < |b| {
      assert s[|a| + i] == b[i];
      if IsDigit(b[i]) {
        DigitEndShift(a, b, i + 1);
      }
    }
  }

  /** The run of digits of a token ends at its unit. */
  lemma {:induction false} DigitEndOf(d: string, rest: string, p: nat)
    requires p <= |d| && forall k :: 0 <= k < |d| ==> IsDigit(d[k])
    requires rest == [] || !IsDigit(rest[0])
    ensures DigitEnd(d + rest, p) == |d|
    decreases |d| - p
  {
    if p < |d| {
      assert (d + rest)[p] == d[p];
      DigitEndOf(d, rest, p + 1);
    } else if rest != [] {
      assert (d + rest)[p] == rest[0];
    }
  }

  /** `matchAll(...).reduce((total, m) => total + Number(m[1]) * units[m[2]], 0)` from `from` on:
      after a match the search resumes at its end, otherwise one position further. */
  function TokenSum(s: string, from: nat): nat
    requires from <= |s|
    decreases |s| - from
  {
    if from == |s| then 0
    else
      var m := MatchAt(s, from);
      if m.Some? then m.value.0 + TokenSum(s, m.value.1) else TokenSum(s, from + 1)
  }

  datatype Parsed = Millis(ms: nat) | DateBranch

  /** `duration(str)`; the `Date.parse` branch is only recognised, not computed. */
  function Duration(s: string): (r: Parsed)
    ensures r.DateBranch? <==> ('/' in s || '-' in s)
  {
    if '/' in s || '-' in s then DateBranch else Millis(TokenSum(s, 0))
  }

  // ---------------------------------------------------------------- a reference: written tokens

  /** A token `<digits><unit>` as a user writes it. */
  datatype Token = Token(digits: string, unit: char)

  predicate ValidToken(t: Token) {
    |t.digits| > 0 && (forall i :: 0 <= i < |t.digits| ==> IsDigit(t.digits[i])) && t.unit in "dhms"
  }

  function TokenText(t: Token): string {
    t.digits + [t.unit]
  }

  function TokenValue(t: Token): nat
    requires ValidToken(t)
  {
    DigitsValue(t.digits) * UnitMillis(t.unit).value
  }

  /** Tokens separated by single spaces. */
  function Format(ts: seq<Token>): string {
    if ts == [] then ""
    else if |ts| == 1 then TokenText(ts[0])
    else TokenText(ts[0]) + " " + Format(ts[1..])
  }

  function Total(ts: seq<Token>): nat
    requires forall i :: 0 <= i < |ts| ==> ValidToken(ts[i])
  {
    if ts == [] then 0 else TokenValue(ts[0]) + Total(ts[1..])
  }

  /** `duration` of space-separated tokens is the sum of their values. */
  lemma {:induction false} FormatDuration(ts: seq<Token>)
    requires forall i :: 0 <= i < |ts| ==> ValidToken(ts[i])
    ensures Duration(Format(ts)) == Millis(Total(ts))
  {
    NoDateMarks(ts);
    FormatSum(ts);
  }

  lemma {:induction false} NoDateMarks(ts: seq<Token>)
    requires forall i :: 0 <= i < |ts| ==> ValidToken(ts[i])
    ensures '/' !in Format(ts) && '-' !in Format(ts)
  {
    if |ts| > 1 {
      NoDateMarks(ts[1..]);
    }
  }

  lemma {:induction false} FormatSum(ts: seq<Token>)
    requires forall i :: 0 <= i < |ts| ==> ValidToken(ts[i])
    ensures TokenSum(Format(ts), 0) == Total(ts)
  {
    if ts == [] {
    } else {
      var t := ts[0];
      var text := TokenText(t);
      if |ts| == 1 {
        FirstToken(t, "");
        assert text + "" == text;
        assert TokenSum(text, |text|) == 0;
        assert Total(ts) == TokenValue(t) + Total(ts[1..]);
      } else {
        var rest := Format(ts[1..]);
        FirstOfMany(t, rest);
        SpaceSkipped(text, rest);
        FormatSum(ts[1..]);
      }
    }
  }

  /** The first of several tokens is one match, ending at the space. */
  lemma FirstOfMany(t: Token, rest: string)
    requires ValidToken(t)
    ensures TokenSum(TokenText(t) + " " + rest, 0) == TokenValue(t) + TokenSum(TokenText(t) + " " + rest, |TokenText(t)|)
  {
    assert TokenText(t) + " " + rest == TokenText(t) + (" " + rest);
    FirstToken(t, " " + rest);
  }

  /** The scan passes over the separating space and continues as the scan of what follows. */
  lemma SpaceSkipped(text: string, rest: string)
    ensures TokenSum(text + " " + rest, |text|) == TokenSum(rest, 0)
  {
    var x := text + " " + rest;
    assert x[|text|] == ' ';
    assert DigitEnd(x, |text|) == |text|;
    assert MatchAt(x, |text|).None?;
    assert TokenSum(x, |text|) == TokenSum(x, |text + " "|);
    TokenSumShift(text + " ", rest, 0);
  }

  /** A valid token at the start, followed by nothing or a non-word character, is one match. */
  lemma FirstToken(t: Token, rest: string)
    requires ValidToken(t)
    requires rest == [] || !IsWordChar(rest[0])
    ensures MatchAt(TokenText(t) + rest, 0) == Some((TokenValue(t), |TokenText(t)|))
  {
    var s := TokenText(t) + rest;
    assert s == t.digits + ([t.unit] + rest);
    DigitEndOf(t.digits, [t.unit] + rest, 0);
    assert s[0..|t.digits|] == t.digits;
    assert s[|t.digits|] == t.unit;
  }

  /** After a non-word character the scan of `a + b` proceeds as the scan of `b`. */
  lemma {:induction false} TokenSumShift(a: string, b: string, i: nat)
    requires i <= |b|
    requires a == [] || !IsWordChar(a[|a| - 1])
    ensures TokenSum(a + b, |a| + i) == TokenSum(b, i)
    decreases |b| - i
  {
    if i < |b| {
      var next := ShiftStep(a, b, i);
      TokenSumShift(a, b, next);
    } else {
      TokenSumEnd(a + b);
      TokenSumEnd(b);
    }
  }

  /** One step of the scan: both scans move on to the same `next`, so if they agree from there
      on, they agree here. */
  lemma ShiftStep(a: string, b: string, i: nat) returns (next: nat)
    requires i < |b|
    requires a == [] || !IsWordChar(a[|a| - 1])
    ensures i < next <= |b|
    ensures TokenSum(a + b, |a| + next) == TokenSum(b, next) ==> TokenSum(a + b, |a| + i) == TokenSum(b, i)
  {
    MatchShift(a, b, i);
    next := if MatchAt(b, i).Some? then MatchAt(b, i).value.1 else i + 1;
  }

  lemma TokenSumEnd(s: string)
    ensures TokenSum(s, |s|) == 0
  {
  }

  lemma MatchShift(a: string, b: string, i: nat)
    requires i <= |b|
    requires a == [] || !IsWordChar(a[|a| - 1])
    ensures MatchAt(b, i).None? ==> MatchAt(a + b, |a| + i).None?
    ensures MatchAt(b, i).Some? ==> MatchAt(a + b, |a| + i) == Some((MatchAt(b, i).value.0, |a| + MatchAt(b, i).value.1))
  {
    var s := a + b;
    forall j | 0 <= j <= |b| ensures BoundaryAt(s, |a| + j) == BoundaryAt(b, j) {
      assert WordAt(s, |a| + j) == WordAt(b, j);
      assert WordAt(s, |a| + j - 1) == WordAt(b, j - 1);
    }
    DigitEndShift(a, b, i);
    var e := DigitEnd(b, i);
    assert s[|a| + i..|a| + e] == b[i..e];
    if e < |b| {
      assert s[|a| + e] == b[e];
    }
  }

  /** The default timeout of the guessing game, "10m", is ten minutes. */
  lemma TenMinutes()
    ensures Duration("10m") == Millis(600000)
  {
    var t := Token("10", 'm');
    assert Format([t]) == "10m";
    assert DigitsValue("1") == 1 by { assert "1"[..0] == ""; }
    assert DigitsValue("10") == 10 by { assert "10"[..1] == "1"; }
    FormatDuration([t]);
  }
}
