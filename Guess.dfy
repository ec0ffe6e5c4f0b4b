/**
 * The guessing game of src/bot/lib/games/guess.js and src/lib/games/guess.js (the same logic in
 * both): the answer, the validation of the time limit in `main`, the message filter, and the
 * first message that passes it. The messages sent while the collector runs are an input; the
 * `Date.parse` branch of `duration` is an input too, `None` standing for NaN.
 */
module Guess {
  import opened Wrappers
  import opened Strings
  import Durations

  const DefaultTimeout := "10m"
  const MinTime := 10000
  const MaxTime := 600000

  const InvalidDate := "The date format provided is invalid."
  const OutOfRange := "The duration must be between 10 seconds and 10 minutes."

  /** `duration(timeout ?? '10m')`; `None` is NaN. `dateDelta` is what the date branch computes. */
  function TimeOf(timeout: Option<string>, dateDelta: Option<int>): Option<int> {
    var text := if timeout.Some? then timeout.value else DefaultTimeout;
    match Durations.Duration(text)
    case Millis(ms) => Some(ms)
    case DateBranch => dateDelta
  }

  /** What a game that starts plays with: the lower-cased secret and the time limit. */
  datatype Setup = Setup(answer: string, time: nat)

  /** The head of `main`: NaN and a time outside [10 s, 10 min] are user errors. */
  function Start(secret: string, timeout: Option<string>, dateDelta: Option<int>): (r: Result<Setup>)
    ensures r.Ok? ==> r.value.answer == Lower(secret) && IsLower(r.value.answer)
    ensures r.Ok? ==> MinTime <= r.value.time <= MaxTime && Some(r.value.time as int) == TimeOf(timeout, dateDelta)
    ensures r.Err? ==> r.kind == UserError
    ensures r.Err? && TimeOf(timeout, dateDelta).Some? ==> r.message == OutOfRange
    ensures r.Err? <==> TimeOf(timeout, dateDelta).None? ||
                        !(MinTime <= TimeOf(timeout, dateDelta).value <= MaxTime)
  {
    var time := TimeOf(timeout, dateDelta);
    LowerIdempotent(secret);
    if time.None? then Err(UserError, InvalidDate)
    else if time.value < MinTime || time.value > MaxTime then Err(UserError, OutOfRange)
    else Ok(Setup(Lower(secret), time.value))
  }

  /** Without a timeout option the game lasts ten minutes. */
  lemma DefaultTenMinutes(secret: string, dateDelta: Option<int>)
    ensures Start(secret, None, dateDelta) == Ok(Setup(Lower(secret), MaxTime))
  {
    Durations.TenMinutes();
  }

  /** A timeout written as tokens such as "1m 30s" is accepted iff their sum is between 10
      seconds and 10 minutes; the date branch is never taken for it. */
  lemma {:induction false} WrittenTimeout(secret: string, ts: seq<Durations.Token>, dateDelta: Option<int>)
    requires forall i :: 0 <= i < |ts| ==> Durations.ValidToken(ts[i])
    ensures Start(secret, Some(Durations.Format(ts)), dateDelta).Ok? <==>
      MinTime <= Durations.Total(ts) <= MaxTime
    ensures Start(secret, Some(Durations.Format(ts)), dateDelta).Ok? ==>
      Start(secret, Some(Durations.Format(ts)), dateDelta).value.time == Durations.Total(ts)
  {
    Durations.FormatDuration(ts);
  }

  // ---------------------------------------------------------------- the filter

  /** The length of a `<@digits>` or `<@!digits>` mention at the start of `s`, 0 when none is. */
  function MentionLength(s: string): (n: nat)
    ensures n <= |s|
    ensures n > 0 ==> n >= 4 && s[0] == '<'
  {
    if |s| < 2 || s[0] != '<' || s[1] != '@' then 0
    else
      var k := if |s| > 2 && s[2] == '!' then 3 else 2;
      var d := LeadingDigits(s[k..]);
      if d != [] && k + |d| < |s| && s[k + |d|] == '>' then k + |d| + 1 else 0
  }

  /** `replace(/<@!?\d+>/g, '')`: matches are found left to right, each search resuming after
      the last match, and removed. */
  function StripMentions(s: string): (r: string)
    ensures |r| <= |s|
    decreases |s|
  {
    if s == [] then []
    else
      var n := MentionLength(s);
      if n > 0 then StripMentions(s[n..]) else [s[0]] + StripMentions(s[1..])
  }

  /** `filter(message)`: the lower-cased content, without mentions and trimmed, starts with the
      answer; whatever follows the answer does not matter. */
  predicate Filter(answer: string, content: string) {
    StartsWith(Trim(StripMentions(Lower(content))), answer)
  }

  /** The mention of user `id`, written with or without the deprecated '!'. */
  function Mention(id: string, bang: bool): string {
    "<@" + (if bang then "!" else "") + id + ">"
  }

  predicate IsNumber(id: string) {
    id != [] && forall i :: 0 <= i < |id| ==> IsDigit(id[i])
  }

  /** Text without '<' holds no mention and is kept as it is. */
  lemma {:induction false} StripPlain(s: string)
    requires '<' !in s
    ensures StripMentions(s) == s
    decreases |s|
  {
    if s != [] {
      assert MentionLength(s) == 0;
      assert s == [s[0]] + s[1..];
      StripPlain(s[1..]);
    }
  }

  /** A mention at the front is removed whole. */
  lemma StripLeadingMention(id: string, bang: bool, s: string)
    requires IsNumber(id)
    ensures StripMentions(Mention(id, bang) + s) == StripMentions(s)
  {
    var m := Mention(id, bang);
    var t := m + s;
    var k := if bang then 3 else 2;
    assert t[k..] == id + (">" + s);
    LeadingDigitsOf(id, ">" + s);
    assert t[k + |id|] == '>';
    assert MentionLength(t) == |m|;
    assert t[|m|..] == s;
  }

  /** `toLowerCase` of a concatenation. */
  lemma LowerConcat(a: string, b: string)
    ensures Lower(a + b) == Lower(a) + Lower(b)
  {
  }

  /** Trimming keeps a prefix that ends in a non-blank character. */
  lemma {:induction false} TrimEndKeeps(a: string, b: string)
    requires a != [] && !IsWhitespace(a[|a| - 1])
    ensures StartsWith(TrimEnd(a + b), a)
    decreases |b|
  {
    if b != [] && IsWhitespace(b[|b| - 1]) {
      assert (a + b)[..|a + b| - 1] == a + b[..|b| - 1];
      TrimEndKeeps(a, b[..|b| - 1]);
    } else {
      assert (a + b)[..|a|] == a;
    }
  }

  /** Lower-casing never produces a '<'. */
  lemma LowerKeepsPlain(s: string)
    requires '<' !in s
    ensures '<' !in Lower(s)
  {
    forall i | 0 <= i < |s| ensures Lower(s)[i] != '<' {
      assert s[i] in s;
    }
  }

  /** Lower-casing a message leaves the mention and the space alone. */
  lemma LowerMessage(id: string, bang: bool, guess: string, rest: string)
    requires IsNumber(id)
    ensures Lower(Mention(id, bang) + " " + guess + rest) == Mention(id, bang) + (" " + (Lower(guess) + Lower(rest)))
  {
    var m := Mention(id, bang);
    assert m + " " + guess + rest == m + (" " + (guess + rest));
    LowerConcat(m, " " + (guess + rest));
    LowerConcat(" ", guess + rest);
    LowerConcat(guess, rest);
  }

  /** Trimming a blank-led text that starts with the answer keeps the answer in front. */
  lemma TrimKeepsAnswer(a: string, rest: string)
    requires a != [] && !IsWhitespace(a[0]) && !IsWhitespace(a[|a| - 1])
    ensures StartsWith(Trim(" " + (a + rest)), a)
  {
    TrimLeadingBlank(" ", a + rest);
    assert TrimStart(a + rest) == a + rest;
    TrimEndKeeps(a, rest);
  }

  /**
   * The game's promise: a message that mentions the bot and then writes the secret, in any
   * letter case and followed by anything, wins — as long as the secret neither starts nor ends
   * with white space and no '<' follows the mention.
   */
  lemma {:induction false} AnswerWins(secret: string, id: string, bang: bool, guess: string, rest: string)
    requires IsNumber(id) && secret != []
    requires !IsWhitespace(secret[0]) && !IsWhitespace(secret[|secret| - 1])
    requires Lower(guess) == Lower(secret) && '<' !in guess + rest
    ensures Filter(Lower(secret), Mention(id, bang) + " " + guess + rest)
  {
    var a := Lower(secret);
    StrippedMessage(id, bang, guess, rest);
    LowerEnds(secret);
    TrimKeepsAnswer(a, Lower(rest));
  }

  /** Lower-casing keeps a non-blank first and last character non-blank. */
  lemma LowerEnds(s: string)
    requires s != [] && !IsWhitespace(s[0]) && !IsWhitespace(s[|s| - 1])
    ensures Lower(s) != [] && !IsWhitespace(Lower(s)[0]) && !IsWhitespace(Lower(s)[|s| - 1])
  {
  }

  /** The message with its leading mention removed, lower-cased. */
  lemma StrippedMessage(id: string, bang: bool, guess: string, rest: string)
    requires IsNumber(id) && '<' !in guess + rest
    ensures StripMentions(Lower(Mention(id, bang) + " " + guess + rest)) == " " + (Lower(guess) + Lower(rest))
  {
    var tail := " " + (Lower(guess) + Lower(rest));
    LowerMessage(id, bang, guess, rest);
    StripLeadingMention(id, bang, tail);
    assert '<' !in tail by {
      LowerKeepsPlain(guess + rest);
      LowerConcat(guess, rest);
    }
    StripPlain(tail);
  }

  /** The filter ignores letter case in the message. */
  lemma CaseBlind(answer: string, content: string)
    ensures Filter(answer, content) == Filter(answer, Lower(content))
  {
    LowerIdempotent(content);
  }

  /** A message whose text, without mentions, is shorter than the answer never wins. */
  lemma TooShortLoses(answer: string, content: string)
    requires |StripMentions(Lower(content))| < |answer|
    ensures !Filter(answer, content)
  {
    assert |TrimEnd(TrimStart(StripMentions(Lower(content))))| < |answer|;
  }

  // ---------------------------------------------------------------- the collector

  /** `awaitMessages({ max: 1, time })`: the position of the first message that passes the
      filter, or `None` when none of those sent in time does (the timeout). */
  function Winner(answer: string, contents: seq<string>): (r: Option<nat>)
    ensures r.Some? ==> r.value < |contents| && Filter(answer, contents[r.value])
    ensures r.Some? ==> forall k :: 0 <= k < r.value ==> !Filter(answer, contents[k])
    ensures r.None? ==> forall k :: 0 <= k < |contents| ==> !Filter(answer, contents[k])
  {
    FirstPassing((c: string) => Filter(answer, c), contents)
  }

  /** The position of the first element that passes `passes`. */
  function FirstPassing(passes: string -> bool, contents: seq<string>): (r: Option<nat>)
    ensures r.Some? ==> r.value < |contents| && passes(contents[r.value])
    ensures r.Some? ==> forall k :: 0 <= k < r.value ==> !passes(contents[k])
    ensures r.None? ==> forall k :: 0 <= k < |contents| ==> !passes(contents[k])
    decreases |contents|
  {
    if contents == [] then None
    else if passes(contents[0]) then Some(0)
    else
      var w := FirstPassing(passes, contents[1..]);
      assert forall k :: 1 <= k < |contents| ==> contents[k] == contents[1..][k - 1];
      if w.Some? then Some(w.value + 1) else None
  }
}
