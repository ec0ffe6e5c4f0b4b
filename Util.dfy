/**
 * The string and array helpers of src/bot/lib/util.js and src/lib/util.js: `shorten` (two
 * versions), `replace`, `stripIndents`, `choise` and `generateId`.
 */
module Util {
  import opened Wrappers
  import opened Strings

  /** Default suffix of `shorten` in src/bot/lib/util.js: the file holds these three characters
      (a mis-encoded ellipsis), so the suffix is three characters long. */
  const DefaultSuffix := "\U{00E2}\U{20AC}\U{00A6}"

  /** Default suffix of `shorten` in src/lib/util.js. */
  const LegacySuffix := "..."

  /** `shorten` of src/bot/lib/util.js: a string that fits is returned whole; otherwise it is cut
      to `limit` characters ending in `suffix`, or emptied when not even the suffix fits. */
  function Shorten(s: string, limit: int, suffix: string): (r: string)
    ensures limit >= |s| ==> r == s
    ensures 0 <= limit ==> |r| <= limit
    ensures 0 <= limit < |s| ==> r != s
    ensures |suffix| <= limit < |s| ==> |r| == limit && StartsWith(s, r[..limit - |suffix|]) && r[limit - |suffix|..] == suffix
    ensures limit < |s| && limit < |suffix| ==> r == ""
  {
    if limit >= |s| then s
    else if limit < |suffix| then ""
    else Slice(s, 0, limit - |suffix|) + suffix
  }

  /** `shorten` of src/lib/util.js: the suffix test comes first, so a limit shorter than the
      suffix empties even a string that would have fitted. */
  function ShortenLegacy(s: string, limit: int, suffix: string): (r: string)
    ensures limit < |suffix| ==> r == ""
    ensures |suffix| <= limit && limit >= |s| ==> r == s
    ensures 0 <= limit ==> |r| <= limit
    ensures |suffix| <= limit < |s| ==> |r| == limit && StartsWith(s, r[..limit - |suffix|]) && r[limit - |suffix|..] == suffix
  {
    if limit < |suffix| then ""
    else if limit >= |s| then s
    else Slice(s, 0, limit - |suffix|) + suffix
  }

  /** The two versions agree except when the limit is below the suffix length yet the string fits. */
  lemma ShortenVersionsAgree(s: string, limit: int, suffix: string)
    ensures Shorten(s, limit, suffix) != ShortenLegacy(s, limit, suffix) <==>
      (limit < |suffix| && |s| <= limit && s != "")
  {
  }

  // ---------------------------------------------------------------- replace

  /** The value the i-th pair uses: its own, or the last one given before it. */
  function LastKnown(pairs: seq<(string, Option<string>)>, i: nat): string
    requires i < |pairs| && pairs[0].1.Some?
  {
    if pairs[i].1.Some? then pairs[i].1.value else LastKnown(pairs, i - 1)
  }

  /** The pairs with every missing value filled in from the last known one. */
  function Filled(pairs: seq<(string, Option<string>)>): (r: seq<(string, string)>)
    requires pairs != [] ==> pairs[0].1.Some?
    ensures |r| == |pairs|
  {
    seq(|pairs|, i requires 0 <= i < |pairs| => (pairs[i].0, LastKnown(pairs, i)))
  }

  /** Each pair in order replaces the first occurrence of its substring in the text so far. */
  function ApplyPairs(s: string, ps: seq<(string, string)>): string {
    if ps == [] then s
    else ReplaceFirst(ApplyPairs(s, ps[..|ps| - 1]), ps[|ps| - 1].0, ps[|ps| - 1].1)
  }

  /** What `replace(str, ...pairs)` computes: a TypeError when the first pair has no value
      (it reads `pairs[-1][1]`), otherwise the pairs applied in order with missing values filled. */
  function ReplaceSpec(s: string, pairs: seq<(string, Option<string>)>): Result<string> {
    if pairs != [] && pairs[0].1.None? then Err(TypeError, "Cannot read properties of undefined")
    else Ok(ApplyPairs(s, Filled(pairs)))
  }

  /** `replace`: the loop keeps the last known value `lkv` and rewrites `str` pair by pair. */
  method Replace(str: string, pairs: seq<(string, Option<string>)>) returns (r: Result<string>)
    ensures r == ReplaceSpec(str, pairs)
  {
    var s := str;
    var lkv := "";
    var i := 0;
    while i < |pairs|
      invariant 0 <= i <= |pairs|
      invariant i > 0 ==> pairs[0].1.Some? && lkv == LastKnown(pairs, i - 1)
      invariant i > 0 ==> s == ApplyPairs(str, Filled(pairs)[..i])
      invariant i == 0 ==> s == str
    {
      var (substr, value) := pairs[i];
      if value.Some? {
        lkv := value.value;
      } else if i == 0 {
        // value ?? lkv ?? pairs[-1][1]: both are undefined, so the index read throws.
        return Err(TypeError, "Cannot read properties of undefined");
      }
      assert Filled(pairs)[..i + 1][..i] == Filled(pairs)[..i];
      s := ReplaceFirst(s, substr, lkv);
      i := i + 1;
    }
    assert Filled(pairs)[..|pairs|] == Filled(pairs);
    r := Ok(s);
  }

  /** A missing value reuses the last one given: filling it in by hand changes nothing. */
  lemma ReplaceReusesValue(s: string, a: string, v: string, b: string)
    ensures ReplaceSpec(s, [(a, Some(v)), (b, None)]) == ReplaceSpec(s, [(a, Some(v)), (b, Some(v))])
    ensures ReplaceSpec(s, [(a, Some(v)), (b, None)]) == Ok(ReplaceFirst(ReplaceFirst(s, a, v), b, v))
  {
    var p1 := [(a, Some(v)), (b, None)];
    var p2 := [(a, Some(v)), (b, Some(v))];
    assert LastKnown(p1, 1) == v && LastKnown(p2, 1) == v;
    assert Filled(p1) == [(a, v), (b, v)] == Filled(p2);
    assert [(a, v), (b, v)][..1] == [(a, v)];
    assert [(a, v)][..0] == [];
    assert ApplyPairs(s, [(a, v)]) == ReplaceFirst(s, a, v);
    assert ApplyPairs(s, [(a, v), (b, v)]) == ReplaceFirst(ApplyPairs(s, [(a, v)]), b, v);
  }

  // ---------------------------------------------------------------- stripIndents

  /** `s.split('\n')`. */
  function Split(s: string): (r: seq<string>)
    ensures |r| >= 1
    ensures forall i :: 0 <= i < |r| ==> '\n' !in r[i]
  {
    if '\n' !in s then [s]
    else
      var k := FirstNewline(s);
      [s[..k]] + Split(s[k + 1..])
  }

  function FirstNewline(s: string): (k: nat)
    requires '\n' in s
    ensures k < |s| && s[k] == '\n' && '\n' !in s[..k]
  {
    if s[0] == '\n' then 0
    else
      assert s == [s[0]] + s[1..];
      var k := FirstNewline(s[1..]);
      assert s[..k + 1] == [s[0]] + s[1..][..k];
      k + 1
  }

  /** `lines.join('\n')`. */
  function Join(lines: seq<string>): string {
    if lines == [] then ""
    else if |lines| == 1 then lines[0]
    else lines[0] + "\n" + Join(lines[1..])
  }

  /** `str.match(/^\s*\/)[0].length`: the number of leading white-space characters. */
  function Indent(line: string): (n: nat)
    ensures n <= |line| && IsBlank(line[..n])
    ensures n < |line| ==> !IsWhitespace(line[n])
  {
    if line != [] && IsWhitespace(line[0]) then
      var n := Indent(line[1..]) + 1;
      assert line[..n] == [line[0]] + line[1..][..n - 1];
      n
    else 0
  }

  /** `Math.min(...)` of the indents of the non-blank lines; `None` is `Infinity` (no such line). */
  function MinIndent(lines: seq<string>): (m: Option<nat>)
    ensures m.None? <==> forall i :: 0 <= i < |lines| ==> IsBlank(lines[i])
    ensures m.Some? ==> exists i :: 0 <= i < |lines| && !IsBlank(lines[i]) && Indent(lines[i]) == m.value
    ensures m.Some? ==> forall i :: 0 <= i < |lines| && !IsBlank(lines[i]) ==> m.value <= Indent(lines[i])
  {
    if lines == [] then None
    else
      var rest := MinIndent(lines[1..]);
      assert forall i :: 1 <= i < |lines| ==> lines[i] == lines[1..][i - 1];
      if IsBlank(lines[0]) then rest
      else if rest.None? || Indent(lines[0]) <= rest.value then Some(Indent(lines[0]))
      else rest
  }

  /** The lines `stripIndents` works on: `split('\n').slice(1, -1)`. */
  function InnerLines(s: string): (r: seq<string>)
    ensures |Split(s)| >= 2 ==> |r| == |Split(s)| - 2
    ensures |Split(s)| < 2 ==> r == []
    ensures forall i :: 0 <= i < |r| ==> r[i] == Split(s)[i + 1]
  {
    var all := Split(s);
    if |all| >= 2 then all[1..|all| - 1] else []
  }

  /** The inner lines, each with the common indent cut off (`line.slice(indent)`; with no
      non-blank line the indent is Infinity and every line becomes empty). */
  function StripIndentLines(s: string): seq<string> {
    var lines := InnerLines(s);
    var indent := MinIndent(lines);
    seq(|lines|, i requires 0 <= i < |lines| => Dedent(lines[i], indent))
  }

  /** `line.slice(indent)`; an Infinity indent empties the line. */
  function Dedent(line: string, indent: Option<nat>): string {
    if indent.None? then "" else Slice(line, indent.value, |line|)
  }

  function StripIndents(s: string): string {
    Join(StripIndentLines(s))
  }

  /** `o` is `line` with some leading white space removed. */
  predicate DropsBlankPrefix(line: string, o: string) {
    |o| <= |line| && IsBlank(line[..|line| - |o|]) && o == line[|line| - |o|..]
  }

  predicate HasNonBlank(lines: seq<string>) {
    exists i :: 0 <= i < |lines| && !IsBlank(lines[i])
  }

  predicate HasUnindentedNonBlank(lines: seq<string>) {
    exists i :: 0 <= i < |lines| && !IsBlank(lines[i]) && Indent(lines[i]) == 0
  }

  /** What `stripIndents` promises: one output line per inner input line, each losing only white
      space, every non-blank line losing the same amount, and (when there is a non-blank line)
      some non-blank line ending up with no indent. */
  lemma StripIndentsSpec(s: string)
    ensures |StripIndentLines(s)| == |InnerLines(s)|
    ensures forall i :: 0 <= i < |InnerLines(s)| ==> DropsBlankPrefix(InnerLines(s)[i], StripIndentLines(s)[i])
    ensures forall i, j ::
      (0 <= i < |InnerLines(s)| && 0 <= j < |InnerLines(s)| &&
       !IsBlank(InnerLines(s)[i]) && !IsBlank(InnerLines(s)[j])) ==>
      Indent(InnerLines(s)[i]) - Indent(StripIndentLines(s)[i]) == Indent(InnerLines(s)[j]) - Indent(StripIndentLines(s)[j])
    ensures HasNonBlank(InnerLines(s)) ==> HasUnindentedNonBlank(StripIndentLines(s))
  {
    var lines := InnerLines(s);
    StripAll(lines, MinIndent(lines), StripIndentLines(s));
  }

  /** The properties of `stripIndents`, for any lines cut by their least indent. */
  lemma StripAll(lines: seq<string>, indent: Option<nat>, out: seq<string>)
    requires indent == MinIndent(lines) && |out| == |lines|
    requires forall i :: 0 <= i < |lines| ==> out[i] == Dedent(lines[i], indent)
    ensures forall i :: 0 <= i < |lines| ==> DropsBlankPrefix(lines[i], out[i])
    ensures forall i, j ::
      (0 <= i < |lines| && 0 <= j < |lines| && !IsBlank(lines[i]) && !IsBlank(lines[j])) ==>
      Indent(lines[i]) - Indent(out[i]) == Indent(lines[j]) - Indent(out[j])
    ensures HasNonBlank(lines) ==> HasUnindentedNonBlank(out)
  {
    forall i | 0 <= i < |lines|
      ensures DropsBlankPrefix(lines[i], out[i])
      ensures !IsBlank(lines[i]) ==> indent.Some? && Indent(out[i]) == Indent(lines[i]) - indent.value
    {
      StripLine(lines[i], indent, out[i]);
    }
    if HasNonBlank(lines) {
      var j :| 0 <= j < |lines| && !IsBlank(lines[j]) && Indent(lines[j]) == indent.value;
      StripLine(lines[j], indent, out[j]);
      BlankWhenIndentFull(lines[j]);
      LeastIndented(lines[j], out[j]);
      assert !IsBlank(out[j]) && Indent(out[j]) == 0;
    }
  }

  /** The least indented non-blank line keeps a non-blank character at its start. */
  lemma LeastIndented(line: string, o: string)
    requires !IsBlank(line) && o == line[Indent(line)..]
    ensures !IsBlank(o)
  {
    BlankWhenIndentFull(line);
    assert o[0] == line[Indent(line)];
    assert !IsWhitespace(o[0]);
  }

  /** One line of `stripIndents`. */
  lemma StripLine(line: string, indent: Option<nat>, o: string)
    requires o == Dedent(line, indent)
    requires indent.None? ==> IsBlank(line)
    requires indent.Some? && !IsBlank(line) ==> indent.value <= Indent(line)
    ensures DropsBlankPrefix(line, o)
    ensures indent.Some? && !IsBlank(line) ==> Indent(o) == Indent(line) - indent.value
    ensures indent.Some? ==> o == line[if indent.value <= |line| then indent.value else |line|..]
  {
    if indent.Some? {
      var m := indent.value;
      var k := if m <= |line| then m else |line|;
      assert o == line[k..];
      if IsBlank(line) {
        assert IsBlank(line[..k]);
      } else {
        assert line[..Indent(line)][..m] == line[..m];
        IndentSuffix(line, m);
      }
    }
  }

  /** Dropping m <= Indent(line) leading blanks lowers the indent by m. */
  lemma {:induction false} IndentSuffix(line: string, m: nat)
    requires m <= Indent(line)
    ensures Indent(line[m..]) == Indent(line) - m
  {
    if m > 0 {
      assert line[m..] == line[1..][m - 1..];
      IndentSuffix(line[1..], m - 1);
    }
  }

  lemma BlankWhenIndentFull(line: string)
    requires !IsBlank(line)
    ensures Indent(line) < |line|
  {
    assert line[..|line|] == line;
  }

  // ---------------------------------------------------------------- choise

  /** `choise(array)` with the random index supplied: the element, or undefined for an empty array. */
  function Choose<T>(arr: seq<T>, index: nat): (r: Option<T>)
    requires index < |arr| || index == 0
    ensures r.Some? <==> arr != []
    ensures r.Some? ==> r.value in arr
  {
    if arr == [] then None else Some(arr[index])
  }

  /** `choise(array, true)`: `array.splice(index, 1)[0]`; the array loses exactly that element. */
  function Splice<T>(arr: seq<T>, index: nat): (r: (Option<T>, seq<T>))
    requires index < |arr| || index == 0
    ensures arr == [] ==> r == (None, [])
    ensures arr != [] ==> r.0 == Some(arr[index]) && |r.1| == |arr| - 1
  {
    if arr == [] then (None, [])
    else (Some(arr[index]), arr[..index] + arr[index + 1..])
  }

  /** The array loses exactly the chosen element and keeps the others in order. */
  lemma SpliceRemovesOne<T>(arr: seq<T>, index: nat)
    requires index < |arr|
    ensures multiset(Splice(arr, index).1) + multiset{arr[index]} == multiset(arr)
    ensures forall m :: 0 <= m < |arr| - 1 ==>
      Splice(arr, index).1[m] == if m < index then arr[m] else arr[m + 1]
  {
    assert arr == arr[..index] + [arr[index]] + arr[index + 1..];
  }

  // ---------------------------------------------------------------- generateId

  /** `generateId(length, min, max)` of src/lib/util.js with the random bytes supplied: the bytes
      are read from last to first, each giving one character in [min, max]. */
  method GenerateId(length: nat, min: int, max: int, buffer: seq<int>) returns (id: string)
    requires |buffer| == length && forall i :: 0 <= i < |buffer| ==> 0 <= buffer[i] < 256
    requires 0 <= min <= max < 0xD800
    ensures |id| == length
    ensures forall i :: 0 <= i < length ==> id[i] as int == min + buffer[length - 1 - i] % (max - min + 1)
    ensures forall i :: 0 <= i < length ==> min <= id[i] as int <= max
  {
    var count := max - min + 1;
    var n: int := length;
    id := "";
    while n > 0
      invariant 0 <= n <= length
      invariant |id| == length - n
      invariant forall i :: 0 <= i < |id| ==> id[i] as int == min + buffer[length - 1 - i] % count
      invariant forall i :: 0 <= i < |id| ==> min <= id[i] as int <= max
    {
      n := n - 1;
      id := id + [(min + buffer[n] % count) as char];
    }
  }
}
