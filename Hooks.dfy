/**
 * The module resolution hook of src/register-hooks.js, which makes the path mappings of
 * `jsconfig.json` work at run time. For a module imported from inside the project (its parent
 * URL starts with the base URL and does not lie under `node_modules`), each mapping in key order
 * rewrites the first occurrence of its key prefix in the specifier to the base URL followed by
 * its first target; the result is handed to the next resolver.
 */
module Hooks {
  import opened Wrappers
  import opened Strings

  /** One entry of `compilerOptions.paths`: a key (a prefix followed by the `Wildcard`) and its
      targets. */
  datatype Mapping = Mapping(key: string, targets: seq<string>)

  const Wildcard := "/*"
  const NodeModules := "node_modules"
  const NoTarget := "Cannot read properties of undefined (reading 'replace')"

  /** The hook rewrites only what a module of the project itself imports. */
  predicate Rewrites(parentURL: Option<string>, baseUrl: string) {
    parentURL.Some? && StartsWith(parentURL.value, baseUrl) && IndexOf(parentURL.value, NodeModules) < 0
  }

  /** The prefix a mapping looks for: its key with the first `Wildcard` turned into '/'. */
  function Part(m: Mapping): string {
    ReplaceFirst(m.key, Wildcard, "/")
  }

  /** One turn of the loop: the first occurrence of the mapping's prefix becomes the base URL and
      the first target, its first `Wildcard` turned into '/'. A mapping with no target throws. */
  function Step(specifier: string, baseUrl: string, m: Mapping): (r: Result<string>)
    ensures r.Err? <==> m.targets == []
    ensures r.Err? ==> r.kind == TypeError
  {
    if m.targets == [] then Err(TypeError, NoTarget)
    else Ok(ReplaceFirst(specifier, Part(m), baseUrl + "/" + ReplaceFirst(m.targets[0], Wildcard, "/")))
  }

  /** The mappings applied in key order, each to the specifier the previous ones left. */
  function Apply(specifier: string, baseUrl: string, paths: seq<Mapping>): (r: Result<string>)
    ensures r.Err? <==> exists i :: 0 <= i < |paths| && paths[i].targets == []
    ensures r.Err? ==> r.kind == TypeError
    decreases |paths|
  {
    if paths == [] then Ok(specifier)
    else
      assert forall i :: 1 <= i < |paths| ==> paths[i] == paths[1..][i - 1];
      var step := Step(specifier, baseUrl, paths[0]);
      if step.Err? then Err(step.kind, step.message) else Apply(step.value, baseUrl, paths[1..])
  }

  /** `resolve(specifier, context, next)`: the specifier handed to `next`. */
  function ResolveSpec(specifier: string, parentURL: Option<string>, baseUrl: string, paths: seq<Mapping>): (r: Result<string>)
    ensures !Rewrites(parentURL, baseUrl) ==> r == Ok(specifier)
    ensures Rewrites(parentURL, baseUrl) ==> r == Apply(specifier, baseUrl, paths)
  {
    if Rewrites(parentURL, baseUrl) then Apply(specifier, baseUrl, paths) else Ok(specifier)
  }

  /** A specifier that starts with a mapping's prefix is sent to that mapping's target; the rest
      of it is kept as it is, even where the prefix occurs again. */
  lemma MappedPrefix(rest: string, baseUrl: string, m: Mapping)
    requires m.targets != []
    ensures Step(Part(m) + rest, baseUrl, m) == Ok(baseUrl + "/" + ReplaceFirst(m.targets[0], Wildcard, "/") + rest)
  {
    var s := Part(m) + rest;
    assert s[0..|Part(m)|] == Part(m);
    assert IndexOf(s, Part(m)) == 0;
    assert s[..0] == [] && s[|Part(m)|..] == rest;
    var rep := baseUrl + "/" + ReplaceFirst(m.targets[0], Wildcard, "/");
    assert ReplaceFirst(s, Part(m), rep) == [] + rep + rest;
    assert [] + rep + rest == rep + rest;
    assert Step(s, baseUrl, m) == Ok(ReplaceFirst(s, Part(m), rep));
  }

  /** A specifier in which no prefix occurs, and no rewrite could introduce one, is left alone. */
  lemma {:induction false} Untouched(specifier: string, baseUrl: string, paths: seq<Mapping>)
    requires forall i :: 0 <= i < |paths| ==> paths[i].targets != []
    requires forall i, j: nat :: 0 <= i < |paths| ==> !OccursAt(specifier, Part(paths[i]), j)
    ensures Apply(specifier, baseUrl, paths) == Ok(specifier)
    decreases |paths|
  {
    if paths != [] {
      ReplaceFirstSpec(specifier, Part(paths[0]), baseUrl + "/" + ReplaceFirst(paths[0].targets[0], Wildcard, "/"));
      assert Step(specifier, baseUrl, paths[0]) == Ok(specifier);
      forall i, j: nat | 0 <= i < |paths[1..]| ensures !OccursAt(specifier, Part(paths[1..][i]), j) {
        assert paths[1..][i] == paths[i + 1];
      }
      Untouched(specifier, baseUrl, paths[1..]);
    }
  }

  /** Later mappings see what earlier ones wrote: applying a list in two parts is applying it
      whole. */
  lemma {:induction false} ApplySplit(specifier: string, baseUrl: string, first: seq<Mapping>, second: seq<Mapping>)
    ensures Apply(specifier, baseUrl, first + second) ==
      (match Apply(specifier, baseUrl, first)
       case Err(k, msg) => Err(k, msg)
       case Ok(s) => Apply(s, baseUrl, second))
    decreases |first|
  {
    if first == [] {
      assert first + second == second;
    } else {
      assert (first + second)[0] == first[0] && (first + second)[1..] == first[1..] + second;
      var step := Step(specifier, baseUrl, first[0]);
      if step.Ok? {
        ApplySplit(step.value, baseUrl, first[1..], second);
      }
    }
  }

  /** The hook itself, with its loop over the mappings. */
  method Resolve(specifier: string, parentURL: Option<string>, baseUrl: string, paths: seq<Mapping>)
    returns (r: Result<string>)
    ensures r == ResolveSpec(specifier, parentURL, baseUrl, paths)
  {
    var current := specifier;
    if Rewrites(parentURL, baseUrl) {
      var k := 0;
      while k < |paths|
        invariant k <= |paths|
        invariant Apply(specifier, baseUrl, paths) == Apply(current, baseUrl, paths[k..])
      {
        assert paths[k..][0] == paths[k] && paths[k..][1..] == paths[k + 1..];
        var m := paths[k];
        var part := ReplaceFirst(m.key, Wildcard, "/");
        if m.targets == [] {
          return Err(TypeError, NoTarget);
        }
        var value := ReplaceFirst(m.targets[0], Wildcard, "/");
        current := ReplaceFirst(current, part, baseUrl + "/" + value);
        k := k + 1;
      }
      assert paths[k..] == [];
    }
    r := Ok(current);
  }
}
