/**
 * The command log of src/register.js: the per-guild lists of registered application commands
 * that the script keeps in `commands/log.json`, the choice of command modules to register, and
 * what the create and delete actions do to the log. The HTTP calls are left out: what the API
 * answers is an input.
 */
module Register {
  import opened Wrappers
  import opened Values

  /** An application command as the log keeps it and as it is sent: `id` (unset before the
      command was ever created), `name` and `type`. */
  datatype Command = Command(id: Option<string>, name: string, kind: int)

  /** A command module: its `data` (whose `type` may be unset) and the value it exports as `global`. */
  datatype CommandModule = CommandModule(name: string, kind: Option<int>, global: Value)

  /** The log: guild id (`''` for the global commands) to its list. */
  type Log = map<string, seq<Command>>

  const All := "ALL"
  const ChatInput := 1
  const Global := ""

  /** `$guild`: the argument 'TEST' names the test guild; a missing or empty argument means the
      global commands. */
  function GuildArg(arg: Option<string>, testGuild: string): (r: string)
    ensures arg == Some("TEST") ==> r == testGuild
    ensures arg != Some("TEST") ==> (r == Global <==> arg.None? || arg.value == "")
    ensures arg != Some("TEST") && arg.Some? ==> r == arg.value
  {
    if arg == Some("TEST") then testGuild
    else if arg.Some? then arg.value
    else Global
  }

  /** The selection test of the registration loop: a guild is given or the module is exported
      as `global === true`, and 'ALL' or the module's name is among the requested names. */
  predicate Selected(guild: string, names: seq<string>, m: CommandModule) {
    (guild != Global || m.global == Bool(true)) && (All in names || m.name in names)
  }

  function ListOf(log: Log, guild: string): seq<Command> {
    if guild in log then log[guild] else []
  }

  /** `Array.prototype.find`: the position of the first entry that passes `p`. */
  function FirstMatch(list: seq<Command>, p: Command -> bool): (r: Option<nat>)
    ensures r.Some? ==> r.value < |list| && p(list[r.value])
    ensures r.Some? ==> forall k :: 0 <= k < r.value ==> !p(list[k])
    ensures r.None? ==> forall k :: 0 <= k < |list| ==> !p(list[k])
    decreases |list|
  {
    if list == [] then None
    else if p(list[0]) then Some(0)
    else
      var k := FirstMatch(list[1..], p);
      if k.Some? then Some(k.value + 1) else None
  }

  predicate Same(x: Command, c: Command) {
    x.kind == c.kind && x.name == c.name
  }

  /** `getId(guildId, command)`: the id of the first logged command of that guild with the same
      type and name. */
  function GetId(log: Log, guild: string, c: Command): (r: Option<string>)
    ensures r.Some? ==> guild in log
    ensures r.Some? ==> (exists i :: 0 <= i < |log[guild]| && Same(log[guild][i], c) && log[guild][i].id == r &&
                                     forall k :: 0 <= k < i ==> !Same(log[guild][k], c))
    ensures guild !in log || (forall i :: 0 <= i < |log[guild]| ==> !Same(log[guild][i], c)) ==> r.None?
  {
    if guild !in log then None
    else
      var i := FirstMatch(log[guild], x => Same(x, c));
      if i.Some? then log[guild][i.value].id else None
  }

  /** `list.filter(c => c.id !== id)`. */
  function Without(list: seq<Command>, id: Option<string>): (r: seq<Command>)
    ensures |r| <= |list|
    decreases |list|
  {
    if list == [] then []
    else (if list[0].id != id then [list[0]] else []) + Without(list[1..], id)
  }

  /** `remove` keeps exactly the entries whose id differs. */
  lemma {:induction false} WithoutMembers(list: seq<Command>, id: Option<string>)
    ensures forall c :: c in Without(list, id) <==> c in list && c.id != id
    decreases |list|
  {
    if list != [] {
      WithoutMembers(list[1..], id);
      assert forall c :: c in list <==> c == list[0] || c in list[1..];
    }
  }

  /** An id that no entry has removes nothing. */
  lemma {:induction false} WithoutAbsent(list: seq<Command>, id: Option<string>)
    requires forall c :: c in list ==> c.id != id
    ensures Without(list, id) == list
    decreases |list|
  {
    if list != [] {
      assert list[0] in list;
      assert forall c :: c in list[1..] ==> c in list;
      WithoutAbsent(list[1..], id);
      assert [list[0]] + list[1..] == list;
    }
  }

  /** `add`: entries with the new command's id are removed and the command is appended. */
  function Added(list: seq<Command>, c: Command): (r: seq<Command>)
    ensures r != [] && r[|r| - 1] == c
  {
    Without(list, c.id) + [c]
  }

  /** After `add`, the log holds the new command and the entries with other ids, no more. */
  lemma AddedMembers(list: seq<Command>, c: Command)
    ensures forall x :: x in Added(list, c) <==> x == c || (x in list && x.id != c.id)
  {
    WithoutMembers(list, c.id);
  }

  /** One entry per id: no entry with an id is followed by another with the same id. */
  predicate UniqueIds(list: seq<Command>)
    decreases |list|
  {
    list == [] ||
    ((list[0].id.Some? ==> forall x :: x in list[1..] ==> x.id != list[0].id) && UniqueIds(list[1..]))
  }

  /** Removing entries keeps the ids unique. */
  lemma {:induction false} WithoutUnique(list: seq<Command>, id: Option<string>)
    requires UniqueIds(list)
    ensures UniqueIds(Without(list, id))
    decreases |list|
  {
    if list != [] {
      WithoutUnique(list[1..], id);
      WithoutMembers(list[1..], id);
      var rest := Without(list[1..], id);
      if list[0].id != id {
        assert Without(list, id) == [list[0]] + rest;
        assert ([list[0]] + rest)[1..] == rest;
      } else {
        assert Without(list, id) == rest;
      }
    }
  }

  /** Appending a command whose id is not in the list keeps the ids unique. */
  lemma {:induction false} AppendUnique(list: seq<Command>, c: Command)
    requires UniqueIds(list) && forall x :: x in list ==> x.id != c.id
    ensures UniqueIds(list + [c])
    decreases |list|
  {
    if list == [] {
      assert ([] + [c])[1..] == [];
    } else {
      assert (list + [c])[1..] == list[1..] + [c];
      AppendUnique(list[1..], c);
    }
  }

  /** `add` leaves one entry per id, the new command last: the log never lists a command twice. */
  lemma AddedUnique(list: seq<Command>, c: Command)
    ensures UniqueIds(list) ==> UniqueIds(Added(list, c))
  {
    if UniqueIds(list) {
      WithoutUnique(list, c.id);
      WithoutMembers(list, c.id);
      AppendUnique(Without(list, c.id), c);
    }
  }

  /** Re-creating a logged command replaces its entry instead of adding a second one. */
  lemma AddedTwice(list: seq<Command>, c: Command)
    ensures Added(Added(list, c), c) == Added(list, c)
  {
    var w := Without(list, c.id);
    assert Without(w + [c], c.id) == w by {
      WithoutAppend(w, [c], c.id);
      WithoutMembers(list, c.id);
      WithoutAbsent(w, c.id);
      assert Without([c], c.id) == [] by { assert [c][1..] == []; }
    }
  }

  lemma {:induction false} WithoutAppend(a: seq<Command>, b: seq<Command>, id: Option<string>)
    ensures Without(a + b, id) == Without(a, id) + Without(b, id)
    decreases |a|
  {
    if a != [] {
      var head := if a[0].id != id then [a[0]] else [];
      assert (a + b)[0] == a[0] && (a + b)[1..] == a[1..] + b;
      assert Without(a + b, id) == head + Without(a[1..] + b, id);
      WithoutAppend(a[1..], b, id);
      assert Without(a, id) == head + Without(a[1..], id);
      assert head + (Without(a[1..], id) + Without(b, id)) == (head + Without(a[1..], id)) + Without(b, id);
    } else {
      assert a + b == b;
    }
  }

  /** What `load` leaves: the logged lists, with the global list, the test guild's and the
      requested guild's fetched from the API where the file had none. */
  function LoadSpec(logged: Log, guild: string, testGuild: string, fetched: string -> seq<Command>): (r: Log)
    ensures Global in r && testGuild in r && guild in r
    ensures forall g :: g in logged ==> g in r && r[g] == logged[g]
    ensures forall g :: g in r && g !in logged ==> r[g] == fetched(g)
  {
    var l1 := if Global in logged then logged else logged[Global := fetched(Global)];
    var l2 := if testGuild in l1 then l1 else l1[testGuild := fetched(testGuild)];
    if guild == Global || guild in l2 then l2 else l2[guild := fetched(guild)]
  }

  /** The command that the script sends for a selected module: `type` defaults to 1 (a chat
      input command) and the id is the one logged for it, if any. */
  function Prepared(log: Log, guild: string, m: CommandModule): (r: Command)
    ensures r.name == m.name && (m.kind.Some? ==> r.kind == m.kind.value) && (m.kind.None? ==> r.kind == ChatInput)
    ensures r.id == GetId(log, guild, Command(None, m.name, r.kind))
  {
    var c := Command(None, m.name, m.kind.GetOr(ChatInput));
    c.(id := GetId(log, guild, c))
  }

  /** The registration loop over the command modules, in the order they are found: the selected
      ones, each made ready to send by `prepare`. */
  function SelectSpec(guild: string, names: seq<string>, modules: seq<CommandModule>,
                      prepare: CommandModule -> Command): (r: seq<Command>)
    ensures |r| <= |modules|
    ensures forall c :: c in r ==> exists m :: m in modules && Selected(guild, names, m) && c == prepare(m)
    ensures forall m :: m in modules && Selected(guild, names, m) ==> prepare(m) in r
    decreases |modules|
  {
    if modules == [] then []
    else
      var m := modules[0];
      var rest := SelectSpec(guild, names, modules[1..], prepare);
      assert forall x :: x in modules ==> x == m || x in modules[1..];
      if Selected(guild, names, m) then [prepare(m)] + rest else rest
  }

  /** The create action's effect on the log: each created command, as the API returns it, is
      added in turn. */
  function AddAll(list: seq<Command>, created: seq<Command>): (r: seq<Command>)
    ensures created != [] ==> r != [] && r[|r| - 1] == created[|created| - 1]
    decreases |created|
  {
    if created == [] then list
    else Added(AddAll(list, created[..|created| - 1]), created[|created| - 1])
  }

  /** However many commands the create action adds, the log keeps one entry per id. */
  lemma {:induction false} AddAllUnique(list: seq<Command>, created: seq<Command>)
    requires UniqueIds(list)
    ensures UniqueIds(AddAll(list, created))
    decreases |created|
  {
    if created != [] {
      AddAllUnique(list, created[..|created| - 1]);
      AddedUnique(AddAll(list, created[..|created| - 1]), created[|created| - 1]);
    }
  }

  /** One step of the create action: the log after `k + 1` additions. */
  lemma AddAllStep(start: Log, guild: string, created: seq<Command>, k: nat, before: Log)
    requires k < |created|
    requires guild !in start && k == 0 ==> before == start
    requires guild in start || k > 0 ==> before == start[guild := AddAll(ListOf(start, guild), created[..k])]
    ensures before[guild := Added(ListOf(before, guild), created[k])] ==
            start[guild := AddAll(ListOf(start, guild), created[..k + 1])]
  {
    var list := ListOf(start, guild);
    var done := created[..k + 1];
    assert done[..k] == created[..k] && done[k] == created[k];
    assert AddAll(list, done) == Added(AddAll(list, created[..k]), created[k]);
    assert ListOf(before, guild) == AddAll(list, created[..k]) by {
      if guild !in start && k == 0 {
        assert created[..k] == [];
      }
    }
  }

  /** One step of the delete action: the log after `k + 1` removals. */
  lemma RemoveAllStep(start: Log, guild: string, deleted: seq<Command>, k: nat, before: Log)
    requires k < |deleted| && guild in start
    requires before == start[guild := RemoveAll(start[guild], deleted[..k])]
    ensures before[guild := Without(before[guild], deleted[k].id)] ==
            start[guild := RemoveAll(start[guild], deleted[..k + 1])]
  {
    var done := deleted[..k + 1];
    assert done[..k] == deleted[..k] && done[k] == deleted[k];
    assert RemoveAll(start[guild], done) == Without(RemoveAll(start[guild], deleted[..k]), deleted[k].id);
  }

  /** The delete action's effect on the log: each deleted command's entries are removed. */
  function RemoveAll(list: seq<Command>, deleted: seq<Command>): (r: seq<Command>)
    ensures |r| <= |list|
    decreases |deleted|
  {
    if deleted == [] then list
    else Without(RemoveAll(list, deleted[..|deleted| - 1]), deleted[|deleted| - 1].id)
  }

  /** After the delete action, the log holds exactly the entries whose id no deleted command has. */
  lemma {:induction false} RemoveAllMembers(list: seq<Command>, deleted: seq<Command>)
    ensures forall c :: c in RemoveAll(list, deleted) <==> c in list && forall d :: d in deleted ==> c.id != d.id
    decreases |deleted|
  {
    if deleted != [] {
      var init := deleted[..|deleted| - 1];
      RemoveAllMembers(list, init);
      WithoutMembers(RemoveAll(list, init), deleted[|deleted| - 1].id);
      assert forall d :: d in deleted <==> d == deleted[|deleted| - 1] || d in init;
    }
  }

  /** The log object of the script. */
  class CommandLog {
    var data: Log

    /** `new Log().load()`, with the file's content and the API's answers as inputs. */
    constructor Load(logged: Log, guild: string, testGuild: string, fetched: string -> seq<Command>)
      ensures data == LoadSpec(logged, guild, testGuild, fetched)
    {
      data := LoadSpec(logged, guild, testGuild, fetched);
    }

    function IdOf(guild: string, c: Command): Option<string>
      reads this
    {
      GetId(data, guild, c)
    }

    /** `add(guildId, command)`. */
    method Add(guild: string, c: Command)
      modifies this
      ensures data == old(data)[guild := Added(ListOf(old(data), guild), c)]
    {
      if guild !in data {
        data := data[guild := []];
      }
      var _ := Remove(guild, c);
      data := data[guild := data[guild] + [c]];
    }

    /** `replace(guildId, commands)`. */
    method Replace(guild: string, commands: seq<Command>)
      modifies this
      ensures data == old(data)[guild := commands]
    {
      data := data[guild := commands];
    }

    /** `remove(guildId, command)`: a guild with no list makes `filter` throw. */
    method Remove(guild: string, c: Command) returns (r: Result<()>)
      modifies this
      ensures r.Ok? <==> guild in old(data)
      ensures r.Ok? ==> data == old(data)[guild := Without(old(data)[guild], c.id)]
      ensures r.Err? ==> r.kind == TypeError && data == old(data)
    {
      if guild !in data {
        return Err(TypeError, "Cannot read properties of undefined (reading 'filter')");
      }
      data := data[guild := Without(data[guild], c.id)];
      r := Ok(());
    }

    /** The create action: every command the API created is added to the guild's list. */
    method CreateAll(guild: string, created: seq<Command>)
      modifies this
      ensures created == [] ==> data == old(data)
      ensures created != [] ==> data == old(data)[guild := AddAll(ListOf(old(data), guild), created)]
    {
      ghost var start := data;
      var k := 0;
      while k < |created|
        invariant k <= |created|
        invariant guild !in start && k == 0 ==> data == start
        invariant guild in start || k > 0 ==> data == start[guild := AddAll(ListOf(start, guild), created[..k])]
      {
        ghost var before := data;
        Add(guild, created[k]);
        AddAllStep(start, guild, created, k, before);
        k := k + 1;
      }
      assert created[..k] == created;
    }

    /** The delete action: every deleted command's entries are removed from the guild's list. */
    method DeleteAll(guild: string, deleted: seq<Command>) returns (r: Result<()>)
      modifies this
      ensures r.Ok? <==> guild in old(data) || deleted == []
      ensures r.Ok? && guild in old(data) ==> data == old(data)[guild := RemoveAll(old(data)[guild], deleted)]
      ensures guild !in old(data) ==> data == old(data)
      ensures r.Err? ==> r.kind == TypeError
    {
      r := Ok(());
      ghost var start := data;
      var k := 0;
      while k < |deleted|
        invariant k <= |deleted| && r.Ok?
        invariant guild !in start ==> k == 0 && data == start
        invariant guild in start ==> data == start[guild := RemoveAll(start[guild], deleted[..k])]
      {
        ghost var before := data;
        r := Remove(guild, deleted[k]);
        if r.Err? {
          return;
        }
        RemoveAllStep(start, guild, deleted, k, before);
        k := k + 1;
      }
      assert deleted[..k] == deleted;
    }
  }

  /** The registration loop: the selected modules, prepared, in order. */
  method Select(guild: string, names: seq<string>, modules: seq<CommandModule>, prepare: CommandModule -> Command)
    returns (commands: seq<Command>)
    ensures commands == SelectSpec(guild, names, modules, prepare)
  {
    commands := [];
    var k := 0;
    while k < |modules|
      invariant k <= |modules|
      invariant commands + SelectSpec(guild, names, modules[k..], prepare) == SelectSpec(guild, names, modules, prepare)
    {
      assert modules[k..][0] == modules[k] && modules[k..][1..] == modules[k + 1..];
      if Selected(guild, names, modules[k]) {
        commands := commands + [prepare(modules[k])];
      }
      k := k + 1;
    }
    assert modules[k..] == [];
  }
}
