/**
 * The command log of src/bot/register.js. It keeps the same per-guild lists as src/register.js
 * (see `Register`), but every operation works on the list of the guild the script was started
 * for, commands are looked up by name alone, and the delete action takes its commands from the
 * log instead of from the command modules.
 */
module BotRegister {
  import opened Wrappers
  import opened Register

  /** `find(name)`: the first logged command of the guild with that name. */
  function FindByName(log: Log, guild: string, name: string): (r: Option<Command>)
    ensures r.Some? ==> guild in log && r.value in log[guild] && r.value.name == name
    ensures r.Some? ==> exists i :: 0 <= i < |log[guild]| && log[guild][i] == r.value &&
                                    forall k :: 0 <= k < i ==> log[guild][k].name != name
    ensures r.None? <==> guild !in log || forall i :: 0 <= i < |log[guild]| ==> log[guild][i].name != name
  {
    if guild !in log then None
    else
      var i := FirstMatch(log[guild], (x: Command) => x.name == name);
      if i.Some? then Some(log[guild][i.value]) else None
  }

  /** The command this script sends for a selected module: `type` defaults to 1 and the id is
      that of the logged command with the same name, whatever its type. */
  function Prepared(log: Log, guild: string, m: CommandModule): (r: Command)
    ensures r.name == m.name && r.kind == m.kind.GetOr(ChatInput)
    ensures FindByName(log, guild, m.name).None? ==> r.id.None?
    ensures FindByName(log, guild, m.name).Some? ==> r.id == FindByName(log, guild, m.name).value.id
  {
    var found := FindByName(log, guild, m.name);
    Command(if found.Some? then found.value.id else None, m.name, m.kind.GetOr(ChatInput))
  }

  /** `filter(commandNames)`: the logged commands whose name is listed, in log order. */
  function Named(list: seq<Command>, names: seq<string>): (r: seq<Command>)
    ensures forall c :: c in r <==> c in list && c.name in names
    decreases |list|
  {
    if list == [] then []
    else
      assert forall c :: c in list <==> c == list[0] || c in list[1..];
      (if list[0].name in names then [list[0]] else []) + Named(list[1..], names)
  }

  /** The delete action asks for names, not for 'ALL': unless a command is really named 'ALL',
      `delete ALL` deletes nothing. */
  lemma {:induction false} AllIsNotSpecial(list: seq<Command>)
    requires forall c :: c in list ==> c.name != All
    ensures Named(list, [All]) == []
    decreases |list|
  {
    if list != [] {
      assert list[0] in list;
      assert forall c :: c in list[1..] ==> c in list;
      AllIsNotSpecial(list[1..]);
    }
  }

  /** After the delete action no logged command carries a name that was asked for: each one was
      among the deleted commands, and its own id removed it. */
  lemma DeleteClearsNames(list: seq<Command>, names: seq<string>)
    ensures forall c :: c in RemoveAll(list, Named(list, names)) ==> c.name !in names
  {
    RemoveAllMembers(list, Named(list, names));
  }

  /**
   * `add(command)` as written: it calls `this.remove($guild, command)`, but `remove` takes one
   * parameter, so it receives the guild id string and filters on that string's `id` property,
   * which is undefined. The entries without an id are dropped and the command is appended; an
   * entry with the same id stays.
   */
  function AddAsWritten(list: seq<Command>, c: Command): (r: seq<Command>)
    ensures r != [] && r[|r| - 1] == c && |r| <= |list| + 1
  {
    Without(list, None) + [c]
  }

  /**
   * Creating a command that the log already lists (the API answers with the same id) leaves two
   * entries with one id, and a later `delete` of that name then sends two deletions of it.
   */
  lemma AddAsWrittenDuplicates(c: Command)
    requires c.id.Some?
    ensures AddAsWritten([c], c) == [c, c]
    ensures !UniqueIds(AddAsWritten([c], c))
    ensures Named(AddAsWritten([c], c), [c.name]) == [c, c]
  {
    assert Without([c], None) == [c] by { assert [c][1..] == []; }
    assert c in [c, c][1..];
    assert c.name in [c.name];
    var cc := [c, c];
    assert cc[1..] == [c] && [c][1..] == [];
    assert Named([c], [c.name]) == [c] + Named([], [c.name]);
    assert Named(cc, [c.name]) == [c] + Named([c], [c.name]);
  }

  /** The create action as written: each created command goes through `AddAsWritten`. */
  function AddAllAsWritten(list: seq<Command>, created: seq<Command>): (r: seq<Command>)
    ensures created != [] ==> r != [] && r[|r| - 1] == created[|created| - 1]
    ensures |r| <= |list| + |created|
    decreases |created|
  {
    if created == [] then list
    else AddAsWritten(AddAllAsWritten(list, created[..|created| - 1]), created[|created| - 1])
  }

  /** Creating a logged command again: as written the log gains a second entry with its id,
      while the corrected fold keeps one. */
  lemma CreateAgainDuplicates(c: Command)
    requires c.id.Some?
    ensures AddAllAsWritten([c], [c]) == [c, c]
    ensures AddAll([c], [c]) == [c]
  {
    assert [c][..0] == [];
    assert AddAllAsWritten([c], [c]) == AddAsWritten([c], c);
    AddAsWrittenDuplicates(c);
    assert AddAll([c], [c]) == Added([c], c);
    assert Without([c], c.id) == [] by { assert [c][1..] == []; }
  }

  /** The log object of the script; `$guild` is fixed for the whole run. */
  class GuildLog {
    const guild: string
    var data: Log

    /** `new Log().load()`, with the file's content and the API's answers as inputs. */
    constructor Load(logged: Log, guild: string, testGuild: string, fetched: string -> seq<Command>)
      ensures this.guild == guild && data == LoadSpec(logged, guild, testGuild, fetched)
    {
      this.guild := guild;
      data := LoadSpec(logged, guild, testGuild, fetched);
    }

    /** `find(name)`. */
    function Find(name: string): Option<Command>
      reads this
    {
      FindByName(data, guild, name)
    }

    /** `add(command)`, corrected: the entries with the command's id are removed, then the
        command is appended. */
    method Add(c: Command)
      modifies this
      ensures data == old(data)[guild := Added(ListOf(old(data), guild), c)]
    {
      if guild !in data {
        data := data[guild := []];
      }
      var _ := Remove(c);
      data := data[guild := data[guild] + [c]];
    }

    /** `replace(commands)`. */
    method Replace(commands: seq<Command>)
      modifies this
      ensures data == old(data)[guild := commands]
    {
      data := data[guild := commands];
    }

    /** `remove(command)`: a guild with no list makes `filter` throw. */
    method Remove(c: Command) returns (r: Result<()>)
      modifies this
      ensures r.Ok? <==> guild in old(data)
      ensures r.Ok? ==> data == old(data)[guild := Without(old(data)[guild], c.id)]
      ensures r.Err? ==> r.kind == TypeError && data == old(data)
    {
      if guild !in data {
        return Err(TypeError, "Cannot read properties of undefined (reading 'filter')");
      }
      data := data[guild := Without(data[guild], c.id)];
      r := Ok(());
    }

    /** `filter(commandNames)`: a guild with no list makes `filter` throw. */
    function Filter(names: seq<string>): (r: Result<seq<Command>>)
      reads this
      ensures r.Ok? <==> guild in data
      ensures r.Ok? ==> r.value == Named(data[guild], names)
      ensures r.Err? ==> r.kind == TypeError
    {
      if guild !in data then Err(TypeError, "Cannot read properties of undefined (reading 'filter')")
      else Ok(Named(data[guild], names))
    }

    /** The create action: every command the API created is added to the guild's list. */
    method CreateAll(created: seq<Command>)
      modifies this
      ensures created == [] ==> data == old(data)
      ensures created != [] ==> data == old(data)[guild := AddAll(ListOf(old(data), guild), created)]
    {
      ghost var start := data;
      var k := 0;
      while k < |created|
        invariant k <= |created|
        invariant guild !in start && k == 0 ==> data == start
        invariant guild in start || k > 0 ==> data == start[guild := AddAll(ListOf(start, guild), created[..k])]
      {
        ghost var before := data;
        Add(created[k]);
        AddAllStep(start, guild, created, k, before);
        k := k + 1;
      }
      assert created[..k] == created;
    }

    /** The delete action: the logged commands with the given names are deleted one by one, and
        each one's id is removed from the list. */
    method Delete(names: seq<string>) returns (r: Result<seq<Command>>)
      modifies this
      ensures r.Ok? <==> guild in old(data)
      ensures r.Ok? ==> r.value == Named(old(data)[guild], names) &&
                        data == old(data)[guild := RemoveAll(old(data)[guild], r.value)]
      ensures r.Err? ==> r.kind == TypeError && data == old(data)
    {
      r := Filter(names);
      if r.Err? {
        return;
      }
      var deleted := r.value;
      ghost var start := data;
      var k := 0;
      while k < |deleted|
        invariant k <= |deleted| && guild in start
        invariant data == start[guild := RemoveAll(start[guild], deleted[..k])]
      {
        ghost var before := data;
        var _ := Remove(deleted[k]);
        RemoveAllStep(start, guild, deleted, k, before);
        k := k + 1;
      }
      assert deleted[..k] == deleted;
    }
  }
}
