/**
 * `Player` and `PlayerManager` of src/bot/lib/games/game.js. The manager is a Map from user id
 * to player that keeps insertion order (a discord.js Collection), plus the turn cursor `index`.
 * The map is held as the sequence of its entries in insertion order, ids distinct.
 */
module Roster {
  import opened Wrappers

  type Id = string

  datatype User = User(id: Id, bot: bool)

  /** What the games keep in `player.data`: nothing yet, a rock-paper-scissors weapon, or a
      blackjack hand. */
  datatype Data = NoData | Weapon(name: string) | Hand(cards: string, score: int)

  /** JavaScript truthiness of `player.data`: undefined is falsy, an object always truthy. */
  predicate Truthy(d: Data) {
    match d
    case NoData => false
    case Weapon(w) => w != ""
    case Hand(_, _) => true
  }

  datatype Player = Player(user: User, data: Data)

  function Ids(s: seq<Player>): (r: seq<Id>)
    ensures |r| == |s| && forall i :: 0 <= i < |s| ==> r[i] == s[i].user.id
  {
    seq(|s|, i requires 0 <= i < |s| => s[i].user.id)
  }

  predicate Distinct(ids: seq<Id>) {
    forall a, b :: 0 <= a < b < |ids| ==> ids[a] != ids[b]
  }

  /** Where the entry for `id` sits, if there is one. */
  function Position(s: seq<Player>, id: Id): (r: Option<nat>)
    ensures r.Some? ==> r.value < |s| && s[r.value].user.id == id
    ensures r.None? <==> id !in Ids(s)
  {
    if s == [] then None
    else if s[0].user.id == id then Some(0)
    else
      var p := Position(s[1..], id);
      assert Ids(s[1..]) == Ids(s)[1..];
      if p.Some? then Some(p.value + 1) else None
  }

  /** `Map.set(id, player)`: an existing key keeps its place, a new key goes last. */
  function Put(s: seq<Player>, p: Player): seq<Player> {
    match Position(s, p.user.id)
    case Some(k) => s[k := p]
    case None => s + [p]
  }

  /** `Map.delete(id)`. */
  function Remove(s: seq<Player>, id: Id): seq<Player> {
    match Position(s, id)
    case Some(k) => s[..k] + s[k + 1..]
    case None => s
  }

  /** Setting a player replaces its entry in place when its id is present and appends it otherwise;
      ids stay distinct and no other entry changes. */
  lemma PutSpec(s: seq<Player>, p: Player)
    requires Distinct(Ids(s))
    ensures Distinct(Ids(Put(s, p)))
    ensures p.user.id in Ids(s) ==> Ids(Put(s, p)) == Ids(s)
    ensures p.user.id !in Ids(s) ==> Put(s, p) == s + [p]
    ensures p in Put(s, p)
    ensures p.user.id in Ids(s) ==> forall i :: 0 <= i < |s| ==>
      Put(s, p)[i] == if s[i].user.id == p.user.id then p else s[i]
  {
    var r := Put(s, p);
    if p.user.id !in Ids(s) {
      assert Ids(r) == Ids(s) + [p.user.id];
    } else {
      assert Ids(r) == Ids(s);
    }
  }

  /** Deleting removes exactly the entry with that id, keeping the others in order. */
  lemma RemoveSpec(s: seq<Player>, id: Id)
    requires Distinct(Ids(s))
    ensures Distinct(Ids(Remove(s, id)))
    ensures id !in Ids(Remove(s, id))
    ensures |Remove(s, id)| == if id in Ids(s) then |s| - 1 else |s|
    ensures forall x :: x in Ids(Remove(s, id)) <==> x in Ids(s) && x != id
  {
    var r := Remove(s, id);
    match Position(s, id)
    case None =>
    case Some(k) =>
      assert Ids(r) == Ids(s)[..k] + Ids(s)[k + 1..];
      DistinctSplice(Ids(s), k);
  }

  /** Cutting one element out of a list of distinct ids leaves distinct ids: all the others. */
  lemma DistinctSplice(ids: seq<Id>, k: nat)
    requires Distinct(ids) && k < |ids|
    ensures Distinct(ids[..k] + ids[k + 1..])
    ensures forall x :: x in ids[..k] + ids[k + 1..] <==> x in ids && x != ids[k]
  {
    var t := ids[..k] + ids[k + 1..];
    assert forall i :: 0 <= i < |t| ==> t[i] == if i < k then ids[i] else ids[i + 1];
    assert ids == ids[..k] + [ids[k]] + ids[k + 1..];
    forall x | x in ids && x != ids[k] ensures x in t {
      var i :| 0 <= i < |ids| && ids[i] == x;
      assert i != k;
      if i < k { assert t[i] == x; } else { assert t[i - 1] == x; }
    }
  }

  /** `next`: one step forward, back to 0 once the end is reached. */
  function NextIndex(i: nat, size: nat): (r: nat)
    ensures size > 0 ==> r < size
    ensures size == 0 ==> r == 0
  {
    if i + 1 >= size then 0 else i + 1
  }

  /** The cursor after `steps` calls of `next`. */
  function Advance(i: nat, size: nat, steps: nat): nat {
    if steps == 0 then i else NextIndex(Advance(i, size, steps - 1), size)
  }

  /** From a valid index `next` walks round the whole roster: `size` calls return to the start. */
  lemma AdvanceRound(i: nat, size: nat)
    requires i < size
    ensures Advance(i, size, size) == i
  {
    AdvanceCompose(i, size, size - i, i);
    AdvanceForward(i, size, size - i - 1);
    AdvanceForward(0, size, i);
  }

  /** Before the end is reached each call moves the cursor one step. */
  lemma {:induction false} AdvanceForward(i: nat, size: nat, steps: nat)
    requires i + steps < size
    ensures Advance(i, size, steps) == i + steps
  {
    if steps > 0 {
      AdvanceForward(i, size, steps - 1);
    }
  }

  lemma {:induction false} AdvanceCompose(i: nat, size: nat, a: nat, b: nat)
    ensures Advance(i, size, a + b) == Advance(Advance(i, size, a), size, b)
  {
    if b > 0 {
      AdvanceCompose(i, size, a, b - 1);
    }
  }

  /** The entry at a position, as `Collection.at` gives it for a non-negative index. */
  function At(s: seq<Player>, i: nat): (r: Option<Player>)
    ensures r.Some? <==> i < |s|
    ensures r.Some? ==> r.value == s[i]
  {
    if i < |s| then Some(s[i]) else None
  }

  /** `player.data` as `reset` assigns it: the same value for everyone, or a function called once
      per player (the i-th call returning `f(i)`). */
  datatype Supply = Each(d: Data) | Call(f: nat -> Data)

  function Supplied(supply: Supply, i: nat): Data {
    match supply
    case Each(d) => d
    case Call(f) => f(i)
  }

  /** Every entry of `s` with the data `reset` gives it. */
  function Assigned(s: seq<Player>, supply: Supply): (r: seq<Player>)
    ensures |r| == |s|
    ensures forall i :: 0 <= i < |s| ==> r[i] == s[i].(data := Supplied(supply, i))
  {
    seq(|s|, i requires 0 <= i < |s| => s[i].(data := Supplied(supply, i)))
  }

  /** `every(player => player.data)`. */
  function AllReady(s: seq<Player>): (r: bool)
    ensures r <==> forall i :: 0 <= i < |s| ==> Truthy(s[i].data)
  {
    if s == [] then true
    else if !Truthy(s[0].data) then false
    else AllReady(s[1..])
  }

  /** After `reset(data)` the roster is ready iff every supplied value is truthy; in particular
      `reset()` (no data) makes it not ready unless it is empty. */
  lemma ResetReady(s: seq<Player>, supply: Supply)
    ensures Ids(Assigned(s, supply)) == Ids(s)
    ensures AllReady(Assigned(s, supply)) <==> forall i :: 0 <= i < |s| ==> Truthy(Supplied(supply, i))
    ensures s != [] ==> !AllReady(Assigned(s, Each(NoData)))
  {
    if s != [] {
      assert !Truthy(Assigned(s, Each(NoData))[0].data);
    }
  }

  class PlayerManager {
    /** The entries in insertion order. */
    var entries: seq<Player>
    /** The current player's position. */
    var index: nat

    ghost predicate Valid()
      reads this
    {
      Distinct(Ids(entries))
    }

    constructor ()
      ensures Valid() && entries == [] && index == 0
    {
      entries := [];
      index := 0;
    }

    function Size(): nat
      reads this
    {
      |entries|
    }

    /** `current`: the player at `index`, or undefined once `index` is past the end (`delete`
        does not move the cursor). */
    function Current(): (r: Option<Player>)
      reads this
      ensures r.Some? <==> index < |entries|
    {
      At(entries, index)
    }

    /** `other`: the player one step ahead, wrapping to the first. */
    function Other(): (r: Option<Player>)
      reads this
      ensures entries != [] ==> r.Some?
      ensures |entries| == 2 && index < 2 ==> r == Some(entries[1 - index])
    {
      At(entries, NextIndex(index, |entries|))
    }

    function Has(p: Player): (r: bool)
      reads this
      ensures r <==> p.user.id in Ids(entries)
    {
      Position(entries, p.user.id).Some?
    }

    /** `players.get(id)`. */
    function Get(id: Id): (r: Option<Player>)
      reads this
      ensures r.Some? <==> id in Ids(entries)
      ensures r.Some? ==> r.value in entries && r.value.user.id == id
    {
      match Position(entries, id)
      case Some(k) => Some(entries[k])
      case None => None
    }

    /** `ready()`. */
    function Ready(): (r: bool)
      reads this
      ensures r <==> forall i :: 0 <= i < |entries| ==> Truthy(entries[i].data)
    {
      AllReady(entries)
    }

    /** `next()`: the player that was `other` becomes `current`. */
    method Next()
      modifies this`index
      ensures index == NextIndex(old(index), |entries|)
      ensures entries != [] ==> Current() == old(Other())
    {
      index := index + 1;
      if index >= |entries| {
        index := 0;
      }
    }

    /** `set(player)`. */
    method Set(p: Player)
      requires Valid()
      modifies this`entries
      ensures Valid()
      ensures entries == Put(old(entries), p)
      ensures Get(p.user.id) == Some(p)
    {
      PutSpec(entries, p);
      entries := Put(entries, p);
      var k :| 0 <= k < |entries| && entries[k] == p;
      var g := Position(entries, p.user.id);
      assert Ids(entries)[k] == p.user.id;
      assert g.Some? && Ids(entries)[g.value] == p.user.id;
    }

    /** `add(player)`: only a new id is inserted, at the end; `false` stands for the `null` a
        duplicate gets, and the roster is then unchanged. */
    method Add(p: Player) returns (added: bool)
      requires Valid()
      modifies this`entries
      ensures Valid()
      ensures added <==> p.user.id !in Ids(old(entries))
      ensures entries == if added then old(entries) + [p] else old(entries)
    {
      added := !Has(p);
      if added {
        Set(p);
        PutSpec(old(entries), p);
      }
    }

    /** `update(player)`: only an existing id is overwritten, in its place; `false` is the `null`
        an unknown id gets. */
    method Update(p: Player) returns (updated: bool)
      requires Valid()
      modifies this`entries
      ensures Valid()
      ensures updated <==> p.user.id in Ids(old(entries))
      ensures Ids(entries) == Ids(old(entries))
      ensures forall i :: 0 <= i < |entries| ==>
        entries[i] == if updated && old(entries)[i].user.id == p.user.id then p else old(entries)[i]
    {
      updated := Has(p);
      if updated {
        PutSpec(entries, p);
        Set(p);
      }
    }

    /** `delete(player)`: reports whether the id was present; the cursor is left alone. */
    method Delete(p: Player) returns (deleted: bool)
      requires Valid()
      modifies this`entries
      ensures Valid()
      ensures deleted <==> p.user.id in Ids(old(entries))
      ensures entries == Remove(old(entries), p.user.id)
      ensures p.user.id !in Ids(entries)
      ensures forall x :: x in Ids(entries) <==> x in Ids(old(entries)) && x != p.user.id
    {
      deleted := Has(p);
      RemoveSpec(entries, p.user.id);
      entries := Remove(entries, p.user.id);
    }

    /** `clear()` (from Collection); the cursor is left alone. */
    method Clear()
      modifies this`entries
      ensures Valid() && entries == []
    {
      entries := [];
    }

    /** `reset(data)`: every player's data is assigned in insertion order. */
    method Reset(supply: Supply)
      requires Valid()
      modifies this`entries
      ensures Valid()
      ensures entries == Assigned(old(entries), supply)
    {
      var i := 0;
      while i < |entries|
        invariant 0 <= i <= |entries| == |old(entries)|
        invariant forall m :: 0 <= m < i ==> entries[m] == old(entries)[m].(data := Supplied(supply, m))
        invariant forall m :: i <= m < |entries| ==> entries[m] == old(entries)[m]
      {
        var d := match supply case Each(v) => v case Call(f) => f(i);
        entries := entries[i := entries[i].(data := d)];
        i := i + 1;
      }
      assert Ids(entries) == Ids(old(entries));
    }
  }
}
