/**
 * Rock-paper-scissors-lizard-Spock of src/bot/lib/games/rps.js: the table of which weapon beats
 * which, the round loop of `main` with its winner choice, and the button filter. The button
 * presses of each round (those whose `deferUpdate` went through, in arrival order) and the bot's
 * random key are inputs; a collector whose presses run out without the filter passing is the
 * three-minute timeout.
 */
module Rps {
  import opened Wrappers
  import opened Roster

  /** The keys of `weapons`, in table order; each is also the custom id of its button. */
  const Keys: seq<string> := ["rock", "paper", "scissors", "spock", "lizard"]

  /** `weapons.get(name)`: the weapons `name` beats, undefined for anything else. */
  function Beats(name: string): (r: Option<seq<string>>)
    ensures r.Some? <==> name in Keys
  {
    if name == "rock" then Some(["scissors", "lizard"])
    else if name == "paper" then Some(["rock", "spock"])
    else if name == "scissors" then Some(["paper", "lizard"])
    else if name == "spock" then Some(["rock", "scissors"])
    else if name == "lizard" then Some(["paper", "spock"])
    else None
  }

  /** Every weapon beats exactly two other weapons. */
  lemma BeatsTwoOthers(w: string)
    requires w in Keys
    ensures var v := Beats(w).value;
      |v| == 2 && v[0] != v[1] && w !in v && v[0] in Keys && v[1] in Keys
  {
  }

  /** Of two different weapons exactly one beats the other, so a round between different
      weapons always has a winner. */
  lemma ExactlyOneBeats(a: string, b: string)
    requires a in Keys && b in Keys && a != b
    ensures (b in Beats(a).value) != (a in Beats(b).value)
  {
  }

  /** The name a player's data holds; anything that is not a weapon looks up nothing. */
  function WeaponOf(d: Data): string {
    if d.Weapon? then d.name else ""
  }

  /** How the two choices of a round compare. */
  datatype Verdict = Draw | Winner(winner: Player, loser: Player) | Crash(message: string)

  /** The end of a round: equal data is a draw; otherwise the first player wins iff their
      weapon's list holds the second's weapon. Looking up a data that is not a weapon throws. */
  function Decide(first: Player, second: Player): (r: Verdict)
    ensures r.Draw? <==> first.data == second.data
    ensures r.Winner? ==> (r.winner, r.loser) == (first, second) || (r.winner, r.loser) == (second, first)
    ensures r.Crash? <==> first.data != second.data && WeaponOf(first.data) !in Keys
  {
    if first.data == second.data then Draw
    else match Beats(WeaponOf(first.data))
      case None => Crash("Cannot read properties of undefined (reading 'includes')")
      case Some(victims) =>
        if WeaponOf(second.data) in victims then Winner(first, second) else Winner(second, first)
  }

  /** Two different weapons: the first player wins iff their weapon beats the second's, and the
      declared winner's weapon always beats the loser's and never the other way round. */
  lemma {:induction false} DecideRule(first: Player, second: Player)
    requires first.data.Weapon? && second.data.Weapon?
    requires first.data.name in Keys && second.data.name in Keys && first.data != second.data
    ensures Decide(first, second).Winner?
    ensures Decide(first, second).winner == first <==> second.data.name in Beats(first.data.name).value
    ensures var v := Decide(first, second);
      WeaponOf(v.loser.data) in Beats(WeaponOf(v.winner.data)).value &&
      WeaponOf(v.winner.data) !in Beats(WeaponOf(v.loser.data)).value
  {
    ExactlyOneBeats(first.data.name, second.data.name);
  }

  // ---------------------------------------------------------------- filter and collector

  /** A button press: who pressed and the button's custom id. */
  datatype Press = Press(user: User, customId: string)

  /** `filter(interaction)`: the presser's choice is recorded only when they are in the game;
      the press passes once every player holds a truthy choice. */
  function FilterSpec(s: seq<Player>, p: Press): (r: (bool, seq<Player>))
    requires Distinct(Ids(s))
    ensures Ids(r.1) == Ids(s)
    ensures p.user.id !in Ids(s) ==> r == (false, s)
    ensures p.user.id in Ids(s) ==> forall i :: 0 <= i < |s| ==>
      r.1[i] == if s[i].user.id == p.user.id then Player(p.user, Weapon(p.customId)) else s[i]
    ensures r.0 <==> p.user.id in Ids(s) && AllReady(r.1)
  {
    if p.user.id in Ids(s) then
      var chosen := Player(p.user, Weapon(p.customId));
      PutSpec(s, chosen);
      var s' := Put(s, chosen);
      (AllReady(s'), s')
    else (false, s)
  }

  /** The collector: presses go through the filter in order until one passes; `false` when
      none does before the time runs out. */
  function CollectSpec(s: seq<Player>, presses: seq<Press>): (r: (bool, seq<Player>))
    requires Distinct(Ids(s))
    ensures Ids(r.1) == Ids(s)
    ensures r.0 ==> AllReady(r.1)
    decreases |presses|
  {
    if presses == [] then (false, s)
    else
      var (passed, s') := FilterSpec(s, presses[0]);
      if passed then (true, s') else CollectSpec(s', presses[1..])
  }

  // ---------------------------------------------------------------- rounds

  /** What a round is given: the bot's random key (reduced modulo the five keys) and the presses. */
  datatype RoundInput = RoundInput(pick: nat, presses: seq<Press>)

  /** How `main` ends: a winner, an abort (`throw null` after the message), or a thrown error. */
  datatype End = Won(winner: Player, loser: Player) | Aborted(reason: string) | Crashed(message: string)

  const NoResponse := "Players have not responded in time."
  const NoAttempts := "The game has ended due to lack of attempts."
  const Rounds := 3

  /** The start of a round: every choice is cleared, then the bot, if it plays, picks a key. */
  function ArmSpec(s: seq<Player>, botUser: User, pick: nat): (r: seq<Player>)
    requires Distinct(Ids(s))
    ensures Ids(r) == Ids(s)
    ensures forall i :: 0 <= i < |r| ==>
      r[i].data == if s[i].user.id == botUser.id then Weapon(Keys[pick % |Keys|]) else NoData
  {
    var cleared := Assigned(s, Each(NoData));
    ResetReady(s, Each(NoData));
    if botUser.id in Ids(cleared) then
      var bot := Player(botUser, Weapon(Keys[pick % |Keys|]));
      PutSpec(cleared, bot);
      Put(cleared, bot)
    else cleared
  }

  /** One round: `None` is a draw, after which the round repeats. */
  function RoundSpec(s: seq<Player>, botUser: User, input: RoundInput): (r: (Option<End>, seq<Player>))
    requires Distinct(Ids(s)) && |s| == 2
    ensures Ids(r.1) == Ids(s) && |r.1| == 2
  {
    var armed := ArmSpec(s, botUser, input.pick);
    var (collected, chosen) := CollectSpec(armed, input.presses);
    if !collected then (Some(Aborted(NoResponse)), chosen)
    else match Decide(chosen[0], chosen[1])
      case Draw => (None, chosen)
      case Winner(w, l) => (Some(Won(w, l)), chosen)
      case Crash(m) => (Some(Crashed(m)), chosen)
  }

  /** The input of round `i`; a round nobody plays in times out. */
  function RoundAt(rounds: seq<RoundInput>, i: nat): RoundInput {
    if i < |rounds| then rounds[i] else RoundInput(0, [])
  }

  /** `main` from round `i` on: at most three rounds, then the game is abandoned. */
  function MainSpec(s: seq<Player>, botUser: User, rounds: seq<RoundInput>, i: nat): (r: (End, seq<Player>))
    requires Distinct(Ids(s)) && |s| == 2
    ensures Ids(r.1) == Ids(s) && |r.1| == 2
    decreases Rounds - i
  {
    if i >= Rounds then (Aborted(NoAttempts), s)
    else
      var (end, s') := RoundSpec(s, botUser, RoundAt(rounds, i));
      if end.Some? then (end.value, s') else MainSpec(s', botUser, rounds, i + 1)
  }

  // ---------------------------------------------------------------- properties of a game

  /** Every player holds nothing or a weapon of the table. */
  ghost predicate Picked(s: seq<Player>) {
    forall i :: 0 <= i < |s| ==> s[i].data == NoData || (s[i].data.Weapon? && s[i].data.name in Keys)
  }

  /** Presses of the five buttons only. */
  ghost predicate FromButtons(presses: seq<Press>) {
    forall k :: 0 <= k < |presses| ==> presses[k].customId in Keys
  }

  lemma {:induction false} CollectPicked(s: seq<Player>, presses: seq<Press>)
    requires Distinct(Ids(s)) && Picked(s) && FromButtons(presses)
    ensures Picked(CollectSpec(s, presses).1)
    decreases |presses|
  {
    if presses != [] {
      var s' := FilterSpec(s, presses[0]).1;
      assert Picked(s');
      CollectPicked(s', presses[1..]);
    }
  }

  /** With presses of the game's own buttons a round never throws: once everyone has chosen,
      every choice is a weapon of the table. */
  lemma {:induction false} RoundNeverCrashes(s: seq<Player>, botUser: User, input: RoundInput)
    requires Distinct(Ids(s)) && |s| == 2 && FromButtons(input.presses)
    ensures var end := RoundSpec(s, botUser, input).0; end.Some? ==> !end.value.Crashed?
  {
    var armed := ArmSpec(s, botUser, input.pick);
    CollectPicked(armed, input.presses);
    var (collected, chosen) := CollectSpec(armed, input.presses);
    if collected {
      assert Truthy(chosen[0].data) && Truthy(chosen[1].data);
      if chosen[0].data != chosen[1].data {
        DecideRule(chosen[0], chosen[1]);
      }
    }
  }

  /** The whole game never throws when every press is of one of its buttons. */
  lemma {:induction false} MainNeverCrashes(s: seq<Player>, botUser: User, rounds: seq<RoundInput>, i: nat)
    requires Distinct(Ids(s)) && |s| == 2
    requires forall j :: 0 <= j < |rounds| ==> FromButtons(rounds[j].presses)
    ensures !MainSpec(s, botUser, rounds, i).0.Crashed?
    decreases Rounds - i
  {
    if i < Rounds {
      RoundNeverCrashes(s, botUser, RoundAt(rounds, i));
      var (end, s') := RoundSpec(s, botUser, RoundAt(rounds, i));
      if end.None? {
        MainNeverCrashes(s', botUser, rounds, i + 1);
      }
    }
  }

  /** A game is decided within three rounds: input for later rounds is never looked at. */
  lemma {:induction false} ThreeRoundsAtMost(s: seq<Player>, botUser: User, rounds: seq<RoundInput>,
                                             later: seq<RoundInput>, i: nat)
    requires Distinct(Ids(s)) && |s| == 2 && |rounds| >= Rounds
    ensures MainSpec(s, botUser, rounds + later, i) == MainSpec(s, botUser, rounds, i)
    decreases Rounds - i
  {
    if i < Rounds {
      assert RoundAt(rounds + later, i) == RoundAt(rounds, i);
      var s' := RoundSpec(s, botUser, RoundAt(rounds, i)).1;
      ThreeRoundsAtMost(s', botUser, rounds, later, i + 1);
    }
  }

  /** A round in which the presses run out before everyone has chosen aborts the game. */
  lemma {:induction false} SilenceAborts(s: seq<Player>, botUser: User, rounds: seq<RoundInput>, i: nat)
    requires Distinct(Ids(s)) && |s| == 2 && i < Rounds
    requires !CollectSpec(ArmSpec(s, botUser, RoundAt(rounds, i).pick), RoundAt(rounds, i).presses).0
    ensures MainSpec(s, botUser, rounds, i).0 == Aborted(NoResponse)
  {
    assert RoundSpec(s, botUser, RoundAt(rounds, i)).0 == Some(Aborted(NoResponse));
  }

  /** The bot's seat holds its pick and every human seat is empty when collecting starts, so a
      round always waits for the humans. */
  lemma ArmWaitsForHumans(s: seq<Player>, botUser: User, pick: nat, i: nat)
    requires Distinct(Ids(s)) && i < |s| && s[i].user.id != botUser.id
    ensures !AllReady(ArmSpec(s, botUser, pick))
  {
    assert ArmSpec(s, botUser, pick)[i].data == NoData;
  }

  /** The game state `main` works on: the two-player roster and the bot's user. */
  class RpsGame {
    const players: PlayerManager
    const botUser: User

    constructor (players: PlayerManager, botUser: User)
      ensures this.players == players && this.botUser == botUser
    {
      this.players := players;
      this.botUser := botUser;
    }

    /** `filter(interaction)`. */
    method Filter(p: Press) returns (passed: bool)
      requires players.Valid()
      modifies players
      ensures players.Valid()
      ensures (passed, players.entries) == FilterSpec(old(players.entries), p)
    {
      var updated := players.Update(Player(p.user, Weapon(p.customId)));
      passed := updated && players.Ready();
      assert players.entries == FilterSpec(old(players.entries), p).1;
    }

    /** `awaitMessageComponent` with the filter: `false` is the timeout's falsy result. */
    method Await(presses: seq<Press>) returns (collected: bool)
      requires players.Valid()
      modifies players
      ensures players.Valid()
      ensures (collected, players.entries) == CollectSpec(old(players.entries), presses)
    {
      var k := 0;
      while k < |presses|
        invariant 0 <= k <= |presses|
        invariant players.Valid()
        invariant CollectSpec(old(players.entries), presses) == CollectSpec(players.entries, presses[k..])
      {
        assert presses[k..][0] == presses[k] && presses[k..][1..] == presses[k + 1..];
        collected := Filter(presses[k]);
        if collected {
          return;
        }
        k := k + 1;
      }
      collected := false;
    }

    /** The head of a round: `players.reset()`, then the bot's pick. */
    method Arm(pick: nat)
      requires players.Valid()
      modifies players
      ensures players.Valid()
      ensures players.entries == ArmSpec(old(players.entries), botUser, pick)
    {
      players.Reset(Each(NoData));
      ResetReady(old(players.entries), Each(NoData));
      var bot := players.Get(botUser.id);
      if bot.Some? {
        players.Set(Player(botUser, Weapon(Keys[pick % |Keys|])));
      }
    }

    /** One pass of the loop in `main`; `None` is a draw. */
    method Round(input: RoundInput) returns (end: Option<End>)
      requires players.Valid() && |players.entries| == 2
      modifies players
      ensures players.Valid()
      ensures (end, players.entries) == RoundSpec(old(players.entries), botUser, input)
    {
      Arm(input.pick);
      var collected := Await(input.presses);
      if !collected {
        return Some(Aborted(NoResponse));
      }
      var verdict := Decide(players.entries[0], players.entries[1]);
      end := match verdict
        case Draw => None
        case Winner(w, l) => Some(Won(w, l))
        case Crash(m) => Some(Crashed(m));
    }

    /** `main` after the lobby. */
    method PlayRounds(rounds: seq<RoundInput>) returns (end: End)
      requires players.Valid() && |players.entries| == 2
      modifies players
      ensures players.Valid()
      ensures (end, players.entries) == MainSpec(old(players.entries), botUser, rounds, 0)
    {
      var i := 0;
      while i < Rounds
        invariant 0 <= i <= Rounds
        invariant players.Valid() && |players.entries| == 2
        invariant MainSpec(old(players.entries), botUser, rounds, 0) == MainSpec(players.entries, botUser, rounds, i)
      {
        var outcome := Round(RoundAt(rounds, i));
        if outcome.Some? {
          return outcome.value;
        }
        i := i + 1;
      }
      end := Aborted(NoAttempts);
    }
  }
}
