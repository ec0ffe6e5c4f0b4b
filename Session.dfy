/**
 * `Game` and `Lobby` of src/bot/lib/games/game.js: the lobby's button filter and the rules
 * applied when its collector ends, the start button's enabling, player intake from the
 * command options, and the process-wide set of running games (one per initiator).
 * Replies, embeds and collectors are left to the SDK; their outcomes are inputs.
 */
module Session {
  import opened Wrappers
  import opened Values
  import opened Roster
  import Throttles
  import Discord

  /** The lobby re-renders at most every 2.5 seconds and waits ten minutes for players. */
  const LobbyDelay := 2500
  const LobbyTime := 600000

  /** The lobby's `editReply` with fresh embeds, as the throttled call. */
  const Render := Throttles.Call(0, [])

  /** `${user}`. */
  function Mention(id: Id): string {
    "<@" + id + ">"
  }

  class Game {
    /** `interaction.user`, the challenger. */
    const initiator: User
    /** `interaction.client.user`. */
    const botUser: User
    const minPlayers: nat
    const maxPlayers: nat
    const allowBot: bool
    const players: PlayerManager
    /** `response?.resource?.message?.url`; empty until the game message exists. */
    var messageUrl: string

    /** `new Game(interaction)`: the roster starts with the challenger. The defaults are 2, 26
        and `true`; games override them. */
    constructor (initiator: User, botUser: User, minPlayers: nat, maxPlayers: nat, allowBot: bool)
      ensures this.initiator == initiator && this.botUser == botUser && this.allowBot == allowBot
      ensures this.minPlayers == minPlayers && this.maxPlayers == maxPlayers
      ensures fresh(players) && players.Valid() && players.index == 0
      ensures players.entries == [Player(initiator, NoData)]
      ensures messageUrl == ""
    {
      this.initiator := initiator;
      this.botUser := botUser;
      this.minPlayers := minPlayers;
      this.maxPlayers := maxPlayers;
      this.allowBot := allowBot;
      players := new PlayerManager();
      messageUrl := "";
      new;
      var _ := players.Add(Player(initiator, NoData));
    }

    /** `challenger`: the initiator's entry, if they are still in the roster. */
    function Challenger(): (r: Option<Player>)
      reads this, players
      ensures r.Some? <==> initiator.id in Ids(players.entries)
    {
      players.Get(initiator.id)
    }

    /** `Game.initialize` with the permission flags and the `p2`…`p<maxPlayers>` options given:
        `given[n - 2]` is option `p<n>`. Which message is shown is the result. */
    method Initialize(appCanView: bool, memberCanUseExternalApps: bool, given: seq<Option<User>>)
      returns (r: Result<Opening>)
      requires players.Valid()
      modifies players
      ensures players.Valid() && players.index == old(players.index)
      ensures var (res, roster) := IntakeSpec(appCanView, memberCanUseExternalApps, old(players.entries),
                                              Options(given, maxPlayers), allowBot, botUser.id);
        players.entries == roster &&
        r == (if res.Err? then Err(res.kind, res.message)
              else if |roster| >= minPlayers then Ok(Direct) else Ok(ShowLobby))
    {
      ghost var start := players.entries;
      var options := Options(given, maxPlayers);
      if !appCanView && !memberCanUseExternalApps {
        return Err(UserError, NoEphemeral);
      }
      var n := 2;
      while n <= maxPlayers
        invariant 2 <= n && n - 2 <= |options|
        invariant players.Valid() && players.index == old(players.index)
        invariant Intake(start, options, allowBot, botUser.id) ==
                  Intake(players.entries, options[n - 2..], allowBot, botUser.id)
      {
        ghost var cur, rest := players.entries, options[n - 2..];
        assert rest[0] == Given(given, n - 2) && rest[1..] == options[n - 1..];
        var user := Given(given, n - 2);
        if user.Some? {
          var u := user.value;
          if u.bot && (!allowBot || u.id != botUser.id) {
            var msg := "User " + Mention(u.id) + " is a bot and can't participate in the game.";
            assert Intake(cur, rest, allowBot, botUser.id) == (Err(UserError, msg), cur);
            return Err(UserError, msg);
          }
          var added := players.Add(Player(u, NoData));
          if !added {
            var msg := "User " + Mention(u.id) + " has been specified more than once.";
            assert Intake(cur, rest, allowBot, botUser.id) == (Err(UserError, msg), cur);
            return Err(UserError, msg);
          }
          assert Intake(cur, rest, allowBot, botUser.id) == Intake(players.entries, options[n - 1..], allowBot, botUser.id);
        } else {
          assert Intake(cur, rest, allowBot, botUser.id) == Intake(cur, options[n - 1..], allowBot, botUser.id);
        }
        n := n + 1;
      }
      assert options[n - 2..] == [];
      if |players.entries| >= minPlayers {
        r := Ok(Direct);
      } else {
        r := Ok(ShowLobby);
      }
    }
  }

  /** Where `initialize` goes: the game message at once, or the lobby first. */
  datatype Opening = Direct | ShowLobby

  const NoEphemeral := "Games with ephemeral responses are not allowed."

  function Given(given: seq<Option<User>>, i: nat): Option<User> {
    if i < |given| then given[i] else None
  }

  /** The options `p2`…`p<maxPlayers>` in the order the loop reads them. */
  function Options(given: seq<Option<User>>, maxPlayers: nat): (r: seq<Option<User>>)
    ensures |r| == if maxPlayers < 2 then 0 else maxPlayers - 1
  {
    seq(if maxPlayers < 2 then 0 else maxPlayers - 1, i requires 0 <= i => Given(given, i))
  }

  /** A bot may play only if bots are allowed and it is this bot. */
  predicate Admissible(u: User, allowBot: bool, botId: Id) {
    !u.bot || (allowBot && u.id == botId)
  }

  /** The intake loop from some roster on: a rejected bot or a repeated user stops it with a
      UserError; the players added before stay in the roster. */
  function Intake(s: seq<Player>, users: seq<Option<User>>, allowBot: bool, botId: Id): (Result<()>, seq<Player>)
    decreases |users|
  {
    if users == [] then (Ok(()), s)
    else match users[0]
      case None => Intake(s, users[1..], allowBot, botId)
      case Some(u) =>
        if !Admissible(u, allowBot, botId) then
          (Err(UserError, "User " + Mention(u.id) + " is a bot and can't participate in the game."), s)
        else if u.id in Ids(s) then
          (Err(UserError, "User " + Mention(u.id) + " has been specified more than once."), s)
        else Intake(s + [Player(u, NoData)], users[1..], allowBot, botId)
  }

  /** The permission check, then the intake loop. */
  function IntakeSpec(appCanView: bool, memberCanUseExternalApps: bool, s: seq<Player>,
                      users: seq<Option<User>>, allowBot: bool, botId: Id): (Result<()>, seq<Player>)
  {
    if !appCanView && !memberCanUseExternalApps then (Err(UserError, NoEphemeral), s)
    else Intake(s, users, allowBot, botId)
  }

  /** The players the given users become, in order. */
  function Joined(users: seq<Option<User>>): seq<Player> {
    if users == [] then []
    else (if users[0].Some? then [Player(users[0].value, NoData)] else []) + Joined(users[1..])
  }

  /** The given users are acceptable: each is an admissible bot or no bot, none is already in the
      roster, and none is given twice. */
  predicate Acceptable(s: seq<Player>, users: seq<Option<User>>, allowBot: bool, botId: Id) {
    forall i :: 0 <= i < |users| && users[i].Some? ==>
      Admissible(users[i].value, allowBot, botId) && users[i].value.id !in Ids(s) &&
      forall j :: 0 <= j < i && users[j].Some? ==> users[j].value.id != users[i].value.id
  }

  /** Intake succeeds exactly when the users are acceptable, and then appends them in order. */
  lemma {:induction false} IntakeSpecified(s: seq<Player>, users: seq<Option<User>>, allowBot: bool, botId: Id)
    ensures Intake(s, users, allowBot, botId).0.Ok? <==> Acceptable(s, users, allowBot, botId)
    ensures Intake(s, users, allowBot, botId).0.Ok? ==> Intake(s, users, allowBot, botId).1 == s + Joined(users)
    ensures Intake(s, users, allowBot, botId).0.Err? ==> Intake(s, users, allowBot, botId).0.kind == UserError
    decreases |users|
  {
    if users == [] {
      assert s + [] == s;
    } else {
      var rest := users[1..];
      if users[0].None? {
        assert Intake(s, users, allowBot, botId) == Intake(s, rest, allowBot, botId);
        assert Joined(users) == [] + Joined(rest) == Joined(rest);
        IntakeSpecified(s, rest, allowBot, botId);
        AcceptableSkip(s, users, allowBot, botId);
      } else {
        var u := users[0].value;
        if Admissible(u, allowBot, botId) && u.id !in Ids(s) {
          var s' := s + [Player(u, NoData)];
          assert Intake(s, users, allowBot, botId) == Intake(s', rest, allowBot, botId);
          IntakeSpecified(s', rest, allowBot, botId);
          AcceptableStep(s, u, users, allowBot, botId);
          assert Joined(users) == [Player(u, NoData)] + Joined(rest);
          assert s' + Joined(rest) == s + Joined(users);
        } else {
          assert Intake(s, users, allowBot, botId).0.Err?;
          assert !Acceptable(s, users, allowBot, botId) by {
            assert 0 < |users| && users[0].Some? && users[0].value == u;
          }
        }
      }
    }
  }

  /** A missing option changes nothing about acceptability. */
  lemma AcceptableSkip(s: seq<Player>, users: seq<Option<User>>, allowBot: bool, botId: Id)
    requires users != [] && users[0].None?
    ensures Acceptable(s, users, allowBot, botId) <==> Acceptable(s, users[1..], allowBot, botId)
  {
    var rest := users[1..];
    if Acceptable(s, rest, allowBot, botId) {
      forall i | 0 <= i < |users| && users[i].Some?
        ensures Admissible(users[i].value, allowBot, botId) && users[i].value.id !in Ids(s) &&
          forall j :: 0 <= j < i && users[j].Some? ==> users[j].value.id != users[i].value.id
      {
        assert users[i] == rest[i - 1];
        forall j | 0 <= j < i && users[j].Some? ensures users[j].value.id != users[i].value.id {
          assert users[j] == rest[j - 1];
        }
      }
    }
    if Acceptable(s, users, allowBot, botId) {
      forall i | 0 <= i < |rest| && rest[i].Some?
        ensures Admissible(rest[i].value, allowBot, botId) && rest[i].value.id !in Ids(s) &&
          forall j :: 0 <= j < i && rest[j].Some? ==> rest[j].value.id != rest[i].value.id
      {
        assert rest[i] == users[i + 1];
        forall j | 0 <= j < i && rest[j].Some? ensures rest[j].value.id != rest[i].value.id {
          assert rest[j] == users[j + 1];
        }
      }
    }
  }

  lemma AcceptableStep(s: seq<Player>, u: User, users: seq<Option<User>>, allowBot: bool, botId: Id)
    requires users != [] && users[0] == Some(u)
    requires Admissible(u, allowBot, botId) && u.id !in Ids(s)
    ensures Acceptable(s, users, allowBot, botId) <==> Acceptable(s + [Player(u, NoData)], users[1..], allowBot, botId)
  {
    var s', rest := s + [Player(u, NoData)], users[1..];
    assert Ids(s') == Ids(s) + [u.id];
    if Acceptable(s', rest, allowBot, botId) {
      forall i | 0 <= i < |users| && users[i].Some?
        ensures Admissible(users[i].value, allowBot, botId) && users[i].value.id !in Ids(s) &&
          forall j :: 0 <= j < i && users[j].Some? ==> users[j].value.id != users[i].value.id
      {
        if i > 0 {
          assert users[i] == rest[i - 1];
          forall j | 0 <= j < i && users[j].Some? ensures users[j].value.id != users[i].value.id {
            if j > 0 { assert users[j] == rest[j - 1]; }
          }
        }
      }
    }
    if Acceptable(s, users, allowBot, botId) {
      forall i | 0 <= i < |rest| && rest[i].Some?
        ensures Admissible(rest[i].value, allowBot, botId) && rest[i].value.id !in Ids(s') &&
          forall j :: 0 <= j < i && rest[j].Some? ==> rest[j].value.id != rest[i].value.id
      {
        assert rest[i] == users[i + 1];
        forall j | 0 <= j < i && rest[j].Some? ensures rest[j].value.id != rest[i].value.id {
          assert rest[j] == users[j + 1];
        }
      }
    }
  }

  /** A user listed twice, or already the challenger, is refused. */
  lemma RepeatedUserRejected(s: seq<Player>, users: seq<Option<User>>, allowBot: bool, botId: Id, i: nat, j: nat)
    requires j < i < |users| && users[i].Some? && users[j].Some? && users[i].value.id == users[j].value.id
    ensures Intake(s, users, allowBot, botId).0.Err?
  {
    IntakeSpecified(s, users, allowBot, botId);
  }

  /** A bot other than this one, or any bot when bots are not allowed, is refused. */
  lemma ForeignBotRejected(s: seq<Player>, users: seq<Option<User>>, allowBot: bool, botId: Id, i: nat)
    requires i < |users| && users[i].Some? && users[i].value.bot && (!allowBot || users[i].value.id != botId)
    ensures Intake(s, users, allowBot, botId).0.Err?
  {
    IntakeSpecified(s, users, allowBot, botId);
  }

  // ---------------------------------------------------------------- the lobby

  /** The start button is disabled while the roster, counting a place for the bot when it has
      not joined, is short of `minPlayers`. */
  function StartDisabled(s: seq<Player>, botId: Id, minPlayers: nat): (r: bool)
    ensures r <==> |s| + (if botId in Ids(s) then 0 else 1) < minPlayers
  {
    var minus := if Position(s, botId).Some? then 0 else 1;
    |s| < minPlayers - minus
  }

  /** What the lobby filter does with one button press: the filter's answer (a TypeError when
      'start' is pressed after the challenger left), the roster, and whether a re-render is
      scheduled. */
  datatype Press = Press(answer: Result<bool>, roster: seq<Player>, rerender: bool)

  function FilterSpec(s: seq<Player>, challengerId: Id, maxPlayers: nat, customId: string, user: User): Press {
    var p := Player(user, NoData);
    if customId == "start" then
      if challengerId !in Ids(s) then Press(Err(TypeError, "Cannot read properties of undefined (reading 'user')"), s, false)
      else Press(Ok(user.id == challengerId), s, false)
    else
      var (roster, rerender) :=
        if customId == "join" then
          if user.id in Ids(s) then (s, false) else (s + [p], true)
        else if customId == "leave" then
          // `update(size)`: an emptied roster gives 0, which is falsy.
          if user.id in Ids(s) then (Remove(s, user.id), |Remove(s, user.id)| > 0) else (s, false)
        else (s, false);
      Press(Ok(challengerId !in Ids(roster) || |roster| == maxPlayers), roster, rerender)
  }

  /** 'start' stops the collector only when the challenger presses it; it never changes the roster. */
  lemma StartOnlyByChallenger(s: seq<Player>, challengerId: Id, maxPlayers: nat, user: User)
    requires challengerId in Ids(s)
    ensures var r := FilterSpec(s, challengerId, maxPlayers, "start", user);
      r.answer == Ok(user.id == challengerId) && r.roster == s && !r.rerender
  {
  }

  /** A second 'join' by the same user changes nothing and re-renders nothing. */
  lemma DuplicateJoinIgnored(s: seq<Player>, challengerId: Id, maxPlayers: nat, user: User)
    requires user.id in Ids(s)
    ensures var r := FilterSpec(s, challengerId, maxPlayers, "join", user);
      r.roster == s && !r.rerender
  {
  }

  /** 'leave' undoes 'join', and the challenger leaving stops the collector. */
  lemma JoinThenLeave(s: seq<Player>, challengerId: Id, maxPlayers: nat, user: User)
    requires Distinct(Ids(s)) && user.id !in Ids(s)
    ensures var joined := FilterSpec(s, challengerId, maxPlayers, "join", user).roster;
      joined == s + [Player(user, NoData)] &&
      FilterSpec(joined, challengerId, maxPlayers, "leave", user).roster == s
    ensures user.id == challengerId ==>
      FilterSpec(s + [Player(user, NoData)], challengerId, maxPlayers, "leave", user).answer == Ok(true)
  {
    var joined := s + [Player(user, NoData)];
    assert Ids(joined) == Ids(s) + [user.id];
    var k := Position(joined, user.id).value;
    assert Ids(joined)[|s|] == user.id;
    assert k == |s|;
    assert joined[..k] == s;
    RemoveSpec(joined, user.id);
  }

  /** Outside 'start', the collector stops exactly when the challenger is gone or the roster is full. */
  lemma FilterStops(s: seq<Player>, challengerId: Id, maxPlayers: nat, customId: string, user: User)
    requires customId != "start"
    ensures var r := FilterSpec(s, challengerId, maxPlayers, customId, user);
      r.answer == Ok(challengerId !in Ids(r.roster) || |r.roster| == maxPlayers)
  {
  }

  /** How the lobby ends: the game goes on, or it is aborted (`throw null` after the notice). */
  datatype LobbyEnd = Proceed | Abort(reason: string)

  const Abandoned := "The challenger has abandoned the game."
  const TooFew := "The game could not start due to lack of players."

  /** The steps after the collector: a timeout empties the roster; no challenger aborts; a short
      roster gets the bot when bots are allowed; a roster still short aborts. */
  function ConcludeSpec(s: seq<Player>, collected: bool, challengerId: Id, bot: User,
                        minPlayers: nat, allowBot: bool): (LobbyEnd, seq<Player>)
  {
    var s1 := if collected then s else [];
    if challengerId !in Ids(s1) then (Abort(Abandoned), s1)
    else
      var s2 := if |s1| < minPlayers && allowBot && bot.id !in Ids(s1) then s1 + [Player(bot, NoData)] else s1;
      if |s2| < minPlayers then (Abort(TooFew), s2) else (Proceed, s2)
  }

  /** A lobby that times out is aborted with an empty roster. */
  lemma TimeoutAborts(s: seq<Player>, challengerId: Id, bot: User, minPlayers: nat, allowBot: bool)
    ensures ConcludeSpec(s, false, challengerId, bot, minPlayers, allowBot) == (Abort(Abandoned), [])
  {
  }

  /** A game that proceeds has its challenger and at least `minPlayers` players; the roster is the
      one collected, plus the bot only when bots are allowed and it was short. */
  lemma ProceedGuarantees(s: seq<Player>, collected: bool, challengerId: Id, bot: User, minPlayers: nat, allowBot: bool)
    ensures var (end, roster) := ConcludeSpec(s, collected, challengerId, bot, minPlayers, allowBot);
      end == Proceed ==>
        collected && challengerId in Ids(roster) && |roster| >= minPlayers &&
        (roster == s || (allowBot && |s| < minPlayers && roster == s + [Player(bot, NoData)]))
  {
    var (end, roster) := ConcludeSpec(s, collected, challengerId, bot, minPlayers, allowBot);
    if end == Proceed && roster != s {
      assert Ids(roster) == Ids(s) + [bot.id];
    }
  }

  /** When the challenger presses an enabled start button in a lobby that allows the bot, the
      game proceeds: the place the button counted for the bot is filled. */
  lemma EnabledStartProceeds(s: seq<Player>, challengerId: Id, bot: User, minPlayers: nat)
    requires challengerId in Ids(s) && !StartDisabled(s, bot.id, minPlayers)
    ensures ConcludeSpec(s, true, challengerId, bot, minPlayers, true).0 == Proceed
  {
    if |s| < minPlayers {
      assert Ids(s + [Player(bot, NoData)]) == Ids(s) + [bot.id];
    }
  }

  class Lobby {
    const game: Game
    /** `throttleUpdate`. */
    const throttle: Throttles.Throttle

    constructor (game: Game)
      ensures this.game == game && fresh(throttle)
      ensures throttle.delay == LobbyDelay && throttle.Snapshot() == Throttles.Initial && throttle.Valid()
    {
      this.game := game;
      throttle := new Throttles.Throttle(LobbyDelay);
    }

    /** `update(update)` at time `now`: a re-render goes through the throttle only for a truthy
        argument. */
    method Update(update: bool, now: int)
      requires throttle.Valid()
      modifies throttle
      ensures throttle.Valid()
      ensures throttle.Snapshot() ==
        if update then Throttles.ExecuteSpec(throttle.delay, old(throttle.Snapshot()), Render, now).1
        else old(throttle.Snapshot())
    {
      if update {
        var _ := throttle.Execute(Render, now);
      }
    }

    /** `filter(interaction)` for a press of `customId` by `user` at time `now`. */
    method Filter(customId: string, user: User, now: int) returns (r: Result<bool>)
      requires game.players.Valid() && throttle.Valid()
      modifies game.players, throttle
      ensures game.players.Valid() && throttle.Valid()
      ensures var press := FilterSpec(old(game.players.entries), game.initiator.id, game.maxPlayers, customId, user);
        r == press.answer && game.players.entries == press.roster &&
        throttle.Snapshot() ==
          if press.rerender then Throttles.ExecuteSpec(throttle.delay, old(throttle.Snapshot()), Render, now).1
          else old(throttle.Snapshot())
    {
      var player := Player(user, NoData);
      if customId == "start" {
        var challenger := game.Challenger();
        if challenger.None? {
          return Err(TypeError, "Cannot read properties of undefined (reading 'user')");
        }
        return Ok(user.id == challenger.value.user.id);
      } else if customId == "join" {
        var added := game.players.Add(player);
        Update(added, now);
      } else if customId == "leave" {
        var deleted := game.players.Delete(player);
        if deleted {
          Update(|game.players.entries| > 0, now);
        }
      }
      r := Ok(game.Challenger().None? || |game.players.entries| == game.maxPlayers);
    }

    /** The end of `run()`: `collected` is false when the ten minutes ran out. */
    method Conclude(collected: bool) returns (end: LobbyEnd)
      requires game.players.Valid() && throttle.Valid()
      modifies game.players, throttle
      ensures game.players.Valid() && throttle.Valid()
      ensures (end, game.players.entries) ==
        ConcludeSpec(old(game.players.entries), collected, game.initiator.id, game.botUser, game.minPlayers, game.allowBot)
      ensures throttle.Snapshot() == Throttles.ClearSpec(old(throttle.Snapshot()), Undefined, 0)
    {
      if !collected {
        game.players.Clear();
      }
      throttle.Clear(Undefined, 0);
      if game.Challenger().None? {
        return Abort(Abandoned);
      }
      if |game.players.entries| < game.minPlayers && game.allowBot {
        var _ := game.players.Add(Player(game.botUser, NoData));
      }
      if |game.players.entries| < game.minPlayers {
        return Abort(TooFew);
      }
      end := Proceed;
    }
  }

  // ---------------------------------------------------------------- Game.run

  /** `Game.games`: the games running in this process. */
  class LiveGames {
    var games: set<Game>

    /** At most one running game per initiator. */
    ghost predicate Valid()
      reads this
    {
      forall a, b :: a in games && b in games && a.initiator.id == b.initiator.id ==> a == b
    }

    constructor ()
      ensures games == {} && Valid()
    {
      games := {};
    }

    /** The first half of `run()`: refuse a second game by the same initiator, otherwise register. */
    method Start(g: Game) returns (r: Result<()>)
      requires Valid()
      modifies this
      ensures Valid()
      ensures r.Err? <==> exists x :: x in old(games) && x.initiator.id == g.initiator.id
      ensures r.Err? ==> r.kind == UserError && games == old(games)
      ensures r.Ok? ==> games == old(games) + {g}
    {
      var rest := games;
      while rest != {}
        invariant rest <= games
        invariant forall x :: x in games - rest ==> x.initiator.id != g.initiator.id
        decreases |rest|
      {
        var x :| x in rest;
        if x.initiator.id == g.initiator.id {
          var oneGame := Discord.Link("one game", x.messageUrl, "");
          return Err(UserError, "You can not start more than " + oneGame + " at a time.");
        }
        rest := rest - {x};
      }
      games := games + {g};
      r := Ok(());
    }

    /** The `finally` of `run()`: when `main()` settles, either way, the game is removed. */
    method Settle(g: Game)
      requires Valid()
      modifies this
      ensures Valid() && games == old(games) - {g}
    {
      games := games - {g};
    }
  }
}
