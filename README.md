# discord.js-template in Dafny

A model of the self-contained logic of a Discord bot template. The Discord SDK, HTTP, files,
timers and randomness stay outside the model: what they answer is an input. The repository
holds an older tree under `src/` and a newer one under `src/bot/`. Where both have a piece,
both are modelled, and the differences are proved.

One module per concern, each in its own file:

- **Roster** and **Cards**: `PlayerManager` and `CardDeck52` of `src/bot/lib/games/game.js`.
  The manager is a class over an insertion-ordered roster and a turn cursor. The deck is a
  class over the names of the cards left.
- **Session**: `Game` and `Lobby` of the same file. It covers the lobby's join, leave and start
  buttons, the rules applied when the lobby closes, the start button's enabling, player intake
  in `initialize`, and the process-wide set of running games (one per initiator).
- **Blackjack**, **Rps** and **Guess**: the three games.
  - Blackjack: hit, stand, the end conditions, the bot's strategy, the timeout outcome, the
    buttons offered and the loss probability.
  - Rock-paper-scissors-lizard-Spock: the beats table and the round loop.
  - The guessing game: the time limit and the answer filter. Both versions (`src/lib/games/` and
    `src/bot/lib/games/`) share one model.
- **Throttles**: the coalescing `Throttle` class. Time is a parameter and the timer callback
  is a step of its own.
- **Discord**: the reply routing of `send`/`trySend`, `link`, and the sequential latch of
  `syncFilter`. `src/lib/discord.js` routes replies exactly as `src/bot/lib/discord.js` does,
  so one model serves both.
- **Correlation** and **LegacyCorrelation**: the correlation-id registries of
  `src/bot/bot.js` and `src/bot.js`. Each has a counter, a map of live ids and expiry timers.
  Replies resolve or reject the promise whose id they carry.
- **Util**, **Durations** and **Serial**: the helpers of `src/bot/lib/util.js` and
  `src/lib/util.js`: `shorten`, `replace`, `stripIndents`, `duration`, `choise`,
  `generateId`, `serialize` and `deserialize`. The last two work over a JSON tree instead of
  JSON text.
- **Register** and **BotRegister**: the command logs of `src/register.js` and
  `src/bot/register.js`, and how each script selects commands.
- **Hooks**: the specifier rewrite of `src/register-hooks.js`.
- **Interaction**: `src/bot/events/interactionCreate.js`. It covers the owner flag, the handler
  dispatch order and the replies for each kind of thrown value.
- **Wrappers**, **Values** and **Strings** are shared building blocks:
  - Option and Result;
  - JavaScript values and the JSON tree;
  - the ECMAScript string operations the code relies on.

Code that changes state step by step is modelled as classes and methods. Examples are the
roster, the deck, the lobby, the throttle, the latch, the registries, the command logs, the
game loops, `replace`, `generateId`, the hook loop and `execute`. Each method is proved
against a specification function, and the properties are proved about those functions.
Expression-only code is modelled as functions and lemmas.

## Model

| member | source | states |
|---|---|---|
| Roster.PutSpec | src/bot/lib/games/game.js:112-115 | `Map.set` on the roster: an existing id is replaced in its place and every other entry is unchanged; a new id is appended; ids stay distinct |
| Roster.RemoveSpec | src/bot/lib/games/game.js:146-148 | `Map.delete`: exactly the entry with that id goes, one entry fewer when it was there, the others stay, ids stay distinct |
| Roster.Position | src/bot/lib/games/game.js:104-106 | the id lookup behind `has`: a position holding that id, or none iff the id is absent |
| Roster.NextIndex | src/bot/lib/games/game.js:94-98 | one `next` step stays inside a non-empty roster and is 0 for an empty one |
| Roster.AdvanceRound | src/bot/lib/games/game.js:94-98 | from a valid index, `size` calls of `next` come back to the same player |
| Roster.AdvanceForward | src/bot/lib/games/game.js:94-98 | before the end of the roster each `next` moves exactly one step |
| Roster.AdvanceCompose | src/bot/lib/games/game.js:94-98 | `a` calls of `next` followed by `b` calls are `a + b` calls |
| Roster.At | src/bot/lib/games/game.js:78-80 | `Collection.at` for a non-negative index: the entry there, or undefined past the end |
| Roster.Assigned | src/bot/lib/games/game.js:136-140 | `reset` keeps every entry and its place and gives the i-th player the i-th supplied data |
| Roster.AllReady | src/bot/lib/games/game.js:153-155 | true iff every player's data is truthy |
| Roster.ResetReady | src/bot/lib/games/game.js:136-155 | after `reset` the ids are unchanged, the roster is ready iff every supplied value is truthy, and `reset()` with no data leaves a non-empty roster not ready |
| Roster.PlayerManager.constructor | src/bot/lib/games/game.js:71-72 | an empty roster with the cursor at 0 |
| Roster.PlayerManager.Current | src/bot/lib/games/game.js:78-80 | `current` exists iff the cursor is inside the roster |
| Roster.PlayerManager.Other | src/bot/lib/games/game.js:86-89 | `other` exists for any non-empty roster and, with two players, is the one the cursor is not on |
| Roster.PlayerManager.Has | src/bot/lib/games/game.js:104-106 | true iff the player's id is in the roster |
| Roster.PlayerManager.Get | src/bot/lib/games/game.js:429-439 | `players.get(id)`: found iff the id is present, and then the entry with that id |
| Roster.PlayerManager.Ready | src/bot/lib/games/game.js:153-155 | `ready()` iff every player's data is truthy |
| Roster.PlayerManager.Next | src/bot/lib/games/game.js:94-98 | the cursor takes one `next` step, and the old `other` becomes `current` |
| Roster.PlayerManager.Set | src/bot/lib/games/game.js:112-115 | the roster becomes the `Map.set` of the player, which `get` then returns; ids stay distinct |
| Roster.PlayerManager.Add | src/bot/lib/games/game.js:121-123 | succeeds iff the id was absent, and then appends the player; on a duplicate (`null`) the roster is unchanged |
| Roster.PlayerManager.Update | src/bot/lib/games/game.js:129-131 | succeeds iff the id was present, and then replaces that entry in its place; the ids and their order never change |
| Roster.PlayerManager.Delete | src/bot/lib/games/game.js:146-148 | reports whether the id was present and removes exactly that id; the cursor is not touched |
| Roster.PlayerManager.Clear | src/bot/lib/games/game.js:193 | the roster becomes empty |
| Roster.PlayerManager.Reset | src/bot/lib/games/game.js:136-140 | every player gets the supplied data, in insertion order; ids and order are kept |
| Cards.FullDeck | src/bot/lib/games/game.js:25-31 | the fresh deck holds 52 cards |
| Cards.CardValueOfDeck | src/bot/lib/games/game.js:39-44 | every card of the deck is valued by its rank: 1 to 10 as printed, J, Q and K as `j`, `q` and `k` |
| Cards.FullDeckDistinct | src/bot/lib/games/game.js:26-31 | the 52 cards of the fresh deck are all different |
| Cards.DistinctCards | src/bot/lib/games/game.js:26-31 | two different positions of the fresh deck hold different cards |
| Cards.Valued | src/bot/lib/games/game.js:40-44 | one valued card per drawn name |
| Cards.DrawCounts | src/bot/lib/games/game.js:39-44 | the draws succeed iff the deck holds at least as many cards as asked; they then give one card per draw, and the cards left plus the cards drawn are the deck before |
| Cards.DrawRemoves | src/bot/lib/games/game.js:39-44 | from a deck of distinct cards, every drawn card came from the deck and is gone from it, and nothing new appears in the deck |
| Cards.WithdrawFresh | src/bot/lib/games/game.js:24-45 | `withdraw(count)` on the fresh deck succeeds iff `count <= 52`, returns `count` cards that each left the deck, valued by their rank, and leaves `52 - count` |
| Cards.FreshCardValued | src/bot/lib/games/game.js:39-44 | any card name of the fresh deck gets its rank's value |
| Cards.CardDeck52.constructor | src/bot/lib/games/game.js:25-32 | the deck starts as the full 52-card deck |
| Cards.CardDeck52.Withdraw | src/bot/lib/games/game.js:39-45 | the cards returned (or the error of a draw from an empty deck) and the deck left are those of the withdrawal specification |
| Session.Game.constructor | src/bot/lib/games/game.js:319-324 | the roster starts with the initiator alone, cursor at 0 |
| Session.Game.Challenger | src/bot/lib/games/game.js:437-439 | the challenger exists iff the initiator is still in the roster |
| Session.Game.Initialize | src/bot/lib/games/game.js:346-373 | the permission check, then the intake of `p2`…`p<maxPlayers>` as specified; the game message is sent directly iff the roster reaches `minPlayers`, otherwise the lobby opens; a UserError leaves the players added before it |
| Session.Options | src/bot/lib/games/game.js:356-357 | the loop reads `maxPlayers - 1` options |
| Session.IntakeSpecified | src/bot/lib/games/game.js:356-364 | the intake succeeds iff every given user is an admissible bot or no bot and appears only once, not already in the roster; it then appends them in order; a failure is a UserError |
| Session.AcceptableSkip | src/bot/lib/games/game.js:357-358 | a missing option does not change whether the intake is accepted |
| Session.RepeatedUserRejected | src/bot/lib/games/game.js:361-362 | a user given twice is refused |
| Session.ForeignBotRejected | src/bot/lib/games/game.js:359-360 | a bot is refused unless bots are allowed and it is this bot |
| Session.StartDisabled | src/bot/lib/games/game.js:273-278 | the start button is disabled iff the roster, plus a place for the bot when it is not in it, is short of `minPlayers` |
| Session.StartOnlyByChallenger | src/bot/lib/games/game.js:240-241 | 'start' stops the collector iff the challenger pressed it, and never changes the roster or re-renders |
| Session.DuplicateJoinIgnored | src/bot/lib/games/game.js:242-243 | a 'join' by a player already in the roster changes nothing and schedules no re-render |
| Session.JoinThenLeave | src/bot/lib/games/game.js:242-250 | 'join' appends a new player and 'leave' by that player restores the roster; the challenger leaving stops the collector |
| Session.FilterStops | src/bot/lib/games/game.js:247-250 | outside 'start', the filter stops collection iff the challenger is gone or the roster has `maxPlayers` players |
| Session.TimeoutAborts | src/bot/lib/games/game.js:192-199 | a lobby whose ten minutes run out is aborted with an empty roster |
| Session.ProceedGuarantees | src/bot/lib/games/game.js:192-207 | a lobby that lets the game go on was not timed out, still has its challenger, has at least `minPlayers` players, and gained at most the bot, only when bots are allowed and it was short |
| Session.EnabledStartProceeds | src/bot/lib/games/game.js:198-207 | the challenger pressing an enabled start button, with bots allowed, lets the game go on |
| Session.Lobby.constructor | src/bot/lib/games/game.js:170-178 | a lobby with a fresh 2.5-second throttle |
| Session.Lobby.Update | src/bot/lib/games/game.js:213-218 | a falsy update leaves the throttle alone; a truthy one goes through the throttle's `execute` |
| Session.Lobby.Filter | src/bot/lib/games/game.js:238-251 | the answer, the roster and the re-render of one button press are those of the filter specification |
| Session.Lobby.Conclude | src/bot/lib/games/game.js:192-207 | the roster and the outcome after the collector are those of the conclusion rules, and the throttle is cleared |
| Session.LiveGames.constructor | src/bot/lib/games/game.js:305 | no game is running |
| Session.LiveGames.Start | src/bot/lib/games/game.js:329-337 | refused with a UserError iff a running game has the same initiator, otherwise the game is registered; at most one game per initiator |
| Session.LiveGames.Settle | src/bot/lib/games/game.js:338 | a settled game is removed, whatever its outcome |
| Blackjack.BotChoice | src/bot/lib/games/blackjack.js:38-42 | the bot only hits or stands, never surrenders |
| Blackjack.BotAce | src/bot/lib/games/blackjack.js:64-66 | the bot values an ace at 1 or 11 |
| Blackjack.BotAceNeverBusts | src/bot/lib/games/blackjack.js:38-42 | against an opponent at 21 or less, a hitting bot is at 16 or less or behind, and its ace never takes it past 21 |
| Blackjack.CheckHit | src/bot/lib/games/blackjack.js:93-102 | after a hit play goes on iff the current score is below 21 and the other is not 21, or the current is 21 and the other is between 10 and 20; over 21 the other player wins |
| Blackjack.DrawnCard | src/bot/lib/games/blackjack.js:62 | one draw from a non-empty deck gives a card worth 1 to 10 that leaves the deck, which shrinks by one and stays distinct |
| Blackjack.CardInRange | src/bot/lib/games/blackjack.js:62 | with faces worth 10 every card is worth 1 to 10 |
| Blackjack.HitSpec | src/bot/lib/games/blackjack.js:61-103 | a hit keeps two players in the same seats, the cursor, and a deck of distinct cards |
| Blackjack.Worth | src/bot/lib/games/blackjack.js:64-87 | a card is worth 1 to 11; only a human's ace without a choice (the minute ran out) has no worth |
| Blackjack.AddCard | src/bot/lib/games/blackjack.js:90-91 | the hand belongs to the same player and its score grows by the card's worth |
| Blackjack.DealSpec | src/bot/lib/games/blackjack.js:64-102 | dealing a card keeps the deck, the seats, the cursor and the opponent's hand |
| Blackjack.MoveSpec | src/bot/lib/games/blackjack.js:46 | any move keeps two seated players, the cursor and a valid deck |
| Blackjack.PlaySpec | src/bot/lib/games/blackjack.js:33-46 | the move of one iteration keeps two seated players, the cursor and a valid deck |
| Blackjack.TurnSpec | src/bot/lib/games/blackjack.js:30-55 | after a turn that goes on the cursor is on the other player; a turn that ends the game keeps it |
| Blackjack.DealEffect | src/bot/lib/games/blackjack.js:90-102 | a dealt card changes only the current hand: its name is appended to the cards and 1 to 11 added to the score; play goes on only at 21 or less |
| Blackjack.HitEffect | src/bot/lib/games/blackjack.js:61-103 | a hit removes one card from the deck, leaves the opponent alone, and either changes nothing else or adds that card to the current hand, worth 1 to 11; play goes on only at 21 or less |
| Blackjack.PutFacts | src/bot/lib/games/blackjack.js:90-91 | updating the current player's hand writes it in the current player's place |
| Blackjack.PlayEffect | src/bot/lib/games/blackjack.js:33-46 | a move leaves the opponent alone and never lowers the current score; when play goes on the current score is at most 21 unless the hands are unchanged |
| Blackjack.TurnKeepsEntries | src/bot/lib/games/blackjack.js:46-47 | after the move only the cursor moves on |
| Blackjack.TurnPreserves | src/bot/lib/games/blackjack.js:46-47 | no score ever falls, and after a turn that goes on only the former opponent's clicks are accepted |
| Blackjack.ScoresInPlay | src/bot/lib/games/blackjack.js:93-102 | while play goes on both scores stay between 0 and 21 |
| Blackjack.StandLocks | src/bot/lib/games/blackjack.js:108-116 | standing against an opponent below 21 only passes the turn, and the next Stand button is disabled iff that player is the bot or the stander was level or ahead |
| Blackjack.StandAgainst21 | src/bot/lib/games/blackjack.js:110-111 | standing against an opponent at 21 loses and changes nothing |
| Blackjack.TimeoutOutcome | src/bot/lib/games/blackjack.js:176-184 | a human who does not answer within the minute loses once they hold cards, otherwise the game is cancelled; nothing changes |
| Blackjack.SurrenderOnlyFirst | src/bot/lib/games/blackjack.js:189-212 | after a turn the Surrender button is disabled iff the new current player is the bot or has a nonzero score, and Hit iff that player is the bot |
| Blackjack.LoseProb | src/bot/lib/games/blackjack.js:219-233 | a percentage: 0 at 11 or less, 100 at 21 or more |
| Blackjack.LoseProbMonotone | src/bot/lib/games/blackjack.js:219-233 | the probability never falls as the score grows |
| Blackjack.BlackjackGame.constructor | src/bot/lib/games/blackjack.js:20-28 | a fresh full deck, every player reset to no cards and score 0, Stand not locked |
| Blackjack.BlackjackGame.DoHit | src/bot/lib/games/blackjack.js:61-103 | the ending and the table after `hit()` are those of the hit specification |
| Blackjack.BlackjackGame.TakeCard | src/bot/lib/games/blackjack.js:64-102 | the ending and the table after the drawn card is dealt are those of the deal specification |
| Blackjack.BlackjackGame.DoStand | src/bot/lib/games/blackjack.js:108-116 | `stand()` loses to an opponent at 21 and otherwise sets `noStand` iff the current score is at least the other's |
| Blackjack.BlackjackGame.Play | src/bot/lib/games/blackjack.js:33-46 | the ending, the table and `noStand` after the move are those of the move specification |
| Blackjack.BlackjackGame.Turn | src/bot/lib/games/blackjack.js:30-55 | the outcome and the table of one loop iteration are those of the turn specification, and `noStand` is cleared |
| Rps.Beats | src/bot/lib/games/rps.js:13-24 | a list of victims exists exactly for the five weapons |
| Rps.BeatsTwoOthers | src/bot/lib/games/rps.js:13-24 | every weapon beats exactly two other weapons of the table, never itself |
| Rps.ExactlyOneBeats | src/bot/lib/games/rps.js:13-24 | of two different weapons exactly one beats the other |
| Rps.Decide | src/bot/lib/games/rps.js:114-126 | equal choices are a draw; otherwise one of the two players wins and the other loses; the lookup throws iff the first choice is not a weapon |
| Rps.DecideRule | src/bot/lib/games/rps.js:122-126 | with two different weapons the first player wins iff their weapon beats the second's, and the winner's weapon always beats the loser's and never the reverse |
| Rps.FilterSpec | src/bot/lib/games/rps.js:163-166 | a press records the presser's choice in their own place only when they are a player, leaves everyone else alone, and passes iff every player then holds a truthy choice |
| Rps.CollectSpec | src/bot/lib/games/rps.js:109 | collecting never changes who plays, and succeeds only with every player ready |
| Rps.ArmSpec | src/bot/lib/games/rps.js:102-106 | at the start of a round every choice is cleared except the bot's, which is a weapon from the table |
| Rps.RoundSpec | src/bot/lib/games/rps.js:101-132 | a round keeps the two players |
| Rps.MainSpec | src/bot/lib/games/rps.js:101-135 | the game keeps the two players |
| Rps.CollectPicked | src/bot/lib/games/rps.js:163-166 | presses of the game's buttons only ever record weapons of the table |
| Rps.RoundNeverCrashes | src/bot/lib/games/rps.js:101-132 | with presses of the game's own buttons a round never throws |
| Rps.MainNeverCrashes | src/bot/lib/games/rps.js:101-135 | with presses of the game's own buttons the whole game never throws |
| Rps.ThreeRoundsAtMost | src/bot/lib/games/rps.js:101-135 | the game is decided within three rounds: input for later rounds is never used |
| Rps.SilenceAborts | src/bot/lib/games/rps.js:109-110 | a round whose collector times out aborts the game |
| Rps.ArmWaitsForHumans | src/bot/lib/games/rps.js:102-106 | with a human in the game, no round starts with everyone ready |
| Rps.RpsGame.constructor | src/bot/lib/games/rps.js:91-93 | the game over the given roster and bot user |
| Rps.RpsGame.Filter | src/bot/lib/games/rps.js:163-166 | the answer and the roster after a press are those of the filter specification |
| Rps.RpsGame.Await | src/bot/lib/games/rps.js:109 | the outcome and roster of the collector are those of the collect specification |
| Rps.RpsGame.Arm | src/bot/lib/games/rps.js:102-106 | the roster after the start of a round is that of the arming specification |
| Rps.RpsGame.Round | src/bot/lib/games/rps.js:101-132 | one loop pass ends as the round specification says |
| Rps.RpsGame.PlayRounds | src/bot/lib/games/rps.js:101-135 | the loop ends as the game specification says |
| Guess.Start | src/bot/lib/games/guess.js:27-34 | a game starts exactly when the time limit is a number between 10 seconds and 10 minutes; it then plays with the lower-cased secret and that time, and otherwise fails with a user error (the invalid-date one only for NaN) |
| Guess.DefaultTenMinutes | src/bot/lib/games/guess.js:28 | without a timeout option a game lasts ten minutes |
| Guess.WrittenTimeout | src/lib/games/guess.js:29-34 | a timeout written as tokens is accepted exactly when their sum is within the bounds, and the game then lasts that sum |
| Guess.MentionLength | src/bot/lib/games/guess.js:92 | a mention recognised at the front is at least `<@d>` long, starts with '<' and lies inside the text |
| Guess.StripMentions | src/bot/lib/games/guess.js:92 | removing mentions never lengthens the text |
| Guess.StripPlain | src/bot/lib/games/guess.js:92 | text without '<' holds no mention and is kept as it is |
| Guess.StripLeadingMention | src/bot/lib/games/guess.js:92 | a mention with or without the deprecated '!' at the front is removed whole |
| Guess.AnswerWins | src/bot/lib/games/guess.js:86-93 | a message that mentions the bot and then writes the secret, in any letter case and followed by anything, passes the filter |
| Guess.CaseBlind | src/lib/games/guess.js:96-104 | the filter gives the same answer for a message and its lower-cased form |
| Guess.TooShortLoses | src/bot/lib/games/guess.js:86-93 | a message shorter than the answer once its mentions are removed never passes the filter |
| Guess.Winner | src/bot/lib/games/game.js:392-398 | the collector with `max: 1` yields the first message that passes the filter, and nothing (the timeout) exactly when none of them passes |
| Guess.FirstPassing | src/bot/lib/games/game.js:392-398 | the position found passes the test and no earlier one does; none is found only when no element passes |
| Throttles.ClearConsistent | src/bot/lib/throttle.js:21-35 | `clear` keeps the throttle consistent and leaves no timer |
| Throttles.ExecuteConsistent | src/bot/lib/throttle.js:47-79 | `execute` runs the call at once iff no timer is armed and `delay` has passed since `timestamp`; a deferred caller gets the current shared promise, a timer is armed only when none was, and an armed timer and its promise are kept |
| Throttles.FireConsistent | src/bot/lib/throttle.js:70-75 | the timer callback keeps the throttle consistent and leaves no timer |
| Throttles.ArmedCalls | src/bot/lib/throttle.js:48-52 | while a timer is armed, every call gets the same promise and only the stored call changes, the latest winning |
| Throttles.Coalesce | src/bot/lib/throttle.js:47-79 | a burst of calls inside the window runs exactly one call, the latest, when the timer fires at `delay` after the last run; all callers share one promise, resolved with undefined, and the window restarts at the firing time |
| Throttles.ClearResets | src/bot/lib/throttle.js:21-35 | after `clear()` with the default timestamp 0 the next call runs at once, and waiting callers receive undefined |
| Throttles.ClearRejects | src/bot/lib/throttle.js:24-25 | `clear(error)` rejects the waiting callers with that error and runs nothing |
| Throttles.Throttle.constructor | src/bot/lib/throttle.js:5-16 | no timer, `timestamp` 0, nothing stored |
| Throttles.Throttle.Clear | src/bot/lib/throttle.js:21-35 | the new state is that of the `clear` specification, with no timer |
| Throttles.Throttle.Execute | src/bot/lib/throttle.js:47-79 | the reply and the new state are those of the `execute` specification |
| Throttles.Throttle.Fire | src/bot/lib/throttle.js:70-75 | the new state is that of the timer-callback specification, with no timer |
| Discord.SendRoute | src/bot/lib/discord.js:27-35 | a channel gets `send`; an interaction gets `followUp` iff already replied, else `editReply` iff deferred, else its own reply (the same routing as src/lib/discord.js:17-25) |
| Discord.TrySendRoute | src/bot/lib/discord.js:5-25 | a message is only ever delivered through a call that succeeds |
| Discord.TrySendAgreesWithSend | src/bot/lib/discord.js:5-25 | `trySend` delivers where `send` would whenever that call succeeds; otherwise only a deferred interaction falls back to `followUp`; it gives up (undefined) exactly when the route fails and no fallback succeeds (likewise src/lib/discord.js:1-15) |
| Discord.Link | src/bot/lib/discord.js:37-41 | no url gives the text itself; a url gives a longer string that holds the text right after the opening bracket |
| Discord.LinkParts | src/bot/lib/discord.js:37-41 | a masked link starts with the bracketed text and the url, and ends with the quoted title only when one is given |
| Discord.SyncFilter | src/bot/lib/discord.js:50-56 | a TypeError iff the filter is not a function; a plain function is returned as it is; only an async one is wrapped |
| Discord.Run | src/bot/lib/discord.js:58-72 | every call gets one answer, in arrival order |
| Discord.LatchedStaysTrue | src/bot/lib/discord.js:68 | once the latch holds, every later call answers true and the filter is never called again |
| Discord.RunSplit | src/bot/lib/discord.js:67 | the chain runs calls strictly one after another: two batches in turn are one batch |
| Discord.Latching | src/bot/lib/discord.js:67-70 | from a fresh wrapper, after a call answers true every later call answers true and the filter was called for no later event |
| Discord.EvaluatedBelowSeen | src/bot/lib/discord.js:67 | the filter is called only for events that have already arrived |
| Discord.FailedDeferral | src/bot/lib/discord.js:65-69 | a call whose deferral failed answers false without calling the filter or latching |
| Discord.LatchCoerces | src/bot/lib/discord.js:70 | the latch stores the filter's result coerced to a boolean, and the call answers that boolean |
| Discord.SequentialFilter.constructor | src/bot/lib/discord.js:58-59 | a fresh latch: false, nothing seen |
| Discord.SequentialFilter.Call | src/bot/lib/discord.js:61-71 | the answer and the latch after a call are those of the one-call specification |
| Correlation.CounterIdsDiffer | src/bot/bot.js:56 | different counter values give different ids |
| Correlation.HoldSpec | src/bot/bot.js:88 | a caller's new data object is a new, unregistered holder; nothing else changes |
| Correlation.CreateSpec | src/bot/bot.js:55-67 | `createId` returns the data's own id when set, otherwise the counter's value, advancing the counter only then; the entry is stored under that id, the id written into the data object, and a new timer armed and recorded on it; nothing is settled or sent |
| Correlation.UseSpec | src/bot/bot.js:72-81 | `useId` finds data iff the id, or the object's `customId`, is a live key; it then returns that data, deletes the entry and disarms its timer; otherwise nothing changes |
| Correlation.ExpireSpec | src/bot/bot.js:58-65 | a firing timer deletes the id its data object holds and hands `Error('Timeout')` to its `reject`, if any; a cleared timer does nothing |
| Correlation.Settle | src/bot/bot.js:38-40 | settling a message changes only the record of settlements |
| Correlation.OnMessageSpec | src/bot/bot.js:34-41 | handling a message keeps the registry consistent and sends nothing |
| Correlation.SendSpec | src/bot/bot.js:86-91 | `send` registers a fresh holder with `resolve` and `reject` under the next counter id, arms its timer, and sends the serialized message carrying that id |
| Correlation.UseOnce | src/bot/bot.js:75-80 | a consumed id is gone: a second `useId` returns undefined and changes nothing |
| Correlation.ConsumedNeverExpires | src/bot/bot.js:76-78 | after `useId` the entry's timer no longer has any effect |
| Correlation.TimeoutScenario | src/bot/bot.js:58-65 | an id nobody consumes expires: it is gone and `reject` got `Error('Timeout')` |
| Correlation.CounterIdFresh | src/bot/bot.js:56 | while every live id came from the counter, a new counter id is not in use and the invariant is kept |
| Correlation.ReusedIdEvicted | src/bot/bot.js:56-61 | a caller-given id registered twice keeps only the second entry, and the first entry's timer deletes it long before its own timer, rejecting only the first data object |
| Correlation.Answer | src/bot/bot.js:34-41 | a message naming a live id consumes it and calls its `reject` with `error` when the message has an `error` key, its `resolve` with `result` otherwise |
| Correlation.SerializedReply | src/bot/lib/util.js:71-90 | the JSON of a reply `{ id, key: v }` is the object of the id and the JSON of `v` |
| Correlation.SerializedPairMap | src/bot/lib/util.js:71-90 | the JSON of a two-key object lists both keys |
| Correlation.RevivedReply | src/bot/lib/util.js:93-110 | reading a reply back gives the id and the revived value |
| Correlation.RevivedPair | src/bot/lib/util.js:93-110 | reviving a two-key object revives the value and keeps the id |
| Correlation.ReplyResolves | src/bot/bot.js:34-41 | a `{ id, result }` reply to a `send` resolves exactly that promise, with that result, and consumes the id |
| Correlation.ReplyRejects | src/bot/bot.js:34-41 | an `{ id, error }` reply to a `send` rejects exactly that promise with an Error of the same name and message |
| Correlation.Bot.constructor | src/bot/bot.js:11-13 | counter 0, no ids |
| Correlation.Bot.Hold | src/bot/bot.js:88 | the new state is that of the holder specification |
| Correlation.Bot.CreateId | src/bot/bot.js:55-67 | the id and the new state are those of the `createId` specification |
| Correlation.Bot.UseId | src/bot/bot.js:72-81 | the data and the new state are those of the `useId` specification |
| Correlation.Bot.Expire | src/bot/bot.js:58-65 | the new state is that of the expiry specification |
| Correlation.Bot.OnMessage | src/bot/bot.js:34-41 | the outcome and the new state are those of the message specification |
| Correlation.Bot.Send | src/bot/bot.js:86-91 | the holder, the id and the new state are those of the `send` specification |
| Correlation.Bot.Eval | src/bot/bot.js:96-98 | `eval` is `send` of `__command: 'eval'`, the function's text and the raw arguments |
| LegacyCorrelation.HoldSpec | src/bot.js:72 | a caller's new data object is a new, unregistered holder |
| LegacyCorrelation.CreateSpec | src/bot.js:41-53 | `createId` always returns the counter's value and advances it; the entry is stored and a timer armed for that id, its handle kept in `data.timer` |
| LegacyCorrelation.UseSpec | src/bot.js:58-65 | `useId` finds data iff the id, or the object's `customId`, is a live key; it then returns that data, deletes the entry and clears the timer in `data.timer`; otherwise nothing changes |
| LegacyCorrelation.ExpireSpec | src/bot.js:44-50 | a firing timer deletes the entry of the id it was armed for and calls `reject` only when that entry was still there |
| LegacyCorrelation.OnMessageSpec | src/bot.js:30-36 | a message with a falsy id changes nothing; handling any message sends nothing |
| LegacyCorrelation.SendSpec | src/bot.js:70-75 | `send` registers a fresh holder with `resolve` and `reject` under the next counter id and sends the message with that id |
| LegacyCorrelation.IdsFresh | src/bot.js:42 | a new id is neither live nor the target of any armed timer, so ids are never reused |
| LegacyCorrelation.StaleTimer | src/bot.js:46-48 | a timer whose entry is already gone rejects nothing and deletes nothing |
| LegacyCorrelation.UseOnce | src/bot.js:58-65 | a consumed id is gone: a second `useId` returns undefined and changes nothing |
| LegacyCorrelation.TimeoutScenario | src/bot.js:44-50 | an id nobody consumes expires: it is gone and `reject` got `Error('Timeout')` |
| LegacyCorrelation.ReplyResolves | src/bot.js:30-36 | a reply with the id of a `send` resolves exactly that promise with the deserialized result |
| LegacyCorrelation.LegacyBot.constructor | src/bot.js:8-11 | counter 0, no ids |
| LegacyCorrelation.LegacyBot.CreateId | src/bot.js:41-53 | the id and the new state are those of the `createId` specification |
| LegacyCorrelation.LegacyBot.UseId | src/bot.js:58-65 | the data and the new state are those of the `useId` specification |
| LegacyCorrelation.LegacyBot.Expire | src/bot.js:44-50 | the new state is that of the expiry specification |
| LegacyCorrelation.LegacyBot.OnMessage | src/bot.js:30-36 | the outcome and the new state are those of the message specification |
| LegacyCorrelation.LegacyBot.Send | src/bot.js:70-75 | the holder, the id and the new state are those of the `send` specification |
| LegacyCorrelation.LegacyBot.Eval | src/bot.js:80-82 | `eval` is `send` of the function's text and the serialized arguments |
| Util.Shorten | src/bot/lib/util.js:32-36 | a string within the limit comes back whole; a longer one is cut to exactly `limit` characters, starts with a prefix of the input and ends in the suffix, or becomes empty when the suffix does not fit |
| Util.ShortenLegacy | src/lib/util.js:25-29 | the older `shorten`: a limit below the suffix length always empties the result, otherwise the same cut as `Shorten` |
| Util.ShortenVersionsAgree | src/lib/util.js:25-29 | the two `shorten` versions differ exactly when the limit is below the suffix length while a non-empty string fits |
| Util.Replace | src/bot/lib/util.js:42-49 | the loop with its last known value computes the pairs applied in order with missing values filled, and throws a TypeError when the first pair has no value |
| Util.ReplaceReusesValue | src/bot/lib/util.js:45 | a pair without a value reuses the previous pair's value, the same as giving it explicitly |
| Util.Split | src/bot/lib/util.js:55 | `split('\n')` gives at least one piece and no piece holds a newline |
| Util.Indent | src/bot/lib/util.js:58 | the indent counted is a prefix of white space followed by a non-white-space character or the end of the line |
| Util.MinIndent | src/bot/lib/util.js:56-59 | the minimum over the non-blank lines is attained by one of them and bounds all of them; it is absent (Infinity) exactly when every line is blank |
| Util.InnerLines | src/bot/lib/util.js:55 | `slice(1, -1)` drops the first and the last line and keeps the rest in order |
| Util.StripIndentsSpec | src/bot/lib/util.js:54-61 | `stripIndents` keeps one line per inner line, removes only leading white space, removes the same amount from every non-blank line, and leaves some non-blank line with no indent |
| Util.StripAll | src/bot/lib/util.js:60 | cutting every line by the least indent of the non-blank lines has the properties of `StripIndentsSpec` |
| Util.StripLine | src/bot/lib/util.js:60 | `line.slice(indent)` of one line removes only white space and lowers a non-blank line's indent by exactly `indent` |
| Util.Choose | src/bot/lib/util.js:137-139 | `choise` without removal returns an element of the array, and undefined exactly for an empty array |
| Util.Splice | src/bot/lib/util.js:140 | `choise(array, true)` returns the chosen element and leaves one element fewer |
| Util.SpliceRemovesOne | src/bot/lib/util.js:140 | the array after `splice` is the old one without the chosen element, the others kept in order |
| Util.GenerateId | src/lib/util.js:94-100 | the id has `length` characters, character i is `min` plus byte `length-1-i` modulo `max-min+1`, so every character lies in [min, max] |
| Durations.UnitMillis | src/bot/lib/util.js:164 | the `units` table knows exactly the letters d, h, m and s |
| Durations.DigitEnd | src/bot/lib/util.js:166 | the greedy `\d+` run starting at a position covers only digits and stays inside the string |
| Durations.MatchAt | src/bot/lib/util.js:166 | a match of the token pattern at a position ends after that position, inside the string |
| Durations.Duration | src/bot/lib/util.js:160-170 | a string holding '/' or '-' goes to the date branch, every other string to the token sum |
| Durations.FormatDuration | src/bot/lib/util.js:164-169 | space-separated tokens such as `1h 30m` parse to the sum of digits times unit over the tokens |
| Durations.NoDateMarks | src/bot/lib/util.js:161 | space-separated tokens never reach the date branch |
| Durations.FormatSum | src/bot/lib/util.js:166-169 | the scan of space-separated tokens adds up each token's value once |
| Durations.FirstToken | src/bot/lib/util.js:166 | a token at the start followed by a non-word character is matched whole, with its value |
| Durations.TokenSumShift | src/bot/lib/util.js:166-169 | after a non-word character the scan does not depend on the text before it |
| Durations.MatchShift | src/bot/lib/util.js:166 | a match depends only on the text after a non-word character, shifted by its position |
| Durations.TenMinutes | src/bot/lib/games/guess.js:27-34 | the guessing game's default timeout `10m` parses to 600000 milliseconds |
| Serial.Present | src/bot/lib/util.js:72 | `JSON.stringify` keeps exactly the properties whose value is not undefined, with their values |
| Serial.Serialize | src/bot/lib/util.js:71-90 | `serialize` gives undefined exactly for undefined; every other value becomes a JSON document |
| Serial.MakeError | src/bot/lib/util.js:100-107 | the reviver rebuilds an Error carrying the tagged object's name and message |
| Serial.Deserialize | src/bot/lib/util.js:92-111 | `deserialize` of a non-string is undefined, and text that is not JSON throws |
| Serial.DeserializeLegacy | src/lib/util.js:64-81 | the older `deserialize` has the same two edge cases |
| Serial.SerializedErrorShape | src/bot/lib/util.js:75-85 | an Error becomes an object tagged `__type: 'Error'` that carries its name, message and string stack |
| Serial.ErrorRoundTrip | src/bot/lib/util.js:71-111 | `deserialize(serialize(e))` is an Error with the same name, message and stack |
| Serial.ErrorRoundTripLegacy | src/lib/util.js:43-81 | the same round trip holds for the older pair of functions |
| Serial.PlainRoundTrip | src/bot/lib/util.js:71-111 | data without undefined, Errors or `__type` keys comes back unchanged |
| Serial.PlainRoundTripLegacy | src/lib/util.js:43-81 | the same holds for the older pair of functions |
| Serial.ForeignMarker | src/bot/lib/util.js:96-99 | a truthy `__type` other than 'Error' is removed by the newer reviver and kept by the older one (src/lib/util.js:68) |
| Strings.ReplaceFirstSpec | src/register-hooks.js:32-34 | `replace` with a string pattern rewrites only the first occurrence, and leaves a string in which the pattern does not occur unchanged |
| Register.GuildArg | src/register.js:14 | 'TEST' names the test guild, a non-empty argument names itself, and a missing or empty one means the global commands |
| Register.FirstMatch | src/register.js:69 | `find` returns the first entry that passes the test, or nothing when none does |
| Register.GetId | src/register.js:68-73 | `getId` gives the id of the first logged command of that guild with the same type and name, and nothing when the guild or such a command is missing |
| Register.Without | src/register.js:85-87 | removing an id never lengthens a list |
| Register.WithoutMembers | src/register.js:85-87 | `remove` keeps exactly the entries whose id differs from the command's |
| Register.WithoutAbsent | src/register.js:85-87 | removing an id that no entry has leaves the list unchanged |
| Register.Added | src/register.js:75-79 | after `add` the command is the last entry |
| Register.AddedMembers | src/register.js:75-79 | after `add` the list holds the command and the entries with other ids, and nothing else |
| Register.WithoutUnique | src/register.js:85-87 | `remove` keeps one entry per id |
| Register.AppendUnique | src/register.js:78 | appending a command whose id is not listed keeps one entry per id |
| Register.AddedUnique | src/register.js:75-79 | `add` keeps one entry per id: the log never lists a command twice |
| Register.AddedTwice | src/register.js:75-79 | adding the same command again changes nothing |
| Register.WithoutAppend | src/register.js:86 | `filter` on two joined lists is the join of the filtered lists |
| Register.LoadSpec | src/register.js:43-62 | `load` keeps every logged list and fetches the global list, the test guild's and the requested guild's when the file has none |
| Register.Prepared | src/register.js:101-102 | a selected module is sent with `type` defaulting to 1 and the id logged for a command of that type and name |
| Register.SelectSpec | src/register.js:94-105 | the commands sent are exactly the prepared selected modules: a guild is given or the module is global, and 'ALL' or its name was requested |
| Register.AddAll | src/register.js:116-122 | after the create action the last created command is the last entry |
| Register.AddAllUnique | src/register.js:116-122 | however many commands are created, the log keeps one entry per id |
| Register.RemoveAll | src/register.js:127-133 | the delete action never lengthens the list |
| Register.RemoveAllMembers | src/register.js:127-133 | after the delete action the list holds exactly the entries whose id no deleted command has |
| Register.CommandLog.Load | src/register.js:42-62 | the log object after `load` holds what `LoadSpec` describes |
| Register.CommandLog.Add | src/register.js:75-79 | `add` creates a missing list, removes the command's id and appends the command |
| Register.CommandLog.Replace | src/register.js:81-83 | `replace` (the bulk action) sets the guild's list to the API's answer |
| Register.CommandLog.Remove | src/register.js:85-87 | `remove` filters out the command's id, and throws a TypeError, changing nothing, when the guild has no list |
| Register.CommandLog.CreateAll | src/register.js:116-122 | the create loop adds each created command in turn, which is `AddAll` |
| Register.CommandLog.DeleteAll | src/register.js:127-133 | the delete loop removes each deleted command's id, which is `RemoveAll`; it throws only when there is something to delete and the guild has no list |
| Register.Select | src/register.js:94-105 | the registration loop over the modules computes `SelectSpec` |
| BotRegister.FindByName | src/bot/register.js:68-70 | `find(name)` gives the first logged command of the guild with that name, and nothing exactly when none has it |
| BotRegister.Prepared | src/bot/register.js:105-106 | a selected module is sent with `type` defaulting to 1 and the id of the logged command with the same name, whatever its type |
| BotRegister.Named | src/bot/register.js:86-88 | `filter(commandNames)` keeps exactly the logged commands whose name was requested |
| BotRegister.AllIsNotSpecial | src/bot/register.js:95-96 | the delete action does not treat 'ALL' specially: unless a command is named 'ALL', `delete ALL` selects nothing |
| BotRegister.DeleteClearsNames | src/bot/register.js:132-138 | after the delete action no logged command carries a requested name |
| BotRegister.AddAsWritten | src/bot/register.js:72-76 | `add` as written drops the entries without an id and appends the command, so the command is the last entry |
| BotRegister.AddAsWrittenDuplicates | src/bot/register.js:72-76 | as written, creating a command already logged leaves two entries with one id, and deleting its name then deletes it twice |
| BotRegister.AddAllAsWritten | src/bot/register.js:121-127 | the create loop as written, folding the as-written `add`: the last created command ends up last |
| BotRegister.CreateAgainDuplicates | src/bot/register.js:121-127 | as written, creating a command the log already holds leaves two entries with its id, where the corrected loop keeps one |
| BotRegister.GuildLog.Load | src/bot/register.js:43-62 | the log object after `load` holds what `LoadSpec` describes, for the guild fixed by the argument |
| BotRegister.GuildLog.Add | src/bot/register.js:72-76 | the corrected `add` removes the command's id and appends the command, as `Register.Added` (one entry per id) |
| BotRegister.GuildLog.Replace | src/bot/register.js:78-80 | `replace` (the bulk action) sets the guild's list to the API's answer |
| BotRegister.GuildLog.Remove | src/bot/register.js:82-84 | `remove` filters out the command's id, and throws a TypeError, changing nothing, when the guild has no list |
| BotRegister.GuildLog.Filter | src/bot/register.js:86-88 | `filter` gives the logged commands with a requested name, and throws a TypeError when the guild has no list |
| BotRegister.GuildLog.CreateAll | src/bot/register.js:121-127 | the create loop with the corrected `add` of the Findings table adds each created command in turn, which is `AddAll`: one entry per id, the last created command last |
| BotRegister.GuildLog.Delete | src/bot/register.js:132-138 | the delete action (its commands taken by `filter`, lines 95-96) deletes the logged commands with the requested names and removes each one's id; it throws when the guild has no list |
| Hooks.Step | src/register-hooks.js:32-34 | one mapping rewrites the specifier, and throws a TypeError exactly when it has no target |
| Hooks.Apply | src/register-hooks.js:31-35 | the loop over the mappings throws a TypeError exactly when some mapping has no target |
| Hooks.ResolveSpec | src/register-hooks.js:26-39 | only a parent inside the base URL and outside `node_modules` has its specifier rewritten; any other is passed on unchanged |
| Hooks.MappedPrefix | src/register-hooks.js:32-34 | a specifier that starts with a mapping's prefix is sent under the base URL to the mapping's first target, the rest kept as it is |
| Hooks.Untouched | src/register-hooks.js:31-35 | a specifier in which no mapping's prefix occurs is passed on unchanged |
| Hooks.ApplySplit | src/register-hooks.js:31-35 | later mappings see what earlier ones wrote: applying the mappings in two parts is applying them all |
| Hooks.Resolve | src/register-hooks.js:26-39 | the hook with its loop computes `ResolveSpec` |
| Interaction.Dispatch | src/bot/events/interactionCreate.js:64-71 | the first test that holds picks the handler, in the order component, modal, autocomplete, command, and no handler runs when none holds |
| Interaction.TestsOf | src/bot/events/interactionCreate.js:24-28 | at most one of the four tests holds for an interaction type, and none for a Ping |
| Interaction.DispatchByType | src/bot/events/interactionCreate.js:63-72 | every interaction type except Ping reaches the handler of its own kind |
| Interaction.MessageOf | src/bot/events/interactionCreate.js:101 | `error.message` is an Error's message and undefined for a value that has no properties |
| Interaction.ToText | src/bot/events/interactionCreate.js:103 | a template literal keeps a string and writes a number in decimal |
| Interaction.Detail | src/bot/events/interactionCreate.js:101-103 | the owner's detail is a thrown string itself, else its message when that is set, else the thrown value's text |
| Interaction.Classify | src/bot/events/interactionCreate.js:73-108 | an API error gets one embed with its code and message, an interaction error one reply with its message (an ephemeral embed for a user error, src/bot/lib/error.js:8-28), any other truthy value the fixed notice plus, for the owner only, an ephemeral detail cut to 4000 characters, and a falsy value nothing |
| Interaction.OthersSeeNoDetails | src/bot/events/interactionCreate.js:95-107 | anyone but the owner sees at most the fixed notice for an unexpected error, and the only ephemeral reply they get is a user error |
| Interaction.OwnerSeesMore | src/bot/events/interactionCreate.js:100-106 | the owner gets the same replies as anyone else followed by at most one more |
| Interaction.LongDetail | src/bot/events/interactionCreate.js:103 | a detail longer than 4000 characters reaches the owner as its own prefix followed by the suffix of `shorten` |
| Interaction.Event.constructor | src/bot/events/interactionCreate.js:56 | an interaction starts with no owner flag and no replies |
| Interaction.Event.Execute | src/bot/events/interactionCreate.js:56-109 | `execute` sets the owner flag, runs the handler `Dispatch` picks, and appends the replies `Classify` gives for what it threw |

## Left out

- Every Discord SDK call is left out: replies, edits, follow-ups, collectors, modals, embeds and
  buttons. What such a call answers (a press, a message, success or failure) is an input. An
  embed's URL, icon and wording are not modelled.
- The HTTP `api`/`query` calls, the file `load`/`dump` and the `process.argv` parsing of the
  register scripts are left out. The file's content and the API's answers are inputs.
  `Register.GuildArg` covers the guild argument.
- The early exit of both register scripts when no command is selected (`commands.length === 0`)
  is left out. It logs, dumps the log unchanged and ends the process.
- `src/index.js` and `src/bot/index.js` (sharding and process plumbing), `evalfn`, and the eval
  commands and forms are left out: they evaluate arbitrary code.
- `util.random`, `util.timeout` and the dice commands are left out: floating-point scaling and
  real timers. Every random choice is a supplied input: the index of `choise` and of each deck
  draw, the bytes of `generateId` and the bot's weapon.
- `isLetter` (Unicode property classes), `escape` (markdown escaping) and `util.log` (console
  output) are left out.
- `Durations.Duration`: the `Date.parse` branch is only recognised, not computed. `Guess` takes
  its result as an input, with `None` standing for NaN.
- `Serial.Serialize`: JSON text, indentation and object key order are not modelled. Objects are
  maps, and numbers are integers.
- `Serial.Deserialize`: the in-place `delete value.__type` is modelled as building a new value.
  Nothing else holds the parsed object, so nothing observable is lost.
- `Strings.Lower`: `toLowerCase` is modelled for ASCII letters only. Other characters are kept.
- `Util.Replace`: `String.prototype.replace` expands `$` patterns in the replacement text. The
  model inserts the text as written, so it agrees only for replacement values without `$`.
- `Hooks.Step`: the same `$` expansion applies when the loader rewrites a specifier
  (src/register-hooks.js:34). The model inserts the base URL and the target as written.
- `Util.Splice`: `choise(array, true)` shrinks the caller's array in place. The model returns
  the shortened sequence, so it does not capture aliasing of that array.
- `Util.GenerateId`: code points are bounded below 0xD800, where Dafny characters end. The
  source's default range of 33 to 126 is well inside that bound.
- `Util.GenerateId`: the model requires `0 <= min <= max`. The source throws a RangeError when
  `max - min + 1` is 0, because `% 0` is NaN, or when a code point is negative. For
  `min > max + 1` it yields code points outside [min, max] without an error. Neither case is
  modelled.
- `Serial.MakeError`: a revived Error whose object has no `stack` keeps, in the source, the stack
  text of the fresh `new Error`. The model leaves it undefined, because that text depends on the
  call site.
- `Interaction.ToText`: how an object converts to text (`Error.prototype.toString`, an array's
  join, `[object Object]`) is a parameter, not modelled. Strings and integers are converted as
  the language does.
- Real concurrency and real timers are left out:
  - The promise chain of `syncFilter` is modelled as an ordered queue of events.
  - The throttle and both registries take time, and timer firings, as explicit steps.
  - Rock-paper-scissors receives only the presses whose deferral succeeded. The latch answers
    false for the others without looking at them (`Discord.FailedDeferral`).
- `Throttles.Throttle.Clear`: `clear` deletes `args` but leaves the stale `func` on the object. The
  model drops both. A stored call is only read while a timer is armed, and every arming stores
  a new one, so the difference cannot be observed.
- `Lobby.getComponents` and the embeds of the games are modelled only through the conditions
  that enable or disable their buttons.
- The glue files are left out. Command, context-menu, component and modal dispatch modules only
  route to handlers. The ready, warn and guild events only log or load commands. The database
  module and the avatar commands are also left out.
- The legends and flavour text of the games are left out.

## Findings

| source | as written | input that shows it | evidently intended | confidence | as-written member | corrected member |
|---|---|---|---|---|---|---|
| src/bot/register.js:72-76 | `add(command)` calls `this.remove($guild, command)`. `remove` takes one parameter, so it receives the guild id string and filters on that string's undefined `id`. Entries with the new command's id are never removed. | Log `[c]` with `c.id = "1"`. Creating `c` again (the API answers with the same command) gives `[c, c]`. A later `delete` of `c.name` then sends two deletions of the same id. | `this.remove(command)`, so that each id has one entry and the new command is last, as in src/register.js:75-79 | high, not executed | BotRegister.AddAsWrittenDuplicates | BotRegister.GuildLog.Add |
