/**
 * The rules of src/bot/lib/games/blackjack.js for its two players: the bot's strategy, a hit
 * (one card from the deck, aces worth 1 or 11, face cards 10), a stand, the end conditions
 * checked after each, the turn passing, the timeout outcome, the buttons offered and the
 * probability of losing shown in the footer. Waiting for a button is an input: the move or
 * ace value the current player picked, or `None` when the minute ran out.
 */
module Blackjack {
  import opened Wrappers
  import opened Strings
  import opened Roster
  import Cards

  datatype Move = Hit | Stand | Surrender

  /** How `finish` ends the game, seen from the player whose turn it was. */
  datatype Ending =
    | Tie                 // both at 21
    | CurrentWins         // the current player reached 21
    | OtherWins           // bust, or the opponent is at 21
    | GaveUp              // surrender
    | NoResponse          // timeout with cards in hand: the opponent wins
    | Cancelled           // timeout before any card

  /** Which of Hit, Stand and Surrender are disabled. */
  datatype Buttons = Buttons(hitDisabled: bool, standDisabled: bool, surrenderDisabled: bool)

  /** One turn of the `main` loop: play goes on with the buttons shown to the next player, the
      game is finished (`throw undefined`), or `withdraw` threw for an empty deck. */
  datatype Outcome = Continue(buttons: Buttons) | Finished(ending: Ending) | Crashed(message: string)

  /** The state the turns change: the roster, the turn cursor and the deck. */
  datatype Table = Table(entries: seq<Player>, index: nat, deck: seq<string>)

  function Score(p: Player): int {
    if p.data.Hand? then p.data.score else 0
  }

  /** Two players whose data is a hand, and the cursor on one of them. */
  ghost predicate Seated(st: Table) {
    |st.entries| == 2 && st.index < 2 && forall i :: 0 <= i < 2 ==> st.entries[i].data.Hand?
  }

  /** A deck of distinct cards, all from the full deck. */
  ghost predicate Stocked(deck: seq<string>) {
    Cards.Distinct(deck) && forall x :: x in deck ==> x in Cards.FullDeck()
  }

  ghost predicate Dealt(st: Table) {
    Seated(st) && Stocked(st.deck)
  }

  function Current(st: Table): Player
    requires |st.entries| == 2 && st.index < 2
  {
    st.entries[st.index]
  }

  function Opponent(st: Table): Player
    requires |st.entries| == 2 && st.index < 2
  {
    st.entries[1 - st.index]
  }

  /** The bot hits while at 16 or less, or while behind. */
  function BotChoice(score: int, other: int): (m: Move)
    ensures m != Surrender
  {
    if score <= 16 || score < other then Hit else Stand
  }

  /** The value the bot gives an ace: 11 unless that would pass 21. */
  function BotAce(score: int): (v: nat)
    ensures v == 1 || v == 11
  {
    if score > 10 then 1 else 11
  }

  /** The bot hits only below 21 when its opponent is still in play, so an ace never busts it. */
  lemma BotAceNeverBusts(score: int, other: int)
    requires other <= 21 && BotChoice(score, other) == Hit
    ensures score + BotAce(score) <= 21
    ensures score >= 17 ==> score < other
  {
  }

  /** The end conditions after a hit, in the order they are checked. */
  function CheckHit(score: int, other: int): (r: Option<Ending>)
    ensures r.None? <==> (score < 21 && other != 21) || (score == 21 && other >= 10 && other != 21)
    ensures score > 21 ==> r == Some(OtherWins)
  {
    if score == 21 && other == 21 then Some(Tie)
    else if score == 21 && other < 10 then Some(CurrentWins)
    else if score > 21 || other == 21 then Some(OtherWins)
    else None
  }

  /** `awaitMessageComponent2` when the minute runs out. */
  function TimeoutEnd(score: int): Ending {
    if score != 0 then NoResponse else Cancelled
  }

  /** `getComponents` for the player whose turn is next. */
  function ButtonsFor(p: Player, noStand: bool): Buttons {
    Buttons(p.user.bot, p.user.bot || noStand, p.user.bot || Score(p) != 0)
  }

  /** `filter`: only the current player's clicks are collected. */
  predicate Accepts(st: Table, clicker: User)
    requires |st.entries| == 2 && st.index < 2
  {
    Current(st).user.id == clicker.id
  }

  /** The card the deck gives for one draw from a dealt deck. */
  lemma DrawnCard(deck: seq<string>, pick: nat)
    requires deck != [] && Cards.Distinct(deck) && forall x :: x in deck ==> x in Cards.FullDeck()
    ensures var (r, left) := Cards.WithdrawSpec(deck, [pick], 10, 10, 10);
      r.Ok? && |r.value| == 1 && r.value[0].value.Some? && 1 <= r.value[0].value.value <= 10 &&
      r.value[0].name in deck && r.value[0].name !in left && |left| == |deck| - 1 &&
      Cards.Distinct(left) && forall x :: x in left ==> x in deck
  {
    Cards.DrawCounts(deck, [pick]);
    Cards.DrawRemoves(deck, [pick]);
    var (drawn, left) := Cards.Draw(deck, [pick]);
    var name := drawn.value[0];
    assert name in drawn.value;
    CardInRange(name);
    var k := pick % |deck|;
    assert left == deck[..k] + deck[k + 1..];
    SpliceDistinct(deck, k);
  }

  /** A card of the full deck is worth 1 to 10 when faces count 10. */
  lemma CardInRange(name: string)
    requires name in Cards.FullDeck()
    ensures Cards.CardValue(name, 10, 10, 10).Some?
    ensures 1 <= Cards.CardValue(name, 10, 10, 10).value <= 10
  {
    Cards.FreshCardValued(name, 10, 10, 10);
    var i :| 0 <= i < 52 && name == Cards.FullDeck()[i] &&
      Cards.CardValue(name, 10, 10, 10) == Some(Cards.RankValue(i % 13, 10, 10, 10));
  }

  lemma SpliceDistinct(deck: seq<string>, k: nat)
    requires k < |deck| && Cards.Distinct(deck)
    ensures Cards.Distinct(deck[..k] + deck[k + 1..])
  {
    var left := deck[..k] + deck[k + 1..];
    forall a, b | 0 <= a < b < |left| ensures left[a] != left[b] {
      var a', b' := if a < k then a else a + 1, if b < k then b else b + 1;
      assert left[a] == deck[a'] && left[b] == deck[b'];
    }
  }

  /** The same two players in the same seats. */
  ghost predicate SameSeats(a: Table, b: Table)
    requires Seated(a) && Seated(b)
  {
    a.entries[0].user == b.entries[0].user && a.entries[1].user == b.entries[1].user
  }

  /** `hit()`: draw a card with face cards worth 10, then deal it. `None` as the outcome means
      play goes on. */
  function HitSpec(st: Table, pick: nat, ace: Option<bool>): (r: (Option<Outcome>, Table))
    requires Dealt(st)
    ensures Dealt(r.1) && r.1.index == st.index && SameSeats(st, r.1)
  {
    var (r, left) := Cards.WithdrawSpec(st.deck, [pick], 10, 10, 10);
    if r.Err? then
      Cards.DrawCounts(st.deck, [pick]);
      (Some(Crashed(r.message)), st.(deck := left))
    else
      DrawnCard(st.deck, pick);
      DealSpec(st.(deck := left), r.value[0], ace)
  }

  /** What a card is worth to the current player: its value, but an ace is 1 or 11, chosen by
      the bot's rule or by the player; `None` when the player does not choose in time. */
  function Worth(value: nat, cur: Player, ace: Option<bool>): (r: Option<nat>)
    requires 1 <= value <= 10
    ensures r.Some? ==> 1 <= r.value <= 11
    ensures r.None? <==> value == 1 && !cur.user.bot && ace.None?
  {
    if value != 1 then Some(value)
    else if cur.user.bot then Some(BotAce(Score(cur)))
    else if ace.None? then None
    else Some(if ace.value then 11 else 1)
  }

  /** The hand with the card: its name appended to the cards, its worth added to the score. */
  function AddCard(p: Player, name: string, worth: nat): (r: Player)
    requires p.data.Hand?
    ensures r.user == p.user && r.data.Hand? && Score(r) == Score(p) + worth
  {
    p.(data := Hand(Trim(p.data.cards + " " + name), Score(p) + worth))
  }

  /** The rest of `hit()` once the card is drawn: the card joins the current hand, then the end
      conditions. */
  function DealSpec(st: Table, card: Cards.Card, ace: Option<bool>): (r: (Option<Outcome>, Table))
    requires Seated(st) && card.value.Some? && 1 <= card.value.value <= 10
    ensures Seated(r.1) && r.1.index == st.index && r.1.deck == st.deck && SameSeats(st, r.1)
    ensures Opponent(r.1) == Opponent(st)
  {
    var cur := Current(st);
    var worth := Worth(card.value.value, cur, ace);
    if worth.None? then (Some(Finished(TimeoutEnd(Score(cur)))), st)
    else
      var dealt := AddCard(cur, card.name, worth.value);
      var end := CheckHit(Score(dealt), Score(Opponent(st)));
      (if end.Some? then Some(Finished(end.value)) else None,
       st.(entries := st.entries[st.index := dealt]))
  }

  /** `stand()`: lose to an opponent at 21; otherwise, standing level or ahead locks the next
      player's Stand button (the second component). */
  function StandSpec(st: Table): (Option<Outcome>, bool)
    requires |st.entries| == 2 && st.index < 2
  {
    if Score(Opponent(st)) == 21 then (Some(Finished(OtherWins)), false)
    else (None, Score(Current(st)) >= Score(Opponent(st)))
  }

  /** The move played: its ending, if it ends the game; the table after it; and `noStand`. */
  function MoveSpec(st: Table, move: Move, pick: nat, ace: Option<bool>): (r: (Option<Outcome>, Table, bool))
    requires Dealt(st)
    ensures Dealt(r.1) && r.1.index == st.index && SameSeats(st, r.1)
  {
    match move
    case Surrender => (Some(Finished(GaveUp)), st, false)
    case Stand => (StandSpec(st).0, st, StandSpec(st).1)
    case Hit => (HitSpec(st, pick, ace).0, HitSpec(st, pick, ace).1, false)
  }

  /** The move of one iteration of `main`: the bot's rule, or what the player pressed (`None`
      when the minute ran out). */
  function PlaySpec(st: Table, reply: Option<Move>, pick: nat, ace: Option<bool>): (r: (Option<Outcome>, Table, bool))
    requires Dealt(st)
    ensures Dealt(r.1) && r.1.index == st.index && SameSeats(st, r.1)
  {
    var cur := Current(st);
    var move := if cur.user.bot then Some(BotChoice(Score(cur), Score(Opponent(st)))) else reply;
    if move.None? then (Some(Finished(TimeoutEnd(Score(cur)))), st, false)
    else MoveSpec(st, move.value, pick, ace)
  }

  /** One iteration of `main`: the move, then the turn passes and the next player gets their
      buttons; `noStand` is cleared afterwards. */
  function TurnSpec(st: Table, reply: Option<Move>, pick: nat, ace: Option<bool>): (r: (Outcome, Table))
    requires Dealt(st)
    ensures Dealt(r.1) && SameSeats(st, r.1)
    ensures r.0.Continue? ==> r.1.index == 1 - st.index
    ensures !r.0.Continue? ==> r.1.index == st.index
  {
    var (end, after, noStand) := PlaySpec(st, reply, pick, ace);
    if end.Some? then (end.value, after)
    else
      var next := after.(index := NextIndex(after.index, |after.entries|));
      (Continue(ButtonsFor(next.entries[next.index], noStand)), next)
  }

  /** Dealing a card changes the current player's hand only: the card is appended to the
      cards and its value, between 1 and 11, added to the score; play goes on only at 21 or less. */
  lemma DealEffect(st: Table, card: Cards.Card, ace: Option<bool>)
    requires Seated(st) && card.value.Some? && 1 <= card.value.value <= 10
    ensures var (end, st') := DealSpec(st, card, ace);
      (st'.entries == st.entries ||
       (st'.entries == st.entries[st.index := Current(st')] &&
        Current(st').data.cards == Trim(Current(st).data.cards + " " + card.name) &&
        Score(Current(st)) + 1 <= Score(Current(st')) <= Score(Current(st)) + 11)) &&
      (end.None? ==> Score(Current(st')) <= 21)
  {
    var worth := Worth(card.value.value, Current(st), ace);
    if worth.Some? {
      assert CheckHit(Score(Current(st)) + worth.value, Score(Opponent(st))).None? ==>
        Score(Current(st)) + worth.value <= 21;
    }
  }

  /** A hit takes one card out of the deck into the current hand. */
  lemma HitEffect(st: Table, pick: nat, ace: Option<bool>)
    requires Dealt(st) && st.deck != []
    ensures var (end, st') := HitSpec(st, pick, ace);
      |st'.deck| == |st.deck| - 1 && (forall x :: x in st'.deck ==> x in st.deck) &&
      Opponent(st') == Opponent(st) &&
      (st'.entries == st.entries ||
       exists name :: name in st.deck && name !in st'.deck &&
         Current(st').data.cards == Trim(Current(st).data.cards + " " + name) &&
         Score(Current(st)) + 1 <= Score(Current(st')) <= Score(Current(st)) + 11) &&
      (end.None? ==> Score(Current(st')) <= 21)
  {
    DrawnCard(st.deck, pick);
    var (r, left) := Cards.WithdrawSpec(st.deck, [pick], 10, 10, 10);
    var card := r.value[0];
    assert HitSpec(st, pick, ace) == DealSpec(st.(deck := left), card, ace);
    DealEffect(st.(deck := left), card, ace);
    assert card.name in st.deck && card.name !in left;
  }

  /** Replacing the entry at `i` by one with the same user is `Map.set` on an existing key. */
  lemma PutFacts(s: seq<Player>, i: nat, p: Player)
    requires i < |s| && Distinct(Ids(s)) && p.user == s[i].user
    ensures Put(s, p) == s[i := p]
  {
    PutSpec(s, p);
    assert s[i].user.id == p.user.id;
    assert p.user.id in Ids(s) by { assert Ids(s)[i] == p.user.id; }
    forall m | 0 <= m < |s| ensures Put(s, p)[m] == s[i := p][m] {
      if m != i {
        assert Ids(s)[m] != Ids(s)[i];
      }
    }
  }

  /** A move leaves the opponent alone and never lowers the current score; a move that lets
      play go on leaves the current score at 21 or less unless it left the hands as they were. */
  lemma PlayEffect(st: Table, reply: Option<Move>, pick: nat, ace: Option<bool>)
    requires Dealt(st)
    ensures var (end, t, noStand) := PlaySpec(st, reply, pick, ace);
      Opponent(t) == Opponent(st) && Score(Current(t)) >= Score(Current(st)) &&
      (end.None? ==> t.entries == st.entries || Score(Current(t)) <= 21)
  {
    var cur := Current(st);
    var move := if cur.user.bot then Some(BotChoice(Score(cur), Score(Opponent(st)))) else reply;
    if move == Some(Hit) && st.deck != [] {
      HitEffect(st, pick, ace);
    }
  }

  /** No turn lowers a score; when play goes on, the turn passes to the other player and only
      their clicks are collected. */
  /** A turn's table has the hands the move left; only the cursor moves on. */
  lemma TurnKeepsEntries(st: Table, reply: Option<Move>, pick: nat, ace: Option<bool>)
    requires Dealt(st)
    ensures var t := PlaySpec(st, reply, pick, ace).1;
      TurnSpec(st, reply, pick, ace).1.entries == t.entries &&
      Seated(t) && t.index == st.index &&
      t.entries[st.index] == Current(t) && t.entries[1 - st.index] == Opponent(t)
  {
  }

  lemma TurnPreserves(st: Table, reply: Option<Move>, pick: nat, ace: Option<bool>)
    requires Dealt(st)
    ensures var (out, st') := TurnSpec(st, reply, pick, ace);
      (forall i :: 0 <= i < 2 ==> Score(st'.entries[i]) >= Score(st.entries[i])) &&
      (out.Continue? ==> forall u: User :: Accepts(st', u) <==> u.id == Opponent(st).user.id)
  {
    PlayEffect(st, reply, pick, ace);
    TurnKeepsEntries(st, reply, pick, ace);
  }

  /** Between turns both scores stay within 0 to 21: a hit that passes 21 ends the game. */
  lemma ScoresInPlay(st: Table, reply: Option<Move>, pick: nat, ace: Option<bool>)
    requires Dealt(st)
    requires forall i :: 0 <= i < 2 ==> 0 <= Score(st.entries[i]) <= 21
    ensures var (out, st') := TurnSpec(st, reply, pick, ace);
      out.Continue? ==> forall i :: 0 <= i < 2 ==> 0 <= Score(st'.entries[i]) <= 21
  {
    PlayEffect(st, reply, pick, ace);
    TurnKeepsEntries(st, reply, pick, ace);
  }

  /** Standing level with or ahead of an opponent below 21 hands the turn over with Stand
      locked; standing behind leaves it free for a human opponent. */
  lemma StandLocks(st: Table)
    requires Dealt(st) && !Current(st).user.bot && Score(Opponent(st)) != 21
    ensures var (out, st') := TurnSpec(st, Some(Stand), 0, None);
      st' == st.(index := 1 - st.index) &&
      out == Continue(ButtonsFor(Opponent(st), Score(Current(st)) >= Score(Opponent(st)))) &&
      (out.buttons.standDisabled <==> Opponent(st).user.bot || Score(Current(st)) >= Score(Opponent(st)))
  {
  }

  /** Standing against an opponent at 21 loses. */
  lemma StandAgainst21(st: Table)
    requires Dealt(st) && !Current(st).user.bot && Score(Opponent(st)) == 21
    ensures TurnSpec(st, Some(Stand), 0, None) == (Finished(OtherWins), st)
  {
  }

  /** A player who does not answer in time loses once they hold cards; before that the game is
      cancelled. Nothing changes. */
  lemma TimeoutOutcome(st: Table)
    requires Dealt(st) && !Current(st).user.bot
    ensures TurnSpec(st, None, 0, None) ==
      (Finished(if Score(Current(st)) != 0 then NoResponse else Cancelled), st)
  {
  }

  /** Surrender is offered only before the first card: a nonzero score disables it. */
  lemma SurrenderOnlyFirst(st: Table, reply: Option<Move>, pick: nat, ace: Option<bool>)
    requires Dealt(st)
    ensures var (out, st') := TurnSpec(st, reply, pick, ace);
      out.Continue? ==>
        (out.buttons.surrenderDisabled <==> Current(st').user.bot || Score(Current(st')) != 0) &&
        (out.buttons.hitDisabled <==> Current(st').user.bot)
  {
  }

  /** `getLoseProb`: the chance, in percent, that a hit busts at this score. */
  function LoseProb(score: int): (r: nat)
    ensures r <= 100
    ensures score <= 11 ==> r == 0
    ensures score >= 21 ==> r == 100
  {
    if score <= 11 then 0
    else if score >= 21 then 100
    else if score == 12 then 31
    else if score == 13 then 39
    else if score == 14 then 56
    else if score == 15 then 58
    else if score == 16 then 62
    else if score == 17 then 69
    else if score == 18 then 77
    else if score == 19 then 85
    else 92
  }

  /** The higher the score, the likelier a bust. */
  lemma LoseProbMonotone(a: int, b: int)
    requires a <= b
    ensures LoseProb(a) <= LoseProb(b)
  {
  }

  /** The blackjack-specific state of the game: the roster it shares with `Game`, the deck made
      in the `initialize` callback, and the `noStand` flag. */
  class BlackjackGame {
    const players: PlayerManager
    const cardDeck52: Cards.CardDeck52
    var noStand: bool

    function Snapshot(): Table
      reads players, cardDeck52
    {
      Table(players.entries, players.index, cardDeck52.deck)
    }

    ghost predicate Valid()
      reads this, players, cardDeck52
    {
      players.Valid() && Dealt(Snapshot())
    }

    /** The `initialize` callback: a fresh deck, and every player reset to no cards and score 0. */
    constructor (players: PlayerManager)
      requires players.Valid() && |players.entries| == 2 && players.index < 2
      modifies players
      ensures this.players == players && fresh(cardDeck52) && Valid() && !noStand
      ensures cardDeck52.deck == Cards.FullDeck() && players.index == old(players.index)
      ensures players.entries == Assigned(old(players.entries), Call(_ => Hand("", 0)))
    {
      this.players := players;
      cardDeck52 := new Cards.CardDeck52();
      noStand := false;
      new;
      players.Reset(Call(_ => Hand("", 0)));
      Cards.FullDeckDistinct();
    }

    /** `hit()`. */
    method DoHit(pick: nat, ace: Option<bool>) returns (end: Option<Outcome>)
      requires Valid()
      modifies players, cardDeck52
      ensures Valid()
      ensures (end, Snapshot()) == HitSpec(old(Snapshot()), pick, ace)
    {
      ghost var deck := cardDeck52.deck;
      var r := cardDeck52.Withdraw(1, 10, 10, 10, [pick]);
      Cards.DrawCounts(deck, [pick]);
      if r.Err? {
        return Some(Crashed(r.message));
      }
      DrawnCard(deck, pick);
      end := TakeCard(r.value[0], ace);
    }

    /** The rest of `hit()`, with the card drawn. */
    method TakeCard(card: Cards.Card, ace: Option<bool>) returns (end: Option<Outcome>)
      requires players.Valid() && Seated(Snapshot())
      requires card.value.Some? && 1 <= card.value.value <= 10
      modifies players
      ensures players.Valid() && Seated(Snapshot())
      ensures (end, Snapshot()) == DealSpec(old(Snapshot()), card, ace)
    {
      ghost var st := Snapshot();
      var cur := players.Current().value;
      var other := players.Other().value;
      assert cur == Current(st) && other == Opponent(st);
      var worth := Worth(card.value.value, cur, ace);
      if worth.None? {
        return Some(Finished(TimeoutEnd(Score(cur))));
      }
      var dealt := AddCard(cur, card.name, worth.value);
      PutFacts(st.entries, st.index, dealt);
      players.Set(dealt);
      var check := CheckHit(Score(dealt), Score(other));
      end := if check.Some? then Some(Finished(check.value)) else None;
    }

    /** `stand()`. */
    method DoStand() returns (end: Option<Outcome>)
      requires Valid()
      modifies this`noStand
      ensures Valid()
      ensures end == StandSpec(Snapshot()).0
      ensures noStand == (old(noStand) || StandSpec(Snapshot()).1)
    {
      var cur := players.Current().value;
      var other := players.Other().value;
      if Score(other) == 21 {
        return Some(Finished(OtherWins));
      }
      if Score(cur) >= Score(other) {
        noStand := true;
      }
      end := None;
    }

    /** The move of one iteration of the `main` loop. */
    method Play(reply: Option<Move>, pick: nat, ace: Option<bool>) returns (end: Option<Outcome>)
      requires Valid() && !noStand
      modifies this, players, cardDeck52
      ensures Valid()
      ensures (end, Snapshot(), noStand) == PlaySpec(old(Snapshot()), reply, pick, ace)
    {
      var cur := players.Current().value;
      var other := players.Other().value;
      var choice := if cur.user.bot then Some(BotChoice(Score(cur), Score(other))) else reply;
      if choice.None? {
        return Some(Finished(TimeoutEnd(Score(cur))));
      }
      match choice.value {
        case Surrender =>
          end := Some(Finished(GaveUp));
        case Stand =>
          end := DoStand();
        case Hit =>
          end := DoHit(pick, ace);
      }
    }

    /** One iteration of the `main` loop. */
    method Turn(reply: Option<Move>, pick: nat, ace: Option<bool>) returns (out: Outcome)
      requires Valid() && !noStand
      modifies this, players, cardDeck52
      ensures Valid() && !noStand
      ensures (out, Snapshot()) == TurnSpec(old(Snapshot()), reply, pick, ace)
    {
      var end := Play(reply, pick, ace);
      if end.Some? {
        noStand := false;
        return end.value;
      }
      players.Next();
      out := Continue(ButtonsFor(players.Current().value, noStand));
      noStand := false;
    }
  }
}
