/**
 * `CardDeck52` of src/bot/lib/games/game.js: a 52-card deck from which `withdraw` removes
 * randomly chosen cards, valuing J, Q and K as the caller asks. The random index of every
 * draw is supplied by the caller.
 */
module Cards {
  import opened Wrappers
  import opened Strings
  import Util

  /** Clubs, diamonds, hearts, spades, in the order the deck lists them. */
  const Suits: seq<char> := ['\U{2663}', '\U{2666}', '\U{2665}', '\U{2660}']

  /** The rank with 0-based position r: "1" to "10", then "J", "Q", "K". */
  function RankName(r: nat): string
    requires r < 13
  {
    if r < 10 then NatToString(r + 1) else if r == 10 then "J" else if r == 11 then "Q" else "K"
  }

  function CardName(i: nat): string
    requires i < 52
  {
    RankName(i % 13) + [Suits[i / 13]]
  }

  /** The deck the constructor builds, suit by suit. */
  function FullDeck(): (d: seq<string>)
    ensures |d| == 52
  {
    seq(52, i requires 0 <= i < 52 => CardName(i))
  }

  /** `withdraw`'s valuation: `replace(name, ['J', j], ['Q', q], ['K', k])` (every value given, each
      replacing its first occurrence) and then `parseInt(…, 10)`; `None` is NaN. */
  function CardValue(name: string, j: nat, q: nat, k: nat): Option<nat> {
    ParseInt(ReplaceFirst(ReplaceFirst(ReplaceFirst(name, "J", NatToString(j)), "Q", NatToString(q)), "K", NatToString(k)))
  }

  /** The value a rank should have: its number, or j, q, k for the faces. */
  function RankValue(r: nat, j: nat, q: nat, k: nat): nat
    requires r < 13
  {
    if r < 10 then r + 1 else if r == 10 then j else if r == 11 then q else k
  }

  datatype Card = Card(name: string, value: Option<nat>)

  /** Every card of the deck is valued by its rank: numbers as printed, faces as j, q, k. */
  lemma CardValueOfDeck(i: nat, j: nat, q: nat, k: nat)
    requires i < 52
    ensures CardValue(FullDeck()[i], j, q, k) == Some(RankValue(i % 13, j, q, k))
  {
    var r, suit := i % 13, Suits[i / 13];
    var name := FullDeck()[i];
    var js, qs, ks := NatToString(j), NatToString(q), NatToString(k);
    assert name == RankName(r) + [suit];
    if r < 10 {
      var d := NatToString(r + 1);
      assert 'J' !in name && 'Q' !in name && 'K' !in name;
      ReplaceAbsentChar(name, 'J', js);
      ReplaceAbsentChar(name, 'Q', qs);
      ReplaceAbsentChar(name, 'K', ks);
      ParseNatToString(r + 1, [suit]);
    } else if r == 10 {
      ReplaceLeadingChar('J', [suit], js);
      var t := js + [suit];
      assert 'Q' !in t && 'K' !in t;
      ReplaceAbsentChar(t, 'Q', qs);
      ReplaceAbsentChar(t, 'K', ks);
      ParseNatToString(j, [suit]);
    } else if r == 11 {
      ReplaceAbsentChar(name, 'J', js);
      ReplaceLeadingChar('Q', [suit], qs);
      var t := qs + [suit];
      assert 'K' !in t;
      ReplaceAbsentChar(t, 'K', ks);
      ParseNatToString(q, [suit]);
    } else {
      assert 'J' !in name && 'Q' !in name;
      ReplaceAbsentChar(name, 'J', js);
      ReplaceAbsentChar(name, 'Q', qs);
      ReplaceLeadingChar('K', [suit], ks);
      ParseNatToString(k, [suit]);
    }
  }

  predicate Distinct<T(==)>(s: seq<T>) {
    forall a, b :: 0 <= a < b < |s| ==> s[a] != s[b]
  }

  /** The fresh deck holds 52 different cards: the suit tells the blocks apart and the value
      with faces 11, 12, 13 tells the ranks apart. */
  lemma FullDeckDistinct()
    ensures Distinct(FullDeck())
  {
    forall a, b | 0 <= a < b < 52 ensures FullDeck()[a] != FullDeck()[b] {
      DistinctCards(a, b);
    }
  }

  lemma DistinctCards(a: nat, b: nat)
    requires a < b < 52
    ensures FullDeck()[a] != FullDeck()[b]
  {
    if a / 13 == b / 13 {
      SameBlock(a, b);
      RanksApart(a % 13, b % 13);
      CardValueOfDeck(a, 11, 12, 13);
      CardValueOfDeck(b, 11, 12, 13);
    } else {
      LastIsSuit(a);
      LastIsSuit(b);
    }
  }

  lemma SameBlock(a: nat, b: nat)
    requires a < b && a / 13 == b / 13
    ensures a % 13 != b % 13
  {
  }

  /** With faces valued 11, 12 and 13, different ranks have different values. */
  lemma RanksApart(r: nat, t: nat)
    requires r < 13 && t < 13 && r != t
    ensures RankValue(r, 11, 12, 13) != RankValue(t, 11, 12, 13)
  {
  }

  /** A card's name ends in its suit. */
  lemma LastIsSuit(i: nat)
    requires i < 52
    ensures FullDeck()[i] != [] && FullDeck()[i][|FullDeck()[i]| - 1] == Suits[i / 13]
  {
    assert FullDeck()[i] == RankName(i % 13) + [Suits[i / 13]];
  }

  /** The names of the cards drawn with the random indices `picks` (each draw splices one card
      out of the deck) and the deck left behind; `None` when a draw met an empty deck. */
  function Draw(deck: seq<string>, picks: seq<nat>): (Option<seq<string>>, seq<string>)
    decreases |picks|
  {
    if picks == [] then (Some([]), deck)
    else
      var (chosen, rest) := Util.Splice(deck, if deck == [] then 0 else picks[0] % |deck|);
      match chosen
      case None => (None, rest)
      case Some(name) =>
        var (more, left) := Draw(rest, picks[1..]);
        (if more.Some? then Some([name] + more.value) else None, left)
  }

  /** The drawn names with `withdraw`'s valuation. */
  function Valued(names: seq<string>, j: nat, q: nat, k: nat): (r: seq<Card>)
    ensures |r| == |names|
  {
    seq(|names|, i requires 0 <= i < |names| => Card(names[i], CardValue(names[i], j, q, k)))
  }

  const NoCard := "Cannot read properties of undefined (reading 'replace')"

  /** `withdraw(count, j, q, k)`: the cards, or the TypeError `replace` throws when it is handed
      the `undefined` an empty deck yields; and the deck left behind either way. */
  function WithdrawSpec(deck: seq<string>, picks: seq<nat>, j: nat, q: nat, k: nat): (Result<seq<Card>>, seq<string>) {
    var (drawn, left) := Draw(deck, picks);
    (if drawn.Some? then Ok(Valued(drawn.value, j, q, k)) else Err(TypeError, NoCard), left)
  }

  /** The draws succeed iff the deck holds enough cards; they then give one name per index, and
      the deck left behind together with the drawn names is the deck before. */
  lemma {:induction false} DrawCounts(deck: seq<string>, picks: seq<nat>)
    ensures Draw(deck, picks).0.Some? <==> |picks| <= |deck|
    ensures Draw(deck, picks).0.Some? ==>
      |Draw(deck, picks).0.value| == |picks| &&
      |Draw(deck, picks).1| == |deck| - |picks| &&
      multiset(Draw(deck, picks).1) + multiset(Draw(deck, picks).0.value) == multiset(deck)
    decreases |picks|
  {
    if picks != [] && deck != [] {
      var i := picks[0] % |deck|;
      var rest := deck[..i] + deck[i + 1..];
      assert deck == deck[..i] + [deck[i]] + deck[i + 1..];
      assert multiset(rest) + multiset{deck[i]} == multiset(deck);
      DrawCounts(rest, picks[1..]);
    }
  }

  /** Drawing from a deck of distinct cards: every drawn card came from the deck and is no longer
      in it, and the deck left behind holds nothing new. */
  lemma {:induction false} DrawRemoves(deck: seq<string>, picks: seq<nat>)
    requires Distinct(deck)
    ensures forall x :: x in Draw(deck, picks).1 ==> x in deck
    ensures Draw(deck, picks).0.Some? ==>
      forall x :: x in Draw(deck, picks).0.value ==> x in deck && x !in Draw(deck, picks).1
    decreases |picks|
  {
    if picks != [] && deck != [] {
      var i := picks[0] % |deck|;
      var rest := deck[..i] + deck[i + 1..];
      assert deck[i] !in rest by {
        forall m | 0 <= m < |rest| ensures rest[m] != deck[i] {
          if m < i { assert rest[m] == deck[m]; } else { assert rest[m] == deck[m + 1]; }
        }
      }
      assert forall x :: x in rest ==> x in deck;
      assert Distinct(rest) by {
        forall a, b | 0 <= a < b < |rest| ensures rest[a] != rest[b] {
          var a', b' := if a < i then a else a + 1, if b < i then b else b + 1;
          assert rest[a] == deck[a'] && rest[b] == deck[b'];
        }
      }
      DrawRemoves(rest, picks[1..]);
    }
  }

  /** A card of the fresh deck valued by its rank, faces as j, q and k. */
  predicate RankValued(c: Card, j: nat, q: nat, k: nat) {
    exists i :: 0 <= i < 52 && c.name == FullDeck()[i] && c.value == Some(RankValue(i % 13, j, q, k))
  }

  /** `withdraw` on the fresh deck: it succeeds iff at most 52 cards are asked for; every card
      comes out of the deck once and is valued by its rank. */
  lemma WithdrawFresh(picks: seq<nat>, j: nat, q: nat, k: nat)
    ensures WithdrawSpec(FullDeck(), picks, j, q, k).0.Ok? <==> |picks| <= 52
    ensures var (r, left) := WithdrawSpec(FullDeck(), picks, j, q, k);
      r.Ok? ==> (|r.value| == |picks| && |left| == 52 - |picks| &&
        forall c :: c in r.value ==> c.name !in left && RankValued(c, j, q, k))
  {
    FullDeckDistinct();
    DrawCounts(FullDeck(), picks);
    DrawRemoves(FullDeck(), picks);
    var (drawn, left) := Draw(FullDeck(), picks);
    if drawn.Some? {
      var cards := Valued(drawn.value, j, q, k);
      forall c | c in cards ensures c.name !in left && RankValued(c, j, q, k) {
        var m :| 0 <= m < |cards| && cards[m] == c;
        FreshCardValued(drawn.value[m], j, q, k);
      }
    }
  }

  lemma FreshCardValued(name: string, j: nat, q: nat, k: nat)
    requires name in FullDeck()
    ensures RankValued(Card(name, CardValue(name, j, q, k)), j, q, k)
  {
    var i :| 0 <= i < 52 && FullDeck()[i] == name;
    CardValueOfDeck(i, j, q, k);
  }

  class CardDeck52 {
    var deck: seq<string>

    constructor ()
      ensures deck == FullDeck()
    {
      deck := FullDeck();
    }

    /** `withdraw(count, j, q, k)`; `picks[n]` is the random index of the n-th draw, taken modulo
        the size of the deck at that point. A failed draw leaves the earlier draws removed. */
    method Withdraw(count: nat, j: nat, q: nat, k: nat, picks: seq<nat>) returns (r: Result<seq<Card>>)
      requires |picks| == count
      modifies this
      ensures (r, deck) == WithdrawSpec(old(deck), picks, j, q, k)
    {
      var drawn: seq<string> := [];
      var cards: seq<Card> := [];
      var n := 0;
      assert picks[0..] == picks;
      AfterNothing(Draw(deck, picks));
      while n < count
        invariant 0 <= n <= count
        invariant cards == Valued(drawn, j, q, k)
        invariant Draw(old(deck), picks) == After(drawn, Draw(deck, picks[n..]))
      {
        DrawStep(deck, picks[n..]);
        assert picks[n..][0] == picks[n] && picks[n..][1..] == picks[n + 1..];
        var index := if deck == [] then 0 else picks[n] % |deck|;
        var (chosen, rest) := Util.Splice(deck, index);
        if chosen.None? {
          deck := rest;
          return Err(TypeError, NoCard);
        }
        var name := chosen.value;
        AfterStep(drawn, name, Draw(rest, picks[n + 1..]));
        ValuedStep(drawn, name, j, q, k);
        deck := rest;
        drawn := drawn + [name];
        cards := cards + [Card(name, CardValue(name, j, q, k))];
        n := n + 1;
      }
      assert picks[count..] == [];
      AfterLast(drawn, deck);
      r := Ok(cards);
    }
  }

  /** The names drawn so far put in front of the outcome of the remaining draws. */
  function After(drawn: seq<string>, later: (Option<seq<string>>, seq<string>)): (Option<seq<string>>, seq<string>) {
    (if later.0.Some? then Some(drawn + later.0.value) else None, later.1)
  }

  lemma AfterNothing(later: (Option<seq<string>>, seq<string>))
    ensures After([], later) == later
  {
    if later.0.Some? { assert [] + later.0.value == later.0.value; }
  }

  lemma AfterLast(drawn: seq<string>, deck: seq<string>)
    ensures After(drawn, Draw(deck, [])) == (Some(drawn), deck)
  {
    assert drawn + [] == drawn;
  }

  lemma AfterStep(drawn: seq<string>, name: string, later: (Option<seq<string>>, seq<string>))
    ensures After(drawn, (if later.0.Some? then Some([name] + later.0.value) else None, later.1)) ==
      After(drawn + [name], later)
  {
    if later.0.Some? { assert drawn + ([name] + later.0.value) == drawn + [name] + later.0.value; }
  }

  lemma DrawStep(deck: seq<string>, picks: seq<nat>)
    requires picks != []
    ensures deck == [] ==> Draw(deck, picks) == (None, [])
    ensures deck != [] ==>
      var i := picks[0] % |deck|;
      var (more, left) := Draw(deck[..i] + deck[i + 1..], picks[1..]);
      Draw(deck, picks) == (if more.Some? then Some([deck[i]] + more.value) else None, left)
  {
  }

  lemma ValuedStep(drawn: seq<string>, name: string, j: nat, q: nat, k: nat)
    ensures Valued(drawn + [name], j, q, k) == Valued(drawn, j, q, k) + [Card(name, CardValue(name, j, q, k))]
  {
  }
}
