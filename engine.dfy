// The engine object itself: the Jaipur class, whose methods change its fields in
// place the way the rule functions describe. Each method is proved to leave the
// object in the state its rule function computes from the state before the call,
// and to keep the engine's invariant.

module Engine {
  import opened Cards
  import opened Piles
  import opened GameState
  import opened Rules

  class Jaipur {
    var deck: seq<Good>
    var market: seq<Good>
    var discardPile: seq<Good>
    var goodsTokens: map<Good, seq<int>>
    var bonusTokens: map<int, seq<int>>
    var hands: Seats<seq<Good>>
    var herds: Seats<seq<Good>>
    var tokens: Seats<Tokens>
    var camelToken: Option<Player>
    var activePlayer: Player
    var inactivePlayer: Player

    /** The fields as one game-state value. */
    function Snapshot(): State
      reads this
    {
      State(deck, market, discardPile, goodsTokens, bonusTokens, hands, herds, tokens,
            camelToken, activePlayer, inactivePlayer)
    }

    predicate Valid()
      reads this
    {
      GameState.Valid(Snapshot())
    }

    /** An empty board with the full token ladders; player 1 moves first. */
    constructor ()
      ensures Snapshot() == InitialState()
      ensures Valid()
    {
      deck, market, discardPile := [], [], [];
      goodsTokens, bonusTokens := InitialGoodsTokens(), InitialBonusTokens();
      hands, herds := Seats([], []), Seats([], []);
      tokens := Seats(Tokens([], []), Tokens([], []));
      camelToken := None;
      activePlayer, inactivePlayer := Player1, Player2;
    }

    /** initial_setup with its two shuffles taken as inputs: `shuffled` is the deck after the
        full catalog was added to it and shuffled, `bonusOrder` the bonus tiers after each was
        shuffled. Three camels and two drawn cards form the market, each player draws five
        cards, and the camels among them go to the herds. */
    method InitialSetup(shuffled: seq<Good>, bonusOrder: map<int, seq<int>>)
      requires forall g :: multiset(shuffled)[g] == multiset(deck)[g] + CardCount(g)
      requires |shuffled| == |deck| + CatalogSize
      requires bonusOrder.Keys == bonusTokens.Keys
      requires forall k :: k in bonusOrder ==> multiset(bonusOrder[k]) == multiset(bonusTokens[k])
      modifies this
      ensures Snapshot() == SetUp(old(Snapshot()), shuffled, bonusOrder)
      ensures old(Valid()) ==> Valid()
    {
      ghost var s0 := Snapshot();
      deck := shuffled;
      DealOut(bonusOrder);
      SetUpIsDeal(s0.(deck := shuffled), shuffled, bonusOrder);
      SetUpIgnoresDeck(s0, shuffled, bonusOrder);
      if GameState.Valid(s0) {
        SetUpValid(s0, shuffled, bonusOrder);
      }
    }

    /** The dealing part of initial_setup, from the deck as it stands. */
    method DealOut(bonusOrder: map<int, seq<int>>)
      requires |deck| >= MarketDeal + DealSize + DealSize
      modifies this
      ensures Snapshot()
        == Deal(old(Snapshot()), [Camel, Camel, Camel] + Drawn(old(deck), MarketDeal),
                Drawn(old(deck)[..|old(deck)| - MarketDeal], DealSize),
                Drawn(old(deck)[..|old(deck)| - MarketDeal - DealSize], DealSize),
                old(deck)[..|old(deck)| - MarketDeal - DealSize - DealSize], bonusOrder)
    {
      var drawn, dealt1, dealt2 := DrawDeal();
      Lay([Camel, Camel, Camel] + drawn, Seats(WithoutCamels(dealt1), WithoutCamels(dealt2)),
          Seats(OnlyCamels(dealt1), OnlyCamels(dealt2)), bonusOrder);
    }

    /** The draws of initial_setup: two cards for the market, then five for each player. */
    method DrawDeal() returns (drawn: seq<Good>, dealt1: seq<Good>, dealt2: seq<Good>)
      requires |deck| >= MarketDeal + DealSize + DealSize
      modifies this
      ensures drawn == Drawn(old(deck), MarketDeal)
      ensures dealt1 == Drawn(old(deck)[..|old(deck)| - MarketDeal], DealSize)
      ensures dealt2 == Drawn(old(deck)[..|old(deck)| - MarketDeal - DealSize], DealSize)
      ensures Snapshot() == old(Snapshot()).(deck := old(deck)[..|old(deck)| - MarketDeal - DealSize - DealSize])
    {
      ghost var s0 := Snapshot();
      drawn := DrawMany(MarketDeal);
      assert deck == s0.deck[..|s0.deck| - MarketDeal];
      dealt1 := DrawMany(DealSize);
      assert deck == s0.deck[..|s0.deck| - MarketDeal - DealSize];
      dealt2 := DrawMany(DealSize);
      assert deck == s0.deck[..|s0.deck| - MarketDeal - DealSize - DealSize];
    }

    /** The dealt market, hands, herds and shuffled bonus tiers take their places. */
    method Lay(pile: seq<Good>, dealtHands: Seats<seq<Good>>, dealtHerds: Seats<seq<Good>>,
               bonusOrder: map<int, seq<int>>)
      modifies this
      ensures Snapshot() == old(Snapshot()).(market := pile, hands := dealtHands, herds := dealtHerds,
                                             bonusTokens := bonusOrder)
    {
      market, hands, herds, bonusTokens := pile, dealtHands, dealtHerds, bonusOrder;
    }

    /** draw: pop the last card of the deck; an empty deck raises, modelled as `None`. */
    method Draw() returns (card: Option<Good>)
      modifies this
      ensures old(deck) == [] ==> card == None && Snapshot() == old(Snapshot())
      ensures old(deck) != [] ==> card == Some(old(deck)[|old(deck)| - 1])
      ensures old(deck) != [] ==> Snapshot() == old(Snapshot()).(deck := old(deck)[..|old(deck)| - 1])
    {
      if deck == [] {
        card := None;
      } else {
        card := Some(deck[|deck| - 1]);
        deck := deck[..|deck| - 1];
      }
    }

    /** `k` successive draws from a deck that holds at least `k` cards. */
    method DrawMany(k: nat) returns (drawn: seq<Good>)
      requires k <= |deck|
      modifies this
      ensures drawn == Drawn(old(deck), k)
      ensures Snapshot() == old(Snapshot()).(deck := old(deck)[..|old(deck)| - k])
    {
      ghost var s0 := Snapshot();
      drawn := [];
      for i := 0 to k
        invariant drawn == Drawn(s0.deck, i)
        invariant Snapshot() == s0.(deck := s0.deck[..|s0.deck| - i])
      {
        var card := Draw();
        DrawnStep(s0.deck, i);
        assert s0.deck[..|s0.deck| - i][..|s0.deck| - i - 1] == s0.deck[..|s0.deck| - (i + 1)];
        drawn := drawn + [card.value];
      }
    }

    /** replenish_board: draw into the market until it holds five cards; the draw that
        finds the deck empty ends the loop. */
    method ReplenishBoard()
      modifies this
      ensures Snapshot() == Replenish(old(Snapshot()))
    {
      ghost var s0 := Snapshot();
      ghost var k: nat := 0;
      while |market| < MarketSize
        invariant k <= |s0.deck|
        invariant market == s0.market + Drawn(s0.deck, k)
        invariant Snapshot() == s0.(market := market, deck := s0.deck[..|s0.deck| - k])
        invariant |s0.market| < MarketSize ==> |s0.market| + k <= MarketSize
        invariant |s0.market| >= MarketSize ==> k == 0
        decreases MarketSize - |market|
      {
        var card := Draw();
        if card.None? {
          break;
        }
        DrawnStep(s0.deck, k);
        assert s0.deck[..|s0.deck| - k][..|s0.deck| - k - 1] == s0.deck[..|s0.deck| - (k + 1)];
        market := market + [card.value];
        k := k + 1;
      }
    }

    /** camel_token_allocate: the token goes to the strictly larger herd, or to nobody. */
    method CamelTokenAllocate()
      modifies this
      ensures Snapshot() == AllocateCamelToken(old(Snapshot()))
    {
      if |herds.Of(Player1)| > |herds.Of(Player2)| {
        camelToken := Some(Player1);
      } else if |herds.Of(Player2)| > |herds.Of(Player1)| {
        camelToken := Some(Player2);
      } else {
        camelToken := None;
      }
    }

    /** take_camels: every market camel joins the active herd, the market keeps its other
        cards, then the market is topped up. */
    method TakeCamels()
      requires Valid()
      modifies this
      ensures Snapshot() == Rules.TakeCamels(old(Snapshot()))
      ensures Valid()
    {
      ghost var s0 := Snapshot();
      var p := activePlayer;
      herds := herds.With(p, herds.Of(p) + OnlyCamels(market));
      market := WithoutCamels(market);
      ReplenishBoard();
      TakeCamelsValid(s0);
    }

    /** take_card: raises when the card is not in the market; otherwise its first copy
        leaves the market for the herd (a camel) or the hand, and the market is topped up. */
    method TakeCard(c: Good) returns (err: Option<Error>)
      requires Valid()
      modifies this
      ensures var r := Rules.TakeCard(old(Snapshot()), c);
        && (r.Err? ==> err == Some(r.error) && Snapshot() == old(Snapshot()))
        && (r.Ok? ==> err == None && Snapshot() == r.value)
      ensures Valid()
    {
      if c !in market {
        return Some(CardNotInMarket);
      }
      ghost var s0 := Snapshot();
      var p := activePlayer;
      market := RemoveFirst(market, c);
      if c == Camel {
        herds := herds.With(p, herds.Of(p) + [c]);
      } else {
        hands := hands.With(p, hands.Of(p) + [c]);
      }
      assert Snapshot() == Receive(s0, p, c).(market := RemoveFirst(s0.market, c));
      ReplenishBoard();
      TakeCardValid(s0, c);
      err := None;
    }

    /** The new hand and herd of `p` and the new market take their places. */
    method Place(p: Player, hand: seq<Good>, herd: seq<Good>, pile: seq<Good>)
      modifies this
      ensures Snapshot() == WithPiles(old(Snapshot()), p, hand, herd).(market := pile)
    {
      market := pile;
      hands := hands.With(p, hand);
      herds := herds.With(p, herd);
    }

    /** exchange_cards: three checks, then the given cards leave the hand one by one, the
        taken cards join the hand, leave the market one by one and the given cards join the
        market; finally the hand and the herd are regrouped into non-camels and camels. */
    method ExchangeCards(give: seq<Good>, take: seq<Good>) returns (err: Option<Error>)
      requires Valid()
      modifies this
      ensures var r := Rules.ExchangeCards(old(Snapshot()), give, take);
        && (r.Err? ==> err == Some(r.error) && Snapshot() == old(Snapshot()))
        && (r.Ok? ==> err == None && Snapshot() == r.value)
      ensures Valid()
    {
      var p := activePlayer;
      if |give| != |take| {
        return Some(ExchangeSizeMismatch);
      }
      if !(multiset(give) <= multiset(hands.Of(p))) {
        return Some(NotEnoughToGive);
      }
      if !(multiset(take) <= multiset(market)) {
        return Some(NotEnoughInMarket);
      }
      ghost var s0 := Snapshot();
      var hand, herd, pile := Swapped(hands.Of(p), herds.Of(p), market, give, take);
      Place(p, hand, herd, pile);
      ExchangeAccepted(s0, give, take);
      ExchangeValid(s0, give, take);
      err := None;
    }

    /** sell_cards: raises when the hand holds fewer than `n` copies of `card`. Otherwise the
        cards go to the discard pile, the goods tokens are paid and, for three cards or more,
        a bonus token; a count of zero or less runs no loop and changes nothing. */
    method SellCards(card: Good, n: int) returns (err: Option<Error>)
      requires Valid()
      modifies this
      ensures var r := Rules.SellCards(old(Snapshot()), card, n);
        && (r.Err? ==> err == Some(r.error) && Snapshot() == old(Snapshot()))
        && (r.Ok? ==> err == None && Snapshot() == r.value)
      ensures Valid()
    {
      var p := activePlayer;
      if n > multiset(hands.Of(p))[card] {
        return Some(NotEnoughToSell);
      }
      SellValid(Snapshot(), card, n);
      if n > 0 {
        assert card != Camel;
        SellGoods(card, n);
      }
      err := None;
    }

    /** A sale of at least one card that the hand can cover. */
    method SellGoods(card: Good, n: nat)
      requires 0 < n <= multiset(hands.Of(activePlayer))[card]
      requires card != Camel && HasLadders(goodsTokens) && HasTiers(bonusTokens)
      modifies this
      ensures Snapshot() == Rules.SellCards(old(Snapshot()), card, n).value
    {
      PaySale(card, n);
    }

    /** The two loops of a sale, then the bonus token. */
    method PaySale(card: Good, n: nat)
      requires 0 < n <= multiset(hands.Of(activePlayer))[card]
      requires card in goodsTokens && (n >= 3 ==> Min(n, 5) in bonusTokens)
      modifies this
      ensures Snapshot() == PayBonus(PayGoods(old(Snapshot()), card, n), n)
    {
      DiscardSold(card, n);
      PayGoodsTokens(card, n);
      PayBonusToken(n);
    }

    /** apply_move: dispatch on the move's name; a rejected move raises before the turn
        ends, an accepted one is followed by the camel-token reallocation and the swap of the
        active and inactive players. */
    method ApplyMove(m: Move) returns (err: Option<Error>)
      requires Valid()
      modifies this
      ensures var r := Rules.ApplyMove(old(Snapshot()), m);
        && (r.Err? ==> err == Some(r.error) && Snapshot() == old(Snapshot()))
        && (r.Ok? ==> err == None && Snapshot() == r.value)
      ensures Valid()
    {
      err := PerformMove(m);
      if err.Some? {
        return;
      }
      EndTurnValid(Snapshot());
      PassTurn();
    }

    /** The move alone: the method its name selects, or the error of an unknown name. */
    method PerformMove(m: Move) returns (err: Option<Error>)
      requires Valid()
      modifies this
      ensures var r := Rules.Perform(old(Snapshot()), m);
        && (r.Err? ==> err == Some(r.error) && Snapshot() == old(Snapshot()))
        && (r.Ok? ==> err == None && Snapshot() == r.value)
      ensures Valid()
    {
      match m
      case Camels =>
        TakeCamels();
        err := None;
      case Take(c) =>
        err := TakeCard(c);
      case Exchange(give, take) =>
        err := ExchangeCards(give, take);
      case Sell(card, n) =>
        err := SellCards(card, n);
      case Unrecognised =>
        err := Some(InvalidOption);
    }

    /** The end of an accepted move: camel_token_allocate, then the players swap roles. */
    method PassTurn()
      modifies this
      ensures Snapshot() == EndTurn(old(Snapshot()))
    {
      CamelTokenAllocate();
      activePlayer, inactivePlayer := inactivePlayer, activePlayer;
    }

    /** The first loop of a sale: `n` times, one copy of `card` leaves the active hand for the
        discard pile. */
    method DiscardSold(card: Good, n: nat)
      requires n <= multiset(hands.Of(activePlayer))[card]
      modifies this
      ensures Snapshot() == Discard(old(Snapshot()), old(activePlayer), card, n)
    {
      var p := activePlayer;
      var hand, pile := SellOff(hands.Of(p), discardPile, card, n);
      PlaceSold(p, hand, pile);
    }

    /** The hand of `p` and the discard pile after a sale take their places. */
    method PlaceSold(p: Player, hand: seq<Good>, pile: seq<Good>)
      modifies this
      ensures Snapshot() == old(Snapshot()).(hands := old(hands).With(p, hand), discardPile := pile)
    {
      hands := hands.With(p, hand);
      discardPile := pile;
    }

    /** The second loop of a sale: `n` times, the front token of the card's ladder, while
        there is one, joins the active player's goods tokens. */
    method PayGoodsTokens(card: Good, n: nat)
      requires card in goodsTokens
      modifies this
      ensures Snapshot() == PayLadder(old(Snapshot()), old(activePlayer), card, n)
    {
      var p := activePlayer;
      var earned := tokens.Of(p);
      var ladder, goods := PayOut(goodsTokens[card], earned.goods, n);
      goodsTokens := goodsTokens[card := ladder];
      tokens := tokens.With(p, earned.(goods := goods));
    }

    /** The bonus of a sale of three or more: the last token of tier min(n, 5), when that
        tier is not empty, joins the active player's bonus tokens. */
    method PayBonusToken(n: int)
      requires n >= 3 ==> Min(n, 5) in bonusTokens
      modifies this
      ensures Snapshot() == PayBonus(old(Snapshot()), n)
    {
      if n >= 3 {
        var p := activePlayer;
        var tier := Min(n, 5);
        var bonus := bonusTokens[tier];
        if bonus != [] {
          var earned := tokens.Of(p);
          bonusTokens := bonusTokens[tier := bonus[..|bonus| - 1]];
          tokens := tokens.With(p, earned.(bonus := earned.bonus + [bonus[|bonus| - 1]]));
        }
      }
    }
  }

  /** The list `pile` after `pile.remove(card)` for each card of `cards` in turn. */
  method RemoveAll(pile: seq<Good>, cards: seq<Good>) returns (rest: seq<Good>)
    requires multiset(cards) <= multiset(pile)
    ensures rest == RemoveEach(pile, cards)
  {
    rest := pile;
    for i := 0 to |cards|
      invariant multiset(cards[..i]) <= multiset(pile)
      invariant rest == RemoveEach(pile, cards[..i])
    {
      RemoveStep(pile, cards, i);
      rest := RemoveFirst(rest, cards[i]);
    }
    assert cards[..|cards|] == cards;
  }

  /** The piles after an exchange: each given card removed from the hand, the taken cards
      appended to it, each taken card removed from the market and the given cards appended
      to it; then hand and herd merged and split into non-camels and camels. */
  method Swapped(hand: seq<Good>, herd: seq<Good>, market: seq<Good>, give: seq<Good>, take: seq<Good>)
    returns (newHand: seq<Good>, newHerd: seq<Good>, newMarket: seq<Good>)
    requires multiset(give) <= multiset(hand) && multiset(take) <= multiset(market)
    ensures var combined := RemoveEach(hand, give) + take + herd;
      newHand == WithoutCamels(combined) && newHerd == OnlyCamels(combined)
    ensures newMarket == RemoveEach(market, take) + give
  {
    var kept := RemoveAll(hand, give);
    kept := kept + take;
    var rest := RemoveAll(market, take);
    newMarket := rest + give;
    var combined := kept + herd;
    newHand := WithoutCamels(combined);
    newHerd := OnlyCamels(combined);
  }

  /** `n` times: `hand.remove(card)`, then `pile.append(card)`. */
  method SellOff(hand: seq<Good>, pile: seq<Good>, card: Good, n: nat) returns (kept: seq<Good>, discarded: seq<Good>)
    requires n <= multiset(hand)[card]
    ensures kept == RemoveCopies(hand, card, n)
    ensures discarded == pile + Repeat(card, n)
  {
    discarded := pile;
    for i := 0 to n
      invariant discarded == pile + Repeat(card, i)
    {
      AppendCopy(pile, card, i);
      discarded := discarded + [card];
    }
    CopiesAreEach(hand, card, n);
    kept := RemoveAll(hand, Repeat(card, n));
  }

  /** Removing `n` copies is removing each card of `[card] * n`. */
  lemma CopiesAreEach(hand: seq<Good>, card: Good, n: nat)
    requires n <= multiset(hand)[card]
    ensures multiset(Repeat(card, n)) <= multiset(hand)
    ensures RemoveCopies(hand, card, n) == RemoveEach(hand, Repeat(card, n))
  {
    RepeatMultiset(card, n);
  }

  lemma AppendCopy(pile: seq<Good>, card: Good, i: nat)
    ensures pile + Repeat(card, i + 1) == pile + Repeat(card, i) + [card]
  {
  }

  /** `n` times: pop the front token of `ladder`, if any, and append it to `goods`. */
  method PayOut(ladder: seq<int>, goods: seq<int>, n: nat) returns (left: seq<int>, earned: seq<int>)
    ensures var paid := Min(n, |ladder|);
      left == ladder[paid..] && earned == goods + ladder[..paid]
  {
    left, earned := ladder, goods;
    for i := 0 to n
      invariant var paid := Min(i, |ladder|);
        left == ladder[paid..] && earned == goods + ladder[..paid]
    {
      if left != [] {
        var token := left[0];
        left := left[1..];
        earned := earned + [token];
      }
    }
  }
}
