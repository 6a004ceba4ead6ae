// The four moves a player can make on their turn, as pure functions on the
// game state, and the dispatcher that applies a move and passes the turn.
// Every check happens before the first change, so a rejected move leaves the
// state as it was: an `Err` result carries the reason and no new state.

module Rules {
  import opened Cards
  import opened Piles
  import opened GameState

  /** A move, as the tuples the engine passes around: ('Camels', _, _), ('Take', card, _),
      ('Exchange', give, take), ('Sell', card, count), or a tag the engine does not know. */
  datatype Move =
    | Camels
    | Take(card: Good)
    | Exchange(give: seq<Good>, take: seq<Good>)
    | Sell(good: Good, count: int)
    | Unrecognised

  /** The jewels: the move enumerator only offers them two at a time or more. */
  predicate IsJewel(g: Good)
  {
    g == Diamond || g == Gold || g == Silver
  }

  /** take_camels: every market camel joins the active herd, the rest of the market stays
      in order, and the market is topped up from the deck. */
  function TakeCamels(s: State): (r: State)
  {
    var p := s.activePlayer;
    var taken := WithPiles(s, p, Hand(s, p), Herd(s, p) + OnlyCamels(s.market));
    Replenish(taken.(market := WithoutCamels(s.market)))
  }

  /** take_card: the first copy of `c` leaves the market; a camel joins the herd, any other
      card the hand; the market is topped up. The hand limit is not checked. */
  function TakeCard(s: State, c: Good): (r: Result<State>)
    ensures r.Err? <==> c !in s.market
    ensures r.Err? ==> r.error == CardNotInMarket
  {
    if c !in s.market then Err(CardNotInMarket)
    else
      Ok(Replenish(Receive(s, s.activePlayer, c).(market := RemoveFirst(s.market, c))))
  }

  /** Player `p` receives card `c`: a camel joins the end of the herd, any other card the
      end of the hand. */
  function Receive(s: State, p: Player, c: Good): (r: State)
    ensures c == Camel ==> Herd(r, p) == Herd(s, p) + [c] && Hand(r, p) == Hand(s, p)
    ensures c != Camel ==> Hand(r, p) == Hand(s, p) + [c] && Herd(r, p) == Herd(s, p)
    ensures HeldCards(r, p) == HeldCards(s, p) + multiset{c}
    ensures Hand(r, Opponent(p)) == Hand(s, Opponent(p)) && Herd(r, Opponent(p)) == Herd(s, Opponent(p))
    ensures r == s.(hands := r.hands, herds := r.herds)
  {
    var r :=
      if c == Camel then WithPiles(s, p, Hand(s, p), Herd(s, p) + [c])
      else WithPiles(s, p, Hand(s, p) + [c], Herd(s, p));
    HeldGrows(s, r, p, [c]);
    r
  }

  /** exchange_cards: checks, in this order, that both sides have the same size, that the
      hand holds every card given and that the market holds every card taken. The given
      cards leave the hand and join the end of the market, the taken cards leave the market
      and join the end of the hand, and any camel taken moves to the herd. No replenish. */
  function ExchangeCards(s: State, give: seq<Good>, take: seq<Good>): (r: Result<State>)
    ensures |give| != |take| ==> r == Err(ExchangeSizeMismatch)
    ensures (|give| == |take| && !(multiset(give) <= multiset(Hand(s, s.activePlayer))))
      ==> r == Err(NotEnoughToGive)
    ensures (|give| == |take| && multiset(give) <= multiset(Hand(s, s.activePlayer))
             && !(multiset(take) <= multiset(s.market))) ==> r == Err(NotEnoughInMarket)
    ensures r.Ok? <==> (|give| == |take| && multiset(give) <= multiset(Hand(s, s.activePlayer))
                        && multiset(take) <= multiset(s.market))
  {
    var p := s.activePlayer;
    if |give| != |take| then Err(ExchangeSizeMismatch)
    else if !(multiset(give) <= multiset(Hand(s, p))) then Err(NotEnoughToGive)
    else if !(multiset(take) <= multiset(s.market)) then Err(NotEnoughInMarket)
    else
      var combined := RemoveEach(Hand(s, p), give) + take + Herd(s, p);
      Ok(WithPiles(s, p, WithoutCamels(combined), OnlyCamels(combined))
           .(market := RemoveEach(s.market, take) + give))
  }

  /** sell_cards: raises when the hand holds fewer than `n` copies of `card`; a count of zero
      or less sells nothing. Otherwise the goods part of the sale is followed by its bonus
      part. The jewel minimum is not checked. */
  function SellCards(s: State, card: Good, n: int): (r: Result<State>)
    ensures r.Err? <==> n > multiset(Hand(s, s.activePlayer))[card]
    ensures r.Err? ==> r.error == NotEnoughToSell
    ensures n <= 0 ==> r == Ok(s)
  {
    if n > multiset(Hand(s, s.activePlayer))[card] then Err(NotEnoughToSell)
    else if n <= 0 then Ok(s)
    else Ok(PayBonus(PayGoods(s, card, n), n))
  }

  /** The goods part of a sale of `n` copies of `card`: they go from the hand to the discard
      pile, then the seller is paid from the card's ladder. */
  function PayGoods(s: State, card: Good, n: nat): (r: State)
    requires n <= multiset(Hand(s, s.activePlayer))[card]
  {
    PayLadder(Discard(s, s.activePlayer, card, n), s.activePlayer, card, n)
  }

  /** Player `p` puts `n` copies of `card` from the hand on the discard pile. */
  function Discard(s: State, p: Player, card: Good, n: nat): (r: State)
    requires n <= multiset(Hand(s, p))[card]
    ensures multiset(Hand(r, p)) + multiset(Repeat(card, n)) == multiset(Hand(s, p))
    ensures multiset(Hand(r, p))[card] == multiset(Hand(s, p))[card] - n
    ensures forall g :: g != card ==> multiset(Hand(r, p))[g] == multiset(Hand(s, p))[g]
    ensures |Hand(r, p)| == |Hand(s, p)| - n
    ensures r.discardPile == s.discardPile + Repeat(card, n)
    ensures Hand(r, Opponent(p)) == Hand(s, Opponent(p))
    ensures r == s.(hands := r.hands, discardPile := r.discardPile)
  {
    s.(hands := s.hands.With(p, RemoveCopies(Hand(s, p), card, n)), discardPile := s.discardPile + Repeat(card, n))
  }

  /** Player `p` is paid the front min(n, remaining) tokens of the ladder of `card`. */
  function PayLadder(s: State, p: Player, card: Good, n: nat): (r: State)
    ensures var ladder := Ladder(s, card);
      && Earned(r, p).goods == Earned(s, p).goods + ladder[..Min(n, |ladder|)]
      && Ladder(r, card) == ladder[Min(n, |ladder|)..]
    ensures Earned(r, p).bonus == Earned(s, p).bonus
    ensures forall g :: g != card ==> Ladder(r, g) == Ladder(s, g)
    ensures Earned(r, Opponent(p)) == Earned(s, Opponent(p))
    ensures r == s.(goodsTokens := r.goodsTokens, tokens := r.tokens)
  {
    var ladder := Ladder(s, card);
    var paid := Min(n, |ladder|);
    var earned := Earned(s, p);
    s.(goodsTokens := s.goodsTokens[card := ladder[paid..]],
       tokens := s.tokens.With(p, earned.(goods := earned.goods + ladder[..paid])))
  }

  /** The bonus part of a sale of `n` cards: pop the last token of tier min(n, 5), if any. */
  function PayBonus(s: State, n: int): (r: State)
    ensures var p, tier := s.activePlayer, Min(n, 5);
      var bonus := Tier(s, tier);
      && (n >= 3 && bonus != [] ==>
            && Earned(r, p).bonus == Earned(s, p).bonus + [bonus[|bonus| - 1]]
            && Tier(r, tier) == bonus[..|bonus| - 1])
      && (n < 3 || bonus == [] ==> r == s)
    ensures Earned(r, s.activePlayer).goods == Earned(s, s.activePlayer).goods
    ensures Earned(r, Opponent(s.activePlayer)) == Earned(s, Opponent(s.activePlayer))
    ensures r == s.(bonusTokens := r.bonusTokens, tokens := r.tokens)
  {
    var p := s.activePlayer;
    var tier := Min(n, 5);
    var bonus := Tier(s, tier);
    if n < 3 || bonus == [] then s
    else
      var earned := Earned(s, p);
      s.(bonusTokens := s.bonusTokens[tier := bonus[..|bonus| - 1]],
         tokens := s.tokens.With(p, earned.(bonus := earned.bonus + [bonus[|bonus| - 1]])))
  }

  /** The move alone, before the turn passes. */
  function Perform(s: State, m: Move): (r: Result<State>)
    ensures m == Unrecognised <==> r == Err(InvalidOption)
  {
    match m
    case Camels => Ok(TakeCamels(s))
    case Take(c) => TakeCard(s, c)
    case Exchange(give, take) => ExchangeCards(s, give, take)
    case Sell(card, n) => SellCards(s, card, n)
    case Unrecognised => Err(InvalidOption)
  }

  /** After a move: reallocate the camel token, then swap the active and inactive players. */
  function EndTurn(s: State): (r: State)
    ensures r.activePlayer == s.inactivePlayer && r.inactivePlayer == s.activePlayer
    ensures r.camelToken == CamelHolder(s)
    ensures r.(camelToken := s.camelToken, activePlayer := s.activePlayer, inactivePlayer := s.inactivePlayer) == s
  {
    var t := AllocateCamelToken(s);
    t.(activePlayer := t.inactivePlayer, inactivePlayer := t.activePlayer)
  }

  /** apply_move: perform the move; when it succeeds, end the turn. A rejected move is
      reported as it is and passes no turn. */
  function ApplyMove(s: State, m: Move): (r: Result<State>)
    ensures r.Err? <==> Perform(s, m).Err?
    ensures r.Err? ==> r == Perform(s, m)
    ensures m == Unrecognised ==> r == Err(InvalidOption)
  {
    var performed := Perform(s, m);
    if performed.Err? then performed else Ok(EndTurn(performed.value))
  }

  // ----- the invariant -----

  lemma TakeCamelsValid(s: State)
    requires Valid(s)
    ensures Valid(TakeCamels(s))
  {
    var p := s.activePlayer;
    OnlyCamelsAreCamels(s.market);
    AllCamelsJoin(Herd(s, p), OnlyCamels(s.market));
    WithPilesValid(s, p, Hand(s, p), Herd(s, p) + OnlyCamels(s.market));
  }

  lemma TakeCardValid(s: State, c: Good)
    requires Valid(s)
    ensures TakeCard(s, c).Ok? ==> Valid(TakeCard(s, c).value)
  {
    var p := s.activePlayer;
    if c == Camel {
      AllCamelsJoin(Herd(s, p), [c]);
    } else {
      assert multiset(Hand(s, p) + [c]) == multiset(Hand(s, p)) + multiset{c};
    }
    assert Valid(Receive(s, p, c));
  }

  lemma ExchangeValid(s: State, give: seq<Good>, take: seq<Good>)
    requires Valid(s)
    ensures ExchangeCards(s, give, take).Ok? ==> Valid(ExchangeCards(s, give, take).value)
  {
    var p := s.activePlayer;
    if ExchangeCards(s, give, take).Ok? {
      var combined := RemoveEach(Hand(s, p), give) + take + Herd(s, p);
      OnlyCamelsAreCamels(combined);
      WithPilesValid(s, p, WithoutCamels(combined), OnlyCamels(combined));
    }
  }

  lemma SellValid(s: State, card: Good, n: int)
    requires Valid(s)
    ensures SellCards(s, card, n).Ok? ==> Valid(SellCards(s, card, n).value)
  {
    if SellCards(s, card, n).Ok? && n > 0 {
      var p, r := s.activePlayer, SellCards(s, card, n).value;
      SellDiscards(s, card, n);
      SellFrame(s, card, n);
      SellLeavesOpponent(s, card, n);
      SellKeepsKeys(s, card, n);
      assert multiset(Hand(r, p))[Camel] <= multiset(Hand(s, p))[Camel];
    }
  }

  lemma EndTurnValid(s: State)
    requires Valid(s)
    ensures Valid(EndTurn(s))
  {
  }

  lemma PerformValid(s: State, m: Move)
    requires Valid(s)
    ensures Perform(s, m).Ok? ==> Valid(Perform(s, m).value)
  {
    match m
    case Camels => TakeCamelsValid(s);
    case Take(c) => TakeCardValid(s, c);
    case Exchange(give, take) => ExchangeValid(s, give, take);
    case Sell(card, n) => SellValid(s, card, n);
    case Unrecognised =>
  }

  /** After every accepted move the market is full again unless the deck has run out, as it
      was before the move: the takes top it up, an exchange keeps its size, and a sale and
      the end of the turn leave market and deck alone. */
  lemma MarketRefilled(s: State, m: Move)
    requires ApplyMove(s, m).Ok? && (|s.market| >= MarketSize || s.deck == [])
    ensures var r := ApplyMove(s, m).value; |r.market| >= MarketSize || r.deck == []
  {
    match m
    case Camels =>
    case Take(c) =>
    case Exchange(give, take) => ExchangeMarket(s, give, take);
    case Sell(card, n) => SellFrame(s, card, n);
  }

  /** Every accepted move keeps the engine's invariant. */
  lemma ApplyMoveValid(s: State, m: Move)
    requires Valid(s)
    ensures ApplyMove(s, m).Ok? ==> Valid(ApplyMove(s, m).value)
  {
    PerformValid(s, m);
    var performed := Perform(s, m);
    if performed.Ok? {
      EndTurnValid(performed.value);
      assert ApplyMove(s, m) == Ok(EndTurn(performed.value));
    }
  }

  // ----- take_camels -----

  /** Every market camel joins the end of the active herd, the other market cards keep their
      order at the front of the new market with no camel among them, the market is topped
      up from the end of the deck until it is full or the deck is empty, and the hand, the
      opponent, the discard pile and every token stay as they were. */
  lemma TakeCamelsEffect(s: State)
    ensures var p, r, kept := s.activePlayer, TakeCamels(s), WithoutCamels(s.market);
      && Herd(r, p) == Herd(s, p) + OnlyCamels(s.market)
      && |Herd(r, p)| == |Herd(s, p)| + multiset(s.market)[Camel]
      && Hand(r, p) == Hand(s, p)
      && |kept| <= |r.market| && r.market[..|kept|] == kept && Camel !in kept
      && (var added := |r.market| - |kept|;
          && added <= |s.deck|
          && r.market == kept + Drawn(s.deck, added)
          && r.deck == s.deck[..|s.deck| - added])
      && (|r.market| >= MarketSize || r.deck == [])
      && Hand(r, Opponent(p)) == Hand(s, Opponent(p)) && Herd(r, Opponent(p)) == Herd(s, Opponent(p))
      && r.discardPile == s.discardPile && r.tokens == s.tokens
      && r.goodsTokens == s.goodsTokens && r.bonusTokens == s.bonusTokens
  {
    TakeCamelsTopUp(s);
  }

  /** After the camels leave, the market is the other market cards in order followed by the
      deck's last cards in pop order, which leave the deck, until the market is full or the
      deck is empty. */
  lemma TakeCamelsTopUp(s: State)
    ensures var r, kept := TakeCamels(s), WithoutCamels(s.market);
      && |kept| <= |r.market| && r.market[..|kept|] == kept
      && (var added := |r.market| - |kept|;
          && added <= |s.deck|
          && r.market == kept + Drawn(s.deck, added)
          && r.deck == s.deck[..|s.deck| - added])
      && (|r.market| >= MarketSize || r.deck == [])
  {
    var p, kept := s.activePlayer, WithoutCamels(s.market);
    var taken := WithPiles(s, p, Hand(s, p), Herd(s, p) + OnlyCamels(s.market)).(market := kept);
    assert TakeCamels(s) == Replenish(taken);
    ReplenishFront(taken, kept, s.deck);
  }

  /** Topping up a market that holds `kept`, from `deck`, leaves `kept` at the front and
      appends the deck's last cards in pop order, until the market is full or the deck empty. */
  lemma ReplenishFront(t: State, kept: seq<Good>, deck: seq<Good>)
    requires t.market == kept && t.deck == deck
    ensures var r := Replenish(t);
      && |kept| <= |r.market| && r.market[..|kept|] == kept
      && (var added := |r.market| - |kept|;
          && added <= |deck|
          && r.market == kept + Drawn(deck, added)
          && r.deck == deck[..|deck| - added])
      && (|r.market| >= MarketSize || r.deck == [])
  {
    var r := Replenish(t);
    assert r.market[..|kept|] == kept;
  }

  /** Taking the camels keeps every card of the game. */
  lemma TakeCamelsKeepsCards(s: State)
    ensures AllCards(TakeCamels(s)) == AllCards(s)
  {
    var p, m := s.activePlayer, s.market;
    var taken := WithPiles(s, p, Hand(s, p), Herd(s, p) + OnlyCamels(m)).(market := WithoutCamels(m));
    ReplenishKeepsTable(taken);
    CamelSplit(m);
    HeldGrows(s, taken, p, OnlyCamels(m));
    TableShrinks(s, taken, multiset(OnlyCamels(m)));
    TakenKeepsCards(s, taken, multiset(OnlyCamels(m)));
  }

  /** The active player took `moved` off the table; topping up the market afterwards
      keeps every card of the game. */
  lemma TakenKeepsCards(s: State, taken: State, moved: multiset<Good>)
    requires HeldCards(taken, s.activePlayer) == HeldCards(s, s.activePlayer) + moved
    requires TableCards(taken) + moved == TableCards(s)
    requires HeldCards(taken, Opponent(s.activePlayer)) == HeldCards(s, Opponent(s.activePlayer))
    ensures AllCards(Replenish(taken)) == AllCards(s)
  {
    ReplenishKeepsTable(taken);
    Transfer(s, Replenish(taken), s.activePlayer, moved, multiset{});
  }

  // ----- take_card -----

  /** Taking a card present in the market removes its first copy from the cards that were
      in the market, which keep their order; the market is then topped up from the end of
      the deck until it is full or the deck is empty. A camel is appended to the active
      herd, any other card to the active hand, and the other pile, the opponent, the discard
      pile and the tokens stay. */
  lemma TakeCardEffect(s: State, c: Good)
    requires c in s.market
    ensures var p, r := s.activePlayer, TakeCard(s, c).value;
      && |s.market| - 1 <= |r.market|
      && multiset(r.market[..|s.market| - 1]) == multiset(s.market) - multiset{c}
      && (var kept := RemoveFirst(s.market, c); var added := |r.market| - |kept|;
          && added <= |s.deck|
          && r.market == kept + Drawn(s.deck, added)
          && r.deck == s.deck[..|s.deck| - added])
      && (|r.market| >= MarketSize || r.deck == [])
      && (c == Camel ==> Herd(r, p) == Herd(s, p) + [c] && Hand(r, p) == Hand(s, p))
      && (c != Camel ==> Hand(r, p) == Hand(s, p) + [c] && Herd(r, p) == Herd(s, p))
      && Hand(r, Opponent(p)) == Hand(s, Opponent(p)) && Herd(r, Opponent(p)) == Herd(s, Opponent(p))
      && r.discardPile == s.discardPile && r.tokens == s.tokens
      && r.goodsTokens == s.goodsTokens && r.bonusTokens == s.bonusTokens && r.camelToken == s.camelToken
  {
    var r := TakeCard(s, c).value;
    var market := RemoveFirst(s.market, c);
    assert r.market[..|market|] == market;
  }

  /** Taking a card keeps every card of the game. */
  lemma TakeCardKeepsCards(s: State, c: Good)
    requires c in s.market
    ensures AllCards(TakeCard(s, c).value) == AllCards(s)
  {
    var taken := Receive(s, s.activePlayer, c).(market := RemoveFirst(s.market, c));
    TableShrinks(s, taken, multiset{c});
    TakenKeepsCards(s, taken, multiset{c});
  }

  // ----- exchange_cards -----

  /** An accepted exchange swaps the two multisets between the market and the active player:
      the market keeps its length, its cards other than `take` stay in order at its front,
      and `give` is appended at its end. */
  lemma ExchangeMarket(s: State, give: seq<Good>, take: seq<Good>)
    requires ExchangeCards(s, give, take).Ok?
    ensures var r := ExchangeCards(s, give, take).value;
      && |r.market| == |s.market|
      && multiset(r.market) == multiset(s.market) - multiset(take) + multiset(give)
      && r.market[..|s.market| - |take|] == RemoveEach(s.market, take)
      && r.market[|s.market| - |take|..] == give
      && r.deck == s.deck && r.discardPile == s.discardPile && r.tokens == s.tokens
      && r.goodsTokens == s.goodsTokens && r.bonusTokens == s.bonusTokens
  {
  }

  /** An accepted exchange leaves the active player holding their cards less `give` plus
      `take`: the hand is the old hand less `give`, in order, followed by the non-camels
      taken, the herd grows by the camels taken, and the opponent's cards do not move. */
  lemma ExchangeHeld(s: State, give: seq<Good>, take: seq<Good>)
    requires Valid(s)
    requires ExchangeCards(s, give, take).Ok?
    ensures var p, r := s.activePlayer, ExchangeCards(s, give, take).value;
      && HeldCards(r, p) == HeldCards(s, p) - multiset(give) + multiset(take)
      && multiset(Hand(r, p)) == (multiset(Hand(s, p)) - multiset(give) + multiset(take))[Camel := 0]
      && |Herd(r, p)| == |Herd(s, p)| + multiset(take)[Camel]
      && Hand(r, p) == RemoveEach(Hand(s, p), give) + WithoutCamels(take)
      && Hand(r, Opponent(p)) == Hand(s, Opponent(p)) && Herd(r, Opponent(p)) == Herd(s, Opponent(p))
  {
    var p := s.activePlayer;
    RegroupHand(Hand(s, p), Herd(s, p), give, take);
    RegroupedHandOrder(Hand(s, p), Herd(s, p), give, take);
  }

  /** Regrouping after an exchange keeps the hand's remaining cards in order and appends the
      non-camels taken: the old hand holds no camel and the herd nothing else. */
  lemma RegroupedHandOrder(hand: seq<Good>, herd: seq<Good>, give: seq<Good>, take: seq<Good>)
    requires multiset(give) <= multiset(hand)
    requires NoCamels(hand) && AllCamels(herd)
    ensures WithoutCamels(RemoveEach(hand, give) + take + herd) == RemoveEach(hand, give) + WithoutCamels(take)
  {
    var kept := RemoveEach(hand, give);
    assert multiset(kept)[Camel] == 0;
    WithoutCamelsOfGoods(kept);
    WithoutCamelsOfCamels(herd);
    WithoutCamelsConcat(kept + take, herd);
    WithoutCamelsConcat(kept, take);
    assert WithoutCamels(herd) == [];
  }

  /** The hand after an exchange, merged with the herd and split again into non-camels
      and camels. */
  lemma RegroupHand(hand: seq<Good>, herd: seq<Good>, give: seq<Good>, take: seq<Good>)
    requires multiset(give) <= multiset(hand)
    requires NoCamels(hand) && AllCamels(herd)
    ensures var combined := RemoveEach(hand, give) + take + herd;
      && multiset(WithoutCamels(combined)) + multiset(OnlyCamels(combined))
         == multiset(hand) + multiset(herd) - multiset(give) + multiset(take)
      && multiset(WithoutCamels(combined)) == (multiset(hand) - multiset(give) + multiset(take))[Camel := 0]
      && |OnlyCamels(combined)| == |herd| + multiset(take)[Camel]
  {
    var kept := RemoveEach(hand, give);
    var combined := kept + take + herd;
    CombinedCount(kept, take, herd);
    CamelSplit(combined);
    RegroupedTotal(multiset(hand), multiset(herd), multiset(give), multiset(take), multiset(kept));
    RegroupedGoods(hand, herd, give, take, kept);
    RepeatMultiset(Camel, multiset(combined)[Camel]);
  }

  lemma CombinedCount(kept: seq<Good>, take: seq<Good>, herd: seq<Good>)
    ensures multiset(kept + take + herd) == multiset(kept) + multiset(take) + multiset(herd)
  {
  }

  lemma RegroupedTotal(hand: multiset<Good>, herd: multiset<Good>, give: multiset<Good>,
                       take: multiset<Good>, kept: multiset<Good>)
    requires give <= hand && kept == hand - give
    ensures kept + take + herd == hand + herd - give + take
  {
    forall g ensures (kept + take + herd)[g] == (hand + herd - give + take)[g] {
    }
  }

  lemma RegroupedGoods(hand: seq<Good>, herd: seq<Good>, give: seq<Good>, take: seq<Good>, kept: seq<Good>)
    requires multiset(give) <= multiset(hand) && multiset(kept) == multiset(hand) - multiset(give)
    requires AllCamels(herd)
    ensures (multiset(kept) + multiset(take) + multiset(herd))[Camel := 0]
      == (multiset(hand) - multiset(give) + multiset(take))[Camel := 0]
  {
    var a := (multiset(kept) + multiset(take) + multiset(herd))[Camel := 0];
    var b := (multiset(hand) - multiset(give) + multiset(take))[Camel := 0];
    forall g ensures a[g] == b[g] {
      if g != Camel {
        OnlyCamelsIn(herd, g);
      }
    }
  }

  /** An accepted exchange keeps every card of the game. */
  lemma ExchangeKeepsCards(s: State, give: seq<Good>, take: seq<Good>)
    requires Valid(s)
    requires ExchangeCards(s, give, take).Ok?
    ensures AllCards(ExchangeCards(s, give, take).value) == AllCards(s)
  {
    var p, r := s.activePlayer, ExchangeCards(s, give, take).value;
    ExchangeMarket(s, give, take);
    ExchangeHeld(s, give, take);
    Swap(s, r, p, multiset(take), multiset(give));
  }

  /** The state an accepted exchange leads to. */
  lemma ExchangeAccepted(s: State, give: seq<Good>, take: seq<Good>)
    requires |give| == |take| && multiset(give) <= multiset(Hand(s, s.activePlayer))
    requires multiset(take) <= multiset(s.market)
    ensures var p := s.activePlayer;
      var combined := RemoveEach(Hand(s, p), give) + take + Herd(s, p);
      ExchangeCards(s, give, take)
      == Ok(WithPiles(s, p, WithoutCamels(combined), OnlyCamels(combined)).(market := RemoveEach(s.market, take) + give))
  {
  }

  /** The give side is checked against the hand only, so an exchange of the right size that
      gives a camel (which can only come from the herd) is refused. */
  lemma ExchangeRefusesCamel(s: State, give: seq<Good>, take: seq<Good>)
    requires Valid(s)
    requires |give| == |take| && Camel in give
    ensures ExchangeCards(s, give, take) == Err(NotEnoughToGive)
  {
    assert multiset(give)[Camel] > 0;
  }

  // ----- sell_cards -----

  /** A sale of `n` > 0 copies takes exactly `n` copies of the card out of the hand and puts
      them at the end of the discard pile. */
  lemma SellDiscards(s: State, card: Good, n: int)
    requires n > 0 && SellCards(s, card, n).Ok?
    ensures var p, r := s.activePlayer, SellCards(s, card, n).value;
      && Hand(r, p) == RemoveCopies(Hand(s, p), card, n)
      && multiset(Hand(r, p)) + multiset(Repeat(card, n)) == multiset(Hand(s, p))
      && |Hand(r, p)| == |Hand(s, p)| - n
      && r.discardPile == s.discardPile + Repeat(card, n)
  {
  }

  /** A sale of `n` > 0 copies pays the seller the front min(n, remaining) tokens of the
      card's ladder, in order, and leaves the rest of that ladder; fewer than `n` tokens are
      paid only when the ladder runs out. */
  lemma SellPaysGoods(s: State, card: Good, n: int)
    requires n > 0 && SellCards(s, card, n).Ok?
    ensures var p, r, ladder := s.activePlayer, SellCards(s, card, n).value, Ladder(s, card);
      var paid := Min(n, |ladder|);
      && Earned(r, p).goods == Earned(s, p).goods + ladder[..paid]
      && Ladder(r, card) == ladder[paid..]
      && (paid == n || Ladder(r, card) == [])
  {
  }

  /** A sale touches no other ladder, and neither the herd, the market nor the deck. */
  lemma SellFrame(s: State, card: Good, n: int)
    requires SellCards(s, card, n).Ok?
    ensures var p, r := s.activePlayer, SellCards(s, card, n).value;
      && (forall g :: g != card ==> Ladder(r, g) == Ladder(s, g))
      && r.herds == s.herds && r.market == s.market && r.deck == s.deck
  {
    if n > 0 {
      var p := s.activePlayer;
      var g := PayLadder(Discard(s, p, card, n), p, card, n);
      assert SellCards(s, card, n).value == PayBonus(g, n);
    }
  }

  /** A sale leaves the opponent's hand, herd and tokens alone. */
  lemma SellLeavesOpponent(s: State, card: Good, n: int)
    requires SellCards(s, card, n).Ok?
    ensures var o, r := Opponent(s.activePlayer), SellCards(s, card, n).value;
      Hand(r, o) == Hand(s, o) && Earned(r, o) == Earned(s, o)
  {
    if n > 0 {
      var p := s.activePlayer;
      var g := PayLadder(Discard(s, p, card, n), p, card, n);
      assert SellCards(s, card, n).value == PayBonus(g, n);
    }
  }

  /** A sale of three or more cards pays the last token of tier min(n, 5) to the seller's
      bonus tokens, when that tier still has one, and leaves every other tier; otherwise no
      bonus token moves. */
  lemma SellBonus(s: State, card: Good, n: int)
    requires SellCards(s, card, n).Ok?
    ensures var p, r, tier := s.activePlayer, SellCards(s, card, n).value, Min(n, 5);
      var bonus := Tier(s, tier);
      && (n >= 3 && bonus != [] ==>
            && Earned(r, p).bonus == Earned(s, p).bonus + [bonus[|bonus| - 1]]
            && Tier(r, tier) == bonus[..|bonus| - 1]
            && (forall t :: t != tier && t in s.bonusTokens ==> t in r.bonusTokens && r.bonusTokens[t] == s.bonusTokens[t]))
      && (n < 3 || bonus == [] ==> Earned(r, p).bonus == Earned(s, p).bonus && r.bonusTokens == s.bonusTokens)
  {
    if n > 0 {
      var p := s.activePlayer;
      var g := PayLadder(Discard(s, p, card, n), p, card, n);
      assert g.activePlayer == p && g.bonusTokens == s.bonusTokens;
      assert Earned(g, p).bonus == Earned(s, p).bonus;
      assert SellCards(s, card, n).value == PayBonus(g, n);
      BonusAfterGoods(s, g, n);
    }
  }

  /** The bonus pop after the goods part of a sale sees the seller's bonus tokens and the
      tiers as they were before the sale. */
  lemma BonusAfterGoods(s: State, g: State, n: int)
    requires g.activePlayer == s.activePlayer && g.bonusTokens == s.bonusTokens
    requires Earned(g, s.activePlayer).bonus == Earned(s, s.activePlayer).bonus
    ensures var p, r, tier := s.activePlayer, PayBonus(g, n), Min(n, 5);
      var bonus := Tier(s, tier);
      && (n >= 3 && bonus != [] ==>
            && Earned(r, p).bonus == Earned(s, p).bonus + [bonus[|bonus| - 1]]
            && Tier(r, tier) == bonus[..|bonus| - 1]
            && (forall t :: t != tier && t in s.bonusTokens ==> t in r.bonusTokens && r.bonusTokens[t] == s.bonusTokens[t]))
      && (n < 3 || bonus == [] ==> Earned(r, p).bonus == Earned(s, p).bonus && r.bonusTokens == s.bonusTokens)
  {
    assert Tier(g, Min(n, 5)) == Tier(s, Min(n, 5));
  }

  /** A sale keeps the ladders and tiers in their maps, the turn with the seller and the
      camel token where it was. */
  lemma SellKeepsKeys(s: State, card: Good, n: int)
    requires SellCards(s, card, n).Ok?
    ensures var r := SellCards(s, card, n).value;
      && (HasLadders(s.goodsTokens) ==> HasLadders(r.goodsTokens))
      && (HasTiers(s.bonusTokens) ==> HasTiers(r.bonusTokens))
      && r.activePlayer == s.activePlayer && r.inactivePlayer == s.inactivePlayer
      && r.camelToken == s.camelToken
  {
    if n > 0 {
      var p := s.activePlayer;
      var g := PayLadder(Discard(s, p, card, n), p, card, n);
      assert SellCards(s, card, n).value == PayBonus(g, n);
    }
  }

  /** A sale keeps every card of the game: the cards sold lie on the discard pile. */
  lemma SellKeepsCards(s: State, card: Good, n: int)
    requires SellCards(s, card, n).Ok?
    ensures AllCards(SellCards(s, card, n).value) == AllCards(s)
  {
    if n > 0 {
      var p, r := s.activePlayer, SellCards(s, card, n).value;
      SellDiscards(s, card, n);
      SellFrame(s, card, n);
      DiscardKeepsCards(s, r, p, multiset(Repeat(card, n)));
    }
  }
  // ----- apply_move -----

  /** A move performs its change for the active player and does not pass the turn itself. */
  lemma PerformKeepsTurn(s: State, m: Move)
    requires Perform(s, m).Ok?
    ensures Perform(s, m).value.activePlayer == s.activePlayer
    ensures Perform(s, m).value.inactivePlayer == s.inactivePlayer
  {
    match m
    case Camels =>
    case Take(c) =>
    case Exchange(give, take) =>
    case Sell(card, n) => SellKeepsKeys(s, card, n);
  }

  /** An accepted move passes the turn to the opponent, and the camel token then sits with
      the player whose herd was strictly larger after the move, if any. */
  lemma ApplyMovePassesTurn(s: State, m: Move)
    requires Valid(s)
    requires ApplyMove(s, m).Ok?
    ensures var r := ApplyMove(s, m).value;
      && r.activePlayer == Opponent(s.activePlayer) && r.inactivePlayer == s.activePlayer
      && r.camelToken == CamelHolder(Perform(s, m).value)
  {
    PerformKeepsTurn(s, m);
  }

  /** A move keeps every card of the game. */
  lemma {:induction false} PerformKeepsCards(s: State, m: Move)
    requires Valid(s)
    requires Perform(s, m).Ok?
    ensures AllCards(Perform(s, m).value) == AllCards(s)
  {
    match m
    case Camels => TakeCamelsKeepsCards(s);
    case Take(c) => TakeCardKeepsCards(s, c);
    case Exchange(give, take) => ExchangeKeepsCards(s, give, take);
    case Sell(card, n) => SellKeepsCards(s, card, n);
  }

  /** No accepted move creates or destroys a card: the deck, the discard pile, the market
      and both players' hands and herds hold the same cards between them as before. */
  lemma ApplyMoveKeepsCards(s: State, m: Move)
    requires Valid(s)
    requires ApplyMove(s, m).Ok?
    ensures AllCards(ApplyMove(s, m).value) == AllCards(s)
  {
    var t := Perform(s, m).value;
    PerformKeepsCards(s, m);
    EndTurnKeepsCards(t);
  }

  /** Passing the turn moves no card. */
  lemma EndTurnKeepsCards(s: State)
    ensures AllCards(EndTurn(s)) == AllCards(s)
  {
    var r := EndTurn(s);
    assert r.hands == s.hands && r.herds == s.herds;
  }
}
