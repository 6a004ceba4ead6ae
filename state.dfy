// The value view of a Jaipur game: every container the engine object owns,
// the invariant the engine keeps over them, and the state changes that are
// shared by several rules (camel-token allocation, market replenishment) or
// that start a match (initial setup).

module GameState {
  import opened Cards
  import opened Piles

  datatype Option<T> = None | Some(value: T)

  /** The two seats; the engine keys its per-player dictionaries by the names of players 1 and 2. */
  datatype Player = Player1 | Player2

  function Opponent(p: Player): (q: Player)
    ensures q != p
  {
    if p == Player1 then Player2 else Player1
  }

  /** One value per seat: the engine's dictionaries keyed by the two player names. */
  datatype Seats<T> = Seats(first: T, second: T)
  {
    function Of(p: Player): T
    {
      if p == Player1 then first else second
    }

    /** The value of seat `p` replaced, the other seat's kept. */
    function With(p: Player, v: T): (r: Seats<T>)
      ensures r.Of(p) == v && r.Of(Opponent(p)) == Of(Opponent(p))
    {
      if p == Player1 then Seats(v, second) else Seats(first, v)
    }
  }

  /** A player's token lists: visible goods tokens and hidden bonus tokens. */
  datatype Tokens = Tokens(goods: seq<int>, bonus: seq<int>)

  datatype State = State(
    deck: seq<Good>,                  // drawn from the end
    market: seq<Good>,
    discardPile: seq<Good>,
    goodsTokens: map<Good, seq<int>>, // one ladder per goods type, paid out from the front
    bonusTokens: map<int, seq<int>>,  // tiers 3, 4 and 5, paid out from the end
    hands: Seats<seq<Good>>,
    herds: Seats<seq<Good>>,
    tokens: Seats<Tokens>,
    camelToken: Option<Player>,
    activePlayer: Player,
    inactivePlayer: Player)

  /** The conditions under which the engine raises an exception. */
  datatype Error =
    | CardNotInMarket       // take_card: the card asked for is not in the market
    | ExchangeSizeMismatch  // exchange_cards: the two sides differ in size
    | NotEnoughToGive       // exchange_cards: the hand lacks a card to give
    | NotEnoughInMarket     // exchange_cards: the market lacks a card to take
    | NotEnoughToSell       // sell_cards: the hand holds fewer copies than the count
    | InvalidOption         // apply_move: the move tag is unknown

  datatype Result<T> = Ok(value: T) | Err(error: Error)

  // Lookups into the per-player seats and the per-good and per-tier maps. The invariant
  // below keeps every ladder and every tier present, so the empty fallback of `Ladder`
  // and `Tier` is never observed.

  function Hand(s: State, p: Player): seq<Good>
  {
    s.hands.Of(p)
  }

  function Herd(s: State, p: Player): seq<Good>
  {
    s.herds.Of(p)
  }

  function Earned(s: State, p: Player): Tokens
  {
    s.tokens.Of(p)
  }

  /** The player a query is about: the one named, or the active player when none is. */
  function Subject(s: State, who: Option<Player>): Player
  {
    if who.None? then s.activePlayer else who.value
  }

  function Ladder(s: State, g: Good): seq<int>
  {
    if g in s.goodsTokens then s.goodsTokens[g] else []
  }

  function Tier(s: State, n: int): seq<int>
  {
    if n in s.bonusTokens then s.bonusTokens[n] else []
  }

  /** The engine's invariant: every dictionary has its keys, the two pointers name
      different players, camels live only in herds and herds hold only camels. */
  predicate Valid(s: State)
  {
    && HasLadders(s.goodsTokens)
    && HasTiers(s.bonusTokens)
    && s.inactivePlayer == Opponent(s.activePlayer)
    && NoCamels(Hand(s, Player1)) && NoCamels(Hand(s, Player2))
    && AllCamels(Herd(s, Player1)) && AllCamels(Herd(s, Player2))
  }

  /** A ladder for each of the six goods. */
  predicate HasLadders(ladders: map<Good, seq<int>>)
  {
    && Diamond in ladders && Gold in ladders && Silver in ladders
    && Cloth in ladders && Spice in ladders && Leather in ladders
  }

  /** The bonus tiers for sales of three, four and five cards. */
  predicate HasTiers(tiers: map<int, seq<int>>)
  {
    3 in tiers && 4 in tiers && 5 in tiers
  }

  /** Every card of the pile is a camel. */
  predicate AllCamels(pile: seq<Good>)
  {
    multiset(pile)[Camel] == |pile|
  }

  /** A pile with no camel in it. */
  predicate NoCamels(pile: seq<Good>)
  {
    multiset(pile)[Camel] == 0
  }

  /** A camel-only pile holds no copy of any other card. */
  lemma {:induction false} OnlyCamelsIn(pile: seq<Good>, g: Good)
    requires AllCamels(pile) && g != Camel
    ensures multiset(pile)[g] == 0
  {
    if pile != [] {
      var init, last := pile[..|pile| - 1], pile[|pile| - 1];
      assert pile == init + [last];
      assert multiset(init)[Camel] <= |init| by { CountBound(init, Camel); }
      assert last == Camel;
      OnlyCamelsIn(init, g);
    }
  }

  /** No card occurs more often than the pile is long. */
  lemma {:induction false} CountBound(pile: seq<Good>, g: Good)
    ensures multiset(pile)[g] <= |pile|
  {
    if pile != [] {
      var init := pile[..|pile| - 1];
      assert pile == init + [pile[|pile| - 1]];
      CountBound(init, g);
    }
  }

  /** Joining two camel-only piles gives a camel-only pile. */
  lemma AllCamelsJoin(a: seq<Good>, b: seq<Good>)
    requires AllCamels(a) && AllCamels(b)
    ensures AllCamels(a + b)
  {
    assert multiset(a + b) == multiset(a) + multiset(b);
  }

  lemma OnlyCamelsAreCamels(pile: seq<Good>)
    ensures AllCamels(OnlyCamels(pile))
  {
    RepeatMultiset(Camel, multiset(pile)[Camel]);
  }

  /** Player `p`'s hand and herd replaced; everything else, the opponent included, kept. */
  function WithPiles(s: State, p: Player, hand: seq<Good>, herd: seq<Good>): (r: State)
    ensures Hand(r, p) == hand && Herd(r, p) == herd
    ensures Hand(r, Opponent(p)) == Hand(s, Opponent(p)) && Herd(r, Opponent(p)) == Herd(s, Opponent(p))
  {
    s.(hands := s.hands.With(p, hand), herds := s.herds.With(p, herd))
  }

  /** Replacing a player's piles keeps the invariant when the hand has no camel and the
      herd nothing else. */
  lemma WithPilesValid(s: State, p: Player, hand: seq<Good>, herd: seq<Good>)
    requires Valid(s)
    requires NoCamels(hand) && AllCamels(herd)
    ensures Valid(WithPiles(s, p, hand, herd))
  {
  }

  /** The state the constructor builds, before the initial setup. */
  function InitialState(): (s: State)
    ensures Valid(s)
    ensures s.deck == [] && s.market == [] && s.discardPile == []
    ensures Hand(s, Player1) == [] && Hand(s, Player2) == []
    ensures Herd(s, Player1) == [] && Herd(s, Player2) == []
  {
    State([], [], [], InitialGoodsTokens(), InitialBonusTokens(),
          Seats([], []), Seats([], []), Seats(Tokens([], []), Tokens([], [])),
          None, Player1, Player2)
  }

  /** Every card of the game, wherever it lies. */
  function AllCards(s: State): multiset<Good>
  {
    TableCards(s) + HeldCards(s, Player1) + HeldCards(s, Player2)
  }

  /** The cards on the table: market, deck and discard pile. */
  function TableCards(s: State): multiset<Good>
  {
    multiset(s.market) + multiset(s.deck) + multiset(s.discardPile)
  }

  /** The cards a player holds: hand and herd. */
  function HeldCards(s: State, p: Player): multiset<Good>
  {
    multiset(Hand(s, p)) + multiset(Herd(s, p))
  }

  /** A move that trades cards only between the table and player `p` keeps every card:
      `toPlayer` leaves the table for `p`, `toTable` leaves `p` for the table, and the
      opponent's cards are untouched. */
  lemma Transfer(s: State, r: State, p: Player, toPlayer: multiset<Good>, toTable: multiset<Good>)
    requires TableCards(r) + toPlayer == TableCards(s) + toTable
    requires HeldCards(r, p) + toTable == HeldCards(s, p) + toPlayer
    requires HeldCards(r, Opponent(p)) == HeldCards(s, Opponent(p))
    ensures AllCards(r) == AllCards(s)
  {
    var q := Opponent(p);
    Balance(TableCards(s), TableCards(r), HeldCards(s, p), HeldCards(r, p), HeldCards(s, q), HeldCards(r, q),
            toPlayer, toTable);
  }

  /** Three piles where `toPlayer` went from the first to the second, `toTable` back, and the
      third stayed: their total is the same, in either order of the last two. */
  lemma Balance(t: multiset<Good>, t2: multiset<Good>, a: multiset<Good>, a2: multiset<Good>,
                b: multiset<Good>, b2: multiset<Good>, toPlayer: multiset<Good>, toTable: multiset<Good>)
    requires t2 + toPlayer == t + toTable
    requires a2 + toTable == a + toPlayer
    requires b2 == b
    ensures t2 + a2 + b2 == t + a + b
    ensures t2 + b2 + a2 == t + b + a
  {
    forall g ensures (t2 + a2 + b2)[g] == (t + a + b)[g] {
      assert (t2 + toPlayer)[g] == (t + toTable)[g];
      assert (a2 + toTable)[g] == (a + toPlayer)[g];
    }
    assert t2 + b2 + a2 == t2 + a2 + b2;
    assert t + b + a == t + a + b;
  }

  /** Player `p` swapped `toTable`, taken from the hand, for `toPlayer`, taken from the
      market; the rest of the table and the opponent are untouched. No card is lost. */
  lemma Swap(s: State, r: State, p: Player, toPlayer: multiset<Good>, toTable: multiset<Good>)
    requires toPlayer <= multiset(s.market) && toTable <= multiset(Hand(s, p))
    requires multiset(r.market) == multiset(s.market) - toPlayer + toTable
    requires r.deck == s.deck && r.discardPile == s.discardPile
    requires HeldCards(r, p) == HeldCards(s, p) - toTable + toPlayer
    requires HeldCards(r, Opponent(p)) == HeldCards(s, Opponent(p))
    ensures AllCards(r) == AllCards(s)
  {
    TableSwap(s, r, toPlayer, toTable);
    Rebalance(HeldCards(s, p), HeldCards(r, p), toTable, toPlayer);
    Transfer(s, r, p, toPlayer, toTable);
  }

  /** The market gave up `toPlayer` and received `toTable`; deck and discard pile kept. */
  lemma TableSwap(s: State, r: State, toPlayer: multiset<Good>, toTable: multiset<Good>)
    requires toPlayer <= multiset(s.market)
    requires multiset(r.market) == multiset(s.market) - toPlayer + toTable
    requires r.deck == s.deck && r.discardPile == s.discardPile
    ensures TableCards(r) + toPlayer == TableCards(s) + toTable
  {
    forall g ensures (TableCards(r) + toPlayer)[g] == (TableCards(s) + toTable)[g] {
      assert multiset(r.market)[g] == multiset(s.market)[g] - toPlayer[g] + toTable[g];
    }
  }

  /** Taking `removed` from `x` and adding `added` gives `x2`: the balance is the same
      before and after. */
  lemma Rebalance(x: multiset<Good>, x2: multiset<Good>, removed: multiset<Good>, added: multiset<Good>)
    requires removed <= x && x2 == x - removed + added
    ensures x2 + removed == x + added
  {
    forall g ensures (x2 + removed)[g] == (x + added)[g] {
    }
  }

  /** Player `p` discarded `sold` from the hand; nothing else moved. No card is lost. */
  lemma DiscardKeepsCards(s: State, r: State, p: Player, sold: multiset<Good>)
    requires multiset(Hand(r, p)) + sold == multiset(Hand(s, p)) && Herd(r, p) == Herd(s, p)
    requires multiset(r.discardPile) == multiset(s.discardPile) + sold
    requires r.market == s.market && r.deck == s.deck
    requires HeldCards(r, Opponent(p)) == HeldCards(s, Opponent(p))
    ensures AllCards(r) == AllCards(s)
  {
    DiscardTable(s.market, s.deck, s.discardPile, r.discardPile, sold);
    DiscardHeld(Hand(s, p), Hand(r, p), Herd(s, p), sold);
    Transfer(s, r, p, multiset{}, sold);
  }

  lemma DiscardTable(market: seq<Good>, deck: seq<Good>, pile: seq<Good>, pile2: seq<Good>, sold: multiset<Good>)
    requires multiset(pile2) == multiset(pile) + sold
    ensures multiset(market) + multiset(deck) + multiset(pile2) + multiset{}
      == multiset(market) + multiset(deck) + multiset(pile) + sold
  {
  }

  lemma DiscardHeld(hand: seq<Good>, hand2: seq<Good>, herd: seq<Good>, sold: multiset<Good>)
    requires multiset(hand2) + sold == multiset(hand)
    ensures multiset(hand2) + multiset(herd) + sold == multiset(hand) + multiset(herd) + multiset{}
  {
    forall g ensures (multiset(hand2) + multiset(herd) + sold)[g] == (multiset(hand) + multiset(herd) + multiset{})[g] {
      assert (multiset(hand2) + sold)[g] == multiset(hand)[g];
    }
  }

  /** Player `p` gained the cards `extra` at the end of the hand or of the herd. */
  lemma HeldGrows(s: State, r: State, p: Player, extra: seq<Good>)
    requires || (Hand(r, p) == Hand(s, p) + extra && Herd(r, p) == Herd(s, p))
             || (Hand(r, p) == Hand(s, p) && Herd(r, p) == Herd(s, p) + extra)
    ensures HeldCards(r, p) == HeldCards(s, p) + multiset(extra)
  {
  }

  /** The market lost `moved` and nothing else on the table changed. */
  lemma TableShrinks(s: State, r: State, moved: multiset<Good>)
    requires multiset(r.market) + moved == multiset(s.market)
    requires r.deck == s.deck && r.discardPile == s.discardPile
    ensures TableCards(r) + moved == TableCards(s)
  {
    forall g ensures (TableCards(r) + moved)[g] == TableCards(s)[g] {
      assert (multiset(r.market) + moved)[g] == multiset(s.market)[g];
    }
  }

  /** The camel token goes to the player with strictly more camels, and to nobody on a tie. */
  function CamelHolder(s: State): (holder: Option<Player>)
    ensures holder == None <==> |Herd(s, Player1)| == |Herd(s, Player2)|
    ensures holder == Some(Player1) <==> |Herd(s, Player1)| > |Herd(s, Player2)|
    ensures holder == Some(Player2) <==> |Herd(s, Player2)| > |Herd(s, Player1)|
  {
    if |Herd(s, Player1)| > |Herd(s, Player2)| then Some(Player1)
    else if |Herd(s, Player2)| > |Herd(s, Player1)| then Some(Player2)
    else None
  }

  /** camel_token_allocate: recompute the holder; nothing else changes. */
  function AllocateCamelToken(s: State): (r: State)
    ensures r.camelToken == CamelHolder(s) && r.(camelToken := s.camelToken) == s
  {
    s.(camelToken := CamelHolder(s))
  }

  /** Smaller of two integers. */
  function Min(a: int, b: int): int
  {
    if a <= b then a else b
  }

  /** replenish_board: pop cards off the end of the deck into the market until it holds
      five cards or the deck runs out (the draw's IndexError is swallowed). */
  function Replenish(s: State): (r: State)
    ensures r == s.(market := r.market, deck := r.deck)
    ensures |r.market| >= MarketSize || r.deck == []
    ensures |s.market| <= |r.market| <= if |s.market| < MarketSize then MarketSize else |s.market|
    ensures var added := |r.market| - |s.market|;
      && added <= |s.deck|
      && r.market == s.market + Drawn(s.deck, added)
      && r.deck == s.deck[..|s.deck| - added]
  {
    var wanted := if |s.market| < MarketSize then MarketSize - |s.market| else 0;
    var k := Min(wanted, |s.deck|);
    s.(market := s.market + Drawn(s.deck, k), deck := s.deck[..|s.deck| - k])
  }

  /** Replenishing moves cards from the deck to the market and loses none. */
  lemma ReplenishKeepsTable(s: State)
    ensures TableCards(Replenish(s)) == TableCards(s)
  {
    var r := Replenish(s);
    var k := |r.market| - |s.market|;
    DrawOnto(s.market, s.deck, k);
    assert multiset(r.market) + multiset(r.deck) == multiset(s.market) + multiset(s.deck);
  }

  /** initial_setup with the shuffles taken as inputs: the shuffled deck `shuffled` and the
      shuffled bonus tiers `bonusOrder`. Three camels and two cards popped from the end of the
      deck form the market, each player pops five cards, and the camels among them move to
      the herds. */
  function SetUp(s: State, shuffled: seq<Good>, bonusOrder: map<int, seq<int>>): (r: State)
    requires |shuffled| >= MarketDeal + DealSize + DealSize
  {
    var n := |shuffled|;
    Deal(s, [Camel, Camel, Camel] + Drawn(shuffled, MarketDeal),
         Drawn(shuffled[..n - MarketDeal], DealSize), Drawn(shuffled[..n - MarketDeal - DealSize], DealSize),
         shuffled[..n - MarketDeal - DealSize - DealSize], bonusOrder)
  }

  /** The board once the piles are dealt: `market` on the table, `rest` left as the deck,
      the non-camels of `dealt1` and `dealt2` in the hands of players 1 and 2 and their
      camels in the herds, and `bonusOrder` as the bonus tiers. */
  function Deal(s: State, market: seq<Good>, dealt1: seq<Good>, dealt2: seq<Good>, rest: seq<Good>,
                bonusOrder: map<int, seq<int>>): State
  {
    s.(deck := rest, market := market,
       hands := Seats(WithoutCamels(dealt1), WithoutCamels(dealt2)),
       herds := Seats(OnlyCamels(dealt1), OnlyCamels(dealt2)),
       bonusTokens := bonusOrder)
  }

  /** After a deal no hand holds a camel, each player holds exactly the cards dealt to them,
      and the invariant holds when it held before and the bonus tiers are all there. */
  lemma DealFacts(s: State, market: seq<Good>, dealt1: seq<Good>, dealt2: seq<Good>, rest: seq<Good>,
                  bonusOrder: map<int, seq<int>>)
    ensures var r := Deal(s, market, dealt1, dealt2, rest, bonusOrder);
      && NoCamels(Hand(r, Player1)) && NoCamels(Hand(r, Player2))
      && |Hand(r, Player1)| + |Herd(r, Player1)| == |dealt1|
      && |Hand(r, Player2)| + |Herd(r, Player2)| == |dealt2|
      && HeldCards(r, Player1) == multiset(dealt1) && HeldCards(r, Player2) == multiset(dealt2)
      && (Valid(s) && HasTiers(bonusOrder) ==> Valid(r))
  {
    CamelSplit(dealt1);
    CamelSplit(dealt2);
    DealtSplit(dealt1);
    DealtSplit(dealt2);
    OnlyCamelsAreCamels(dealt1);
    OnlyCamelsAreCamels(dealt2);
  }

  lemma SetUpIsDeal(s: State, shuffled: seq<Good>, bonusOrder: map<int, seq<int>>)
    requires |shuffled| >= MarketDeal + DealSize + DealSize
    ensures var n := |shuffled|;
      SetUp(s, shuffled, bonusOrder)
      == Deal(s, [Camel, Camel, Camel] + Drawn(shuffled, MarketDeal),
              Drawn(shuffled[..n - MarketDeal], DealSize), Drawn(shuffled[..n - MarketDeal - DealSize], DealSize),
              shuffled[..n - MarketDeal - DealSize - DealSize], bonusOrder)
  {
  }

  /** Setup replaces the deck, so the deck it starts from does not matter. */
  lemma SetUpIgnoresDeck(s: State, shuffled: seq<Good>, bonusOrder: map<int, seq<int>>)
    requires |shuffled| >= MarketDeal + DealSize + DealSize
    ensures SetUp(s.(deck := shuffled), shuffled, bonusOrder) == SetUp(s, shuffled, bonusOrder)
  {
  }

  /** Setup keeps the invariant when the shuffled bonus tiers cover tiers 3, 4 and 5. */
  lemma SetUpValid(s: State, shuffled: seq<Good>, bonusOrder: map<int, seq<int>>)
    requires Valid(s)
    requires |shuffled| >= MarketDeal + DealSize + DealSize
    requires HasTiers(bonusOrder)
    ensures Valid(SetUp(s, shuffled, bonusOrder))
  {
    DealFacts(s, [Camel, Camel, Camel] + Drawn(shuffled, MarketDeal),
              Drawn(shuffled[..|shuffled| - MarketDeal], DealSize),
              Drawn(shuffled[..|shuffled| - MarketDeal - DealSize], DealSize),
              shuffled[..|shuffled| - MarketDeal - DealSize - DealSize], bonusOrder);
  }

  /** After setup the market holds five cards, the first three of them camels, no hand holds
      a camel, each player's hand and herd together hold the five cards dealt, and the deck
      has lost the twelve cards dealt. */
  lemma SetUpDeals(s: State, shuffled: seq<Good>, bonusOrder: map<int, seq<int>>)
    requires |shuffled| >= MarketDeal + DealSize + DealSize
    ensures var r := SetUp(s, shuffled, bonusOrder);
      && |r.market| == MarketSize && r.market[..3] == [Camel, Camel, Camel]
      && NoCamels(Hand(r, Player1)) && NoCamels(Hand(r, Player2))
      && |Hand(r, Player1)| + |Herd(r, Player1)| == DealSize
      && |Hand(r, Player2)| + |Herd(r, Player2)| == DealSize
      && |r.deck| == |shuffled| - 12
  {
    DealFacts(s, [Camel, Camel, Camel] + Drawn(shuffled, MarketDeal),
              Drawn(shuffled[..|shuffled| - MarketDeal], DealSize),
              Drawn(shuffled[..|shuffled| - MarketDeal - DealSize], DealSize),
              shuffled[..|shuffled| - MarketDeal - DealSize - DealSize], bonusOrder);
  }

  /** Splitting a dealt pile into hand and herd keeps its size. */
  lemma DealtSplit(dealt: seq<Good>)
    ensures |WithoutCamels(dealt)| + |OnlyCamels(dealt)| == |dealt|
  {
    CamelSplit(dealt);
    assert |multiset(WithoutCamels(dealt))| + |multiset(OnlyCamels(dealt))| == |multiset(dealt)|;
  }

  /** Started from the constructor's empty board, setup puts every card of the shuffled deck
      plus the three market camels into play. */
  lemma SetUpKeepsCards(s: State, shuffled: seq<Good>, bonusOrder: map<int, seq<int>>)
    requires s.discardPile == []
    requires |shuffled| >= MarketDeal + DealSize + DealSize
    ensures AllCards(SetUp(s, shuffled, bonusOrder)) == multiset(shuffled) + multiset{Camel, Camel, Camel}
  {
    SetUpIsDeal(s, shuffled, bonusOrder);
    DealtKeepsCards(s, shuffled, bonusOrder);
  }

  /** The deal setup performs keeps every card of the shuffled deck. */
  lemma DealtKeepsCards(s: State, shuffled: seq<Good>, bonusOrder: map<int, seq<int>>)
    requires s.discardPile == []
    requires |shuffled| >= MarketDeal + DealSize + DealSize
    ensures var n := |shuffled|;
      AllCards(Deal(s, [Camel, Camel, Camel] + Drawn(shuffled, MarketDeal),
                    Drawn(shuffled[..n - MarketDeal], DealSize), Drawn(shuffled[..n - MarketDeal - DealSize], DealSize),
                    shuffled[..n - MarketDeal - DealSize - DealSize], bonusOrder))
      == multiset(shuffled) + multiset{Camel, Camel, Camel}
  {
    DealSplit(shuffled, MarketDeal, DealSize);
    DealKeepsCards(s, Drawn(shuffled, MarketDeal),
                   Drawn(shuffled[..|shuffled| - MarketDeal], DealSize),
                   Drawn(shuffled[..|shuffled| - MarketDeal - DealSize], DealSize),
                   shuffled[..|shuffled| - MarketDeal - DealSize - DealSize], bonusOrder, shuffled);
  }

  /** Dealing a market, two hands and a deck that together are `all` onto a table with no
      discards puts `all` and the three market camels into play. */
  lemma DealKeepsCards(s: State, market: seq<Good>, dealt1: seq<Good>, dealt2: seq<Good>, rest: seq<Good>,
                       bonusOrder: map<int, seq<int>>, all: seq<Good>)
    requires s.discardPile == []
    requires multiset(market + dealt1 + dealt2) + multiset(rest) == multiset(all)
    ensures AllCards(Deal(s, [Camel, Camel, Camel] + market, dealt1, dealt2, rest, bonusOrder))
      == multiset(all) + multiset{Camel, Camel, Camel}
  {
    var r := Deal(s, [Camel, Camel, Camel] + market, dealt1, dealt2, rest, bonusOrder);
    DealFacts(s, [Camel, Camel, Camel] + market, dealt1, dealt2, rest, bonusOrder);
    RegroupDeal(market, dealt1, dealt2, rest, all, TableCards(r), HeldCards(r, Player1), HeldCards(r, Player2));
  }

  /** The cards popped for the market and the two players, with the rest of the deck, make
      up the shuffled deck. */
  lemma DealSplit(deck: seq<Good>, m: nat, d: nat)
    requires m + d + d <= |deck|
    ensures var n := |deck|;
      multiset(Drawn(deck, m) + Drawn(deck[..n - m], d) + Drawn(deck[..n - m - d], d))
      + multiset(deck[..n - m - d - d]) == multiset(deck)
  {
    var n := |deck|;
    DealOrder(deck, m, d, d);
    DrawnSplit(deck, m + d + d);
    assert deck[..n - (m + d + d)] == deck[..n - m - d - d];
  }

  /** Popping `a`, then `b`, then `c` cards pops `a + b + c` cards in that order. */
  lemma DealOrder<T>(deck: seq<T>, a: nat, b: nat, c: nat)
    requires a + b + c <= |deck|
    ensures var n := |deck|;
      Drawn(deck, a + b + c) == Drawn(deck, a) + Drawn(deck[..n - a], b) + Drawn(deck[..n - a - b], c)
  {
    var n := |deck|;
    var da := deck[..n - a];
    DrawnConcat(deck, a, b);
    assert da[..|da| - b] == deck[..n - a - b];
    DrawnConcat(deck, a + b, c);
  }

  lemma RegroupDeal(market: seq<Good>, dealt1: seq<Good>, dealt2: seq<Good>, rest: seq<Good>, all: seq<Good>,
                    table: multiset<Good>, held1: multiset<Good>, held2: multiset<Good>)
    requires multiset(market + dealt1 + dealt2) + multiset(rest) == multiset(all)
    requires table == multiset([Camel, Camel, Camel] + market) + multiset(rest) + multiset{}
    requires held1 == multiset(dealt1) && held2 == multiset(dealt2)
    ensures table + held1 + held2 == multiset(all) + multiset{Camel, Camel, Camel}
  {
    var rhs := multiset(all) + multiset{Camel, Camel, Camel};
    forall g ensures (table + held1 + held2)[g] == rhs[g] {
      assert multiset(market + dealt1 + dealt2)[g] == multiset(market)[g] + multiset(dealt1)[g] + multiset(dealt2)[g];
      assert multiset([Camel, Camel, Camel] + market)[g]
        == multiset([Camel, Camel, Camel])[g] + multiset(market)[g];
    }
  }
}
