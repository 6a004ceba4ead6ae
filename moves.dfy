// get_legal_moves: the set of moves the engine offers a player, built from the
// market, the player's hand and herd and the goods ladders. It reads the state
// and changes nothing.

module Moves {
  import opened Cards
  import opened Piles
  import opened GameState
  import opened Rules

  /** The smallest sale the enumerator offers: two for a jewel, one for any other good. */
  function MinSale(k: Good): nat
  {
    if IsJewel(k) then 2 else 1
  }

  /** The two piles have no card type in common (`set(gc).intersection(set(tc))` is empty). */
  predicate NoSharedGood(give: seq<Good>, take: seq<Good>)
  {
    forall c :: c in give ==> c !in take
  }

  /** get_legal_moves for `who`, or for the active player when no player is named. */
  function LegalMoves(s: State, who: Option<Player>): set<Move>
  {
    var p := Subject(s, who);
    CamelMoves(s) + TakeMoves(s, p) + ExchangeMoves(s, p) + SellMoves(s, p)
  }

  /** Taking the camels, offered when the market holds one. */
  function CamelMoves(s: State): (moves: set<Move>)
    ensures moves <= {Camels}
  {
    if Camel in s.market then {Camels} else {}
  }

  /** One take per card of the market, offered while the hand is below the limit. */
  function TakeMoves(s: State, p: Player): (moves: set<Move>)
    ensures forall m :: m in moves ==> m.Take? && m.card in s.market
  {
    if |Hand(s, p)| < HandLimit then set c | c in s.market :: Take(c) else {}
  }

  /** The exchanges of one to min(hand size, 5) cards, offered when the hand is not empty.
      The give side is drawn from the hand followed by the herd. */
  function ExchangeMoves(s: State, p: Player): (moves: set<Move>)
    ensures var hand := Hand(s, p);
      forall m :: m in moves ==>
        && m.Exchange? && 1 <= |m.give| <= Min(|hand|, MaxExchange)
        && m.give == hand[..|m.give|] && m.take in Combinations(s.market, |m.give|)
        && NoSharedGood(m.give, m.take)
    ensures var hand := Hand(s, p);
      forall i, t :: (1 <= i <= Min(|hand|, MaxExchange) && t in Combinations(s.market, i)
        && NoSharedGood(hand[..i], t)) ==> Exchange(hand[..i], t) in moves
  {
    var hand := Hand(s, p);
    var pile := hand + Herd(s, p);
    forall i | 0 <= i <= |hand| ensures pile[..i] == hand[..i] {
    }
    if |hand| > 0 then ExchangesUpTo(pile, s.market, Min(|hand|, MaxExchange)) else {}
  }

  /** The exchanges of each size from 1 to `top`. */
  function ExchangesUpTo(pile: seq<Good>, market: seq<Good>, top: nat): (moves: set<Move>)
    ensures forall m :: m in moves ==>
      && m.Exchange? && 1 <= |m.give| <= top && |m.give| <= |pile|
      && m.give == pile[..|m.give|] && m.take in Combinations(market, |m.give|)
      && NoSharedGood(m.give, m.take)
    ensures forall i, t :: (1 <= i <= top && i <= |pile| && t in Combinations(market, i)
      && NoSharedGood(pile[..i], t)) ==> Exchange(pile[..i], t) in moves
  {
    if top == 0 then {}
    else ExchangesUpTo(pile, market, top - 1) + ExchangesOfSize(pile, market, top)
  }

  /** The exchanges of `i` cards. The comprehension runs the market's combinations inside the
      loop over the pile's combinations, but that inner iterator is created once and is used
      up by the first give combination: only the first one, the pile's first `i` cards, is
      paired with a take. */
  function ExchangesOfSize(pile: seq<Good>, market: seq<Good>, i: nat): (moves: set<Move>)
    ensures i <= |pile| ==>
      moves == set t | t in Combinations(market, i) && NoSharedGood(pile[..i], t) :: Exchange(pile[..i], t)
    ensures i > |pile| ==> moves == {}
  {
    var gives := Combinations(pile, i);
    if gives == [] then {}
    else
      var give := gives[0];
      set t | t in Combinations(market, i) && NoSharedGood(give, t) :: Exchange(give, t)
  }

  /** The sales: for each card type in the hand, every count from its minimum up to the
      copies held, as long as the ladder still has that many tokens. */
  function SellMoves(s: State, p: Player): (moves: set<Move>)
    ensures forall m :: m in moves ==> m.Sell?
  {
    var hand := Hand(s, p);
    set k, i | k in hand && MinSale(k) <= i <= multiset(hand)[k] && i <= |Ladder(s, k)| :: Sell(k, i)
  }

  // ----- properties -----

  /** Taking the camels is offered exactly when the market holds a camel. */
  lemma CamelsOffered(s: State, who: Option<Player>)
    ensures Camels in LegalMoves(s, who) <==> Camel in s.market
  {
  }

  /** Taking a card is offered exactly for the cards of the market, and only while the
      player holds fewer than seven cards. */
  lemma TakeOffered(s: State, who: Option<Player>, c: Good)
    ensures var p := Subject(s, who);
      Take(c) in LegalMoves(s, who) <==> |Hand(s, p)| < HandLimit && c in s.market
  {
  }

  /** Every offered exchange gives the first cards of the player's hand, takes as many
      cards from the market, and the two sides share no card type. */
  lemma ExchangeOffered(s: State, who: Option<Player>, give: seq<Good>, take: seq<Good>)
    requires Exchange(give, take) in LegalMoves(s, who)
    ensures var p := Subject(s, who);
      && 1 <= |give| == |take| <= Min(|Hand(s, p)|, MaxExchange)
      && give == Hand(s, p)[..|give|]
      && multiset(take) <= multiset(s.market)
      && NoSharedGood(give, take)
  {
    assert Exchange(give, take) in ExchangeMoves(s, Subject(s, who));
    CombinationWithin(s.market, |give|, take);
  }

  /** Each take combination of the market with no card type in common with the first `i`
      cards of the hand is offered, for every size `i` up to min(hand size, 5). */
  lemma ExchangeWithPrefixOffered(s: State, who: Option<Player>, i: nat, take: seq<Good>)
    requires var p := Subject(s, who);
      && 1 <= i <= Min(|Hand(s, p)|, MaxExchange)
      && take in Combinations(s.market, i) && NoSharedGood(Hand(s, p)[..i], take)
    ensures var p := Subject(s, who);
      Exchange(Hand(s, p)[..i], take) in LegalMoves(s, who)
  {
  }

  /** The first card of a non-empty hand is offered against any market card of another
      type, wherever that card lies in the market. */
  lemma SingleExchangeOffered(s: State, who: Option<Player>, c: Good)
    requires var hand := Hand(s, Subject(s, who));
      |hand| > 0 && c in s.market && c != hand[0]
    ensures var hand := Hand(s, Subject(s, who));
      Exchange(hand[..1], [c]) in LegalMoves(s, who)
  {
    var hand := Hand(s, Subject(s, who));
    SingleCombination(s.market, c);
    assert hand[..1] == [hand[0]];
    ExchangeWithPrefixOffered(s, who, 1, [c]);
  }

  /** An exchange whose give side is not a prefix of the hand is never offered: a hand
      holding two different cards cannot offer its second card alone. */
  lemma ExchangeMissed(s: State, who: Option<Player>, take: seq<Good>)
    requires var p := Subject(s, who);
      |Hand(s, p)| >= 2 && Hand(s, p)[1] != Hand(s, p)[0]
    ensures var p := Subject(s, who);
      Exchange([Hand(s, p)[1]], take) !in LegalMoves(s, who)
  {
    var hand := Hand(s, Subject(s, who));
    var give := [hand[1]];
    assert give != hand[..1] by {
      assert give[0] != hand[..1][0];
    }
    if Exchange(give, take) in LegalMoves(s, who) {
      ExchangeOffered(s, who, give, take);
    }
  }

  /** The engine accepts the exchanges the enumerator misses: any single card of the hand
      against any single card of the market. */
  lemma MissedExchangeAccepted(s: State, i: nat, c: Good)
    requires i < |Hand(s, s.activePlayer)| && c in s.market
    ensures ExchangeCards(s, [Hand(s, s.activePlayer)[i]], [c]).Ok?
  {
    assert Hand(s, s.activePlayer)[i] in Hand(s, s.activePlayer);
  }

  /** A sale is offered exactly when the player holds the card, the count is at least the
      card's minimum and at most the copies held, and the ladder has that many tokens. */
  lemma SellOffered(s: State, who: Option<Player>, k: Good, i: int)
    ensures var p := Subject(s, who);
      Sell(k, i) in LegalMoves(s, who)
      <==> k in Hand(s, p) && MinSale(k) <= i <= multiset(Hand(s, p))[k] && i <= |Ladder(s, k)|
  {
  }

  /** The enumerator never offers an unknown move. */
  lemma NoUnrecognisedOffered(s: State, who: Option<Player>)
    ensures Unrecognised !in LegalMoves(s, who)
  {
  }

  /** Every move offered to the active player is accepted by the dispatcher. */
  lemma OfferedMovesAccepted(s: State, m: Move)
    requires Valid(s)
    requires m in LegalMoves(s, None)
    ensures ApplyMove(s, m).Ok?
  {
    var p := s.activePlayer;
    match m
    case Camels =>
    case Take(c) => TakeOffered(s, None, c);
    case Exchange(give, take) =>
      ExchangeOffered(s, None, give, take);
      PrefixWithin(Hand(s, p), |give|);
    case Sell(k, i) => SellOffered(s, None, k, i);
    case Unrecognised => NoUnrecognisedOffered(s, None);
  }
}
