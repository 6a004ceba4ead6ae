// The score queries and the end-of-game tests of the Jaipur engine. They only read
// the state.

module Scoring {
  import opened Cards
  import opened Piles
  import opened GameState
  import opened Rules

  /** What the camel token is worth to `p`: its value when `p` holds it, nothing otherwise. */
  function CamelBonus(s: State, p: Player): int
  {
    if s.camelToken == Some(p) then CamelTokenValue else 0
  }

  /** visible_score: the goods tokens of the player plus the camel token. */
  function VisibleScore(s: State, who: Option<Player>): int
  {
    var p := Subject(s, who);
    Sum(Earned(s, p).goods) + CamelBonus(s, p)
  }

  /** total_score: the goods tokens, the hidden bonus tokens and the camel token. */
  function TotalScore(s: State, who: Option<Player>): int
  {
    var p := Subject(s, who);
    Sum(Earned(s, p).goods) + Sum(Earned(s, p).bonus) + CamelBonus(s, p)
  }

  /** The number of goods whose ladder is empty. */
  function EmptyLadders(s: State): (count: nat)
    ensures count <= |s.goodsTokens|
  {
    SubsetCardinality(EmptyGoods(s), s.goodsTokens.Keys);
    |EmptyGoods(s)|
  }

  /** The ladder of `g` is there and has no token left. */
  predicate IsEmptyLadder(s: State, g: Good)
  {
    g in s.goodsTokens && s.goodsTokens[g] == []
  }

  /** The goods whose ladder is empty. */
  function EmptyGoods(s: State): (empty: set<Good>)
    ensures forall g :: g in empty <==> IsEmptyLadder(s, g)
  {
    set g <- s.goodsTokens.Keys | s.goodsTokens[g] == []
  }

  lemma SubsetCardinality<T>(a: set<T>, b: set<T>)
    requires a <= b
    ensures |a| <= |b|
  {
    if a != {} {
      var x :| x in a;
      SubsetCardinality(a - {x}, b - {x});
    }
  }

  /** Three different goods whose ladders are empty end the match: the count of empty
      ladders reaches three and the loop test fails. */
  lemma ThreeEmptyLaddersEnd(s: State, a: Good, b: Good, c: Good)
    requires HasLadders(s.goodsTokens)
    requires a != Camel && b != Camel && c != Camel
    requires a != b && b != c && a != c
    requires Ladder(s, a) == [] && Ladder(s, b) == [] && Ladder(s, c) == []
    ensures EmptyLadders(s) >= 3 && !GameContinues(s)
  {
    LadderEmpty(s, a);
    LadderEmpty(s, b);
    LadderEmpty(s, c);
    var named := {a, b, c};
    assert |named| == 3;
    assert named <= EmptyGoods(s);
    SubsetCardinality(named, EmptyGoods(s));
  }

  /** Each of the six goods has a ladder, so an empty `Ladder` lookup is an empty ladder. */
  lemma LadderEmpty(s: State, g: Good)
    requires HasLadders(s.goodsTokens) && g != Camel && Ladder(s, g) == []
    ensures g in EmptyGoods(s)
  {
  }

  /** Conversely, a count of three or more names three different goods with empty ladders. */
  lemma EmptyLaddersNamed(s: State)
    requires EmptyLadders(s) >= 3
    ensures exists a, b, c ::
      a != b && b != c && a != c && IsEmptyLadder(s, a) && IsEmptyLadder(s, b) && IsEmptyLadder(s, c)
  {
    var empty := EmptyGoods(s);
    assert |empty| >= 3;
    var a :| a in empty;
    var rest := empty - {a};
    assert |rest| == |empty| - 1;
    var b :| b in rest;
    var last := rest - {b};
    assert |last| == |rest| - 1;
    var c :| c in last;
    assert a != b && b != c && a != c;
    assert IsEmptyLadder(s, a) && IsEmptyLadder(s, b) && IsEmptyLadder(s, c);
  }

  /** The test the match loop runs before every turn: play goes on while the deck has cards
      and fewer than three ladders are empty. */
  predicate GameContinues(s: State)
  {
    s.deck != [] && EmptyLadders(s) < 3
  }

  /** The guard of is_winner and is_loser: the deck is empty or fewer than three ladders are. */
  predicate VerdictGate(s: State)
  {
    s.deck == [] || EmptyLadders(s) < 3
  }

  /** is_winner: player 1 is compared with player 1 and player 2 with player 2. */
  function IsWinner(s: State, p: Player): bool
  {
    if VerdictGate(s) then
      if p == Player1 then TotalScore(s, Some(p)) > TotalScore(s, Some(Player1))
      else TotalScore(s, Some(p)) > TotalScore(s, Some(Player2))
    else false
  }

  /** is_loser: past its guard, a player loses when their total is below the other's. */
  function IsLoser(s: State, p: Player): bool
  {
    if VerdictGate(s) then
      if p == Player1 then TotalScore(s, Some(p)) < TotalScore(s, Some(Player2))
      else TotalScore(s, Some(p)) < TotalScore(s, Some(Player1))
    else false
  }

  // ----- properties -----

  /** The hidden score is the visible score plus the bonus tokens. */
  lemma TotalExtendsVisible(s: State, who: Option<Player>)
    ensures TotalScore(s, who) == VisibleScore(s, who) + Sum(Earned(s, Subject(s, who)).bonus)
  {
  }

  /** Asking without a player asks about the active player. */
  lemma DefaultIsActive(s: State)
    ensures VisibleScore(s, None) == VisibleScore(s, Some(s.activePlayer))
    ensures TotalScore(s, None) == TotalScore(s, Some(s.activePlayer))
  {
  }

  /** Since each player is compared with themselves, nobody is ever reported as a winner. */
  lemma NeverAWinner(s: State, p: Player)
    ensures !IsWinner(s, p)
  {
  }

  /** Past its guard, is_loser reports a player whose total is strictly below the
      opponent's, and nobody else. */
  lemma LoserHasLowerTotal(s: State, p: Player)
    ensures IsLoser(s, p) <==> VerdictGate(s) && TotalScore(s, Some(p)) < TotalScore(s, Some(Opponent(p)))
  {
  }

  /** At most one of the two players is reported as the loser; a tie has none. */
  lemma AtMostOneLoser(s: State, p: Player)
    ensures !(IsLoser(s, p) && IsLoser(s, Opponent(p)))
    ensures TotalScore(s, Some(p)) == TotalScore(s, Some(Opponent(p))) ==> !IsLoser(s, p)
  {
    LoserHasLowerTotal(s, p);
    LoserHasLowerTotal(s, Opponent(p));
  }

  /** While the match loop goes on, the guard of is_loser is open, so a player behind on
      points is reported as a loser in the middle of the game. */
  lemma VerdictDuringPlay(s: State, p: Player)
    requires GameContinues(s)
    ensures IsLoser(s, p) <==> TotalScore(s, Some(p)) < TotalScore(s, Some(Opponent(p)))
  {
    LoserHasLowerTotal(s, p);
  }

  /** A match that ends on three empty ladders with cards still in the deck closes the guard:
      no loser is reported, whatever the scores. */
  lemma NoVerdictAfterLadders(s: State, p: Player)
    requires s.deck != [] && EmptyLadders(s) >= 3
    ensures !GameContinues(s) && !IsLoser(s, p) && !IsWinner(s, p)
  {
  }

  /** A match that ends on an empty deck keeps the guard open: the player with the lower
      total is the loser. */
  lemma VerdictAfterDeck(s: State, p: Player)
    requires s.deck == []
    ensures !GameContinues(s)
    ensures IsLoser(s, p) <==> TotalScore(s, Some(p)) < TotalScore(s, Some(Opponent(p)))
  {
    LoserHasLowerTotal(s, p);
  }

  /** The bonus token a sale of `n` cards pays: the last token of tier min(n, 5) for three
      cards or more when that tier is not empty, and nothing otherwise. */
  function BonusToken(s: State, n: int): seq<int>
  {
    var bonus := Tier(s, Min(n, 5));
    if n >= 3 && bonus != [] then [bonus[|bonus| - 1]] else []
  }

  /** A sale of `n` > 0 cards raises the seller's visible score by the goods tokens it pays
      and the total score by those and the bonus token, if any. */
  lemma SaleRaisesScore(s: State, card: Good, n: int)
    requires n > 0 && SellCards(s, card, n).Ok?
    ensures var p, r, ladder := s.activePlayer, SellCards(s, card, n).value, Ladder(s, card);
      var paid := ladder[..Min(n, |ladder|)];
      && VisibleScore(r, Some(p)) == VisibleScore(s, Some(p)) + Sum(paid)
      && TotalScore(r, Some(p)) == TotalScore(s, Some(p)) + Sum(paid) + Sum(BonusToken(s, n))
  {
    var p, r, ladder := s.activePlayer, SellCards(s, card, n).value, Ladder(s, card);
    assert Earned(r, p).goods == Earned(s, p).goods + ladder[..Min(n, |ladder|)] by {
      SellPaysGoods(s, card, n);
    }
    assert r.camelToken == s.camelToken by {
      SellKeepsKeys(s, card, n);
    }
    SaleBonusPaid(s, card, n);
    ScoresAfterPayment(s, r, p, ladder[..Min(n, |ladder|)], BonusToken(s, n));
  }

  /** The seller's bonus tokens grow by exactly the bonus token of the sale. */
  lemma SaleBonusPaid(s: State, card: Good, n: int)
    requires SellCards(s, card, n).Ok?
    ensures var p := s.activePlayer;
      Earned(SellCards(s, card, n).value, p).bonus == Earned(s, p).bonus + BonusToken(s, n)
  {
    SellBonus(s, card, n);
  }

  /** Player `p` was paid the goods tokens `paid` and the bonus tokens `bonus`, and the camel
      token did not move. */
  lemma ScoresAfterPayment(s: State, r: State, p: Player, paid: seq<int>, bonus: seq<int>)
    requires Earned(r, p).goods == Earned(s, p).goods + paid
    requires Earned(r, p).bonus == Earned(s, p).bonus + bonus
    requires r.camelToken == s.camelToken
    ensures VisibleScore(r, Some(p)) == VisibleScore(s, Some(p)) + Sum(paid)
    ensures TotalScore(r, Some(p)) == TotalScore(s, Some(p)) + Sum(paid) + Sum(bonus)
  {
    SumConcat(Earned(s, p).goods, paid);
    SumConcat(Earned(s, p).bonus, bonus);
  }

  /** After an accepted move, the camel token adds its value to the score of exactly the
      player whose herd is strictly larger. */
  lemma CamelBonusAfterMove(s: State, m: Move, q: Player)
    requires Valid(s)
    requires ApplyMove(s, m).Ok?
    ensures var r := ApplyMove(s, m).value;
      CamelBonus(r, q) == (if |Herd(r, q)| > |Herd(r, Opponent(q))| then CamelTokenValue else 0)
  {
    ApplyMovePassesTurn(s, m);
  }
}
