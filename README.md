# Jaipur rule engine in Dafny

This project models the rule engine of a two-player Jaipur card game: the `Jaipur`
class of `jaipur.py`. The engine owns a deck, a five-card market, a discard pile,
each player's hand (goods), herd (camels) and token lists, the goods-token ladders,
the bonus-token tiers, the camel-token holder and the active/inactive player pointer.
A player takes the market camels, takes one card, exchanges cards with the market or
sells cards for tokens. After each accepted move the camel token is reassigned and
the turn passes.

The model has two layers:

- **Value layer.** `GameState.State` is a snapshot of the object's fields. Each
  mutator is a pure function from a state to a new state, or to an error in a
  `Result`. These functions are in `rules.dfy`, plus `Replenish`, `AllocateCamelToken`
  and `SetUp` in `state.dfy`. The lemmas about them state:
  - each move's effect;
  - that every card is kept;
  - that the engine's invariant is preserved (`Valid`: every ladder and tier is
    present, the two player pointers differ, hands hold no camel, herds hold only
    camels).
- **Object layer.** `Engine.Jaipur` is a class with the same fields. Its methods
  update them in place, with the `pop`, `remove` and `append` loops of the source,
  and each method proves that its new state is what the rule function computes from
  the old one.

The move enumerator `get_legal_moves` (`moves.dfy`) and the score and end-of-game
queries (`scoring.dfy`) are pure functions of the state.

Player names become the two seats `Player1` and `Player2`. The engine's
name-keyed dictionaries become a `Seats` pair. Each Python exception becomes an
`Error` value, and a rejected move leaves the state unchanged: every check in the
source runs before its first mutation. The shuffles of `initial_setup` are inputs:
the shuffled deck and the shuffled bonus tiers.

The source has several defects. The model keeps them as written and states each one as a lemma:

- **Exchanges offered.** In `get_legal_moves` the iterator over the market's
  combinations is created once per size and is used up by the first give
  combination. So the only exchanges offered give the first `i` cards of the hand.
  `Moves.ExchangeMissed` shows an exchange that is never offered, and
  `Moves.MissedExchangeAccepted` shows that the engine would accept it. Because the
  give side is always a prefix of the hand, no offered exchange ever gives a herd
  camel. `Moves.OfferedMovesAccepted` proves that every offered move is accepted.
- **`is_winner`.** It compares each player's total with that same player's total, so
  it is never true (`Scoring.NeverAWinner`).
- **`is_winner` and `is_loser` guard.** Their guard (deck empty, or fewer than three
  ladders empty) is not the end-of-game test of the match loop at `jaipur.py:370`.
  During play the guard is open, so a player behind on points is reported as a loser
  (`Scoring.VerdictDuringPlay`). After a match that ended on three empty ladders it is
  closed (`Scoring.NoVerdictAfterLadders`).
- **No limits enforced by `take_card` and `sell_cards`.** `take_card` does not check
  the seven-card hand limit, and `sell_cards` does not check the two-card jewel
  minimum. Only the enumerator applies them. The model follows the code.

The game holds 55 cards: the 52 of the catalog, 8 of them camels, and the 3 camels
the setup puts in the market (`GameState.SetUpKeepsCards`).

## Model

| member | source | states |
|---|---|---|
| Piles.RemoveFirst | jaipur.py:181 | `list.remove` of a present card deletes its first occurrence, at the position before which the card does not occur, and the other cards keep their order: the result is the pile without that position, one card shorter, whose multiset lacks one copy of the card |
| Piles.RemoveFirstKeepsOrder | jaipur.py:181 | the cards `list.remove` leaves are a subsequence of the pile |
| Piles.RemoveEach | jaipur.py:216-217 | removing each card of a sub-multiset in turn leaves the pile less exactly those cards |
| Piles.RemoveEachKeepsOrder | jaipur.py:216-217 | the cards left after removing each card of a sub-multiset keep their order: they are a subsequence of the pile |
| Piles.RemoveCopies | jaipur.py:236-237 | removing `n` copies of a card lowers its count by `n`, leaves every other count, and adding the copies back gives the original multiset |
| Piles.RemoveCopiesKeepsOrder | jaipur.py:236-237 | the cards of the hand left after removing `n` copies keep their order: they are a subsequence of the hand |
| Piles.OnlyCamels | jaipur.py:172 | the camels filtered out of a pile are as many camels as the pile holds |
| Piles.WithoutCamels | jaipur.py:173 | the non-camels filtered out of a pile hold no camel and every other card of the pile |
| Piles.WithoutCamelsKeepsOrder | jaipur.py:173 | the non-camels filtered out of a pile keep the pile's order: they are a subsequence of it |
| Piles.WithoutCamelsConcat | jaipur.py:173 | filtering two piles joined is filtering each and joining the results, so the filter keeps the order of the cards it keeps |
| Piles.WithoutCamelsOfGoods | jaipur.py:173 | the filter leaves a pile without camels as it is |
| Piles.WithoutCamelsOfCamels | jaipur.py:173 | the filter leaves nothing of a pile of camels |
| Piles.Subsequence | jaipur.py:181 | `r` is the cards of `s` at some strictly increasing positions, in order |
| Piles.SubsequenceOfItself | jaipur.py:216-217 | a pile from which nothing is removed is a subsequence of itself |
| Piles.DropOne | jaipur.py:181 | deleting one position of a pile leaves a subsequence of it |
| Piles.SubsequenceTransitive | jaipur.py:216-217 | successive removals leave a subsequence of the original pile |
| Piles.SubsequenceExtended | jaipur.py:173 | a filter step that keeps or drops the first card of a pile keeps the subsequence relation |
| Piles.CamelSplit | jaipur.py:226-227 | splitting a pile into non-camels and camels loses and adds no card |
| Piles.Combinations | jaipur.py:313-314 | `combinations(s, k)` is non-empty exactly when `k <= |s|`, yields the first `k` cards first, and every combination has `k` cards; which combinations it yields is stated by `PickedIsCombination` and `CombinationPicked` |
| Piles.CombinationWithin | jaipur.py:314 | every combination of a pile is a sub-multiset of that pile |
| Piles.LedWithin | jaipur.py:314 | the combinations that keep the pile's first card are sub-multisets of the pile |
| Piles.DrawnSplit | jaipur.py:138-139 | `k` pops from the end of the deck split it into the cards drawn and the cards left, with no card lost |
| Piles.DrawnConcat | jaipur.py:90-95 | popping `a` cards and then `b` more yields the same cards as popping `a + b` |
| Piles.SumConcat | jaipur.py:160 | the sum of two token lists joined is the sum of their sums |
| Piles.Drawn | jaipur.py:138-139 | the cards `k` pops return, the last card of the deck first; its properties are `DrawnSplit`, `DrawnConcat` and the engine's `DrawMany` |
| Piles.Sum | jaipur.py:160 | the sum of a token list, taken from the front; `SumConcat` relates it to appending |
| Piles.Pick | jaipur.py:313-314 | the cards at increasing positions of a pile form a subsequence of the same length, each card the one at its position |
| Piles.PickedIsCombination | jaipur.py:313-314 | every subsequence of `k` cards (the cards at `k` strictly increasing positions) is among the `k`-element combinations |
| Piles.PickedLed | jaipur.py:313-314 | the subsequences starting at the first card are among the combinations led by it |
| Piles.CombinationPicked | jaipur.py:313-314 | every `k`-element combination is the subsequence at some `k` strictly increasing positions |
| Piles.LedPicked | jaipur.py:313-314 | every combination led by the first card is a subsequence starting at position 0 |
| Piles.SingleCombination | jaipur.py:314 | each card of a pile on its own is a one-element combination of it |
| GameState.InitialState | jaipur.py:20-69 | the constructor's board has empty piles, hands and herds, satisfies the invariant |
| GameState.CamelHolder | jaipur.py:72-78 | the camel token goes to player 1 exactly when their herd is strictly larger, to player 2 exactly when theirs is, and to nobody exactly when the herds are equal |
| GameState.AllocateCamelToken | jaipur.py:72-78 | reallocating the camel token sets the holder and changes nothing else |
| GameState.Replenish | jaipur.py:146-152 | topping up never fails; afterwards the market holds at least five cards or the deck is empty, never more than five unless it already did, and the cards added are the deck's last cards, in pop order, removed from the deck |
| GameState.ReplenishKeepsTable | jaipur.py:146-152 | topping up the market moves cards from the deck to the market and loses none |
| GameState.DealFacts | jaipur.py:97-102 | after dealing, no hand holds a camel, each player holds exactly the cards dealt to them, and the invariant holds when it held before |
| GameState.SetUpValid | jaipur.py:81-106 | setup keeps the invariant when the shuffled bonus tiers cover 3, 4 and 5 |
| GameState.SetUpDeals | jaipur.py:88-102 | after setup the market has five cards, the first three camels, hands hold no camel, each player holds five cards between hand and herd, and the deck has lost twelve cards |
| GameState.SetUpKeepsCards | jaipur.py:81-102 | from an empty discard pile, setup puts every card of the shuffled deck plus the three market camels into play |
| GameState.DealtKeepsCards | jaipur.py:89-102 | the market, the two hands and the rest of the deck, as setup deals them, hold every card of the shuffled deck |
| GameState.DealSplit | jaipur.py:90-95 | the cards popped for the market and both players, with the rest of the deck, make up the deck |
| GameState.SetUp | jaipur.py:81-106 | the board after setup from the shuffled deck and bonus tiers: the deal of the three camels and two popped cards as market, five popped cards per player, the rest as deck; its properties are `SetUpValid`, `SetUpDeals` and `SetUpKeepsCards` |
| GameState.Deal | jaipur.py:89-106 | the dealt market, deck and bonus tiers take their places and each dealt pile is split into hand (non-camels) and herd (camels); its properties are `DealFacts` and `DealKeepsCards` |
| Cards.CardCount | jaipur.py:9-17 | the copies of each card shuffled into the deck: 6 diamonds, gold and silver, 8 cloth and spice, 10 leather and 8 camels; `Engine.Jaipur.InitialSetup` takes a shuffle of the deck plus exactly these copies |
| Cards.InitialGoodsTokens | jaipur.py:25-32 | the six goods ladders with their token values, highest first |
| Cards.InitialBonusTokens | jaipur.py:33-37 | the bonus tiers for sales of three, four and five cards |
| Rules.TakeCard | jaipur.py:177-191 | taking a card fails, with the card-not-in-market error, exactly when the card is absent from the market |
| Rules.Receive | jaipur.py:183-188 | a received camel is appended to the herd, any other card to the hand; the player's cards grow by that card and the opponent's do not change |
| Rules.ExchangeCards | jaipur.py:194-227 | an exchange fails with the size error when the sides differ in length, else with the not-enough-to-give error when the hand lacks a card given, else with the not-in-market error; it succeeds exactly when all three checks pass |
| Rules.SellCards | jaipur.py:230-257 | a sale fails exactly when the hand holds fewer than `n` copies; a count of zero or less changes nothing |
| Rules.Discard | jaipur.py:236-238 | `n` copies of the card leave the hand, the other counts stay, and the copies are appended to the discard pile |
| Rules.PayLadder | jaipur.py:241-247 | the seller receives the front `min(n, remaining)` tokens of the card's ladder, which keeps the rest; other ladders and the opponent's tokens stay |
| Rules.PayBonus | jaipur.py:249-257 | a sale of three or more pays the last token of tier `min(n, 5)` when that tier is not empty; otherwise nothing changes |
| Rules.Perform | jaipur.py:261-270 | dispatch fails with the invalid-option error exactly on an unknown move |
| Rules.EndTurn | jaipur.py:272-276 | after a move the camel token is reallocated and the active and inactive players swap, nothing else changes |
| Rules.ApplyMove | jaipur.py:260-276 | `apply_move` fails exactly when the move fails, with the move's error, and an unknown move fails with the invalid-option error |
| Rules.IsJewel | jaipur.py:322-323 | diamonds, gold and silver, the goods whose smallest sale is two cards |
| Rules.TakeCamels | jaipur.py:171-174 | the state after taking the camels and topping up the market; stated by `TakeCamelsEffect`, `TakeCamelsValid`, `TakeCamelsKeepsCards` and `MarketRefilled` |
| Rules.PayGoods | jaipur.py:236-247 | the goods part of a sale: the discard loop, then the ladder payment; stated by `SellDiscards` and `SellPaysGoods` |
| Rules.TakeCamelsValid | jaipur.py:171-174 | taking the camels keeps the invariant |
| Rules.TakeCardValid | jaipur.py:177-191 | an accepted single take keeps the invariant |
| Rules.ExchangeValid | jaipur.py:224-227 | an accepted exchange keeps the invariant: the regrouping leaves no camel in the hand |
| Rules.SellValid | jaipur.py:230-257 | an accepted sale keeps the invariant |
| Rules.EndTurnValid | jaipur.py:272-276 | passing the turn keeps the invariant |
| Rules.PerformValid | jaipur.py:260-270 | every accepted move keeps the invariant |
| Rules.ApplyMoveValid | jaipur.py:260-276 | every accepted move followed by the end of turn keeps the invariant |
| Rules.TakeCamelsEffect | jaipur.py:171-174 | every market camel is appended to the active herd, the other market cards keep their order at the front of the market with no camel among them, the cards after them are the deck's last cards in pop order and have left the deck, the market is full or the deck empty, and the hand, the opponent, the discards and the tokens stay |
| Rules.TakeCamelsTopUp | jaipur.py:172-174 | after the camels leave, the other market cards stay at the front in order, followed by the deck's last cards in pop order, which leave the deck, until the market is full or the deck is empty |
| Rules.ReplenishFront | jaipur.py:146-152 | topping up a market keeps its cards at the front and appends the deck's last cards in pop order, removed from the deck, until it is full or the deck is empty |
| Rules.TakeCamelsKeepsCards | jaipur.py:171-174 | taking the camels keeps every card of the game |
| Rules.TakenKeepsCards | jaipur.py:174 | cards taken from the table, then a top-up of the market, keep every card of the game |
| Rules.TakeCardEffect | jaipur.py:177-191 | an accepted take removes the first copy of the card from the old market, which keeps its order at the front, followed by the deck's last cards in pop order, removed from the deck, until the market is full or the deck empty; a camel is appended to the herd, another card to the hand, and the opponent, discards, tokens, ladders, bonus tiers and camel token stay |
| Rules.MarketRefilled | jaipur.py:171-276 | after every accepted move the market holds five cards or more, or the deck is empty, whenever that held before the move |
| Rules.TakeCardKeepsCards | jaipur.py:177-191 | an accepted take keeps every card of the game |
| Rules.ExchangeMarket | jaipur.py:220-222 | an accepted exchange keeps the market's length; its front is the market less each card of `take`, in order, followed by `give`; deck, discards and tokens stay |
| Rules.ExchangeHeld | jaipur.py:215-227 | an accepted exchange leaves the player holding their cards less `give` plus `take`, with the hand equal to the old hand less each card of `give`, in order, followed by the non-camels taken, the taken camels added to the herd, and the opponent untouched |
| Rules.RegroupedHandOrder | jaipur.py:225-227 | regrouping after the swap leaves the hand's remaining cards in order followed by the non-camels taken, as the old hand has no camel and the herd nothing else |
| Rules.RegroupHand | jaipur.py:225-227 | merging hand and herd after the swap and splitting them again keeps the cards and puts every camel in the herd |
| Rules.ExchangeKeepsCards | jaipur.py:194-227 | an accepted exchange keeps every card of the game |
| Rules.ExchangeRefusesCamel | jaipur.py:199-207 | an exchange of the right size that gives a camel is refused for lack of cards to give, since the check looks at the hand only |
| Rules.SellDiscards | jaipur.py:236-238 | a sale of `n` copies leaves the hand as `n` successive `list.remove` calls do, with the other cards in order, and appends the copies to the discard pile |
| Rules.SellPaysGoods | jaipur.py:241-247 | a sale pays the front `min(n, remaining)` tokens of the ladder in order; fewer than `n` only when the ladder runs out |
| Rules.SellFrame | jaipur.py:230-257 | a sale touches no other ladder, nor the herds, the market or the deck |
| Rules.SellLeavesOpponent | jaipur.py:230-257 | a sale leaves the opponent's hand and tokens |
| Rules.SellBonus | jaipur.py:249-257 | a sale of three or more pays the last token of tier `min(n, 5)` when there is one and leaves every other tier; otherwise no bonus token moves |
| Rules.BonusAfterGoods | jaipur.py:249-257 | the bonus pop that follows the goods payment sees the seller's bonus tokens and the tiers as they were before the sale, so it pays the last token of tier min(n, 5) for three cards or more when there is one, leaving every other tier, and nothing otherwise |
| Rules.SellKeepsKeys | jaipur.py:230-257 | a sale keeps every ladder and tier in its map, the turn and the camel token |
| Rules.SellKeepsCards | jaipur.py:230-257 | a sale keeps every card of the game |
| Rules.PerformKeepsTurn | jaipur.py:261-270 | a move by itself does not pass the turn |
| Rules.ApplyMovePassesTurn | jaipur.py:272-276 | an accepted move passes the turn to the opponent exactly once, and the camel token then sits with the strictly larger herd after the move |
| Rules.PerformKeepsCards | jaipur.py:260-270 | every accepted move keeps every card of the game |
| Rules.ApplyMoveKeepsCards | jaipur.py:260-276 | no accepted move creates or destroys a card |
| Rules.EndTurnKeepsCards | jaipur.py:272-276 | passing the turn moves no card |
| Moves.CamelMoves | jaipur.py:301-303 | at most the one camel move is offered |
| Moves.TakeMoves | jaipur.py:305-308 | every single take offered names a market card |
| Moves.ExchangeMoves | jaipur.py:310-316 | every exchange offered gives the first `i` cards of the hand, for `1 <= i <= min(hand, 5)`, against an `i`-card combination of the market sharing no card type; every such pair is offered |
| Moves.ExchangesUpTo | jaipur.py:312-316 | the exchanges of sizes 1 to `top` are exactly the prefix gives paired with the disjoint take combinations |
| Moves.ExchangesOfSize | jaipur.py:313-316 | because the take iterator is spent by the first give combination, the exchanges of size `i` pair only the first `i` cards with the disjoint take combinations |
| Moves.SellMoves | jaipur.py:318-329 | only sales are produced by the sale loop |
| Moves.CamelsOffered | jaipur.py:302-303 | taking the camels is offered exactly when the market holds a camel |
| Moves.TakeOffered | jaipur.py:306-308 | a single take of `c` is offered exactly when the hand has fewer than seven cards and `c` is in the market |
| Moves.ExchangeOffered | jaipur.py:311-316 | every offered exchange has equal sides of 1 to `min(hand, 5)` cards, gives a prefix of the hand, takes a sub-multiset of the market, and the sides share no card type |
| Moves.ExchangeWithPrefixOffered | jaipur.py:311-316 | every disjoint take combination paired with a prefix of the hand is offered |
| Moves.ExchangeMissed | jaipur.py:313-316 | a hand holding two different cards is never offered its second card alone |
| Moves.MissedExchangeAccepted | jaipur.py:194-227 | the engine accepts any single card of the hand against any single market card, including the ones the enumerator misses |
| Moves.SellOffered | jaipur.py:319-329 | `Sell(k, i)` is offered exactly when `k` is in the hand, `i` is between the card's minimum (two for a jewel, one otherwise) and the copies held, and the ladder has at least `i` tokens |
| Moves.SingleExchangeOffered | jaipur.py:311-316 | the first card of a non-empty hand is offered against any market card of another type, at whatever position that card lies in the market |
| Moves.LegalMoves | jaipur.py:295-333 | the union of the camel, take, exchange and sale moves for the named or the active player; its membership is stated by the `…Offered` lemmas |
| Moves.NoSharedGood | jaipur.py:315-316 | the give and take sides of an exchange have no card type in common |
| Moves.MinSale | jaipur.py:322-323 | the smallest sale offered: two for a jewel, one for any other good; used by `SellOffered` |
| Moves.NoUnrecognisedOffered | jaipur.py:295-333 | the enumerator never offers an unknown move |
| Moves.OfferedMovesAccepted | jaipur.py:295-333 | every move offered to the active player is accepted by `apply_move` |
| Scoring.EmptyLadders | jaipur.py:370 | the number of goods whose ladder is empty, at most the number of ladders; tied to the ladders by `ThreeEmptyLaddersEnd` and `EmptyLaddersNamed` |
| Scoring.EmptyGoods | jaipur.py:370 | a good is in the set exactly when its ladder is present and empty |
| Scoring.ThreeEmptyLaddersEnd | jaipur.py:370 | three different goods with empty ladders make the count at least three and end the match loop |
| Scoring.LadderEmpty | jaipur.py:370 | with all six ladders present, a good whose ladder lookup is empty is counted as empty |
| Scoring.EmptyLaddersNamed | jaipur.py:370 | a count of three or more names three different goods whose ladders are present and empty |
| Scoring.GameContinues | jaipur.py:370 | the match loop goes on while the deck has cards and fewer than three ladders are empty; `ThreeEmptyLaddersEnd` and `VerdictAfterDeck` state when it stops |
| Scoring.CamelBonus | jaipur.py:159 | 5 points for the holder of the camel token, nothing for the other player |
| Scoring.VisibleScore | jaipur.py:155-160 | the goods tokens of the named or the active player plus 5 for the camel token; stated by `DefaultIsActive`, `ScoresAfterPayment` and `SaleRaisesScore` |
| Scoring.TotalScore | jaipur.py:163-168 | the visible score plus the hidden bonus tokens; stated by `TotalExtendsVisible` |
| Scoring.VerdictGate | jaipur.py:337 | the guard of `is_winner` and `is_loser`: the deck is empty or fewer than three ladders are empty; `VerdictDuringPlay` and `NoVerdictAfterLadders` compare it with the loop test |
| Scoring.IsWinner | jaipur.py:336-347 | `is_winner` as written; stated by `NeverAWinner` |
| Scoring.IsLoser | jaipur.py:349-360 | `is_loser` as written; stated by `LoserHasLowerTotal` and `AtMostOneLoser` |
| Scoring.TotalExtendsVisible | jaipur.py:155-168 | the total score is the visible score plus the bonus tokens |
| Scoring.DefaultIsActive | jaipur.py:155-168 | a score query naming no player is about the active player |
| Scoring.NeverAWinner | jaipur.py:336-347 | `is_winner` is false for every player in every state |
| Scoring.LoserHasLowerTotal | jaipur.py:349-360 | past its guard, `is_loser` holds exactly for a player whose total is strictly below the opponent's |
| Scoring.AtMostOneLoser | jaipur.py:349-360 | at most one player is the loser, and nobody on a tie |
| Scoring.VerdictDuringPlay | jaipur.py:350 | while the match loop goes on, the player behind on points is reported as a loser |
| Scoring.NoVerdictAfterLadders | jaipur.py:370 | a match that ends on three empty ladders with cards in the deck reports no winner and no loser |
| Scoring.VerdictAfterDeck | jaipur.py:370 | a match that ends on an empty deck reports the player with the lower total as the loser |
| Scoring.SaleRaisesScore | jaipur.py:241-257 | a sale raises the visible score by the sum of the goods tokens it pays, and the total by those plus the bonus token: the last token of tier min(n, 5) for three cards or more when that tier is not empty, nothing otherwise |
| Scoring.BonusToken | jaipur.py:250-254 | the bonus token a sale of `n` cards pays, as a list of at most one token |
| Scoring.SaleBonusPaid | jaipur.py:249-257 | the seller's bonus tokens grow by exactly that bonus token |
| Scoring.ScoresAfterPayment | jaipur.py:155-168 | receiving goods and bonus tokens raises the visible score by the goods' sum and the total by both sums when the camel token stays |
| Scoring.CamelBonusAfterMove | jaipur.py:159 | after an accepted move the camel bonus counts for exactly the player whose herd is strictly larger |
| Engine.Jaipur.constructor | jaipur.py:20-69 | the new object holds the constructor's board, which satisfies the invariant |
| Engine.Jaipur.InitialSetup | jaipur.py:81-106 | with the catalog shuffled into the deck, the object ends in the setup state, and the invariant is kept |
| Engine.Jaipur.DealOut | jaipur.py:88-106 | the draws and placements of setup leave the object in the dealt state |
| Engine.Jaipur.DrawDeal | jaipur.py:90-95 | two cards are popped for the market, then five for each player, and the deck loses those twelve |
| Engine.Jaipur.Lay | jaipur.py:89-106 | the market, hands, herds and bonus tiers take their dealt values, nothing else changes |
| Engine.Jaipur.Draw | jaipur.py:138-139 | a draw pops and returns the last card of the deck, and an empty deck gives no card and changes nothing |
| Engine.Jaipur.DrawMany | jaipur.py:90-95 | `k` successive draws return the last `k` cards in pop order and remove them from the deck |
| Engine.Jaipur.ReplenishBoard | jaipur.py:146-152 | the draw loop leaves the object in the topped-up state |
| Engine.Jaipur.CamelTokenAllocate | jaipur.py:72-78 | the object ends with the camel token reallocated |
| Engine.Jaipur.TakeCamels | jaipur.py:171-174 | the object ends in the state of taking the camels, and the invariant is kept |
| Engine.Jaipur.TakeCard | jaipur.py:177-191 | a rejected take reports its error and changes nothing; an accepted one leaves the object in the new state; the invariant is kept |
| Engine.Jaipur.Place | jaipur.py:218-227 | the new hand, herd and market take their places |
| Engine.Jaipur.ExchangeCards | jaipur.py:194-227 | a rejected exchange reports its error and changes nothing; an accepted one leaves the object in the new state; the invariant is kept |
| Engine.Jaipur.SellCards | jaipur.py:230-257 | a rejected sale reports its error and changes nothing; an accepted one leaves the object in the new state; the invariant is kept |
| Engine.Jaipur.SellGoods | jaipur.py:236-257 | a sale of at least one card the hand covers leaves the object in the sold state |
| Engine.Jaipur.PaySale | jaipur.py:236-257 | the discard loop, the token loop and the bonus pop together pay the goods part, then the bonus part |
| Engine.Jaipur.ApplyMove | jaipur.py:260-276 | a rejected move reports its error and changes nothing; an accepted one leaves the object in the state after the move and the end of turn; the invariant is kept |
| Engine.Jaipur.PerformMove | jaipur.py:261-270 | the move its name selects is performed, or an unknown name is reported and changes nothing |
| Engine.Jaipur.PassTurn | jaipur.py:272-276 | the camel token is reallocated and the players swap roles |
| Engine.Jaipur.DiscardSold | jaipur.py:236-238 | the first sale loop moves `n` copies from the hand to the discard pile |
| Engine.Jaipur.PlaceSold | jaipur.py:237-238 | the new hand and discard pile take their places |
| Engine.Jaipur.PayGoodsTokens | jaipur.py:241-247 | the second sale loop pays the front tokens of the ladder |
| Engine.Jaipur.PayBonusToken | jaipur.py:249-257 | the bonus pop pays the last token of tier `min(n, 5)` when there is one |
| Engine.RemoveAll | jaipur.py:216-217 | the loop of `remove` calls leaves the pile less each card in turn |
| Engine.Swapped | jaipur.py:215-227 | the hand, herd and market after the two remove loops, the appends and the regrouping |
| Engine.SellOff | jaipur.py:236-238 | `n` removes from the hand and `n` appends to the pile leave the hand less `n` copies and the pile extended by them |
| Engine.CopiesAreEach | jaipur.py:236-237 | removing `n` copies of a card is removing each card of `[card] * n` in turn |
| Engine.PayOut | jaipur.py:241-247 | `n` pops from the front of the ladder, each skipped once it is empty, pay its front `min(n, length)` tokens in order |

## Left out

- Randomness: the shuffles of the deck and the bonus tiers (`jaipur.py:86`, `106`, `143`) are inputs to `InitialSetup`; the `shuffle` method is not modelled.
- Engine.Jaipur.InitialSetup: the loop that appends the card catalog to the deck is captured only through its preconditions: the shuffled deck holds the old deck plus `CardCount` copies of each card, and each shuffled tier is a permutation of the old one.
- `board_copy` and its deep copy: Dafny datatype values are already independent copies.
- `print_board` and the diagnostic prints in `exchange_cards` and `sell_cards`: console output only.
- `play` and the `__main__` block: the match driver with wall-clock timing, agent calls and a pandas history. Only its loop test at `jaipur.py:370` is modelled, as `Scoring.GameContinues`.
- Player names and agent objects: the two names become the seats `Player1` and `Player2`, which always differ. Two players with the same name would make the source's name-keyed dictionaries hold a single entry; the model assumes distinct names.
- The `_active_player` and `_inactive_player` properties: they only return a field.
- Exceptions are modelled as `Error` values in a `Result`. An empty-deck draw inside `replenish_board` is modelled as `Draw` returning no card, the draw that ends the loop.
- A camel in a hand would make `get_legal_moves` raise a `KeyError` on the missing camel ladder. The invariant keeps camels out of hands, so `Moves.SellMoves` reads a missing ladder as empty instead.
- Rules.SellCards: selling camels the hand holds (outside the invariant) makes the source raise a `KeyError` at the ladder lookup after the discard loop; the model reads the missing ladder as empty and goes on. The invariant and the engine's preconditions keep camels out of hands, so this state is never reached.
- Python's `int(args[2])` in `apply_move` is the identity on the integer count the model takes.
- The agents, the tournament loop and the tests in the other files are not part of this model.
