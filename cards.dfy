// The card and token catalog of the Jaipur engine: the good types, how many
// copies of each go into the deck, and the fixed payout ladders.

module Cards {

  /** A card type. Camels are special: they never stay in a hand, only in a herd. */
  datatype Good = Diamond | Gold | Silver | Cloth | Spice | Leather | Camel

  /** Cards a player may hold before taking a single card is no longer offered. */
  const HandLimit: nat := 7

  /** Size the market is topped up to after a move. */
  const MarketSize: nat := 5

  /** Cards dealt to each player at setup. */
  const DealSize: nat := 5

  /** Cards drawn into the market at setup, after its three camels. */
  const MarketDeal: nat := 2

  /** Largest exchange the move enumerator offers. */
  const MaxExchange: nat := 5

  /** Score worth of the camel token. */
  const CamelTokenValue: int := 5

  /** Copies of each card shuffled into the deck; three more camels start in the market. */
  function CardCount(g: Good): nat
  {
    match g
    case Diamond => 6
    case Gold => 6
    case Silver => 6
    case Cloth => 8
    case Spice => 8
    case Leather => 10
    case Camel => 8
  }

  /** Cards in the catalog: 6 + 6 + 6 + 8 + 8 + 10 + 8, the sum of CardCount. */
  const CatalogSize: nat := 52

  /** The goods-token ladders; a sale takes tokens from the front (highest values first). */
  function InitialGoodsTokens(): map<Good, seq<int>>
  {
    map[Diamond := [7, 7, 5, 5, 5],
        Gold := [6, 6, 5, 5, 5],
        Silver := [5, 5, 5, 5, 5],
        Cloth := [5, 3, 3, 2, 2, 1, 1],
        Spice := [5, 3, 3, 2, 2, 1, 1],
        Leather := [4, 3, 2, 1, 1, 1, 1, 1, 1]]
  }

  /** The bonus-token tiers, keyed by sale size 3, 4 and 5 (a larger sale uses tier 5). */
  function InitialBonusTokens(): map<int, seq<int>>
  {
    map[3 := [1, 1, 2, 2, 2, 3, 3],
        4 := [4, 4, 5, 5, 6, 6],
        5 := [8, 8, 9, 10, 10]]
  }
}
