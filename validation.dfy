/**
  `validate_arbitrage` (xyz415.py): a chain of checks that stops at the first
  that fails. Credentials; the buy venue is a buyer and the sell venue a
  seller; the symbol is listed on both (through the market cache, which is the
  one thing the chain changes); both prices are known; buying is strictly
  cheaper than selling; the sell venue lends the base currency.

  Each `get_markets` call reads the clock itself, so the two lookups get their
  own times; `load_markets` and the margin lookups are oracles.
*/
module Validation {
  import opened Wrappers
  import opened Venues
  import opened Markets

  /** The checks, in the order they run. */
  datatype Check = Credentials | BuyerRole | SellerRole | BuyListing | SellListing | PricesKnown | Profitable | Margin

  function Rank(k: Check): nat {
    match k
    case Credentials => 0
    case BuyerRole => 1
    case SellerRole => 2
    case BuyListing => 3
    case SellListing => 4
    case PricesKnown => 5
    case Profitable => 6
    case Margin => 7
  }

  datatype Verdict = Accepted | Rejected(failed: Check)

  /** What the checks look at besides the cache. */
  datatype Request = Request(symbol: string, buy: string, sell: string,
                             buyPrice: Option<real>, sellPrice: Option<real>)

  /** The oracles: `load_markets` per venue (`None` when it raises), the margin
      lookups, and the clock readings of the two `get_markets` calls. */
  datatype Oracles = Oracles(load: string -> Option<seq<string>>, margin: MarginSource,
                             buyClock: int, sellClock: int)

  /** The two market lookups, buy venue first, as the chain makes them. */
  function Listings(cache: Cache, q: Request, o: Oracles): (r: (Cache, seq<string>, seq<string>))
  {
    var (c1, buyMarkets) := Lookup(cache, q.buy, o.buyClock, o.load(q.buy));
    var (c2, sellMarkets) := Lookup(c1, q.sell, o.sellClock, o.load(q.sell));
    (c2, buyMarkets, sellMarkets)
  }

  /** Reference: whether check `k` passes, given the two symbol lists. */
  predicate Holds(k: Check, configs: Configs, q: Request, o: Oracles, buyMarkets: seq<string>, sellMarkets: seq<string>) {
    match k
    case Credentials => VenueReady(configs, q.buy) && VenueReady(configs, q.sell)
    case BuyerRole => q.buy in Buyers
    case SellerRole => q.sell in Sellers
    case BuyListing => q.symbol in buyMarkets
    case SellListing => q.symbol in sellMarkets
    case PricesKnown => q.buyPrice.Some? && q.sellPrice.Some?
    case Profitable => q.buyPrice.Some? && q.sellPrice.Some? && q.buyPrice.value < q.sellPrice.value
    case Margin => MarginAvailable(q.symbol, q.sell, o.margin)
  }

  /** `validate_arbitrage`: the verdict and the market cache afterwards. */
  function Validate(configs: Configs, cache: Cache, q: Request, o: Oracles): (r: (Verdict, Cache))
  {
    if !ValidateApiKeys(configs, q.buy, q.sell) then (Rejected(Credentials), cache)
    else if q.buy !in Buyers then (Rejected(BuyerRole), cache)
    else if q.sell !in Sellers then (Rejected(SellerRole), cache)
    else
      var (after, buyMarkets, sellMarkets) := Listings(cache, q, o);
      if q.symbol !in buyMarkets then (Rejected(BuyListing), after)
      else if q.symbol !in sellMarkets then (Rejected(SellListing), after)
      else if q.buyPrice.None? || q.sellPrice.None? then (Rejected(PricesKnown), after)
      else if q.buyPrice.value >= q.sellPrice.value then (Rejected(Profitable), after)
      else if !MarginAvailable(q.symbol, q.sell, o.margin) then (Rejected(Margin), after)
      else (Accepted, after)
  }

  /** The verdict is the first check, in order, that fails: a rejection names a
      check that fails with every earlier one passing, and acceptance means
      every check passes. */
  lemma ValidateIsFirstFailure(configs: Configs, cache: Cache, q: Request, o: Oracles)
    ensures var (_, buyMarkets, sellMarkets) := Listings(cache, q, o);
      var v := Validate(configs, cache, q, o).0;
      (v.Rejected? ==>
        !Holds(v.failed, configs, q, o, buyMarkets, sellMarkets)
        && forall k :: Rank(k) < Rank(v.failed) ==> Holds(k, configs, q, o, buyMarkets, sellMarkets))
      && (v == Accepted <==> forall k :: Holds(k, configs, q, o, buyMarkets, sellMarkets))
  {
    ValidateApiKeysIff(configs, q.buy, q.sell);
    var (_, buyMarkets, sellMarkets) := Listings(cache, q, o);
    var v := Validate(configs, cache, q, o).0;
    if v == Accepted {
      forall k ensures Holds(k, configs, q, o, buyMarkets, sellMarkets) {
      }
    } else {
      assert !Holds(v.failed, configs, q, o, buyMarkets, sellMarkets);
    }
  }

  /** Acceptance needs the buy price strictly below the sell price. */
  lemma AcceptedIsProfitable(configs: Configs, cache: Cache, q: Request, o: Oracles)
    requires Validate(configs, cache, q, o).0 == Accepted
    ensures q.buyPrice.Some? && q.sellPrice.Some? && q.buyPrice.value < q.sellPrice.value
    ensures VenueReady(configs, q.buy) && VenueReady(configs, q.sell)
  {
    ValidateApiKeysIff(configs, q.buy, q.sell);
  }

  /** The margin lookups are consulted last: whatever they answer, the chain
      ends the same way unless it got as far as the margin check. */
  lemma MarginAskedLast(configs: Configs, cache: Cache, q: Request, o: Oracles, m: MarginSource)
    requires Validate(configs, cache, q, o).0 !in {Accepted, Rejected(Margin)}
    ensures Validate(configs, cache, q, o.(margin := m)) == Validate(configs, cache, q, o)
  {
  }

  /** The markets are loaded only once the credentials and both roles pass:
      before that the cache is untouched and the loader is not consulted. */
  lemma MarketsAfterRoles(configs: Configs, cache: Cache, q: Request, o: Oracles,
                          load: string -> Option<seq<string>>)
    requires Validate(configs, cache, q, o).0.Rejected? && Rank(Validate(configs, cache, q, o).0.failed) <= Rank(SellerRole)
    ensures Validate(configs, cache, q, o).1 == cache
    ensures Validate(configs, cache, q, o.(load := load)) == Validate(configs, cache, q, o)
  {
  }

  /** No venue both buys and sells, so a signal naming the same venue twice is
      rejected before any market is loaded. */
  lemma SameVenueRejected(configs: Configs, cache: Cache, q: Request, o: Oracles)
    requires q.buy == q.sell
    ensures Validate(configs, cache, q, o).0 in {Rejected(Credentials), Rejected(BuyerRole), Rejected(SellerRole)}
    ensures Validate(configs, cache, q, o).1 == cache
  {
    RolesDisjoint(q.buy);
  }
}
