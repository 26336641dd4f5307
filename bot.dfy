/**
  `ArbitrageBot` (xyz415.py): the state the bot keeps between messages and the
  message handler that drives the rest. A message passes a one-minute
  debounce and a sender check; then its time is recorded, the pair and the
  venues are read from its text, both average prices are computed, the
  validation chain runs, and on success the trade scripts are started.

  The outside world is a set of oracles (`World`): the venues' order books,
  tickers and market lists, the margin lookups, and the process runner. The
  three clock readings the handler makes are given as `Clock`.
*/
module Bot {
  import opened Wrappers
  import opened Messages
  import opened Books
  import opened Venues
  import opened Markets
  import opened RateLimit
  import opened Validation
  import opened Trades
  import opened Numerals

  /** `min_interval`: one minute, in microseconds. */
  const MinInterval: int := 60_000_000

  /** What the handler reads from a Telegram event. */
  datatype Event = Event(text: string, fromBot: bool, forwarded: bool)

  /** The oracles: the order book and ticker of a symbol on a venue (`None` when
      the fetch raises), `load_markets`, the margin lookups and the process runner. */
  datatype World = World(
    orderBook: (string, string) -> Option<OrderBook>,
    ticker: (string, string) -> Option<Ticker>,
    load: string -> Option<seq<string>>,
    margin: MarginSource,
    run: Command -> ProcessOutcome)

  /** The handler's `datetime.now()`, and those of the two `get_markets` calls. */
  datatype Clock = Clock(handler: int, buyMarkets: int, sellMarkets: int)

  /** How the handler ended. */
  datatype Handled =
    | TooSoon
    | NotFromBot
    | NoSymbol
    | VenuesMissing        // `extract_exchange` found nothing: `.upper()` on `None` raises
    | Declined(failed: Check)
    | Executed(bought: ScriptResult, started: seq<Command>)

  // ---------------------------------------------------------------------------
  // The handler, as functions
  // ---------------------------------------------------------------------------

  /** The debounce: a signal was taken less than a minute before `now`. */
  predicate Debounced(last: Option<int>, now: int) {
    last.Some? && now - last.value < MinInterval
  }

  /** The message is taken as a signal: not debounced, from a bot, not forwarded. */
  predicate Taken(last: Option<int>, now: int, e: Event) {
    !Debounced(last, now) && e.fromBot && !e.forwarded
  }

  /** `last_signal_time` after the handler: `now` once the message is taken,
      otherwise unchanged. */
  function NextSignalTime(last: Option<int>, now: int, e: Event): Option<int> {
    if Taken(last, now, e) then Some(now) else last
  }

  /** Two signals taken one after the other are at least a minute apart. */
  lemma SignalsSpaced(last: Option<int>, first: int, e1: Event, second: int, e2: Event)
    requires Taken(last, first, e1)
    requires Taken(NextSignalTime(last, first, e1), second, e2)
    ensures second - first >= MinInterval
  {
  }

  /** The interval is half-open: exactly one minute after a signal, the next is taken. */
  lemma OneMinuteLaterIsTaken(t: int, e: Event)
    requires e.fromBot && !e.forwarded
    ensures Taken(Some(t), t + MinInterval, e)
    ensures !Taken(Some(t), t + MinInterval - 1, e)
  {
  }

  /** `calculate_prices`: a buy price only for a buyer venue and a sell price only
      for a seller venue. */
  function Prices(deposit: nat, symbol: string, buy: string, sell: string, w: World): (r: (Option<real>, Option<real>))
    ensures buy !in Buyers ==> r.0.None?
    ensures sell !in Sellers ==> r.1.None?
  {
    (if buy in Buyers then BuyAverage(deposit as real, w.orderBook(buy, symbol)) else None,
     if sell in Sellers then SellAverage(deposit as real, w.ticker(sell, symbol), w.orderBook(sell, symbol)) else None)
  }

  /** What the handler does with a message it has taken: the outcome and the
      market cache afterwards. */
  function Signal(configs: Configs, cache: Cache, deposit: nat, text: string, clock: Clock, w: World): (r: (Handled, Cache))
    ensures r.0 == NoSymbol <==> ExtractSymbol(text).None?
    ensures r.0 == VenuesMissing <==> ExtractSymbol(text).Some? && ExtractExchange(text).0.None?
    ensures r.0.NoSymbol? || r.0.VenuesMissing? ==> r.1 == cache
    ensures !r.0.TooSoon? && !r.0.NotFromBot?
  {
    var symbol := ExtractSymbol(text);
    var venues := ExtractExchange(text);
    if symbol.None? then (NoSymbol, cache)
    else if venues.0.None? then (VenuesMissing, cache)
    else
      var (buy, sell) := (venues.0.value, venues.1.value);
      var prices := Prices(deposit, symbol.value, buy, sell, w);
      var q := Request(symbol.value, buy, sell, prices.0, prices.1);
      var verdict := Validate(configs, cache, q, Oracles(w.load, w.margin, clock.buyMarkets, clock.sellMarkets));
      if verdict.0.Rejected? then (Declined(verdict.0.failed), verdict.1)
      else
        var trades := TradeOutcome(buy, sell, symbol.value, deposit, w.run);
        (Executed(trades.0, trades.1), verdict.1)
  }

  /** Trades are started only for a message naming a pair, a buyer venue and a
      seller venue that are both ready, with a known buy price strictly below a
      known sell price; the buy script then runs for that venue and pair, and a
      sell script only with the positive amount the buy reported. */
  lemma ExecutedMeans(configs: Configs, cache: Cache, deposit: nat, text: string, clock: Clock, w: World)
    ensures Signal(configs, cache, deposit, text, clock, w).0.Executed? ==>
      ExtractSymbol(text).Some? && ExtractExchange(text).0.Some?
    ensures Signal(configs, cache, deposit, text, clock, w).0.Executed? ==>
      var symbol, buy, sell := ExtractSymbol(text).value, ExtractExchange(text).0.value, ExtractExchange(text).1.value;
      var prices := Prices(deposit, symbol, buy, sell, w);
      var h := Signal(configs, cache, deposit, text, clock, w).0;
      buy in Buyers && sell in Sellers && VenueReady(configs, buy) && VenueReady(configs, sell)
      && prices.0.Some? && prices.1.Some? && prices.0.value < prices.1.value
      && (|h.started| >= 1 ==> h.started[0] == Command(ScriptPath(buy), symbol, NatToDecimal(deposit), None))
      && (|h.started| == 2 ==>
            h.bought.Filled? && h.bought.amount > 0.0
            && h.started[1] == Command(ScriptPath(sell), symbol, NatToDecimal(deposit), Some(h.bought.amount)))
  {
    if Signal(configs, cache, deposit, text, clock, w).0.Executed? {
      var symbol, buy, sell := ExtractSymbol(text).value, ExtractExchange(text).0.value, ExtractExchange(text).1.value;
      var prices := Prices(deposit, symbol, buy, sell, w);
      var q := Request(symbol, buy, sell, prices.0, prices.1);
      AcceptedIsProfitable(configs, cache, q, Oracles(w.load, w.margin, clock.buyMarkets, clock.sellMarkets));
      BuyLegFirst(buy, sell, symbol, deposit, w.run);
      SellHandOff(buy, sell, symbol, deposit, w.run);
    }
  }

  // ---------------------------------------------------------------------------
  // The bot's state and methods
  // ---------------------------------------------------------------------------

  class ArbitrageBot {
    /** `deposit`, in dollars. */
    const deposit: nat
    const configs: Configs
    var lastSignalTime: Option<int>
    var marketsCache: map<string, seq<string>>
    var marketsCacheTime: Option<int>
    var apiCallTimes: CallLog

    /** The constructor: credentials from the environment, nothing cached, no signal yet. */
    constructor (env: Env)
      ensures deposit == 10 && configs == ExchangeConfigs(env)
      ensures lastSignalTime == None && marketsCache == map[] && marketsCacheTime == None
      ensures apiCallTimes == map[]
    {
      deposit := 10;
      configs := ExchangeConfigs(env);
      lastSignalTime := None;
      marketsCache := map[];
      marketsCacheTime := None;
      apiCallTimes := map[];
    }

    /** `get_markets(name)` at `now`. */
    method GetMarkets(name: string, now: int, load: string -> Option<seq<string>>) returns (markets: seq<string>)
      modifies this
      ensures (Cache(marketsCache, marketsCacheTime), markets)
           == Lookup(Cache(old(marketsCache), old(marketsCacheTime)), name, now, load(name))
      ensures lastSignalTime == old(lastSignalTime) && apiCallTimes == old(apiCallTimes)
    {
      if marketsCacheTime.None? || now - marketsCacheTime.value > CacheDuration {
        marketsCache := map[];
        marketsCacheTime := Some(now);
      }
      if name !in marketsCache {
        var loaded := load(name);
        if loaded.Some? {
          marketsCache := marketsCache[name := loaded.value];
        } else {
          marketsCache := marketsCache[name := []];
        }
      }
      markets := marketsCache[name];
    }

    /** `_check_rate_limit(name)` at `now`. */
    method CheckRateLimit(name: string, now: int) returns (allowed: bool)
      modifies this
      ensures (apiCallTimes, allowed) == CheckRate(old(apiCallTimes), name, now)
      ensures lastSignalTime == old(lastSignalTime)
      ensures marketsCache == old(marketsCache) && marketsCacheTime == old(marketsCacheTime)
    {
      if name in apiCallTimes {
        apiCallTimes := apiCallTimes[name := Recent(apiCallTimes[name], now - Window)];
      } else {
        apiCallTimes := apiCallTimes[name := []];
      }
      assert apiCallTimes == old(apiCallTimes)[name := Pruned(old(apiCallTimes), name, now)];
      if |apiCallTimes[name]| >= MaxCallsPerMinute {
        return false;
      }
      ghost var pruned := Pruned(old(apiCallTimes), name, now);
      apiCallTimes := apiCallTimes[name := apiCallTimes[name] + [now]];
      assert apiCallTimes == old(apiCallTimes)[name := pruned + [now]];
      return true;
    }

    /** `calculate_prices(symbol, buy, sell)`, running the two book walks. */
    method CalculatePrices(symbol: string, buy: string, sell: string, w: World)
      returns (buyPrice: Option<real>, sellPrice: Option<real>)
      ensures (buyPrice, sellPrice) == Prices(deposit, symbol, buy, sell, w)
    {
      buyPrice, sellPrice := None, None;
      if buy in Buyers {
        buyPrice := AverageBuyPrice(deposit as real, w.orderBook(buy, symbol));
      }
      if sell in Sellers {
        sellPrice := AverageSellPrice(deposit as real, w.ticker(sell, symbol), w.orderBook(sell, symbol));
      }
    }

    /** `validate_arbitrage(...)`; the source's boolean is `verdict == Accepted`. */
    method ValidateArbitrage(q: Request, w: World, buyClock: int, sellClock: int) returns (verdict: Verdict)
      modifies this
      ensures (verdict, Cache(marketsCache, marketsCacheTime))
           == Validate(configs, Cache(old(marketsCache), old(marketsCacheTime)), q,
                       Oracles(w.load, w.margin, buyClock, sellClock))
      ensures lastSignalTime == old(lastSignalTime) && apiCallTimes == old(apiCallTimes)
    {
      if !ValidateApiKeys(configs, q.buy, q.sell) {
        return Rejected(Credentials);
      }
      if q.buy !in Buyers {
        return Rejected(BuyerRole);
      }
      if q.sell !in Sellers {
        return Rejected(SellerRole);
      }
      var buyMarkets := GetMarkets(q.buy, buyClock, w.load);
      var sellMarkets := GetMarkets(q.sell, sellClock, w.load);
      if q.symbol !in buyMarkets {
        return Rejected(BuyListing);
      }
      if q.symbol !in sellMarkets {
        return Rejected(SellListing);
      }
      if q.buyPrice.None? || q.sellPrice.None? {
        return Rejected(PricesKnown);
      }
      if q.buyPrice.value >= q.sellPrice.value {
        return Rejected(Profitable);
      }
      if !MarginAvailable(q.symbol, q.sell, w.margin) {
        return Rejected(Margin);
      }
      return Accepted;
    }

    /** `handle_message(event)`. A message that is debounced or not from a bot
        changes nothing; any other records its time first (so also when no pair
        or no venues are found in it) and then goes through `Signal`. */
    method HandleMessage(e: Event, clock: Clock, w: World) returns (h: Handled)
      modifies this
      ensures Debounced(old(lastSignalTime), clock.handler) ==> h == TooSoon
      ensures !Debounced(old(lastSignalTime), clock.handler) && !(e.fromBot && !e.forwarded) ==> h == NotFromBot
      ensures lastSignalTime == NextSignalTime(old(lastSignalTime), clock.handler, e)
      ensures !Taken(old(lastSignalTime), clock.handler, e) ==>
        marketsCache == old(marketsCache) && marketsCacheTime == old(marketsCacheTime)
      ensures Taken(old(lastSignalTime), clock.handler, e) ==>
        (h, Cache(marketsCache, marketsCacheTime))
        == Signal(configs, Cache(old(marketsCache), old(marketsCacheTime)), deposit, e.text, clock, w)
      ensures apiCallTimes == old(apiCallTimes)
    {
      if lastSignalTime.Some? && clock.handler - lastSignalTime.value < MinInterval {
        return TooSoon;
      }
      if !(e.fromBot && !e.forwarded) {
        return NotFromBot;
      }
      lastSignalTime := Some(clock.handler);
      var symbol := ExtractSymbol(e.text);
      var venues := ExtractExchange(e.text);
      if symbol.None? {
        return NoSymbol;
      }
      if venues.0.None? {
        return VenuesMissing;
      }
      var buy, sell := venues.0.value, venues.1.value;
      var buyPrice, sellPrice := CalculatePrices(symbol.value, buy, sell, w);
      var verdict := ValidateArbitrage(Request(symbol.value, buy, sell, buyPrice, sellPrice), w,
                                       clock.buyMarkets, clock.sellMarkets);
      if verdict.Rejected? {
        return Declined(verdict.failed);
      }
      var bought, started := ExecuteTrades(buy, sell, symbol.value, deposit, w.run);
      return Executed(bought, started);
    }
  }
}
