# Signal-to-trade core of the arbitrage bot

This project models the decision logic of a Telegram-driven arbitrage bot in Dafny, and proves properties of that model. The bot reads a signal message naming a trading pair and two venues (for example `ABC/USDT` and `MEXC→Gate`). It debounces signals to at most one a minute. It prices the trade by walking both order books. Then it runs a fail-fast validation chain: credentials, roles, listings, prices, profit and margin. On success it starts a buy script, waits for it and reads the filled amount from its output. Finally it starts a sell script carrying that amount, and does not wait for it.

The model follows the program's structure:

| module | file | what it holds |
|---|---|---|
| `Text` | text.dfy | Character classes, maximal runs (the building block of the regular expressions), ASCII lowercasing, `startswith`, and `split` with its inverse `join`. |
| `Messages`, `MessageFacts` | messages.dfy, message_facts.dfy | `extract_symbol` and `extract_exchange` as scanners. Reference predicates say what a match of each pattern is, and proofs show the scanners return the leftmost, longest match. |
| `Numerals` | numerals.dfy | `str` of the deposit, and the number read from the `FILLED_AMOUNT:` line. |
| `Books` | books.dfy | The buy and sell order-book walks. Each is a loop proved equal to a recursive specification. |
| `Venues` | venues.dfy | The credential configuration, the buyer and seller roles, `_validate_api_keys`, and the dispatch of `check_margin_availability`. |
| `Markets` | markets.dfy | The five-minute market cache behind `get_markets`. |
| `RateLimit` | ratelimit.dfy | `_check_rate_limit`. |
| `Validation` | validation.dfy | `validate_arbitrage` as an ordered chain of checks. |
| `Trades` | trades.dfy | `_run_trade_script` and `execute_trades`. |
| `Bot` | bot.dfy | The `ArbitrageBot` class: its fields, its methods and the message handler. |

State the source updates in place is a class: `ArbitrageBot`, with `last_signal_time`, `markets_cache`, `markets_cache_time` and `api_call_times` as fields. Its state-changing methods carry `modifies` clauses and are proved against the functions `Lookup`, `CheckRate`, `Validate` and `Signal`; `CalculatePrices` changes nothing and is proved against `Prices`. The two order-book walks and the scan of the buy script's output are methods with loop invariants, each proved equal to a recursive specification function. The credential loop of `_validate_api_keys` is the recursive function `Venues.FirstKeyProblem`, and `Venues.FirstKeyProblemIsFirst` states what it finds. The properties are lemmas about those functions.

The outside world is made of oracles:
- `fetch_order_book` and `fetch_ticker` become `World.orderBook` and `World.ticker`, where `None` means the fetch raised.
- `load_markets` becomes `World.load` (and `Oracles.load`).
- The Gate and KuCoin margin lookups become `MarginSource`.
- Starting a process and waiting for it becomes `World.run`: the command maps to `SpawnFailed` or `Exited(code, stdout)`.
- The process environment becomes a map.
- The three `datetime.now()` readings of one message become `Clock`, as integer microseconds.

The processes that were started and waited for to completion, or started without waiting, are returned as a sequence of commands, so the lemmas can say which scripts ran with which arguments.

Some behaviours of the code are worth stating outright:
- **Buy average, deposit 15.** For a deposit of 15 over asks `10×1, 11×2`, the walk takes the first level whole and 5/11 of the second, so the average is (10 + 5) / (1 + 5/11) = 165/16 = 10.3125 (`Books.BuyAverageFifteen`).
- **Deposit deeper than the book.** A deposit larger than the book's total cost is not rejected. For a deposit of 100 over the same book, the walk buys the whole book and returns 32/3 (`Books.BuyAverageShallowBook`).
- **Several sentinel lines.** When more than one `FILLED_AMOUNT:` line is printed, the code uses the first. It returns nothing if that line does not parse, even when a later one would (`Trades.FillIsFirstSentinel`, `Trades.FirstSentinelDecides`).
- **No venues in the message.** When no venues are found, `.upper()` on `None` at xyz415.py:421 raises before the prices are computed. Validation never sees missing venues. The handler has already recorded the signal time by then. The model ends such a message as `VenuesMissing` (`Bot.Signal`, `Bot.ArbitrageBot.HandleMessage`).
- **A filled buy hands over.** `mexc` buys `ABC/USDT` and its script prints `FILLED_AMOUNT:12.5`: the sell script on `gate` is started with 12.5 (`Trades.FilledBuyHandsOver`).
- **No sentinel, no sell.** When the buy script prints no sentinel, no sell script is started (`Trades.MissingSentinelStopsSell`).
- **Same venue twice.** A signal that names the same venue twice is rejected before any market is loaded (`Validation.SameVenueRejected`).

## Model

| member | source | states |
|---|---|---|
| Text.Lower | src/utils.py:23-24 | `.lower()` keeps the length and maps each position through ASCII lowercasing |
| Text.LowerOfLetters | src/utils.py:23-24 | lowercasing ASCII letters gives lowercase letters, so the venue names it produces pass the `^[a-z]+$` check |
| Text.Split | xyz415.py:367 | `split` gives at least one piece and no piece contains the separator |
| Text.SplitCount | xyz415.py:225 | there is exactly one more piece than there are separators in the string |
| Text.JoinSplit | xyz415.py:367 | joining the pieces of a split with the separator gives back the original string |
| Text.SplitJoin | xyz415.py:367 | splitting a join of separator-free pieces gives back the pieces |
| Text.SplitWhole | xyz415.py:367 | a string without the separator splits into itself alone |
| Text.SplitAfterPiece | xyz415.py:370 | a separator-free prefix followed by the separator splits off as the first piece |
| Text.AfterFirstPrefix | xyz415.py:370 | `split(':', 1)[1]` after a separator-free prefix and the separator is exactly the rest of the line |
| Messages.FindSymbol | src/utils.py:13 | the scan finds a position where the pattern matches, with the greedy end, and no earlier position matches; `None` only when no position matches |
| Messages.ExchangeSpanAt | src/utils.py:21 | an attempt at a position that succeeds yields label, colon, white space, buy venue, separator and sell venue runs there, with the sell run maximal |
| Messages.FindExchange | src/utils.py:21 | the scan returns the first position whose attempt succeeds; `None` only when every attempt fails |
| Messages.ExtractExchange | src/utils.py:19-26 | the buy venue is present exactly when the sell venue is: `(None, None)` or both |
| Messages.ShapeShift | src/utils.py:21 | a match inside a slice is the same as the runs at the shifted positions of the message |
| MessageFacts.PairTokenIsFound | src/utils.py:13 | every match of `[A-Z]+/[A-Z]+` at a position is seen by the scanner and ends no later than its match |
| MessageFacts.ExchangeTokenIsFound | src/utils.py:21 | every match of the venue pattern at a position is seen by the scanner, with the same groups, and ends no later |
| MessageFacts.NoPairTokenIn | src/utils.py:13-16 | where the scanner finds nothing, no substring matches the pair pattern |
| MessageFacts.NoExchangeTokenIn | src/utils.py:21-26 | where the scanner finds nothing, no substring matches the venue pattern |
| MessageFacts.ExtractSymbolIsLeftmostLongest | src/utils.py:12-17 | a returned symbol is a substring that matches the pattern, cannot be extended by a capital on either side, and has no match starting further left; `None` means no substring matches |
| MessageFacts.ExtractExchangeIsLeftmostLongest | src/utils.py:19-26 | returned venues are the lowercased groups of the leftmost match, whose sell group cannot be extended; `(None, None)` means no substring matches |
| MessageFacts.ExtractSymbolDropsDigits | src/utils.py:13 | `"1INCH/USDT"` gives `"INCH/USDT"`: digits are not capitals |
| MessageFacts.ExtractExchangeRejectsLongArrow | src/utils.py:21 | `"A->B"` gives `(None, None)`: the separator is one character |
| MessageFacts.ExtractExchangeExample | src/utils.py:21-25 | `"Signal: MEXC→Gate"` gives `("mexc", "gate")` |
| Numerals.NatToDecimal | xyz415.py:302 | `str(n)` is a canonical numeral: digits only, a leading zero only for 0 |
| Numerals.DecimalValue | xyz415.py:302 | reading `str(n)` back as digits gives `n` |
| Numerals.DecimalOfValue | xyz415.py:302 | writing the value of a canonical numeral gives the numeral back |
| Numerals.TenIsWrittenTen | xyz415.py:21 | the bot's deposit of 10 reaches the scripts as `"10"` |
| Numerals.ParseDecimal | xyz415.py:370 | a number is returned only for text of the decimal grammar: optional sign, digits, optional point and fraction |
| Numerals.DigitsValueFront | xyz415.py:370 | a numeral's value is its leading digit times `10^(n-1)` plus the value of the remaining digits |
| Numerals.FractionOfDigits | xyz415.py:370 | the digits after a point denote their integer value over `10^n`, `n` the number of digits |
| Numerals.ParseFractional | xyz415.py:370 | for every sign (none, `+`, `-`) and digit strings `i`, `f`, not both empty, `sign + i + "." + f` parses to `i + f / 10^|f|` with the sign applied |
| Numerals.ParseWhole | xyz415.py:370 | for every sign and non-empty digit string `i`, `sign + i` parses to the value of `i` with the sign applied |
| Numerals.ParseDecimalAccepts | xyz415.py:370 | the parser accepts exactly the text of the decimal grammar |
| Numerals.ParseNatToDecimal | xyz415.py:370 | `float(str(n)) == n` |
| Numerals.ParseFractionExample | xyz415.py:370 | `"0.5"` parses to 0.5 |
| Numerals.ParseTwelveAndAHalf | xyz415.py:370 | `"12.5"` parses to 12.5 |
| Numerals.ParseRejectsNone | xyz415.py:370-376 | `"None"`, what a script prints when no fill is known, is not a number |
| Books.BuyStep | src/utils.py:103-112 | one level taken keeps cost plus remaining deposit constant |
| Books.BuyStepWholeOrRest | src/utils.py:103-112 | a level whose cost fits is taken whole; otherwise the amount bought grows by the remainder over the price, the remainder becomes 0 and exactly the remainder is spent |
| Books.BuyRunTotals | src/utils.py:96-112 | the cost is the sum of price times amount over the fills and the amount bought is the sum of the amounts: whole levels while they fit, then the remainder over the next price |
| Books.BuyConsumed | src/utils.py:96-102 | the levels the walk takes from all have at least two entries |
| Books.AverageBuyPrice | src/utils.py:87-124 | the loop, with its `continue` and `break`, returns the average the specification walk gives |
| Books.BuyRunAccounting | src/utils.py:92-112 | spent plus remaining always equals the deposit, the remainder never goes negative, and the cost never exceeds the deposit |
| Books.BuyRunSpent | src/utils.py:101-102 | once the deposit is spent, the rest of the book changes nothing and is not taken from |
| Books.BuyRunSkipsMalformed | src/utils.py:96-99 | inserting an item with fewer than two entries anywhere changes neither the result nor the levels taken |
| Books.BuyRunBounds | src/utils.py:100-112 | with the prices taken in `[lo, hi]`, `lo > 0`, and non-negative volumes, the cost stays between `lo` and `hi` times the amount |
| Books.BuyAverageBounds | src/utils.py:100-118 | the average buy price lies between the lowest and highest price among the levels taken |
| Books.BuyAverageMeaning | src/utils.py:114-118 | `None` exactly when nothing was bought; otherwise average times amount equals total cost |
| Books.BuyAverageFifteen | src/utils.py:87-120 | deposit 15 over asks `10×1, 11×2` gives 165/16 |
| Books.BuyAverageShallowBook | src/utils.py:87-120 | deposit 100 over the same asks gives 32/3, not `None` |
| Books.SellBase | src/utils.py:128-130 | a base amount exists exactly when the ticker has a non-zero `last or bid` price, and times that price it gives the deposit |
| Books.SellStep | src/utils.py:142-149 | one bid taken keeps sold plus remaining constant |
| Books.AverageSellPrice | src/utils.py:126-161 | the method returns the average the specification walk gives, including `None` for every exception path |
| Books.SellLoop | src/utils.py:135-149 | the loop over the bids, which fails on an item that cannot be unpacked, computes the specification walk |
| Books.SellConsumed | src/utils.py:139-141 | the bids the walk takes from all have exactly two entries |
| Books.SellRunAccounting | src/utils.py:135-149 | sold plus remaining is always the base amount; with a non-negative start and non-negative volumes taken, the amount sold stays between 0 and the base amount |
| Books.SellRunBounds | src/utils.py:139-149 | with the bid prices taken in `[lo, hi]`, revenue stays between `lo` and `hi` times the amount sold |
| Books.SellAverageBounds | src/utils.py:139-155 | the average sell price lies between the lowest and highest price among the bids taken |
| Books.SellRunTotals | src/utils.py:142-149 | revenue is the sum of price times volume taken, and the amount sold is the sum of the volumes taken |
| Books.SellAverageMeaning | src/utils.py:151-155 | `None` exactly when nothing was sold or an item could not be unpacked; otherwise average times amount sold equals revenue |
| Books.SellAverageExample | src/utils.py:126-157 | last price 10 and deposit 10 over bids `9×0.5, 8×2` gives 8.5 |
| Books.SellBaseFallsBackToBid | src/utils.py:129 | a zero last price is falsy, so the bid is used; with no bid there is no result |
| Books.SellMalformedAfterFill | src/utils.py:139-141 | an item that cannot be unpacked right after the amount is used up still makes the result `None` |
| Venues.ExchangeConfigs | xyz415.py:49-88 | the configuration has exactly the five venues |
| Venues.RolesDisjoint | xyz415.py:91-92 | no venue is both a buyer and a seller |
| Venues.RolesConfigured | xyz415.py:49-92 | every buyer and seller venue has a configuration |
| Venues.VenueProblem | xyz415.py:157-175 | a venue's checks report no problem exactly when it is known and has a key, a secret and, where needed, a password; a problem names that venue |
| Venues.FirstKeyProblemIsFirst | xyz415.py:155-176 | the loop reports a problem exactly when some venue is not ready, and the problem reported is that of the first venue not ready |
| Venues.ValidateApiKeysIff | xyz415.py:153-178 | `_validate_api_keys` holds exactly when both venues are ready |
| Venues.ReadyFromEnv | xyz415.py:49-88 | readiness in terms of the environment variables, venue by venue; an unknown venue is never ready |
| Venues.MarginOfPair | xyz415.py:222-251 | for `BASE/QUOTE`, KuCoin is asked whether `BASE` is in its currency list and every other venue asks Gate about `BASE` |
| Venues.PairSplits | xyz415.py:225 | `BASE/QUOTE` splits on `/` into exactly the two sides |
| Venues.GateCurrencyOfBase | src/utils.py:190 | the currency Gate is asked about for `BASE_USDT` is `BASE` |
| Venues.MarginNeedsOneSlash | xyz415.py:225 | a symbol without exactly one slash never has margin (the unpacking raises) |
| Markets.Lookup | xyz415.py:108-128 | after a lookup the venue is cached, the result is its cached list, and the cache is stamped |
| Markets.LookupHit | xyz415.py:118-128 | within the window a cached venue is answered from the cache, whatever the loader says, and nothing changes |
| Markets.LookupMiss | xyz415.py:118-126 | within the window an uncached venue is loaded and added alone, and a failed load caches `[]` |
| Markets.LookupExpired | xyz415.py:113-116 | on expiry everything cached before is dropped and the stamp becomes `now` |
| Markets.LookupStamp | xyz415.py:113-116 | the stamp changes only on expiry |
| Markets.FiveMinutesIsFresh | xyz415.py:114 | the window is closed: exactly five minutes old is still fresh, one microsecond more is expired |
| Markets.LookupRemembers | xyz415.py:118-128 | a second lookup of the same venue at the same moment returns the same list without the loader and changes nothing |
| RateLimit.Recent | xyz415.py:206-209 | the pruned list keeps exactly the times after the cutoff, each as often as it was logged, and drops every other |
| RateLimit.RecentAppend | xyz415.py:206-209 | the comprehension keeps the log's order: pruning a concatenation is the concatenation of the pruned parts |
| RateLimit.CheckRate | xyz415.py:199-220 | afterwards the venue has a list whose times are all within the last minute, and no other venue's list changes |
| RateLimit.CheckRateDecision | xyz415.py:213-220 | the call is allowed exactly when fewer than 60 times remain; if allowed exactly `now` is appended, if refused nothing is |
| RateLimit.CheckRateCap | xyz415.py:201-219 | at most 60 logged times per venue is an invariant of the check; a venue never seen gets the log `[now]` and the call is allowed |
| RateLimit.RefusalIsStable | xyz415.py:204-216 | a refused call repeated at the same moment is refused again with the same log |
| RateLimit.RecentIdempotent | xyz415.py:206-209 | pruning a list already pruned changes nothing |
| Validation.ValidateIsFirstFailure | xyz415.py:253-299 | a rejection names a failing check with every earlier check passing, and acceptance holds exactly when every check passes |
| Validation.AcceptedIsProfitable | xyz415.py:283-289 | acceptance needs both prices, the buy price strictly below the sell price, and both venues ready |
| Validation.MarginAskedLast | xyz415.py:291-294 | unless the chain reaches the margin check, the margin lookups do not affect its outcome |
| Validation.MarketsAfterRoles | xyz415.py:259-272 | a chain that stops at the credentials or the roles neither changes the cache nor depends on the loader |
| Validation.SameVenueRejected | xyz415.py:263-269 | the same venue twice is rejected by the credential or role checks, with the cache untouched |
| Trades.SafeSymbolIff | xyz415.py:320 | the symbol scan accepts exactly the symbols of `[A-Z0-9]+/[A-Z0-9]+` |
| Trades.DepositTextIsSafe | xyz415.py:324 | `str` of the deposit always passes the deposit check |
| Trades.ExtractedSymbolIsSafe | xyz415.py:320 | a symbol found in a message passes the symbol check |
| Trades.ExtractedVenuesAreSafe | xyz415.py:316 | venue names found in a message pass the venue check |
| Trades.ParseFillAfterSentinel | xyz415.py:368-370 | on a sentinel line the amount is read from what follows the sentinel |
| Trades.FirstSentinel | xyz415.py:367-368 | the index returned is that of a sentinel line with none before it, or the number of lines when there is none |
| Trades.FillIsFirstSentinel | xyz415.py:367-383 | the amount comes from the first sentinel line only, and is `None` when there is none |
| Trades.FirstSentinelDecides | xyz415.py:367-376 | a first sentinel line that does not parse gives `None` though a later one would |
| Trades.ScanForFill | xyz415.py:367-383 | the loop with its early returns computes the first-sentinel amount |
| Trades.TradeScript | xyz415.py:311-389 | a failed check of venue, symbol, deposit or amount starts nothing; a started command is `./src/<venue>.py` with the arguments; a waited leg never returns `True` and a leg not waited for never returns an amount |
| Trades.WaitedLegFills | xyz415.py:348-377 | a waited leg yields an amount exactly when the checks pass, the process exits 0 and the first sentinel line parses to that amount |
| Trades.RunTradeScript | xyz415.py:311-389 | the method as written returns what the specification function gives |
| Trades.TradeOutcome | xyz415.py:301-309 | at most two processes are started |
| Trades.ExecuteTrades | xyz415.py:301-309 | the method as written returns what the specification function gives |
| Trades.SellHandOff | xyz415.py:304-309 | a sell process is started exactly when the buy leg reported a positive amount, the sell venue passes its check and the process starts; its command carries exactly that amount |
| Trades.BuyLegFirst | xyz415.py:304 | the first process started is the buy script with the symbol and the deposit, without an amount |
| Trades.ZeroFillStopsSell | xyz415.py:306 | a fill of zero is falsy and starts no sell |
| Trades.HandOver | xyz415.py:304-307 | a buy leg that exits 0 with a positive amount on its first sentinel line starts the sell with that amount, and the result is that amount |
| Trades.NoFillNoSell | xyz415.py:304-309 | a buy leg that exits 0 without a readable amount starts no sell |
| Trades.SentinelOnSecondLine | xyz415.py:367-372 | in two-line output whose second line is the sentinel, the amount is that line's number |
| Trades.ScenarioArguments | xyz415.py:316-328 | `mexc`, `gate` and `ABC/USDT` pass the checks, and the deposit and script paths are as the scripts receive them |
| Trades.ScenarioOutputFills | xyz415.py:367-372 | the output `bought` then `FILLED_AMOUNT:12.5` yields 12.5 |
| Trades.FilledBuyHandsOver | xyz415.py:301-309 | the 12.5 scenario starts the mexc buy and then the gate sell with 12.5 |
| Trades.MissingSentinelStopsSell | xyz415.py:301-309 | a buy printing no sentinel starts only the buy script and yields nothing |
| Bot.SignalsSpaced | xyz415.py:397-409 | two signals taken one after another are at least a minute apart |
| Bot.OneMinuteLaterIsTaken | xyz415.py:397-398 | the debounce interval is half-open: a message exactly one minute later is taken, one a microsecond earlier is not |
| Bot.Prices | xyz415.py:130-151 | there is no buy price for a venue that is not a buyer and no sell price for a venue that is not a seller |
| Bot.Signal | xyz415.py:409-429 | `NoSymbol` exactly when no pair is found; `VenuesMissing` exactly when a pair but no venues are found; both leave the cache as it was |
| Bot.ExecutedMeans | xyz415.py:413-429 | trades run only for a pair with a buyer and a seller venue, both ready, and a known buy price strictly below a known sell price; the buy script runs first, and a sell only with the positive amount bought |
| Bot.ArbitrageBot.constructor | xyz415.py:18-92 | deposit 10, credentials from the environment, nothing cached and no signal yet |
| Bot.ArbitrageBot.GetMarkets | xyz415.py:108-128 | the cache and the result are those of `Lookup`; the other fields are unchanged |
| Bot.ArbitrageBot.CheckRateLimit | xyz415.py:199-220 | the call log and the answer are those of `CheckRate`; the other fields are unchanged |
| Bot.ArbitrageBot.CalculatePrices | xyz415.py:130-151 | the two walks give the prices of `Prices` |
| Bot.ArbitrageBot.ValidateArbitrage | xyz415.py:253-299 | the verdict and the cache are those of `Validate`, with each `get_markets` call at its own clock reading |
| Bot.ArbitrageBot.HandleMessage | xyz415.py:391-432 | a debounced message gives `TooSoon` and changes nothing; one not from a bot gives `NotFromBot` and changes nothing; any other records its time, also when no pair or venues are found, and ends as `Signal` says |

## Left out

- Telegram: the client, `start()` and the event objects are left out. A message is its text plus two flags, the sender is a bot and the message is not forwarded.
- `get_exchange` and the ccxt objects are left out; the venues' answers are the `World` oracles. `calculate_prices` catches exceptions that, after the walks have caught their own, cannot arise for a buyer or seller venue.
- The network margin lookups are the `MarginSource` oracle. The symbol split on `/` and the dispatch by venue are modelled.
- The HTTP request signing, the per-venue trade scripts, the dashboard and the obsolete code are left out; only the process interface of the trade scripts is modelled.
- Printing and the log sanitiser `_sanitize_log_output` are left out: they only affect the logs. Standard error is read only for logging, so a process outcome has no standard error.
- `use_validation` is the constant `True`, so the branch that trades without validation is left out. `simultaneously` is read only by the startup message (xyz415.py:96), so it is left out too.
- Nothing in xyz415.py calls `_check_rate_limit`, so `Bot.ArbitrageBot.HandleMessage` leaves the call log unchanged.
- Bot.ArbitrageBot.HandleMessage, Bot.SignalsSpaced: handlers are modelled as running one at a time. `handle_message` is a coroutine that awaits the sender lookup (xyz415.py:403) between the debounce test (xyz415.py:397-398) and recording the time (xyz415.py:409). Two handlers interleaved at that await could both pass the test and take two signals less than a minute apart; the model does not capture that interleaving.
- Times are integer microseconds, the resolution of `datetime`. The clock readings are parameters of the handler.
- Prices, volumes and amounts are exact reals. Rounding, infinities, NaN and negative zero of Python floats are not modelled.
- Books.BuyAverage, Books.SellAverage: an order book is modelled as lists of numeric levels and a ticker as two optional prices. The exceptions raised by non-numeric entries or missing dictionary keys are not modelled; a failed fetch is `None`.
- Numerals.ParseDecimal: reads only the plain decimal grammar with ASCII digits. `float()` would also turn surrounding white space, exponents, `inf`, `nan`, underscores and non-ASCII decimal digits (such as Arabic-Indic or full-width digits) into a number; for such a sentinel line the model gives no amount.
- Trades.Command: the sell amount is carried as a number; the text `str(float)` makes of it is not modelled.
- Trades.SafeVenue, Trades.SafeSymbol, Trades.SafeDeposit: `$` is read as the end of the string and `\d` as an ASCII digit. Python's `$` also matches before one trailing newline, and `\d` also matches other Unicode digits; the model rejects those arguments.
- Trades.TradeScript: the `isinstance` check on the amount always passes for the float that `float()` returns, so only the non-negative check is modelled. Any exception while starting or waiting for a process is `SpawnFailed`, and a `SpawnFailed` leg records no command. A process that was started but whose `communicate()` raised (xyz415.py:349, for instance output that does not decode as text) is therefore not listed among the processes started.
