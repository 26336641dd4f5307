/**
  The trade executor of xyz415.py: `_run_trade_script`, which checks its
  arguments against three patterns before it starts `python3
  ./src/<venue>.py <symbol> <deposit> [<amount>]`, and `execute_trades`, which
  runs the buy script, waits for it, reads the amount bought from its output,
  and hands that amount to the sell script, which it does not wait for.

  Starting a process is an oracle, `run`, from the command to what became of
  it: it could not be started, or it exited with a code and an output. A
  process that was started is recorded in the result, so the lemmas can say
  which scripts were launched and with what arguments.
*/
module Trades {
  import opened Wrappers
  import opened Text
  import opened Numerals
  import opened Messages
  import opened MessageFacts

  // ---------------------------------------------------------------------------
  // Argument checks
  // ---------------------------------------------------------------------------

  /** `re.match(r'^[a-z]+$', venue)`. */
  predicate SafeVenue(v: string) {
    |v| > 0 && Span(v, 0, |v|, Lowercase)
  }

  /** `re.match(r'^[A-Z0-9]+/[A-Z0-9]+$', symbol)`, as a scan: one run of capitals
      and digits, a slash, and another run that reaches the end. */
  predicate SafeSymbol(s: string) {
    var k := RunEnd(s, 0, UpperOrDigit);
    0 < k < |s| - 1 && s[k] == '/' && RunEnd(s, k + 1, UpperOrDigit) == |s|
  }

  /** Reference: the whole symbol is `[A-Z0-9]+/[A-Z0-9]+` with the slash at `k`. */
  predicate SymbolShape(s: string, k: nat) {
    0 < k < |s| - 1 && s[k] == '/' && Span(s, 0, k, UpperOrDigit) && Span(s, k + 1, |s|, UpperOrDigit)
  }

  /** `re.match(r'^\d+$', deposit)`. */
  predicate SafeDeposit(d: string) {
    |d| > 0 && Span(d, 0, |d|, Digit)
  }

  /** The scan accepts exactly the symbols of the pattern. */
  lemma SafeSymbolIff(s: string)
    ensures SafeSymbol(s) <==> exists k: nat :: SymbolShape(s, k)
  {
    if SafeSymbol(s) {
      assert SymbolShape(s, RunEnd(s, 0, UpperOrDigit));
    }
    if exists k: nat :: SymbolShape(s, k) {
      var k: nat :| SymbolShape(s, k);
      RunEndIs(s, 0, k, UpperOrDigit);
      RunEndIs(s, k + 1, |s|, UpperOrDigit);
    }
  }

  /** `str(deposit)` always passes the deposit check. */
  lemma DepositTextIsSafe(n: nat)
    ensures SafeDeposit(NatToDecimal(n))
  {
  }

  /** A symbol found by `extract_symbol` passes the symbol check. */
  lemma ExtractedSymbolIsSafe(text: string)
    requires ExtractSymbol(text).Some?
    ensures SafeSymbol(ExtractSymbol(text).value)
  {
    var r := FindSymbol(text, 0).value;
    var m := text[r.0..r.1];
    var k := RunEnd(text, r.0, Upper) - r.0;
    SymbolAtMatches(text, r.0);
    assert PairShapeAt(m, k);
    assert Span(m, 0, k, UpperOrDigit) && Span(m, k + 1, |m|, UpperOrDigit);
    assert SymbolShape(m, k);
    SafeSymbolIff(m);
  }

  /** Venue names found by `extract_exchange` pass the venue check. */
  lemma ExtractedVenuesAreSafe(text: string)
    requires ExtractExchange(text).0.Some?
    ensures SafeVenue(ExtractExchange(text).0.value) && SafeVenue(ExtractExchange(text).1.value)
  {
    var v := FindExchange(text, 0).value;
    assert RunsAt(text, v.start, v.colon, v.buyStart, v.sep, v.stop);
    SpanShift(text, v.buyStart, v.sep, 0, v.sep - v.buyStart, Letter);
    SpanShift(text, v.sep + 1, v.stop, 0, v.stop - v.sep - 1, Letter);
    LowerOfLetters(text[v.buyStart..v.sep]);
    LowerOfLetters(text[v.sep + 1..v.stop]);
  }

  // ---------------------------------------------------------------------------
  // The amount bought: the FILLED_AMOUNT: line of the buy script's output
  // ---------------------------------------------------------------------------

  const Sentinel: string := "FILLED_AMOUNT:"

  /** `float(line.split(':', 1)[1])` on the restricted grammar. */
  function ParseFill(line: string): Option<real> {
    match AfterFirst(line, ':')
    case None => None
    case Some(rest) => ParseDecimal(rest)
  }

  /** On a sentinel line the number is read from what follows the sentinel. */
  lemma ParseFillAfterSentinel(line: string)
    requires StartsWith(line, Sentinel)
    ensures ParseFill(line) == ParseDecimal(line[|Sentinel|..])
  {
    var name := "FILLED_AMOUNT";
    assert ':' !in name;
    assert line == name + [':'] + line[|Sentinel|..];
    AfterFirstPrefix(name, ':', line[|Sentinel|..]);
  }

  /** The scan of the output lines: the first sentinel line decides, whether or
      not its number parses; without one there is no amount. */
  function FillFromLines(lines: seq<string>): Option<real> {
    if lines == [] then None
    else if StartsWith(lines[0], Sentinel) then ParseFill(lines[0])
    else FillFromLines(lines[1..])
  }

  /** The index of the first sentinel line, or the number of lines when there is none. */
  function FirstSentinel(lines: seq<string>): (i: nat)
    ensures i <= |lines|
    ensures i < |lines| ==> StartsWith(lines[i], Sentinel)
    ensures forall j :: 0 <= j < i ==> !StartsWith(lines[j], Sentinel)
  {
    if lines == [] then 0
    else if StartsWith(lines[0], Sentinel) then 0
    else 1 + FirstSentinel(lines[1..])
  }

  /** The scan reads the first sentinel line and only that one. */
  lemma {:induction false} FillIsFirstSentinel(lines: seq<string>)
    ensures FillFromLines(lines) ==
      if FirstSentinel(lines) < |lines| then ParseFill(lines[FirstSentinel(lines)]) else None
    decreases |lines|
  {
    if lines != [] && !StartsWith(lines[0], Sentinel) {
      FillIsFirstSentinel(lines[1..]);
      var i := FirstSentinel(lines);
      if i < |lines| {
        assert lines[1..][i - 1] == lines[i];
      }
    }
  }

  /** A first sentinel line that does not parse gives no amount, even when a
      later sentinel line would. */
  lemma FirstSentinelDecides()
    ensures FillFromLines(["FILLED_AMOUNT:None", "FILLED_AMOUNT:0.5"]) == None
  {
    var lines := ["FILLED_AMOUNT:None", "FILLED_AMOUNT:0.5"];
    assert StartsWith(lines[0], Sentinel);
    ParseFillAfterSentinel(lines[0]);
    assert lines[0][|Sentinel|..] == "None";
    ParseRejectsNone();
  }

  /** The loop of `_run_trade_script` over `stdout.split('\n')`, with its early returns. */
  method ScanForFill(lines: seq<string>) returns (fill: Option<real>)
    ensures fill == FillFromLines(lines)
  {
    var i := 0;
    while i < |lines|
      invariant 0 <= i <= |lines|
      invariant FillFromLines(lines[i..]) == FillFromLines(lines)
    {
      assert lines[i..][0] == lines[i] && lines[i..][1..] == lines[i + 1..];
      var line := lines[i];
      if |Sentinel| <= |line| && line[..|Sentinel|] == Sentinel {
        var rest := AfterFirst(line, ':');
        if rest.None? {
          return None;
        }
        return ParseDecimal(rest.value);
      }
      i := i + 1;
    }
    assert lines[i..] == [];
    return None;
  }

  // ---------------------------------------------------------------------------
  // _run_trade_script
  // ---------------------------------------------------------------------------

  /** The argument vector after `python3`: the script, the symbol, the deposit,
      and for the sell leg the amount (as a number: its `str` is not modelled). */
  datatype Command = Command(script: string, symbol: string, deposit: string, amount: Option<real>)

  /** What became of a process: it could not be started, or it ran to an exit
      code with this standard output. */
  datatype ProcessOutcome = SpawnFailed | Exited(code: int, stdout: string)

  /** What `_run_trade_script` returns: `None`, a float amount, or `True` (a leg
      that was started and not waited for). */
  datatype ScriptResult = NoResult | Filled(amount: real) | Launched

  /** `if filled_amount:`: `True` and every amount except zero are truthy. */
  predicate FillIsTruthy(r: ScriptResult) {
    r.Launched? || (r.Filled? && r.amount != 0.0)
  }

  function ScriptPath(venue: string): string {
    "./src/" + venue + ".py"
  }

  /** `_run_trade_script(venue, symbol, deposit, wait, fill)`: the result and the
      command started, if one was. */
  function TradeScript(venue: string, symbol: string, deposit: string, wait: bool, fill: Option<real>,
                       run: Command -> ProcessOutcome): (r: (ScriptResult, Option<Command>))
    ensures !SafeVenue(venue) || !SafeSymbol(symbol) || !SafeDeposit(deposit) || (fill.Some? && fill.value < 0.0)
      ==> r == (NoResult, None)
    ensures r.1.Some? ==> r.1.value == Command(ScriptPath(venue), symbol, deposit, fill)
    ensures r.1.None? ==> r.0 == NoResult
    ensures wait ==> !r.0.Launched?
    ensures !wait ==> !r.0.Filled?
  {
    if !SafeVenue(venue) || !SafeSymbol(symbol) || !SafeDeposit(deposit) then (NoResult, None)
    else if fill.Some? && fill.value < 0.0 then (NoResult, None)
    else
      var cmd := Command(ScriptPath(venue), symbol, deposit, fill);
      match run(cmd)
      case SpawnFailed => (NoResult, None)
      case Exited(code, out) =>
        if !wait then (Launched, Some(cmd))
        else if code != 0 then (NoResult, Some(cmd))
        else
          match FillFromLines(Split(out, '\n'))
          case None => (NoResult, Some(cmd))
          case Some(a) => (Filled(a), Some(cmd))
  }

  /** The leg that is waited for yields an amount exactly when its arguments pass,
      the script exits with code 0, and the first sentinel line of its output
      parses to that amount. */
  lemma WaitedLegFills(venue: string, symbol: string, deposit: string, fill: Option<real>,
                       run: Command -> ProcessOutcome, a: real)
    ensures TradeScript(venue, symbol, deposit, true, fill, run).0 == Filled(a) <==>
      SafeVenue(venue) && SafeSymbol(symbol) && SafeDeposit(deposit) && !(fill.Some? && fill.value < 0.0)
      && var out := run(Command(ScriptPath(venue), symbol, deposit, fill));
      out.Exited? && out.code == 0 && FillFromLines(Split(out.stdout, '\n')) == Some(a)
  {
  }

  /** The script as written: the checks, the start, and for a leg that is waited
      for, the exit code and the scan of the output. */
  method RunTradeScript(venue: string, symbol: string, deposit: string, wait: bool, fill: Option<real>,
                        run: Command -> ProcessOutcome)
    returns (result: ScriptResult, started: Option<Command>)
    ensures (result, started) == TradeScript(venue, symbol, deposit, wait, fill, run)
  {
    if !SafeVenue(venue) || !SafeSymbol(symbol) || !SafeDeposit(deposit) {
      return NoResult, None;
    }
    if fill.Some? && fill.value < 0.0 {
      return NoResult, None;
    }
    var cmd := Command(ScriptPath(venue), symbol, deposit, fill);
    var outcome := run(cmd);
    if outcome.SpawnFailed? {
      return NoResult, None;
    }
    if !wait {
      return Launched, Some(cmd);
    }
    if outcome.code != 0 {
      return NoResult, Some(cmd);
    }
    var amount := ScanForFill(Split(outcome.stdout, '\n'));
    if amount.None? {
      return NoResult, Some(cmd);
    }
    return Filled(amount.value), Some(cmd);
  }

  // ---------------------------------------------------------------------------
  // execute_trades
  // ---------------------------------------------------------------------------

  function Started(c: Option<Command>): seq<Command> {
    if c.Some? then [c.value] else []
  }

  /** `execute_trades(symbol, buy, sell)` with the bot's deposit: the buy leg's
      result and the commands started, in order. */
  function TradeOutcome(buy: string, sell: string, symbol: string, deposit: nat,
                  run: Command -> ProcessOutcome): (r: (ScriptResult, seq<Command>))
    ensures |r.1| <= 2
  {
    var amount := NatToDecimal(deposit);
    var b := TradeScript(buy, symbol, amount, true, None, run);
    if FillIsTruthy(b.0) then
      var s := TradeScript(sell, symbol, amount, false, Some(b.0.amount), run);
      (b.0, Started(b.1) + Started(s.1))
    else (b.0, Started(b.1))
  }

  /** `execute_trades` as written. */
  method ExecuteTrades(buy: string, sell: string, symbol: string, deposit: nat, run: Command -> ProcessOutcome)
    returns (bought: ScriptResult, started: seq<Command>)
    ensures (bought, started) == TradeOutcome(buy, sell, symbol, deposit, run)
  {
    var amount := NatToDecimal(deposit);
    var buyStarted;
    bought, buyStarted := RunTradeScript(buy, symbol, amount, true, None, run);
    started := Started(buyStarted);
    if FillIsTruthy(bought) {
      var sold, sellStarted := RunTradeScript(sell, symbol, amount, false, Some(bought.amount), run);
      started := started + Started(sellStarted);
    }
  }

  /** The sell leg is started exactly when the buy leg reports a positive amount,
      the sell venue's name passes its check and the process can be started; its
      command carries exactly that amount. A fill of zero is falsy and a negative
      one fails the amount check, so neither starts a sell. */
  lemma SellHandOff(buy: string, sell: string, symbol: string, deposit: nat, run: Command -> ProcessOutcome)
    ensures var b := TradeScript(buy, symbol, NatToDecimal(deposit), true, None, run).0;
      var r := TradeOutcome(buy, sell, symbol, deposit, run);
      (|r.1| == 2 <==>
        b.Filled? && b.amount > 0.0 && SafeVenue(sell)
        && run(Command(ScriptPath(sell), symbol, NatToDecimal(deposit), Some(b.amount))).Exited?)
      && (|r.1| == 2 ==> b.Filled? && r.1[1] == Command(ScriptPath(sell), symbol, NatToDecimal(deposit), Some(b.amount)))
  {
    var amount := NatToDecimal(deposit);
    var b := TradeScript(buy, symbol, amount, true, None, run);
    DepositTextIsSafe(deposit);
    if b.0.Filled? {
      assert b.1.Some?;
      assert SafeSymbol(symbol);
    }
  }

  /** The buy leg's command, when one was started, is the first recorded: the
      buy script with the symbol and the deposit, no amount. */
  lemma BuyLegFirst(buy: string, sell: string, symbol: string, deposit: nat, run: Command -> ProcessOutcome)
    ensures var r := TradeOutcome(buy, sell, symbol, deposit, run);
      |r.1| >= 1 ==> r.1[0] == Command(ScriptPath(buy), symbol, NatToDecimal(deposit), None)
  {
  }

  /** A buy leg that reports zero bought starts no sell leg. */
  lemma ZeroFillStopsSell(buy: string, sell: string, symbol: string, deposit: nat, run: Command -> ProcessOutcome)
    requires TradeScript(buy, symbol, NatToDecimal(deposit), true, None, run).0 == Filled(0.0)
    ensures |TradeOutcome(buy, sell, symbol, deposit, run).1| == 1
  {
  }

  /** A buy leg that exits 0 with a positive amount on its first sentinel line
      starts the sell leg with exactly that amount: both commands are recorded,
      buy first, and the result is the amount bought. */
  lemma HandOver(buy: string, sell: string, symbol: string, deposit: nat,
                 run: Command -> ProcessOutcome, a: real)
    requires SafeVenue(buy) && SafeVenue(sell) && SafeSymbol(symbol) && a > 0.0
    requires var out := run(Command(ScriptPath(buy), symbol, NatToDecimal(deposit), None));
      out.Exited? && out.code == 0 && FillFromLines(Split(out.stdout, '\n')) == Some(a)
    requires run(Command(ScriptPath(sell), symbol, NatToDecimal(deposit), Some(a))).Exited?
    ensures TradeOutcome(buy, sell, symbol, deposit, run)
         == (Filled(a), [Command(ScriptPath(buy), symbol, NatToDecimal(deposit), None),
                         Command(ScriptPath(sell), symbol, NatToDecimal(deposit), Some(a))])
  {
    var amount := NatToDecimal(deposit);
    var buyCmd := Command(ScriptPath(buy), symbol, amount, None);
    var sellCmd := Command(ScriptPath(sell), symbol, amount, Some(a));
    DepositTextIsSafe(deposit);
    assert TradeScript(buy, symbol, amount, true, None, run) == (Filled(a), Some(buyCmd));
    assert TradeScript(sell, symbol, amount, false, Some(a), run) == (Launched, Some(sellCmd));
    assert Started(Some(buyCmd)) + Started(Some(sellCmd)) == [buyCmd, sellCmd];
  }

  /** A buy leg that exits 0 without a readable amount starts no sell leg. */
  lemma NoFillNoSell(buy: string, sell: string, symbol: string, deposit: nat, run: Command -> ProcessOutcome)
    requires SafeVenue(buy) && SafeSymbol(symbol)
    requires var out := run(Command(ScriptPath(buy), symbol, NatToDecimal(deposit), None));
      out.Exited? && out.code == 0 && FillFromLines(Split(out.stdout, '\n')) == None
    ensures TradeOutcome(buy, sell, symbol, deposit, run)
         == (NoResult, [Command(ScriptPath(buy), symbol, NatToDecimal(deposit), None)])
  {
    DepositTextIsSafe(deposit);
  }

  /** Output of two lines, the second a sentinel line: its number is the amount. */
  lemma SentinelOnSecondLine(first: string, line: string)
    requires '\n' !in first && '\n' !in line
    requires !StartsWith(first, Sentinel) && StartsWith(line, Sentinel)
    ensures FillFromLines(Split(first + ['\n'] + line, '\n')) == ParseDecimal(line[|Sentinel|..])
  {
    SplitAfterPiece(first, '\n', line);
    SplitWhole(line, '\n');
    assert ([first] + [line])[1..] == [line];
    ParseFillAfterSentinel(line);
  }

  // ---------------------------------------------------------------------------
  // Worked scenarios: MEXC buys ABC/USDT with the bot's deposit, Gate sells
  // ---------------------------------------------------------------------------

  lemma ScenarioArguments(buy: string, sell: string, symbol: string)
    requires buy == "mexc" && sell == "gate" && symbol == "ABC/USDT"
    ensures SafeVenue(buy) && SafeVenue(sell) && SafeSymbol(symbol)
    ensures NatToDecimal(10) == "10"
    ensures ScriptPath(buy) == "./src/mexc.py" && ScriptPath(sell) == "./src/gate.py"
  {
    RunEndIs(symbol, 0, 3, UpperOrDigit);
    RunEndIs(symbol, 4, 8, UpperOrDigit);
    TenIsWrittenTen();
  }

  lemma ScenarioOutputFills(out: string)
    requires out == "bought\nFILLED_AMOUNT:12.5"
    ensures FillFromLines(Split(out, '\n')) == Some(12.5)
  {
    var first, line := "bought", "FILLED_AMOUNT:12.5";
    assert out == first + ['\n'] + line;
    assert line[..|Sentinel|] == Sentinel && line[|Sentinel|..] == "12.5";
    SentinelOnSecondLine(first, line);
    ParseTwelveAndAHalf();
  }

  /** A buy leg that exits 0 and reports 12.5 bought hands exactly that amount to
      the sell leg, which is started and not waited for. */
  lemma FilledBuyHandsOver(run: Command -> ProcessOutcome, buy: string, sell: string, symbol: string,
                            deposit: nat, out: string, buyCmd: Command, sellCmd: Command)
    requires buy == "mexc" && sell == "gate" && symbol == "ABC/USDT" && deposit == 10
    requires out == "bought\nFILLED_AMOUNT:12.5"
    requires buyCmd == Command("./src/mexc.py", symbol, "10", None)
    requires sellCmd == Command("./src/gate.py", symbol, "10", Some(12.5))
    requires run(buyCmd) == Exited(0, out) && run(sellCmd).Exited?
    ensures TradeOutcome(buy, sell, symbol, deposit, run) == (Filled(12.5), [buyCmd, sellCmd])
  {
    ScenarioArguments(buy, sell, symbol);
    assert buyCmd == Command(ScriptPath(buy), symbol, NatToDecimal(deposit), None);
    assert sellCmd == Command(ScriptPath(sell), symbol, NatToDecimal(deposit), Some(12.5));
    ScenarioOutputFills(out);
    HandOver(buy, sell, symbol, deposit, run, 12.5);
  }

  /** A buy leg that exits 0 without a sentinel line reports nothing, and no sell
      leg is started. */
  lemma MissingSentinelStopsSell(run: Command -> ProcessOutcome)
    requires run(Command("./src/mexc.py", "ABC/USDT", "10", None)) == Exited(0, "bought")
    ensures TradeOutcome("mexc", "gate", "ABC/USDT", 10, run)
         == (NoResult, [Command("./src/mexc.py", "ABC/USDT", "10", None)])
  {
    ScenarioArguments("mexc", "gate", "ABC/USDT");
    SplitWhole("bought", '\n');
    assert !StartsWith("bought", Sentinel);
    NoFillNoSell("mexc", "gate", "ABC/USDT", 10, run);
  }
}
