/**
  The two order-book walkers of src/utils.py: `calculate_average_buy_price`
  spends a deposit (in quote currency) on the asks, level by level, and
  `calculate_average_sell_price` sells a base amount into the bids.

  Prices and volumes are exact `real`s. Each walk is specified by a recursive
  function that runs the loop from a given accumulator state (`BuyRun`,
  `SellRun`), with the loop's `break` as a case that returns the state
  unchanged; the methods run the loop itself and are proved equal to those
  functions. The lemmas state what the walks promise: the accounting
  invariants, the bounds on the average price, what malformed levels do, and
  the worked vectors.
*/
module Books {
  import opened Wrappers

  /** One order-book entry as the venue returns it: normally `[price, volume]`,
      but the walkers are written to cope with other lengths. */
  type Level = seq<real>

  datatype OrderBook = OrderBook(asks: seq<Level>, bids: seq<Level>)

  /** The fields of a ticker the sell walk reads; `None` stands for a missing value. */
  datatype Ticker = Ticker(last: Option<real>, bid: Option<real>)

  /** `total` is `qty` units at prices between `lo` and `hi`. */
  predicate Between(total: real, qty: real, lo: real, hi: real)
  {
    qty >= 0.0 && lo * qty <= total <= hi * qty
  }

  // ---------------------------------------------------------------------------
  // Buy walk (src/utils.py, calculate_average_buy_price)
  // ---------------------------------------------------------------------------

  /** The loop's accumulators: `total_cost`, `total_amount`, `remaining_deposit`. */
  datatype BuyState = BuyState(cost: real, amount: real, remaining: real)

  /** One level taken by the buy walk: whole when its cost fits in what remains,
      otherwise the affordable fraction, which spends the rest of the deposit. */
  function BuyStep(s: BuyState, price: real, volume: real): (t: BuyState)
    requires s.remaining > 0.0
    ensures t.cost + t.remaining == s.cost + s.remaining
  {
    var cost := price * volume;
    if cost <= s.remaining then
      BuyState(s.cost + cost, s.amount + volume, s.remaining - cost)
    else
      var affordable := s.remaining / price;
      BuyState(s.cost + affordable * price, s.amount + affordable, 0.0)
  }

  /** The buy loop run over `asks` from state `s`: levels with fewer than two
      entries are skipped, and the walk stops at the first well-formed level
      reached once nothing remains. */
  function BuyRun(asks: seq<Level>, s: BuyState): BuyState
  {
    if asks == [] then s
    else if |asks[0]| < 2 then BuyRun(asks[1..], s)
    else if s.remaining <= 0.0 then s
    else BuyRun(asks[1..], BuyStep(s, asks[0][0], asks[0][1]))
  }

  /** `calculate_average_buy_price`: `None` when the book cannot be fetched or the
      walk buys nothing, else total cost over total amount. */
  function BuyAverage(deposit: real, book: Option<OrderBook>): Option<real>
  {
    match book
    case None => None
    case Some(b) =>
      var f := BuyRun(b.asks, BuyState(0.0, 0.0, deposit));
      if f.amount == 0.0 then None else Some(f.cost / f.amount)
  }

  /** The buy loop as written: the accumulators, the `continue` and the `break`. */
  method AverageBuyPrice(deposit: real, book: Option<OrderBook>) returns (price: Option<real>)
    ensures price == BuyAverage(deposit, book)
  {
    if book.None? {
      return None;
    }
    var asks := book.value.asks;
    var totalCost, totalAmount, remaining := 0.0, 0.0, deposit;
    var i := 0;
    while i < |asks|
      invariant 0 <= i <= |asks|
      invariant BuyRun(asks[i..], BuyState(totalCost, totalAmount, remaining))
             == BuyRun(asks, BuyState(0.0, 0.0, deposit))
      invariant totalCost + remaining == deposit
      decreases |asks| - i
    {
      var item := asks[i];
      assert asks[i..][0] == item && asks[i..][1..] == asks[i + 1..];
      if |item| < 2 {
        i := i + 1;
        continue;
      }
      var p, v := item[0], item[1];
      if remaining <= 0.0 {
        break;
      }
      ghost var next := BuyStep(BuyState(totalCost, totalAmount, remaining), p, v);
      var cost := p * v;
      if cost <= remaining {
        totalCost := totalCost + cost;
        totalAmount := totalAmount + v;
        remaining := remaining - cost;
      } else {
        var affordable := remaining / p;
        totalCost := totalCost + affordable * p;
        totalAmount := totalAmount + affordable;
        remaining := 0.0;
      }
      assert BuyState(totalCost, totalAmount, remaining) == next;
      i := i + 1;
    }
    assert BuyRun(asks[i..], BuyState(totalCost, totalAmount, remaining))
        == BuyState(totalCost, totalAmount, remaining);
    if totalAmount == 0.0 {
      return None;
    }
    price := Some(totalCost / totalAmount);
  }

  /** The well-formed levels the buy walk actually takes from, in order. */
  function BuyConsumed(asks: seq<Level>, s: BuyState): (r: seq<Level>)
    ensures forall l :: l in r ==> |l| >= 2
  {
    if asks == [] then []
    else if |asks[0]| < 2 then BuyConsumed(asks[1..], s)
    else if s.remaining <= 0.0 then []
    else [asks[0]] + BuyConsumed(asks[1..], BuyStep(s, asks[0][0], asks[0][1]))
  }

  /** The accounting invariant: spent plus remaining is the deposit, the
      remainder never goes negative once it starts non-negative, and so the
      cost never exceeds the deposit. */
  lemma {:induction false} BuyRunAccounting(asks: seq<Level>, s: BuyState)
    ensures BuyRun(asks, s).cost + BuyRun(asks, s).remaining == s.cost + s.remaining
    ensures s.remaining >= 0.0 ==> BuyRun(asks, s).remaining >= 0.0
    ensures s.remaining >= 0.0 ==> BuyRun(asks, s).cost <= s.cost + s.remaining
    decreases |asks|
  {
    if asks != [] {
      if |asks[0]| < 2 {
        BuyRunAccounting(asks[1..], s);
      } else if s.remaining > 0.0 {
        var t := BuyStep(s, asks[0][0], asks[0][1]);
        assert t.remaining >= 0.0;
        BuyRunAccounting(asks[1..], t);
      }
    }
  }

  /** A level is taken in full exactly when its cost fits in what remains;
      otherwise the walk takes the amount the remainder buys at that price,
      spends everything and takes no more. */
  lemma BuyStepWholeOrRest(s: BuyState, price: real, volume: real)
    requires s.remaining > 0.0
    ensures price * volume <= s.remaining ==>
      BuyStep(s, price, volume) == BuyState(s.cost + price * volume, s.amount + volume, s.remaining - price * volume)
    ensures price * volume > s.remaining ==>
      BuyStep(s, price, volume).remaining == 0.0 && BuyStep(s, price, volume).cost == s.cost + s.remaining
      && BuyStep(s, price, volume).amount == s.amount + s.remaining / price
  {
    if price * volume > s.remaining {
      var a := s.remaining / price;
      assert a * price == s.remaining;
    }
  }

  /** The (price, amount) pairs the buy walk takes from `asks` with `remaining`
      to spend: a whole level while its cost fits, then the amount the rest
      buys at the next level's price. */
  function BuyFills(asks: seq<Level>, remaining: real): seq<(real, real)>
  {
    if asks == [] then []
    else if |asks[0]| < 2 then BuyFills(asks[1..], remaining)
    else if remaining <= 0.0 then []
    else
      var p, v := asks[0][0], asks[0][1];
      if p * v <= remaining then [(p, v)] + BuyFills(asks[1..], remaining - p * v)
      else [(p, remaining / p)]
  }

  /** The totals the buy loop accumulates are the sums over its fills: the
      cost is the sum of price times amount taken, and the amount bought the
      sum of the amounts taken. */
  lemma {:induction false} BuyRunTotals(asks: seq<Level>, s: BuyState)
    ensures BuyRun(asks, s).cost == s.cost + Proceeds(BuyFills(asks, s.remaining))
    ensures BuyRun(asks, s).amount == s.amount + Volume(BuyFills(asks, s.remaining))
    decreases |asks|
  {
    if asks != [] {
      if |asks[0]| < 2 {
        BuyRunTotals(asks[1..], s);
      } else if s.remaining > 0.0 {
        var p, v := asks[0][0], asks[0][1];
        BuyStepWholeOrRest(s, p, v);
        if p * v <= s.remaining {
          var rest := BuyFills(asks[1..], s.remaining - p * v);
          assert BuyFills(asks, s.remaining) == [(p, v)] + rest;
          assert ([(p, v)] + rest)[1..] == rest;
          BuyRunTotals(asks[1..], BuyStep(s, p, v));
        } else {
          BuyRestTotals(asks, s);
        }
      }
    }
  }

  /** The level that exhausts the deposit is the walk's last fill. */
  lemma BuyRestTotals(asks: seq<Level>, s: BuyState)
    requires asks != [] && |asks[0]| >= 2 && s.remaining > 0.0 && asks[0][0] * asks[0][1] > s.remaining
    ensures BuyRun(asks, s).cost == s.cost + Proceeds(BuyFills(asks, s.remaining))
    ensures BuyRun(asks, s).amount == s.amount + Volume(BuyFills(asks, s.remaining))
  {
    var p, v := asks[0][0], asks[0][1];
    var a := s.remaining / p;
    var t := BuyStep(s, p, v);
    assert t == BuyState(s.cost + a * p, s.amount + a, 0.0);
    BuyRunSpent(asks[1..], t);
    assert BuyFills(asks, s.remaining) == [(p, a)];
    assert [(p, a)][1..] == [];
  }

  /** Once the deposit is spent, the rest of the book changes nothing. */
  lemma {:induction false} BuyRunSpent(asks: seq<Level>, s: BuyState)
    requires s.remaining <= 0.0
    ensures BuyRun(asks, s) == s && BuyConsumed(asks, s) == []
    decreases |asks|
  {
    if asks != [] && |asks[0]| < 2 {
      BuyRunSpent(asks[1..], s);
    }
  }

  /** Items with fewer than two entries are skipped: inserting one anywhere
      changes neither the result nor the levels taken. */
  lemma {:induction false} BuyRunSkipsMalformed(asks: seq<Level>, k: nat, bad: Level, s: BuyState)
    requires k <= |asks| && |bad| < 2
    ensures BuyRun(asks[..k] + [bad] + asks[k..], s) == BuyRun(asks, s)
    ensures BuyConsumed(asks[..k] + [bad] + asks[k..], s) == BuyConsumed(asks, s)
    decreases k
  {
    var longer := asks[..k] + [bad] + asks[k..];
    if k == 0 {
      assert longer[1..] == asks;
    } else {
      assert longer[0] == asks[0];
      assert longer[1..] == asks[1..][..k - 1] + [bad] + asks[1..][k - 1..];
      if |asks[0]| < 2 {
        BuyRunSkipsMalformed(asks[1..], k - 1, bad, s);
      } else if s.remaining > 0.0 {
        BuyRunSkipsMalformed(asks[1..], k - 1, bad, BuyStep(s, asks[0][0], asks[0][1]));
      }
    }
  }

  /** Price bounds, as an invariant: if every level taken has a price in
      `[lo, hi]` (with `lo > 0`) and a non-negative volume, the running cost
      stays between `lo` and `hi` times the running amount. */
  lemma {:induction false} BuyRunBounds(asks: seq<Level>, s: BuyState, lo: real, hi: real)
    requires 0.0 < lo && s.remaining >= 0.0 && s.amount >= 0.0
    requires lo * s.amount <= s.cost <= hi * s.amount
    requires forall l :: l in BuyConsumed(asks, s) ==> lo <= l[0] <= hi && l[1] >= 0.0
    ensures Between(BuyRun(asks, s).cost, BuyRun(asks, s).amount, lo, hi)
    decreases |asks|
  {
    if asks != [] {
      if |asks[0]| < 2 {
        BuyRunBounds(asks[1..], s, lo, hi);
      } else if s.remaining > 0.0 {
        var p, v := asks[0][0], asks[0][1];
        assert asks[0] in BuyConsumed(asks, s);
        var t := BuyStep(s, p, v);
        if p * v <= s.remaining {
          LevelBounds(p, v, lo, hi);
        } else {
          var a := s.remaining / p;
          assert a * p == s.remaining;
          FractionBounds(s.remaining, p, lo, hi);
        }
        assert BuyConsumed(asks, s) == [asks[0]] + BuyConsumed(asks[1..], t);
        BuyRunBounds(asks[1..], t, lo, hi);
      }
    }
  }

  lemma LevelBounds(p: real, v: real, lo: real, hi: real)
    requires lo <= p <= hi && v >= 0.0
    ensures lo * v <= p * v <= hi * v
  {
  }

  lemma FractionBounds(r: real, p: real, lo: real, hi: real)
    requires 0.0 < lo <= p <= hi && r > 0.0
    ensures r / p >= 0.0 && lo * (r / p) <= r <= hi * (r / p)
  {
    var a := r / p;
    assert a * p == r;
    assert lo * a <= p * a <= hi * a;
  }

  /** The average buy price lies between the lowest and highest price among
      the levels the walk takes, when those prices are positive and their
      volumes non-negative. */
  lemma BuyAverageBounds(deposit: real, b: OrderBook, lo: real, hi: real)
    requires deposit >= 0.0 && 0.0 < lo
    requires forall l :: l in BuyConsumed(b.asks, BuyState(0.0, 0.0, deposit)) ==> lo <= l[0] <= hi && l[1] >= 0.0
    ensures BuyAverage(deposit, Some(b)).Some? ==> lo <= BuyAverage(deposit, Some(b)).value <= hi
  {
    var f := BuyRun(b.asks, BuyState(0.0, 0.0, deposit));
    BuyRunBounds(b.asks, BuyState(0.0, 0.0, deposit), lo, hi);
    if f.amount != 0.0 {
      AverageBetween(f.cost, f.amount, lo, hi);
    }
  }

  /** The result is `None` exactly when the walk bought nothing; otherwise it is
      the price that, paid on the whole amount bought, gives the total cost. */
  lemma BuyAverageMeaning(deposit: real, b: OrderBook)
    ensures var f := BuyRun(b.asks, BuyState(0.0, 0.0, deposit));
      (BuyAverage(deposit, Some(b)).None? <==> f.amount == 0.0)
      && (BuyAverage(deposit, Some(b)).Some? ==> BuyAverage(deposit, Some(b)).value * f.amount == f.cost)
  {
  }

  /** Worked vector: a deposit of 15 over asks 10×1 and 11×2 takes the first level
      whole and 5/11 of the second, for an average of 165/16. */
  lemma BuyAverageFifteen()
    ensures BuyAverage(15.0, Some(OrderBook([[10.0, 1.0], [11.0, 2.0]], []))) == Some(165.0 / 16.0)
  {
    var asks: seq<Level> := [[10.0, 1.0], [11.0, 2.0]];
    var s1 := BuyStep(BuyState(0.0, 0.0, 15.0), 10.0, 1.0);
    assert s1 == BuyState(10.0, 1.0, 5.0);
    var s2 := BuyStep(s1, 11.0, 2.0);
    assert (5.0 / 11.0) * 11.0 == 5.0;
    assert s2 == BuyState(15.0, 16.0 / 11.0, 0.0);
    assert asks[1..][1..] == [];
    assert BuyRun(asks[1..], s1) == BuyRun(asks[1..][1..], s2) == s2;
    assert BuyRun(asks, BuyState(0.0, 0.0, 15.0)) == BuyRun(asks[1..], s1);
    assert 15.0 / (16.0 / 11.0) == 165.0 / 16.0;
  }

  /** Worked vector: a deposit deeper than the book is not rejected; 100 over the
      same asks buys everything, for an average of 32/3. */
  lemma BuyAverageShallowBook()
    ensures BuyAverage(100.0, Some(OrderBook([[10.0, 1.0], [11.0, 2.0]], []))) == Some(32.0 / 3.0)
  {
    var asks: seq<Level> := [[10.0, 1.0], [11.0, 2.0]];
    var s1 := BuyStep(BuyState(0.0, 0.0, 100.0), 10.0, 1.0);
    assert s1 == BuyState(10.0, 1.0, 90.0);
    var s2 := BuyStep(s1, 11.0, 2.0);
    assert s2 == BuyState(32.0, 3.0, 68.0);
    assert asks[1..][1..] == [];
    assert BuyRun(asks, BuyState(0.0, 0.0, 100.0)) == s2;
  }

  // ---------------------------------------------------------------------------
  // Sell walk (src/utils.py, calculate_average_sell_price)
  // ---------------------------------------------------------------------------

  /** `ticker['last'] or ticker['bid']`: the last price unless it is missing or zero. */
  function ReferencePrice(t: Ticker): Option<real>
  {
    if t.last.Some? && t.last.value != 0.0 then t.last else t.bid
  }

  /** The amount of base currency to sell: the deposit over the reference price;
      a missing or zero price raises in the source, which the walker turns into `None`. */
  function SellBase(deposit: real, ticker: Option<Ticker>): (r: Option<real>)
    ensures r.Some? <==> ticker.Some? && ReferencePrice(ticker.value).Some? && ReferencePrice(ticker.value).value != 0.0
    ensures r.Some? ==> r.value * ReferencePrice(ticker.value).value == deposit
  {
    match ticker
    case None => None
    case Some(t) =>
      match ReferencePrice(t)
      case None => None
      case Some(p) => if p == 0.0 then None else Some(deposit / p)
  }

  /** The loop's accumulators: `total_revenue`, `total_sold`, `remaining_amount`. */
  datatype SellState = SellState(revenue: real, sold: real, remaining: real)

  /** One bid taken by the sell walk: whole when its volume fits, otherwise
      the remaining amount, which ends the walk. */
  function SellStep(s: SellState, price: real, volume: real): (t: SellState)
    ensures t.sold + t.remaining == s.sold + s.remaining
  {
    if volume <= s.remaining then
      SellState(s.revenue + price * volume, s.sold + volume, s.remaining - volume)
    else
      SellState(s.revenue + price * s.remaining, s.sold + s.remaining, 0.0)
  }

  /** The sell loop run over `bids` from state `s`. Each item is unpacked into
      `price, volume` before the `break` test, so any item that does not have
      exactly two entries and is reached raises, which is `None` here. */
  function SellRun(bids: seq<Level>, s: SellState): Option<SellState>
  {
    if bids == [] then Some(s)
    else if |bids[0]| != 2 then None
    else if s.remaining <= 0.0 then Some(s)
    else SellRun(bids[1..], SellStep(s, bids[0][0], bids[0][1]))
  }

  /** `calculate_average_sell_price`: `None` when the ticker, the reference price or
      the book fails, when an item cannot be unpacked, or when nothing is sold;
      otherwise total revenue over total sold. */
  function SellAverage(deposit: real, ticker: Option<Ticker>, book: Option<OrderBook>): Option<real>
  {
    match SellBase(deposit, ticker)
    case None => None
    case Some(base) =>
      match book
      case None => None
      case Some(b) =>
        match SellRun(b.bids, SellState(0.0, 0.0, base))
        case None => None
        case Some(f) => if f.sold == 0.0 then None else Some(f.revenue / f.sold)
  }

  /** `calculate_average_sell_price` as written: the reference price and the
      book, then the loop over the bids. */
  method AverageSellPrice(deposit: real, ticker: Option<Ticker>, book: Option<OrderBook>)
    returns (price: Option<real>)
    ensures price == SellAverage(deposit, ticker, book)
  {
    if ticker.None? {
      return None;
    }
    var current := ReferencePrice(ticker.value);
    if current.None? || current.value == 0.0 {
      return None;
    }
    var baseAmount := deposit / current.value;
    assert SellBase(deposit, ticker) == Some(baseAmount);
    if book.None? {
      return None;
    }
    var totals := SellLoop(book.value.bids, baseAmount);
    if totals.None? || totals.value.sold == 0.0 {
      return None;
    }
    price := Some(totals.value.revenue / totals.value.sold);
  }

  /** The loop over the bids, selling `baseAmount`; `None` where unpacking an item raises. */
  method SellLoop(bids: seq<Level>, baseAmount: real) returns (totals: Option<SellState>)
    ensures totals == SellRun(bids, SellState(0.0, 0.0, baseAmount))
  {
    var totalRevenue, totalSold, remaining := 0.0, 0.0, baseAmount;
    var i := 0;
    while i < |bids|
      invariant 0 <= i <= |bids|
      invariant SellRun(bids[i..], SellState(totalRevenue, totalSold, remaining))
             == SellRun(bids, SellState(0.0, 0.0, baseAmount))
      decreases |bids| - i
    {
      assert bids[i..][0] == bids[i] && bids[i..][1..] == bids[i + 1..];
      if |bids[i]| != 2 {
        return None;
      }
      var p, v := bids[i][0], bids[i][1];
      if remaining <= 0.0 {
        break;
      }
      ghost var next := SellStep(SellState(totalRevenue, totalSold, remaining), p, v);
      if v <= remaining {
        totalRevenue := totalRevenue + p * v;
        totalSold := totalSold + v;
        remaining := remaining - v;
      } else {
        totalRevenue := totalRevenue + p * remaining;
        totalSold := totalSold + remaining;
        remaining := 0.0;
      }
      assert SellState(totalRevenue, totalSold, remaining) == next;
      i := i + 1;
    }
    return Some(SellState(totalRevenue, totalSold, remaining));
  }

  /** The bids the sell walk actually takes from, in order. */
  function SellConsumed(bids: seq<Level>, s: SellState): (r: seq<Level>)
    ensures forall l :: l in r ==> |l| == 2
  {
    if bids == [] || |bids[0]| != 2 || s.remaining <= 0.0 then []
    else [bids[0]] + SellConsumed(bids[1..], SellStep(s, bids[0][0], bids[0][1]))
  }

  /** The accounting invariant: sold plus remaining is always the base amount;
      with a non-negative start and non-negative volumes taken, the amount sold
      stays between 0 and the base amount. */
  lemma {:induction false} SellRunAccounting(bids: seq<Level>, s: SellState)
    ensures SellRun(bids, s).Some? ==>
      SellRun(bids, s).value.sold + SellRun(bids, s).value.remaining == s.sold + s.remaining
    ensures SellRun(bids, s).Some? && s.remaining >= 0.0 && s.sold >= 0.0
            && (forall l :: l in SellConsumed(bids, s) ==> l[1] >= 0.0) ==>
      var f := SellRun(bids, s).value;
      0.0 <= f.sold <= s.sold + s.remaining && f.remaining >= 0.0
    decreases |bids|
  {
    if bids != [] && |bids[0]| == 2 && s.remaining > 0.0 {
      assert bids[0] in SellConsumed(bids, s);
      var t := SellStep(s, bids[0][0], bids[0][1]);
      SellRunAccounting(bids[1..], t);
    }
  }

  /** Price bounds, as an invariant: with every bid taken priced in `[lo, hi]`
      and of non-negative volume, revenue stays between `lo` and `hi` times the
      amount sold. */
  lemma {:induction false} SellRunBounds(bids: seq<Level>, s: SellState, lo: real, hi: real)
    requires s.remaining >= 0.0 && s.sold >= 0.0
    requires lo * s.sold <= s.revenue <= hi * s.sold
    requires forall l :: l in SellConsumed(bids, s) ==> lo <= l[0] <= hi && l[1] >= 0.0
    ensures SellRun(bids, s).Some? ==> Between(SellRun(bids, s).value.revenue, SellRun(bids, s).value.sold, lo, hi)
    decreases |bids|
  {
    if bids == [] || |bids[0]| != 2 {
      assert SellRun(bids, s) == if bids == [] then Some(s) else None;
    } else if s.remaining <= 0.0 {
      assert SellRun(bids, s) == Some(s);
    } else {
      var t := SellStep(s, bids[0][0], bids[0][1]);
      assert SellConsumed(bids, s) == [bids[0]] + SellConsumed(bids[1..], t);
      assert bids[0] in SellConsumed(bids, s);
      SellStepBounds(s, bids[0][0], bids[0][1], lo, hi);
      SellRunBounds(bids[1..], t, lo, hi);
      assert SellRun(bids, s) == SellRun(bids[1..], t);
    }
  }

  lemma SellStepBounds(s: SellState, p: real, v: real, lo: real, hi: real)
    requires s.remaining > 0.0 && s.sold >= 0.0
    requires lo * s.sold <= s.revenue <= hi * s.sold
    requires lo <= p <= hi && v >= 0.0
    ensures var t := SellStep(s, p, v);
      t.remaining >= 0.0 && t.sold >= 0.0 && lo * t.sold <= t.revenue <= hi * t.sold
  {
    var taken := if v <= s.remaining then v else s.remaining;
    LevelBounds(p, taken, lo, hi);
    assert lo * (s.sold + taken) == lo * s.sold + lo * taken;
    assert hi * (s.sold + taken) == hi * s.sold + hi * taken;
  }

  /** The average sell price lies between the lowest and highest price among
      the bids the walk takes, when their volumes are non-negative. */
  lemma SellAverageBounds(deposit: real, ticker: Option<Ticker>, b: OrderBook, base: real, lo: real, hi: real)
    requires SellBase(deposit, ticker) == Some(base) && base >= 0.0
    requires forall l :: l in SellConsumed(b.bids, SellState(0.0, 0.0, base)) ==> lo <= l[0] <= hi && l[1] >= 0.0
    ensures SellAverage(deposit, ticker, Some(b)).Some? ==> lo <= SellAverage(deposit, ticker, Some(b)).value <= hi
  {
    var s := SellState(0.0, 0.0, base);
    SellRunBounds(b.bids, s, lo, hi);
    match SellRun(b.bids, s)
    case None =>
    case Some(f) =>
      if f.sold != 0.0 {
        AverageBetween(f.revenue, f.sold, lo, hi);
        assert SellAverage(deposit, ticker, Some(b)) == Some(f.revenue / f.sold);
      }
  }

  /** A total between `lo` and `hi` times a positive quantity averages between them. */
  lemma AverageBetween(total: real, qty: real, lo: real, hi: real)
    requires Between(total, qty, lo, hi) && qty != 0.0
    ensures lo <= total / qty <= hi
  {
    assert (total / qty) * qty == total;
  }

  /** What the sell walk takes from each bid, as `(price, volume taken)`, from the
      amount still to sell: the whole bid while it fits, then what is left. */
  function Fills(bids: seq<Level>, remaining: real): seq<(real, real)>
  {
    if bids == [] || |bids[0]| != 2 || remaining <= 0.0 then []
    else
      var taken := if bids[0][1] <= remaining then bids[0][1] else remaining;
      [(bids[0][0], taken)] + Fills(bids[1..], remaining - taken)
  }

  /** The sum of price times volume over the fills. */
  function Proceeds(fills: seq<(real, real)>): real
  {
    if fills == [] then 0.0 else fills[0].0 * fills[0].1 + Proceeds(fills[1..])
  }

  /** The sum of the volumes over the fills. */
  function Volume(fills: seq<(real, real)>): real
  {
    if fills == [] then 0.0 else fills[0].1 + Volume(fills[1..])
  }

  /** `f` is `s` with the fills added to its revenue and to the amount sold. */
  predicate Accumulated(f: SellState, s: SellState, fills: seq<(real, real)>)
  {
    f.revenue == s.revenue + Proceeds(fills) && f.sold == s.sold + Volume(fills)
  }

  /** The totals the loop accumulates are the sums over its fills: revenue is
      the sum of price times volume taken, and the amount sold the sum of the
      volumes taken. */
  lemma {:induction false} SellRunTotals(bids: seq<Level>, s: SellState)
    ensures SellRun(bids, s).Some? ==> Accumulated(SellRun(bids, s).value, s, Fills(bids, s.remaining))
    decreases |bids|
  {
    if bids != [] && |bids[0]| == 2 && s.remaining > 0.0 {
      var p, v := bids[0][0], bids[0][1];
      var taken := if v <= s.remaining then v else s.remaining;
      var t := SellStep(s, p, v);
      assert t == SellState(s.revenue + p * taken, s.sold + taken, s.remaining - taken);
      var rest := Fills(bids[1..], s.remaining - taken);
      assert Fills(bids, s.remaining) == [(p, taken)] + rest;
      assert ([(p, taken)] + rest)[1..] == rest;
      SellRunTotals(bids[1..], t);
    }
  }

  /** The result is `None` exactly when the walk sold nothing; otherwise it is
      the price that, received on the whole amount sold, gives the total revenue. */
  lemma SellAverageMeaning(deposit: real, ticker: Option<Ticker>, b: OrderBook, base: real)
    requires SellBase(deposit, ticker) == Some(base)
    ensures SellRun(b.bids, SellState(0.0, 0.0, base)).Some? ==>
      var f := SellRun(b.bids, SellState(0.0, 0.0, base)).value;
      (SellAverage(deposit, ticker, Some(b)).None? <==> f.sold == 0.0)
      && (SellAverage(deposit, ticker, Some(b)).Some? ==> SellAverage(deposit, ticker, Some(b)).value * f.sold == f.revenue)
    ensures SellRun(b.bids, SellState(0.0, 0.0, base)).None? ==> SellAverage(deposit, ticker, Some(b)).None?
  {
  }

  /** Worked vector: with last price 10, a deposit of 10 sells one unit, all into
      the best bid. */
  lemma SellAverageExample()
    ensures SellAverage(10.0, Some(Ticker(Some(10.0), None)), Some(OrderBook([], [[9.0, 0.5], [8.0, 2.0]])))
         == Some(8.5)
  {
    var bids: seq<Level> := [[9.0, 0.5], [8.0, 2.0]];
    assert SellBase(10.0, Some(Ticker(Some(10.0), None))) == Some(1.0);
    var s1 := SellStep(SellState(0.0, 0.0, 1.0), 9.0, 0.5);
    assert s1 == SellState(4.5, 0.5, 0.5);
    var s2 := SellStep(s1, 8.0, 2.0);
    assert s2 == SellState(8.5, 1.0, 0.0);
    assert bids[1..][1..] == [];
    assert SellRun(bids[1..], s1) == Some(s2);
    assert SellRun(bids, SellState(0.0, 0.0, 1.0)) == Some(s2);
  }

  /** A zero last price is falsy, so the bid is used instead. */
  lemma SellBaseFallsBackToBid()
    ensures SellBase(10.0, Some(Ticker(Some(0.0), Some(5.0)))) == Some(2.0)
    ensures SellBase(10.0, Some(Ticker(Some(0.0), None))) == None
  {
  }

  /** The unpacking happens before the `break`: a malformed item right after the
      amount is used up still makes the whole computation fail. */
  lemma SellMalformedAfterFill()
    ensures SellAverage(10.0, Some(Ticker(Some(10.0), None)), Some(OrderBook([], [[9.0, 1.0], [7.0]]))) == None
  {
    var bids: seq<Level> := [[9.0, 1.0], [7.0]];
    assert SellBase(10.0, Some(Ticker(Some(10.0), None))) == Some(1.0);
    var s1 := SellStep(SellState(0.0, 0.0, 1.0), 9.0, 1.0);
    assert s1 == SellState(9.0, 1.0, 0.0);
    assert bids[1..][0] == [7.0];
    assert SellRun(bids[1..], s1) == None;
    assert SellRun(bids, SellState(0.0, 0.0, 1.0)) == None;
  }
}
