/** The simulated broker: a position ledger that fills orders immediately at a
    spread-adjusted price, caps leverage at 1x equity, realises profit and loss
    on reducing or flipping orders, keeps a size-weighted average entry price
    and converts quote-currency amounts into the account currency. */
module PaperTrading {
  import opened Wrappers
  import opened Numeric
  import opened Text

  /** A holding: signed size (positive long, negative short) and average entry. */
  datatype Position = Position(size: real, avgPrice: real)

  /** An order as the strategy submits it (`place_order`'s arguments). */
  datatype OrderRequest = OrderRequest(
    symbol: string, side: string, quantity: real, orderType: string,
    price: Option<real>, timestamp: Option<int>, exitReason: Option<string>)

  /** The record appended to `orders` for every fill. */
  datatype OrderRecord = OrderRecord(
    symbol: string, side: string, qty: real, price: real, status: string, timestamp: Option<int>)

  /** The record appended to `trade_history` when an order reduces, closes or
      flips a position. */
  datatype TradeRecord = TradeRecord(
    symbol: string, side: string, qty: real, entry: real, exit: real, pnl: real,
    timestamp: Option<int>, exitReason: Option<string>)

  /** The part of the broker's state that an order changes. */
  datatype Ledger = Ledger(
    cash: real, positions: map<string, Position>, orders: seq<OrderRecord>, trades: seq<TradeRecord>)

  const JpyPerUsd: real := 150.0

  /** Converts an amount in the quote currency of `symbol` (its characters
      3..6) into the account currency. */
  function ConvertCurrency(amount: real, symbol: string, account: string, prices: map<string, real>): real
  {
    var base := Slice(symbol, 0, 3);
    var quote := Slice(symbol, 3, 6);
    if quote == account then amount
    else if base == account && symbol in prices && prices[symbol] != 0.0 then amount / prices[symbol]
    else if quote == "JPY" && account == "USD" then amount / JpyPerUsd
    else amount
  }

  /** Conversion is linear in the amount, so it keeps sums and signs apart from
      the rate's own sign. */
  lemma ConvertAdditive(a: real, b: real, symbol: string, account: string, prices: map<string, real>)
    ensures ConvertCurrency(a + b, symbol, account, prices)
         == ConvertCurrency(a, symbol, account, prices) + ConvertCurrency(b, symbol, account, prices)
    ensures ConvertCurrency(0.0, symbol, account, prices) == 0.0
  {
    var base := Slice(symbol, 0, 3);
    var quote := Slice(symbol, 3, 6);
    if quote != account && base == account && symbol in prices && prices[symbol] != 0.0 {
      var rate := prices[symbol];
      assert (a + b) / rate == a / rate + b / rate;
    }
  }

  /** A positive amount stays positive whenever the rate used is positive. */
  lemma ConvertKeepsSign(amount: real, symbol: string, account: string, prices: map<string, real>)
    requires symbol in prices ==> prices[symbol] >= 0.0
    ensures amount > 0.0 ==> ConvertCurrency(amount, symbol, account, prices) > 0.0
    ensures amount < 0.0 ==> ConvertCurrency(amount, symbol, account, prices) < 0.0
  {
    var base := Slice(symbol, 0, 3);
    var quote := Slice(symbol, 3, 6);
    if quote == account {
    } else if base == account && symbol in prices && prices[symbol] != 0.0 {
      DivKeepsSign(amount, prices[symbol]);
    } else if quote == "JPY" && account == "USD" {
      DivKeepsSign(amount, JpyPerUsd);
    }
  }

  /** Dividing by a positive rate keeps the sign of the amount. */
  lemma DivKeepsSign(a: real, b: real)
    requires b > 0.0
    ensures a > 0.0 ==> a / b > 0.0
    ensures a < 0.0 ==> a / b < 0.0
  {
    if a > 0.0 {
      assert a / b * b == a;
    } else if a < 0.0 {
      assert a / b * b == a;
    }
  }

  /** The price an order starts from: the execution override, else the
      requested price, else the market price. */
  function BasePrice(overridePrice: Option<real>, price: Option<real>, market: real): real
  {
    if overridePrice.Some? then overridePrice.value
    else if price.Some? then price.value
    else market
  }

  predicate IsBuy(side: string) { side == "buy" }

  /** Buys pay half the spread above the base, anything else receives half the
      spread below it; a limit order with a (non-zero) price fills at that price. */
  function FillPrice(side: string, base: real, spread: real, orderType: string, price: Option<real>): real
  {
    if price.Some? && price.value != 0.0 && orderType == "limit" then price.value
    else if IsBuy(side) then base * (1.0 + spread / 2.0)
    else base * (1.0 - spread / 2.0)
  }

  /** The leverage cap: never more than equity / fill when the fill is positive. */
  function CappedQuantity(quantity: real, equity: real, fill: real): real
  {
    Min(quantity, if fill > 0.0 then equity / fill else quantity)
  }

  function SignedQty(side: string, qty: real): real
  {
    if IsBuy(side) then qty else -qty
  }

  /** The order trades against the current position. */
  predicate Opposing(oldSize: real, signedQty: real)
  {
    (oldSize > 0.0 && signedQty < 0.0) || (oldSize < 0.0 && signedQty > 0.0)
  }

  function ClosedQty(signedQty: real, oldSize: real): real
  {
    if Abs(signedQty) <= Abs(oldSize) then Abs(signedQty) else Abs(oldSize)
  }

  /** Profit of closing `closed` units of `pos` at `fill`, in the quote currency. */
  function RealizedRaw(pos: Position, fill: real, closed: real): real
  {
    (if pos.size < 0.0 then pos.avgPrice - fill else fill - pos.avgPrice) * closed
  }

  /** The position after an order: None when the new size is zero. */
  function UpdatedPosition(cur: Position, signedQty: real, fill: real): Option<Position>
  {
    var newSize := cur.size + signedQty;
    if newSize == 0.0 then None
    else if (cur.size >= 0.0 && signedQty > 0.0) || (cur.size <= 0.0 && signedQty < 0.0) then
      Some(Position(newSize, (Abs(cur.size) * cur.avgPrice + Abs(signedQty) * fill) / Abs(newSize)))
    else if Abs(signedQty) > Abs(cur.size) then
      Some(Position(newSize, fill))
    else
      Some(Position(newSize, cur.avgPrice))
  }

  /** `positions.get(symbol, {'size': 0, 'avg_price': 0})`. */
  function CurrentPosition(positions: map<string, Position>, symbol: string): Position
  {
    if symbol in positions then positions[symbol] else Position(0.0, 0.0)
  }

  /** Cash and trade history after an order of `signedQty` units at `fill`:
      an order against the position realises the profit of the part it
      closes and records one trade; any other order changes neither. */
  function Realize(cash: real, trades: seq<TradeRecord>, o: OrderRequest, cur: Position, signedQty: real,
                   fill: real, account: string, prices: map<string, real>): (real, seq<TradeRecord>)
  {
    if Opposing(cur.size, signedQty) then
      var closed := ClosedQty(signedQty, cur.size);
      var realized := ConvertCurrency(RealizedRaw(cur, fill, closed), o.symbol, account, prices);
      (cash + realized, trades + [TradeRecord(o.symbol, o.side, closed, cur.avgPrice, fill, realized,
                                              o.timestamp, o.exitReason)])
    else (cash, trades)
  }

  /** The positions after the order: the symbol's entry replaced, or dropped
      when the new size is zero. */
  function Reposition(positions: map<string, Position>, symbol: string, cur: Position, signedQty: real,
                      fill: real): map<string, Position>
  {
    match UpdatedPosition(cur, signedQty, fill)
    case None => positions - {symbol}
    case Some(p) => positions[symbol := p]
  }

  /** The fill of an order on a priced symbol: the spread-adjusted price and
      the leverage-capped quantity. */
  function FillOrder(equity: real, prices: map<string, real>, overridePrice: Option<real>, spread: real,
                     o: OrderRequest): OrderRecord
    requires o.symbol in prices
  {
    var base := BasePrice(overridePrice, o.price, prices[o.symbol]);
    var fill := FillPrice(o.side, base, spread, o.orderType, o.price);
    OrderRecord(o.symbol, o.side, CappedQuantity(o.quantity, equity, fill), fill, "filled", o.timestamp)
  }

  /** The effect of `place_order` on the ledger, given the equity measured
      before the fill: the order record (None when the symbol has no price)
      and the new ledger. */
  function ApplyOrder(l: Ledger, equity: real, prices: map<string, real>, overridePrice: Option<real>,
                      spread: real, account: string, o: OrderRequest): (Option<OrderRecord>, Ledger)
  {
    if o.symbol !in prices then (None, l)
    else
      var order := FillOrder(equity, prices, overridePrice, spread, o);
      var cur := CurrentPosition(l.positions, o.symbol);
      var signedQty := SignedQty(o.side, order.qty);
      var (cash, trades) := Realize(l.cash, l.trades, o, cur, signedQty, order.price, account, prices);
      (Some(order), Ledger(cash, Reposition(l.positions, o.symbol, cur, signedQty, order.price),
                           l.orders + [order], trades))
  }


  /** Unrealised profit of one holding, marked at the current price (or its
      own average when the symbol has no price), in the account currency. */
  function PositionPnl(symbol: string, pos: Position, prices: map<string, real>, account: string): real
  {
    var mark := if symbol in prices then prices[symbol] else pos.avgPrice;
    ConvertCurrency((mark - pos.avgPrice) * pos.size, symbol, account, prices)
  }

  lemma MarkedPnl(symbol: string, pos: Position, prices: map<string, real>, account: string, mark: real)
    requires mark == (if symbol in prices then prices[symbol] else pos.avgPrice)
    ensures ConvertCurrency((mark - pos.avgPrice) * pos.size, symbol, account, prices)
         == PositionPnl(symbol, pos, prices, account)
  {
  }

  /** Total unrealised profit over a set of held symbols. */
  ghost function PnlSum(keys: set<string>, positions: map<string, Position>, prices: map<string, real>,
                        account: string): real
    requires keys <= positions.Keys
    decreases |keys|
  {
    if keys == {} then 0.0
    else
      var k :| k in keys;
      PositionPnl(k, positions[k], prices, account) + PnlSum(keys - {k}, positions, prices, account)
  }

  /** The sum does not depend on which symbol is taken first. */
  lemma {:induction false} PnlSumRemove(keys: set<string>, positions: map<string, Position>,
                                        prices: map<string, real>, account: string, k: string)
    requires keys <= positions.Keys && k in keys
    ensures PnlSum(keys, positions, prices, account)
         == PositionPnl(k, positions[k], prices, account) + PnlSum(keys - {k}, positions, prices, account)
    decreases |keys|
  {
    var j :| j in keys && PnlSum(keys, positions, prices, account)
                         == PositionPnl(j, positions[j], prices, account) + PnlSum(keys - {j}, positions, prices, account);
    if j != k {
      PnlSumRemove(keys - {j}, positions, prices, account, k);
      PnlSumRemove(keys - {k}, positions, prices, account, j);
      assert keys - {j} - {k} == keys - {k} - {j};
    }
  }

  /** Mark-to-market equity: cash plus the converted unrealised profit of
      every open position. */
  ghost function EquityOf(cash: real, positions: map<string, Position>, prices: map<string, real>,
                          account: string): real
  {
    cash + PnlSum(positions.Keys, positions, prices, account)
  }

  /** With no open positions, equity is the cash balance. */
  lemma EquityFlat(cash: real, prices: map<string, real>, account: string)
    ensures EquityOf(cash, map[], prices, account) == cash
  {
  }

  class PaperTrader {
    var initialCapital: real
    var cash: real
    var spread: real
    var accountCurrency: string
    var positions: map<string, Position>
    var orders: seq<OrderRecord>
    var tradeHistory: seq<TradeRecord>
    var overridePrice: Option<real>
    var currentPrices: map<string, real>

    /** Held positions are never empty and always have a known price. */
    ghost predicate Valid()
      reads this
    {
      && (forall s :: s in positions ==> positions[s].size != 0.0)
      && positions.Keys <= currentPrices.Keys
    }

    function Snapshot(): Ledger
      reads this
    {
      Ledger(cash, positions, orders, tradeHistory)
    }

    ghost function Equity(): real
      reads this
    {
      EquityOf(cash, positions, currentPrices, accountCurrency)
    }

    constructor (initialCapital: real, spread: real, accountCurrency: string)
      ensures Valid()
      ensures this.initialCapital == initialCapital && cash == initialCapital
      ensures this.spread == spread && this.accountCurrency == accountCurrency
      ensures positions == map[] && orders == [] && tradeHistory == []
      ensures overridePrice == None && currentPrices == map[]
    {
      this.initialCapital := initialCapital;
      cash := initialCapital;
      this.spread := spread;
      this.accountCurrency := accountCurrency;
      positions := map[];
      orders := [];
      tradeHistory := [];
      overridePrice := None;
      currentPrices := map[];
    }

    method SetExecutionOverride(price: Option<real>)
      requires Valid()
      modifies this`overridePrice
      ensures Valid() && overridePrice == price
    {
      overridePrice := price;
    }

    /** Records the current market price of a symbol. */
    method UpdatePrice(symbol: string, price: real)
      requires Valid()
      modifies this`currentPrices
      ensures Valid()
      ensures currentPrices == old(currentPrices)[symbol := price]
    {
      currentPrices := currentPrices[symbol := price];
    }

    /** Walks the open positions, adding each one's converted unrealised
        profit to the cash balance. */
    method GetEquity() returns (equity: real)
      requires Valid()
      ensures equity == Equity()
    {
      equity := cash;
      var remaining := positions.Keys;
      while remaining != {}
        invariant remaining <= positions.Keys
        invariant equity + PnlSum(remaining, positions, currentPrices, accountCurrency) == Equity()
        decreases |remaining|
      {
        var symbol :| symbol in remaining;
        var pos := positions[symbol];
        var currentPrice := if symbol in currentPrices then currentPrices[symbol] else pos.avgPrice;
        var rawPnl := (currentPrice - pos.avgPrice) * pos.size;
        var pnl := ConvertCurrency(rawPnl, symbol, accountCurrency, currentPrices);
        assert pnl == PositionPnl(symbol, pos, currentPrices, accountCurrency) by {
          MarkedPnl(symbol, pos, currentPrices, accountCurrency, currentPrice);
        }
        assert PnlSum(remaining, positions, currentPrices, accountCurrency)
            == pnl + PnlSum(remaining - {symbol}, positions, currentPrices, accountCurrency) by {
          PnlSumRemove(remaining, positions, currentPrices, accountCurrency, symbol);
        }
        equity := equity + pnl;
        remaining := remaining - {symbol};
      }
    }

    /** The signed size held in `symbol`, zero when flat. */
    function GetPosition(symbol: string): (size: real)
      requires Valid()
      reads this
      ensures size != 0.0 <==> symbol in positions
      ensures symbol in positions ==> size == positions[symbol].size
    {
      if symbol in positions then positions[symbol].size else 0.0
    }

    /** Fills an order immediately. Returns None, changing nothing, when the
        symbol has no current price. */
    method PlaceOrder(o: OrderRequest) returns (r: Option<OrderRecord>)
      requires Valid()
      modifies this
      ensures Valid()
      ensures (r, Snapshot()) == ApplyOrder(old(Snapshot()), old(Equity()), currentPrices, overridePrice,
                                            spread, accountCurrency, o)
      ensures currentPrices == old(currentPrices) && overridePrice == old(overridePrice)
      ensures spread == old(spread) && accountCurrency == old(accountCurrency)
      ensures initialCapital == old(initialCapital)
    {
      if o.symbol !in currentPrices {
        return None;
      }
      var basePrice := BasePrice(overridePrice, o.price, currentPrices[o.symbol]);
      var fillPrice := FillPrice(o.side, basePrice, spread, o.orderType, o.price);
      var currentPos := CurrentPosition(positions, o.symbol);

      // Leverage cap: the position value may not exceed equity.
      var equity := GetEquity();
      var quantity := CappedQuantity(o.quantity, equity, fillPrice);
      var signedQty := SignedQty(o.side, quantity);

      ghost var before := (cash, tradeHistory, positions);
      if Opposing(currentPos.size, signedQty) {
        var closedQty := ClosedQty(signedQty, currentPos.size);
        var realizedPnl := ConvertCurrency(RealizedRaw(currentPos, fillPrice, closedQty), o.symbol,
                                           accountCurrency, currentPrices);
        cash := cash + realizedPnl;
        tradeHistory := tradeHistory + [TradeRecord(o.symbol, o.side, closedQty, currentPos.avgPrice,
                                                    fillPrice, realizedPnl, o.timestamp, o.exitReason)];
      }
      assert (cash, tradeHistory) == Realize(before.0, before.1, o, currentPos, signedQty, fillPrice,
                                             accountCurrency, currentPrices);

      match UpdatedPosition(currentPos, signedQty, fillPrice) {
        case Some(p) => positions := positions[o.symbol := p];
        case None => positions := positions - {o.symbol};
      }
      assert positions == Reposition(before.2, o.symbol, currentPos, signedQty, fillPrice);

      var record := OrderRecord(o.symbol, o.side, quantity, fillPrice, "filled", o.timestamp);
      orders := orders + [record];
      r := Some(record);
    }

    /** Closes (all of, or `quantity` of) the position in `symbol` with a
        market order on the opposite side; None when nothing is held. */
    method ClosePosition(symbol: string, quantity: Option<real>) returns (r: Option<OrderRecord>)
      requires Valid()
      modifies this
      ensures Valid()
      ensures symbol !in old(positions) ==> r == None && Snapshot() == old(Snapshot())
      ensures symbol in old(positions) ==>
        (r, Snapshot()) == ApplyOrder(old(Snapshot()), old(Equity()), currentPrices, overridePrice,
                                      spread, accountCurrency,
                                      CloseRequest(symbol, old(positions)[symbol], quantity))
      ensures currentPrices == old(currentPrices) && overridePrice == old(overridePrice)
      ensures spread == old(spread) && accountCurrency == old(accountCurrency)
      ensures initialCapital == old(initialCapital)
    {
      if symbol !in positions {
        return None;
      }
      r := PlaceOrder(CloseRequest(symbol, positions[symbol], quantity));
    }
  }

  /** The market order `close_position` sends: opposite side, the given
      (non-zero) quantity or else the whole size. */
  function CloseRequest(symbol: string, pos: Position, quantity: Option<real>): OrderRequest
  {
    var side := if pos.size > 0.0 then "sell" else "buy";
    var qty := if quantity.Some? && quantity.value != 0.0 then quantity.value else Abs(pos.size);
    OrderRequest(symbol, side, qty, "market", None, None, None)
  }

  /** Size of `symbol` in a positions map, zero when absent. */
  function SizeOf(positions: map<string, Position>, symbol: string): real
  {
    CurrentPosition(positions, symbol).size
  }

  /** Without a limit price, a buy and a sell fill symmetrically around the
      base price, exactly one spread apart. */
  lemma FillAroundBase(base: real, spread: real, orderType: string, price: Option<real>)
    requires !(price.Some? && price.value != 0.0 && orderType == "limit")
    ensures FillPrice("buy", base, spread, orderType, price) - FillPrice("sell", base, spread, orderType, price)
         == base * spread
    ensures FillPrice("buy", base, spread, orderType, price) + FillPrice("sell", base, spread, orderType, price)
         == 2.0 * base
  {
  }

  /** The leverage cap never exceeds the request, never buys more than
      equity affords at a positive fill, and is the request itself whenever
      that is affordable. */
  lemma CapBounds(quantity: real, equity: real, fill: real)
    ensures CappedQuantity(quantity, equity, fill) <= quantity
    ensures fill > 0.0 ==> CappedQuantity(quantity, equity, fill) * fill <= equity
    ensures fill <= 0.0 || quantity * fill <= equity ==> CappedQuantity(quantity, equity, fill) == quantity
  {
    var qty := CappedQuantity(quantity, equity, fill);
    if fill > 0.0 {
      var cap := equity / fill;
      assert cap * fill == equity;
      if quantity * fill <= equity {
        DivMonotone(quantity * fill, equity, fill);
        assert quantity * fill / fill == quantity;
      }
      if qty == cap {
        assert qty * fill == equity;
      } else {
        assert qty == quantity && quantity <= cap;
        assert quantity * fill <= cap * fill;
      }
    }
  }

  /** A fill never exceeds the requested quantity, and never costs more than
      the equity before the fill when the price is positive; when it fits
      (or the price is not positive) the whole quantity is filled. */
  lemma QuantityCapped(equity: real, prices: map<string, real>, overridePrice: Option<real>, spread: real,
                       o: OrderRequest)
    requires o.symbol in prices
    ensures var r := FillOrder(equity, prices, overridePrice, spread, o);
      && r.qty <= o.quantity
      && (r.price > 0.0 ==> r.qty * r.price <= equity)
      && ((r.price <= 0.0 || o.quantity * r.price <= equity) ==> r.qty == o.quantity)
  {
    var r := FillOrder(equity, prices, overridePrice, spread, o);
    CapBounds(o.quantity, equity, r.price);
  }

  /** The new size is the old size plus the signed executed quantity; the
      symbol is dropped exactly when that is zero; other symbols keep their
      positions. */
  lemma SizeAccounting(l: Ledger, equity: real, prices: map<string, real>, overridePrice: Option<real>,
                       spread: real, account: string, o: OrderRequest)
    requires o.symbol in prices
    ensures var (r, l') := ApplyOrder(l, equity, prices, overridePrice, spread, account, o);
      && r.Some?
      && SizeOf(l'.positions, o.symbol) == SizeOf(l.positions, o.symbol) + SignedQty(o.side, r.value.qty)
      && (o.symbol !in l'.positions <==> SizeOf(l.positions, o.symbol) + SignedQty(o.side, r.value.qty) == 0.0)
      && (forall s :: s != o.symbol ==> (s in l'.positions <==> s in l.positions))
      && (forall s :: s != o.symbol && s in l.positions ==> l'.positions[s] == l.positions[s])
  {
  }

  /** Adding in the direction held sets the size-weighted average entry, which
      lies between the old average and the fill; a pure reduction keeps the
      average; a flip restarts it at the fill. */
  lemma AverageEntry(cur: Position, signedQty: real, fill: real)
    requires cur.size + signedQty != 0.0
    ensures var p := UpdatedPosition(cur, signedQty, fill);
      && p.Some? && p.value.size == cur.size + signedQty
      && ((cur.size >= 0.0 && signedQty > 0.0) || (cur.size <= 0.0 && signedQty < 0.0) ==>
            && Abs(p.value.size) * p.value.avgPrice == Abs(cur.size) * cur.avgPrice + Abs(signedQty) * fill
            && (cur.size != 0.0 ==> Min(cur.avgPrice, fill) <= p.value.avgPrice <= Max(cur.avgPrice, fill))
            && (cur.size == 0.0 ==> p.value.avgPrice == fill))
      && (Opposing(cur.size, signedQty) && Abs(signedQty) <= Abs(cur.size) ==> p.value.avgPrice == cur.avgPrice)
      && (Opposing(cur.size, signedQty) && Abs(signedQty) > Abs(cur.size) ==> p.value.avgPrice == fill)
  {
    if (cur.size >= 0.0 && signedQty > 0.0) || (cur.size <= 0.0 && signedQty < 0.0) {
      AddingAverages(cur, signedQty, fill);
    }
  }

  /** The same-direction case of `AverageEntry`. */
  lemma AddingAverages(cur: Position, signedQty: real, fill: real)
    requires (cur.size >= 0.0 && signedQty > 0.0) || (cur.size <= 0.0 && signedQty < 0.0)
    ensures var p := UpdatedPosition(cur, signedQty, fill);
      && p.Some? && p.value.size == cur.size + signedQty
      && Abs(p.value.size) * p.value.avgPrice == Abs(cur.size) * cur.avgPrice + Abs(signedQty) * fill
      && (cur.size != 0.0 ==> Min(cur.avgPrice, fill) <= p.value.avgPrice <= Max(cur.avgPrice, fill))
      && (cur.size == 0.0 ==> p.value.avgPrice == fill)
  {
    var n := cur.size + signedQty;
    var a, b, d := Abs(cur.size), Abs(signedQty), Abs(n);
    var w := a * cur.avgPrice + b * fill;
    var p := UpdatedPosition(cur, signedQty, fill);
    assert n != 0.0;
    assert p.Some?;
    assert p.value.size == n;
    assert p.value.avgPrice == w / d;
    DivMul(w, d);
    assert d == a + b;
    BalancedBetween(a, b, cur.avgPrice, fill, p.value.avgPrice);
    assert cur.size == 0.0 ==> a == 0.0;
  }

  /** `place_order` on a priced symbol in terms of its own order record: the
      capped quantity at the fill, one order record, cash and trades as
      `Realize` leaves them, positions as `Reposition` leaves them. */
  lemma OrderOutcome(l: Ledger, equity: real, prices: map<string, real>, overridePrice: Option<real>,
                     spread: real, account: string, o: OrderRequest)
    requires o.symbol in prices
    ensures var (r, l') := ApplyOrder(l, equity, prices, overridePrice, spread, account, o);
      var f := FillOrder(equity, prices, overridePrice, spread, o);
      && r == Some(f)
      && l'.orders == l.orders + [f]
      && var cur := CurrentPosition(l.positions, o.symbol);
         var signedQty := SignedQty(o.side, f.qty);
         && (l'.cash, l'.trades) == Realize(l.cash, l.trades, o, cur, signedQty, f.price, account, prices)
         && l'.positions == Reposition(l.positions, o.symbol, cur, signedQty, f.price)
  {
  }

  /** An order against the position realises the profit of the closed part,
      credits it to cash and appends exactly one trade record; any other order
      leaves cash and the trade history alone. Every fill appends one order
      record. */
  lemma RealisedProfit(l: Ledger, equity: real, prices: map<string, real>, overridePrice: Option<real>,
                       spread: real, account: string, o: OrderRequest)
    requires o.symbol in prices
    ensures var (r, l') := ApplyOrder(l, equity, prices, overridePrice, spread, account, o);
      var cur := CurrentPosition(l.positions, o.symbol);
      var signedQty := SignedQty(o.side, r.value.qty);
      && r.Some?
      && l'.orders == l.orders + [r.value]
      && (Opposing(cur.size, signedQty) ==>
            && |l'.trades| == |l.trades| + 1 && l'.trades[..|l.trades|] == l.trades
            && var t := l'.trades[|l.trades|];
               && t.qty == Min(Abs(signedQty), Abs(cur.size))
               && t.entry == cur.avgPrice && t.exit == r.value.price
               && t.pnl == ConvertCurrency(RealizedRaw(cur, r.value.price, t.qty), o.symbol, account, prices)
               && l'.cash == l.cash + t.pnl)
      && (!Opposing(cur.size, signedQty) ==> l'.cash == l.cash && l'.trades == l.trades)
  {
    var cur := CurrentPosition(l.positions, o.symbol);
    var (r, l') := ApplyOrder(l, equity, prices, overridePrice, spread, account, o);
    OrderOutcome(l, equity, prices, overridePrice, spread, account, o);
    var fill := r.value.price;
    var signedQty := SignedQty(o.side, r.value.qty);
    if Opposing(cur.size, signedQty) {
      var closed := ClosedQty(signedQty, cur.size);
      var realized := ConvertCurrency(RealizedRaw(cur, fill, closed), o.symbol, account, prices);
      assert l'.trades == l.trades + [TradeRecord(o.symbol, o.side, closed, cur.avgPrice, fill,
                                                  realized, o.timestamp, o.exitReason)];
      assert l'.trades[..|l.trades|] == l.trades;
    }
  }

  /** Buying and then selling the same quantity at an unchanged price, with
      no spread, in a symbol quoted in the account currency, restores the
      ledger's cash and flat position and records one break-even trade. */
  lemma BuySellRoundTrip(l: Ledger, equity1: real, equity2: real, prices: map<string, real>,
                         account: string, symbol: string, q: real)
    requires symbol in prices && prices[symbol] > 0.0 && symbol !in l.positions
    requires Slice(symbol, 3, 6) == account
    requires q > 0.0 && q * prices[symbol] <= equity1 && q * prices[symbol] <= equity2
    ensures var buy := OrderRequest(symbol, "buy", q, "market", None, None, None);
      var sell := OrderRequest(symbol, "sell", q, "market", None, None, None);
      var (_, l1) := ApplyOrder(l, equity1, prices, None, 0.0, account, buy);
      var (_, l2) := ApplyOrder(l1, equity2, prices, None, 0.0, account, sell);
      && l2.cash == l.cash
      && l2.positions == l.positions
      && |l2.trades| == |l.trades| + 1 && l2.trades[|l.trades|].pnl == 0.0
  {
    var p := prices[symbol];
    var buy := OrderRequest(symbol, "buy", q, "market", None, None, None);
    var sell := OrderRequest(symbol, "sell", q, "market", None, None, None);
    var flat, held := Position(0.0, 0.0), Position(q, p);

    var f1 := FillOrder(equity1, prices, None, 0.0, buy);
    assert f1.price == p && f1.qty == q by {
      QuantityCapped(equity1, prices, None, 0.0, buy);
    }
    var l1 := ApplyOrder(l, equity1, prices, None, 0.0, account, buy).1;
    assert l1.cash == l.cash && l1.positions == l.positions[symbol := held] by {
      OrderOutcome(l, equity1, prices, None, 0.0, account, buy);
      assert CurrentPosition(l.positions, symbol) == flat;
      assert !Opposing(flat.size, q);
      AddingAverages(flat, q, p);
    }

    var f2 := FillOrder(equity2, prices, None, 0.0, sell);
    assert f2.price == p && f2.qty == q by {
      QuantityCapped(equity2, prices, None, 0.0, sell);
    }
    var l2 := ApplyOrder(l1, equity2, prices, None, 0.0, account, sell).1;
    var closed := TradeRecord(symbol, "sell", q, p, p, 0.0, None, None);
    assert l2.cash == l.cash && l2.trades == l1.trades + [closed] && l2.positions == l1.positions - {symbol} by {
      OrderOutcome(l1, equity2, prices, None, 0.0, account, sell);
      assert CurrentPosition(l1.positions, symbol) == held;
      assert Opposing(q, -q) && ClosedQty(-q, q) == q;
      assert RealizedRaw(held, p, q) == 0.0;
      assert ConvertCurrency(0.0, symbol, account, prices) == 0.0;
      assert UpdatedPosition(held, -q, p) == None;
    }
    assert l1.trades == l.trades by {
      OrderOutcome(l, equity1, prices, None, 0.0, account, buy);
    }
    assert l2.positions == l.positions;
  }
}
