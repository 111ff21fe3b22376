/** The cash/position ledger of the simple trading simulator (src/sim.py).

    A Portfolio holds cash, one Position per symbol and a history of trade
    records. `apply_trade` understands three sides. The signs are kept as the
    source writes them: a sell debits cash exactly like a buy, and a close
    debits the closed position's value (size * price). */
module Sim {
  import opened Wrappers

  datatype Position = Position(symbol: string, size: real, entryPrice: Option<real>)

  /** One history entry: the trade's arguments and the cash after it. */
  datatype Record = Record(ts: int, symbol: string, side: string, price: real, size: real, cash: real)

  /** The whole state of a Portfolio, as a value. */
  datatype Ledger = Ledger(cash: real, positions: map<string, Position>, history: seq<Record>)

  function Abs(x: real): real {
    if x < 0.0 then -x else x
  }

  /** price * size plus |size| * slippage plus the commission. */
  function TradeCost(price: real, size: real, commission: real, slippage: real): real {
    price * size + Abs(size) * slippage + commission
  }

  /** `positions.get(symbol) or Position(symbol)`: a dataclass is always truthy, so an
      existing position is reused and a missing one starts flat with no entry price. */
  function PositionOf(l: Ledger, symbol: string): (p: Position)
    ensures symbol in l.positions ==> p == l.positions[symbol]
    ensures symbol !in l.positions ==> p == Position(symbol, 0.0, None)
  {
    if symbol in l.positions then l.positions[symbol] else Position(symbol, 0.0, None)
  }

  /** The effect of one `apply_trade` call on the ledger. */
  function Apply(l: Ledger, ts: int, symbol: string, side: string, price: real, size: real,
                 commission: real, slippage: real): (r: Ledger)
    ensures r.positions.Keys == l.positions.Keys + {symbol}
    ensures forall s :: s in l.positions && s != symbol ==> r.positions[s] == l.positions[s]
    ensures r.history == l.history + [Record(ts, symbol, side, price, size, r.cash)]
    ensures var was := PositionOf(l, symbol);
      var p := r.positions[symbol];
      && p.symbol == was.symbol
      && (side == "buy" ==>
            p.size == was.size + size
            && p.entryPrice == (if was.entryPrice.None? then Some(price) else was.entryPrice)
            && r.cash == l.cash - TradeCost(price, size, commission, slippage))
      && (side == "sell" ==>
            p.size == was.size - size && p.entryPrice == was.entryPrice
            && r.cash == l.cash - TradeCost(price, size, commission, slippage))
      && (side == "close" ==>
            p.size == 0.0 && p.entryPrice == None
            && r.cash == l.cash - was.size * price - commission - Abs(size) * slippage)
      && (side != "buy" && side != "sell" && side != "close" ==> p == was && r.cash == l.cash)
  {
    var cost := TradeCost(price, size, commission, slippage);
    var was := PositionOf(l, symbol);
    var (cash, p) :=
      if side == "buy" then
        (l.cash - cost, was.(size := was.size + size,
                             entryPrice := if was.entryPrice.None? then Some(price) else was.entryPrice))
      else if side == "sell" then (l.cash + -cost, was.(size := was.size - size))
      else if side == "close" then
        (l.cash + -(was.size * price) - commission - Abs(size) * slippage, was.(size := 0.0, entryPrice := None))
      else (l.cash, was);
    Ledger(cash, l.positions[symbol := p], l.history + [Record(ts, symbol, side, price, size, cash)])
  }

  /** Positions are filed under their own symbol. */
  ghost predicate SymbolsConsistent(l: Ledger) {
    forall s :: s in l.positions ==> l.positions[s].symbol == s
  }

  class Portfolio {
    var cash: real
    var positions: map<string, Position>
    var history: seq<Record>

    function State(): Ledger
      reads this
    {
      Ledger(cash, positions, history)
    }

    /** `Portfolio(cash=c)`: no positions, empty history. */
    constructor (initialCash: real)
      ensures State() == Ledger(initialCash, map[], [])
    {
      cash := initialCash;
      positions := map[];
      history := [];
    }

    /** `apply_trade`: updates the position of `symbol` and the cash according to the
        side, files the position under its symbol, and appends one history record. */
    method ApplyTrade(ts: int, symbol: string, side: string, price: real, size: real,
                      commission: real, slippage: real)
      modifies this
      ensures State() == Apply(old(State()), ts, symbol, side, price, size, commission, slippage)
    {
      var slippageCost := Abs(size) * slippage;
      var commissionCost := commission;
      var cost := price * size + slippageCost + commissionCost;
      var pos := if symbol in positions then positions[symbol] else Position(symbol, 0.0, None);
      if side == "buy" {
        pos := pos.(size := pos.size + size);
        pos := pos.(entryPrice := if pos.entryPrice.None? then Some(price) else pos.entryPrice);
        cash := cash - cost;
      } else if side == "sell" {
        pos := pos.(size := pos.size - size);
        cash := cash + -cost;
      } else if side == "close" {
        cash := cash + -(pos.size * price) - commissionCost - slippageCost;
        pos := pos.(size := 0.0, entryPrice := None);
      }
      positions := positions[symbol := pos];
      history := history + [Record(ts, symbol, side, price, size, cash)];
    }
  }

  /** Every trade keeps positions filed under their own symbol. */
  lemma ApplyKeepsSymbols(l: Ledger, ts: int, symbol: string, side: string, price: real, size: real,
                          commission: real, slippage: real)
    requires SymbolsConsistent(l)
    ensures SymbolsConsistent(Apply(l, ts, symbol, side, price, size, commission, slippage))
  {
  }

  /** On a ledger whose positions are filed under their own symbols, the position a
      trade starts from carries the traded symbol, whether it was reused or fresh. */
  lemma PositionOfSymbol(l: Ledger, symbol: string)
    requires SymbolsConsistent(l)
    ensures PositionOf(l, symbol).symbol == symbol
    ensures symbol !in l.positions ==> PositionOf(l, symbol).size == 0.0 && PositionOf(l, symbol).entryPrice.None?
  {
  }

  /** As written, a sell moves cash exactly as a buy of the same size does. */
  lemma SellDebitsLikeBuy(l: Ledger, ts: int, symbol: string, price: real, size: real,
                          commission: real, slippage: real)
    ensures Apply(l, ts, symbol, "sell", price, size, commission, slippage).cash
         == Apply(l, ts, symbol, "buy", price, size, commission, slippage).cash
    ensures Apply(l, ts, symbol, "sell", price, size, commission, slippage).cash
         == l.cash - price * size - Abs(size) * slippage - commission
  {
  }

  /** As written, buying into a flat position and then closing it at the same price,
      with no costs, is not cash-neutral: both legs debit price * size. */
  lemma BuyThenCloseDebitsTwice(l: Ledger, symbol: string, price: real, size: real, t1: int, t2: int)
    requires symbol !in l.positions
    ensures var after := Apply(Apply(l, t1, symbol, "buy", price, size, 0.0, 0.0), t2, symbol, "close", price, size, 0.0, 0.0);
      after.cash == l.cash - 2.0 * price * size && after.positions[symbol].size == 0.0
  {
    var mid := Apply(l, t1, symbol, "buy", price, size, 0.0, 0.0);
    assert PositionOf(mid, symbol).size == size;
  }

  /** Closing an already closed position only pays commission and slippage, and leaves
      the position flat with no entry price. */
  lemma CloseTwice(l: Ledger, symbol: string, p1: real, s1: real, p2: real, s2: real,
                   commission: real, slippage: real, t1: int, t2: int)
    ensures var once := Apply(l, t1, symbol, "close", p1, s1, commission, slippage);
      var twice := Apply(once, t2, symbol, "close", p2, s2, commission, slippage);
      && twice.cash == once.cash - commission - Abs(s2) * slippage
      && twice.positions[symbol] == once.positions[symbol]
  {
    var once := Apply(l, t1, symbol, "close", p1, s1, commission, slippage);
    assert PositionOf(once, symbol).size == 0.0;
  }

  /** The entry price is the price of the first buy into a flat-entry position and later
      buys and sells never change it. */
  lemma EntryPriceKept(l: Ledger, symbol: string, side: string, price: real, size: real,
                       commission: real, slippage: real, ts: int)
    requires PositionOf(l, symbol).entryPrice.Some?
    requires side != "close"
    ensures Apply(l, ts, symbol, side, price, size, commission, slippage).positions[symbol].entryPrice
         == PositionOf(l, symbol).entryPrice
  {
  }
}
