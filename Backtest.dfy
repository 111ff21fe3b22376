/** The backtest driver (src/backtest.py): signal rows sorted by timestamp are
    replayed through a fresh Portfolio. Signals are matched case-insensitively:
    buy/long trade as "buy", sell/short as "sell", close/exit as "close"; any other
    or missing signal is not traded. */
module Backtest {
  import opened Wrappers
  import opened Text
  import opened Sorting
  import opened Seqs
  import opened Sim

  /** One row returned by the strategy SQL. `signal` and `size` are None when the
      result has no such column; `signal` is otherwise the value's string form. */
  datatype SignalRow = SignalRow(ts: int, symbol: string, signal: Option<string>, price: real, size: Option<real>)

  /** `str(row.get("signal", "")).lower()` mapped to the side it trades, if any. */
  function SideOf(signal: Option<string>): (side: Option<string>)
    ensures side.Some? ==> side.value in {"buy", "sell", "close"}
    ensures signal.None? ==> side.None?
    ensures signal.Some? ==> (side == Some("buy") <==> Lower(signal.value) in {"buy", "long"})
    ensures signal.Some? ==> (side == Some("sell") <==> Lower(signal.value) in {"sell", "short"})
    ensures signal.Some? ==> (side == Some("close") <==> Lower(signal.value) in {"close", "exit"})
    ensures signal.Some? ==>
              (side.None? <==> Lower(signal.value) !in {"buy", "long", "sell", "short", "close", "exit"})
  {
    var s := if signal.None? then "" else Lower(signal.value);
    if s == "buy" || s == "long" then Some("buy")
    else if s == "sell" || s == "short" then Some("sell")
    else if s == "close" || s == "exit" then Some("close")
    else None
  }

  /** `float(row.get("size", 1.0))`. */
  function SizeOf(r: SignalRow): real {
    if r.size.None? then 1.0 else r.size.value
  }

  function TsOrder(): (SignalRow, SignalRow) -> bool {
    (a: SignalRow, b: SignalRow) => a.ts <= b.ts
  }

  lemma TsOrderTotal()
    ensures TotalPreorder(TsOrder())
  {
  }

  /** `df.sort_values("ts")`. */
  function SortByTs(rows: seq<SignalRow>): (r: seq<SignalRow>)
    ensures multiset(r) == multiset(rows)
    ensures forall i, j :: 0 <= i < j < |r| ==> r[i].ts <= r[j].ts
  {
    TsOrderTotal();
    Sort(rows, TsOrder())
  }

  /** The rows that produce a trade. */
  function IsTrade(): SignalRow -> bool {
    (r: SignalRow) => SideOf(r.signal).Some?
  }

  /** One iteration of the dispatch loop: trade the row if its signal maps to a side. */
  function Step(l: Ledger, r: SignalRow, commission: real, slippage: real): Ledger {
    match SideOf(r.signal)
    case None => l
    case Some(side) => Apply(l, r.ts, r.symbol, side, r.price, SizeOf(r), commission, slippage)
  }

  /** A traded row appends one record describing it; any other row changes nothing. */
  lemma StepHistory(l: Ledger, r: SignalRow, commission: real, slippage: real)
    ensures IsTrade()(r) ==> exists rec :: Step(l, r, commission, slippage).history == l.history + [rec] && RecordOf(rec, r)
    ensures !IsTrade()(r) ==> Step(l, r, commission, slippage) == l
  {
    if IsTrade()(r) {
      var next := Step(l, r, commission, slippage);
      assert RecordOf(next.history[|l.history|], r);
    }
  }

  /** The ledger after feeding rows, in order, to `apply_trade`. */
  function Replay(l: Ledger, rows: seq<SignalRow>, commission: real, slippage: real): Ledger
    decreases |rows|
  {
    if rows == [] then l else Replay(Step(l, rows[0], commission, slippage), rows[1..], commission, slippage)
  }

  /** `run_backtest`: None when the SQL returned no rows, otherwise the portfolio after
      replaying the rows in timestamp order from `initialCapital`. */
  method RunBacktest(rows: seq<SignalRow>, initialCapital: real, commission: real, slippage: real)
    returns (port: Portfolio?)
    ensures rows == [] <==> port == null
    ensures port != null ==>
      fresh(port) && port.State() == Replay(Ledger(initialCapital, map[], []), SortByTs(rows), commission, slippage)
  {
    if rows == [] {
      return null;
    }
    var sorted := SortByTs(rows);
    port := new Portfolio(initialCapital);
    var i := 0;
    while i < |sorted|
      invariant 0 <= i <= |sorted|
      invariant Replay(port.State(), sorted[i..], commission, slippage)
             == Replay(Ledger(initialCapital, map[], []), sorted, commission, slippage)
      modifies port
    {
      var row := sorted[i];
      assert sorted[i..][1..] == sorted[i + 1..];
      var signal := if row.signal.None? then "" else Lower(row.signal.value);
      var size := SizeOf(row);
      if signal == "buy" || signal == "long" {
        port.ApplyTrade(row.ts, row.symbol, "buy", row.price, size, commission, slippage);
      } else if signal == "sell" || signal == "short" {
        port.ApplyTrade(row.ts, row.symbol, "sell", row.price, size, commission, slippage);
      } else if signal == "close" || signal == "exit" {
        port.ApplyTrade(row.ts, row.symbol, "close", row.price, size, commission, slippage);
      }
      i := i + 1;
    }
  }

  /** A history record made for a row: the row's timestamp, symbol, price and size,
      and its normalised side. */
  predicate RecordOf(rec: Record, row: SignalRow) {
    rec.ts == row.ts && rec.symbol == row.symbol && rec.price == row.price
    && rec.size == SizeOf(row) && Some(rec.side) == SideOf(row.signal)
  }

  /** The history gains one record per traded row, in row order, and earlier history is
      never rewritten. */
  lemma {:induction false} ReplayHistory(l: Ledger, rows: seq<SignalRow>, commission: real, slippage: real)
    ensures var h := Replay(l, rows, commission, slippage).history;
      Describes(h, |l.history|, Filter(rows, IsTrade())) && h[..|l.history|] == l.history
    decreases |rows|
  {
    if rows != [] {
      var r := rows[0];
      var next := Step(l, r, commission, slippage);
      StepHistory(l, r, commission, slippage);
      ReplayHistory(next, rows[1..], commission, slippage);
      ReplayHistoryStep(l, rows, commission, slippage);
    }
  }

  /** Records made for traded rows, stated once for every history shape. */
  predicate Describes(h: seq<Record>, start: nat, rows: seq<SignalRow>) {
    |h| == start + |rows| && forall k :: 0 <= k < |rows| ==> RecordOf(h[start + k], rows[k])
  }

  lemma ReplayHistoryStep(l: Ledger, rows: seq<SignalRow>, commission: real, slippage: real)
    requires rows != []
    requires var next := Step(l, rows[0], commission, slippage);
      var h := Replay(next, rows[1..], commission, slippage).history;
      Describes(h, |next.history|, Filter(rows[1..], IsTrade())) && h[..|next.history|] == next.history
    requires IsTrade()(rows[0]) ==> exists rec :: Step(l, rows[0], commission, slippage).history == l.history + [rec] && RecordOf(rec, rows[0])
    requires !IsTrade()(rows[0]) ==> Step(l, rows[0], commission, slippage) == l
    ensures var h := Replay(l, rows, commission, slippage).history;
      Describes(h, |l.history|, Filter(rows, IsTrade())) && h[..|l.history|] == l.history
  {
    var r := rows[0];
    var next := Step(l, r, commission, slippage);
    var h := Replay(next, rows[1..], commission, slippage).history;
    assert Replay(l, rows, commission, slippage).history == h;
    var tail := Filter(rows[1..], IsTrade());
    var traded := Filter(rows, IsTrade());
    if IsTrade()(r) {
      assert traded == [r] + tail;
      var rec :| next.history == l.history + [rec] && RecordOf(rec, r);
      DescribesCons(h, l.history, rec, r, tail);
    } else {
      assert traded == tail;
    }
  }

  lemma DescribesCons(h: seq<Record>, prev: seq<Record>, rec: Record, r: SignalRow, tail: seq<SignalRow>)
    requires Describes(h, |prev| + 1, tail)
    requires h[..|prev| + 1] == prev + [rec] && RecordOf(rec, r)
    ensures Describes(h, |prev|, [r] + tail) && h[..|prev|] == prev
  {
    var n := |prev|;
    assert h[..n] == h[..n + 1][..n];
    var rows := [r] + tail;
    forall k | 0 <= k < |rows| ensures RecordOf(h[n + k], rows[k]) {
      if k == 0 {
        assert h[n] == h[..n + 1][n];
      } else {
        assert rows[k] == tail[k - 1];
        assert h[n + k] == h[(n + 1) + (k - 1)];
      }
    }
  }

  function TsKey(): SignalRow -> int {
    (r: SignalRow) => r.ts
  }

  /** Replaying rows in timestamp order appends history records in timestamp order. */
  lemma ReplayOrdered(l: Ledger, rows: seq<SignalRow>, commission: real, slippage: real)
    requires OrderedBy(rows, TsKey())
    ensures var h := Replay(l, rows, commission, slippage).history;
      forall i, j :: |l.history| <= i < j < |h| ==> h[i].ts <= h[j].ts
  {
    ReplayHistory(l, rows, commission, slippage);
    FilterKeepsOrder(rows, IsTrade(), TsKey());
    DescribedOrdered(Replay(l, rows, commission, slippage).history, |l.history|, Filter(rows, IsTrade()));
  }

  lemma DescribedOrdered(h: seq<Record>, n: nat, traded: seq<SignalRow>)
    requires Describes(h, n, traded) && OrderedBy(traded, TsKey())
    ensures forall i, j :: n <= i < j < |h| ==> h[i].ts <= h[j].ts
  {
    forall i, j | n <= i < j < |h| ensures h[i].ts <= h[j].ts {
      assert RecordOf(h[n + (i - n)], traded[i - n]) && RecordOf(h[n + (j - n)], traded[j - n]);
      assert TsKey()(traded[i - n]) <= TsKey()(traded[j - n]);
    }
  }

  /** The history of a backtest is in timestamp order. */
  lemma BacktestHistoryOrdered(rows: seq<SignalRow>, initialCapital: real, commission: real, slippage: real)
    ensures var h := Replay(Ledger(initialCapital, map[], []), SortByTs(rows), commission, slippage).history;
      forall i, j :: 0 <= i < j < |h| ==> h[i].ts <= h[j].ts
  {
    var sorted := SortByTs(rows);
    assert OrderedBy(sorted, TsKey()) by {
      forall i, j | 0 <= i < j < |sorted| ensures TsKey()(sorted[i]) <= TsKey()(sorted[j]) {
        assert sorted[i].ts <= sorted[j].ts;
      }
    }
    ReplayOrdered(Ledger(initialCapital, map[], []), sorted, commission, slippage);
  }

  /** Signals are matched without regard to case. */
  lemma SideOfIgnoresCase(s: string)
    ensures SideOf(Some(s)) == SideOf(Some(Lower(s)))
  {
    LowerIdempotent(s);
  }
}
