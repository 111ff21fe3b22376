/** The leg-count validator (scripts/check_strategy_results.py).

    Result rows are grouped by (strategy_name, trade_date, expiry_date,
    entry_round, leg_type). An 'entry' group is compared with its strategy's
    num_entry_legs and a 'hedge' group with num_hedge_legs; a group is reported
    when its size differs. Rows of a strategy without a strategy_settings row
    fall out of the inner join, and other leg types are never compared. */
module LegCountCheck {
  import opened Wrappers
  import opened Calendar
  import opened Seqs

  /** The columns of strategy_run_results the check reads. */
  datatype ResultRow = ResultRow(strategy: string, tradeDate: Date, expiryDate: Date, entryRound: int, legType: string)

  /** num_entry_legs and num_hedge_legs of one strategy_settings row (None for SQL NULL). */
  datatype LegCounts = LegCounts(entryLegs: Option<int>, hedgeLegs: Option<int>)

  datatype GroupKey = GroupKey(strategy: string, tradeDate: Date, expiryDate: Date, entryRound: int, legType: string)

  /** A reported group: its key, its size and the configured count. */
  datatype Discrepancy = Discrepancy(key: GroupKey, actualCount: nat, expectedCount: int)

  function GroupOf(r: ResultRow): GroupKey {
    GroupKey(r.strategy, r.tradeDate, r.expiryDate, r.entryRound, r.legType)
  }

  function InGroup(g: GroupKey): ResultRow -> bool {
    (r: ResultRow) => GroupOf(r) == g
  }

  /** `COUNT(*)` of a group. */
  function GroupSize(rows: seq<ResultRow>, g: GroupKey): nat {
    |Filter(rows, InGroup(g))|
  }

  /** The count a group is compared with, if it is compared at all. */
  function Expected(settings: map<string, LegCounts>, g: GroupKey): (e: Option<int>)
    ensures e.Some? <==> (g.strategy in settings
      && ((g.legType == "entry" && settings[g.strategy].entryLegs.Some?)
          || (g.legType == "hedge" && settings[g.strategy].hedgeLegs.Some?)))
    ensures e.Some? && g.legType == "entry" ==> e == settings[g.strategy].entryLegs
    ensures e.Some? && g.legType == "hedge" ==> e == settings[g.strategy].hedgeLegs
  {
    if g.strategy !in settings then None
    else if g.legType == "entry" then settings[g.strategy].entryLegs
    else if g.legType == "hedge" then settings[g.strategy].hedgeLegs
    else None
  }

  predicate Mismatch(rows: seq<ResultRow>, settings: map<string, LegCounts>, g: GroupKey) {
    Expected(settings, g).Some? && GroupSize(rows, g) != Expected(settings, g).value
  }

  /** The rows of the discrepancies query (as a set; the ORDER BY is presentation). */
  function Discrepancies(rows: seq<ResultRow>, settings: map<string, LegCounts>): set<Discrepancy> {
    set i | 0 <= i < |rows| && Mismatch(rows, settings, GroupOf(rows[i]))
      :: Discrepancy(GroupOf(rows[i]), GroupSize(rows, GroupOf(rows[i])), Expected(settings, GroupOf(rows[i])).value)
  }

  /** `check_strategy_results()`: True iff the query returns no row. */
  function CheckStrategyResults(rows: seq<ResultRow>, settings: map<string, LegCounts>): (ok: bool)
    ensures ok <==> Discrepancies(rows, settings) == {}
  {
    |Discrepancies(rows, settings)| == 0
  }

  /** The process exit status. */
  function ExitCode(success: bool): (code: int)
    ensures code == 0 <==> success
    ensures code == 0 || code == 1
  {
    if success then 0 else 1
  }

  /** A group with at least one row is reported, with its actual and expected counts,
      exactly when it is an entry or hedge group of a configured strategy whose size
      differs from the configured count; nothing else is ever reported. */
  lemma DiscrepancyExact(rows: seq<ResultRow>, settings: map<string, LegCounts>, d: Discrepancy)
    ensures d in Discrepancies(rows, settings) <==>
      GroupSize(rows, d.key) > 0 && Expected(settings, d.key) == Some(d.expectedCount)
      && d.actualCount == GroupSize(rows, d.key) && d.actualCount != d.expectedCount
  {
    var g := d.key;
    if GroupSize(rows, g) > 0 && Expected(settings, g) == Some(d.expectedCount)
       && d.actualCount == GroupSize(rows, g) && d.actualCount != d.expectedCount {
      var f := Filter(rows, InGroup(g));
      assert f[0] in rows;
      var i :| 0 <= i < |rows| && rows[i] == f[0];
      assert GroupOf(rows[i]) == g;
    }
    if d in Discrepancies(rows, settings) {
      var i :| 0 <= i < |rows| && Mismatch(rows, settings, GroupOf(rows[i]))
        && d == Discrepancy(GroupOf(rows[i]), GroupSize(rows, GroupOf(rows[i])), Expected(settings, GroupOf(rows[i])).value);
      assert InGroup(g)(rows[i]);
      assert rows[i] in Filter(rows, InGroup(g));
    }
  }

  /** Rows the check never compares: their strategy has no settings row, or their
      leg_type is neither 'entry' nor 'hedge' (or the configured count is NULL). */
  predicate Ignored(settings: map<string, LegCounts>, r: ResultRow) {
    Expected(settings, GroupOf(r)).None?
  }

  /** Adding rows the check ignores changes neither the report nor the verdict. */
  lemma IgnoredRowsChangeNothing(rows: seq<ResultRow>, extra: seq<ResultRow>, settings: map<string, LegCounts>)
    requires forall i :: 0 <= i < |extra| ==> Ignored(settings, extra[i])
    ensures Discrepancies(rows + extra, settings) == Discrepancies(rows, settings)
  {
    forall g | Expected(settings, g).Some?
      ensures GroupSize(rows + extra, g) == GroupSize(rows, g)
    {
      FilterAppend(rows, extra, InGroup(g));
      FilterNone(extra, InGroup(g));
    }
    forall d ensures d in Discrepancies(rows + extra, settings) <==> d in Discrepancies(rows, settings) {
      DiscrepancyExact(rows + extra, settings, d);
      DiscrepancyExact(rows, settings, d);
    }
  }

  /** The check succeeds (and the script exits 0) iff every group of every row has the
      configured size, or is not compared. */
  lemma SuccessIffCountsMatch(rows: seq<ResultRow>, settings: map<string, LegCounts>)
    ensures CheckStrategyResults(rows, settings)
      <==> forall i :: 0 <= i < |rows| ==> !Mismatch(rows, settings, GroupOf(rows[i]))
    ensures ExitCode(CheckStrategyResults(rows, settings)) == 0
      <==> forall i :: 0 <= i < |rows| ==> !Mismatch(rows, settings, GroupOf(rows[i]))
  {
    if i :| 0 <= i < |rows| && Mismatch(rows, settings, GroupOf(rows[i])) {
      var g := GroupOf(rows[i]);
      assert Discrepancy(g, GroupSize(rows, g), Expected(settings, g).value) in Discrepancies(rows, settings);
    }
  }
}
