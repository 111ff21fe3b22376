/** The script that applies the SQL files of `sql/` in a fixed order and refreshes
    every materialized view each file declares: an entry starting with `CALL ` is
    executed as it stands and its failure propagates out of the script, a missing
    file is skipped, a file that cannot be read or executed stops the run, and a
    failed refresh is reported and the run goes on. */
module RefreshSequential {
  import opened Wrappers
  import opened Text
  import opened SqlBundle
  import opened MatviewNames

  /** `ORDERED_SQL`, in consecutive blocks. A comma is missing after its second
      literal, so Python joins `2_create_filtered_views.sql` and
      `3_create_mv_nifty_options_filtered.sql` into one entry, the second. */
  const OrderedSql: seq<string> :=
    SetupEntries + LegEntries + ExitEntries + RehedgeEntries
    + ReentryLegEntries + ReentryExitEntries + ReentryHedgeEntries
    + ReentryRehedgeEntries + PortfolioEntries

  /** The base views and the breakout ranking. */
  const SetupEntries: seq<string> := [
    "1_create_v_strategy_config.sql",
    "2_create_filtered_views.sql" + "3_create_mv_nifty_options_filtered.sql",
    "4_create_mv_all_5min_breakouts.sql",
    "5_create_mv_ranked_breakouts_with_rounds.sql",
    "6_create_mv_ranked_breakouts_with_rounds_for_reentry.sql"
  ]

  /** Round 1: strike selection, legs, live prices and stop losses. */
  const LegEntries: seq<string> := [
    "7_create_mv_base_strike_selection.sql",
    "8_create_mv_breakout_context_round1.sql",
    "9_create_mv_entry_and_hedge_legs.sql",
    "63_create_wrk_live_prices_entry_round1.sql",
    "10_create_mv_live_prices_entry_round1.sql",
    "11_create_mv_entry_sl_hits_round1.sql",
    "12_create_mv_entry_sl_executions_round1.sql",
    "13_create_mv_entry_open_legs_round1.sql"
  ]

  /** Round 1: profit booking, closes, statistics and hedge exits. */
  const ExitEntries: seq<string> := [
    "14_create_mv_entry_profit_booking_round1.sql",
    "15_create_mv_entry_eod_close_round1.sql",
    "16_create_mv_entry_closed_legs_round1.sql",
    "17_create_mv_entry_round1_stats.sql",
    "18_create_mv_hedge_exit_on_all_entry_sl.sql",
    "19_create_mv_hedge_exit_partial_conditions.sql",
    "20_create_mv_hedge_closed_legs_round1.sql",
    "21_create_mv_hedge_eod_exit_round1.sql"
  ]

  /** Round 1: entry exits on hedge conditions, double buys and rehedges. */
  const RehedgeEntries: seq<string> := [
    "22_create_mv_entry_exit_on_partial_hedge_round1.sql",
    "23_create_mv_double_buy_legs_round1.sql",
    "24_create_mv_entry_final_exit_round1.sql",
    "25_create_mv_rehedge_trigger_round1.sql",
    "26_create_mv_rehedge_candidate_round1.sql",
    "27_create_mv_rehedge_selected_round1.sql",
    "28_create_mv_rehedge_leg_round1.sql",
    "29_create_mv_rehedge_eod_exit_round1.sql"
  ]

  /** The round-1 consolidation and the re-entry legs. */
  const ReentryLegEntries: seq<string> := [
    "30_create_mv_all_legs_round1.sql",
    "31_sp_insert_sl_legs_into_book.sql",
    "32_create_mv_reentry_triggered_breakouts.sql",
    "33_create_mv_reentry_base_strike_selection.sql",
    "34_create_mv_reentry_legs_and_hedge_legs.sql",
    "64_create_wrk_reentry_live_prices.sql",
    "35_create_mv_reentry_live_prices.sql"
  ]

  /** Re-entry: context, stop losses, closes and statistics. */
  const ReentryExitEntries: seq<string> := [
    "36_create_mv_reentry_breakout_context.sql",
    "37_create_mv_reentry_sl_hits.sql",
    "38_create_mv_reentry_sl_executions.sql",
    "39_create_mv_reentry_open_legs.sql",
    "40_create_mv_reentry_profit_booking.sql",
    "41_create_mv_reentry_eod_close.sql",
    "42_create_mv_reentry_final_exit.sql",
    "43_create_mv_reentry_legs_stats.sql"
  ]

  /** Re-entry: hedge exits and double buys. */
  const ReentryHedgeEntries: seq<string> := [
    "44_create_mv_hedge_reentry_exit_on_all_entry_sl.sql",
    "45_create_mv_hedge_reentry_exit_on_partial_conditions.sql",
    "46_create_mv_hedge_reentry_closed_legs.sql",
    "47_create_mv_hedge_reentry_eod_exit.sql",
    "48_create_mv_reentry_exit_on_partial_hedge.sql",
    "49_create_mv_double_buy_legs_reentry.sql"
  ]

  /** Re-entry rehedges and the re-entry loop. */
  const ReentryRehedgeEntries: seq<string> := [
    "50_create_mv_rehedge_trigger_reentry.sql",
    "51_create_mv_rehedge_candidate_reentry.sql",
    "52_create_mv_rehedge_selected_reentry.sql",
    "53_create_mv_rehedge_leg_reentry.sql",
    "54_create_mv_rehedge_eod_exit_reentry.sql",
    "55_create_mv_all_legs_reentry.sql",
    "56_fn_run_reentry_loop.sql",
    "66_run_reentry_loop.sql"
  ]

  /** The portfolio views and the batched strategy procedure. */
  const PortfolioEntries: seq<string> := [
    "65_create_wrk_entry_leg_live_prices.sql",
    "57_create_mv_entry_leg_live_prices.sql",
    "58_create_mv_all_entries_sl_tracking_adjusted.sql",
    "59_create_mv_portfolio_mtm_pnl.sql",
    "60_create_mv_portfolio_final_pnl.sql",
    "61_create_strategy_run_results.sql",
    "68_create_sp_run_strategy_batched.sql"
  ]

  /** What the database does with each statement; failing statements by file name,
      raw-SQL entry and view name. A failure to connect counts as a failure of the
      statement it was for. */
  datatype Database = Database(applyFails: set<string>, callFails: set<string>, refreshFails: set<string>)

  /** The messages of the run, in order. */
  datatype Event =
    | Executed(sql: string)          // `Executed: CALL ...`
    | Skipped(file: string)          // `Skipping missing SQL file: ...`
    | Applied(file: string)          // `Executed <file>`
    | Failed(file: string)           // `Error executing <file>: ...`, after a rollback
    | Refreshed(view: string, ok: bool)  // `Refreshed: public.<view>` or `Failed to refresh ...`

  /** How the run ends: `All done.`, the early return after a file that could not be
      applied, or the exception of a raw-SQL entry leaving the script. */
  datatype Ending = AllDone | Stopped(file: string) | Raised(sql: string)

  /** The messages of one entry, and the ending it forces, if any. */
  datatype Outcome = Outcome(events: seq<Event>, halt: Option<Ending>)

  datatype Report = Report(log: seq<Event>, ending: Ending)

  /** One refresh per declared view, in order; a failure is only reported. */
  function Refreshes(names: seq<string>, fails: set<string>): seq<Event> {
    seq(|names|, k requires 0 <= k < |names| => Refreshed(names[k], names[k] !in fails))
  }

  /** One iteration of the loop of `main` for the entry `f`. */
  function Entry(f: string, folder: map<string, FileState>, db: Database): Outcome {
    if StartsWith(f, "CALL ") then
      if f in db.callFails then Outcome([], Some(Raised(f))) else Outcome([Executed(f)], None)
    else match FileOf(folder, f)
      case Absent => Outcome([Skipped(f)], None)
      case Unreadable(_) => Outcome([], Some(Stopped(f)))
      case Readable(sql) =>
        if f in db.applyFails then Outcome([Failed(f)], Some(Stopped(f)))
        else Outcome([Applied(f)] + Refreshes(ExtractMatviewNames(sql), db.refreshFails), None)
  }

  function Then(log: seq<Event>, r: Report): Report {
    Report(log + r.log, r.ending)
  }

  /** The run over `entries` when each entry has the outcome `entry` gives it: the
      messages of every entry in turn, up to the first entry that forces an ending. */
  function RunWith(entries: seq<string>, entry: string -> Outcome): Report {
    if entries == [] then Report([], AllDone)
    else
      var o := entry(entries[0]);
      match o.halt
      case Some(e) => Report(o.events, e)
      case None => Then(o.events, RunWith(entries[1..], entry))
  }

  function EntryOf(folder: map<string, FileState>, db: Database): string -> Outcome {
    (f: string) => Entry(f, folder, db)
  }

  /** No entry ends the run as if it had completed. */
  ghost predicate HaltsOnFailure(entry: string -> Outcome) {
    forall f :: entry(f).halt != Some(AllDone)
  }

  lemma EntryHaltsOnFailure(folder: map<string, FileState>, db: Database)
    ensures HaltsOnFailure(EntryOf(folder, db))
  {
  }

  /** The whole run over `entries`. */
  function Run(entries: seq<string>, folder: map<string, FileState>, db: Database): Report {
    RunWith(entries, EntryOf(folder, db))
  }

  /** The run from entry i on, one entry unfolded. */
  lemma RunStep(entries: seq<string>, i: nat, folder: map<string, FileState>, db: Database)
    requires i < |entries|
    ensures var o := Entry(entries[i], folder, db);
      Run(entries[i..], folder, db) ==
        if o.halt.Some? then Report(o.events, o.halt.value) else Then(o.events, Run(entries[i + 1..], folder, db))
  {
    assert entries[i..][1..] == entries[i + 1..];
  }

  /** The run from entry i on, after the messages `log`, one entry unfolded. */
  lemma RunPrefix(entries: seq<string>, i: nat, folder: map<string, FileState>, db: Database, log: seq<Event>)
    requires i < |entries|
    ensures var o := Entry(entries[i], folder, db);
      Then(log, Run(entries[i..], folder, db)) ==
        if o.halt.Some? then Report(log + o.events, o.halt.value)
        else Then(log + o.events, Run(entries[i + 1..], folder, db))
  {
    RunStep(entries, i, folder, db);
    var o := Entry(entries[i], folder, db);
    var rest := Run(entries[i + 1..], folder, db);
    assert log + (o.events + rest.log) == (log + o.events) + rest.log;
  }

  /** The refresh loop for the views one file declares. */
  method RefreshViews(names: seq<string>, db: Database) returns (events: seq<Event>)
    ensures events == Refreshes(names, db.refreshFails)
  {
    events := [];
    for k := 0 to |names|
      invariant events == Refreshes(names[..k], db.refreshFails)
    {
      var ok := names[k] !in db.refreshFails;
      events := events + [Refreshed(names[k], ok)];
    }
    assert names[..|names|] == names;
  }

  /** One pass of the loop of `main`: the messages of entry `f` and, when it ends
      the run, how. */
  method RunEntry(f: string, folder: map<string, FileState>, db: Database)
    returns (events: seq<Event>, halt: Option<Ending>)
    ensures Outcome(events, halt) == Entry(f, folder, db)
  {
    if StartsWith(f, "CALL ") {
      if f in db.callFails {
        return [], Some(Raised(f));
      }
      return [Executed(f)], None;
    }
    var file := FileOf(folder, f);
    if file.Absent? {
      return [Skipped(f)], None;
    } else if file.Unreadable? {
      return [], Some(Stopped(f));
    } else if f in db.applyFails {
      return [Failed(f)], Some(Stopped(f));
    }
    var names := ExtractMatviewNames(file.content);
    var refreshed := RefreshViews(names, db);
    return [Applied(f)] + refreshed, None;
  }

  /** `main` over `entries`: the messages and how the run ends. */
  method ApplyAndRefresh(entries: seq<string>, folder: map<string, FileState>, db: Database)
    returns (log: seq<Event>, ending: Ending)
    ensures Report(log, ending) == Run(entries, folder, db)
  {
    log := [];
    var i := 0;
    while i < |entries|
      invariant i <= |entries|
      invariant Run(entries, folder, db) == Then(log, Run(entries[i..], folder, db))
    {
      var events, halt := RunEntry(entries[i], folder, db);
      RunPrefix(entries, i, folder, db, log);
      if halt.Some? {
        return log + events, halt.value;
      }
      log := log + events;
      i := i + 1;
    }
    assert entries[i..] == [];
    return log, AllDone;
  }

  /** `main()`: the run over `ORDERED_SQL`. */
  method RefreshMatviewsSequential(folder: map<string, FileState>, db: Database)
    returns (log: seq<Event>, ending: Ending)
    ensures Report(log, ending) == Run(OrderedSql, folder, db)
    ensures ending != AllDone ==> exists i :: 0 <= i < |OrderedSql| && Entry(OrderedSql[i], folder, db).halt == Some(ending)
  {
    log, ending := ApplyAndRefresh(OrderedSql, folder, db);
    if ending != AllDone {
      var i := StopsAtFirstFailure(OrderedSql, folder, db);
    }
  }

  // ---- the control policy ----

  /** A run over `a + b`: when the run over `a` completes it goes on with `b`,
      otherwise nothing of `b` is done. */
  lemma {:induction false} RunWithAppend(a: seq<string>, b: seq<string>, entry: string -> Outcome)
    requires HaltsOnFailure(entry)
    ensures RunWith(a + b, entry) ==
      if RunWith(a, entry).ending == AllDone then Then(RunWith(a, entry).log, RunWith(b, entry))
      else RunWith(a, entry)
    decreases |a|
  {
    if a == [] {
      assert a + b == b;
    } else {
      assert (a + b)[0] == a[0];
      assert (a + b)[1..] == a[1..] + b;
      RunWithAppend(a[1..], b, entry);
      var o := entry(a[0]);
      var r := RunWith(a[1..], entry);
      if o.halt.None? && r.ending == AllDone {
        assert o.events + (r.log + RunWith(b, entry).log) == (o.events + r.log) + RunWith(b, entry).log;
      }
    }
  }

  lemma RunAppend(a: seq<string>, b: seq<string>, folder: map<string, FileState>, db: Database)
    ensures Run(a + b, folder, db) ==
      if Run(a, folder, db).ending == AllDone then Then(Run(a, folder, db).log, Run(b, folder, db))
      else Run(a, folder, db)
  {
    EntryHaltsOnFailure(folder, db);
    RunWithAppend(a, b, EntryOf(folder, db));
  }

  /** The run ends with `All done.` exactly when no entry forces an ending. */
  lemma {:induction false} RunWithCompletes(entries: seq<string>, entry: string -> Outcome)
    requires HaltsOnFailure(entry)
    ensures RunWith(entries, entry).ending == AllDone <==>
      forall j :: 0 <= j < |entries| ==> entry(entries[j]).halt.None?
    decreases |entries|
  {
    if entries != [] {
      RunWithCompletes(entries[1..], entry);
      assert forall j :: 1 <= j < |entries| ==> entries[j] == entries[1..][j - 1];
      assert entry(entries[0]).halt != Some(AllDone);
    }
  }

  lemma CompletesIffNoFailure(entries: seq<string>, folder: map<string, FileState>, db: Database)
    ensures Run(entries, folder, db).ending == AllDone <==>
      forall j :: 0 <= j < |entries| ==> Entry(entries[j], folder, db).halt.None?
  {
    EntryHaltsOnFailure(folder, db);
    RunWithCompletes(entries, EntryOf(folder, db));
  }

  /** A run that does not complete ends at its first failing entry i, with that
      entry's ending, and is the run over the entries up to i. */
  lemma {:induction false} RunWithStops(entries: seq<string>, entry: string -> Outcome) returns (i: nat)
    requires RunWith(entries, entry).ending != AllDone
    ensures i < |entries|
    ensures forall j :: 0 <= j < i ==> entry(entries[j]).halt.None?
    ensures entry(entries[i]).halt == Some(RunWith(entries, entry).ending)
    ensures RunWith(entries, entry) == RunWith(entries[..i + 1], entry)
    decreases |entries|
  {
    var o := entry(entries[0]);
    if o.halt.Some? {
      i := 0;
      assert entries[..1][0] == entries[0];
    } else {
      var i' := RunWithStops(entries[1..], entry);
      i := i' + 1;
      assert entries[..i + 1][0] == entries[0];
      assert entries[..i + 1][1..] == entries[1..][..i' + 1];
    }
  }

  /** A run that does not complete ends at its first failing entry i, with that
      entry's ending, and is the run over the entries up to i: nothing after i is
      applied, executed or refreshed. */
  lemma StopsAtFirstFailure(entries: seq<string>, folder: map<string, FileState>, db: Database)
    returns (i: nat)
    requires Run(entries, folder, db).ending != AllDone
    ensures i < |entries|
    ensures forall j :: 0 <= j < i ==> Entry(entries[j], folder, db).halt.None?
    ensures Entry(entries[i], folder, db).halt == Some(Run(entries, folder, db).ending)
    ensures Run(entries, folder, db) == Run(entries[..i + 1], folder, db)
  {
    i := RunWithStops(entries, EntryOf(folder, db));
  }

  /** Only an entry starting with `CALL ` lets an exception out of the script; a
      failing file stops the run quietly. */
  lemma RaisedOnlyByCall(f: string, folder: map<string, FileState>, db: Database)
    ensures Entry(f, folder, db).halt.Some? && Entry(f, folder, db).halt.value.Raised? <==>
      StartsWith(f, "CALL ") && f in db.callFails
    ensures Entry(f, folder, db).halt.Some? && Entry(f, folder, db).halt.value.Stopped? <==>
      !StartsWith(f, "CALL ") && (FileOf(folder, f).Unreadable? || (FileOf(folder, f).Readable? && f in db.applyFails))
  {
  }

  // ---- refreshes ----

  /** The messages of an applied file: the file, then one refresh per view. */
  lemma AppliedEvents(f: string, names: seq<string>, fails: set<string>)
    ensures var events := [Applied(f)] + Refreshes(names, fails);
      && |events| == 1 + |names|
      && forall k :: 0 <= k < |names| ==> events[k + 1] == Refreshed(names[k], names[k] !in fails)
  {
  }

  /** A file that is applied is followed at once by one refresh per view it declares,
      in the order of the declarations, each reported as failed exactly when the
      database refuses it; a file that is not applied refreshes nothing. */
  lemma AppliedThenRefreshed(f: string, folder: map<string, FileState>, db: Database)
    ensures var o := Entry(f, folder, db);
      (o.events != [] && o.events[0] == Applied(f)) <==>
        !StartsWith(f, "CALL ") && FileOf(folder, f).Readable? && f !in db.applyFails
    ensures var o := Entry(f, folder, db);
      o.events != [] && o.events[0] == Applied(f) ==>
        var names := ExtractMatviewNames(FileOf(folder, f).content);
        && o.halt == None
        && |o.events| == 1 + |names|
        && forall k :: 0 <= k < |names| ==>
             o.events[k + 1] == Refreshed(names[k], names[k] !in db.refreshFails)
    ensures var o := Entry(f, folder, db);
      (o.events == [] || o.events[0] != Applied(f)) ==> forall k :: 0 <= k < |o.events| ==> !o.events[k].Refreshed?
  {
    var o := Entry(f, folder, db);
    if !StartsWith(f, "CALL ") && FileOf(folder, f).Readable? && f !in db.applyFails {
      var names := ExtractMatviewNames(FileOf(folder, f).content);
      assert o == Outcome([Applied(f)] + Refreshes(names, db.refreshFails), None);
      AppliedEvents(f, names, db.refreshFails);
    } else {
      assert |o.events| <= 1 && forall k :: 0 <= k < |o.events| ==> !o.events[k].Applied? && !o.events[k].Refreshed?;
    }
  }

  /** A refresh reported as if it had succeeded. */
  function Blind(e: Event): Event {
    if e.Refreshed? then Refreshed(e.view, true) else e
  }

  /** The log with the refresh results forgotten. */
  function Unrefreshed(log: seq<Event>): seq<Event> {
    seq(|log|, k requires 0 <= k < |log| => Blind(log[k]))
  }

  lemma UnrefreshedAppend(a: seq<Event>, b: seq<Event>)
    ensures Unrefreshed(a + b) == Unrefreshed(a) + Unrefreshed(b)
  {
  }

  lemma EntryRefreshBlind(f: string, folder: map<string, FileState>, db: Database, fails: set<string>)
    ensures Entry(f, folder, db.(refreshFails := fails)).halt == Entry(f, folder, db).halt
    ensures Unrefreshed(Entry(f, folder, db.(refreshFails := fails)).events) == Unrefreshed(Entry(f, folder, db).events)
  {
    if !StartsWith(f, "CALL ") && FileOf(folder, f).Readable? && f !in db.applyFails {
      var names := ExtractMatviewNames(FileOf(folder, f).content);
      UnrefreshedAppend([Applied(f)], Refreshes(names, fails));
      UnrefreshedAppend([Applied(f)], Refreshes(names, db.refreshFails));
      assert Unrefreshed(Refreshes(names, fails)) == Unrefreshed(Refreshes(names, db.refreshFails));
    }
  }

  /** A failed refresh changes nothing but its own message: the run ends the same
      way and every other message is the same, whichever refreshes fail. */
  lemma {:induction false} RefreshFailuresHarmless(entries: seq<string>, folder: map<string, FileState>, db: Database, fails: set<string>)
    ensures Run(entries, folder, db.(refreshFails := fails)).ending == Run(entries, folder, db).ending
    ensures Unrefreshed(Run(entries, folder, db.(refreshFails := fails)).log) == Unrefreshed(Run(entries, folder, db).log)
    decreases |entries|
  {
    if entries != [] {
      var db' := db.(refreshFails := fails);
      EntryRefreshBlind(entries[0], folder, db, fails);
      RefreshFailuresHarmless(entries[1..], folder, db, fails);
      var o := Entry(entries[0], folder, db);
      var o' := Entry(entries[0], folder, db');
      if o.halt.None? {
        UnrefreshedAppend(o.events, Run(entries[1..], folder, db).log);
        UnrefreshedAppend(o'.events, Run(entries[1..], folder, db').log);
      }
    }
  }

  /** Every file reported as applied is an entry of the list, is present and
      readable, and was executed without error. */
  predicate AppliedListed(log: seq<Event>, entries: seq<string>, folder: map<string, FileState>, db: Database) {
    forall k :: 0 <= k < |log| && log[k].Applied? ==>
      log[k].file in entries && FileOf(folder, log[k].file).Readable? && log[k].file !in db.applyFails
  }

  lemma {:induction false} RunAppliesListed(entries: seq<string>, folder: map<string, FileState>, db: Database)
    ensures AppliedListed(Run(entries, folder, db).log, entries, folder, db)
    decreases |entries|
  {
    if entries != [] {
      RunAppliesListed(entries[1..], folder, db);
      var o := Entry(entries[0], folder, db);
      assert forall k :: 0 <= k < |o.events| && o.events[k].Applied? ==> k == 0 && o.events[k].file == entries[0];
      assert forall f :: f in entries[1..] ==> f in entries;
    }
  }

  // ---- the list ----

  /** Python's implicit concatenation leaves sixty-five entries, the second of them
      the two file names glued together, and neither of those two files is listed on
      its own. */
  lemma OrderedSqlMerged()
    ensures |OrderedSql| == 65
    ensures OrderedSql[1] == "2_create_filtered_views.sql" + "3_create_mv_nifty_options_filtered.sql"
    ensures "2_create_filtered_views.sql" !in OrderedSql
    ensures "3_create_mv_nifty_options_filtered.sql" !in OrderedSql
  {
    GluedNotInSetup();
    GluedNotInLeg();
    GluedNotInExit();
    GluedNotInRehedge();
    GluedNotInReentryLeg();
    GluedNotInReentryExit();
    GluedNotInReentryHedge();
    GluedNotInReentryRehedge();
    GluedNotInPortfolio();
  }

  /** Neither glued file is an entry of the block. */
  predicate GluedAbsent(block: seq<string>) {
    "2_create_filtered_views.sql" !in block && "3_create_mv_nifty_options_filtered.sql" !in block
  }

  lemma GluedNotInSetup()
    ensures GluedAbsent(SetupEntries)
  {
  }

  lemma GluedNotInLeg()
    ensures GluedAbsent(LegEntries)
  {
  }

  lemma GluedNotInExit()
    ensures GluedAbsent(ExitEntries)
  {
  }

  lemma GluedNotInRehedge()
    ensures GluedAbsent(RehedgeEntries)
  {
  }

  lemma GluedNotInReentryLeg()
    ensures GluedAbsent(ReentryLegEntries)
  {
  }

  lemma GluedNotInReentryExit()
    ensures GluedAbsent(ReentryExitEntries)
  {
  }

  lemma GluedNotInReentryHedge()
    ensures GluedAbsent(ReentryHedgeEntries)
  {
  }

  lemma GluedNotInReentryRehedge()
    ensures GluedAbsent(ReentryRehedgeEntries)
  {
  }

  lemma GluedNotInPortfolio()
    ensures GluedAbsent(PortfolioEntries)
  {
  }

  /** A list without raw SQL never raises: its run completes or stops quietly. */
  lemma NoCallNeverRaises(entries: seq<string>, folder: map<string, FileState>, db: Database)
    requires forall k :: 0 <= k < |entries| ==> !StartsWith(entries[k], "CALL ")
    ensures !Run(entries, folder, db).ending.Raised?
  {
    if Run(entries, folder, db).ending != AllDone {
      var i := StopsAtFirstFailure(entries, folder, db);
      RaisedOnlyByCall(entries[i], folder, db);
    }
  }

  /** The filtered views and the filtered options view are never applied by the
      script, whatever the folder holds. */
  lemma FilteredViewsNeverApplied(folder: map<string, FileState>, db: Database)
    ensures Applied("2_create_filtered_views.sql") !in Run(OrderedSql, folder, db).log
    ensures Applied("3_create_mv_nifty_options_filtered.sql") !in Run(OrderedSql, folder, db).log
  {
    OrderedSqlMerged();
    RunAppliesListed(OrderedSql, folder, db);
  }
}
