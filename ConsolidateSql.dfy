/** The script that bundles every database SQL file, in dependency order, into
    `consolidated_init.sql`: a preamble, the files under the section headers of a
    first-match classifier on name prefixes (a missing file is skipped without a
    trace in the output), then a footer. */
module ConsolidateSql {
  import opened Text
  import opened SqlBundle

  /** `sql_files_order`. */
  const FilesOrder: seq<string> := [
    "create_nifty50.sql",
    "create_nifty_options.sql",
    "create_strategy_settings.sql",
    "create_runtime_strategy_config.sql",
    "create_strategy_run_results.sql",
    "create_strategy_leg_book.sql",
    "create_heikin_ashi_tables.sql",
    "create_v_strategy_config.sql",
    "create_filtered_views.sql",
    "create_mv_ha_candles.sql",
    "create_mv_nifty_options_filtered.sql",
    "create_mv_all_5min_breakouts.sql",
    "create_mv_ranked_breakouts_with_rounds.sql",
    "create_mv_ranked_breakouts_with_rounds_for_reentry.sql",
    "create_mv_base_strike_selection.sql",
    "create_mv_breakout_context_round1.sql",
    "create_mv_entry_and_hedge_legs.sql",
    "create_temp_live_prices_entry_round1.sql",
    "create_mv_entry_sl_hits_round1.sql",
    "create_mv_entry_sl_executions_round1.sql",
    "create_mv_entry_open_legs_round1.sql",
    "create_mv_entry_profit_booking_round1.sql",
    "create_mv_entry_eod_close_round1.sql",
    "create_mv_entry_closed_legs_round1.sql",
    "create_mv_entry_round1_stats.sql",
    "create_mv_hedge_exit_on_all_entry_sl.sql",
    "create_mv_hedge_exit_partial_conditions.sql",
    "create_mv_hedge_closed_legs_round1.sql",
    "create_mv_hedge_eod_exit_round1.sql",
    "create_mv_entry_exit_on_partial_hedge_round1.sql",
    "create_mv_double_buy_legs_round1.sql",
    "create_mv_entry_final_exit_round1.sql",
    "create_mv_rehedge_trigger_round1.sql",
    "create_mv_rehedge_candidate_round1.sql",
    "create_mv_rehedge_selected_round1.sql",
    "create_mv_rehedge_leg_round1.sql",
    "create_mv_rehedge_eod_exit_round1.sql",
    "create_mv_all_legs_round1.sql",
    "create_mv_reentry_triggered_breakouts.sql",
    "create_mv_reentry_base_strike_selection.sql",
    "create_mv_reentry_legs_and_hedge_legs.sql",
    "create_temp_reentry_live_prices.sql",
    "create_mv_reentry_breakout_context.sql",
    "create_mv_reentry_sl_hits.sql",
    "create_mv_reentry_sl_executions.sql",
    "create_mv_reentry_open_legs.sql",
    "create_mv_reentry_profit_booking.sql",
    "create_mv_reentry_eod_close.sql",
    "create_mv_reentry_final_exit.sql",
    "create_mv_double_buy_legs_reentry.sql",
    "create_mv_reentry_legs_stats.sql",
    "create_mv_hedge_reentry_exit_on_all_entry_sl.sql",
    "create_mv_hedge_reentry_exit_on_partial_conditions.sql",
    "create_mv_hedge_reentry_closed_legs.sql",
    "create_mv_hedge_reentry_eod_exit.sql",
    "create_mv_reentry_exit_on_partial_hedge.sql",
    "create_mv_rehedge_trigger_reentry.sql",
    "create_mv_rehedge_candidate_reentry.sql",
    "create_mv_rehedge_selected_reentry.sql",
    "create_mv_rehedge_leg_reentry.sql",
    "create_mv_rehedge_eod_exit_reentry.sql",
    "create_mv_all_legs_reentry.sql",
    "create_temp_entry_leg_live_prices.sql",
    "create_mv_all_entries_sl_tracking_adjusted.sql",
    "create_mv_portfolio_mtm_pnl.sql",
    "create_mv_portfolio_final_pnl.sql",
    "sp_insert_sl_legs_into_book.sql",
    "sp_run_reentry_loop.sql",
    "sp_run_strategy.sql",
    "create_indexes_matviews.sql",
    "update_strategy_settings_defaults.sql",
    "upsert_runtime_strategy_config_default.sql",
    "set_strategy_settings_parent_values.sql",
    "get_heikin_ashi.sql"
  ]

  /** The section of each rule (rule 0, the catch-all, has no fixed name); the
      first two rules share the base-tables section. */
  const Sections: seq<string> := [
    "",
    "1. CREATE BASE TABLES",
    "1. CREATE BASE TABLES",
    "2. CREATE HEIKIN-ASHI TABLES",
    "3. CREATE VIEWS AND MATERIALIZED VIEWS",
    "4. CREATE BREAKOUT AND TRADING LOGIC VIEWS",
    "5. CREATE ENTRY/EXIT LOGIC VIEWS",
    "6. CREATE HEDGE LOGIC VIEWS",
    "7. CREATE REENTRY LOGIC VIEWS",
    "8. CREATE REENTRY ROUND VIEWS",
    "9. CREATE REENTRY HEDGE VIEWS",
    "10. CREATE PORTFOLIO AND FINAL VIEWS",
    "11. CREATE STORED PROCEDURES",
    "12. CREATE INDEXES",
    "13. SET UP DEFAULT DATA",
    "14. CREATE FUNCTIONS"
  ]

  /** The names listed by the fourth rule (strategy config and filtered views). */
  const ViewFiles: seq<string> :=
    ["create_v_strategy_config.sql", "create_filtered_views.sql", "create_mv_ha_candles.sql",
     "create_mv_nifty_options_filtered.sql"]

  /** The names listed by the fifth rule (breakouts and strike selection). */
  const BreakoutFiles: seq<string> :=
    ["create_mv_all_5min_breakouts.sql", "create_mv_ranked_breakouts_with_rounds.sql",
     "create_mv_ranked_breakouts_with_rounds_for_reentry.sql", "create_mv_base_strike_selection.sql",
     "create_mv_breakout_context_round1.sql"]

  /** The names listed by the eleventh rule (additional views). */
  const AdditionalFiles: seq<string> :=
    ["create_temp_entry_leg_live_prices.sql", "create_mv_all_entries_sl_tracking_adjusted.sql",
     "create_mv_portfolio_mtm_pnl.sql", "create_mv_portfolio_final_pnl.sql"]

  /** The names listed by the fourteenth rule (settings defaults). */
  const DefaultsFiles: seq<string> :=
    ["update_strategy_settings_defaults.sql", "upsert_runtime_strategy_config_default.sql",
     "set_strategy_settings_parent_values.sql"]

  /** The number of the first rule of the if/elif chain that the file name matches,
      0 when none does. */
  function RuleOf(f: string): (r: nat)
    ensures r <= 15
  {
    if StartsWith(f, "create_nifty") then 1
    else if StartsWith(f, "create_strategy") || StartsWith(f, "create_runtime") then 2
    else if f == "create_heikin_ashi_tables.sql" then 3
    else if f in ViewFiles then 4
    else if f in BreakoutFiles then 5
    else if StartsWith(f, "create_mv_entry_") && Contains(f, "round1") then 6
    else if StartsWith(f, "create_mv_hedge_") && Contains(f, "round1") && !Contains(f, "reentry") then 7
    else if StartsWith(f, "create_mv_rehedge_") && Contains(f, "round1") then 8
    else if StartsWith(f, "create_mv_reentry_") then 9
    else if StartsWith(f, "create_mv_hedge_reentry_") || (StartsWith(f, "create_mv_rehedge_") && Contains(f, "reentry")) then 10
    else if f in AdditionalFiles then 11
    else if StartsWith(f, "sp_") then 12
    else if f == "create_indexes_matviews.sql" then 13
    else if f in DefaultsFiles then 14
    else if f == "get_heikin_ashi.sql" then 15
    else 0
  }

  /** The section of a file: its rule's name, or `{section_counter}. MISCELLANEOUS`. */
  function Section(f: string, counter: nat): (r: string)
    ensures RuleOf(f) == 0 ==> r == Misc(counter)
    ensures RuleOf(f) != 0 ==> r == Sections[RuleOf(f)]
  {
    var rule := RuleOf(f);
    if rule == 0 then Misc(counter) else Sections[rule]
  }

  /** The nifty, strategy and runtime tables all land in one base-tables section,
      whatever the counter. */
  lemma BaseTablesShareSection(f: string, g: string, c: nat, d: nat)
    requires StartsWith(f, "create_nifty") || StartsWith(f, "create_strategy") || StartsWith(f, "create_runtime")
    requires StartsWith(g, "create_nifty") || StartsWith(g, "create_strategy") || StartsWith(g, "create_runtime")
    ensures Section(f, c) == Section(g, d) == "1. CREATE BASE TABLES"
  {
  }

  /** A name whose character at i differs from the prefix's does not start with it. */
  lemma Mismatch(s: string, prefix: string, i: nat)
    requires i < |prefix| && i < |s| && s[i] != prefix[i]
    ensures !StartsWith(s, prefix)
  {
  }

  /** Shaped like `create_temp_...`: a `c` first and a `t` eighth. */
  predicate TempShaped(f: string) {
    |f| > 7 && f[0] == 'c' && f[7] == 't'
  }

  predicate NoneTempShaped(names: seq<string>) {
    forall g :: g in names ==> !TempShaped(g)
  }

  /** Of the names the chain lists, only the temporary entry-leg table is shaped
      like `create_temp_...`. */
  lemma ViewFilesNotTemp()
    ensures NoneTempShaped(ViewFiles)
  {
    forall i | 0 <= i < |ViewFiles| ensures !TempShaped(ViewFiles[i]) {
    }
  }

  lemma BreakoutFilesNotTemp()
    ensures NoneTempShaped(BreakoutFiles)
  {
    forall i | 0 <= i < |BreakoutFiles| ensures !TempShaped(BreakoutFiles[i]) {
    }
  }

  lemma AdditionalFilesNotTemp()
    ensures NoneTempShaped(AdditionalFiles[1..])
  {
    forall i | 1 <= i < |AdditionalFiles| ensures !TempShaped(AdditionalFiles[i]) {
    }
  }

  lemma DefaultsFilesNotTemp()
    ensures NoneTempShaped(DefaultsFiles)
  {
    forall i | 0 <= i < |DefaultsFiles| ensures !TempShaped(DefaultsFiles[i]) {
    }
  }

  lemma SingleNamesNotTemp()
    ensures !TempShaped("create_heikin_ashi_tables.sql") && !TempShaped("create_indexes_matviews.sql")
    ensures !TempShaped("get_heikin_ashi.sql")
  {
    assert "create_heikin_ashi_tables.sql"[7] == 'h';
    assert "create_indexes_matviews.sql"[7] == 'i';
  }

  /** A name shaped like `create_temp_...` other than the listed temporary table
      matches no rule: no listed name and no prefix rule can match it. */
  lemma TempNoRule(f: string)
    requires TempShaped(f) && f != AdditionalFiles[0]
    ensures RuleOf(f) == 0
  {
    ViewFilesNotTemp();
    BreakoutFilesNotTemp();
    AdditionalFilesNotTemp();
    DefaultsFilesNotTemp();
    SingleNamesNotTemp();
    assert f !in AdditionalFiles[1..];
    assert AdditionalFiles == AdditionalFiles[..1] + AdditionalFiles[1..];
    Mismatch(f, "create_nifty", 7);
    Mismatch(f, "create_strategy", 7);
    Mismatch(f, "create_runtime", 7);
    Mismatch(f, "create_mv_entry_", 7);
    Mismatch(f, "create_mv_hedge_", 7);
    Mismatch(f, "create_mv_rehedge_", 7);
    Mismatch(f, "create_mv_reentry_", 7);
    Mismatch(f, "create_mv_hedge_reentry_", 7);
    Mismatch(f, "sp_", 0);
  }

  /** The two temporary live-price tables match no rule: each is written under a
      catch-all section numbered with the counter. */
  lemma TempTablesMiscellaneous(c: nat)
    ensures Section("create_temp_live_prices_entry_round1.sql", c) == Misc(c)
    ensures Section("create_temp_reentry_live_prices.sql", c) == Misc(c)
  {
    assert "create_temp_live_prices_entry_round1.sql"[12] != AdditionalFiles[0][12];
    assert "create_temp_reentry_live_prices.sql"[12] != AdditionalFiles[0][12];
    TempNoRule("create_temp_live_prices_entry_round1.sql");
    TempNoRule("create_temp_reentry_live_prices.sql");
  }

  /** No named section ends like `MISCELLANEOUS`. */
  lemma NamedNotMisc(rule: nat, k: nat)
    requires 1 <= rule < |Sections|
    ensures Sections[rule] != Misc(k)
  {
    MiscLetter(k);
    var s := Sections[rule];
    assert s[|s| - 2] != 'U';
  }

  /** A named section never reads like a catch-all one, so only the counter names
      the catch-all sections. */
  lemma SectionNumbersMisc()
    ensures NumbersMisc(Section)
  {
    forall f: string, c: nat, k: nat | Section(f, c) == Misc(k) ensures k == c {
      if RuleOf(f) == 0 {
        MiscInjective(k, c);
      } else {
        NamedNotMisc(RuleOf(f), k);
      }
    }
  }

  const Preamble: string :=
    "-- =====================================================\n"
    + "-- New_BackTest_Pulse Database Initialization Script\n"
    + "-- Consolidated SQL file for complete database setup\n"
    + "-- Generated from individual SQL files in dependency order\n"
    + "-- =====================================================\n\n"

  /** The footer: no procedure call follows the files. */
  const Footer: string :=
    "-- =====================================================\n"
    + "-- Database initialization completed!\n"
    + "-- =====================================================\n"

  /** `consolidate_sql_files`: the text of `consolidated_init.sql` for the files
      under `sql/` (`fs`). Missing files leave no warning in it. */
  method ConsolidateSqlFiles(fs: map<string, FileState>) returns (text: string)
    ensures text == Preamble + Render(Bundle(FilesOrder, fs, Section, false).pieces) + Footer
    ensures Warnings(Bundle(FilesOrder, fs, Section, false).pieces) == []
    ensures Blocks(Bundle(FilesOrder, fs, Section, false).pieces) == Present(FilesOrder, fs)
  {
    var body := WriteFiles(FilesOrder, fs, Section, false);
    BlocksAreFiles(FilesOrder, fs, Section, false);
    text := Preamble + body + Footer;
  }
}
