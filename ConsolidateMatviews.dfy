/** The script that bundles the materialized-view SQL files into
    `consolidated_matviews.sql`: a preamble, the files of a fixed list under the
    section headers of a first-match classifier (a missing file leaves a warning
    comment), then the call of the strategy procedure and a footer. */
module ConsolidateMatviews {
  import opened Text
  import opened SqlBundle

  /** `sql_files_order`. */
  const FilesOrder: seq<string> := [
    "create_v_strategy_config.sql",
    "create_heikin_ashi_tables.sql",
    "create_mv_ha_candles.sql",
    "create_mv_nifty_options_filtered.sql",
    "create_mv_all_5min_breakouts.sql",
    "create_mv_ranked_breakouts_with_rounds.sql",
    "create_mv_ranked_breakouts_with_rounds_for_reentry.sql",
    "create_mv_base_strike_selection.sql",
    "create_mv_breakout_context_round1.sql",
    "create_mv_entry_and_hedge_legs.sql",
    "create_mv_live_prices_entry_round1.sql",
    "create_mv_entry_sl_hits_round1.sql",
    "create_mv_entry_sl_executions_round1.sql",
    "create_mv_entry_open_legs_round1.sql",
    "create_mv_entry_profit_booking_round1.sql",
    "create_mv_entry_eod_close_round1.sql",
    "create_mv_entry_closed_legs_round1.sql",
    "create_mv_entry_round1_stats.sql",
    "create_mv_hedge_exit_on_all_entry_sl.sql",
    "create_mv_hedge_exit_partial_conditions.sql",
    "create_mv_hedge_closed_legs_round1.sql",
    "create_mv_hedge_eod_exit_round1.sql",
    "create_mv_entry_exit_on_partial_hedge_round1.sql",
    "create_mv_double_buy_legs_round1.sql",
    "create_mv_entry_final_exit_round1.sql",
    "create_mv_rehedge_trigger_round1.sql",
    "create_mv_rehedge_candidate_round1.sql",
    "create_mv_rehedge_selected_round1.sql",
    "create_mv_rehedge_leg_round1.sql",
    "create_mv_rehedge_eod_exit_round1.sql",
    "create_mv_all_legs_round1.sql",
    "sp_insert_sl_legs_into_book.sql",
    "create_mv_reentry_triggered_breakouts.sql",
    "create_mv_reentry_base_strike_selection.sql",
    "create_mv_reentry_legs_and_hedge_legs.sql",
    "create_mv_reentry_live_prices.sql",
    "create_mv_reentry_breakout_context.sql",
    "create_mv_reentry_sl_hits.sql",
    "create_mv_reentry_sl_executions.sql",
    "create_mv_reentry_open_legs.sql",
    "create_mv_reentry_profit_booking.sql",
    "create_mv_reentry_eod_close.sql",
    "create_mv_reentry_final_exit.sql",
    "create_mv_reentry_legs_stats.sql",
    "create_mv_hedge_reentry_exit_on_all_entry_sl.sql",
    "create_mv_hedge_reentry_exit_on_partial_conditions.sql",
    "create_mv_hedge_reentry_closed_legs.sql",
    "create_mv_hedge_reentry_eod_exit.sql",
    "create_mv_reentry_exit_on_partial_hedge.sql",
    "create_mv_double_buy_legs_reentry.sql",
    "create_mv_rehedge_trigger_reentry.sql",
    "create_mv_rehedge_candidate_reentry.sql",
    "create_mv_rehedge_selected_reentry.sql",
    "create_mv_rehedge_leg_reentry.sql",
    "create_mv_rehedge_eod_exit_reentry.sql",
    "create_mv_all_legs_reentry.sql",
    "sp_run_reentry_loop.sql",
    "create_mv_entry_leg_live_prices.sql",
    "create_mv_all_entries_sl_tracking_adjusted.sql",
    "create_mv_portfolio_mtm_pnl.sql",
    "create_mv_portfolio_final_pnl.sql",
    "create_strategy_run_results.sql",
    "sp_run_strategy.sql"
  ]

  /** The named sections, by rule number (rule 0, the catch-all, has no fixed name). */
  const Sections: seq<string> := [
    "",
    "1. STRATEGY CONFIGURATION",
    "2. HEIKIN-ASHI TABLES",
    "3. BASE FILTERED VIEWS",
    "4. BREAKOUT DETECTION",
    "5. BREAKOUT RANKING",
    "6. STRIKE SELECTION & CONTEXT",
    "7. LIVE PRICES & LEGS",
    "8. STOP LOSS DETECTION",
    "9. ENTRY LIFECYCLE",
    "10. HEDGE EXIT LOGIC",
    "11. ENTRY-EXIT INTERACTIONS",
    "12. REHEDGE PIPELINE",
    "13. ROUND 1 CONSOLIDATION",
    "14. REENTRY TRIGGERS",
    "15. REENTRY PIPELINE",
    "16. REENTRY HEDGE LOGIC",
    "17. REENTRY CONSOLIDATION",
    "18. REENTRY PROCEDURES",
    "19. ADDITIONAL VIEWS",
    "20. PORTFOLIO CALCULATIONS",
    "21. STRATEGY EXECUTION"
  ]

  /** The first four rules, which name their files outright; 0 when none does. */
  function NamedRule(f: string): (r: nat)
    ensures r <= 4
  {
    if f == "create_v_strategy_config.sql" then 1
    else if f == "create_heikin_ashi_tables.sql" then 2
    else if f in ["create_mv_ha_candles.sql", "create_mv_nifty_options_filtered.sql"] then 3
    else if f == "create_mv_all_5min_breakouts.sql" then 4
    else 0
  }

  /** The rules from 5 on, which look for substrings; 0 when none matches. */
  function PatternRule(f: string): (r: nat)
    ensures r == 0 || 5 <= r <= 21
  {
    if RoundOneRule(f) != 0 then RoundOneRule(f) else ReentryRule(f)
  }

  /** Rules 5 to 13: the first round's pipeline. */
  function RoundOneRule(f: string): (r: nat)
    ensures r == 0 || 5 <= r <= 13
  {
    if Contains(f, "ranked_breakouts") then 5
    else if Contains(f, "strike_selection") || Contains(f, "breakout_context") then 6
    else if Contains(f, "entry_and_hedge_legs") || Contains(f, "live_prices") then 7
    else if Contains(f, "sl_hits") || Contains(f, "sl_executions") then 8
    else if Contains(f, "entry_") && Contains(f, "round1") && !Contains(f, "hedge") then 9
    else if Contains(f, "hedge_") && Contains(f, "round1") && !Contains(f, "reentry") then 10
    else if Contains(f, "entry_exit") || Contains(f, "double_buy") || Contains(f, "final_exit") then 11
    else if Contains(f, "rehedge_") && Contains(f, "round1") then 12
    else if Contains(f, "all_legs_round1") || Contains(f, "sp_insert") then 13
    else 0
  }

  /** Rules 14 to 21: re-entry, additional views, portfolio and execution. */
  function ReentryRule(f: string): (r: nat)
    ensures r == 0 || 14 <= r <= 21
  {
    if Contains(f, "reentry_triggered") then 14
    else if Contains(f, "reentry_") && !Contains(f, "rehedge") then 15
    else if Contains(f, "rehedge_") && Contains(f, "reentry") then 16
    else if Contains(f, "all_legs_reentry") then 17
    else if Contains(f, "sp_run_reentry") then 18
    else if Contains(f, "entry_leg_live") || Contains(f, "all_entries_sl") then 19
    else if Contains(f, "portfolio_") then 20
    else if Contains(f, "strategy_run_results") || Contains(f, "sp_run_strategy") then 21
    else 0
  }

  /** The number of the first rule of the if/elif chain that the file name matches,
      0 when none does. */
  function RuleOf(f: string): (r: nat)
    ensures r < |Sections|
    ensures r == 0 <==> NamedRule(f) == 0 && PatternRule(f) == 0
  {
    if NamedRule(f) != 0 then NamedRule(f) else PatternRule(f)
  }

  /** The section of a file: its rule's name, or `{section_counter}. MISCELLANEOUS`. */
  function Section(f: string, counter: nat): (r: string)
    ensures RuleOf(f) == 0 ==> r == Misc(counter)
    ensures RuleOf(f) != 0 ==> r == Sections[RuleOf(f)]
  {
    var rule := RuleOf(f);
    if rule == 0 then Misc(counter) else Sections[rule]
  }

  /** `'rehedge_'` contains `'hedge_'`, so the rehedge rule never sees a round-1
      rehedge file without `reentry` in its name: such a file falls under an earlier
      rule, "10. HEDGE EXIT LOGIC" unless a rule before it matches, and the rehedge
      section is given only to names that also mention `reentry`. */
  lemma RehedgeShadowed(f: string)
    ensures Contains(f, "rehedge_") && Contains(f, "round1") && !Contains(f, "reentry") ==>
      1 <= RuleOf(f) <= 10 && RuleOf(f) != 9
    ensures RuleOf(f) == 12 ==> Contains(f, "reentry")
  {
    if Contains(f, "rehedge_") {
      ContainsAt("rehedge_", "hedge_", 2);
      ContainsTransitive(f, "rehedge_", "hedge_");
      ContainsAt("hedge_", "hedge", 0);
      ContainsTransitive(f, "hedge_", "hedge");
    }
  }

  /** The procedure `sp_run_reentry_loop.sql` and any name with `sp_run_reentry_` and
      without `rehedge` is caught by the re-entry pipeline rule, so the re-entry
      procedures section is never reached by it. */
  lemma ReentryProcedureShadowed(f: string)
    requires Contains(f, "sp_run_reentry_") && !Contains(f, "rehedge")
    ensures 1 <= RuleOf(f) <= 15
  {
    ProcedureMentionsReentry();
    ContainsTransitive(f, "sp_run_reentry_", "reentry_");
    assert 14 <= ReentryRule(f) <= 15;
  }

  lemma ProcedureMentionsReentry()
    ensures Contains("sp_run_reentry_", "reentry_")
  {
    ContainsAt("sp_run_reentry_", "reentry_", 7);
  }

  /** No named section ends like `MISCELLANEOUS`. */
  lemma NamedNotMisc(rule: nat, k: nat)
    requires 1 <= rule < |Sections|
    ensures Sections[rule] != Misc(k)
  {
    MiscLetter(k);
    var s := Sections[rule];
    assert s[|s| - 2] != 'U';
  }

  /** A named section never reads like a catch-all one, so only the counter names
      the catch-all sections. */
  lemma SectionNumbersMisc()
    ensures NumbersMisc(Section)
  {
    forall f: string, c: nat, k: nat | Section(f, c) == Misc(k) ensures k == c {
      if RuleOf(f) == 0 {
        MiscInjective(k, c);
      } else {
        NamedNotMisc(RuleOf(f), k);
      }
    }
  }

  const Preamble: string :=
    "-- =====================================================\n"
    + "-- New_BackTest_Pulse Materialized Views Initialization\n"
    + "-- Consolidated SQL file for matviews sequential setup\n"
    + "-- Generated from refresh_matviews_sequential.py order\n"
    + "-- =====================================================\n\n"

  /** The strategy call and the footer written after the files. */
  const Trailer: string :=
    "-- =====================================================\n"
    + "-- 22. EXECUTE STRATEGY\n"
    + "-- =====================================================\n\n"
    + "-- Execute the main strategy stored procedure\n"
    + "CALL sp_run_strategy();\n\n"
    + "-- =====================================================\n"
    + "-- Materialized views initialization completed!\n"
    + "-- =====================================================\n"

  /** `consolidate_matviews_sql`: the text of `consolidated_matviews.sql` for the
      files under `sql/` (`fs`). Whatever the files, it starts with the preamble and
      ends with the call of `sp_run_strategy` and the footer. */
  method ConsolidateMatviewsSql(fs: map<string, FileState>) returns (text: string)
    ensures text == Preamble + Render(Bundle(FilesOrder, fs, Section, true).pieces) + Trailer
    ensures text[..|Preamble|] == Preamble
    ensures text[|text| - |Trailer|..] == Trailer
  {
    var body := WriteFiles(FilesOrder, fs, Section, true);
    text := Preamble + body + Trailer;
    Framed(Preamble, body, Trailer);
  }
}
