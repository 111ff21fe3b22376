/** Rows of the strategy configuration tables (strategy_settings and
    runtime_strategy_config): a map from column to cell value. A cell is
    missing (`Null`), a number or text; dates and times are kept as the text
    they are written in. */
module Settings {

  datatype Value = Null | Num(n: real) | Str(s: string)

  /** The columns of strategy_settings. */
  datatype Column =
    | StrategyName | BigCandleTf | SmallCandleTf | PreferredBreakoutType
    | BreakoutThresholdPct | OptionEntryPriceCap | HedgeEntryPriceCap
    | NumEntryLegs | NumHedgeLegs | SlPercentage | EodTime | NoOfLots
    | LotSize | HedgeExitEntryRatio | HedgeExitMultiplier | LegProfitPct
    | PortfolioProfitTargetPct | PortfolioStopLossPct | PortfolioCapital
    | MaxReentryRounds | SlType | BoxSlTriggerPct | BoxSlHardPct
    | ReentryBreakoutType | OneMCandleTf | EntryCandle | SwitchPct
    | WidthSlPct | FromDate | ToDate

  type Row = map<Column, Value>

  /** The column's name in SQL and in an uploaded CSV header. */
  function Name(c: Column): string {
    match c
    case StrategyName => "strategy_name"
    case BigCandleTf => "big_candle_tf"
    case SmallCandleTf => "small_candle_tf"
    case PreferredBreakoutType => "preferred_breakout_type"
    case BreakoutThresholdPct => "breakout_threshold_pct"
    case OptionEntryPriceCap => "option_entry_price_cap"
    case HedgeEntryPriceCap => "hedge_entry_price_cap"
    case NumEntryLegs => "num_entry_legs"
    case NumHedgeLegs => "num_hedge_legs"
    case SlPercentage => "sl_percentage"
    case EodTime => "eod_time"
    case NoOfLots => "no_of_lots"
    case LotSize => "lot_size"
    case HedgeExitEntryRatio => "hedge_exit_entry_ratio"
    case HedgeExitMultiplier => "hedge_exit_multiplier"
    case LegProfitPct => "leg_profit_pct"
    case PortfolioProfitTargetPct => "portfolio_profit_target_pct"
    case PortfolioStopLossPct => "portfolio_stop_loss_pct"
    case PortfolioCapital => "portfolio_capital"
    case MaxReentryRounds => "max_reentry_rounds"
    case SlType => "sl_type"
    case BoxSlTriggerPct => "box_sl_trigger_pct"
    case BoxSlHardPct => "box_sl_hard_pct"
    case ReentryBreakoutType => "reentry_breakout_type"
    case OneMCandleTf => "one_m_candle_tf"
    case EntryCandle => "entry_candle"
    case SwitchPct => "switch_pct"
    case WidthSlPct => "width_sl_pct"
    case FromDate => "from_date"
    case ToDate => "to_date"
  }

  /** The 30 columns in the order of the INSERT column lists of
      csv_uploader.py and app.py. */
  const SettingsColumns: seq<Column> := [
    StrategyName, BigCandleTf, SmallCandleTf, PreferredBreakoutType,
    BreakoutThresholdPct, OptionEntryPriceCap, HedgeEntryPriceCap,
    NumEntryLegs, NumHedgeLegs, SlPercentage, EodTime, NoOfLots,
    LotSize, HedgeExitEntryRatio, HedgeExitMultiplier, LegProfitPct,
    PortfolioProfitTargetPct, PortfolioStopLossPct, PortfolioCapital,
    MaxReentryRounds, SlType, BoxSlTriggerPct, BoxSlHardPct,
    ReentryBreakoutType, OneMCandleTf, EntryCandle, SwitchPct,
    WidthSlPct, FromDate, ToDate]

  /** A stored strategy_settings row has a cell for every column. */
  predicate Complete(row: Row) {
    forall c: Column :: c in row
  }

  lemma SettingsColumnsComplete(c: Column)
    ensures c in SettingsColumns
  {
  }

  lemma AllColumnsListed()
    ensures forall c: Column :: c in SettingsColumns
  {
    forall c: Column ensures c in SettingsColumns {
      SettingsColumnsComplete(c);
    }
  }
}
