/** Seeding of runtime_strategy_config from the 'default' row of
    strategy_settings (scripts/seed_runtime_strategy_config.py): one
    INSERT ... SELECT that copies 18 columns, divides ten percentage columns
    by 100, drops one_m_candle_tf, and upserts on strategy_name. */
module RuntimeConfig {

  import opened Wrappers
  import opened Settings

  /** The 29 columns of the INSERT into runtime_strategy_config, in its order. */
  const RuntimeColumns: seq<Column> := [
    StrategyName, BigCandleTf, SmallCandleTf, EntryCandle,
    PreferredBreakoutType, ReentryBreakoutType, BreakoutThresholdPct,
    SlType, SlPercentage, BoxSlTriggerPct, BoxSlHardPct,
    WidthSlPct, SwitchPct, NumEntryLegs, NumHedgeLegs,
    OptionEntryPriceCap, HedgeEntryPriceCap, HedgeExitEntryRatio,
    HedgeExitMultiplier, LegProfitPct, PortfolioProfitTargetPct,
    PortfolioStopLossPct, PortfolioCapital, NoOfLots, LotSize,
    MaxReentryRounds, EodTime, FromDate, ToDate]

  /** The columns the SELECT divides by 100.0. */
  predicate IsPercent(c: Column) {
    || c == BreakoutThresholdPct || c == SlPercentage || c == BoxSlTriggerPct
    || c == BoxSlHardPct || c == WidthSlPct || c == SwitchPct
    || c == HedgeExitEntryRatio || c == LegProfitPct
    || c == PortfolioProfitTargetPct || c == PortfolioStopLossPct
  }

  /** The only strategy_settings row the SELECT reads. */
  const DefaultKey: Value := Str("default")

  /** runtime_strategy_config has every strategy_settings column but one_m_candle_tf. */
  lemma RuntimeColumnsExact(c: Column)
    ensures c in RuntimeColumns <==> c != OneMCandleTf
  {
    match c
    case StrategyName => assert RuntimeColumns[0] == c;
    case BigCandleTf => assert RuntimeColumns[1] == c;
    case SmallCandleTf => assert RuntimeColumns[2] == c;
    case EntryCandle => assert RuntimeColumns[3] == c;
    case PreferredBreakoutType => assert RuntimeColumns[4] == c;
    case ReentryBreakoutType => assert RuntimeColumns[5] == c;
    case BreakoutThresholdPct => assert RuntimeColumns[6] == c;
    case SlType => assert RuntimeColumns[7] == c;
    case SlPercentage => assert RuntimeColumns[8] == c;
    case BoxSlTriggerPct => assert RuntimeColumns[9] == c;
    case BoxSlHardPct => assert RuntimeColumns[10] == c;
    case WidthSlPct => assert RuntimeColumns[11] == c;
    case SwitchPct => assert RuntimeColumns[12] == c;
    case NumEntryLegs => assert RuntimeColumns[13] == c;
    case NumHedgeLegs => assert RuntimeColumns[14] == c;
    case OptionEntryPriceCap => assert RuntimeColumns[15] == c;
    case HedgeEntryPriceCap => assert RuntimeColumns[16] == c;
    case HedgeExitEntryRatio => assert RuntimeColumns[17] == c;
    case HedgeExitMultiplier => assert RuntimeColumns[18] == c;
    case LegProfitPct => assert RuntimeColumns[19] == c;
    case PortfolioProfitTargetPct => assert RuntimeColumns[20] == c;
    case PortfolioStopLossPct => assert RuntimeColumns[21] == c;
    case PortfolioCapital => assert RuntimeColumns[22] == c;
    case NoOfLots => assert RuntimeColumns[23] == c;
    case LotSize => assert RuntimeColumns[24] == c;
    case MaxReentryRounds => assert RuntimeColumns[25] == c;
    case EodTime => assert RuntimeColumns[26] == c;
    case FromDate => assert RuntimeColumns[27] == c;
    case ToDate => assert RuntimeColumns[28] == c;
    case OneMCandleTf =>
      forall i | 0 <= i < |RuntimeColumns| ensures RuntimeColumns[i] != c {
      }
  }

  /** `v / 100.0` in SQL: NULL stays NULL, a number is divided, and text cannot
      be divided (the statement fails). */
  function Div100(v: Value): Option<Value> {
    match v
    case Null => Some(Null)
    case Num(x) => Some(Num(x / 100.0))
    case Str(_) => None
  }

  /** Inverse of `Div100` on the values it accepts. */
  function Times100(v: Value): Value {
    match v
    case Num(x) => Num(x * 100.0)
    case _ => v
  }

  lemma Div100RoundTrip(v: Value)
    ensures Div100(v).Some? <==> !v.Str?
    ensures Div100(v).Some? ==> Times100(Div100(v).value) == v
  {
  }

  /** No percentage column holds text. */
  predicate Divisible(s: Row) {
    forall c :: IsPercent(c) && c in s ==> !s[c].Str?
  }

  /** The row the SELECT produces from a strategy_settings row; `None` when a
      division fails. */
  function ToRuntime(s: Row): (r: Option<Row>)
    requires Complete(s)
    ensures r.Some? <==> Divisible(s)
    ensures r.Some? ==> forall c :: c in r.value <==> c != OneMCandleTf
  {
    if Divisible(s) then
      Some(map c | c in s && c != OneMCandleTf :: if IsPercent(c) then Div100(s[c]).value else s[c])
    else None
  }

  /** Rebuilds a strategy_settings row from a runtime row and the dropped
      one_m_candle_tf value. */
  function FromRuntime(r: Row, oneM: Value): Row {
    (map c | c in r :: if IsPercent(c) then Times100(r[c]) else r[c])[OneMCandleTf := oneM]
  }

  /** Every column except one_m_candle_tf survives the mapping: percentages
      come back by multiplying by 100 and the rest are copied unchanged. */
  lemma ToRuntimeRoundTrip(s: Row)
    requires Complete(s) && Divisible(s)
    ensures FromRuntime(ToRuntime(s).value, s[OneMCandleTf]) == s
  {
    var r := ToRuntime(s).value;
    var back := FromRuntime(r, s[OneMCandleTf]);
    forall c | c in s ensures c in back && back[c] == s[c] {
      if c != OneMCandleTf && IsPercent(c) {
        Div100RoundTrip(s[c]);
      }
    }
  }

  /** Copied columns are equal, percentage columns are a hundredth. */
  lemma ToRuntimeFields(s: Row, c: Column)
    requires Complete(s) && Divisible(s) && c != OneMCandleTf
    ensures !IsPercent(c) ==> ToRuntime(s).value[c] == s[c]
    ensures IsPercent(c) && s[c].Num? ==> ToRuntime(s).value[c] == Num(s[c].n / 100.0)
    ensures IsPercent(c) && s[c].Null? ==> ToRuntime(s).value[c] == Null
  {
  }

  /** The mapping never looks at one_m_candle_tf. */
  lemma OneMIgnored(s: Row, v: Value)
    requires Complete(s)
    ensures Complete(s[OneMCandleTf := v])
    ensures ToRuntime(s[OneMCandleTf := v]) == ToRuntime(s)
  {
    var t := s[OneMCandleTf := v];
    assert !IsPercent(OneMCandleTf);
    assert Divisible(t) == Divisible(s);
    if Divisible(s) {
      var a, b := ToRuntime(t).value, ToRuntime(s).value;
      forall c | c in a ensures c in b && a[c] == b[c] {
        assert t[c] == s[c];
      }
      assert a == b;
    }
  }

  /** The schema of strategy_settings: its 'default' row, when present, has
      every column. */
  predicate SettingsShaped(settings: map<Value, Row>) {
    DefaultKey in settings ==> Complete(settings[DefaultKey])
  }

  /** The whole script: no 'default' row writes nothing; otherwise the
      converted row is upserted under 'default', or the statement fails and
      nothing is written. */
  function Seed(settings: map<Value, Row>, runtime: map<Value, Row>): Result<map<Value, Row>, string>
    requires SettingsShaped(settings)
  {
    if DefaultKey !in settings then Ok(runtime)
    else match ToRuntime(settings[DefaultKey])
      case None => Err("a percentage column of the default row is not numeric")
      case Some(row) => Ok(runtime[DefaultKey := row])
  }

  /** Only the 'default' runtime row can change, and it becomes exactly the
      converted row (every copied column is overwritten). */
  lemma SeedEffect(settings: map<Value, Row>, runtime: map<Value, Row>)
    requires SettingsShaped(settings)
    ensures DefaultKey !in settings ==> Seed(settings, runtime) == Ok(runtime)
    ensures Seed(settings, runtime).Ok? ==>
              forall k :: k != DefaultKey ==>
                (k in Seed(settings, runtime).value <==> k in runtime)
                && (k in runtime ==> Seed(settings, runtime).value[k] == runtime[k])
    ensures Seed(settings, runtime).Ok? && DefaultKey in settings ==>
              Some(Seed(settings, runtime).value[DefaultKey]) == ToRuntime(settings[DefaultKey])
    ensures Seed(settings, runtime).Err? <==>
              DefaultKey in settings && !Divisible(settings[DefaultKey])
  {
  }

  /** Reseeding changes nothing. */
  lemma SeedIdempotent(settings: map<Value, Row>, runtime: map<Value, Row>)
    requires SettingsShaped(settings) && Seed(settings, runtime).Ok?
    ensures Seed(settings, Seed(settings, runtime).value) == Seed(settings, runtime)
  {
    if DefaultKey in settings {
      var row := ToRuntime(settings[DefaultKey]).value;
      var once := runtime[DefaultKey := row];
      assert once[DefaultKey := row] == once;
    }
  }

  /** The 'default' runtime row after seeding does not depend on what it held before. */
  lemma SeedForgetsOldDefault(settings: map<Value, Row>, a: map<Value, Row>, b: map<Value, Row>)
    requires SettingsShaped(settings) && DefaultKey in settings
    requires Seed(settings, a).Ok?
    ensures Seed(settings, b).Ok?
    ensures Seed(settings, a).value[DefaultKey] == Seed(settings, b).value[DefaultKey]
  {
  }
}
