/**
 * The run-parameter schema (`strategySchema`, a zod object schema). The state
 * it parses is a partial record: each top-level field may be absent
 * (`undefined`). Field types are those of the TypeScript declarations, so the
 * schema's type checks only reject absent fields; what remains are the
 * refinements. Issues are collected field by field, in the schema's field
 * order, each with its message and its path.
 */
module ValidationSchema {
  import opened Wrappers

  datatype CodeError = CodeError(message: string, line: int)

  /** The editor's syntax verdict, `{isValid, error?}`. */
  datatype CodeCheck = CodeCheck(isValid: bool, error: Option<CodeError>)

  datatype Instrument = Instrument(
    symbol: string,
    sourceFile: string,
    startDate: Option<string>,
    latestDate: Option<string>,
    stockName: Option<string>,
    isEtf: bool)

  /** A JavaScript value that may be `null`. */
  datatype Nullable<T> = Null | NonNull(value: T)

  /** Dates as timestamps; each end is optional. */
  datatype DateRange = DateRange(from: Option<int>, to: Option<int>)

  /** `Partial<StrategyValidation>`: `None` is an absent field. */
  datatype StrategyState = StrategyState(
    code: Option<CodeCheck>,
    instrument: Option<Nullable<Instrument>>,
    dateRange: Option<DateRange>,
    initialCapital: Option<real>,
    investmentPerTrade: Option<real>)

  /** A zod issue: its message and the path of the offending field. */
  datatype Issue = Issue(message: string, path: seq<string>)

  const Required := "Required"
  const SelectInstrument := "Please Select an Instrument"
  const InvalidDateRange := "Please select a valid date range"
  const CapitalNotPositive := "Initial capital must be greater than 0"
  const InvestmentNotPositive := "Investment per trade must be greater than 0"
  const InvestmentTooLarge := "Investment per trade must not exceed initial capital"
  const MaxInvestmentPerTrade: real := 100000.0

  /** The date-range refinement: both ends present and in order. */
  predicate RangeOrdered(r: DateRange) {
    r.from.Some? && r.to.Some? && r.from.value <= r.to.value
  }

  /** The issues of one field: at most one, at that field's path, none exactly when it is present. */
  function CodeIssues(code: Option<CodeCheck>): (issues: seq<Issue>)
    ensures |issues| <= 1 && forall i :: 0 <= i < |issues| ==> issues[i].path == ["code"]
    ensures issues == [] <==> code.Some?
  {
    if code.None? then [Issue(Required, ["code"])] else []
  }

  /** Nullable object, then the refinement that rejects `null`. */
  function InstrumentIssues(instrument: Option<Nullable<Instrument>>): (issues: seq<Issue>)
    ensures |issues| <= 1 && forall i :: 0 <= i < |issues| ==> issues[i].path == ["instrument"]
    ensures issues == [] <==> instrument.Some? && instrument.value.NonNull?
  {
    match instrument
    case None => [Issue(Required, ["instrument"])]
    case Some(Null) => [Issue(SelectInstrument, ["instrument"])]
    case Some(NonNull(_)) => []
  }

  function DateRangeIssues(range: Option<DateRange>): (issues: seq<Issue>)
    ensures |issues| <= 1 && forall i :: 0 <= i < |issues| ==> issues[i].path == ["dateRange"]
    ensures issues == [] <==> range.Some? && RangeOrdered(range.value)
  {
    match range
    case None => [Issue(Required, ["dateRange"])]
    case Some(r) => if RangeOrdered(r) then [] else [Issue(InvalidDateRange, ["dateRange"])]
  }

  function CapitalIssues(capital: Option<real>): (issues: seq<Issue>)
    ensures |issues| <= 1 && forall i :: 0 <= i < |issues| ==> issues[i].path == ["initialCapital"]
    ensures issues == [] <==> capital.Some? && capital.value > 0.0
  {
    match capital
    case None => [Issue(Required, ["initialCapital"])]
    case Some(c) => if c > 0.0 then [] else [Issue(CapitalNotPositive, ["initialCapital"])]
  }

  /**
   * `positive()` then a refinement: a failed `positive()` leaves the value
   * usable, so the refinement still runs on it.
   */
  function InvestmentIssues(investment: Option<real>): (issues: seq<Issue>)
    ensures |issues| <= 1 && forall i :: 0 <= i < |issues| ==> issues[i].path == ["investmentPerTrade"]
    ensures issues == [] <==> investment.Some? && 0.0 < investment.value <= MaxInvestmentPerTrade
    ensures investment.Some? && investment.value > MaxInvestmentPerTrade ==>
      issues == [Issue(InvestmentTooLarge, ["investmentPerTrade"])]
  {
    match investment
    case None => [Issue(Required, ["investmentPerTrade"])]
    case Some(v) =>
      (if v > 0.0 then [] else [Issue(InvestmentNotPositive, ["investmentPerTrade"])])
      + (if v <= MaxInvestmentPerTrade then [] else [Issue(InvestmentTooLarge, ["investmentPerTrade"])])
  }

  /** The independent reading of the schema: every field present and every refinement met. */
  predicate Acceptable(s: StrategyState) {
    && s.code.Some?
    && s.instrument.Some? && s.instrument.value.NonNull?
    && s.dateRange.Some? && RangeOrdered(s.dateRange.value)
    && s.initialCapital.Some? && s.initialCapital.value > 0.0
    && s.investmentPerTrade.Some? && 0.0 < s.investmentPerTrade.value <= MaxInvestmentPerTrade
  }

  /** `strategySchema.parse`: the issues found, in field order; none means it parses. */
  function Parse(s: StrategyState): (issues: seq<Issue>)
    ensures issues == [] <==> Acceptable(s)
    ensures forall i :: 0 <= i < |issues| ==> |issues[i].path| == 1
    ensures |issues| <= 5
  {
    CodeIssues(s.code) + InstrumentIssues(s.instrument) + DateRangeIssues(s.dateRange)
    + CapitalIssues(s.initialCapital) + InvestmentIssues(s.investmentPerTrade)
  }

  /** The code verdict's `isValid` flag is never consulted: a failed syntax check still parses. */
  lemma CodeValidityIgnored(s: StrategyState, message: string, line: int)
    requires Acceptable(s)
    ensures Parse(s.(code := Some(CodeCheck(false, Some(CodeError(message, line)))))) == []
  {
  }

  /** A null instrument is reported with its own message, at path `instrument`. */
  lemma NullInstrumentRejected(s: StrategyState)
    requires s.instrument == Some(Null)
    ensures Issue(SelectInstrument, ["instrument"]) in Parse(s)
  {
    assert Parse(s) == CodeIssues(s.code) + [Issue(SelectInstrument, ["instrument"])]
      + DateRangeIssues(s.dateRange) + CapitalIssues(s.initialCapital) + InvestmentIssues(s.investmentPerTrade);
  }

  /** A date range is refused, with one message, exactly when an end is missing or they are out of order. */
  lemma DateRangeRule(s: StrategyState, r: DateRange)
    requires s.dateRange == Some(r)
    ensures Issue(InvalidDateRange, ["dateRange"]) in Parse(s) <==> !RangeOrdered(r)
  {
    var prefix := CodeIssues(s.code) + InstrumentIssues(s.instrument);
    var suffix := CapitalIssues(s.initialCapital) + InvestmentIssues(s.investmentPerTrade);
    assert Parse(s) == prefix + DateRangeIssues(s.dateRange) + suffix;
    assert Issue(InvalidDateRange, ["dateRange"]) !in prefix;
    assert Issue(InvalidDateRange, ["dateRange"]) !in suffix;
  }

  /**
   * The per-trade bound is the fixed 100000, whatever the initial capital:
   * an investment far above the capital is accepted.
   */
  lemma InvestmentBoundIsFixed(s: StrategyState)
    requires Acceptable(s)
    ensures Parse(s.(initialCapital := Some(1.0), investmentPerTrade := Some(MaxInvestmentPerTrade))) == []
    ensures Parse(s.(investmentPerTrade := Some(MaxInvestmentPerTrade + 1.0)))
         == [Issue(InvestmentTooLarge, ["investmentPerTrade"])]
  {
  }
}
