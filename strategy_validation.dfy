/**
 * The validation hook (`useStrategyValidation`): two state cells, the
 * partial run parameters and the last zod error (or none), with two updaters
 * and two derived values. Each updater is modelled as taking effect before
 * the next call, as consecutive renders see it.
 */
module StrategyValidation {
  import opened Wrappers
  import opened Strings
  import opened ValidationSchema

  /** `{...base, ...update}`: the fields present in `update` win. */
  function Merge(base: StrategyState, update: StrategyState): (m: StrategyState)
    ensures update == NoFields ==> m == base
    ensures base == NoFields ==> m == update
  {
    StrategyState(
      if update.code.Some? then update.code else base.code,
      if update.instrument.Some? then update.instrument else base.instrument,
      if update.dateRange.Some? then update.dateRange else base.dateRange,
      if update.initialCapital.Some? then update.initialCapital else base.initialCapital,
      if update.investmentPerTrade.Some? then update.investmentPerTrade else base.investmentPerTrade)
  }

  const NoFields := StrategyState(None, None, None, None, None)

  /**
   * The shallow merge: an empty update changes nothing, a repeated update
   * changes nothing more, and on every field a value present in the update
   * wins while an absent one keeps the base's.
   */
  lemma MergeLaws(base: StrategyState, update: StrategyState)
    ensures Merge(base, NoFields) == base
    ensures Merge(Merge(base, update), update) == Merge(base, update)
    ensures var m := Merge(base, update);
      && (update.code.Some? ==> m.code == update.code)
      && (update.code.None? ==> m.code == base.code)
      && (update.instrument.Some? ==> m.instrument == update.instrument)
      && (update.instrument.None? ==> m.instrument == base.instrument)
      && (update.dateRange.Some? ==> m.dateRange == update.dateRange)
      && (update.dateRange.None? ==> m.dateRange == base.dateRange)
      && (update.initialCapital.Some? ==> m.initialCapital == update.initialCapital)
      && (update.initialCapital.None? ==> m.initialCapital == base.initialCapital)
      && (update.investmentPerTrade.Some? ==> m.investmentPerTrade == update.investmentPerTrade)
      && (update.investmentPerTrade.None? ==> m.investmentPerTrade == base.investmentPerTrade)
  {
  }

  /** `"<message> (<path joined by '.'>)"`. */
  function FormatIssue(issue: Issue): (line: string)
    ensures StartsWith(line, issue.message + " (")
    ensures EndsWith(line, ")")
  {
    issue.message + " (" + Join(issue.path, ".") + ")"
  }

  /** One formatted line per issue, in issue order. */
  function FormatIssues(issues: seq<Issue>): (lines: seq<string>)
    ensures |lines| == |issues|
    ensures forall i :: 0 <= i < |issues| ==> lines[i] == FormatIssue(issues[i])
  {
    if issues == [] then [] else [FormatIssue(issues[0])] + FormatIssues(issues[1..])
  }

  /** The path of a formatted issue can be read back when no path segment contains '.'. */
  lemma FormattedPathRecoverable(issue: Issue)
    requires |issue.path| >= 1
    requires forall i :: 0 <= i < |issue.path| ==> '.' !in issue.path[i]
    ensures var line := FormatIssue(issue);
      Split(line[|issue.message| + 2..|line| - 1], '.') == issue.path
  {
    var line := FormatIssue(issue);
    assert line[|issue.message| + 2..|line| - 1] == Join(issue.path, ".");
    SplitJoin(issue.path, '.');
  }

  class ValidationHook {
    /** `validationState`. */
    var state: StrategyState
    /** `validationErrors`: the issues of the last failed parse, or none. */
    var errors: Option<seq<Issue>>

    /** Only a failed parse is ever stored. */
    ghost predicate Valid()
      reads this
    {
      errors.Some? ==> errors.value != []
    }

    /** The initial state: a valid code verdict and no errors. */
    constructor ()
      ensures Valid()
      ensures state == StrategyState(Some(CodeCheck(true, None)), None, None, None, None)
      ensures errors == None
      ensures IsValid() && Errors() == []
    {
      state := StrategyState(Some(CodeCheck(true, None)), None, None, None, None);
      errors := None;
    }

    /** `isValid`: exactly "no stored errors". */
    function IsValid(): bool
      reads this
    {
      errors.None?
    }

    /** `errors`: the stored issues formatted, or nothing. */
    function Errors(): (lines: seq<string>)
      reads this
      ensures errors.None? ==> lines == []
      ensures errors.Some? ==> lines == FormatIssues(errors.value)
    {
      if errors.Some? then FormatIssues(errors.value) else []
    }

    /** Replace the code verdict; nothing else changes. */
    method UpdateCodeValidation(result: CodeCheck)
      requires Valid()
      modifies this
      ensures Valid()
      ensures state == old(state).(code := Some(result))
      ensures errors == old(errors)
    {
      state := state.(code := Some(result));
    }

    /** Merge `update` into the state, parse the merged state and store the outcome. */
    method ValidateStrategy(update: StrategyState)
      requires Valid()
      modifies this
      ensures Valid()
      ensures state == Merge(old(state), update)
      ensures IsValid() <==> Acceptable(state)
      ensures errors == (if Acceptable(state) then None else Some(Parse(state)))
    {
      var merged := Merge(state, update);
      var issues := Parse(merged);
      if issues == [] {
        errors := None;
      } else {
        errors := Some(issues);
      }
      state := merged;
    }
  }
}
