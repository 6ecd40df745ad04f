/**
 * Two places where logistics.py does not do what its messages say it
 * does, each shown on a concrete input, together with the corrected gate
 * and main block and the properties they were evidently meant to have.
 *
 * 1. The analyst's failure fallback `{"options": []}` passes the gate's
 *    guard, so instead of "AI failed to generate valid proposals" the
 *    operator is asked for a number in "(1-0)" that no line can supply.
 * 2. The main block tells "the operator chose an option" from "the
 *    operator rejected" by comparing the returned name with `"REJECTED"`
 *    and testing it for truth, so an option named `"REJECTED"` or `""` is
 *    aborted although the operator selected it.
 */
module LogisticsFindings {
  import opened Wrappers
  import opened Text
  import opened Logistics

  // ---------------------------------------------------------------------
  // The code as written
  // ---------------------------------------------------------------------

  /**
   * As written: when the analyst fails, the guard lets the fallback
   * through; the numbers the operator types are all out of range, and the
   * gate never returns `None`, but keeps asking until input runs out.
   */
  lemma FallbackPromptsForever(error: string)
    ensures PassesGuard(FailureFallback()) && |OptionsOf(FailureFallback())| == 0
    ensures Validation(FailureFallback(), ["1", "2"]) == InputExhausted
    ensures LogisticsMain(Failure(error), ["1", "2"]) == EndOfInput
  {
    var lines := ["1", "2"];
    var vs := Verdicts(lines, 0);
    NumeralChoosesOption(1, 0);
    NumeralChoosesOption(2, 0);
    assert IntToString(1) == "1" && IntToString(2) == "2";
    VerdictAt(lines, 0, 0);
    VerdictAt(lines, 0, 1);
    assert vs[0] == OutOfRange && vs[1] == OutOfRange;
    assert FirstAccepted(vs, 1) == None;
  }

  /**
   * As written: the operator selects option 1, whose name is `"REJECTED"`
   * or empty; the gate returns that name and the main block aborts.
   */
  lemma SelectedSentinelNameIsAborted(o: ProposalOption)
    requires o.name == Rejected || o.name == ""
    ensures Validation(ProposalDict(Some([o]), {}), ["1"]) == Returned(Some(o.name), 1)
    ensures LogisticsMain(Success(ProposalDict(Some([o]), {})), ["1"]) == Aborted
  {
    FirstLineSelectsFirst(ProposalDict(Some([o]), {}), []);
    assert ["1"] + [] == ["1"];
  }

  /** As written: a first line `1` selects the first of any non-empty list of options. */
  lemma FirstLineSelectsFirst(p: Proposals, rest: seq<string>)
    requires PassesGuard(p) && |OptionsOf(p)| > 0
    ensures Validation(p, ["1"] + rest).Returned?
    ensures Validation(p, ["1"] + rest) == Returned(Some(OptionsOf(p)[0].name), 1)
  {
    var lines := ["1"] + rest;
    NumeralChoosesOption(1, |OptionsOf(p)|);
    assert IntToString(1) == "1";
    VerdictAt(lines, |OptionsOf(p)|, 0);
  }

  // ---------------------------------------------------------------------
  // The corrected gate and main block
  // ---------------------------------------------------------------------

  /** The guard evidently intended: a dictionary with at least one option. */
  predicate HasUsableOptions(p: Proposals) {
    p.ProposalDict? && p.options.Some? && |p.options.value| > 0
  }

  /** The gate's answer, tagged, so that no option name can be mistaken for a rejection. */
  datatype Selection = NoValidProposals | RejectedAll | Selected(option: ProposalOption)

  datatype SelectionOutcome = Answered(selection: Selection, linesRead: nat) | NoMoreInput

  /** The corrected gate: the same loop, under the intended guard, with a tagged answer. */
  function CorrectedValidation(p: Proposals, lines: seq<string>): SelectionOutcome {
    if !HasUsableOptions(p) then Answered(NoValidProposals, 0)
    else
      var options := p.options.value;
      var vs := Verdicts(lines, |options|);
      match FirstAccepted(vs, 0)
      case None => NoMoreInput
      case Some(i) => Answered(if vs[i].RejectAll? then RejectedAll else Selected(options[vs[i].index]), i + 1)
  }

  /** The corrected main block: execute exactly what the operator selected. */
  function CorrectedMain(reply: Result<Proposals, string>, lines: seq<string>): RunOutcome {
    match CorrectedValidation(AiLogisticsAnalyst(reply), lines)
    case NoMoreInput => EndOfInput
    case Answered(Selected(o), _) => Executed(o.name)
    case Answered(_, _) => Aborted
  }

  /** Corrected: an analyst failure reports "no valid proposals" without reading a line, and aborts. */
  lemma CorrectedFailureAbortsAtOnce(error: string, lines: seq<string>)
    ensures CorrectedValidation(AiLogisticsAnalyst(Failure(error)), lines) == Answered(NoValidProposals, 0)
    ensures CorrectedMain(Failure(error), lines) == Aborted
  {
  }

  /**
   * Corrected: the plan is executed exactly when the first accepted line
   * chose an option, whatever that option is called, and the executed
   * plan is that option's name.
   */
  lemma CorrectedExecutesIffSelected(reply: Result<Proposals, string>, lines: seq<string>)
    ensures var p := AiLogisticsAnalyst(reply);
      CorrectedMain(reply, lines).Executed? <==>
        HasUsableOptions(p) && CorrectedValidation(p, lines).Answered?
        && 1 <= CorrectedValidation(p, lines).linesRead <= |lines|
        && ClassifyLine(lines[CorrectedValidation(p, lines).linesRead - 1], |p.options.value|).Choose?
    ensures var p := AiLogisticsAnalyst(reply);
      CorrectedMain(reply, lines).Executed? ==>
        HasUsableOptions(p) && 1 <= CorrectedValidation(p, lines).linesRead <= |lines|
        && var v := ClassifyLine(lines[CorrectedValidation(p, lines).linesRead - 1], |p.options.value|);
        v.Choose? && CorrectedMain(reply, lines).plan == p.options.value[v.index].name
  {
    var p := AiLogisticsAnalyst(reply);
    if HasUsableOptions(p) {
      var n := |p.options.value|;
      var vs := Verdicts(lines, n);
      var r := FirstAccepted(vs, 0);
      if r.Some? {
        VerdictAt(lines, n, r.value);
      }
    }
  }

  /**
   * The correction changes nothing else: whenever the analyst returned a
   * non-empty option list whose names are neither empty nor `"REJECTED"`,
   * both main blocks end the same way on every operator session.
   */
  lemma CorrectedAgreesOnOrdinaryNames(reply: Result<Proposals, string>, lines: seq<string>)
    requires HasUsableOptions(AiLogisticsAnalyst(reply))
    requires forall k :: 0 <= k < |AiLogisticsAnalyst(reply).options.value| ==>
      AiLogisticsAnalyst(reply).options.value[k].name != ""
      && AiLogisticsAnalyst(reply).options.value[k].name != Rejected
    ensures CorrectedMain(reply, lines) == LogisticsMain(reply, lines)
  {
  }

  /** Corrected: with at least one option, typing `1` always selects the first one. */
  lemma CorrectedFirstLineSelectsFirst(p: Proposals, rest: seq<string>)
    requires HasUsableOptions(p)
    ensures CorrectedValidation(p, ["1"] + rest) == Answered(Selected(p.options.value[0]), 1)
  {
    FirstLineSelectsFirst(p, rest);
    VerdictAt(["1"] + rest, |p.options.value|, 0);
  }

  /** Corrected: the option named `"REJECTED"` that the operator selects is executed. */
  lemma CorrectedExecutesSentinelName(o: ProposalOption)
    requires o.name == Rejected || o.name == ""
    ensures CorrectedMain(Success(ProposalDict(Some([o]), {})), ["1"]) == Executed(o.name)
  {
    CorrectedFirstLineSelectsFirst(ProposalDict(Some([o]), {}), []);
    assert ["1"] + [] == ["1"];
  }
}
