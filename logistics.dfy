/**
 * logistics.py: an analyst step proposes options, a human approval gate
 * reads operator lines until one chooses an option or rejects them all,
 * and the main block executes the chosen plan or aborts.
 *
 * `input()` becomes the sequence of lines the operator types; reading past
 * its end is the `EOFError` that `input()` raises and nothing catches.
 */
module Logistics {
  import opened Wrappers
  import opened Text

  /** One proposed option, as the analyst's JSON lists it. */
  datatype ProposalOption = ProposalOption(
    name: string, strategy: string, costImpact: int, etaImpactHours: int, risk: string)

  /**
   * The `proposals` the gate receives: Python `None`, or a dictionary whose
   * `"options"` entry, when there is one, is `options`, and whose other keys
   * are `otherKeys`.
   */
  datatype Proposals =
    | NoProposals
    | ProposalDict(options: Option<seq<ProposalOption>>, otherKeys: OtherKeys)

  /** The keys of a dictionary besides `"options"`, which only the `options` field stands for. */
  type OtherKeys = ks: set<string> | "options" !in ks

  /** `bool(proposals)`: not `None` and not the empty dictionary. */
  predicate Truthy(p: Proposals) {
    p.ProposalDict? && (p.options.Some? || p.otherKeys != {})
  }

  /** `"options" in proposals`. */
  predicate HasOptionsKey(p: Proposals) {
    p.ProposalDict? && p.options.Some?
  }

  /** The guard `not proposals or "options" not in proposals` is false. */
  predicate PassesGuard(p: Proposals) {
    !(!Truthy(p) || !HasOptionsKey(p))
  }

  function OptionsOf(p: Proposals): seq<ProposalOption>
    requires PassesGuard(p)
  {
    p.options.value
  }

  /** The string the gate returns when the operator rejects every option. */
  const Rejected: string := "REJECTED"

  // ---------------------------------------------------------------------
  // One operator line
  // ---------------------------------------------------------------------

  /** What the loop body does with one line. */
  datatype LineVerdict =
    | RejectAll           // `choice.lower() == 'reject'`: return "REJECTED"
    | Choose(index: nat)  // `int(choice) - 1` is in range: return that option's name
    | OutOfRange          // a number outside 1..count: "Invalid selection", ask again
    | NotANumber          // `int()` raised `ValueError`: "Invalid input", ask again

  /**
   * The body of the `while True` loop for one line `choice` and `count`
   * options. The rejection test comes first and sees the line untrimmed;
   * only `int()` tolerates surrounding whitespace.
   */
  function ClassifyLine(choice: string, count: nat): (v: LineVerdict)
    ensures v.Choose? ==> v.index < count
  {
    if Lower(choice) == "reject" then RejectAll
    else
      match ParseInt(choice)
      case None => NotANumber
      case Some(n) =>
        var choiceIndex := n - 1;
        if 0 <= choiceIndex < count then Choose(choiceIndex) else OutOfRange
  }

  /** Verdicts on which the loop returns. */
  predicate Stops(v: LineVerdict) {
    v.RejectAll? || v.Choose?
  }

  /** A line on which the loop returns. */
  predicate Accepts(choice: string, count: nat) {
    Stops(ClassifyLine(choice, count))
  }

  /** What the gate returns for an accepted line. */
  function Answer(options: seq<ProposalOption>, v: LineVerdict): string
    requires v.RejectAll? || (v.Choose? && v.index < |options|)
  {
    if v.RejectAll? then Rejected else options[v.index].name
  }

  /** A line is accepted exactly when it is `reject` in any case, or the numeral of an option. */
  lemma AcceptsIff(choice: string, count: nat)
    ensures Accepts(choice, count) <==>
      Lower(choice) == "reject" || (ParseInt(choice).Some? && 1 <= ParseInt(choice).value <= count)
    ensures ClassifyLine(choice, count).Choose? ==>
      Lower(choice) != "reject" && ParseInt(choice).Some?
      && ParseInt(choice).value == ClassifyLine(choice, count).index + 1
  {
  }

  /** The operator typing `str(k)` picks option k when it exists, and otherwise is asked again. */
  lemma NumeralChoosesOption(k: int, count: nat)
    ensures ClassifyLine(IntToString(k), count) == if 1 <= k <= count then Choose(k - 1) else OutOfRange
  {
    ParseIntOfIntToString(k);
  }

  // ---------------------------------------------------------------------
  // The gate: `HumanInTheLoop.get_human_validation`
  // ---------------------------------------------------------------------

  /**
   * The gate's result: it returned `decision` (`None`, `"REJECTED"` or an
   * option's name) after reading `linesRead` lines, or it ran out of input.
   */
  datatype GateOutcome = Returned(decision: Option<string>, linesRead: nat) | InputExhausted

  /** The verdict on each typed line, in order. */
  function Verdicts(lines: seq<string>, count: nat): (vs: seq<LineVerdict>)
    ensures |vs| == |lines|
    ensures forall i :: 0 <= i < |vs| && vs[i].Choose? ==> vs[i].index < count
  {
    if lines == [] then [] else [ClassifyLine(lines[0], count)] + Verdicts(lines[1..], count)
  }

  lemma {:induction false} VerdictAt(lines: seq<string>, count: nat, i: nat)
    requires i < |lines|
    ensures Verdicts(lines, count)[i] == ClassifyLine(lines[i], count)
  {
    if i > 0 {
      VerdictAt(lines[1..], count, i - 1);
    }
  }

  /**
   * Where the `while True` loop returns, reading from line `from` on: the
   * first line whose verdict stops it, or none.
   */
  function FirstAccepted(vs: seq<LineVerdict>, from: nat): (r: Option<nat>)
    requires from <= |vs|
    ensures r.Some? ==>
      from <= r.value < |vs| && Stops(vs[r.value])
      && forall i :: from <= i < r.value ==> !Stops(vs[i])
    ensures r.None? ==> forall i :: from <= i < |vs| ==> !Stops(vs[i])
    decreases |vs| - from
  {
    if from == |vs| then None
    else if Stops(vs[from]) then Some(from)
    else FirstAccepted(vs, from + 1)
  }

  /**
   * `get_human_validation(proposals)` with the operator typing `lines`:
   * `None` when the guard holds, otherwise the answer to the first
   * accepted line, or running out of input.
   */
  function Validation(proposals: Proposals, lines: seq<string>): GateOutcome {
    if !PassesGuard(proposals) then Returned(None, 0)
    else
      var options := OptionsOf(proposals);
      var vs := Verdicts(lines, |options|);
      match FirstAccepted(vs, 0)
      case None => InputExhausted
      case Some(i) => Returned(Some(Answer(options, vs[i])), i + 1)
  }

  /**
   * `HumanInTheLoop.get_human_validation` (the class holds no state): the
   * guard, then one line after another until a line is accepted.
   */
  method GetHumanValidation(proposals: Proposals, lines: seq<string>) returns (outcome: GateOutcome)
    ensures outcome == Validation(proposals, lines)
  {
    if !Truthy(proposals) || !HasOptionsKey(proposals) {
      return Returned(None, 0);
    }
    var options := proposals.options.value;
    ghost var vs := Verdicts(lines, |options|);
    var i := 0;
    while i < |lines|
      invariant 0 <= i <= |lines|
      invariant FirstAccepted(vs, i) == FirstAccepted(vs, 0)
    {
      var choice := lines[i];
      VerdictAt(lines, |options|, i);
      match ClassifyLine(choice, |options|) {
        case RejectAll =>
          return Returned(Some(Rejected), i + 1);
        case Choose(choiceIndex) =>
          return Returned(Some(options[choiceIndex].name), i + 1);
        case _ =>
      }
      i := i + 1;
    }
    return InputExhausted;
  }

  /**
   * The gate's result is fixed by the first accepted line: `None` without
   * reading anything when the guard fails; otherwise `"REJECTED"` or the
   * option's name for the first accepted line, every earlier line having
   * been asked again; or running out of input when no line is accepted.
   */
  lemma GateDecidedByFirstAcceptedLine(p: Proposals, lines: seq<string>)
    ensures !PassesGuard(p) ==> Validation(p, lines) == Returned(None, 0)
    ensures PassesGuard(p) ==>
      (Validation(p, lines).InputExhausted? <==>
        forall i :: 0 <= i < |lines| ==> !Accepts(lines[i], |OptionsOf(p)|))
    ensures PassesGuard(p) && Validation(p, lines).Returned? ==>
      var c := Validation(p, lines).linesRead;
      1 <= c <= |lines|
      && (forall i :: 0 <= i < c - 1 ==> !Accepts(lines[i], |OptionsOf(p)|))
      && var v := ClassifyLine(lines[c - 1], |OptionsOf(p)|);
      (v.RejectAll? || v.Choose?)
      && (v.RejectAll? ==> Validation(p, lines).decision == Some(Rejected))
      && (v.Choose? ==> Validation(p, lines).decision == Some(OptionsOf(p)[v.index].name))
  {
    if PassesGuard(p) {
      var n := |OptionsOf(p)|;
      var vs := Verdicts(lines, n);
      forall i | 0 <= i < |lines|
        ensures vs[i] == ClassifyLine(lines[i], n)
      {
        VerdictAt(lines, n, i);
      }
    }
  }

  /**
   * The gate returns `None`, `"REJECTED"` or the name of a listed option,
   * and `None` exactly when the guard fails.
   */
  lemma GateResultShape(p: Proposals, lines: seq<string>)
    ensures Validation(p, lines).Returned? ==>
      var d := Validation(p, lines).decision;
      (d == None <==> !PassesGuard(p))
      && (d == None || d == Some(Rejected)
          || (PassesGuard(p) && exists o :: o in OptionsOf(p) && d == Some(o.name)))
  {
    GateDecidedByFirstAcceptedLine(p, lines);
    if PassesGuard(p) && Validation(p, lines).Returned? {
      var c := Validation(p, lines).linesRead;
      var v := ClassifyLine(lines[c - 1], |OptionsOf(p)|);
      if v.Choose? {
        assert OptionsOf(p)[v.index] in OptionsOf(p);
      }
    }
  }

  // ---------------------------------------------------------------------
  // `ai_logistics_analyst`
  // ---------------------------------------------------------------------

  /** The dictionary the analyst returns when anything goes wrong: `{"options": []}`. */
  function FailureFallback(): Proposals {
    ProposalDict(Some([]), {})
  }

  /**
   * `ai_logistics_analyst`: `reply` is what the chat call and `json.loads`
   * produced, or the exception either raised. The parsed dictionary is
   * returned as it is; any exception gives the fallback.
   */
  function AiLogisticsAnalyst(reply: Result<Proposals, string>): Proposals {
    match reply
    case Success(proposals) => proposals
    case Failure(_) => FailureFallback()
  }

  /**
   * The fallback passes the guard with no options: no number is ever
   * accepted, and only a `reject` line ends the gate.
   */
  lemma FallbackOnlyRejectEnds(lines: seq<string>)
    ensures PassesGuard(FailureFallback()) && OptionsOf(FailureFallback()) == []
    ensures forall choice :: !ClassifyLine(choice, 0).Choose?
    ensures Validation(FailureFallback(), lines).InputExhausted? <==>
      forall i :: 0 <= i < |lines| ==> Lower(lines[i]) != "reject"
    ensures Validation(FailureFallback(), lines).Returned? ==>
      var c := Validation(FailureFallback(), lines).linesRead;
      1 <= c <= |lines| && Lower(lines[c - 1]) == "reject"
      && (forall i :: 0 <= i < c - 1 ==> Lower(lines[i]) != "reject")
      && Validation(FailureFallback(), lines).decision == Some(Rejected)
  {
    GateDecidedByFirstAcceptedLine(FailureFallback(), lines);
  }

  // ---------------------------------------------------------------------
  // The `__main__` block
  // ---------------------------------------------------------------------

  /** How a run of the script ends. */
  datatype RunOutcome =
    | Executed(plan: string)  // `execute_final_plan(final_decision)` ran
    | Aborted                 // "EXECUTION ABORTED"
    | EndOfInput              // `input()` raised `EOFError`

  /** `final_decision and final_decision != "REJECTED"`. */
  predicate ShouldExecute(finalDecision: Option<string>) {
    finalDecision.Some? && finalDecision.value != "" && finalDecision.value != Rejected
  }

  /** The script: analyst, gate, then execute or abort. */
  function LogisticsMain(reply: Result<Proposals, string>, lines: seq<string>): RunOutcome {
    match Validation(AiLogisticsAnalyst(reply), lines)
    case InputExhausted => EndOfInput
    case Returned(finalDecision, _) =>
      if ShouldExecute(finalDecision) then Executed(finalDecision.value) else Aborted
  }

  /**
   * The plan is executed exactly when the first accepted line chose an
   * option whose name is neither empty nor `"REJECTED"`, and what is
   * executed is that option's name.
   */
  lemma MainExecutesChosenOption(reply: Result<Proposals, string>, lines: seq<string>)
    ensures var p := AiLogisticsAnalyst(reply);
      LogisticsMain(reply, lines).Executed? <==>
        PassesGuard(p) && Validation(p, lines).Returned?
        && ClassifyLine(lines[Validation(p, lines).linesRead - 1], |OptionsOf(p)|).Choose?
        && var o := OptionsOf(p)[ClassifyLine(lines[Validation(p, lines).linesRead - 1], |OptionsOf(p)|).index];
           o.name != "" && o.name != Rejected
    ensures var p := AiLogisticsAnalyst(reply);
      LogisticsMain(reply, lines).Executed? ==>
        var v := ClassifyLine(lines[Validation(p, lines).linesRead - 1], |OptionsOf(p)|);
        v.Choose? && LogisticsMain(reply, lines).plan == OptionsOf(p)[v.index].name
  {
    GateDecidedByFirstAcceptedLine(AiLogisticsAnalyst(reply), lines);
  }

  /** A first accepted line of `reject` aborts; so does a failing guard. */
  lemma MainRejectOrNoOptionsAborts(reply: Result<Proposals, string>, lines: seq<string>)
    ensures !PassesGuard(AiLogisticsAnalyst(reply)) ==> LogisticsMain(reply, lines) == Aborted
    ensures var p := AiLogisticsAnalyst(reply);
      (PassesGuard(p) && Validation(p, lines).Returned?
       && Lower(lines[Validation(p, lines).linesRead - 1]) == "reject") ==> LogisticsMain(reply, lines) == Aborted
  {
    GateDecidedByFirstAcceptedLine(AiLogisticsAnalyst(reply), lines);
  }

  /** When the analyst fails, nothing is ever executed, whatever the operator types. */
  lemma MainFailureNeverExecutes(error: string, lines: seq<string>)
    ensures !LogisticsMain(Failure(error), lines).Executed?
  {
    FallbackOnlyRejectEnds(lines);
  }

  // ---------------------------------------------------------------------
  // Operator sessions
  // ---------------------------------------------------------------------

  /** Three options; the operator types `5`, then `abc`, then `2`: option 2 is executed. */
  lemma SecondOfThreeAfterInvalidLines(a: ProposalOption, b: ProposalOption, c: ProposalOption)
    requires b.name != "" && b.name != Rejected
    ensures Validation(ProposalDict(Some([a, b, c]), {}), ["5", "abc", "2"]) == Returned(Some(b.name), 3)
    ensures LogisticsMain(Success(ProposalDict(Some([a, b, c]), {})), ["5", "abc", "2"]) == Executed(b.name)
  {
    SessionVerdicts();
    ThirdLineChooses(ProposalDict(Some([a, b, c]), {}), ["5", "abc", "2"], 1);
  }

  /** Two lines that are not accepted, then the numeral of option k: the gate returns that option after three lines. */
  lemma ThirdLineChooses(p: Proposals, lines: seq<string>, k: nat)
    requires PassesGuard(p) && |lines| == 3
    requires var vs := Verdicts(lines, |OptionsOf(p)|); !Stops(vs[0]) && !Stops(vs[1]) && vs[2] == Choose(k)
    ensures k < |OptionsOf(p)|
    ensures Validation(p, lines) == Returned(Some(OptionsOf(p)[k].name), 3)
  {
    var vs := Verdicts(lines, |OptionsOf(p)|);
    assert FirstAccepted(vs, 1) == Some(2);
  }

  lemma SessionVerdicts()
    ensures var vs := Verdicts(["5", "abc", "2"], 3);
      vs[0] == OutOfRange && vs[1] == NotANumber && vs[2] == Choose(1)
  {
    var lines := ["5", "abc", "2"];
    NumeralChoosesOption(5, 3);
    NumeralChoosesOption(2, 3);
    assert IntToString(5) == "5" && IntToString(2) == "2";
    AbcIsNotANumber();
    VerdictAt(lines, 3, 0);
    VerdictAt(lines, 3, 1);
    VerdictAt(lines, 3, 2);
  }

  lemma AbcIsNotANumber()
    ensures ClassifyLine("abc", 3) == NotANumber
  {
    assert Lower("abc") != "reject";
    assert Strip("abc") == "abc" by { StripUnpadded("abc"); }
    assert !AllDigits("abc") by { assert !IsDigit("abc"[0]); }
  }

  /** A file separator before the digit is not whitespace to `int()`: "Invalid input". */
  lemma SeparatorBeforeDigitIsNotANumber(count: nat)
    ensures ClassifyLine("\U{1C}2", count) == NotANumber
  {
    var s := "\U{1C}2";
    assert Lower(s) != "reject";
    assert Strip(s) == s by { StripUnpadded(s); }
    assert !IsDigit(s[0]);
  }

  /** A space and a tab around a numeral still select that option. */
  lemma PaddedNumeralChooses(count: nat)
    requires 2 <= count
    ensures ClassifyLine(" 2\t", count) == Choose(1)
  {
    var s := " 2\t";
    assert s == " " + "2" + "\t";
    ParseIntIgnoresPadding(" ", "2", "\t");
    ParseIntOfIntToString(2);
    assert IntToString(2) == "2";
    assert Lower(s) != "reject";
  }

  /** The operator rejects at once: `"REJECTED"` after one line, and the script aborts. */
  lemma RejectAtOnce(p: Proposals, rest: seq<string>)
    requires PassesGuard(p)
    ensures Validation(p, ["Reject"] + rest) == Returned(Some(Rejected), 1)
    ensures LogisticsMain(Success(p), ["Reject"] + rest) == Aborted
  {
    assert Lower("Reject") == "reject" by {
      var s0 := "Reject";
      var s1 := s0[1..];
      assert s1 == "eject";
    }
  }
}
