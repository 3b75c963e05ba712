/** How the runner grades a comparison and what evaluation result it builds. */
module Evaluations {
  import opened Protocol
  import opened ResultMatching

  /** The fixed texts the runner reports, and the version line it has bounded itself. */
  type Message = s: string | |s| <= 1_000 witness ""
  type HarnessVersion = s: string | |s| < 100 witness ""
  type Unfinished = s: VariantStatus | s != VariantCompleted witness VariantFailed

  datatype CaseAnswer = CaseAnswer(id: string, bugLine: Option<nat>)
  datatype Case = Case(id: string, bugLine: Option<nat>, caption: string)

  const CASES := [
    Case("discount", Some(3), "Discount arithmetic bug"),
    Case("clamp", None, "No false positive on correct clamp"),
    Case("contains", Some(2), "First-element membership bug")]

  function Matching(answers: seq<CaseAnswer>, id: string): seq<CaseAnswer> {
    if answers == [] then []
    else (if answers[0].id == id then [answers[0]] else []) + Matching(answers[1..], id)
  }

  function GradeCases(answers: seq<CaseAnswer>, cases: seq<Case>): Option<seq<Check>> {
    if cases == [] then Some([])
    else
      var matching := Matching(answers, cases[0].id);
      var rest := GradeCases(answers, cases[1..]);
      if |matching| != 1 || rest.None? then None
      else Some([Check(cases[0].id, cases[0].caption, matching[0].bugLine == cases[0].bugLine)] + rest.value)
  }

  /** None stands for "not the required evidence". */
  function Grade(answers: seq<CaseAnswer>): Option<seq<Check>> {
    if |answers| != |CASES| then None else GradeCases(answers, CASES)
  }

  /** How one side ended. `Graded` is a clean exit with an answer file that parses. */
  datatype Ending = Stopped(status: Unfinished, reason: Message) | Graded(answers: seq<CaseAnswer>)
  datatype Side = Side(durationMs: nat, ending: Ending)

  /** The runner's fixed texts; only their lengths matter here. */
  datatype Wording = Wording(
    noScore: Message, score: Message, noEvidence: Message, notStarted: Message,
    changed: Message, cancelledBefore: Message)

  function VariantError(
    revision: Revision, status: Unfinished, durationMs: nat, error: Message, words: Wording): Variant
  {
    Variant(revision.setupRevisionId, status, durationMs, [], words.noScore, Some(error))
  }

  function CountPassed(checks: seq<Check>): nat {
    if checks == [] then 0 else (if checks[0].passed then 1 else 0) + CountPassed(checks[1..])
  }

  function Digit(n: nat): char {
    if n == 0 then '0' else if n == 1 then '1' else if n == 2 then '2' else '3'
  }

  function RunVariant(revision: Revision, side: Side, words: Wording): Variant {
    match side.ending
    case Stopped(status, reason) => VariantError(revision, status, side.durationMs, reason, words)
    case Graded(answers) =>
      match Grade(answers)
      case None => VariantError(revision, VariantFailed, side.durationMs, words.noEvidence, words)
      case Some(checks) =>
        Variant(revision.setupRevisionId, VariantCompleted, side.durationMs, checks,
                [Digit(CountPassed(checks))] + words.score, None)
  }

  /** What happens while a comparison is attempted. */
  datatype Comparison =
    | Refused(reason: Message)
    | Compared(
        version: HarnessVersion, inherited: Option<Digest>,
        baseline: Side, changedAfterBaseline: bool,
        candidate: Side, changedAfterCandidate: bool)

  function Incomplete(request: Evaluation, status: Unfinished, error: Message, words: Wording): Result {
    EvaluationResult(
      request.suiteId, request.profile,
      Observed("unavailable", None, "skillInstructions", false, None, false),
      VariantError(request.baseline, status, 0, error, words),
      VariantError(request.candidate, status, 0, error, words))
  }

  /** The second side is not started once the first was cancelled or interrupted. */
  predicate StartsCandidate(baseline: Variant) {
    baseline.status != VariantCancelled && baseline.status != VariantInterrupted
  }

  function Execute(request: Evaluation, run: Comparison, words: Wording): Result {
    match run
    case Refused(reason) => Incomplete(request, VariantFailed, reason, words)
    case Compared(version, inherited, baselineSide, changedFirst, candidateSide, changedSecond) =>
      var baseline := RunVariant(request.baseline, baselineSide, words);
      if changedFirst then Incomplete(request, VariantInterrupted, words.changed, words)
      else
        var candidate :=
          if StartsCandidate(baseline) then RunVariant(request.candidate, candidateSide, words)
          else VariantError(request.candidate, baseline.status, 0, words.notStarted, words);
        if changedSecond then Incomplete(request, VariantInterrupted, words.changed, words)
        else EvaluationResult(
          request.suiteId, request.profile,
          Observed(version, None, "skillInstructions", false, inherited, false),
          baseline, candidate)
  }

  /** Some side that is reported ran longer than the control plane accepts. */
  predicate RanTooLong(request: Evaluation, run: Comparison, words: Wording) {
    && run.Compared? && !run.changedAfterBaseline && !run.changedAfterCandidate
    && (run.baseline.durationMs > MAX_DURATION_MS
        || (StartsCandidate(RunVariant(request.baseline, run.baseline, words))
            && run.candidate.durationMs > MAX_DURATION_MS))
  }

  // ----- grading -----

  predicate AnswersEachOnce(answers: seq<CaseAnswer>) {
    |answers| == 3 && |Matching(answers, "discount")| == 1
    && |Matching(answers, "clamp")| == 1 && |Matching(answers, "contains")| == 1
  }

  lemma CaseIdsDiffer()
    ensures "discount" != "clamp" && "clamp" != "contains" && "discount" != "contains"
  {
    assert |"discount"| == 8 && |"clamp"| == 5;
    assert "discount"[0] == 'd' && "contains"[0] == 'c';
  }

  lemma GradeMeaning(answers: seq<CaseAnswer>)
    ensures Grade(answers).Some? <==> AnswersEachOnce(answers)
    ensures Grade(answers).Some? ==>
      && |Grade(answers).value| == 3
      && forall i | 0 <= i < 3 ::
           Grade(answers).value[i]
           == Check(CASES[i].id, CASES[i].caption, Matching(answers, CASES[i].id)[0].bugLine == CASES[i].bugLine)
  {
    assert CASES[1..] == [CASES[1], CASES[2]];
    GradeStep(answers, CASES[2], []);
    GradeStep(answers, CASES[1], [CASES[2]]);
    GradeStep(answers, CASES[0], [CASES[1], CASES[2]]);
    assert CASES == [CASES[0]] + [CASES[1], CASES[2]] && [CASES[1], CASES[2]] == [CASES[1]] + [CASES[2]];
    assert [CASES[2]] + [] == [CASES[2]];
  }

  lemma GradeStep(answers: seq<CaseAnswer>, c: Case, rest: seq<Case>)
    ensures GradeCases(answers, [c] + rest)
            == if |Matching(answers, c.id)| == 1 && GradeCases(answers, rest).Some?
               then Some([Check(c.id, c.caption, Matching(answers, c.id)[0].bugLine == c.bugLine)]
                         + GradeCases(answers, rest).value)
               else None
  {
    assert ([c] + rest)[1..] == rest;
  }

  /** Graded checks are what the control plane expects: each case once, three in all. */
  lemma GradedChecksAreExpected(answers: seq<CaseAnswer>)
    requires Grade(answers).Some?
    ensures var checks := Grade(answers).value;
      && |checks| == 3
      && (forall id | id in EXPECTED_CHECKS :: ChecksNamed(checks, id) == 1)
      && (forall c | c in checks :: |c.id| <= 100 && |c.caption| <= 200)
  {
    GradeMeaning(answers);
    CaseIdsDiffer();
    var checks := Grade(answers).value;
    assert checks == [checks[0], checks[1], checks[2]];
    assert checks[1..] == [checks[1], checks[2]] && [checks[1], checks[2]][1..] == [checks[2]];
    assert [checks[2]][1..] == [];
    assert checks[0].id == "discount" && checks[1].id == "clamp" && checks[2].id == "contains";
    forall id
      ensures ChecksNamed(checks, id) ==
              (if checks[0].id == id then 1 else 0) + (if checks[1].id == id then 1 else 0)
              + (if checks[2].id == id then 1 else 0)
    {
      assert ChecksNamed([checks[2]], id) == if checks[2].id == id then 1 else 0;
      assert ChecksNamed([checks[1], checks[2]], id)
             == (if checks[1].id == id then 1 else 0) + ChecksNamed([checks[2]], id);
    }
  }

  // ----- what the control plane thinks of it -----

  lemma RunVariantMatches(revision: Revision, side: Side, words: Wording)
    ensures VariantMatches(revision, RunVariant(revision, side, words)) <==> side.durationMs <= MAX_DURATION_MS
  {
    if side.ending.Graded? && Grade(side.ending.answers).Some? {
      GradedChecksAreExpected(side.ending.answers);
    }
  }

  lemma IncompleteMatches(request: Evaluation, status: Unfinished, error: Message, words: Wording)
    ensures EvaluationResultMatches(request, Incomplete(request, status, error, words))
  {
    assert |"unavailable"| <= 200;
  }

  /** An evaluation result fails the control plane's check exactly when a reported side ran for
      more than 300 seconds. */
  lemma ResultMatchesUnlessTooLong(request: Evaluation, run: Comparison, words: Wording)
    ensures Execute(request, run, words).EvaluationResult?
    ensures EvaluationResultMatches(request, Execute(request, run, words)) <==> !RanTooLong(request, run, words)
  {
    match run {
      case Refused(reason) => IncompleteMatches(request, VariantFailed, reason, words);
      case Compared(version, inherited, baselineSide, changedFirst, candidateSide, changedSecond) =>
        IncompleteMatches(request, VariantInterrupted, words.changed, words);
        RunVariantMatches(request.baseline, baselineSide, words);
        RunVariantMatches(request.candidate, candidateSide, words);
    }
  }
}
