/**
  The text of the evaluation's identifiers: attempt-scoped ones name their arm, attempt and
  record, and never read alike unless all three agree.
 */
module Identifiers {
  import opened EvaluationStore

  function ArmText(arm: Arm): string { match arm case Historical => "historical" case Fixed => "fixed" }

  function KindText(kind: RecordKind): string {
    match kind
    case Worktree => "worktree"
    case CandidateStdout => "candidate-stdout"
    case CandidateStderr => "candidate-stderr"
    case GraderStdout => "grader-stdout"
    case GraderStderr => "grader-stderr"
    case Materialization => "materialization"
    case CandidateCommand => "candidate"
    case GraderCommand => "grader"
    case CandidateValidation => "validation"
    case GraderValidation => "grader-validation"
    case ControllerEvidence => "controller-evidence"
    case GraderEvidence => "grader-evidence"
  }

  const PREFIX := "m2-observer-snapshot-"

  /** An attempt's text: an "a", then 26 letters and digits that spell its ULID. */
  predicate IsAttemptText(attempt: string) { |attempt| == 27 && attempt[0] == 'a' && '-' !in attempt }

  function IdText(arm: Arm, attempt: string, kind: RecordKind): string {
    PREFIX + ArmText(arm) + "-" + attempt + "-" + KindText(kind)
  }

  lemma KindTextInjective(a: RecordKind, b: RecordKind)
    requires KindText(a) == KindText(b)
    ensures a == b
  {
    var s, t := KindText(a), KindText(b);
    assert |s| == |t|;
    if |s| > 10 { assert s[10] == t[10]; }
    assert s[0] == t[0];
    assert s[|s| - 1] == t[|t| - 1];
    assert s[|s| - 3] == t[|t| - 3];
  }

  /** What follows the first dash is determined by the text up to it. */
  lemma DashSplits(a: string, b: string, x: string, y: string)
    requires '-' !in a && '-' !in b
    ensures a + "-" + x == b + "-" + y ==> a == b && x == y
  {
    var s, t := a + "-" + x, b + "-" + y;
    if |a| < |b| {
      assert s[|a|] == '-' && t[|a|] == b[|a|];
    } else if |b| < |a| {
      assert t[|b|] == '-' && s[|b|] == a[|b|];
    } else {
      assert a == s[..|a|] && b == t[..|b|] && x == s[|a| + 1..] && y == t[|b| + 1..];
    }
  }

  lemma ArmTextInjective(a: Arm, b: Arm)
    ensures '-' !in ArmText(a) && (ArmText(a) == ArmText(b) ==> a == b)
  {
    assert |"historical"| == 10 && |"fixed"| == 5;
  }

  /** Two attempt-scoped identifiers read alike only when they are the same identifier. */
  lemma AttemptIdsDiffer(armA: Arm, attemptA: string, kindA: RecordKind, armB: Arm, attemptB: string, kindB: RecordKind)
    requires IsAttemptText(attemptA) && IsAttemptText(attemptB)
    ensures IdText(armA, attemptA, kindA) == IdText(armB, attemptB, kindB)
            <==> armA == armB && attemptA == attemptB && kindA == kindB
  {
    hide ArmText, KindText;
    var restA, restB := attemptA + "-" + KindText(kindA), attemptB + "-" + KindText(kindB);
    var s, t := IdText(armA, attemptA, kindA), IdText(armB, attemptB, kindB);
    assert s == PREFIX + (ArmText(armA) + "-" + restA) && t == PREFIX + (ArmText(armB) + "-" + restB);
    if s == t {
      assert s[|PREFIX|..] == ArmText(armA) + "-" + restA && t[|PREFIX|..] == ArmText(armB) + "-" + restB;
      ArmTextInjective(armA, armB);
      ArmTextInjective(armB, armA);
      DashSplits(ArmText(armA), ArmText(armB), restA, restB);
      DashSplits(attemptA, attemptB, KindText(kindA), KindText(kindB));
      KindTextInjective(kindA, kindB);
    }
  }

  /** The fixed identifiers and the keys made from them. */
  const FIXED_SUFFIXES := [
    "historical", "fixed", "fixed-evaluation", "fixed-evaluation-v1", "fixed-sample", "fixed-sample-v1",
    "fixed-evaluation-completed", "fixed-evaluation-completed-v1",
    "grader", "grader-r1", "grader-event", "case", "case-r1", "case-event", "taskset", "taskset-r1", "taskset-event"]

  /** No attempt writes under a fixed identifier: theirs are all shorter. */
  lemma AttemptIsNeverFixed(arm: Arm, attempt: string, kind: RecordKind, suffix: string)
    requires IsAttemptText(attempt) && suffix in FIXED_SUFFIXES
    ensures IdText(arm, attempt, kind) != PREFIX + suffix
  {
    var i :| 0 <= i < |FIXED_SUFFIXES| && FIXED_SUFFIXES[i] == suffix;
    assert |suffix| <= 29;
    assert |KindText(kind)| >= 6 && |ArmText(arm)| >= 5;
    assert |IdText(arm, attempt, kind)| == |PREFIX| + |ArmText(arm)| + 1 + |attempt| + 1 + |KindText(kind)|;
    assert |PREFIX + suffix| == |PREFIX| + |suffix|;
  }
}
