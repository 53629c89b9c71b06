/**
  Fault-matrix evidence: a command run is printed as a transcript, and the outcome read
  back from a transcript must be the outcome recorded when it was printed.
 */
module FaultTranscript {
  import opened Options

  datatype Outcome = Held | Violated | InfrastructureUnavailable

  /** A child's exit: a code, or the text of what ended it. */
  datatype ExitStatus = Exited(code: nat) | Ended(text: string)

  datatype Pipe = Pipe(text: string, issue: Option<string>)

  datatype Execution =
    | Completed(status: ExitStatus, stdout: Pipe, stderr: Pipe, completionIssue: Option<string>)
    | TimedOut(stdout: Pipe, stderr: Pipe, containmentIssue: Option<string>)
    | SpawnFailed(error: string)
    | WaitFailed(error: string, stdout: Pipe, stderr: Pipe)

  function Digits(n: nat): (d: string)
    ensures |d| >= 1 && forall i :: 0 <= i < |d| ==> '0' <= d[i] <= '9'
  {
    if n < 10 then ["0123456789"[n]] else Digits(n / 10) + ["0123456789"[n % 10]]
  }

  function StatusText(s: ExitStatus): string {
    match s case Exited(code) => "exit status: " + Digits(code) case Ended(text) => text
  }

  predicate Success(s: ExitStatus) { s == Exited(0) }

  /** The first issue, in the order completion, stdout, stderr. */
  function IssueOf(e: Execution): Option<string>
    requires e.Completed?
  {
    if e.completionIssue.Some? then e.completionIssue
    else if e.stdout.issue.Some? then e.stdout.issue
    else e.stderr.issue
  }

  // ------------------------------------------------------------------- the printer

  function StateText(e: Execution): string {
    match e
    case Completed(_, _, _, _) => "completed"
    case TimedOut(_, _, _) => "timed_out"
    case SpawnFailed(_) => "spawn_failed"
    case WaitFailed(_, _, _) => "wait_failed"
  }

  function DetailText(e: Execution): string {
    match e
    case Completed(_, _, _, _) =>
      (match IssueOf(e) case None => CAPTURE_LINE case Some(issue) => "capture: incomplete" + "\n" + issue)
    case TimedOut(_, _, issue) =>
      "timeout_seconds: 300" + "\n" + ("containment: " + (if issue.Some? then issue.value else "complete"))
    case SpawnFailed(error) => "spawn_error: " + error
    case WaitFailed(error, _, _) => "wait_error: " + error
  }

  function Stdout(e: Execution): string { if e.SpawnFailed? then "" else e.stdout.text }
  function Stderr(e: Execution): string { if e.SpawnFailed? then "" else e.stderr.text }

  function StatusSegment(e: Execution): string {
    "exit_status: " + (if e.Completed? then StatusText(e.status) else "unavailable")
  }

  /** The printed form, line by line. */
  function Transcript(selector: string, e: Execution): string {
    ("$ " + selector) + "\n" + ("execution: " + StateText(e)) + "\n" + StatusSegment(e) + "\n" + DetailText(e) + "\n"
    + "--- stdout ---" + "\n" + Stdout(e) + "\n" + "--- stderr ---" + "\n" + Stderr(e) + "\n"
  }

  // ---------------------------------------------------------------- the classifiers

  predicate OccursAt(s: string, n: string, i: int) { 0 <= i && i + |n| <= |s| && s[i..i + |n|] == n }

  predicate Occurs(s: string, n: string) { exists i :: 0 <= i <= |s| && OccursAt(s, n, i) }

  const STATE_LINE := "execution: completed"
  const STATUS_LINE := "exit_status: exit status: 0"
  const HEADER := Pair(STATE_LINE, STATUS_LINE)
  const CAPTURE_LINE := "capture: complete"
  const CAPTURE := CAPTURE_LINE + "\n"
  const PASSED := "test result: ok. 1 passed;"
  const FAILED := "test result: FAILED"

  predicate HeaderTrue(e: Execution) { e.Completed? && Success(e.status) }

  predicate CaptureTrue(e: Execution) { e.Completed? && IssueOf(e).None? }

  function OutcomeOf(e: Execution, transcript: string): Outcome {
    if HeaderTrue(e) && CaptureTrue(e) && Occurs(transcript, PASSED) then Held
    else if Occurs(transcript, FAILED) then Violated
    else InfrastructureUnavailable
  }

  function OutcomeFromTranscript(transcript: string): Outcome {
    if |transcript| >= 2 && transcript[..2] == "$ " && Occurs(transcript, HEADER) && Occurs(transcript, CAPTURE)
       && Occurs(transcript, PASSED) then Held
    else if Occurs(transcript, FAILED) then Violated
    else InfrastructureUnavailable
  }

  // ------------------------------------------------------------ lines and segments

  predicate OneLine(s: string) { '\n' !in s }

  /** Segments, each ended by a newline. */
  function Lines(segments: seq<string>): string {
    if segments == [] then "" else segments[0] + "\n" + Lines(segments[1..])
  }

  predicate EndsWith(s: string, x: string) { |x| <= |s| && s[|s| - |x|..] == x }

  predicate StartsWith(s: string, x: string) { |x| <= |s| && s[..|x|] == x }

  lemma OccursRight(a: string, b: string, n: string)
    requires Occurs(b, n)
    ensures Occurs(a + b, n)
  {
    var i :| 0 <= i <= |b| && OccursAt(b, n, i);
    assert (a + b)[|a| + i..|a| + i + |n|] == b[i..i + |n|];
    assert OccursAt(a + b, n, |a| + i);
  }

  lemma OccursLeft(a: string, b: string, n: string)
    requires Occurs(a, n)
    ensures Occurs(a + b, n)
  {
    var i :| 0 <= i <= |a| && OccursAt(a, n, i);
    assert (a + b)[i..i + |n|] == a[i..i + |n|];
    assert OccursAt(a + b, n, i);
  }

  /** Where an occurrence around a newline lies: right of it, up to it, or across it. */
  lemma Placement(a: string, b: string, n: string, i: int)
    requires OccursAt(a + "\n" + b, n, i)
    ensures || (i > |a| && OccursAt(b, n, i - |a| - 1))
            || (i + |n| <= |a| + 1 && OccursAt(a + "\n", n, i))
            || (i <= |a| < i + |n| - 1 && n[|a| - i] == '\n' && n[..|a| - i] == a[i..] && StartsWith(b, n[|a| - i + 1..]))
  {
    var s := a + "\n" + b;
    if i > |a| {
      assert s[i..i + |n|] == b[i - |a| - 1..i - |a| - 1 + |n|];
    } else if i + |n| <= |a| + 1 {
      assert s[i..i + |n|] == (a + "\n")[i..i + |n|];
    } else {
      assert s[i..i + |n|][|a| - i] == s[|a|] == '\n';
      assert s[i..i + |n|][..|a| - i] == a[i..];
      assert s[i..i + |n|][|a| - i + 1..] == b[..i + |n| - |a| - 1];
    }
  }

  /** A needle whose only newline is its last character never crosses a newline. */
  lemma LineNeedle(a: string, b: string, x: string)
    requires OneLine(x)
    ensures Occurs(a + "\n" + b, x + "\n") <==> Occurs(a + "\n", x + "\n") || Occurs(b, x + "\n")
  {
    var n := x + "\n";
    assert forall k :: 0 <= k < |x| ==> n[k] == x[k];
    if i :| OccursAt(a + "\n" + b, n, i) {
      Placement(a, b, n, i);
    }
    if Occurs(a + "\n", n) { OccursLeft(a + "\n", b, n); }
    if Occurs(b, n) { OccursRight(a + "\n", b, n); }
  }

  function Pair(x: string, y: string): (n: string)
    ensures |n| == |x| + |y| + 2 && n[..|x|] == x && n[|x|] == '\n' && n[|x| + 1..] == y + "\n"
  {
    x + "\n" + y + "\n"
  }

  lemma PairNewlines(x: string, y: string, k: nat)
    requires OneLine(x) && OneLine(y) && k < |x| + |y| + 1
    ensures Pair(x, y)[k] == '\n' ==> k == |x|
  {
    var n := Pair(x, y);
    assert k < |x| ==> n[k] == n[..|x|][k];
    assert k > |x| ==> n[k] == n[|x| + 1..][k - |x| - 1] == y[k - |x| - 1];
  }

  /** A needle of two whole lines is inside one side, or ends one side and starts the other. */
  lemma PairNeedle(a: string, b: string, x: string, y: string)
    requires OneLine(x) && OneLine(y)
    ensures Occurs(a + "\n" + b, Pair(x, y))
            <==> Occurs(a + "\n", Pair(x, y)) || Occurs(b, Pair(x, y)) || (EndsWith(a, x) && StartsWith(b, y + "\n"))
  {
    hide Pair;
    var n := Pair(x, y);
    if i :| OccursAt(a + "\n" + b, n, i) {
      Placement(a, b, n, i);
      if i <= |a| < i + |n| - 1 {
        PairNewlines(x, y, |a| - i);
      }
    }
    if Occurs(a + "\n", n) { OccursLeft(a + "\n", b, n); }
    if Occurs(b, n) { OccursRight(a + "\n", b, n); }
    if EndsWith(a, x) && StartsWith(b, y + "\n") {
      PairAcross(a, b, x, y);
    }
  }

  lemma PairAcross(a: string, b: string, x: string, y: string)
    requires EndsWith(a, x) && StartsWith(b, y + "\n")
    ensures Occurs(a + "\n" + b, Pair(x, y))
  {
    var i, n := |a| - |x|, Pair(x, y);
    var s := a + "\n" + b;
    assert s[i..i + |n|] == a[i..] + "\n" + b[..|y| + 1];
    assert n == x + "\n" + (y + "\n");
    assert OccursAt(s, n, i);
  }

  // ------------------------------------------- needles in a list of segments

  /** A one-line needle occurs exactly in some segment. */
  lemma {:induction false} LineInSegments(segments: seq<string>, x: string)
    requires OneLine(x)
    ensures Occurs(Lines(segments), x + "\n") <==> exists i :: 0 <= i < |segments| && Occurs(segments[i] + "\n", x + "\n")
  {
    var n := x + "\n";
    if segments != [] {
      LineNeedle(segments[0], Lines(segments[1..]), x);
      LineInSegments(segments[1..], x);
      if i :| 0 <= i < |segments[1..]| && Occurs(segments[1..][i] + "\n", n) {
        assert segments[i + 1] == segments[1..][i];
      }
      if i :| 0 <= i < |segments| && Occurs(segments[i] + "\n", n) {
        assert i > 0 ==> segments[1..][i - 1] == segments[i];
      }
    }
  }

  /** Adjacent segments that make up a two-line needle. */
  predicate PairAt(segments: seq<string>, x: string, y: string, i: int) {
    0 <= i < |segments| - 1 && EndsWith(segments[i], x) && StartsWith(segments[i + 1] + "\n", y + "\n")
  }

  lemma {:induction false} PairInSegments(segments: seq<string>, x: string, y: string)
    requires OneLine(x) && OneLine(y)
    ensures var n := Pair(x, y);
            Occurs(Lines(segments), n)
            <==> (exists i :: 0 <= i < |segments| && Occurs(segments[i] + "\n", n)) || exists i :: PairAt(segments, x, y, i)
  {
    var n := Pair(x, y);
    if segments != [] {
      var rest := segments[1..];
      PairNeedle(segments[0], Lines(rest), x, y);
      PairInSegments(rest, x, y);
      FirstLine(rest, y);
      if i :| 0 <= i < |rest| && Occurs(rest[i] + "\n", n) { assert segments[i + 1] == rest[i]; }
      if i :| PairAt(rest, x, y, i) { assert PairAt(segments, x, y, i + 1); }
      if i :| 0 <= i < |segments| && Occurs(segments[i] + "\n", n) { assert i > 0 ==> rest[i - 1] == segments[i]; }
      if i :| PairAt(segments, x, y, i) { assert i > 0 ==> PairAt(rest, x, y, i - 1); }
      if EndsWith(segments[0], x) && rest != [] && StartsWith(rest[0] + "\n", y + "\n") { assert PairAt(segments, x, y, 0); }
    }
  }

  /** Segments in which a needle occurs, when only `free` ones can hold it. */
  lemma OnlyInFree(segments: seq<string>, free: seq<string>, n: string)
    requires forall s :: s in free ==> s in segments
    requires forall s :: s in segments && Occurs(s + "\n", n) ==> s in free
    ensures (exists i :: 0 <= i < |segments| && Occurs(segments[i] + "\n", n))
            <==> exists j :: 0 <= j < |free| && Occurs(free[j] + "\n", n)
  {
    hide Occurs;
    if i :| 0 <= i < |segments| && Occurs(segments[i] + "\n", n) {
      assert segments[i] in free;
      var j :| 0 <= j < |free| && free[j] == segments[i];
    }
    if j :| 0 <= j < |free| && Occurs(free[j] + "\n", n) {
      assert free[j] in segments;
      var i :| 0 <= i < |segments| && segments[i] == free[j];
    }
  }

  /** What a text starts with, up to a newline, is decided by its first segment. */
  lemma FirstLine(segments: seq<string>, y: string)
    requires OneLine(y)
    ensures StartsWith(Lines(segments), y + "\n") <==> segments != [] && StartsWith(segments[0] + "\n", y + "\n")
  {
    if segments != [] {
      var s, first, n := Lines(segments), segments[0] + "\n", y + "\n";
      assert s == first + Lines(segments[1..]);
      var k := |segments[0]|;
      if |first| < |n| {
        assert s[k] == '\n' && n[k] == y[k];
        assert |n| <= |s| ==> s[..|n|][k] == s[k];
      } else {
        assert s[..|n|] == first[..|n|];
      }
    }
  }

  // ------------------------------------------------- the segments of a transcript

  function DetailSegments(e: Execution): seq<string> {
    match e
    case Completed(_, _, _, _) =>
      (match IssueOf(e) case None => [CAPTURE_LINE] case Some(issue) => ["capture: incomplete", issue])
    case TimedOut(_, _, issue) =>
      ["timeout_seconds: 300", "containment: " + (if issue.Some? then issue.value else "complete")]
    case SpawnFailed(error) => ["spawn_error: " + error]
    case WaitFailed(error, _, _) => ["wait_error: " + error]
  }

  function Segments(selector: string, e: Execution): seq<string> {
    ["$ " + selector, "execution: " + StateText(e), StatusSegment(e)] + DetailSegments(e)
    + ["--- stdout ---", Stdout(e), "--- stderr ---", Stderr(e)]
  }

  lemma {:induction false} LinesAppend(a: seq<string>, b: seq<string>)
    ensures Lines(a + b) == Lines(a) + Lines(b)
  {
    if a == [] {
      assert a + b == b;
    } else {
      assert (a + b)[1..] == a[1..] + b;
      LinesAppend(a[1..], b);
    }
  }

  lemma LinesOfOne(x: string)
    ensures Lines([x]) == x + "\n"
  {
    assert [x][1..] == [];
  }

  lemma LinesOfTwo(x: string, y: string)
    ensures Lines([x, y]) == x + "\n" + y + "\n"
  {
    assert [x, y] == [x] + [y];
    LinesAppend([x], [y]);
    LinesOfOne(x);
    LinesOfOne(y);
  }

  lemma DetailIsLines(e: Execution)
    ensures Lines(DetailSegments(e)) == DetailText(e) + "\n"
  {
    var d := DetailSegments(e);
    if |d| == 1 { LinesOfOne(d[0]); } else { LinesOfTwo(d[0], d[1]); }
  }

  lemma Assembled(a: string, b: string, c: string, details: seq<string>, d: string, o: string, p: string, q: string, r: string)
    requires Lines(details) == d + "\n"
    ensures Lines([a, b, c] + details + [o, p, q, r])
         == a + "\n" + b + "\n" + c + "\n" + d + "\n" + o + "\n" + p + "\n" + q + "\n" + r + "\n"
  {
    LinesAppend([a, b, c] + details, [o, p, q, r]);
    LinesAppend([a, b, c], details);
    assert [a, b, c] == [a] + [b, c] && [o, p, q, r] == [o, p] + [q, r];
    LinesAppend([a], [b, c]);
    LinesAppend([o, p], [q, r]);
    LinesOfOne(a);
    LinesOfTwo(b, c);
    LinesOfTwo(o, p);
    LinesOfTwo(q, r);
  }

  lemma TranscriptIsLines(selector: string, e: Execution)
    ensures Transcript(selector, e) == Lines(Segments(selector, e))
  {
    DetailIsLines(e);
    Assembled("$ " + selector, "execution: " + StateText(e), StatusSegment(e), DetailSegments(e), DetailText(e),
              "--- stdout ---", Stdout(e), "--- stderr ---", Stderr(e));
  }

  // ----------------------------------------------------- where the needles can be

  /** Every character of something that occurs is there. */
  lemma OccursChar(s: string, n: string, c: char)
    ensures Occurs(s, n) && c in n ==> c in s
  {
    if i, k :| OccursAt(s, n, i) && 0 <= k < |n| && n[k] == c {
      assert s[i..i + |n|][k] == s[i + k];
    }
  }

  lemma PairNeedsTwoLines(s: string, x: string, y: string)
    ensures Occurs(s + "\n", Pair(x, y)) ==> !OneLine(s)
  {
    var n := Pair(x, y);
    if i :| OccursAt(s + "\n", n, i) {
      assert (s + "\n")[i..i + |n|][|x|] == (s + "\n")[i + |x|] == s[i + |x|];
    }
  }

  /** The parts of a transcript that are not fixed text. */
  function FreeSegments(selector: string, e: Execution): seq<string> {
    ["$ " + selector, Stdout(e), Stderr(e)]
    + match e
      case Completed(_, _, _, _) => [StatusSegment(e)] + (if IssueOf(e).Some? then [IssueOf(e).value] else [])
      case TimedOut(_, _, _) => [DetailSegments(e)[1]]
      case SpawnFailed(_) => [DetailSegments(e)[0]]
      case WaitFailed(_, _, _) => [DetailSegments(e)[0]]
  }

  /** Text that reads back as a control line although nothing printed it as one. */
  ghost predicate Forges(selector: string, e: Execution, n: string) {
    exists i :: 0 <= i < |FreeSegments(selector, e)| && Occurs(FreeSegments(selector, e)[i] + "\n", n)
  }

  /** Fixed text that lacks one of the needle's characters cannot hold it. */
  lemma NoCapture(s: string, c: char)
    requires c !in s && c in CAPTURE_LINE && OneLine(s)
    ensures !Occurs(s + "\n", CAPTURE)
  {
    assert c in CAPTURE && c != '\n';
    OccursChar(s + "\n", CAPTURE, c);
  }

  lemma StateHasNoCapture(e: Execution)
    ensures !Occurs("execution: " + StateText(e) + "\n", CAPTURE) && OneLine("execution: " + StateText(e))
  {
    if e.Completed? || e.TimedOut? { EndedHasNoCapture(e); } else { FailedHasNoCapture(e); }
  }

  lemma EndedHasNoCapture(e: Execution)
    requires e.Completed? || e.TimedOut?
    ensures !Occurs("execution: " + StateText(e) + "\n", CAPTURE) && OneLine("execution: " + StateText(e))
  {
    hide Occurs;
    NoCapture("execution: " + StateText(e), 'a');
  }

  lemma FailedHasNoCapture(e: Execution)
    requires e.SpawnFailed? || e.WaitFailed?
    ensures !Occurs("execution: " + StateText(e) + "\n", CAPTURE) && OneLine("execution: " + StateText(e))
  {
    hide Occurs;
    NoCapture("execution: " + StateText(e), 'm');
  }

  lemma IncompleteIsNotComplete()
    ensures !Occurs("capture: incomplete" + "\n", CAPTURE) && OneLine("capture: incomplete")
  {
    var s := "capture: incomplete" + "\n";
    assert |CAPTURE| == 18 && |s| == 20 && CAPTURE[0] == 'c' && CAPTURE[9] == 'c';
    forall i: int ensures !OccursAt(s, CAPTURE, i) {
      if 0 <= i && i + 18 <= 20 {
        assert s[i..i + 18][0] == s[i];
        assert s[i..i + 18][9] == s[i + 9];
        assert s[0 + 9] == 'i' && s[1] == 'a' && s[2] == 'p';
      }
    }
  }

  /** Text ends in `text`, so its status line is one line and is not a forged zero exit. */
  predicate ValidStatus(e: Execution) {
    e.Completed? && e.status.Ended? ==> OneLine(e.status.text) && e.status.text != "exit status: 0"
  }

  datatype FixedLine = StateLine | NoStatusLine | IncompleteLine | TimeoutLine | StdoutLine | StderrLine

  function FixedText(e: Execution, k: FixedLine): string {
    match k
    case StateLine => "execution: " + StateText(e)
    case NoStatusLine => "exit_status: " + "unavailable"
    case IncompleteLine => "capture: incomplete"
    case TimeoutLine => "timeout_seconds: 300"
    case StdoutLine => "--- stdout ---"
    case StderrLine => "--- stderr ---"
  }

  lemma FixedIsHarmless(e: Execution, k: FixedLine)
    ensures OneLine(FixedText(e, k)) && !Occurs(FixedText(e, k) + "\n", CAPTURE)
  {
    hide Occurs, OneLine, StateText;
    match k {
      case StateLine => StateHasNoCapture(e);
      case NoStatusLine => NoStatusHasNoCapture();
      case IncompleteLine => IncompleteIsNotComplete();
      case TimeoutLine => TimeoutHasNoCapture();
      case StdoutLine => MarksHaveNoCapture();
      case StderrLine => MarksHaveNoCapture();
    }
  }

  lemma NoStatusHasNoCapture()
    ensures OneLine("exit_status: " + "unavailable") && !Occurs("exit_status: " + "unavailable" + "\n", CAPTURE)
  {
    hide Occurs;
    NoCapture("exit_status: " + "unavailable", 'p');
  }

  lemma TimeoutHasNoCapture()
    ensures OneLine("timeout_seconds: 300") && !Occurs("timeout_seconds: 300" + "\n", CAPTURE)
  {
    hide Occurs;
    NoCapture("timeout_seconds: 300", 'a');
  }

  lemma MarksHaveNoCapture()
    ensures OneLine("--- stdout ---") && !Occurs("--- stdout ---" + "\n", CAPTURE)
    ensures OneLine("--- stderr ---") && !Occurs("--- stderr ---" + "\n", CAPTURE)
  {
    hide Occurs;
    NoCapture("--- stdout ---", 'a');
    NoCapture("--- stderr ---", 'a');
  }

  /** Every segment is fixed text, the true capture line, or free text. */
  lemma SegmentKinds(selector: string, e: Execution, s: string)
    requires s in Segments(selector, e)
    ensures (exists k :: s == FixedText(e, k)) || (s == CAPTURE_LINE && CaptureTrue(e)) || s in FreeSegments(selector, e)
  {
    hide StateText, StatusText, Stdout, Stderr;
    assert FixedText(e, StateLine) == "execution: " + StateText(e) && FixedText(e, NoStatusLine) == "exit_status: " + "unavailable"
        && FixedText(e, IncompleteLine) == "capture: incomplete" && FixedText(e, TimeoutLine) == "timeout_seconds: 300"
        && FixedText(e, StdoutLine) == "--- stdout ---" && FixedText(e, StderrLine) == "--- stderr ---";
  }

  lemma FreeIsPrinted(selector: string, e: Execution)
    ensures forall s :: s in FreeSegments(selector, e) ==> s in Segments(selector, e)
    ensures CaptureTrue(e) ==> CAPTURE_LINE in Segments(selector, e)
  {
    hide StateText, StatusText, Stdout, Stderr;
  }

  lemma CaptureSource(selector: string, e: Execution, s: string)
    requires s in Segments(selector, e)
    ensures Occurs(s + "\n", CAPTURE) ==> CaptureTrue(e) || s in FreeSegments(selector, e)
  {
    SegmentKinds(selector, e, s);
    hide Segments, FreeSegments, FixedText, Occurs;
    if k :| s == FixedText(e, k) {
      FixedIsHarmless(e, k);
    }
  }

  lemma CaptureOccurs(selector: string, e: Execution)
    ensures Occurs(Transcript(selector, e), CAPTURE) <==> CaptureTrue(e) || Forges(selector, e, CAPTURE)
  {
    assert OneLine(CAPTURE_LINE);
    assert OccursAt(CAPTURE, CAPTURE, 0);
    assert Occurs(CAPTURE, CAPTURE);
    hide Segments, FreeSegments, Transcript, Occurs, OccursAt, CaptureTrue, OneLine;
    TranscriptIsLines(selector, e);
    FreeIsPrinted(selector, e);
    LineInSegments(Segments(selector, e), CAPTURE_LINE);
    if CaptureTrue(e) {
      var i :| 0 <= i < |Segments(selector, e)| && Segments(selector, e)[i] == CAPTURE_LINE;
    } else {
      forall s | s in Segments(selector, e) && Occurs(s + "\n", CAPTURE) ensures s in FreeSegments(selector, e) {
        CaptureSource(selector, e, s);
      }
      OnlyInFree(Segments(selector, e), FreeSegments(selector, e), CAPTURE);
    }
  }

  // ------------------------------------------------------------- the status header

  lemma HeaderSource(selector: string, e: Execution, s: string)
    requires s in Segments(selector, e)
    ensures Occurs(s + "\n", HEADER) ==> s in FreeSegments(selector, e)
  {
    SegmentKinds(selector, e, s);
    PairNeedsTwoLines(s, STATE_LINE, STATUS_LINE);
    hide Segments, FreeSegments, FixedText, Occurs, Pair;
    if k :| s == FixedText(e, k) {
      FixedIsHarmless(e, k);
    }
  }

  /** Terminated one-line texts start alike only when they are the same line. */
  lemma SameLine(a: string, b: string)
    requires OneLine(a) && OneLine(b)
    ensures StartsWith(a + "\n", b + "\n") <==> a == b
  {
    var s, n := a + "\n", b + "\n";
    if |b| < |a| {
      assert s[..|n|][|b|] == a[|b|] && n[|b|] == '\n';
    } else if |b| == |a| {
      assert s[..|n|] == s && s[..|a|] == a && n[..|b|] == b;
    }
  }

  lemma ZeroExitText(code: nat)
    ensures "exit status: " + Digits(code) == "exit status: 0" <==> code == 0
  {
    var p := "exit status: ";
    assert (p + Digits(code))[|p|..] == Digits(code);
    assert "exit status: 0"[|p|..] == "0";
    assert Digits(0) == "0" && p + "0" == "exit status: 0";
    if code >= 10 { assert |Digits(code)| >= 2; }
  }

  lemma SamePrefix(p: string, a: string, b: string)
    ensures p + a == p + b <==> a == b
  {
    assert (p + a)[|p|..] == a && (p + b)[|p|..] == b;
  }

  lemma StatusIsZero(e: Execution)
    requires ValidStatus(e)
    ensures var t := if e.Completed? then StatusText(e.status) else "unavailable";
            OneLine(t) && (t == "exit status: 0" <==> HeaderTrue(e))
  {
    if e.Completed? && e.status.Exited? {
      ZeroExitText(e.status.code);
    } else if !e.Completed? {
      assert "unavailable"[0] == 'u' && "exit status: 0"[0] == 'e';
    }
  }

  lemma StatusLineMatches(e: Execution)
    requires ValidStatus(e)
    ensures StartsWith(StatusSegment(e) + "\n", STATUS_LINE + "\n") <==> HeaderTrue(e)
  {
    var p := "exit_status: ";
    assert OneLine(p) && STATUS_LINE == p + "exit status: 0" && OneLine(STATUS_LINE);
    hide StatusText, HeaderTrue, StartsWith;
    var t := if e.Completed? then StatusText(e.status) else "unavailable";
    StatusIsZero(e);
    assert StatusSegment(e) == p + t;
    SamePrefix(p, t, "exit status: 0");
    SameLine(StatusSegment(e), STATUS_LINE);
  }

  /** Which neighbours can look like the two header lines: by last and first character. */
  lemma PairChars(segments: seq<string>, i: int)
    requires 0 <= i < |segments| - 1
    ensures PairAt(segments, STATE_LINE, STATUS_LINE, i) ==>
              && |segments[i]| > 0 && segments[i][|segments[i]| - 1] == 'd'
              && |segments[i + 1]| > 2 && segments[i + 1][0] == 'e' && segments[i + 1][2] == 'i'
  {
    var a, b := segments[i], segments[i + 1];
    assert STATE_LINE[|STATE_LINE| - 1] == 'd' && STATUS_LINE[0] == 'e' && STATUS_LINE[2] == 'i';
    assert |STATE_LINE| == 20 && |STATUS_LINE| == 27;
    if |a| >= 20 { assert a[|a| - 20..][19] == a[|a| - 1]; }
    var s := b + "\n";
    if |s| >= 28 {
      assert s[..28][0] == b[0] && s[..28][2] == b[2];
      assert (STATUS_LINE + "\n")[0] == 'e' && (STATUS_LINE + "\n")[2] == 'i';
    }
  }

  /** Two neighbours of which one has a last or first character that no header line has there. */
  predicate Unlike(a: string, b: string) { (|a| > 0 && a[|a| - 1] != 'd') || (|b| > 0 && b[0] != 'e') }

  lemma TailUnlike(out: string, err: string)
    ensures Unlike("--- stdout ---", out) && Unlike(out, "--- stderr ---") && Unlike("--- stderr ---", err)
    ensures forall x :: Unlike(x, "--- stdout ---")
  {
  }

  lemma DetailUnlike(e: Execution)
    ensures |DetailSegments(e)| == 2 ==> Unlike(DetailSegments(e)[0], DetailSegments(e)[1])
  {
    var d := DetailSegments(e);
    if |d| == 2 {
      if e.Completed? { assert d[0][|d[0]| - 1] == 'e'; } else { assert d[1][0] == 'c'; }
    }
  }

  /** Past the status line no two neighbours can: one of them is fixed text that does not fit. */
  lemma LaterNeighbours(selector: string, e: Execution, i: int)
    requires 3 <= i < |Segments(selector, e)| - 1
    ensures Unlike(Segments(selector, e)[i], Segments(selector, e)[i + 1])
  {
    hide Unlike, StatusSegment, StateText, Stdout, Stderr;
    var d := DetailSegments(e);
    assert 1 <= |d| <= 2;
    TailUnlike(Stdout(e), Stderr(e));
    DetailUnlike(e);
    hide DetailSegments;
  }

  lemma PairOnlyInHeader(selector: string, e: Execution, i: int)
    requires ValidStatus(e) && 0 <= i < |Segments(selector, e)| - 1
    ensures PairAt(Segments(selector, e), STATE_LINE, STATUS_LINE, i) ==> HeaderTrue(e)
  {
    var segments := Segments(selector, e);
    PairChars(segments, i);
    if i == 0 {
      assert segments[1] == "execution: " + StateText(e) && segments[1][2] == 'e';
    } else if i == 1 {
      StatusLineMatches(e);
    } else if i == 2 {
      assert segments[3] == DetailSegments(e)[0] && segments[3][0] != 'e';
    } else {
      LaterNeighbours(selector, e, i);
    }
  }

  lemma HeaderIsPrinted(selector: string, e: Execution)
    requires HeaderTrue(e)
    ensures PairAt(Segments(selector, e), STATE_LINE, STATUS_LINE, 1)
  {
    StatusLineMatches(e);
    assert "execution: " + "completed" == STATE_LINE;
    assert STATE_LINE[|STATE_LINE| - |STATE_LINE|..] == STATE_LINE;
  }

  lemma HeaderNeighbours(selector: string, e: Execution)
    requires ValidStatus(e)
    ensures HeaderTrue(e) <==> exists i :: PairAt(Segments(selector, e), STATE_LINE, STATUS_LINE, i)
  {
    if HeaderTrue(e) { HeaderIsPrinted(selector, e); }
    hide Segments, HeaderTrue;
    if i :| PairAt(Segments(selector, e), STATE_LINE, STATUS_LINE, i) {
      PairOnlyInHeader(selector, e, i);
    }
  }

  lemma HeaderOccurs(selector: string, e: Execution)
    requires ValidStatus(e)
    ensures Occurs(Transcript(selector, e), HEADER) <==> HeaderTrue(e) || Forges(selector, e, HEADER)
  {
    assert OneLine(STATE_LINE) && OneLine(STATUS_LINE);
    hide Segments, FreeSegments, Transcript, Occurs, Pair, HeaderTrue, PairAt, OneLine;
    TranscriptIsLines(selector, e);
    FreeIsPrinted(selector, e);
    PairInSegments(Segments(selector, e), STATE_LINE, STATUS_LINE);
    HeaderNeighbours(selector, e);
    forall s | s in Segments(selector, e) && Occurs(s + "\n", HEADER) ensures s in FreeSegments(selector, e) {
      HeaderSource(selector, e, s);
    }
    OnlyInFree(Segments(selector, e), FreeSegments(selector, e), HEADER);
  }

  // ------------------------------------------------------------- the two readings

  /** The exact runs on which reading back says Held although the run was not clean. */
  ghost predicate Forged(selector: string, e: Execution) {
    && !(HeaderTrue(e) && CaptureTrue(e))
    && (HeaderTrue(e) || Forges(selector, e, HEADER))
    && (CaptureTrue(e) || Forges(selector, e, CAPTURE))
    && Occurs(Transcript(selector, e), PASSED)
  }

  lemma TranscriptStart(selector: string, e: Execution)
    ensures StartsWith(Transcript(selector, e), "$ " + selector + "\n") && Transcript(selector, e)[..2] == "$ "
  {
    hide StateText, StatusSegment, DetailText, Stdout, Stderr;
  }

  /** Reading a printed transcript gives the recorded outcome exactly when nothing forged it. */
  lemma ReadersAgree(selector: string, e: Execution)
    requires ValidStatus(e)
    ensures OutcomeFromTranscript(Transcript(selector, e)) == OutcomeOf(e, Transcript(selector, e)) <==> !Forged(selector, e)
    ensures OutcomeOf(e, Transcript(selector, e)) == Held ==> OutcomeFromTranscript(Transcript(selector, e)) == Held
  {
    HeaderOccurs(selector, e);
    CaptureOccurs(selector, e);
    TranscriptStart(selector, e);
    hide Transcript, Occurs, Forges, HeaderTrue, CaptureTrue;
  }

  /** Captured and diagnostic text without control-line text cannot forge anything. */
  lemma CleanTextAgrees(selector: string, e: Execution)
    requires ValidStatus(e)
    requires forall s :: s in FreeSegments(selector, e) ==> !Occurs(s, STATE_LINE) && !Occurs(s, CAPTURE_LINE)
    ensures OutcomeFromTranscript(Transcript(selector, e)) == OutcomeOf(e, Transcript(selector, e))
  {
    ReadersAgree(selector, e);
    var free := FreeSegments(selector, e);
    hide FreeSegments, Transcript, OutcomeOf, OutcomeFromTranscript;
    forall j | 0 <= j < |free| ensures !Occurs(free[j] + "\n", HEADER) && !Occurs(free[j] + "\n", CAPTURE) {
      assert free[j] in free;
      LineWithin(free[j], CAPTURE_LINE, "");
      LineWithin(free[j], STATE_LINE, STATUS_LINE + "\n");
      assert CAPTURE == CAPTURE_LINE + "\n" + "" && HEADER == STATE_LINE + "\n" + (STATUS_LINE + "\n");
    }
  }

  lemma LineWithin(s: string, x: string, rest: string)
    ensures Occurs(s + "\n", x + "\n" + rest) ==> Occurs(s, x)
  {
    var t, n := s + "\n", x + "\n" + rest;
    if i :| OccursAt(t, n, i) {
      assert |n| == |x| + 1 + |rest| && i + |x| <= |s|;
      forall k | 0 <= k < |x| ensures s[i + k] == x[k] {
        assert t[i..i + |n|][k] == t[i + k] && n[k] == x[k];
      }
      assert s[i..i + |x|] == x;
      assert OccursAt(s, x, i);
    }
  }

  /** A run whose capture was incomplete, but whose output prints the capture line itself. */
  lemma ForgedExample()
    ensures var e := Completed(Exited(0), Pipe("capture: complete\n" + PASSED, None), Pipe("", Some("late reader")), None);
            && OutcomeOf(e, Transcript("cargo test", e)) != Held
            && OutcomeFromTranscript(Transcript("cargo test", e)) == Held
  {
    var out := "capture: complete\n" + PASSED;
    var e := Completed(Exited(0), Pipe(out, None), Pipe("", Some("late reader")), None);
    ReadersAgree("cargo test", e);
    assert OccursAt(out + "\n", CAPTURE, 0) by { assert (out + "\n")[..18] == CAPTURE; }
    assert Occurs(FreeSegments("cargo test", e)[1] + "\n", CAPTURE);
    assert OccursAt(PASSED, PASSED, 0);
    OccursRight("capture: complete\n", PASSED, PASSED);
    PrintedInside("cargo test", e, PASSED);
  }

  lemma PrintedInside(selector: string, e: Execution, n: string)
    requires Occurs(Stdout(e), n)
    ensures Occurs(Transcript(selector, e), n)
  {
    hide StateText, StatusSegment, DetailText, Stdout, Stderr;
    var head := ("$ " + selector) + "\n" + ("execution: " + StateText(e)) + "\n" + StatusSegment(e) + "\n" + DetailText(e) + "\n"
                + "--- stdout ---" + "\n";
    OccursRight(head, Stdout(e), n);
    OccursLeft(head + Stdout(e), "\n" + "--- stderr ---" + "\n" + Stderr(e) + "\n", n);
    assert Transcript(selector, e) == head + Stdout(e) + ("\n" + "--- stderr ---" + "\n" + Stderr(e) + "\n");
  }

  // ------------------------------------------------------------ checking evidence

  datatype CaseResult = CaseResult(selector: string, outcome: Outcome, digest: string)

  predicate Accepts(h: string -> string, result: CaseResult, transcript: string) {
    && h(transcript) == result.digest
    && StartsWith(transcript, "$ " + result.selector + "\n")
    && OutcomeFromTranscript(transcript) == result.outcome
  }

  /** The verifier's loop over all cases: every file must be present and acceptable. */
  method VerifyEvidence(h: string -> string, results: seq<CaseResult>, files: seq<Option<string>>) returns (ok: bool)
    requires |files| == |results|
    ensures ok <==> forall i :: 0 <= i < |results| ==> files[i].Some? && Accepts(h, results[i], files[i].value)
  {
    for i := 0 to |results|
      invariant forall j :: 0 <= j < i ==> files[j].Some? && Accepts(h, results[j], files[j].value)
    {
      if files[i].None? || h(files[i].value) != results[i].digest { return false; }
      if !StartsWith(files[i].value, "$ " + results[i].selector + "\n") { return false; }
      if OutcomeFromTranscript(files[i].value) != results[i].outcome { return false; }
    }
    return true;
  }

  /** What the runner records for a case passes the verifier exactly when nothing forged it. */
  lemma RecordedEvidenceVerifies(h: string -> string, selector: string, e: Execution)
    requires ValidStatus(e)
    ensures var t := Transcript(selector, e);
            Accepts(h, CaseResult(selector, OutcomeOf(e, t), h(t)), t) <==> !Forged(selector, e)
  {
    ReadersAgree(selector, e);
    TranscriptStart(selector, e);
  }
}
