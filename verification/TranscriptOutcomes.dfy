/**
  The outcome recorded for a run, in terms of the run itself: how it ended, what was wrong with
  its capture, and which texts its output contains.
 */
module TranscriptOutcomes {
  import opened Options
  import opened FaultTranscript

  // ------------------------------------------------------------- what is printed

  lemma StateLines()
    ensures "execution: " + "completed" == "execution: completed" && "execution: " + "timed_out" == "execution: timed_out"
    ensures "execution: " + "spawn_failed" == "execution: spawn_failed" && "execution: " + "wait_failed" == "execution: wait_failed"
    ensures "exit_status: " + "unavailable" == "exit_status: unavailable"
  {}

  /** The lines of each kind of run. */
  function PrintedLines(selector: string, e: Execution): seq<string> {
    match e
    case Completed(status, out, err, late) =>
      var issue := if late.Some? then late else if out.issue.Some? then out.issue else err.issue;
      (if issue.None? then
         ["$ " + selector, "execution: completed", "exit_status: " + StatusText(status), "capture: complete",
          "--- stdout ---", out.text, "--- stderr ---", err.text]
       else
         ["$ " + selector, "execution: completed", "exit_status: " + StatusText(status), "capture: incomplete", issue.value,
          "--- stdout ---", out.text, "--- stderr ---", err.text])
    case TimedOut(out, err, issue) =>
      ["$ " + selector, "execution: timed_out", "exit_status: unavailable", "timeout_seconds: 300",
       "containment: " + (if issue.Some? then issue.value else "complete"), "--- stdout ---", out.text, "--- stderr ---", err.text]
    case SpawnFailed(error) =>
      ["$ " + selector, "execution: spawn_failed", "exit_status: unavailable", "spawn_error: " + error, "--- stdout ---", "", "--- stderr ---", ""]
    case WaitFailed(error, out, err) =>
      ["$ " + selector, "execution: wait_failed", "exit_status: unavailable", "wait_error: " + error,
       "--- stdout ---", out.text, "--- stderr ---", err.text]
  }

  /** A transcript is those lines, each ended by a newline. */
  lemma PrintedForms(selector: string, e: Execution)
    ensures Transcript(selector, e) == Lines(PrintedLines(selector, e))
  {
    TranscriptIsLines(selector, e);
    hide Transcript, Lines, StatusText;
    StateLines();
    assert Segments(selector, e) == PrintedLines(selector, e);
  }

  /** Only a code of zero is a success, and codes are printed in decimal. */
  lemma StatusForms(code: nat, text: string)
    ensures StatusText(Ended(text)) == text
    ensures code < 10 ==> StatusText(Exited(code)) == "exit status: " + [(0x30 + code) as char]
    ensures code >= 10 ==> StatusText(Exited(code)) == StatusText(Exited(code / 10)) + [(0x30 + code % 10) as char]
  {
    var digits := "0123456789";
    assert forall i :: 0 <= i < 10 ==> digits[i] == (0x30 + i) as char;
  }

  // ------------------------------------------------------------------ what it says

  /** A text that the run brought with it, as opposed to what is printed around it. */
  ghost predicate Brought(selector: string, e: Execution, text: string) {
    || text == selector
    || (!e.SpawnFailed? && (text == e.stdout.text || text == e.stderr.text))
    || (e.Completed? && e.status == Ended(text))
    || (e.Completed? && IssueOf(e) == Some(text))
    || (e.TimedOut? && e.containmentIssue == Some(text))
    || ((e.SpawnFailed? || e.WaitFailed?) && text == e.error)
  }

  /** Some text of the run contains this. */
  ghost predicate Says(selector: string, e: Execution, n: string) { exists text :: Brought(selector, e, text) && Occurs(text, n) }

  /** A needle that starts like "te", is one line, and has a character that no fixed line has. */
  predicate Telling(n: string) { |n| >= 2 && n[0] == 't' && n[1] == 'e' && OneLine(n) && (';' in n || 'F' in n) }

  lemma {:induction false} NeedleInSegments(segments: seq<string>, n: string)
    requires OneLine(n) && n != ""
    ensures Occurs(Lines(segments), n) <==> exists i :: 0 <= i < |segments| && Occurs(segments[i], n)
  {
    if segments != [] {
      var rest := segments[1..];
      NeedleInSegments(rest, n);
      WholeNeedle(segments[0], Lines(rest), n);
      if i :| 0 <= i < |rest| && Occurs(rest[i], n) { assert segments[i + 1] == rest[i]; }
      if i :| 0 <= i < |segments| && Occurs(segments[i], n) { assert i > 0 ==> rest[i - 1] == segments[i]; }
    }
  }

  /** A one-line needle never crosses a newline. */
  lemma WholeNeedle(a: string, b: string, n: string)
    requires OneLine(n) && n != ""
    ensures Occurs(a + "\n" + b, n) <==> Occurs(a, n) || Occurs(b, n)
  {
    if i :| OccursAt(a + "\n" + b, n, i) {
      Placement(a, b, n, i);
      if OccursAt(a + "\n", n, i) { NotNewline(a, n, i); }
    }
    if Occurs(a, n) {
      OccursLeft(a, "\n" + b, n);
      assert a + ("\n" + b) == a + "\n" + b;
    }
    if Occurs(b, n) { OccursRight(a + "\n", b, n); }
  }

  lemma NotNewline(a: string, n: string, i: int)
    requires OneLine(n) && n != "" && OccursAt(a + "\n", n, i)
    ensures OccursAt(a, n, i)
  {
    var s := a + "\n";
    assert s[i..i + |n|][|n| - 1] == s[i + |n| - 1];
    assert i + |n| <= |a|;
    assert s[i..i + |n|] == a[i..i + |n|];
  }

  /** Text printed after a fixed prefix that cannot hold the needle's beginning. */
  lemma AfterPrefix(p: string, s: string, n: string)
    requires Telling(n) && p != "" && p[|p| - 1] != 't' && forall i :: 0 <= i < |p| - 1 ==> !(p[i] == 't' && p[i + 1] == 'e')
    ensures Occurs(p + s, n) <==> Occurs(s, n)
  {
    if i :| OccursAt(p + s, n, i) {
      assert (p + s)[i..i + |n|][0] == (p + s)[i] && (p + s)[i..i + |n|][1] == (p + s)[i + 1];
      assert i >= |p|;
      assert (p + s)[i..i + |n|] == s[i - |p|..i - |p| + |n|];
      assert OccursAt(s, n, i - |p|);
    }
    if Occurs(s, n) { OccursRight(p, s, n); }
  }

  lemma Silent(s: string, n: string)
    requires Telling(n) && ';' !in s && 'F' !in s
    ensures !Occurs(s, n)
  {
    OccursChar(s, n, ';');
    OccursChar(s, n, 'F');
  }

  predicate Plainly(s: string) { ';' !in s && 'F' !in s }

  lemma Joined(a: string, b: string)
    ensures Plainly(a) && Plainly(b) ==> Plainly(a + b)
  {}

  lemma StatePlainly(e: Execution)
    ensures Plainly(StateText(e))
  {}

  lemma HeadPlainly()
    ensures Plainly("execution: ") && Plainly("exit_status: ") && Plainly("unavailable")
  {}

  lemma DetailPlainly()
    ensures Plainly("capture: incomplete") && Plainly("timeout_seconds: 300") && Plainly(CAPTURE_LINE)
  {}

  lemma MarksPlainly()
    ensures Plainly("--- stdout ---") && Plainly("--- stderr ---")
  {}

  lemma FixedIsSilent(e: Execution, k: FixedLine, n: string)
    requires Telling(n)
    ensures !Occurs(FixedText(e, k), n) && !Occurs(CAPTURE_LINE, n)
  {
    hide Occurs, Telling, StateText, Plainly;
    HeadPlainly();
    DetailPlainly();
    MarksPlainly();
    StatePlainly(e);
    Joined("execution: ", StateText(e));
    Joined("exit_status: ", "unavailable");
    assert Plainly(FixedText(e, k));
    Mute(FixedText(e, k), n);
    Mute(CAPTURE_LINE, n);
  }

  lemma Mute(s: string, n: string)
    requires Telling(n) && Plainly(s)
    ensures !Occurs(s, n)
  {
    hide Occurs;
    Silent(s, n);
  }

  lemma NothingOccurs(n: string)
    requires n != ""
    ensures !Occurs("", n)
  {}

  lemma DigitsSilent(code: nat, n: string)
    requires Telling(n)
    ensures !Occurs("exit status: " + Digits(code), n)
  {
    assert forall c :: c in Digits(code) ==> '0' <= c <= '9';
    hide Digits, Occurs;
    Silent("exit status: " + Digits(code), n);
  }

  /** Of the printed segments, those that hold the needle are those that carry a text of the run with it. */
  lemma FreeSays(selector: string, e: Execution, n: string)
    requires Telling(n)
    ensures (exists i :: 0 <= i < |FreeSegments(selector, e)| && Occurs(FreeSegments(selector, e)[i], n)) <==> Says(selector, e, n)
  {
    hide Occurs, Digits;
    var free := FreeSegments(selector, e);
    AfterPrefix("$ ", selector, n);
    NothingOccurs(n);
    assert free[0] == "$ " + selector && free[1] == Stdout(e) && free[2] == Stderr(e);
    match e {
      case Completed(status, _, _, _) =>
        AfterPrefix("exit_status: ", StatusText(status), n);
        if status.Exited? { DigitsSilent(status.code, n); }
        assert free[3] == "exit_status: " + StatusText(status);
        assert IssueOf(e).Some? ==> |free| == 5 && free[4] == IssueOf(e).value;
      case TimedOut(_, _, issue) =>
        AfterPrefix("containment: ", if issue.Some? then issue.value else "complete", n);
        Silent("complete", n);
        assert |free| == 4 && free[3] == "containment: " + if issue.Some? then issue.value else "complete";
      case SpawnFailed(error) =>
        AfterPrefix("spawn_error: ", error, n);
        assert |free| == 4 && free[3] == "spawn_error: " + error;
      case WaitFailed(error, _, _) =>
        AfterPrefix("wait_error: ", error, n);
        assert |free| == 4 && free[3] == "wait_error: " + error;
    }
    SaysSpelled(selector, e, n);
  }

  lemma SaysSpelled(selector: string, e: Execution, n: string)
    ensures Says(selector, e, n) <==>
              || Occurs(selector, n) || (!e.SpawnFailed? && (Occurs(e.stdout.text, n) || Occurs(e.stderr.text, n)))
              || (e.Completed? && e.status.Ended? && Occurs(e.status.text, n))
              || (e.Completed? && IssueOf(e).Some? && Occurs(IssueOf(e).value, n))
              || (e.TimedOut? && e.containmentIssue.Some? && Occurs(e.containmentIssue.value, n))
              || ((e.SpawnFailed? || e.WaitFailed?) && Occurs(e.error, n))
  {
    hide Occurs, IssueOf;
    assert Brought(selector, e, selector);
    if !e.SpawnFailed? { assert Brought(selector, e, e.stdout.text) && Brought(selector, e, e.stderr.text); }
    if e.Completed? && e.status.Ended? { assert Brought(selector, e, e.status.text); }
    if e.Completed? && IssueOf(e).Some? { assert Brought(selector, e, IssueOf(e).value); }
    if e.TimedOut? && e.containmentIssue.Some? { assert Brought(selector, e, e.containmentIssue.value); }
    if e.SpawnFailed? || e.WaitFailed? { assert Brought(selector, e, e.error); }
  }

  /** A transcript contains a telling text exactly when the run brought it. */
  lemma TranscriptSays(selector: string, e: Execution, n: string)
    requires Telling(n)
    ensures Occurs(Transcript(selector, e), n) <==> Says(selector, e, n)
  {
    TranscriptIsLines(selector, e);
    FreeIsPrinted(selector, e);
    FreeSays(selector, e, n);
    var segments, free := Segments(selector, e), FreeSegments(selector, e);
    hide Segments, FreeSegments, Transcript, Occurs, Says, FixedText;
    NeedleInSegments(segments, n);
    if i :| 0 <= i < |segments| && Occurs(segments[i], n) {
      SegmentKinds(selector, e, segments[i]);
      FixedIsSilent(e, StateLine, n);
      forall k ensures !Occurs(FixedText(e, k), n) { FixedIsSilent(e, k, n); }
      assert segments[i] in free;
      var j :| 0 <= j < |free| && free[j] == segments[i];
    }
    if j :| 0 <= j < |free| && Occurs(free[j], n) {
      assert free[j] in segments;
      var i :| 0 <= i < |segments| && segments[i] == free[j];
    }
  }

  /** Ended with code zero, and nothing was wrong with the capture. */
  predicate Clean(e: Execution) {
    e.Completed? && e.status == Exited(0) && e.completionIssue.None? && e.stdout.issue.None? && e.stderr.issue.None?
  }

  /**
    The recorded outcome, from the run: Held for a clean run that says one test passed, else
    Violated if it says that one failed, else unavailable.
   */
  lemma OutcomeExact(selector: string, e: Execution)
    ensures var o := OutcomeOf(e, Transcript(selector, e));
            && (o == Held <==> Clean(e) && Says(selector, e, "test result: ok. 1 passed;"))
            && (o == Violated <==>
                  !(Clean(e) && Says(selector, e, "test result: ok. 1 passed;")) && Says(selector, e, "test result: FAILED"))
  {
    Needles();
    hide Transcript, Occurs, Says, Telling;
    TranscriptSays(selector, e, "test result: ok. 1 passed;");
    TranscriptSays(selector, e, "test result: FAILED");
  }

  lemma Needles()
    ensures Telling("test result: ok. 1 passed;") && Telling("test result: FAILED")
  {
    assert "test result: ok. 1 passed;"[25] == ';' && "test result: FAILED"[13] == 'F';
  }

  /** The outcome read back, from the run: also Held when the run's own texts complete what it lacks. */
  lemma ReadOutcomeExact(selector: string, e: Execution)
    requires ValidStatus(e)
    ensures var o := OutcomeFromTranscript(Transcript(selector, e));
            && (o == Held <==> (Clean(e) && Says(selector, e, "test result: ok. 1 passed;")) || Forged(selector, e))
            && (o == Violated <==> o != Held && Says(selector, e, "test result: FAILED"))
  {
    Needles();
    ReadersAgree(selector, e);
    OutcomeExact(selector, e);
    hide Transcript, Occurs, Says, Telling, Forged, Clean;
    TranscriptSays(selector, e, "test result: FAILED");
  }
}
