/**
  What the simulator does, in terms of the fields of the lines it reads: which lines start a
  turn, which answer an approval and with what text, and what comes of each.
 */
module SimulatorLines {
  import opened Options
  import opened Json
  import opened Simulator

  /** The line is an answer to the request of this key: it names an identifier and no method. */
  ghost predicate Answers(setup: Setup, line: Line, key: string) {
    && line.Parsed? && (forall name :: !Holds(line.message, "method", Text(name)))
    && exists id :: Holds(line.message, "id", id) && key == if id.Text? then id.text else setup.show(id)
  }

  /** The answer's result has a decision, a text, and it is one of three. */
  ghost predicate Agrees(line: Line) {
    && line.Parsed?
    && exists result, d :: Holds(line.message, "result", result) && Holds(result, "decision", Text(d)) && d in {"accept", "approved", "approve"}
  }

  ghost predicate Asks(line: Line, name: string, id: Json) {
    line.Parsed? && Holds(line.message, "method", Text(name)) && Holds(line.message, "id", id)
  }

  ghost predicate Begins(line: Line) { exists id :: Asks(line, "turn/start", id) || Asks(line, "review/start", id) }

  /** A request's parameters: its field of that name, or none. */
  ghost predicate Carries(line: Line, params: Json) {
    line.Parsed? && (Holds(line.message, "params", params) || (params == Object([]) && forall x :: !Holds(line.message, "params", x)))
  }

  /** The file that the turn of this line would edit. */
  ghost predicate WouldEdit(setup: Setup, input: Input, path: string) {
    input.draw.present && exists params :: Carries(input.line, params) && setup.target(params) == Some(path)
  }

  lemma TextField(v: Json, key: string)
    ensures forall text :: StringField(v, key) == Some(text) <==> Holds(v, key, Text(text))
  {
    hide Get, Holds;
    GetExact(v, key);
  }

  lemma ReadsAnswer(setup: Setup, line: Line, key: string)
    ensures Classify(setup, line).Reply? && Classify(setup, line).key == key <==> Answers(setup, line, key)
  {
    if line.Parsed? {
      TextField(line.message, "method");
      GetExact(line.message, "id");
      hide Get, Holds, StringField, Accepts;
    }
  }

  lemma ReadsDecision(setup: Setup, line: Line)
    requires Classify(setup, line).Reply?
    ensures Classify(setup, line).accepted <==> Agrees(line)
  {
    var m := line.message;
    GetExact(m, "result");
    if Get(m, "result").Some? { TextField(Get(m, "result").value, "decision"); }
    hide Get, Holds, StringField;
  }

  lemma ReadsRequest(setup: Setup, line: Line, name: string, id: Json)
    requires Asks(line, name, id)
    ensures Classify(setup, line).Request? && Classify(setup, line).id == id && Classify(setup, line).name == MethodOf(name)
  {
    TextField(line.message, "method");
    GetExact(line.message, "id");
    hide Get, Holds, StringField, Accepts, MethodOf;
  }

  lemma RequestAsks(setup: Setup, line: Line) returns (name: string)
    requires Classify(setup, line).Request?
    ensures Asks(line, name, Classify(setup, line).id) && Classify(setup, line).name == MethodOf(name)
  {
    TextField(line.message, "method");
    GetExact(line.message, "id");
    name := StringField(line.message, "method").value;
    hide Get, Holds, StringField, Accepts, MethodOf;
  }

  lemma ReadsBegin(setup: Setup, line: Line)
    ensures Classify(setup, line).Request? && Classify(setup, line).name == TurnStart <==> Begins(line)
  {
    hide Classify, Asks, MethodOf;
    if Classify(setup, line).Request? {
      var name := RequestAsks(setup, line);
      StartNames(name);
    }
    if Begins(line) {
      var id :| Asks(line, "turn/start", id) || Asks(line, "review/start", id);
      var name := if Asks(line, "turn/start", id) then "turn/start" else "review/start";
      ReadsRequest(setup, line, name, id);
      StartNames(name);
    }
  }

  lemma StartNames(name: string)
    ensures MethodOf(name) == TurnStart <==> name == "turn/start" || name == "review/start"
  {
    assert "turn/start" != "initialize" by { assert "turn/start"[0] != "initialize"[0]; }
    assert "review/start" != "thread/start" by { assert "review/start"[0] != "thread/start"[0]; }
  }

  lemma ReadsParams(setup: Setup, line: Line)
    requires Classify(setup, line).Request?
    ensures forall params :: Carries(line, params) <==> Classify(setup, line).params == params
  {
    GetExact(line.message, "params");
    hide Get, Holds, Accepts;
  }

  lemma OwnEdit(setup: Setup, input: Input)
    requires Starts(setup, input)
    ensures forall path :: OwnTarget(setup, input) == Some(path) <==> WouldEdit(setup, input, path)
  {
    ReadsParams(setup, input.line);
    hide Classify, Carries;
  }

  // ------------------------------------------------------------ the fate of a held turn

  ghost predicate FirstAnswer(setup: Setup, inputs: seq<Input>, i: nat, j: nat)
    requires i < |inputs|
  {
    && i < j < |inputs| && Answers(setup, inputs[j].line, inputs[i].draw.approval)
    && forall k :: i < k < j ==> !Answers(setup, inputs[k].line, inputs[i].draw.approval)
  }

  lemma {:induction false} VerdictUnanswered(setup: Setup, inputs: seq<Input>, i: nat)
    requires i < |inputs| && forall k :: i < k < |inputs| ==> !Answers(setup, inputs[k].line, inputs[i].draw.approval)
    ensures Verdict(setup, inputs, i) == None
  {
    hide Answers, Classify;
    if i < |inputs| - 1 {
      VerdictUnanswered(setup, inputs[..|inputs| - 1], i);
      ReadsAnswer(setup, inputs[|inputs| - 1].line, inputs[i].draw.approval);
    }
  }

  lemma {:induction false} VerdictAnswered(setup: Setup, inputs: seq<Input>, i: nat, j: nat)
    requires i < |inputs| && FirstAnswer(setup, inputs, i, j)
    ensures Verdict(setup, inputs, i) == Some(Agrees(inputs[j].line))
  {
    hide Answers, Agrees, Classify;
    var front, last := inputs[..|inputs| - 1], inputs[|inputs| - 1];
    if j < |inputs| - 1 {
      VerdictAnswered(setup, front, i, j);
    } else {
      VerdictUnanswered(setup, front, i);
      ReadsAnswer(setup, last.line, inputs[i].draw.approval);
      ReadsDecision(setup, last.line);
    }
  }

  /** While no line answers its approval, a turn shows no end and no edit. */
  lemma HeldUntilAnswered(setup: Setup, inputs: seq<Input>, i: nat)
    requires setup.scenario == Approval && Fresh(inputs) && Run(setup, inputs).ending == Running
    requires i < |inputs| && Begins(inputs[i].line)
    requires forall k :: i < k < |inputs| ==> !Answers(setup, inputs[k].line, inputs[i].draw.approval)
    ensures var turn, out := inputs[i].draw.turn, Run(setup, inputs).out;
            Shows(StatusesOf(turn), out) == [] && Shows(EditsOf(turn), out) == []
  {
    ReadsBegin(setup, inputs[i].line);
    VerdictUnanswered(setup, inputs, i);
    hide Run, Shows, Begins, Answers, Classify, Fresh, Verdict;
    TurnFate(setup, inputs, i);
  }

  /**
    The first line that answers a turn's approval ends the turn, for good: completed, with its
    file edited once, if its decision is one of the three texts, and otherwise failed, with no
    edit at all.
   */
  lemma EndsAsAnswered(setup: Setup, inputs: seq<Input>, i: nat, j: nat)
    requires setup.scenario == Approval && Fresh(inputs) && Run(setup, inputs).ending == Running
    requires i < |inputs| && Begins(inputs[i].line) && FirstAnswer(setup, inputs, i, j)
    ensures var turn, out := inputs[i].draw.turn, Run(setup, inputs).out;
            && Shows(StatusesOf(turn), out) == [Ended(if Agrees(inputs[j].line) then Completed else Failed)]
            && (forall path :: Agrees(inputs[j].line) && WouldEdit(setup, inputs[i], path) ==> Shows(EditsOf(turn), out) == [Path(path)])
            && (!Agrees(inputs[j].line) || (forall path :: !WouldEdit(setup, inputs[i], path)) ==> Shows(EditsOf(turn), out) == [])
  {
    ReadsBegin(setup, inputs[i].line);
    VerdictAnswered(setup, inputs, i, j);
    OwnEdit(setup, inputs[i]);
    hide Run, Shows, Begins, FirstAnswer, Agrees, WouldEdit, Classify, Fresh, Verdict, OwnTarget;
    TurnFate(setup, inputs, i);
    if OwnTarget(setup, inputs[i]).Some? { assert WouldEdit(setup, inputs[i], OwnTarget(setup, inputs[i]).value); }
  }

  // ----------------------------------------------------------------- what requests do

  lemma MethodNames()
    ensures MethodOf("initialize") == Initialize && MethodOf("experimentalFeature/list") == FeatureList
    ensures MethodOf("thread/start") == ThreadStart && MethodOf("thread/resume") == ThreadResume
    ensures MethodOf("thread/goal/set") == GoalSet && MethodOf("turn/steer") == TurnSteer && MethodOf("turn/interrupt") == TurnInterrupt
  {
    assert "experimentalFeature/list"[0] == 'e' && "thread/start"[0] == 't' && "initialize"[0] == 'i' && "review/start"[0] == 'r';
    assert |"thread/start"| == 12 && |"thread/resume"| == 13 && |"thread/goal/set"| == 15 && |"turn/steer"| == 10 && |"turn/interrupt"| == 14;
    assert "turn/steer"[7] == 'e' && "turn/start"[7] == 'a';
  }

  lemma KnownNames(name: string)
    ensures MethodOf(name) == Unsupported <==>
              name !in {"initialize", "experimentalFeature/list", "thread/start", "thread/resume", "thread/goal/set", "turn/start", "review/start",
                        "turn/steer", "turn/interrupt"}
  {}

  /** The thread a request is about. */
  ghost predicate About(params: Json, thread: string) {
    Holds(params, "threadId", Text(thread)) || (thread == "fake-thread" && forall x :: !Holds(params, "threadId", Text(x)))
  }

  lemma ThreadIsAbout(params: Json)
    ensures forall thread :: About(params, thread) <==> thread == ThreadOf(params)
  {
    TextField(params, "threadId");
    hide Holds, StringField;
  }

  /** Requests that are answered and do nothing else, by their names; any other name is refused. */
  lemma RequestEffects(setup: Setup, s: Session, input: Input, name: string, id: Json, params: Json, thread: string)
    requires s.ending == Running && Asks(input.line, name, id) && Carries(input.line, params) && About(params, thread)
    ensures var next, draw := Step(setup, s, input), input.draw;
            && (name == "initialize" ==> next == s.(out := s.out + [Response(id, Initialized)]))
            && (name == "experimentalFeature/list" ==> next == s.(out := s.out + [Response(id, Features)]))
            && (name == "thread/start" ==> next == s.(out := s.out + [Response(id, ThreadOpened(draw.thread)), ThreadStarted(draw.thread)]))
            && (name == "thread/resume" ==>
                  next == s.(out := s.out + [Response(id, if setup.scenario == MissingRollout then Error(-32600) else ThreadResumed(thread))]))
            && (name == "turn/steer" ==> next == s.(out := s.out + [Response(id, Steered(Get(params, "expectedTurnId")))]))
  {
    hide Step, MethodOf, Asks, Carries, About, ThreadOf, StartTurn, InterruptedTurn, Get, SetGoal;
    RequestTaken(setup, s, input, name, id, params);
    MethodNames();
    ThreadIsAbout(params);
  }

  lemma OtherNames(setup: Setup, s: Session, input: Input, name: string, id: Json)
    requires s.ending == Running && Asks(input.line, name, id)
    requires name !in {"initialize", "experimentalFeature/list", "thread/start", "thread/resume", "thread/goal/set", "turn/start", "review/start",
                       "turn/steer", "turn/interrupt"}
    ensures Step(setup, s, input) == s.(out := s.out + [Response(id, Error(-32601))])
  {
    ReadsRequest(setup, input.line, name, id);
    KnownNames(name);
    hide Classify, MethodOf, Asks, ThreadOf, StartTurn, InterruptedTurn;
  }

  /** What a request does once it is read. */
  lemma RequestTaken(setup: Setup, s: Session, input: Input, name: string, id: Json, params: Json)
    requires s.ending == Running && Asks(input.line, name, id) && Carries(input.line, params)
    ensures Step(setup, s, input) == TakeRequest(setup, s, id, MethodOf(name), params, input.draw)
  {
    ReadsRequest(setup, input.line, name, id);
    ReadsParams(setup, input.line);
    hide Classify, MethodOf, Asks, Carries, TakeRequest;
  }

  /** A goal is kept for the thread it names. */
  lemma GoalEffects(setup: Setup, s: Session, input: Input, id: Json, params: Json)
    requires s.ending == Running && Asks(input.line, "thread/goal/set", id) && Carries(input.line, params)
    ensures var next := Step(setup, s, input);
            && next == s.(goals := next.goals, out := s.out + [Response(id, GoalActive)])
            && (forall t, o :: Holds(params, "threadId", Text(t)) && Holds(params, "objective", Text(o)) ==> next.goals == s.goals[t := o])
            && ((forall t, o :: !(Holds(params, "threadId", Text(t)) && Holds(params, "objective", Text(o)))) ==> next.goals == s.goals)
  {
    hide Step, MethodOf, Asks, Carries, Holds, StringField;
    RequestTaken(setup, s, input, "thread/goal/set", id, params);
    MethodNames();
    TextField(params, "threadId");
    TextField(params, "objective");
  }

  /** An interrupt announces the turn it names, if it names its thread too, and leaves it as it is. */
  lemma InterruptEffects(setup: Setup, s: Session, input: Input, id: Json, params: Json)
    requires s.ending == Running && Asks(input.line, "turn/interrupt", id) && Carries(input.line, params)
    ensures var next := Step(setup, s, input);
            && next == s.(out := next.out)
            && (forall t, u :: Holds(params, "threadId", Text(t)) && Holds(params, "turnId", Text(u)) ==>
                  next.out == s.out + [Response(id, InterruptTaken), TurnCompleted(t, u, Interrupted)])
            && ((forall t, u :: !(Holds(params, "threadId", Text(t)) && Holds(params, "turnId", Text(u)))) ==>
                  next.out == s.out + [Response(id, InterruptTaken)])
  {
    hide Step, MethodOf, Asks, Carries, Holds, StringField;
    RequestTaken(setup, s, input, "turn/interrupt", id, params);
    MethodNames();
    TextField(params, "threadId");
    TextField(params, "turnId");
  }

  /**
    A line that begins a turn: answered and announced, then ended at once with its file edited,
    or held for its approval, or cut off.
   */
  lemma BeginEffects(setup: Setup, s: Session, input: Input, name: string, id: Json, params: Json, thread: string)
    requires s.ending == Running && Asks(input.line, name, id) && name in {"turn/start", "review/start"}
    requires Carries(input.line, params) && About(params, thread)
    ensures var next, draw := Step(setup, s, input), input.draw;
            var text := setup.script(params, if thread in s.goals then Some(s.goals[thread]) else None);
            var target := if draw.present then setup.target(params) else None;
            var begun := s.out + [Response(id, TurnInProgress(draw.turn)), TurnStarted(thread, draw.turn)];
            var edit := if target.Some? then [Edited(draw.turn, target.value)] else [];
            var end := [ItemStarted(thread, draw.turn, draw.item), ItemCompleted(thread, draw.turn, draw.item, text), TokenUsage(thread, draw.turn),
                        TurnCompleted(thread, draw.turn, Completed)];
            && next.goals == s.goals
            && (setup.scenario == Crash ==> next.out == begun && next.pending == s.pending && next.ending == Exited)
            && (setup.scenario == Approval ==>
                  && next.out == begun + [ApprovalRequest(draw.approval, thread, draw.turn)] && next.ending == Running
                  && next.pending == s.pending[draw.approval := PendingTurn(thread, draw.turn, text, target)])
            && (setup.scenario in {Normal, MissingRollout, Malformed} ==>
                  var noise := if setup.scenario == Malformed then [Garbage] else [];
                  && next.pending == s.pending
                  && if target.Some? && !draw.writable then next.ending == Broken && next.out == begun + noise
                     else next.ending == Running && next.out == begun + (noise + edit + end))
  {
    RequestTaken(setup, s, input, name, id, params);
    StartNames(name);
    ThreadIsAbout(params);
    hide Step, MethodOf, Asks, Carries, About, ThreadOf;
    TurnStartStarts(setup, s, id, params, input.draw);
    hide TakeRequest, StartTurn;
    BeginLines(setup, s, id, params, input.draw);
  }

  lemma BeginLines(setup: Setup, s: Session, id: Json, params: Json, draw: Draw)
    requires s.ending == Running
    ensures var next, thread := StartTurn(setup, s, id, params, draw), ThreadOf(params);
            var text := setup.script(params, if thread in s.goals then Some(s.goals[thread]) else None);
            var target := if draw.present then setup.target(params) else None;
            var begun := s.out + [Response(id, TurnInProgress(draw.turn)), TurnStarted(thread, draw.turn)];
            var edit := if target.Some? then [Edited(draw.turn, target.value)] else [];
            var end := [ItemStarted(thread, draw.turn, draw.item), ItemCompleted(thread, draw.turn, draw.item, text), TokenUsage(thread, draw.turn),
                        TurnCompleted(thread, draw.turn, Completed)];
            && next.goals == s.goals
            && (setup.scenario == Crash ==> next.out == begun && next.pending == s.pending && next.ending == Exited)
            && (setup.scenario == Approval ==>
                  && next.out == begun + [ApprovalRequest(draw.approval, thread, draw.turn)] && next.ending == Running
                  && next.pending == s.pending[draw.approval := PendingTurn(thread, draw.turn, text, target)])
            && (setup.scenario in {Normal, MissingRollout, Malformed} ==>
                  var noise := if setup.scenario == Malformed then [Garbage] else [];
                  && next.pending == s.pending
                  && if target.Some? && !draw.writable then next.ending == Broken && next.out == begun + noise
                     else next.ending == Running && next.out == begun + (noise + edit + end))
  {
    TailLines(setup, s, params, draw);
    hide ThreadOf, TurnTail;
  }

  lemma TailLines(setup: Setup, s: Session, params: Json, draw: Draw)
    ensures var tail, thread := TurnTail(setup, s, params, draw), ThreadOf(params);
            var text := setup.script(params, if thread in s.goals then Some(s.goals[thread]) else None);
            var target := if draw.present then setup.target(params) else None;
            var edit := if target.Some? then [Edited(draw.turn, target.value)] else [];
            var end := [ItemStarted(thread, draw.turn, draw.item), ItemCompleted(thread, draw.turn, draw.item, text), TokenUsage(thread, draw.turn),
                        TurnCompleted(thread, draw.turn, Completed)];
            var noise := if setup.scenario == Malformed then [Garbage] else [];
            && (setup.scenario == Crash ==> tail == [])
            && (setup.scenario == Approval ==> tail == [ApprovalRequest(draw.approval, thread, draw.turn)])
            && (setup.scenario in {Normal, MissingRollout, Malformed} ==>
                  tail == if target.Some? && !draw.writable then noise else noise + edit + end)
  {
    hide ThreadOf;
    var thread := ThreadOf(params);
    var text, target := setup.script(params, Goal(s, thread)), TargetOf(setup, params, draw);
    var edit, end := EditOf(draw.turn, target), FinishTurn(thread, draw.turn, draw.item, text, Completed);
    hide FinishTurn, EditOf;
    assert [] + edit + end == edit + end && [Garbage] + edit + end == [Garbage] + (edit + end);
    TailPieces(draw.turn, target, thread, draw.item, text);
  }

  lemma TailPieces(turn: string, target: Option<string>, thread: string, item: string, text: string)
    ensures EditOf(turn, target) == if target.Some? then [Edited(turn, target.value)] else []
    ensures FinishTurn(thread, turn, item, text, Completed)
         == [ItemStarted(thread, turn, item), ItemCompleted(thread, turn, item, text), TokenUsage(thread, turn), TurnCompleted(thread, turn, Completed)]
  {}

  /** An answer to a held turn's approval ends it, with these lines and no others. */
  lemma AnswerEffects(s: Session, setup: Setup, input: Input, key: string)
    requires s.ending == Running && Answers(setup, input.line, key) && key in s.pending
    ensures var next, t, draw := Step(setup, s, input), s.pending[key], input.draw;
            var yes := Agrees(input.line);
            var edit := if yes && t.target.Some? then [Edited(t.turn, t.target.value)] else [];
            && next.pending == s.pending - {key} && next.goals == s.goals
            && if yes && t.target.Some? && !draw.writable then next.ending == Broken && next.out == s.out
               else && next.ending == Running
                    && next.out == s.out + edit + [ItemStarted(t.thread, t.turn, draw.item), ItemCompleted(t.thread, t.turn, draw.item, t.text),
                                                   TokenUsage(t.thread, t.turn), TurnCompleted(t.thread, t.turn, if yes then Completed else Failed)]
  {
    hide Classify, Answers, Agrees, FinishTurn, EditOf;
    ReadsAnswer(setup, input.line, key);
    ReadsDecision(setup, input.line);
    var t, yes := s.pending[key], Agrees(input.line);
    EndingLines(t, input.draw.item, if yes then t.target else None, if yes then Completed else Failed);
    assert Step(setup, s, input) == TakeReply(s, key, yes, input.draw);
    hide Step;
    SentInTurn(s.out, EditOf(t.turn, if yes then t.target else None),
               FinishTurn(t.thread, t.turn, input.draw.item, t.text, if yes then Completed else Failed));
  }

  lemma SentInTurn(out: seq<Effect>, edit: seq<Effect>, end: seq<Effect>)
    ensures out + (edit + end) == out + edit + end
  {}

  lemma EndingLines(t: PendingTurn, item: string, target: Option<string>, status: Status)
    ensures EditOf(t.turn, target) == if target.Some? then [Edited(t.turn, target.value)] else []
    ensures FinishTurn(t.thread, t.turn, item, t.text, status)
         == [ItemStarted(t.thread, t.turn, item), ItemCompleted(t.thread, t.turn, item, t.text), TokenUsage(t.thread, t.turn),
             TurnCompleted(t.thread, t.turn, status)]
  {}

  function AnswerLine(id: Json, result: Json): Line { Parsed(Object([Field("id", id), Field("result", result)])) }

  /** Which answers agree, over every text and every other shape of an answer. */
  lemma AnswerShapes(setup: Setup, id: Json, d: string, other: Json)
    ensures var key := if id.Text? then id.text else setup.show(id);
            && Answers(setup, AnswerLine(id, Object([Field("decision", Text(d))])), key)
            && (Agrees(AnswerLine(id, Object([Field("decision", Text(d))]))) <==> d == "accept" || d == "approved" || d == "approve")
            && (!other.Text? ==> !Agrees(AnswerLine(id, Object([Field("decision", other)]))))
            && !Agrees(AnswerLine(id, Object([]))) && !Agrees(AnswerLine(id, Text(d)))
            && Answers(setup, Parsed(Object([Field("id", id)])), key) && !Agrees(Parsed(Object([Field("id", id)])))
  {
    ReplyHolds(id, Object([Field("decision", Text(d))]));
    ReplyHolds(id, Object([Field("decision", other)]));
    ReplyHolds(id, Object([]));
    ReplyHolds(id, Text(d));
    OneField("decision", Text(d));
    OneField("decision", other);
    OneField("id", id);
    NoFields();
    hide Holds;
    var yes := AnswerLine(id, Object([Field("decision", Text(d))]));
    assert Holds(yes.message, "result", Object([Field("decision", Text(d))])) && Holds(Object([Field("decision", Text(d))]), "decision", Text(d));
  }

  /** Over every text: a turn whose approval is answered with decision d completes exactly for three of them. */
  lemma DecisionDecides(setup: Setup, inputs: seq<Input>, i: nat, j: nat, d: string)
    requires setup.scenario == Approval && Fresh(inputs) && Run(setup, inputs).ending == Running
    requires i < j < |inputs| && Begins(inputs[i].line)
    requires inputs[j].line == AnswerLine(Text(inputs[i].draw.approval), Object([Field("decision", Text(d))]))
    requires forall k :: i < k < j ==> !Answers(setup, inputs[k].line, inputs[i].draw.approval)
    ensures var turn, out, yes := inputs[i].draw.turn, Run(setup, inputs).out, d == "accept" || d == "approved" || d == "approve";
            && Shows(StatusesOf(turn), out) == [Ended(if yes then Completed else Failed)]
            && (forall path :: yes && WouldEdit(setup, inputs[i], path) ==> Shows(EditsOf(turn), out) == [Path(path)])
            && (!yes ==> Shows(EditsOf(turn), out) == [])
  {
    hide Answers, Agrees, Run, Fresh, Begins, Shows, WouldEdit, AnswerLine;
    AnswerShapes(setup, Text(inputs[i].draw.approval), d, Null);
    EndsAsAnswered(setup, inputs, i, j);
  }

  /** A line that is no message, names no identifier, or answers nothing that is held, changes nothing. */
  lemma IgnoredLines(setup: Setup, s: Session, input: Input)
    requires !input.line.Parsed? || (forall id :: !Holds(input.line.message, "id", id))
             || exists key :: key !in s.pending && Answers(setup, input.line, key)
    ensures Step(setup, s, input) == s
  {
    if input.line.Parsed? { GetExact(input.line.message, "id"); }
    if key :| key !in s.pending && Answers(setup, input.line, key) { ReadsAnswer(setup, input.line, key); }
    hide Holds, Get, StringField, Answers, Accepts;
  }

  lemma ReplyHolds(id: Json, result: Json)
    ensures forall name, x :: Holds(AnswerLine(id, result).message, name, x) <==> (name == "id" && x == id) || (name == "result" && x == result)
  {
    var f := [Field("id", id), Field("result", result)];
    assert f[0] == Field("id", id) && f[1] == Field("result", result);
    assert "id"[0] != "result"[0];
    forall name, x ensures Holds(Object(f), name, x) <==> (name == "id" && x == id) || (name == "result" && x == result) {
      if (name == "id" && x == id) || (name == "result" && x == result) {
        var i := if name == "id" then 0 else 1;
        assert f[i] == Field(name, x);
      }
    }
  }

  lemma OneField(key: string, value: Json)
    ensures forall name, x :: Holds(Object([Field(key, value)]), name, x) <==> name == key && x == value
  {
    var f := [Field(key, value)];
    assert f[0] == Field(key, value);
  }

  lemma NoFields()
    ensures forall name, x :: !Holds(Object([]), name, x)
    ensures forall name, x, d :: !Holds(Text(d), name, x)
  {}
}
