/**
  The protocol simulator: one input line at a time, answering requests, running turns and,
  in the approval scenario, holding each turn until its approval is answered.
 */
module Simulator {
  import opened Options
  import opened Json

  datatype Scenario = Normal | Approval | Malformed | Crash | MissingRollout

  /** Parts decided by foreign or scripted code: how JSON prints, what a turn says, what it would edit. */
  datatype Setup = Setup(
    scenario: Scenario,
    show: Json -> string,
    script: (Json, Option<string>) -> string,
    target: Json -> Option<string>)

  datatype Line = Oversized | Unparsed | Parsed(message: Json)

  /** Identifiers drawn and file-system answers met while one line is handled. */
  datatype Draw = Draw(thread: string, turn: string, approval: string, item: string, present: bool, writable: bool)

  datatype Input = Input(line: Line, draw: Draw)

  datatype Status = Completed | Failed | Interrupted

  datatype Answer =
    | Initialized
    | Features
    | ThreadOpened(thread: string)
    | ThreadResumed(thread: string)
    | GoalActive
    | TurnInProgress(turn: string)
    | Steered(expected: Option<Json>)
    | InterruptTaken
    | Error(code: int)

  /** What the simulator does to the outside: lines written, and edits of a turn's file. */
  datatype Effect =
    | Response(id: Json, answer: Answer)
    | ThreadStarted(thread: string)
    | TurnStarted(thread: string, turn: string)
    | Garbage
    | ApprovalRequest(approval: string, thread: string, turn: string)
    | ItemStarted(thread: string, turn: string, item: string)
    | ItemCompleted(thread: string, turn: string, item: string, text: string)
    | TokenUsage(thread: string, turn: string)
    | TurnCompleted(thread: string, turn: string, status: Status)
    | Edited(turn: string, path: string)

  datatype PendingTurn = PendingTurn(thread: string, turn: string, text: string, target: Option<string>)

  datatype Ending = Running | Exited | Broken

  datatype Session = Session(goals: map<string, string>, pending: map<string, PendingTurn>, out: seq<Effect>, ending: Ending)

  const INITIAL := Session(map[], map[], [], Running)

  // ------------------------------------------------------------------- reading lines

  datatype Kind = Skipped | Reply(key: string, accepted: bool) | Request(id: Json, name: Method, params: Json)

  datatype Method =
    | Initialize | FeatureList | ThreadStart | ThreadResume | GoalSet | TurnStart | TurnSteer | TurnInterrupt | Unsupported

  function MethodOf(name: string): Method {
    if name == "initialize" then Initialize
    else if name == "experimentalFeature/list" then FeatureList
    else if name == "thread/start" then ThreadStart
    else if name == "thread/resume" then ThreadResume
    else if name == "thread/goal/set" then GoalSet
    else if name == "turn/start" || name == "review/start" then TurnStart
    else if name == "turn/steer" then TurnSteer
    else if name == "turn/interrupt" then TurnInterrupt
    else Unsupported
  }

  function RequestKey(setup: Setup, id: Json): string { if id.Text? then id.text else setup.show(id) }

  predicate Accepts(message: Json) {
    match Get(message, "result")
    case None => false
    case Some(result) =>
      var decision := StringField(result, "decision");
      decision == Some("accept") || decision == Some("approved") || decision == Some("approve")
  }

  function Classify(setup: Setup, line: Line): Kind {
    if !line.Parsed? then Skipped
    else
      var m := line.message;
      match (StringField(m, "method"), Get(m, "id"))
      case (_, None) => Skipped
      case (None, Some(id)) => Reply(RequestKey(setup, id), Accepts(m))
      case (Some(name), Some(id)) => Request(id, MethodOf(name), if Get(m, "params").Some? then Get(m, "params").value else Object([]))
  }

  // ------------------------------------------------------------------------- handling

  function FinishTurn(thread: string, turn: string, item: string, text: string, status: Status): seq<Effect> {
    [ItemStarted(thread, turn, item), ItemCompleted(thread, turn, item, text), TokenUsage(thread, turn),
     TurnCompleted(thread, turn, status)]
  }

  function EditOf(turn: string, target: Option<string>): seq<Effect> {
    if target.Some? then [Edited(turn, target.value)] else []
  }

  function Send(s: Session, effects: seq<Effect>): Session { s.(out := s.out + effects) }

  function ThreadOf(params: Json): string {
    var thread := StringField(params, "threadId");
    if thread.Some? then thread.value else "fake-thread"
  }

  function TargetOf(setup: Setup, params: Json, draw: Draw): Option<string> {
    if draw.present then setup.target(params) else None
  }

  function Goal(s: Session, thread: string): Option<string> {
    if thread in s.goals then Some(s.goals[thread]) else None
  }

  predicate Breaks(target: Option<string>, draw: Draw) { target.Some? && !draw.writable }

  /** What follows the announcement of a turn. */
  function TurnTail(setup: Setup, s: Session, params: Json, draw: Draw): seq<Effect> {
    var thread := ThreadOf(params);
    var text, target := setup.script(params, Goal(s, thread)), TargetOf(setup, params, draw);
    match setup.scenario
    case Crash => []
    case Approval => [ApprovalRequest(draw.approval, thread, draw.turn)]
    case _ =>
      (if setup.scenario == Malformed then [Garbage] else [])
      + if Breaks(target, draw) then []
        else EditOf(draw.turn, target) + FinishTurn(thread, draw.turn, draw.item, text, Completed)
  }

  function StartTurn(setup: Setup, s: Session, id: Json, params: Json, draw: Draw): Session {
    var thread := ThreadOf(params);
    var text, target := setup.script(params, Goal(s, thread)), TargetOf(setup, params, draw);
    var begun := Send(s, [Response(id, TurnInProgress(draw.turn)), TurnStarted(thread, draw.turn)]);
    Send(begun, TurnTail(setup, s, params, draw))
      .(pending := if setup.scenario == Approval then s.pending[draw.approval := PendingTurn(thread, draw.turn, text, target)]
                   else s.pending,
        ending := if setup.scenario == Crash then Exited
                  else if setup.scenario != Approval && Breaks(target, draw) then Broken
                  else s.ending)
  }

  function TakeReply(s: Session, key: string, accepted: bool, draw: Draw): Session {
    if key !in s.pending then s
    else
      var t, rest := s.pending[key], s.(pending := s.pending - {key});
      var target := if accepted then t.target else None;
      if target.Some? && !draw.writable then rest.(ending := Broken)
      else Send(rest, EditOf(t.turn, target) + FinishTurn(t.thread, t.turn, draw.item, t.text, if accepted then Completed else Failed))
  }

  function InterruptedTurn(params: Json): seq<Effect> {
    match (StringField(params, "threadId"), StringField(params, "turnId"))
    case (Some(thread), Some(turn)) => [TurnCompleted(thread, turn, Interrupted)]
    case _ => []
  }

  function SetGoal(s: Session, params: Json): Session {
    match (StringField(params, "threadId"), StringField(params, "objective"))
    case (Some(thread), Some(objective)) => s.(goals := s.goals[thread := objective])
    case _ => s
  }

  function TakeRequest(setup: Setup, s: Session, id: Json, name: Method, params: Json, draw: Draw): Session {
    match name
    case Initialize => Send(s, [Response(id, Initialized)])
    case FeatureList => Send(s, [Response(id, Features)])
    case ThreadStart => Send(s, [Response(id, ThreadOpened(draw.thread)), ThreadStarted(draw.thread)])
    case ThreadResume =>
      Send(s, [Response(id, if setup.scenario == MissingRollout then Error(-32600) else ThreadResumed(ThreadOf(params)))])
    case GoalSet => Send(SetGoal(s, params), [Response(id, GoalActive)])
    case TurnStart => StartTurn(setup, s, id, params, draw)
    case TurnSteer => Send(s, [Response(id, Steered(Get(params, "expectedTurnId")))])
    case TurnInterrupt => Send(s, [Response(id, InterruptTaken)] + InterruptedTurn(params))
    case Unsupported => Send(s, [Response(id, Error(-32601))])
  }

  function Step(setup: Setup, s: Session, input: Input): Session {
    if s.ending != Running then s
    else
      match Classify(setup, input.line)
      case Skipped => s
      case Reply(key, accepted) => TakeReply(s, key, accepted, input.draw)
      case Request(id, name, params) => TakeRequest(setup, s, id, name, params, input.draw)
  }

  function Run(setup: Setup, inputs: seq<Input>): Session {
    if inputs == [] then INITIAL
    else Step(setup, Run(setup, inputs[..|inputs| - 1]), inputs[|inputs| - 1])
  }

  // ------------------------------------------------------------------------- the loop

  method Finish(thread: string, turn: string, item: string, text: string, status: Status) returns (lines: seq<Effect>)
    ensures lines == FinishTurn(thread, turn, item, text, status)
  {
    lines := [ItemStarted(thread, turn, item)];
    lines := lines + [ItemCompleted(thread, turn, item, text)];
    lines := lines + [TokenUsage(thread, turn)];
    lines := lines + [TurnCompleted(thread, turn, status)];
  }

  method HandleTurn(setup: Setup, s: Session, id: Json, params: Json, draw: Draw) returns (r: Session)
    ensures r == StartTurn(setup, s, id, params, draw)
  {
    hide FinishTurn, EditOf, ThreadOf, Goal;
    var pending, ending, tail := s.pending, s.ending, [];
    var thread := ThreadOf(params);
    var text, target := setup.script(params, Goal(s, thread)), TargetOf(setup, params, draw);
    var begun := s.out + [Response(id, TurnInProgress(draw.turn)), TurnStarted(thread, draw.turn)];
    if setup.scenario == Crash {
      ending := Exited;
    } else if setup.scenario == Approval {
      tail := [ApprovalRequest(draw.approval, thread, draw.turn)];
      pending := pending[draw.approval := PendingTurn(thread, draw.turn, text, target)];
    } else {
      if setup.scenario == Malformed { tail := [Garbage]; }
      if target.Some? && !draw.writable {
        ending := Broken;
      } else {
        var closing := Finish(thread, draw.turn, draw.item, text, Completed);
        tail := tail + (EditOf(draw.turn, target) + closing);
      }
    }
    assert tail == TurnTail(setup, s, params, draw);
    return Session(s.goals, pending, begun + tail, ending);
  }

  method HandleReply(s: Session, key: string, accepted: bool, draw: Draw) returns (r: Session)
    ensures r == TakeReply(s, key, accepted, draw)
  {
    r := s;
    if key in r.pending {
      var t := r.pending[key];
      r := r.(pending := r.pending - {key});
      var edit: seq<Effect> := [];
      if accepted && t.target.Some? {
        if !draw.writable { return r.(ending := Broken); }
        edit := [Edited(t.turn, t.target.value)];
      }
      var tail := Finish(t.thread, t.turn, draw.item, t.text, if accepted then Completed else Failed);
      r := r.(out := r.out + (edit + tail));
    }
  }

  lemma TurnStartStarts(setup: Setup, s: Session, id: Json, params: Json, draw: Draw)
    ensures TakeRequest(setup, s, id, TurnStart, params, draw) == StartTurn(setup, s, id, params, draw)
  {
  }

  /** The loop over input lines, which leaves when the process ends. */
  method Serve(setup: Setup, inputs: seq<Input>) returns (s: Session)
    ensures s == Run(setup, inputs)
  {
    hide Classify, TakeReply, TakeRequest, StartTurn;
    s := INITIAL;
    for i := 0 to |inputs|
      invariant s == Run(setup, inputs[..i])
    {
      assert inputs[..i + 1][..i] == inputs[..i];
      if s.ending == Running {
        match Classify(setup, inputs[i].line) {
          case Skipped =>
          case Reply(key, accepted) => s := HandleReply(s, key, accepted, inputs[i].draw);
          case Request(id, name, params) =>
            if name == TurnStart {
              TurnStartStarts(setup, s, id, params, inputs[i].draw);
              s := HandleTurn(setup, s, id, params, inputs[i].draw);
            } else {
              s := TakeRequest(setup, s, id, name, params, inputs[i].draw);
            }
        }
      }
    }
    assert inputs[..|inputs|] == inputs;
  }

  // ---------------------------------------------------------------- views of the output

  datatype View =
    | Responses
    | StartedTurns
    | FinishedTurns
    | StatusesOf(turn: string)
    | EditsOf(turn: string)
    | CompletionsOf(turn: string)

  datatype Fact = Id(id: Json) | Turn(turn: string) | Ended(status: Status) | Path(path: string)

  function See(v: View, e: Effect): seq<Fact> {
    match (v, e)
    case (Responses, Response(id, _)) => [Id(id)]
    case (StartedTurns, TurnStarted(_, turn)) => [Turn(turn)]
    case (FinishedTurns, TurnCompleted(_, turn, status)) => if status != Interrupted then [Turn(turn)] else []
    case (StatusesOf(t), TurnCompleted(_, turn, status)) => if turn == t && status != Interrupted then [Ended(status)] else []
    case (EditsOf(t), Edited(turn, path)) => if turn == t then [Path(path)] else []
    case (CompletionsOf(t), TurnCompleted(_, turn, status)) => if turn == t then [Ended(status)] else []
    case _ => []
  }

  function Shows(v: View, out: seq<Effect>): seq<Fact> {
    if out == [] then [] else See(v, out[0]) + Shows(v, out[1..])
  }

  lemma {:induction false} ShowsAppend(v: View, a: seq<Effect>, b: seq<Effect>)
    ensures Shows(v, a + b) == Shows(v, a) + Shows(v, b)
  {
    hide See;
    if a == [] {
      assert a + b == b;
    } else {
      assert (a + b)[0] == a[0] && (a + b)[1..] == a[1..] + b;
      ShowsAppend(v, a[1..], b);
    }
  }

  lemma ShowsOne(v: View, e: Effect)
    ensures Shows(v, [e]) == See(v, e)
  {
    hide See;
    assert [e][1..] == [];
  }

  lemma ShowsTwo(v: View, d: Effect, e: Effect)
    ensures Shows(v, [d, e]) == See(v, d) + See(v, e)
  {
    hide See;
    assert [d, e] == [d] + [e];
    ShowsAppend(v, [d], [e]);
    ShowsOne(v, d);
    ShowsOne(v, e);
  }

  lemma ShowsFinish(v: View, thread: string, turn: string, item: string, text: string, status: Status)
    ensures Shows(v, FinishTurn(thread, turn, item, text, status)) == See(v, TurnCompleted(thread, turn, status))
  {
    var a, b := ItemStarted(thread, turn, item), ItemCompleted(thread, turn, item, text);
    var c, d := TokenUsage(thread, turn), TurnCompleted(thread, turn, status);
    assert See(v, a) == See(v, b) == See(v, c) == [];
    hide See;
    assert FinishTurn(thread, turn, item, text, status) == [a, b] + [c, d];
    ShowsAppend(v, [a, b], [c, d]);
    ShowsTwo(v, a, b);
    ShowsTwo(v, c, d);
  }

  function SeeEdit(v: View, turn: string, target: Option<string>): seq<Fact> {
    if target.Some? then See(v, Edited(turn, target.value)) else []
  }

  lemma ShowsClosing(v: View, thread: string, turn: string, item: string, text: string, target: Option<string>, status: Status)
    ensures Shows(v, EditOf(turn, target) + FinishTurn(thread, turn, item, text, status))
         == SeeEdit(v, turn, target) + See(v, TurnCompleted(thread, turn, status))
  {
    hide See, FinishTurn;
    ShowsAppend(v, EditOf(turn, target), FinishTurn(thread, turn, item, text, status));
    ShowsFinish(v, thread, turn, item, text, status);
    if target.Some? { ShowsOne(v, Edited(turn, target.value)); }
  }

  lemma ShowsSend(v: View, s: Session, effects: seq<Effect>)
    ensures Shows(v, Send(s, effects).out) == Shows(v, s.out) + Shows(v, effects)
  {
    ShowsAppend(v, s.out, effects);
  }

  // ----------------------------------------------- what one line adds to every view

  function TurnShows(v: View, setup: Setup, params: Json, id: Json, draw: Draw): seq<Fact> {
    var thread, target := ThreadOf(params), TargetOf(setup, params, draw);
    See(v, Response(id, TurnInProgress(draw.turn))) + See(v, TurnStarted(thread, draw.turn))
    + if setup.scenario == Crash || setup.scenario == Approval || Breaks(target, draw) then []
      else SeeEdit(v, draw.turn, target) + See(v, TurnCompleted(thread, draw.turn, Completed))
  }

  lemma ShowsTail(v: View, setup: Setup, s: Session, params: Json, draw: Draw)
    ensures var thread, target := ThreadOf(params), TargetOf(setup, params, draw);
            Shows(v, TurnTail(setup, s, params, draw))
            == if setup.scenario == Crash || setup.scenario == Approval || Breaks(target, draw) then []
               else SeeEdit(v, draw.turn, target) + See(v, TurnCompleted(thread, draw.turn, Completed))
  {
    var thread := ThreadOf(params);
    var text, target := setup.script(params, Goal(s, thread)), TargetOf(setup, params, draw);
    var request := ApprovalRequest(draw.approval, thread, draw.turn);
    var closing := EditOf(draw.turn, target) + FinishTurn(thread, draw.turn, draw.item, text, Completed);
    assert See(v, Garbage) == See(v, request) == [];
    ShowsOne(v, Garbage);
    ShowsOne(v, request);
    assert Shows(v, []) == [];
    hide Shows, See, FinishTurn, ThreadOf, Goal, TargetOf, SeeEdit, EditOf;
    ShowsClosing(v, thread, draw.turn, draw.item, text, target, Completed);
    ShowsAppend(v, [Garbage], closing);
    assert [Garbage] + [] == [Garbage] && [] + closing == closing;
  }

  lemma StartTurnShows(v: View, setup: Setup, s: Session, id: Json, params: Json, draw: Draw)
    ensures Shows(v, StartTurn(setup, s, id, params, draw).out) == Shows(v, s.out) + TurnShows(v, setup, params, id, draw)
  {
    hide Shows, See, ThreadOf, Goal, TargetOf, SeeEdit, TurnTail;
    var r, t := Response(id, TurnInProgress(draw.turn)), TurnStarted(ThreadOf(params), draw.turn);
    ShowsSend(v, s, [r, t]);
    ShowsTwo(v, r, t);
    ShowsSend(v, Send(s, [r, t]), TurnTail(setup, s, params, draw));
    ShowsTail(v, setup, s, params, draw);
  }

  function ReplyShows(v: View, s: Session, key: string, accepted: bool, draw: Draw): seq<Fact> {
    if key !in s.pending then []
    else
      var t := s.pending[key];
      var target := if accepted then t.target else None;
      if Breaks(target, draw) then []
      else SeeEdit(v, t.turn, target) + See(v, TurnCompleted(t.thread, t.turn, if accepted then Completed else Failed))
  }

  lemma TakeReplyShows(v: View, s: Session, key: string, accepted: bool, draw: Draw)
    ensures Shows(v, TakeReply(s, key, accepted, draw).out) == Shows(v, s.out) + ReplyShows(v, s, key, accepted, draw)
  {
    hide Shows, See, FinishTurn, SeeEdit, EditOf;
    if key in s.pending {
      var t, rest := s.pending[key], s.(pending := s.pending - {key});
      var target := if accepted then t.target else None;
      var status := if accepted then Completed else Failed;
      ShowsSend(v, rest, EditOf(t.turn, target) + FinishTurn(t.thread, t.turn, draw.item, t.text, status));
      ShowsClosing(v, t.thread, t.turn, draw.item, t.text, target, status);
    }
  }

  function NamedTurn(params: Json): Option<string> {
    if StringField(params, "threadId").Some? then StringField(params, "turnId") else None
  }

  function RequestShows(v: View, setup: Setup, id: Json, name: Method, params: Json, draw: Draw): seq<Fact> {
    if name == TurnStart then TurnShows(v, setup, params, id, draw)
    else
      See(v, Response(id, Initialized))
      + (if name == TurnInterrupt && NamedTurn(params).Some? && v == CompletionsOf(NamedTurn(params).value)
         then [Ended(Interrupted)] else [])
  }

  lemma InterruptShows(v: View, params: Json)
    ensures Shows(v, InterruptedTurn(params))
         == if NamedTurn(params).Some? && v == CompletionsOf(NamedTurn(params).value) then [Ended(Interrupted)] else []
  {
    if InterruptedTurn(params) != [] { ShowsOne(v, InterruptedTurn(params)[0]); }
  }

  lemma TakeRequestShows(v: View, setup: Setup, s: Session, id: Json, name: Method, params: Json, draw: Draw)
    ensures Shows(v, TakeRequest(setup, s, id, name, params, draw).out)
         == Shows(v, s.out) + RequestShows(v, setup, id, name, params, draw)
  {
    hide Shows, InterruptedTurn, NamedTurn, ThreadOf, StartTurn, TurnShows;
    match name {
      case TurnStart => StartTurnShows(v, setup, s, id, params, draw);
      case ThreadStart =>
        ShowsSend(v, s, [Response(id, ThreadOpened(draw.thread)), ThreadStarted(draw.thread)]);
        ShowsTwo(v, Response(id, ThreadOpened(draw.thread)), ThreadStarted(draw.thread));
      case TurnInterrupt =>
        ShowsSend(v, s, [Response(id, InterruptTaken)] + InterruptedTurn(params));
        ShowsAppend(v, [Response(id, InterruptTaken)], InterruptedTurn(params));
        ShowsOne(v, Response(id, InterruptTaken));
        InterruptShows(v, params);
      case _ => AnswerShows(v, setup, s, id, name, params, draw);
    }
  }

  /** The requests that are only answered. */
  lemma AnswerShows(v: View, setup: Setup, s: Session, id: Json, name: Method, params: Json, draw: Draw)
    requires name != TurnStart && name != ThreadStart && name != TurnInterrupt
    ensures Shows(v, TakeRequest(setup, s, id, name, params, draw).out) == Shows(v, s.out) + See(v, Response(id, Initialized))
  {
    var next := TakeRequest(setup, s, id, name, params, draw);
    hide TakeRequest, Shows;
    assert exists a :: next.out == s.out + [Response(id, a)] by { OneAnswer(setup, s, id, name, params, draw); }
    var a :| next.out == s.out + [Response(id, a)];
    ShowsAppend(v, s.out, [Response(id, a)]);
    ShowsOne(v, Response(id, a));
  }

  lemma OneAnswer(setup: Setup, s: Session, id: Json, name: Method, params: Json, draw: Draw)
    requires name != TurnStart && name != ThreadStart && name != TurnInterrupt
    ensures exists a :: TakeRequest(setup, s, id, name, params, draw).out == s.out + [Response(id, a)]
  {
    hide ThreadOf;
    var answer := TakeRequest(setup, s, id, name, params, draw).out[|s.out|].answer;
    assert TakeRequest(setup, s, id, name, params, draw).out == s.out + [Response(id, answer)];
  }

  function LineShows(v: View, setup: Setup, s: Session, input: Input): seq<Fact> {
    match Classify(setup, input.line)
    case Skipped => []
    case Reply(key, accepted) => ReplyShows(v, s, key, accepted, input.draw)
    case Request(id, name, params) => RequestShows(v, setup, id, name, params, input.draw)
  }

  lemma StepShows(v: View, setup: Setup, s: Session, input: Input)
    requires s.ending == Running
    ensures Shows(v, Step(setup, s, input).out) == Shows(v, s.out) + LineShows(v, setup, s, input)
  {
    hide Shows, TakeReply, TakeRequest, ReplyShows, RequestShows;
    match Classify(setup, input.line) {
      case Skipped =>
      case Reply(key, accepted) => TakeReplyShows(v, s, key, accepted, input.draw);
      case Request(id, name, params) => TakeRequestShows(v, setup, s, id, name, params, input.draw);
    }
  }

  // -------------------------------------------------------------- answers to requests

  function RequestIds(setup: Setup, inputs: seq<Input>): seq<Fact> {
    if inputs == [] then []
    else
      var kind := Classify(setup, inputs[|inputs| - 1].line);
      RequestIds(setup, inputs[..|inputs| - 1]) + if kind.Request? then [Id(kind.id)] else []
  }

  lemma LineResponses(setup: Setup, s: Session, input: Input)
    ensures var kind := Classify(setup, input.line);
            LineShows(Responses, setup, s, input) == if kind.Request? then [Id(kind.id)] else []
  {
    hide Classify, ThreadOf, TargetOf;
  }

  /** The responses are the handled requests' identifiers, one each and in order; a running session handled all. */
  lemma {:induction false} OneResponseEach(setup: Setup, inputs: seq<Input>) returns (k: nat)
    ensures k <= |inputs| && Shows(Responses, Run(setup, inputs).out) == RequestIds(setup, inputs[..k])
    ensures Run(setup, inputs).ending == Running ==> k == |inputs|
  {
    hide Shows, LineShows, Step, Classify;
    k := 0;
    if inputs == [] {
      assert Shows(Responses, []) == [] by { ShowsNothing(Responses); }
    } else {
      var front, last := inputs[..|inputs| - 1], inputs[|inputs| - 1];
      var s := Run(setup, front);
      k := OneResponseEach(setup, front);
      if s.ending == Running {
        StepShows(Responses, setup, s, last);
        LineResponses(setup, s, last);
        k := |inputs|;
        assert inputs[..k] == inputs && front[..|front|] == front;
      } else {
        StepEnded(setup, s, last);
        assert inputs[..k] == front[..k];
      }
    }
  }

  lemma ShowsNothing(v: View)
    ensures Shows(v, []) == []
  {
  }

  lemma StepEnded(setup: Setup, s: Session, input: Input)
    requires s.ending != Running
    ensures Step(setup, s, input) == s
  {
  }

  // ---------------------------------------------------------------------- conservation

  /** Identifiers drawn for different lines differ. */
  ghost predicate Fresh(inputs: seq<Input>) {
    forall i, j :: 0 <= i < j < |inputs| ==>
      inputs[i].draw.turn != inputs[j].draw.turn && inputs[i].draw.approval != inputs[j].draw.approval
  }

  predicate Starts(setup: Setup, input: Input) {
    Classify(setup, input.line).Request? && Classify(setup, input.line).name == TurnStart
  }

  ghost predicate Origin(setup: Setup, inputs: seq<Input>, key: string, t: PendingTurn, j: int) {
    && 0 <= j < |inputs| && Starts(setup, inputs[j])
    && inputs[j].draw.approval == key && inputs[j].draw.turn == t.turn
  }

  /** Every held turn was started by a line that drew its approval. */
  ghost predicate Originates(setup: Setup, inputs: seq<Input>, s: Session) {
    && (s.pending.Keys != {} ==> setup.scenario == Approval)
    && forall key :: key in s.pending ==> exists j :: Origin(setup, inputs, key, s.pending[key], j)
  }

  /** How one line changes the held turns. */
  lemma StepPending(setup: Setup, s: Session, input: Input)
    requires s.ending == Running
    ensures var next, kind := Step(setup, s, input), Classify(setup, input.line);
            && (kind.Skipped? ==> next.pending == s.pending)
            && (kind.Reply? ==> next.pending == s.pending - {kind.key})
            && (kind.Request? && (kind.name != TurnStart || setup.scenario != Approval) ==> next.pending == s.pending)
            && (kind.Request? && kind.name == TurnStart && setup.scenario == Approval ==>
                  && next.pending.Keys == s.pending.Keys + {input.draw.approval}
                  && (forall key :: key in s.pending && key != input.draw.approval ==> next.pending[key] == s.pending[key])
                  && next.pending[input.draw.approval].turn == input.draw.turn
                  && next.pending[input.draw.approval].thread == ThreadOf(kind.params)
                  && next.pending[input.draw.approval].target == TargetOf(setup, kind.params, input.draw))
  {
    hide Classify, ThreadOf, TargetOf, TurnTail, FinishTurn, EditOf, InterruptedTurn;
  }

  lemma {:induction false} RunOriginates(setup: Setup, inputs: seq<Input>)
    ensures Originates(setup, inputs, Run(setup, inputs))
  {
    if inputs != [] {
      var front, last := inputs[..|inputs| - 1], inputs[|inputs| - 1];
      var s := Run(setup, front);
      hide Step, Starts, Classify;
      RunOriginates(setup, front);
      if s.ending != Running {
        StepEnded(setup, s, last);
      } else {
        StepPending(setup, s, last);
      }
      var next := Run(setup, inputs);
      forall key | key in next.pending ensures exists j :: Origin(setup, inputs, key, next.pending[key], j) {
        if key in s.pending && next.pending[key] == s.pending[key] {
          var j :| Origin(setup, front, key, s.pending[key], j);
          assert Origin(setup, inputs, key, next.pending[key], j);
        } else {
          assert Starts(setup, last);
          assert Origin(setup, inputs, key, next.pending[key], |front|);
        }
      }
    }
  }

  function Count(v: View, s: Session): nat { |Shows(v, s.out)| }

  /** Turns begun by a process that then ended before finishing them. */
  function Abandoned(s: Session): nat { if s.ending == Running then 0 else 1 }

  ghost predicate Conserved(s: Session) {
    Count(StartedTurns, s) == Count(FinishedTurns, s) + |s.pending| + Abandoned(s)
  }

  lemma ReplyCounts(s: Session, key: string, accepted: bool, draw: Draw)
    requires s.ending == Running
    ensures var next := TakeReply(s, key, accepted, draw);
            && ReplyShows(StartedTurns, s, key, accepted, draw) == []
            && |s.pending| == |ReplyShows(FinishedTurns, s, key, accepted, draw)| + |next.pending| + Abandoned(next)
  {
    hide FinishTurn, EditOf;
    if key in s.pending {
      assert s.pending.Keys == (s.pending - {key}).Keys + {key};
      assert |s.pending| == |s.pending.Keys| && |s.pending - {key}| == |(s.pending - {key}).Keys|;
    }
  }

  lemma TurnSizes(setup: Setup, id: Json, params: Json, draw: Draw)
    ensures |TurnShows(StartedTurns, setup, params, id, draw)| == 1
    ensures |TurnShows(FinishedTurns, setup, params, id, draw)|
         == if setup.scenario == Crash || setup.scenario == Approval || Breaks(TargetOf(setup, params, draw), draw) then 0 else 1
  {
    hide ThreadOf, TargetOf;
  }

  lemma TurnCounts(setup: Setup, s: Session, id: Json, params: Json, draw: Draw)
    requires s.ending == Running && draw.approval !in s.pending
    ensures var next := StartTurn(setup, s, id, params, draw);
            && |TurnShows(StartedTurns, setup, params, id, draw)| + |s.pending|
               == |TurnShows(FinishedTurns, setup, params, id, draw)| + |next.pending| + Abandoned(next)
  {
    hide FinishTurn, EditOf, ThreadOf, TargetOf, TurnTail, TurnShows;
    TurnSizes(setup, id, params, draw);
    var next := StartTurn(setup, s, id, params, draw);
    if setup.scenario == Approval { assert next.pending.Keys == s.pending.Keys + {draw.approval}; }
    assert |s.pending| == |s.pending.Keys| && |next.pending| == |next.pending.Keys|;
  }

  lemma LineCounts(setup: Setup, s: Session, input: Input)
    requires s.ending == Running && (Starts(setup, input) ==> input.draw.approval !in s.pending)
    ensures var next := Step(setup, s, input);
            |LineShows(StartedTurns, setup, s, input)| + |s.pending|
            == |LineShows(FinishedTurns, setup, s, input)| + |next.pending| + Abandoned(next)
  {
    hide Classify, TakeReply, StartTurn, ReplyShows, TurnShows, InterruptedTurn;
    match Classify(setup, input.line) {
      case Skipped =>
      case Reply(key, accepted) => ReplyCounts(s, key, accepted, input.draw);
      case Request(id, name, params) =>
        if name == TurnStart { TurnCounts(setup, s, id, params, input.draw); }
    }
  }

  /** In every run, started turns are the finished, the held and the abandoned ones. */
  lemma {:induction false} TurnsConserved(setup: Setup, inputs: seq<Input>)
    requires Fresh(inputs)
    ensures Conserved(Run(setup, inputs))
  {
    if inputs == [] {
      ShowsNothing(StartedTurns);
      ShowsNothing(FinishedTurns);
    } else {
      var front, last := inputs[..|inputs| - 1], inputs[|inputs| - 1];
      var s := Run(setup, front);
      TurnsConserved(setup, front);
      RunOriginates(setup, front);
      hide Step, Shows, LineShows, Starts;
      if s.ending != Running {
        StepEnded(setup, s, last);
      } else {
        StepShows(StartedTurns, setup, s, last);
        StepShows(FinishedTurns, setup, s, last);
        assert forall j :: 0 <= j < |front| ==> front[j].draw.approval != last.draw.approval;
        LineCounts(setup, s, last);
      }
    }
  }

  // ------------------------------------------------------------ the fate of every turn

  /** The decision of the first reply, after line i, to the approval that line i drew. */
  function Verdict(setup: Setup, inputs: seq<Input>, i: nat): Option<bool>
    requires i < |inputs|
  {
    if i == |inputs| - 1 then None
    else
      var earlier := Verdict(setup, inputs[..|inputs| - 1], i);
      if earlier.Some? then earlier
      else
        match Classify(setup, inputs[|inputs| - 1].line)
        case Reply(key, accepted) => if key == inputs[i].draw.approval then Some(accepted) else None
        case _ => None
  }

  /** Whether the turn of line i may end, and how: outside the approval scenario at once. */
  function Decision(setup: Setup, inputs: seq<Input>, i: nat): Option<bool>
    requires i < |inputs|
  {
    if setup.scenario == Approval then Verdict(setup, inputs, i) else Some(true)
  }

  function OwnTarget(setup: Setup, input: Input): Option<string>
    requires Starts(setup, input)
  {
    TargetOf(setup, Classify(setup, input.line).params, input.draw)
  }

  ghost predicate Held(setup: Setup, input: Input, s: Session)
    requires Starts(setup, input)
  {
    && input.draw.approval in s.pending
    && s.pending[input.draw.approval].turn == input.draw.turn
    && s.pending[input.draw.approval].target == OwnTarget(setup, input)
  }

  /** Statuses sent and edits made for a turn, given the decision about it. */
  ghost predicate Fate(setup: Setup, input: Input, decision: Option<bool>, s: Session)
    requires Starts(setup, input)
  {
    var turn := input.draw.turn;
    var statuses, edits := Shows(StatusesOf(turn), s.out), Shows(EditsOf(turn), s.out);
    match decision
    case None => Held(setup, input, s) && statuses == [] && edits == []
    case Some(accepted) =>
      && input.draw.approval !in s.pending
      && statuses == [Ended(if accepted then Completed else Failed)]
      && edits == if accepted && OwnTarget(setup, input).Some? then [Path(OwnTarget(setup, input).value)] else []
  }

  /** No line started this turn. */
  ghost predicate Unstarted(setup: Setup, inputs: seq<Input>, turn: string) {
    forall j :: 0 <= j < |inputs| && Starts(setup, inputs[j]) ==> inputs[j].draw.turn != turn
  }

  predicate About(v: View, turn: string) { v == StatusesOf(turn) || v == EditsOf(turn) }

  /** A line that neither starts the turn nor answers for it shows nothing about it. */
  lemma OtherLine(setup: Setup, s: Session, input: Input, turn: string, v: View)
    requires About(v, turn)
    requires Starts(setup, input) ==> input.draw.turn != turn
    requires var kind := Classify(setup, input.line); kind.Reply? && kind.key in s.pending ==> s.pending[kind.key].turn != turn
    ensures LineShows(v, setup, s, input) == []
  {
    hide Classify, ThreadOf, TargetOf;
  }

  lemma {:induction false} UnstartedStays(setup: Setup, inputs: seq<Input>, turn: string, v: View)
    requires Unstarted(setup, inputs, turn) && About(v, turn)
    ensures Shows(v, Run(setup, inputs).out) == []
  {
    ShowsNothing(v);
    if inputs != [] {
      var front, last := inputs[..|inputs| - 1], inputs[|inputs| - 1];
      assert inputs == front + [last];
      var s := Run(setup, front);
      UnstartedStays(setup, front, turn, v);
      RunOriginates(setup, front);
      hide Step, Shows, LineShows, Starts, Classify, About;
      if s.ending != Running {
        StepEnded(setup, s, last);
      } else {
        StepShows(v, setup, s, last);
        OtherLine(setup, s, last, turn, v);
      }
    }
  }

  lemma StepRunning(setup: Setup, s: Session, input: Input)
    ensures Step(setup, s, input).ending == Running ==> s.ending == Running
  {
    hide Classify, TakeReply, TakeRequest;
  }

  /** The line that starts a turn. */
  lemma FateAtStart(setup: Setup, s: Session, input: Input)
    requires Starts(setup, input) && s.ending == Running && Step(setup, s, input).ending == Running
    requires forall v :: About(v, input.draw.turn) ==> Shows(v, s.out) == []
    requires input.draw.approval !in s.pending
    ensures Fate(setup, input, if setup.scenario == Approval then None else Some(true), Step(setup, s, input))
  {
    var turn := input.draw.turn;
    var st, ed := StatusesOf(turn), EditsOf(turn);
    StepShows(st, setup, s, input);
    StepShows(ed, setup, s, input);
    StepPending(setup, s, input);
    assert About(st, turn) && About(ed, turn);
    StartLine(setup, s, input, st);
    StartLine(setup, s, input, ed);
    hide Step, Shows, LineShows, Classify, TargetOf, ThreadOf;
  }

  lemma StartLine(setup: Setup, s: Session, input: Input, v: View)
    requires Starts(setup, input) && s.ending == Running && Step(setup, s, input).ending == Running
    requires About(v, input.draw.turn)
    ensures LineShows(v, setup, s, input)
         == if setup.scenario == Approval then []
            else if v.StatusesOf? then [Ended(Completed)]
            else if OwnTarget(setup, input).Some? then [Path(OwnTarget(setup, input).value)]
            else []
  {
    hide Classify, ThreadOf, TargetOf, TurnTail;
  }

  /** A line about other turns changes nothing. */
  lemma FateStays(setup: Setup, s: Session, input: Input, own: Input, decision: Option<bool>)
    requires Starts(setup, own) && s.ending == Running && Fate(setup, own, decision, s)
    requires input.draw.turn != own.draw.turn && input.draw.approval != own.draw.approval
    requires var kind := Classify(setup, input.line);
             kind.Reply? ==> kind.key != own.draw.approval && (kind.key in s.pending ==> s.pending[kind.key].turn != own.draw.turn)
    ensures Fate(setup, own, decision, Step(setup, s, input))
  {
    hide Step, Shows, LineShows, Classify, TargetOf, ThreadOf;
    var turn := own.draw.turn;
    var st, ed := StatusesOf(turn), EditsOf(turn);
    StepShows(st, setup, s, input);
    StepShows(ed, setup, s, input);
    OtherLine(setup, s, input, turn, st);
    OtherLine(setup, s, input, turn, ed);
    StepPending(setup, s, input);
  }

  lemma ReplyLine(setup: Setup, s: Session, input: Input, own: Input, v: View)
    requires Starts(setup, own) && Held(setup, own, s) && About(v, own.draw.turn)
    requires s.ending == Running && Step(setup, s, input).ending == Running
    requires var kind := Classify(setup, input.line); kind.Reply? && kind.key == own.draw.approval
    ensures var accepted := Classify(setup, input.line).accepted;
            LineShows(v, setup, s, input)
            == if v.StatusesOf? then [Ended(if accepted then Completed else Failed)]
               else if accepted && OwnTarget(setup, own).Some? then [Path(OwnTarget(setup, own).value)]
               else []
  {
    hide Classify, ThreadOf, TargetOf, TakeRequest;
  }

  /** The reply that names a held turn's approval ends it. */
  lemma FateDecided(setup: Setup, s: Session, input: Input, own: Input)
    requires Starts(setup, own) && s.ending == Running && Step(setup, s, input).ending == Running
    requires Fate(setup, own, None, s)
    requires var kind := Classify(setup, input.line); kind.Reply? && kind.key == own.draw.approval
    ensures Fate(setup, own, Some(Classify(setup, input.line).accepted), Step(setup, s, input))
  {
    hide Step, Shows, LineShows, Classify, TargetOf, ThreadOf;
    var turn := own.draw.turn;
    var st, ed := StatusesOf(turn), EditsOf(turn);
    StepShows(st, setup, s, input);
    StepShows(ed, setup, s, input);
    StepPending(setup, s, input);
    ReplyLine(setup, s, input, own, st);
    ReplyLine(setup, s, input, own, ed);
  }

  /**
    In every running session with fresh identifiers, each started turn is held while its
    approval is unanswered and ends once, by the first reply to that approval: its status
    says whether that reply accepted, and its file is edited once exactly if it did.
   */
  lemma {:induction false} TurnFate(setup: Setup, inputs: seq<Input>, i: nat)
    requires Fresh(inputs) && Run(setup, inputs).ending == Running
    requires i < |inputs| && Starts(setup, inputs[i])
    ensures Fate(setup, inputs[i], Decision(setup, inputs, i), Run(setup, inputs))
  {
    var front, last := inputs[..|inputs| - 1], inputs[|inputs| - 1];
    var s := Run(setup, front);
    StepRunning(setup, s, last);
    RunOriginates(setup, front);
    assert Run(setup, inputs) == Step(setup, s, last);
    assert forall j :: 0 <= j < |front| ==> front[j] == inputs[j];
    hide Step, Starts, Classify, Fate, Run;
    if i == |front| {
      assert forall j :: 0 <= j < |front| ==> front[j].draw.turn != last.draw.turn && front[j].draw.approval != last.draw.approval;
      forall v | About(v, last.draw.turn) ensures Shows(v, s.out) == [] { UnstartedStays(setup, front, last.draw.turn, v); }
      FateAtStart(setup, s, last);
    } else {
      TurnFate(setup, front, i);
      FateStep(setup, inputs, i);
    }
  }

  lemma FateStep(setup: Setup, inputs: seq<Input>, i: nat)
    requires Fresh(inputs) && i < |inputs| - 1 && Starts(setup, inputs[i])
    requires var front := inputs[..|inputs| - 1];
             && Run(setup, front).ending == Running && Run(setup, inputs).ending == Running
             && Originates(setup, front, Run(setup, front))
             && Fate(setup, inputs[i], Decision(setup, front, i), Run(setup, front))
    ensures Fate(setup, inputs[i], Decision(setup, inputs, i), Run(setup, inputs))
  {
    var front, last := inputs[..|inputs| - 1], inputs[|inputs| - 1];
    var s, own := Run(setup, front), inputs[i];
    assert Run(setup, inputs) == Step(setup, s, last);
    var kind := Classify(setup, last.line);
    hide Step, Classify, Run, Starts;
    if kind.Reply? && kind.key in s.pending {
      var j :| Origin(setup, front, kind.key, s.pending[kind.key], j);
      assert front[j] == inputs[j];
      if j == i {
        FateDecided(setup, s, last, own);
      } else {
        FateStays(setup, s, last, own, Decision(setup, front, i));
      }
    } else if kind.Reply? && kind.key == own.draw.approval {
      UnheldReply(setup, s, last);
    } else {
      FateStays(setup, s, last, own, Decision(setup, front, i));
    }
  }

  lemma UnheldReply(setup: Setup, s: Session, input: Input)
    requires var kind := Classify(setup, input.line); kind.Reply? && kind.key !in s.pending
    ensures Step(setup, s, input) == s
  {
  }

  // ------------------------------------------------------------------------ interrupts

  predicate Interrupts(setup: Setup, input: Input, turn: string) {
    var kind := Classify(setup, input.line);
    kind.Request? && kind.name == TurnInterrupt && NamedTurn(kind.params) == Some(turn)
  }

  function InterruptCount(setup: Setup, inputs: seq<Input>, turn: string): nat {
    if inputs == [] then 0
    else InterruptCount(setup, inputs[..|inputs| - 1], turn) + if Interrupts(setup, inputs[|inputs| - 1], turn) then 1 else 0
  }

  lemma LineCompletions(setup: Setup, s: Session, input: Input, turn: string)
    ensures |LineShows(CompletionsOf(turn), setup, s, input)|
         == |LineShows(StatusesOf(turn), setup, s, input)| + if Interrupts(setup, input, turn) then 1 else 0
  {
    hide Classify, NamedTurn, ThreadOf, TargetOf;
  }

  lemma {:induction false} CompletionsCounted(setup: Setup, inputs: seq<Input>, turn: string)
    requires Run(setup, inputs).ending == Running
    ensures Count(CompletionsOf(turn), Run(setup, inputs))
         == Count(StatusesOf(turn), Run(setup, inputs)) + InterruptCount(setup, inputs, turn)
  {
    hide Step, Shows, LineShows, Interrupts;
    if inputs == [] {
      ShowsNothing(CompletionsOf(turn));
      ShowsNothing(StatusesOf(turn));
    } else {
      var front, last := inputs[..|inputs| - 1], inputs[|inputs| - 1];
      var s := Run(setup, front);
      StepRunning(setup, s, last);
      CompletionsCounted(setup, front, turn);
      StepShows(CompletionsOf(turn), setup, s, last);
      StepShows(StatusesOf(turn), setup, s, last);
      LineCompletions(setup, s, last, turn);
    }
  }

  /**
    An interrupt announces completion but leaves the turn held, so a turn is announced as
    completed once for its decision and once more for every interrupt that names it.
   */
  lemma AnnouncedOnceUnlessInterrupted(setup: Setup, inputs: seq<Input>, i: nat)
    requires Fresh(inputs) && Run(setup, inputs).ending == Running
    requires i < |inputs| && Starts(setup, inputs[i])
    ensures Count(CompletionsOf(inputs[i].draw.turn), Run(setup, inputs))
         == (if Decision(setup, inputs, i).Some? then 1 else 0) + InterruptCount(setup, inputs, inputs[i].draw.turn)
  {
    CompletionsCounted(setup, inputs, inputs[i].draw.turn);
    TurnFate(setup, inputs, i);
    hide Shows, Run, Decision, InterruptCount, Starts;
  }

  // ------------------------------------------------------------------- announced twice

  function Plainly(turn: string, approval: string): Draw { Draw("h", turn, approval, "i", false, true) }

  /** A turn is started, interrupted, and then approved. */
  function Beginning(): Input {
    Input(Parsed(Object([Field("method", Text("turn/start")), Field("id", Number("1"))])), Plainly("t", "t-approval"))
  }

  function Interruption(): Input {
    Input(Parsed(Object([Field("method", Text("turn/interrupt")), Field("id", Number("2")),
                         Field("params", Object([Field("threadId", Text("h")), Field("turnId", Text("t"))]))])), Plainly("u", "u-approval"))
  }

  function Approving(): Input {
    Input(Parsed(Object([Field("id", Text("t-approval")), Field("result", Object([Field("decision", Text("accept"))]))])), Plainly("v", "v-approval"))
  }

  lemma FirstField(fields: seq<Field>, key: string)
    requires fields != []
    ensures fields[0].key == key ==> Get(Object(fields), key) == Some(fields[0].value)
    ensures fields[0].key != key ==> Get(Object(fields), key) == Get(Object(fields[1..]), key)
  {
    if fields[0].key == key {
      assert key in Keys(fields);
    } else {
      if key in Keys(fields) {
        var i :| 0 <= i < |fields| && fields[i].key == key;
        assert fields[1..][i - 1] == fields[i];
      }
      assert key in Keys(fields[1..]) ==> key in Keys(fields) by {
        if key in Keys(fields[1..]) {
          var i :| 0 <= i < |fields[1..]| && fields[1..][i].key == key;
          assert fields[i + 1].key == key;
        }
      }
    }
  }

  lemma NoField(key: string)
    ensures Get(Object([]), key) == None
  {}

  lemma ReadsStart(setup: Setup)
    ensures Classify(setup, Beginning().line) == Request(Number("1"), TurnStart, Object([]))
  {
    var f := [Field("method", Text("turn/start")), Field("id", Number("1"))];
    FirstField(f, "method");
    FirstField(f, "id");
    FirstField(f[1..], "id");
    FirstField(f, "params");
    FirstField(f[1..], "params");
    assert f[1..][1..] == [];
    NoField("params");
  }

  lemma ReadsInterrupt(setup: Setup)
    ensures Interrupts(setup, Interruption(), "t")
  {
    var p := [Field("threadId", Text("h")), Field("turnId", Text("t"))];
    var f := [Field("method", Text("turn/interrupt")), Field("id", Number("2")), Field("params", Object(p))];
    FirstField(f, "method");
    FirstField(f, "id");
    FirstField(f[1..], "id");
    FirstField(f, "params");
    FirstField(f[1..], "params");
    assert f[1..][1..] == [f[2]];
    FirstField([f[2]], "params");
    FirstField(p, "threadId");
    FirstField(p, "turnId");
    FirstField(p[1..], "turnId");
  }

  lemma ReadsApproval(setup: Setup)
    ensures Classify(setup, Approving().line) == Reply("t-approval", true)
  {
    var d := [Field("decision", Text("accept"))];
    var f := [Field("id", Text("t-approval")), Field("result", Object(d))];
    FirstField(f, "method");
    FirstField(f[1..], "method");
    assert f[1..][1..] == [];
    NoField("method");
    FirstField(f, "id");
    FirstField(f, "result");
    FirstField(f[1..], "result");
    FirstField(d, "decision");
  }

  /** Only breaking a file edit, or the crash scenario, ends a session. */
  lemma KeepsRunning(setup: Setup, s: Session, input: Input)
    requires s.ending == Running && setup.scenario == Approval
    ensures var kind := Classify(setup, input.line);
            (kind.Reply? && kind.key in s.pending ==> s.pending[kind.key].target.None?) ==> Step(setup, s, input).ending == Running
  {
    hide Classify, FinishTurn, InterruptedTurn, TurnTail, EditOf, ThreadOf, TargetOf;
  }

  lemma RunThree(setup: Setup, a: Input, b: Input, c: Input)
    ensures Run(setup, [a, b, c]) == Step(setup, Step(setup, Step(setup, INITIAL, a), b), c)
    ensures InterruptCount(setup, [a, b, c], a.draw.turn)
         == (if Interrupts(setup, a, a.draw.turn) then 1 else 0) + (if Interrupts(setup, b, a.draw.turn) then 1 else 0)
            + (if Interrupts(setup, c, a.draw.turn) then 1 else 0)
  {
    hide Step, Interrupts;
    var all, two, one := [a, b, c], [a, b], [a];
    assert all[..2] == two && two[..1] == one && one[..0] == [];
    assert Run(setup, []) == INITIAL;
    assert Run(setup, one) == Step(setup, INITIAL, a);
    assert Run(setup, two) == Step(setup, Step(setup, INITIAL, a), b);
    var t := a.draw.turn;
    assert InterruptCount(setup, one, t) == if Interrupts(setup, a, t) then 1 else 0;
    assert InterruptCount(setup, two, t) == InterruptCount(setup, one, t) + if Interrupts(setup, b, t) then 1 else 0;
  }

  lemma VerdictOfThree(setup: Setup, a: Input, b: Input, c: Input)
    requires !Classify(setup, b.line).Reply? && Classify(setup, c.line).Reply? && Classify(setup, c.line).key == a.draw.approval
    ensures Verdict(setup, [a, b, c], 0) == Some(Classify(setup, c.line).accepted)
  {
    hide Classify;
    var all, two, one := [a, b, c], [a, b], [a];
    assert all[..2] == two && two[..1] == one;
    assert Verdict(setup, one, 0) == None;
    assert Verdict(setup, two, 0) == None;
  }

  /** A held turn that is interrupted and then approved is announced as completed twice. */
  lemma InterruptedThenApproved(setup: Setup, a: Input, b: Input, c: Input)
    requires setup.scenario == Approval && Fresh([a, b, c])
    requires Starts(setup, a) && OwnTarget(setup, a).None? && Interrupts(setup, b, a.draw.turn)
    requires Classify(setup, c.line) == Reply(a.draw.approval, true)
    ensures Run(setup, [a, b, c]).ending == Running && Count(CompletionsOf(a.draw.turn), Run(setup, [a, b, c])) == 2
  {
    hide Classify, Step, Count, Fresh, Decision, Run;
    RunThree(setup, a, b, c);
    KeepsRunning(setup, INITIAL, a);
    StepPending(setup, INITIAL, a);
    var s1 := Step(setup, INITIAL, a);
    KeepsRunning(setup, s1, b);
    StepPending(setup, s1, b);
    var s2 := Step(setup, s1, b);
    KeepsRunning(setup, s2, c);
    assert [a, b, c][0] == a;
    AnnouncedOnceUnlessInterrupted(setup, [a, b, c], 0);
    VerdictOfThree(setup, a, b, c);
    DecisionIsVerdict(setup, [a, b, c]);
  }

  lemma DecisionIsVerdict(setup: Setup, inputs: seq<Input>)
    requires setup.scenario == Approval && inputs != []
    ensures Decision(setup, inputs, 0) == Verdict(setup, inputs, 0)
  {}

  /** The same at three concrete lines. */
  lemma AnnouncedTwice(setup: Setup)
    requires setup.scenario == Approval
    ensures Count(CompletionsOf("t"), Run(setup, [Beginning(), Interruption(), Approving()])) == 2
  {
    hide Classify, Beginning, Interruption, Approving, Run, Count, Fresh, Interrupts, OwnTarget, Starts;
    ExampleReads(setup);
    DrawsDiffer();
    InterruptedThenApproved(setup, Beginning(), Interruption(), Approving());
  }

  lemma ExampleReads(setup: Setup)
    ensures Beginning().draw.turn == "t" && Starts(setup, Beginning()) && OwnTarget(setup, Beginning()).None?
    ensures Interrupts(setup, Interruption(), "t") && Classify(setup, Approving().line) == Reply(Beginning().draw.approval, true)
  {
    ReadsStart(setup);
    ReadsInterrupt(setup);
    ReadsApproval(setup);
    hide Classify, Interrupts;
  }

  lemma DrawsDiffer()
    ensures Fresh([Beginning(), Interruption(), Approving()])
  {
    var x, y, z := Beginning().draw, Interruption().draw, Approving().draw;
    assert x.turn[0] == 't' && y.turn[0] == 'u' && z.turn[0] == 'v';
    assert x.approval[0] == 't' && y.approval[0] == 'u' && z.approval[0] == 'v';
    hide Beginning, Interruption, Approving;
  }
}
