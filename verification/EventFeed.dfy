/**
  The event stream: a server cursor over an append-only log, and a client that may lose the
  tail of what was sent and reconnects with the last identifier it saw.
 */
module EventFeed {
  import opened Options

  /** A log row; `serializable` says whether its JSON form can be produced. */
  datatype Row = Row(id: int, run: Option<string>, serializable: bool)

  /** What a subscriber asks for: one run's events or all, and a starting cursor or none. */
  datatype Subscription = Subscription(run: Option<string>, cursor: Option<int>)

  /** Only a domain message carries an event identifier. */
  datatype Message = Domain(row: Row) | SerializationError | Heartbeat(cursor: int) | StreamError

  predicate Matches(r: Row, run: Option<string>) { run.None? || r.run == run }

  predicate Ordered(log: seq<Row>) {
    && (forall i :: 0 <= i < |log| ==> log[i].id > 0)
    && forall i, j :: 0 <= i < j < |log| ==> log[i].id < log[j].id
  }

  // ------------------------------------------------------------------ store queries

  /** Matching rows above a cursor, in log order. */
  function Select(log: seq<Row>, run: Option<string>, after: int): seq<Row> {
    if log == [] then []
    else
      var rest, last := Select(log[..|log| - 1], run, after), log[|log| - 1];
      if last.id > after && Matches(last, run) then rest + [last] else rest
  }

  function Min(a: nat, b: nat): (m: nat)
    ensures m <= a && m <= b && (m == a || m == b)
  {
    if a <= b then a else b
  }

  function Batch(log: seq<Row>, run: Option<string>, after: int, limit: nat): seq<Row> {
    var rows := Select(log, run, after);
    rows[..Min(limit, |rows|)]
  }

  /** The largest matching identifier, or 0. */
  function Latest(log: seq<Row>, run: Option<string>): int {
    if log == [] then 0
    else if Matches(log[|log| - 1], run) then log[|log| - 1].id
    else Latest(log[..|log| - 1], run)
  }

  // --------------------------------------------------------------------- the server

  function Clamp(cursor: int): int { if cursor < 0 then 0 else cursor }

  /** Where a connection starts: the header, else the query, else the present. */
  function Opening(log: seq<Row>, sub: Subscription, header: Option<int>): int {
    if header.Some? then Clamp(header.value)
    else if sub.cursor.Some? then Clamp(sub.cursor.value)
    else Latest(log, sub.run)
  }

  function Messages(rows: seq<Row>): seq<Message> {
    if rows == [] then []
    else Messages(rows[..|rows| - 1]) + [if rows[|rows| - 1].serializable then Domain(rows[|rows| - 1]) else SerializationError]
  }

  function Advance(cursor: int, rows: seq<Row>): int { if rows == [] then cursor else rows[|rows| - 1].id }

  /** One turn of the server's loop. */
  function Sent(log: seq<Row>, run: Option<string>, cursor: int, limit: nat, readable: bool, beat: bool): seq<Message> {
    if !readable then [StreamError]
    else if Batch(log, run, cursor, limit) != [] then Messages(Batch(log, run, cursor, limit))
    else if beat then [Heartbeat(cursor)]
    else []
  }

  function Moved(log: seq<Row>, run: Option<string>, cursor: int, limit: nat, readable: bool): int {
    if readable then Advance(cursor, Batch(log, run, cursor, limit)) else cursor
  }

  class Stream {
    const sub: Subscription
    const limit: nat
    var cursor: int

    constructor (log: seq<Row>, sub: Subscription, header: Option<int>, limit: nat)
      ensures this.sub == sub && this.limit == limit && cursor == Opening(log, sub, header)
      ensures header.Some? ==> cursor == if header.value < 0 then 0 else header.value
      ensures header.None? && sub.cursor.Some? ==> cursor == if sub.cursor.value < 0 then 0 else sub.cursor.value
    {
      this.sub, this.limit := sub, limit;
      cursor := match (if header.Some? then header else sub.cursor)
        case Some(c) => Clamp(c)
        case None => Latest(log, sub.run);
    }

    method Turn(log: seq<Row>, readable: bool, beat: bool) returns (sent: seq<Message>)
      modifies this
      ensures sent == Sent(log, sub.run, old(cursor), limit, readable, beat)
      ensures cursor == Moved(log, sub.run, old(cursor), limit, readable)
    {
      sent := [];
      if !readable { return [StreamError]; }
      var events := Batch(log, sub.run, cursor, limit);
      if events == [] {
        if beat { sent := [Heartbeat(cursor)]; }
        return;
      }
      for i := 0 to |events|
        invariant sent == Messages(events[..i])
        invariant cursor == Advance(old(cursor), events[..i])
      {
        cursor := events[i].id;
        assert events[..i + 1][..i] == events[..i];
        sent := sent + [if events[i].serializable then Domain(events[i]) else SerializationError];
      }
      assert events[..|events|] == events;
    }
  }

  // ---------------------------------------------------------------- windows of a log

  predicate InWindow(r: Row, run: Option<string>, lo: int, hi: int) {
    lo < r.id <= hi && Matches(r, run) && r.serializable
  }

  /** The rows a subscriber is owed between two cursors. */
  function Window(log: seq<Row>, run: Option<string>, lo: int, hi: int): seq<Row> {
    if log == [] then []
    else
      var rest, last := Window(log[..|log| - 1], run, lo, hi), log[|log| - 1];
      if InWindow(last, run, lo, hi) then rest + [last] else rest
  }

  function Serializable(rows: seq<Row>): seq<Row> {
    if rows == [] then []
    else
      var rest, last := Serializable(rows[..|rows| - 1]), rows[|rows| - 1];
      if last.serializable then rest + [last] else rest
  }

  lemma {:induction false} WindowMembers(log: seq<Row>, run: Option<string>, lo: int, hi: int, r: Row)
    ensures r in Window(log, run, lo, hi) <==> r in log && InWindow(r, run, lo, hi)
  {
    if log != [] {
      assert log == log[..|log| - 1] + [log[|log| - 1]];
      WindowMembers(log[..|log| - 1], run, lo, hi, r);
    }
  }

  /** A window holds each of its rows once, in log order. */
  lemma {:induction false} WindowOrdered(log: seq<Row>, run: Option<string>, lo: int, hi: int)
    requires Ordered(log)
    ensures Ordered(Window(log, run, lo, hi))
  {
    if log != [] {
      var front := log[..|log| - 1];
      WindowOrdered(front, run, lo, hi);
      var w := Window(front, run, lo, hi);
      forall i | 0 <= i < |w| ensures w[i].id < log[|log| - 1].id {
        assert w[i] in w;
        WindowMembers(front, run, lo, hi, w[i]);
      }
    }
  }

  lemma {:induction false} WindowEmpty(log: seq<Row>, run: Option<string>, lo: int, hi: int)
    requires forall r :: r in log ==> r.id <= lo || r.id > hi
    ensures Window(log, run, lo, hi) == []
  {
    if log != [] { WindowEmpty(log[..|log| - 1], run, lo, hi); }
  }

  lemma {:induction false} WindowSplit(log: seq<Row>, run: Option<string>, lo: int, mid: int, hi: int)
    requires Ordered(log) && lo <= mid <= hi
    ensures Window(log, run, lo, hi) == Window(log, run, lo, mid) + Window(log, run, mid, hi)
  {
    if log != [] {
      var front, last := log[..|log| - 1], log[|log| - 1];
      WindowSplit(front, run, lo, mid, hi);
      if last.id <= mid { WindowEmpty(front, run, mid, hi); }
    }
  }

  /** Only identifiers up to the largest of the log matter. */
  lemma {:induction false} WindowToEnd(log: seq<Row>, run: Option<string>, lo: int, hi: int)
    requires forall r :: r in log ==> r.id <= hi
    ensures Window(log, run, lo, hi) == Serializable(Select(log, run, lo))
  {
    if log != [] { WindowToEnd(log[..|log| - 1], run, lo, hi); }
  }

  lemma {:induction false} SelectMembers(log: seq<Row>, run: Option<string>, after: int, r: Row)
    ensures r in Select(log, run, after) <==> r in log && r.id > after && Matches(r, run)
  {
    if log != [] {
      assert log == log[..|log| - 1] + [log[|log| - 1]];
      SelectMembers(log[..|log| - 1], run, after, r);
    }
  }

  /** The first rows of a selection are exactly what lies between the cursor and the last of them. */
  lemma {:induction false} PrefixIsWindow(log: seq<Row>, run: Option<string>, after: int, k: nat)
    requires Ordered(log) && 0 < k <= |Select(log, run, after)|
    ensures var rows := Select(log, run, after);
            Serializable(rows[..k]) == Window(log, run, after, rows[k - 1].id)
  {
    var front, last := log[..|log| - 1], log[|log| - 1];
    var rows, before := Select(log, run, after), Select(front, run, after);
    if k <= |before| {
      PrefixIsWindow(front, run, after, k);
      assert rows[..k] == before[..k];
      assert before[k - 1] in before;
      SelectMembers(front, run, after, before[k - 1]);
    } else {
      assert rows[..k] == rows && rows[..|rows| - 1] == before;
      WindowToEnd(log, run, after, last.id);
    }
  }

  /** What was received before a loss is the window up to the last row received. */
  lemma {:induction false} ReceivedIsWindow(log: seq<Row>, run: Option<string>, lo: int, hi: int, a: seq<Row>, b: seq<Row>)
    requires Ordered(log) && Window(log, run, lo, hi) == a + b && a != []
    ensures lo < a[|a| - 1].id <= hi
    ensures Window(log, run, lo, a[|a| - 1].id) == a
  {
    var c := a[|a| - 1].id;
    assert (a + b)[|a| - 1] == a[|a| - 1];
    WindowMembers(log, run, lo, hi, a[|a| - 1]);
    WindowOrdered(log, run, lo, hi);
    WindowSplit(log, run, lo, c, hi);
    var x, y := Window(log, run, lo, c), Window(log, run, c, hi);
    if |x| < |a| {
      assert a[|a| - 1] == (x + y)[|a| - 1] == y[|a| - 1 - |x|];
      WindowMembers(log, run, c, hi, a[|a| - 1]);
    } else if |x| > |a| {
      assert x[|a|] == (x + y)[|a|] && (x + y)[|a|].id > (x + y)[|a| - 1].id;
      WindowMembers(log, run, lo, c, x[|a|]);
    }
    assert x == (x + y)[..|x|] && a == (a + b)[..|a|];
  }

  lemma {:induction false} LatestIsLast(log: seq<Row>, run: Option<string>)
    requires Ordered(log)
    ensures Latest(log, run) >= 0
    ensures forall r :: r in log && Matches(r, run) ==> r.id <= Latest(log, run)
    ensures Latest(log, run) == 0 || exists r :: r in log && Matches(r, run) && r.id == Latest(log, run)
  {
    hide Matches;
    if log != [] {
      var init, last := log[..|log| - 1], log[|log| - 1];
      assert log == init + [last];
      LatestIsLast(init, run);
      forall r | r in init ensures r.id < last.id {
        var i :| 0 <= i < |init| && init[i] == r;
        assert log[i] == r;
      }
      if Matches(last, run) { assert last in log; }
    }
  }

  // --------------------------------------------------------------- server and client

  /**
    `queue` holds what was sent and not yet received; `base` is where the current unbroken
    delivery began.
   */
  datatype State = State(log: seq<Row>, base: int, cursor: int, queue: seq<Message>, lastId: Option<int>, received: seq<Row>)

  datatype Action =
    | Append(gap: nat, run: Option<string>, serializable: bool)
    | Turn(readable: bool, beat: bool)
    | Receive
    | Reconnect

  function LastId(log: seq<Row>): int { if log == [] then 0 else log[|log| - 1].id }

  /** The client forgets a lost queue and presents the last identifier it saw, if any. */
  function Step(s: State, sub: Subscription, limit: nat, a: Action): State {
    match a
    case Append(gap, run, serializable) => s.(log := s.log + [Row(LastId(s.log) + 1 + gap, run, serializable)])
    case Turn(readable, beat) =>
      s.(cursor := Moved(s.log, sub.run, s.cursor, limit, readable),
         queue := s.queue + Sent(s.log, sub.run, s.cursor, limit, readable, beat))
    case Receive =>
      if s.queue == [] then s
      else
        (match s.queue[0]
         case Domain(row) => s.(queue := s.queue[1..], lastId := Some(row.id), received := s.received + [row])
         case _ => s.(queue := s.queue[1..]))
    case Reconnect =>
      var cursor := Opening(s.log, sub, s.lastId);
      s.(cursor := cursor, queue := [], base := if s.received == [] then cursor else s.base)
  }

  function Init(log: seq<Row>, sub: Subscription, header: Option<int>): State {
    State(log, Opening(log, sub, header), Opening(log, sub, header), [], header, [])
  }

  function Run(s: State, sub: Subscription, limit: nat, actions: seq<Action>): State {
    if actions == [] then s
    else Step(Run(s, sub, limit, actions[..|actions| - 1]), sub, limit, actions[|actions| - 1])
  }

  function RowOf(m: Message): seq<Row> { if m.Domain? then [m.row] else [] }

  function Rows(queue: seq<Message>): seq<Row> {
    if queue == [] then [] else RowOf(queue[0]) + Rows(queue[1..])
  }

  lemma {:induction false} RowsAppend(a: seq<Message>, b: seq<Message>)
    ensures Rows(a + b) == Rows(a) + Rows(b)
  {
    hide RowOf;
    if a == [] {
      assert a + b == b;
    } else {
      assert (a + b)[0] == a[0] && (a + b)[1..] == a[1..] + b;
      RowsAppend(a[1..], b);
    }
  }

  lemma {:induction false} RowsOfMessages(rows: seq<Row>)
    ensures Rows(Messages(rows)) == Serializable(rows)
  {
    if rows != [] {
      var front := rows[..|rows| - 1];
      var m := if rows[|rows| - 1].serializable then Domain(rows[|rows| - 1]) else SerializationError;
      RowsOfMessages(front);
      RowsAppend(Messages(front), [m]);
      assert [m][1..] == [] && Rows([m]) == RowOf(m);
    }
  }

  // -------------------------------------------------------------------- the promise

  /** Everything sent since `base`, received or under way, is what the subscriber is owed. */
  ghost predicate Delivers(s: State, sub: Subscription, header: Option<int>) {
    && Ordered(s.log)
    && 0 <= s.base <= s.cursor
    && (s.cursor == s.base || s.cursor <= LastId(s.log))
    && s.received + Rows(s.queue) == Window(s.log, sub.run, s.base, s.cursor)
    && s.lastId == (if s.received == [] then header else Some(s.received[|s.received| - 1].id))
  }

  /** New rows land above the window, or before the start of one that is still empty. */
  lemma AppendDelivers(s: State, sub: Subscription, header: Option<int>, limit: nat, a: Action)
    requires Delivers(s, sub, header) && a.Append?
    ensures Delivers(Step(s, sub, limit, a), sub, header)
  {
    hide Window, Rows;
    var row := Row(LastId(s.log) + 1 + a.gap, a.run, a.serializable);
    OrderedAppend(s.log, row);
    WindowAppend(s.log, sub.run, s.base, s.cursor, row);
  }

  lemma OrderedAppend(log: seq<Row>, row: Row)
    requires Ordered(log) && row.id > LastId(log)
    ensures Ordered(log + [row])
  {
  }

  lemma WindowAppend(log: seq<Row>, run: Option<string>, lo: int, hi: int, row: Row)
    ensures row.id > hi || lo >= hi ==> Window(log + [row], run, lo, hi) == Window(log, run, lo, hi)
  {
    assert (log + [row])[..|log|] == log;
  }

  lemma SentRows(log: seq<Row>, run: Option<string>, cursor: int, limit: nat, readable: bool, beat: bool)
    requires Ordered(log)
    ensures var moved := Moved(log, run, cursor, limit, readable);
            && moved >= cursor && (moved == cursor || moved <= LastId(log))
            && Rows(Sent(log, run, cursor, limit, readable, beat)) == Window(log, run, cursor, moved)
  {
    var batch := Batch(log, run, cursor, limit);
    if readable && batch != [] {
      var k, rows := |batch|, Select(log, run, cursor);
      RowsOfMessages(batch);
      PrefixIsWindow(log, run, cursor, k);
      SelectMembers(log, run, cursor, rows[k - 1]);
    } else {
      WindowEmpty(log, run, cursor, cursor);
      var sent := Sent(log, run, cursor, limit, readable, beat);
      assert |sent| == 1 ==> sent[1..] == [];
    }
  }

  lemma TurnDelivers(s: State, sub: Subscription, header: Option<int>, limit: nat, a: Action)
    requires Delivers(s, sub, header) && a.Turn?
    ensures Delivers(Step(s, sub, limit, a), sub, header)
  {
    hide Sent, Moved, Window, Rows, Ordered;
    SentRows(s.log, sub.run, s.cursor, limit, a.readable, a.beat);
    var sent, moved := Sent(s.log, sub.run, s.cursor, limit, a.readable, a.beat), Moved(s.log, sub.run, s.cursor, limit, a.readable);
    RowsAppend(s.queue, sent);
    WindowSplit(s.log, sub.run, s.base, s.cursor, moved);
  }

  lemma ReceiveDelivers(s: State, sub: Subscription, header: Option<int>, limit: nat)
    requires Delivers(s, sub, header)
    ensures Delivers(Step(s, sub, limit, Receive), sub, header)
  {
    hide Window;
  }

  lemma ReconnectDelivers(s: State, sub: Subscription, header: Option<int>, limit: nat)
    requires Delivers(s, sub, header)
    ensures Delivers(Step(s, sub, limit, Reconnect), sub, header)
  {
    var next := Step(s, sub, limit, Reconnect);
    if s.received == [] {
      WindowEmpty(s.log, sub.run, next.cursor, next.cursor);
      LatestIsLast(s.log, sub.run);
    } else {
      ReceivedIsWindow(s.log, sub.run, s.base, s.cursor, s.received, Rows(s.queue));
      assert next.cursor == s.received[|s.received| - 1].id;
      assert s.received + Rows([]) == s.received;
    }
  }

  lemma {:induction false} RunDelivers(log: seq<Row>, sub: Subscription, header: Option<int>, limit: nat, actions: seq<Action>)
    requires Ordered(log)
    ensures Delivers(Run(Init(log, sub, header), sub, limit, actions), sub, header)
  {
    var start := Init(log, sub, header);
    if actions == [] {
      WindowEmpty(log, sub.run, start.cursor, start.cursor);
      LatestIsLast(log, sub.run);
    } else {
      var s, a := Run(start, sub, limit, actions[..|actions| - 1]), actions[|actions| - 1];
      RunDelivers(log, sub, header, limit, actions[..|actions| - 1]);
      hide Delivers, Init;
      match a {
        case Append(_, _, _) => AppendDelivers(s, sub, header, limit, a);
        case Turn(_, _) => TurnDelivers(s, sub, header, limit, a);
        case Receive => ReceiveDelivers(s, sub, header, limit);
        case Reconnect => ReconnectDelivers(s, sub, header, limit);
      }
    }
  }

  /** A subscription that names a place, or a client that already has, never moves its base. */
  predicate Named(sub: Subscription, header: Option<int>) { header.Some? || sub.cursor.Some? }

  lemma LatestGrows(s: State, sub: Subscription, limit: nat, a: Action)
    requires Ordered(s.log)
    ensures Latest(Step(s, sub, limit, a).log, sub.run) >= Latest(s.log, sub.run)
  {
    if a.Append? {
      assert Step(s, sub, limit, a).log[..|s.log|] == s.log;
      LatestBelow(s.log, sub.run);
    }
  }

  lemma {:induction false} BaseMoves(log: seq<Row>, sub: Subscription, header: Option<int>, limit: nat, actions: seq<Action>)
    requires Ordered(log)
    ensures Run(Init(log, sub, header), sub, limit, actions).base >= Opening(log, sub, header)
    ensures Named(sub, header) ==> Run(Init(log, sub, header), sub, limit, actions).base == Opening(log, sub, header)
    ensures Latest(Run(Init(log, sub, header), sub, limit, actions).log, sub.run) >= Latest(log, sub.run)
  {
    hide Latest, Window, Rows, Moved, Sent;
    if actions != [] {
      var front := actions[..|actions| - 1];
      BaseMoves(log, sub, header, limit, front);
      RunDelivers(log, sub, header, limit, front);
      LatestGrows(Run(Init(log, sub, header), sub, limit, front), sub, limit, actions[|actions| - 1]);
    }
  }

  lemma LatestBelow(log: seq<Row>, run: Option<string>)
    requires Ordered(log)
    ensures Latest(log, run) <= LastId(log)
  {
    LatestIsLast(log, run);
  }

  /**
    Over every run, what the client has received and what is under way are the rows owed
    since the first connection, in order, none missing and none twice, exactly when no owed
    row lies between the first cursor and the base.
   */
  lemma DeliveryExact(log: seq<Row>, sub: Subscription, header: Option<int>, limit: nat, actions: seq<Action>)
    requires Ordered(log)
    ensures var s, origin := Run(Init(log, sub, header), sub, limit, actions), Opening(log, sub, header);
            && Ordered(s.received + Rows(s.queue))
            && (s.received + Rows(s.queue) == Window(s.log, sub.run, origin, s.cursor)
                <==> Window(s.log, sub.run, origin, s.base) == [])
            && (Named(sub, header) ==> s.received + Rows(s.queue) == Window(s.log, sub.run, origin, s.cursor))
  {
    var s, origin := Run(Init(log, sub, header), sub, limit, actions), Opening(log, sub, header);
    RunDelivers(log, sub, header, limit, actions);
    BaseMoves(log, sub, header, limit, actions);
    hide Run, Init, Opening, Window, Rows;
    WindowOrdered(s.log, sub.run, s.base, s.cursor);
    WindowSplit(s.log, sub.run, origin, s.base, s.cursor);
    var x, y := Window(s.log, sub.run, origin, s.base), Window(s.log, sub.run, s.base, s.cursor);
    assert |x + y| == |x| + |y|;
    if s.base == origin { WindowEmptyAt(s.log, sub.run, origin); }
  }

  /** A row that a subscriber who starts at c is owed once the server has come to cursor. */
  ghost predicate Owed(log: seq<Row>, run: Option<string>, c: int, cursor: int, row: Row) {
    row in log && row.id > 0 && c < row.id <= cursor && row.serializable && (run.None? || row.run == run)
  }

  ghost predicate AsksFor(sub: Subscription, header: Option<int>, c: int) { header == Some(c) || (header.None? && sub.cursor == Some(c)) }

  /**
    Delivery in terms of the request alone.  A client that names identifier c, in the header or
    else in the query, gets in every run, in log order and each once, exactly the rows of its
    run above c and up to the server's cursor; one that names none starts at the newest row there
    is for it when it connects.
   */
  lemma DeliveredAsAsked(log: seq<Row>, sub: Subscription, header: Option<int>, limit: nat, actions: seq<Action>)
    requires Ordered(log)
    ensures var s := Run(Init(log, sub, header), sub, limit, actions);
            var rows := s.received + Rows(s.queue);
            && Ordered(rows)
            && (forall c :: AsksFor(sub, header, c) ==> forall row :: row in rows <==> Owed(s.log, sub.run, c, s.cursor, row))
            && (forall c :: AsksFor(sub, header, c) ==> rows == Window(s.log, sub.run, if c < 0 then 0 else c, s.cursor))
    ensures header.None? && sub.cursor.None? ==>
              var first := Init(log, sub, header).cursor;
              && (forall row :: row in log && (sub.run.None? || row.run == sub.run) ==> row.id <= first)
              && (first == 0 || exists row :: row in log && (sub.run.None? || row.run == sub.run) && row.id == first)
  {
    var s := Run(Init(log, sub, header), sub, limit, actions);
    RunDelivers(log, sub, header, limit, actions);
    DeliveryExact(log, sub, header, limit, actions);
    LatestIsLast(log, sub.run);
    hide Run, Window, Rows, Latest;
    forall c, row | AsksFor(sub, header, c)
      ensures row in s.received + Rows(s.queue) <==> Owed(s.log, sub.run, c, s.cursor, row)
    {
      WindowMembers(s.log, sub.run, if c < 0 then 0 else c, s.cursor, row);
    }
  }

  /** A heartbeat says that nothing the subscriber is owed lies beyond the identifier it carries. */
  lemma HeartbeatIsCurrent(log: seq<Row>, run: Option<string>, cursor: int, limit: nat, readable: bool, beat: bool, c: int)
    requires limit > 0 && Heartbeat(c) in Sent(log, run, cursor, limit, readable, beat)
    ensures c == cursor == Moved(log, run, cursor, limit, readable)
    ensures forall row :: row in log && row.id > c ==> run.Some? && row.run != run
  {
    NoBeatIn(Batch(log, run, cursor, limit), c);
    forall row | row in log && row.id > c ensures run.Some? && row.run != run { SelectMembers(log, run, cursor, row); }
  }

  /** A turn that finds nothing owed says so when a beat is due, and else nothing; an unreadable log is reported. */
  lemma QuietTurn(log: seq<Row>, run: Option<string>, cursor: int, limit: nat, readable: bool, beat: bool)
    requires forall row :: row in log && row.id > cursor ==> run.Some? && row.run != run
    ensures Sent(log, run, cursor, limit, readable, beat) == if !readable then [StreamError] else if beat then [Heartbeat(cursor)] else []
    ensures Moved(log, run, cursor, limit, readable) == cursor
  {
    var rows := Select(log, run, cursor);
    if rows != [] { SelectMembers(log, run, cursor, rows[0]); }
  }

  lemma {:induction false} NoBeatIn(rows: seq<Row>, c: int)
    ensures Heartbeat(c) !in Messages(rows)
  {
    if rows != [] { NoBeatIn(rows[..|rows| - 1], c); }
  }

  lemma WindowEmptyAt(log: seq<Row>, run: Option<string>, at: int)
    ensures Window(log, run, at, at) == []
  {
    WindowEmpty(log, run, at, at);
  }

  /** What the client holds is complete up to the identifier it would reconnect with. */
  lemma ReceivedExact(log: seq<Row>, sub: Subscription, header: Option<int>, limit: nat, actions: seq<Action>)
    requires Ordered(log)
    ensures var s := Run(Init(log, sub, header), sub, limit, actions);
            s.received != [] ==> s.lastId.Some? && s.received == Window(s.log, sub.run, s.base, s.lastId.value)
  {
    var s := Run(Init(log, sub, header), sub, limit, actions);
    RunDelivers(log, sub, header, limit, actions);
    if s.received != [] {
      ReceivedIsWindow(s.log, sub.run, s.base, s.cursor, s.received, Rows(s.queue));
    }
  }

  ghost predicate Exact(s: State, sub: Subscription, origin: int) {
    s.received + Rows(s.queue) == Window(s.log, sub.run, origin, s.cursor)
  }

  /**
    A subscriber that names no place and loses its connection before the first identifier
    arrives starts again at the present: a row appended in between is lost, whatever the log.
   */
  lemma UnnamedLoses(log: seq<Row>, sub: Subscription, limit: nat)
    requires Ordered(log) && sub.cursor.None?
    ensures !Exact(Run(Init(log, sub, None), sub, limit, [Append(0, sub.run, true), Reconnect]), sub, Opening(log, sub, None))
  {
    var a, r := Append(0, sub.run, true), Reconnect;
    var s0, row := Init(log, sub, None), Row(LastId(log) + 1, sub.run, true);
    TwoSteps(s0, sub, limit, a, r);
    LatestBelow(log, sub.run);
    AppendedIsLatest(log, row, sub.run);
    var s2 := Step(Step(s0, sub, limit, a), sub, limit, r);
    hide Run, Latest, Window;
    assert s2.log == log + [row] && s2.cursor == row.id && s2.received == [] && s2.queue == [];
    WindowMembers(s2.log, sub.run, Opening(log, sub, None), s2.cursor, row);
  }

  lemma TwoSteps(s: State, sub: Subscription, limit: nat, a: Action, b: Action)
    ensures Run(s, sub, limit, [a, b]) == Step(Step(s, sub, limit, a), sub, limit, b)
  {
    hide Step;
    assert [a, b][..1] == [a] && [a][..0] == [];
    assert Run(s, sub, limit, []) == s;
    assert Run(s, sub, limit, [a]) == Step(s, sub, limit, a);
  }

  lemma AppendedIsLatest(log: seq<Row>, row: Row, run: Option<string>)
    requires Matches(row, run)
    ensures Latest(log + [row], run) == row.id
  {}

  /** The smallest case: one row is appended before the first identifier arrives. */
  lemma LostBeforeFirstIdentifier()
    ensures var sub := Subscription(None, None);
            !Exact(Run(Init([], sub, None), sub, 1, [Append(0, None, true), Reconnect]), sub, Opening([], sub, None))
  {
    UnnamedLoses([], Subscription(None, None), 1);
  }

  /** Every run delivers exactly what is owed if and only if the client names where to start. */
  lemma ExactIffNamed(log: seq<Row>, sub: Subscription, header: Option<int>, limit: nat)
    requires Ordered(log)
    ensures (forall actions :: Exact(Run(Init(log, sub, header), sub, limit, actions), sub, Opening(log, sub, header)))
            <==> Named(sub, header)
  {
    if Named(sub, header) {
      forall actions ensures Exact(Run(Init(log, sub, header), sub, limit, actions), sub, Opening(log, sub, header)) {
        DeliveryExact(log, sub, header, limit, actions);
      }
    } else {
      UnnamedLoses(log, sub, limit);
    }
  }

  // ---------------------------------------------------------------------- catching up

  lemma {:induction false} SelectAbove(log: seq<Row>, run: Option<string>, after: int, k: nat)
    requires Ordered(log) && 0 < k <= |Select(log, run, after)|
    ensures Select(log, run, Select(log, run, after)[k - 1].id) == Select(log, run, after)[k..]
  {
    var front, last := log[..|log| - 1], log[|log| - 1];
    var rows, before := Select(log, run, after), Select(front, run, after);
    if k <= |before| {
      SelectAbove(front, run, after, k);
      assert before[k - 1] in before;
      SelectMembers(front, run, after, before[k - 1]);
    } else {
      SelectNone(log, run, last.id);
    }
  }

  lemma {:induction false} SelectNone(log: seq<Row>, run: Option<string>, after: int)
    requires forall r :: r in log ==> r.id <= after
    ensures Select(log, run, after) == []
  {
    if log != [] { SelectNone(log[..|log| - 1], run, after); }
  }

  /** Server turns on a quiet, readable log. */
  function Turns(s: State, sub: Subscription, limit: nat, n: nat): State {
    if n == 0 then s else Step(Turns(s, sub, limit, n - 1), sub, limit, Turn(true, false))
  }

  lemma TurnTakes(s: State, sub: Subscription, limit: nat)
    requires Ordered(s.log)
    ensures var next, left := Step(s, sub, limit, Turn(true, false)), Select(s.log, sub.run, s.cursor);
            next.log == s.log && Select(next.log, sub.run, next.cursor) == left[Min(limit, |left|)..]
  {
    hide Select, Sent;
    var left := Select(s.log, sub.run, s.cursor);
    var k := Min(limit, |left|);
    if k > 0 { SelectAbove(s.log, sub.run, s.cursor, k); }
  }

  /** How many rows n turns can take. */
  function Capacity(n: nat, limit: nat): nat { n * limit }

  lemma BatchesAdd(n: nat, limit: nat, size: nat)
    requires n > 0
    ensures var a := Min(Capacity(n - 1, limit), size); Min(Capacity(n, limit), size) == a + Min(limit, size - a)
  {
    assert n * limit == (n - 1) * limit + limit;
  }

  lemma NoBatches(limit: nat, size: nat)
    ensures Min(Capacity(0, limit), size) == 0
  {}

  /** Every turn takes a full batch off the backlog, so enough turns leave none. */
  lemma {:induction false} BacklogDrains(s: State, sub: Subscription, limit: nat, n: nat)
    requires Ordered(s.log)
    ensures var t, backlog := Turns(s, sub, limit, n), Select(s.log, sub.run, s.cursor);
            && t.log == s.log
            && Select(t.log, sub.run, t.cursor) == backlog[Min(Capacity(n, limit), |backlog|)..]
  {
    hide Select, Step, Ordered, Min, Capacity;
    var backlog := Select(s.log, sub.run, s.cursor);
    if n == 0 {
      NoBatches(limit, |backlog|);
    } else {
      var a := Min(Capacity(n - 1, limit), |backlog|);
      BacklogDrains(s, sub, limit, n - 1);
      TurnTakes(Turns(s, sub, limit, n - 1), sub, limit);
      BatchesAdd(n, limit, |backlog|);
      DropTwice(backlog, a, Min(limit, |backlog| - a));
    }
  }

  lemma DropTwice(rows: seq<Row>, a: nat, b: nat)
    requires a + b <= |rows|
    ensures rows[a..][b..] == rows[a + b..]
  {}
}
