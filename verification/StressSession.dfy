/** One bot session of the stress tool, StressTestTool/Session/StressSession.cpp:25-198: how often
    its Stop reports to the manager, which takes the report as final (module BotAllocator).
 */
module StressSession {
  import opened Wrappers

  // ---- The state and its reports ----

  datatype BotState =
    | DISCONNECTED
    | CONNECTING_LOGIN
    | WAITING_LOGIN_RES
    | CONNECTING_GATEWAY
    | WAITING_GATEWAY_RES
    | IN_GAME

  /** The strand tasks of a session that touch its state.  A successful connect sets the state
      whatever it was; the answers are only taken in the state that waits for them. */
  datatype SessionTask = LoginConnected | WorldSelected | GatewayConnected | GatewayAccepted | Stop

  function SessionStep(s: BotState, t: SessionTask): BotState {
    match t
    case LoginConnected => WAITING_LOGIN_RES
    case WorldSelected => if s == WAITING_LOGIN_RES then CONNECTING_GATEWAY else s
    case GatewayConnected => WAITING_GATEWAY_RES
    case GatewayAccepted => if s == WAITING_GATEWAY_RES then IN_GAME else s
    case Stop => DISCONNECTED
  }

  function SessionRun(s: BotState, tasks: seq<SessionTask>): BotState
    decreases |tasks|
  {
    if tasks == [] then s else SessionRun(SessionStep(s, tasks[0]), tasks[1..])
  }

  /** How often Stop calls OnSessionDisconnected. */
  function Reports(s: BotState, tasks: seq<SessionTask>): nat
    decreases |tasks|
  {
    if tasks == [] then 0
    else (if tasks[0] == Stop && s != DISCONNECTED then 1 else 0) + Reports(SessionStep(s, tasks[0]), tasks[1..])
  }

  /** How many connects complete after the session has stopped. */
  function LateConnects(s: BotState, tasks: seq<SessionTask>): nat
    decreases |tasks|
  {
    if tasks == [] then 0
    else (if tasks[0] in {LoginConnected, GatewayConnected} && s == DISCONNECTED then 1 else 0)
         + LateConnects(SessionStep(s, tasks[0]), tasks[1..])
  }

  /** Every report is paid for by the start of the session or by a late connect. */
  lemma {:induction false} ReportLedger(s: BotState, tasks: seq<SessionTask>)
    ensures Reports(s, tasks) + (if SessionRun(s, tasks) != DISCONNECTED then 1 else 0)
         == LateConnects(s, tasks) + (if s != DISCONNECTED then 1 else 0)
    decreases |tasks|
  {
    if tasks != [] {
      ReportLedger(SessionStep(s, tasks[0]), tasks[1..]);
    }
  }

  /** A started session that is stopped in the end has reported exactly once if and only if no
      connect completed after a stop. */
  lemma ReportsOnceIff(tasks: seq<SessionTask>)
    requires SessionRun(CONNECTING_LOGIN, tasks) == DISCONNECTED
    ensures Reports(CONNECTING_LOGIN, tasks) == 1 <==> LateConnects(CONNECTING_LOGIN, tasks) == 0
  {
    ReportLedger(CONNECTING_LOGIN, tasks);
  }

  // ---- The operations under way ----

  datatype Server = Login | Gateway

  /** The connect and the read chain that are outstanding, and the Stop tasks posted and not run.
      Writes are not followed: one may complete at any time. */
  datatype Session = Session(state: BotState, connecting: Option<Server>, reading: bool, stops: nat)

  const Started := Session(CONNECTING_LOGIN, Some(Login), false, 0)

  /** What a payload read brings. */
  datatype Answer = Failed | WorldChosen | Welcome | Refused | Other

  /** The strand tasks of a session.  An operation that a Stop aborts completes with an error, or
      with success if it was finished before. */
  datatype Completion =
    | Connected(ok: bool)
    | HeaderRead(ok: bool)
    | PayloadRead(answer: Answer)
    | Written(ok: bool)
    | StopRuns

  /** A failed read ends the chain and posts a Stop. */
  function ReadFails(s: Session): Session {
    s.(reading := false, stops := s.stops + 1)
  }

  /** After a payload the chain goes on, unless the session has stopped or goes to the gateway. */
  function ReadsOn(s: Session): Session {
    s.(reading := s.state != DISCONNECTED && s.state != CONNECTING_GATEWAY)
  }

  function Complete(s: Session, c: Completion): Session {
    match c
    case Connected(ok) =>
      if s.connecting.None? then s
      else if !ok then s.(connecting := None, stops := s.stops + 1)
      else
        var waiting := if s.connecting.value == Login then WAITING_LOGIN_RES else WAITING_GATEWAY_RES;
        Session(waiting, None, true, s.stops)
    case HeaderRead(ok) => if s.reading && !ok then ReadFails(s) else s
    case PayloadRead(answer) =>
      if !s.reading then s
      else (match answer
        case Failed => ReadFails(s)
        case WorldChosen =>
          if s.state != WAITING_LOGIN_RES then ReadsOn(s)
          else Session(CONNECTING_GATEWAY, Some(Gateway), false, s.stops)
        case Welcome => ReadsOn(if s.state == WAITING_GATEWAY_RES then s.(state := IN_GAME) else s)
        case Refused => ReadsOn(if s.state == WAITING_GATEWAY_RES then s.(stops := s.stops + 1) else s)
        case Other => ReadsOn(s))
    case Written(ok) => if ok then s else s.(stops := s.stops + 1)
    case StopRuns => if s.stops == 0 then s else s.(state := DISCONNECTED, stops := s.stops - 1)
  }

  function CompleteAll(s: Session, cs: seq<Completion>): Session
    decreases |cs|
  {
    if cs == [] then s else CompleteAll(Complete(s, cs[0]), cs[1..])
  }

  /** The task on the state that the completion stands for, if any. */
  function TaskOf(s: Session, c: Completion): seq<SessionTask> {
    match c
    case Connected(ok) =>
      if s.connecting.None? || !ok then []
      else [if s.connecting.value == Login then LoginConnected else GatewayConnected]
    case PayloadRead(answer) =>
      if s.reading && answer == WorldChosen then [WorldSelected]
      else if s.reading && answer == Welcome then [GatewayAccepted]
      else []
    case StopRuns => if s.stops == 0 then [] else [Stop]
    case _ => []
  }

  function Trace(s: Session, cs: seq<Completion>): seq<SessionTask>
    decreases |cs|
  {
    if cs == [] then [] else TaskOf(s, cs[0]) + Trace(Complete(s, cs[0]), cs[1..])
  }

  /** The task is what the completion does to the state. */
  lemma TaskTellsState(s: Session, c: Completion)
    ensures |TaskOf(s, c)| <= 1
    ensures Complete(s, c).state == if TaskOf(s, c) == [] then s.state else SessionStep(s.state, TaskOf(s, c)[0])
  {
  }

  lemma TraceStep(s: Session, c: Completion, rest: seq<Completion>)
    ensures var next, tasks := Complete(s, c), Trace(s, [c] + rest);
            if TaskOf(s, c) == [] then tasks == Trace(next, rest)
            else tasks != [] && tasks[0] == TaskOf(s, c)[0] && tasks[1..] == Trace(next, rest)
  {
    assert ([c] + rest)[1..] == rest;
    TaskTellsState(s, c);
  }

  /** The trace tells the state. */
  lemma {:induction false} TraceTellsState(s: Session, cs: seq<Completion>)
    ensures SessionRun(s.state, Trace(s, cs)) == CompleteAll(s, cs).state
    decreases |cs|
  {
    if cs != [] {
      assert cs == [cs[0]] + cs[1..];
      TraceStep(s, cs[0], cs[1..]);
      TaskTellsState(s, cs[0]);
      TraceTellsState(Complete(s, cs[0]), cs[1..]);
    }
  }

  // ---- When a session reports once ----

  /** The gateway connect is still to come. */
  predicate OnTheWay(state: BotState) {
    state == CONNECTING_LOGIN || state == WAITING_LOGIN_RES || state == CONNECTING_GATEWAY
  }

  /** No write fails before the gateway connect is handled; later ones may. */
  predicate WritesHold(s: Session, cs: seq<Completion>)
    decreases |cs|
  {
    cs == [] || ((cs[0] == Written(false) ==> !OnTheWay(s.state)) && WritesHold(Complete(s, cs[0]), cs[1..]))
  }

  /** A connect is outstanding only while nothing else can stop the session, and the session that
      waits for the choice of a world has no Stop posted. */
  predicate Orderly(s: Session) {
    && (s.connecting.Some? ==>
          !s.reading && s.stops == 0 && (s.state == CONNECTING_LOGIN || s.state == CONNECTING_GATEWAY))
    && (s.reading && s.state == WAITING_LOGIN_RES ==> s.stops == 0)
  }

  lemma OrderlyStep(s: Session, c: Completion)
    requires Orderly(s) && (c == Written(false) ==> !OnTheWay(s.state))
    ensures Orderly(Complete(s, c))
    ensures s.state == DISCONNECTED ==> LoginConnected !in TaskOf(s, c) && GatewayConnected !in TaskOf(s, c)
  {
  }

  lemma {:induction false} OrderlyIsNeverLate(s: Session, cs: seq<Completion>)
    requires Orderly(s) && WritesHold(s, cs)
    ensures LateConnects(s.state, Trace(s, cs)) == 0
    decreases |cs|
  {
    if cs != [] {
      assert cs == [cs[0]] + cs[1..];
      TraceStep(s, cs[0], cs[1..]);
      TaskTellsState(s, cs[0]);
      OrderlyStep(s, cs[0]);
      OrderlyIsNeverLate(Complete(s, cs[0]), cs[1..]);
    }
  }

  /** Unless a write fails before the gateway connect is handled, a session reports exactly once
      when it has stopped in the end, and not before. */
  lemma ReportsOnceUnlessWriteFails(cs: seq<Completion>)
    requires WritesHold(Started, cs)
    ensures Reports(CONNECTING_LOGIN, Trace(Started, cs))
         == if CompleteAll(Started, cs).state == DISCONNECTED then 1 else 0
  {
    OrderlyIsNeverLate(Started, cs);
    TraceTellsState(Started, cs);
    ReportLedger(CONNECTING_LOGIN, Trace(Started, cs));
  }

  lemma FirstReport(s: Session, c: Completion, rest: seq<Completion>)
    ensures Reports(s.state, Trace(s, [c] + rest))
         == (if c == StopRuns && s.stops > 0 && s.state != DISCONNECTED then 1 else 0)
            + Reports(Complete(s, c).state, Trace(Complete(s, c), rest))
  {
    TraceStep(s, c, rest);
    TaskTellsState(s, c);
  }

  /** The session on its way to the gateway, with a Stop posted. */
  function Overtaken(): Session {
    Session(CONNECTING_GATEWAY, Some(Gateway), false, 1)
  }

  function AfterOvertaken(): seq<Completion> {
    [StopRuns, Connected(true), HeaderRead(false), StopRuns]
  }

  lemma StopReports(s: Session, rest: seq<Completion>)
    requires s.stops > 0
    ensures var next := s.(state := DISCONNECTED, stops := s.stops - 1);
            Reports(s.state, Trace(s, [StopRuns] + rest)) ==
              (if s.state != DISCONNECTED then 1 else 0) + Reports(DISCONNECTED, Trace(next, rest))
  {
    FirstReport(s, StopRuns, rest);
  }

  /** A connect that is handled and a read that fails after it. */
  lemma ConnectAndFail(s: Session, rest: seq<Completion>)
    requires s == Session(DISCONNECTED, Some(Gateway), false, 0)
    ensures Reports(DISCONNECTED, Trace(s, [Connected(true)] + ([HeaderRead(false)] + rest)))
         == Reports(WAITING_GATEWAY_RES, Trace(Session(WAITING_GATEWAY_RES, None, false, 1), rest))
  {
    FirstReport(s, Connected(true), [HeaderRead(false)] + rest);
    FirstReport(Session(WAITING_GATEWAY_RES, None, true, 0), HeaderRead(false), rest);
  }

  lemma OvertakenReportsTwice()
    ensures Reports(CONNECTING_GATEWAY, Trace(Overtaken(), AfterOvertaken())) == 2
  {
    var none: seq<Completion> := [];
    var tail := [Connected(true)] + ([HeaderRead(false)] + ([StopRuns] + none));
    assert AfterOvertaken() == [StopRuns] + tail;
    StopReports(Overtaken(), tail);
    ConnectAndFail(Overtaken().(state := DISCONNECTED, stops := 0), [StopRuns] + none);
    StopReports(Session(WAITING_GATEWAY_RES, None, false, 1), none);
  }

  /** A login write that fails when the login socket is closed for the gateway: its Stop runs while
      the gateway connect is finished and not handled, and the failing read posts another one. */
  lemma FailedWriteReportsTwice(cs: seq<Completion>)
    requires cs == [Connected(true), PayloadRead(WorldChosen), Written(false)] + AfterOvertaken()
    ensures !WritesHold(Started, cs) && Reports(CONNECTING_LOGIN, Trace(Started, cs)) == 2
  {
    var s1 := Session(WAITING_LOGIN_RES, None, true, 0);
    var s2 := Session(CONNECTING_GATEWAY, Some(Gateway), false, 0);
    var c2 := [Written(false)] + AfterOvertaken();
    var c1 := [PayloadRead(WorldChosen)] + c2;
    assert cs == [Connected(true)] + c1 && cs[1..] == c1 && c1[1..] == c2;
    assert !WritesHold(s2, c2) && !WritesHold(s1, c1);
    OvertakenReportsTwice();
    FirstReport(s2, Written(false), AfterOvertaken());
    FirstReport(s1, PayloadRead(WorldChosen), c2);
    FirstReport(Started, Connected(true), c1);
  }

  // ---- When a session is in the game ----

  lemma {:induction false} RunLast(s: BotState, tasks: seq<SessionTask>)
    requires tasks != []
    ensures SessionRun(s, tasks) == SessionStep(SessionRun(s, tasks[..|tasks| - 1]), tasks[|tasks| - 1])
    decreases |tasks|
  {
    if |tasks| > 1 {
      RunLast(SessionStep(s, tasks[0]), tasks[1..]);
      assert tasks[1..][..|tasks| - 2] == tasks[..|tasks| - 1][1..];
    }
  }

  /** Task i connects to the gateway, and neither a stop nor another connect comes later. */
  predicate LastConnect(tasks: seq<SessionTask>, i: nat) {
    i < |tasks| && tasks[i] == GatewayConnected &&
    forall j :: i < j < |tasks| ==> tasks[j] == WorldSelected || tasks[j] == GatewayAccepted
  }

  predicate Welcomed(tasks: seq<SessionTask>, i: nat) {
    LastConnect(tasks, i) && exists j :: i < j < |tasks| && tasks[j] == GatewayAccepted
  }

  /** A bot session is in the game if and only if its last connect was to the gateway, has been welcomed
      since, and no stop has run since. */
  lemma {:induction false} InGameIff(tasks: seq<SessionTask>)
    ensures var state := SessionRun(CONNECTING_LOGIN, tasks);
            && (state == WAITING_GATEWAY_RES || state == IN_GAME <==> exists i :: LastConnect(tasks, i))
            && (state == IN_GAME <==> exists i :: Welcomed(tasks, i))
    decreases |tasks|
  {
    if tasks != [] {
      var n := |tasks| - 1;
      var init, t := tasks[..n], tasks[n];
      RunLast(CONNECTING_LOGIN, tasks);
      InGameIff(init);
      if t == GatewayConnected {
        assert LastConnect(tasks, n);
      } else if t == WorldSelected || t == GatewayAccepted {
        forall i: nat ensures LastConnect(tasks, i) <==> LastConnect(init, i) {
          LastConnectStays(tasks, i);
        }
        forall i: nat
          ensures Welcomed(tasks, i) <==> LastConnect(init, i) && (t == GatewayAccepted || Welcomed(init, i))
        {
          LastConnectStays(tasks, i);
          if Welcomed(init, i) {
            var j :| i < j < n && init[j] == GatewayAccepted;
            assert tasks[j] == GatewayAccepted;
          }
          if Welcomed(tasks, i) && t != GatewayAccepted {
            var j :| i < j < |tasks| && tasks[j] == GatewayAccepted;
            assert init[j] == GatewayAccepted;
          }
        }
      } else {
        forall i: nat ensures !LastConnect(tasks, i) {
          assert i < n ==> !(tasks[n] == WorldSelected || tasks[n] == GatewayAccepted);
        }
      }
    }
  }

  lemma LastConnectStays(tasks: seq<SessionTask>, i: nat)
    requires tasks != []
    requires var t := tasks[|tasks| - 1]; t == WorldSelected || t == GatewayAccepted
    ensures LastConnect(tasks, i) <==> LastConnect(tasks[..|tasks| - 1], i)
  {
    var n := |tasks| - 1;
    var init := tasks[..n];
    if LastConnect(init, i) {
      forall j | i < j < |tasks| ensures tasks[j] == WorldSelected || tasks[j] == GatewayAccepted {
        assert j < n ==> init[j] == tasks[j];
      }
    }
  }

  /** Each answer comes when it is waited for. */
  lemma NormalLoginEndsInGame()
    ensures var chosen := Complete(Complete(Started, Connected(true)), PayloadRead(WorldChosen));
            var playing := Complete(Complete(chosen, Connected(true)), PayloadRead(Welcome));
            && chosen.state == CONNECTING_GATEWAY && chosen.connecting == Some(Gateway) && !chosen.reading
            && playing.state == IN_GAME && playing.reading && playing.stops == 0
  {
  }
}
