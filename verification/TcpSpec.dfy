/**
 A TCP connection as a state machine over the steps its loop thread, its users and the
 kernel take.

 User code may call the connection from any thread and from within any callback; what it
 hands to another thread becomes a task that runs at any later time, in any order.  The
 kernel answers a write with any count or error; only a write side that was shut down always
 fails.  The bytes handed to the kernel are `accepted[..sent]`, the output buffer is
 `accepted[sent..]`.
 */
module TcpProtocol {
  import opened Bytes
  import opened Channels

  const HIGH_WATER_MARK: nat := 64 * 1024 * 1024

  datatype State = Connecting | Connected | Disconnecting | Disconnected

  /** Answer to a write: `Broken` is EPIPE or ECONNRESET, `Failed` any other error. */
  datatype Answer = Wrote(n: nat) | Blocked | Failed | Broken

  /** Result of reading the socket. */
  datatype Input = Data(bytes: seq<Byte>) | Eof | ReadError

  /** What is to be done later, by the connection's loop or (`Erase`) by the server's. */
  datatype Task =
    | Establish
    | SendLater(message: seq<Byte>)
    | ShutdownLater
    | ForceCloseLater
    | ForceCloseDelayed
    | Erase
    | Destroy
    | WriteComplete
    | HighWater(size: nat)

  /** Where the handling of an event stands. */
  datatype Point = AtClose | AtError | AtRead | AtWrite

  datatype Stage = Idle | Dispatch(revents: Mask, at: Point)

  /** The milestones in the life of a connection. */
  datatype Milestone = Up | Down | CloseCallback | Erased | Removed

  const LIFE := [Up, Down, CloseCallback, Erased, Removed]

  datatype Conn = Conn(
    state: State,
    reading: bool,            // interest in reading
    writing: bool,            // interest in writing
    wanted: bool,             // `reading_`
    registered: bool,         // the channel is in the poller
    mapped: bool,             // the server's map holds the connection
    accepted: seq<Byte>,
    sent: nat,
    shut: bool,               // the write side of the socket is shut down
    received: seq<Byte>,
    consumed: nat,
    tasks: multiset<Task>,
    stage: Stage,
    life: seq<Milestone>
  )

  /** As `TcpServer::newConnection` leaves it. */
  const START := Conn(Connecting, false, false, true, false, true, [], 0, false, [], 0, multiset{Establish}, Idle, [])

  datatype Step =
    // calls on the loop thread
    | Send(message: seq<Byte>, answer: Answer)
    | Shutdown
    | StartRead
    | StopRead
    | Consume(n: nat)
    // calls on other threads
    | RemoteSend(message: seq<Byte>)
    | RemoteShutdown
    // calls that do the same on every thread
    | ForceClose
    | ForceCloseWithDelay
    // the loops
    | RunTask(task: Task, answer: Answer)
    | Begin(revents: Mask)
    | DoClose
    | DoError
    | DoRead(input: Input)
    | DoWrite(answer: Answer)

  predicate Active(c: Conn) {
    c.state.Connected? || c.state.Disconnecting?
  }

  predicate CloseFires(revents: Mask) {
    revents & POLLHUP != 0 && revents & POLLIN == 0
  }

  predicate ReadFires(revents: Mask) {
    revents & (POLLIN | POLLPRI | POLLRDHUP) != 0
  }

  predicate WriteFires(revents: Mask) {
    revents & POLLOUT != 0
  }

  /** What the kernel makes of a write of `n` bytes. */
  function Reply(shut: bool, n: nat, answer: Answer): (a: Answer)
    ensures a.Wrote? ==> a.n <= n && !shut
    ensures shut ==> a.Broken?
  {
    if shut then Broken
    else if answer.Wrote? then Wrote(if answer.n <= n then answer.n else n)
    else answer
  }

  /** The callback due when all of a message was written at once. */
  function Completed(written: bool, remaining: nat): multiset<Task> {
    if written && remaining == 0 then multiset{WriteComplete} else multiset{}
  }

  /** The callback due when the bytes queued rise to the high-water mark. */
  function Crossed(queued: nat, remaining: nat): multiset<Task> {
    if remaining > 0 && queued < HIGH_WATER_MARK <= queued + remaining then multiset{HighWater(queued + remaining)}
    else multiset{}
  }

  function SendInLoop(c: Conn, message: seq<Byte>, answer: Answer): Conn
    requires c.sent <= |c.accepted|
  {
    var queued := |c.accepted| - c.sent;
    var direct := !c.writing && queued == 0;
    var a := if direct then Reply(c.shut, |message|, answer) else Blocked;
    if c.state.Disconnected? || a.Broken? then c
    else
      var n := if a.Wrote? then a.n else 0;
      var remaining := |message| - n;
      c.(accepted := c.accepted + message, sent := c.sent + n,
         writing := c.writing || remaining > 0, tasks := c.tasks + Completed(a.Wrote?, remaining) + Crossed(queued, remaining))
  }

  function ShutdownInLoop(c: Conn): Conn {
    if c.writing then c else c.(shut := true)
  }

  function HandleWrite(c: Conn, answer: Answer): Conn
    requires c.sent <= |c.accepted|
  {
    var a := Reply(c.shut, |c.accepted| - c.sent, answer);
    if !c.writing || !a.Wrote? || a.n == 0 then c
    else if c.sent + a.n < |c.accepted| then c.(sent := c.sent + a.n)
    else
      var c1 := c.(sent := c.sent + a.n, writing := false, tasks := c.tasks + multiset{WriteComplete});
      if c.state.Disconnecting? then ShutdownInLoop(c1) else c1
  }

  function HandleClose(c: Conn): Conn {
    c.(state := Disconnected, reading := false, writing := false,
       life := c.life + [Down, CloseCallback], tasks := c.tasks + multiset{Erase})
  }

  function HandleRead(c: Conn, input: Input): Conn {
    match input
    case Data(bytes) => c.(received := c.received + bytes)
    case Eof => HandleClose(c)
    case ReadError => c
  }

  function RequestForceClose(c: Conn): Conn {
    if Active(c) then c.(state := Disconnecting, tasks := c.tasks + multiset{ForceCloseLater}) else c
  }

  function Perform(c: Conn, task: Task, answer: Answer): Conn
    requires c.sent <= |c.accepted|
  {
    match task
    case Establish => c.(state := Connected, reading := true, registered := true, life := c.life + [Up])
    case SendLater(message) => SendInLoop(c, message, answer)
    case ShutdownLater => ShutdownInLoop(c)
    case ForceCloseLater => if Active(c) then HandleClose(c) else c
    case ForceCloseDelayed => RequestForceClose(c)
    case Erase => c.(mapped := false, life := c.life + [Erased], tasks := c.tasks + multiset{Destroy})
    case Destroy =>
      var c1 := if c.state.Connected?
                then c.(state := Disconnected, reading := false, writing := false, life := c.life + [Down]) else c;
      c1.(registered := false, life := c1.life + [Removed])
    case WriteComplete => c
    case HighWater(_) => c
  }

  /** Whose turn it may be.  An event comes to an open connection, whose mask another channel's
      handler may have emptied since the poll collected it, and to any other one that is in the
      poller and has a mask. */
  predicate Enabled(c: Conn, step: Step) {
    && c.sent <= |c.accepted|
    && match step
    case Send(_, _) => true
    case Shutdown => true
    case StartRead => true
    case StopRead => true
    case Consume(n) => c.consumed + n <= |c.received|
    case RemoteSend(_) => true
    case RemoteShutdown => true
    case ForceClose => true
    case ForceCloseWithDelay => true
    case RunTask(task, _) => task in c.tasks && (task.Erase? || c.stage.Idle?)
    case Begin(_) => c.stage.Idle? && (Active(c) || (c.registered && (c.reading || c.writing)))
    case DoClose => c.stage.Dispatch? && c.stage.at.AtClose?
    case DoError => c.stage.Dispatch? && c.stage.at.AtError?
    case DoRead(input) => c.stage.Dispatch? && c.stage.at.AtRead? && (input.Data? ==> input.bytes != [])
    case DoWrite(_) => c.stage.Dispatch? && c.stage.at.AtWrite?
  }

  /** The assertions in the code that a step runs into. */
  predicate AssertsHold(c: Conn, step: Step) {
    match step
    case RunTask(task, _) =>
      (match task
       case Establish => c.state.Connecting?
       case Erase => c.mapped
       case Destroy => c.state.Connected? || (!c.reading && !c.writing)
       case _ => true)
    case DoClose => c.stage.Dispatch? && CloseFires(c.stage.revents) ==> Active(c)
    case DoRead(input) => c.stage.Dispatch? && ReadFires(c.stage.revents) && input.Eof? ==> Active(c)
    case _ => true
  }

  function Next(c: Conn, step: Step): Conn
    requires Enabled(c, step)
  {
    match step
    case Send(message, answer) => if c.state.Connected? then SendInLoop(c, message, answer) else c
    case Shutdown => if c.state.Connected? then ShutdownInLoop(c.(state := Disconnecting)) else c
    case StartRead => if !c.wanted || !c.reading then c.(reading := true, registered := true, wanted := true) else c
    case StopRead => if c.wanted || c.reading then c.(reading := false, registered := true, wanted := false) else c
    case Consume(n) => c.(consumed := c.consumed + n)
    case RemoteSend(message) =>
      if c.state.Connected? then c.(tasks := c.tasks + multiset{SendLater(message)}) else c
    case RemoteShutdown =>
      if c.state.Connected? then c.(state := Disconnecting, tasks := c.tasks + multiset{ShutdownLater}) else c
    case ForceClose => RequestForceClose(c)
    case ForceCloseWithDelay =>
      if Active(c) then c.(state := Disconnecting, tasks := c.tasks + multiset{ForceCloseDelayed}) else c
    case RunTask(task, answer) => Perform(c.(tasks := c.tasks - multiset{task}), task, answer)
    case Begin(revents) => c.(stage := Dispatch(revents, AtClose))
    case DoClose =>
      (if CloseFires(c.stage.revents) then HandleClose(c) else c).(stage := Dispatch(c.stage.revents, AtError))
    case DoError => c.(stage := Dispatch(c.stage.revents, AtRead))
    case DoRead(input) =>
      (if ReadFires(c.stage.revents) then HandleRead(c, input) else c).(stage := Dispatch(c.stage.revents, AtWrite))
    case DoWrite(answer) => (if WriteFires(c.stage.revents) then HandleWrite(c, answer) else c).(stage := Idle)
  }

  // ---- The invariant ----

  /** No byte is lost, interest in writing means bytes to write, and a write side is shut down
      only when no bytes are left, while the connection has not closed. */
  predicate StreamInv(c: Conn) {
    && c.sent <= |c.accepted| && c.consumed <= |c.received|
    && (Active(c) ==> (c.writing <==> c.sent < |c.accepted|))
    && (Active(c) && c.shut ==> c.state.Disconnecting? && c.sent == |c.accepted|)
    && (!Active(c) ==> !c.reading && !c.writing)
    && (c.state.Connecting? ==> c.accepted == [] && !c.shut)
  }

  /** A request to close is pending, carried out, or waiting for bytes to be written. */
  predicate ClosingInv(c: Conn) {
    && (c.state.Connecting? ==> c.tasks == multiset{Establish})
    && (c.state.Connected? ==> ShutdownLater !in c.tasks && ForceCloseLater !in c.tasks && ForceCloseDelayed !in c.tasks)
    && (c.state.Disconnecting? && c.sent == |c.accepted| && !c.shut ==>
          ShutdownLater in c.tasks || ForceCloseLater in c.tasks || ForceCloseDelayed in c.tasks)
  }

  predicate LifeInv(c: Conn) {
    && c.tasks[Establish] == (if c.state.Connecting? then 1 else 0)
    && (match c.state
        case Connecting => c.life == [] && c.mapped && !c.registered && c.tasks[Erase] == c.tasks[Destroy] == 0
        case Disconnected =>
          || (c.life == LIFE[..3] && c.mapped && c.registered && c.tasks[Erase] == 1 && c.tasks[Destroy] == 0)
          || (c.life == LIFE[..4] && !c.mapped && c.registered && c.tasks[Erase] == 0 && c.tasks[Destroy] == 1)
          || (c.life == LIFE && !c.mapped && !c.registered && c.tasks[Erase] == c.tasks[Destroy] == 0)
        case _ => c.life == [Up] && c.mapped && c.registered && c.tasks[Erase] == c.tasks[Destroy] == 0)
  }

  predicate StageInv(c: Conn) {
    c.stage.Dispatch? ==>
      match c.stage.at
      case AtClose => Active(c)
      case AtWrite => !c.state.Connecting?
      case _ => if CloseFires(c.stage.revents) then c.state.Disconnected? else Active(c)
  }

  ghost predicate Inv(c: Conn) {
    StreamInv(c) && ClosingInv(c) && LifeInv(c) && StageInv(c)
  }

  lemma SendKeepsInv(c: Conn, message: seq<Byte>, answer: Answer)
    requires Inv(c) && !c.state.Connecting?
    ensures Inv(SendInLoop(c, message, answer))
  {
  }

  lemma WriteKeepsInv(c: Conn, answer: Answer)
    requires Inv(c)
    ensures Inv(HandleWrite(c, answer))
  {
  }

  /** A task of no consequence for closing can go. */
  lemma DropTask(c: Conn, task: Task)
    requires Inv(c) && task in c.tasks && (task.SendLater? || task.WriteComplete? || task.HighWater?)
    ensures Inv(c.(tasks := c.tasks - multiset{task})) && !c.state.Connecting?
  {
  }

  lemma EstablishKeepsInv(c: Conn, answer: Answer)
    requires Inv(c) && c.stage.Idle? && Establish in c.tasks
    ensures c.state.Connecting? && Inv(Next(c, RunTask(Establish, answer)))
  {
  }

  lemma ShutdownKeepsInv(c: Conn)
    requires Inv(c) && ShutdownLater in c.tasks
    ensures Inv(ShutdownInLoop(c.(tasks := c.tasks - multiset{ShutdownLater})))
  {
  }

  lemma ForceCloseKeepsInv(c: Conn)
    requires Inv(c) && c.stage.Idle? && ForceCloseLater in c.tasks
    ensures Inv(Perform(c.(tasks := c.tasks - multiset{ForceCloseLater}), ForceCloseLater, Blocked))
  {
    assert LIFE[..3] == [Up] + [Down, CloseCallback];
  }

  lemma RequestKeepsInv(c: Conn)
    requires Inv(c) && ForceCloseDelayed in c.tasks
    ensures Inv(RequestForceClose(c.(tasks := c.tasks - multiset{ForceCloseDelayed})))
  {
  }

  lemma EraseKeepsInv(c: Conn)
    requires Inv(c) && Erase in c.tasks
    ensures c.mapped && Inv(Perform(c.(tasks := c.tasks - multiset{Erase}), Erase, Blocked))
  {
    assert LIFE[..4] == LIFE[..3] + [Erased];
  }

  lemma DestroyKeepsInv(c: Conn)
    requires Inv(c) && Destroy in c.tasks
    ensures c.state.Disconnected? && !c.reading && !c.writing
    ensures Inv(Perform(c.(tasks := c.tasks - multiset{Destroy}), Destroy, Blocked))
  {
    assert LIFE == LIFE[..4] + [Removed];
  }

  lemma TaskKeepsInv(c: Conn, task: Task, answer: Answer)
    requires Inv(c) && Enabled(c, RunTask(task, answer))
    ensures AssertsHold(c, RunTask(task, answer)) && Inv(Next(c, RunTask(task, answer)))
  {
    hide Inv, SendInLoop, ShutdownInLoop, HandleClose, RequestForceClose;
    match task {
      case Establish => EstablishKeepsInv(c, answer);
      case SendLater(message) =>
        DropTask(c, task);
        SendKeepsInv(c.(tasks := c.tasks - multiset{task}), message, answer);
      case ShutdownLater => ShutdownKeepsInv(c);
      case ForceCloseLater => ForceCloseKeepsInv(c);
      case ForceCloseDelayed => RequestKeepsInv(c);
      case Erase => EraseKeepsInv(c);
      case Destroy => DestroyKeepsInv(c);
      case WriteComplete => DropTask(c, task);
      case HighWater(_) => DropTask(c, task);
    }
  }

  /** Reading is started or stopped when the connection is not open, and that touches the
      poller: a start always does, a stop unless reading was stopped before, and it does no
      harm while the closed connection's channel is still registered. */
  predicate Untimely(c: Conn, step: Step) {
    match step
    case StartRead => !Active(c)
    case StopRead => !Active(c) && c.wanted && !(c.state.Disconnected? && c.registered)
    case _ => false
  }

  /** Starting or stopping to read keeps the connection in order if and only if it is timely. */
  lemma ReadCallKeepsInvIff(c: Conn, step: Step)
    requires Inv(c) && Enabled(c, step) && (step.StartRead? || step.StopRead?)
    ensures Inv(Next(c, step)) <==> !Untimely(c, step)
  {
  }

  lemma CallKeepsInv(c: Conn, step: Step)
    requires Inv(c) && Enabled(c, step) && !Untimely(c, step)
    requires !step.RunTask? && !step.Begin? && !step.DoClose? && !step.DoError? && !step.DoRead? && !step.DoWrite?
    ensures Inv(Next(c, step))
  {
    hide SendInLoop;
    if step.Send? && c.state.Connected? {
      SendKeepsInv(c, step.message, step.answer);
    } else if step.StartRead? || step.StopRead? {
      ReadCallKeepsInvIff(c, step);
    }
  }

  /** Closing is right for any active connection; the stage is what the dispatch makes it. */
  lemma CloseKeepsInv(c: Conn)
    requires StreamInv(c) && ClosingInv(c) && LifeInv(c) && Active(c)
    ensures var c1 := HandleClose(c); StreamInv(c1) && ClosingInv(c1) && LifeInv(c1) && c1.state.Disconnected?
  {
    assert LIFE[..3] == [Up] + [Down, CloseCallback];
  }

  lemma InputKeepsInv(c: Conn, input: Input)
    requires StreamInv(c) && ClosingInv(c) && LifeInv(c) && (input.Eof? ==> Active(c)) && !c.state.Connecting?
    ensures var c1 := HandleRead(c, input); StreamInv(c1) && ClosingInv(c1) && LifeInv(c1) && !c1.state.Connecting?
  {
    if input.Eof? {
      CloseKeepsInv(c);
    }
  }

  lemma MoveStage(c: Conn, stage: Stage)
    requires StreamInv(c) && ClosingInv(c) && LifeInv(c)
    ensures var c1 := c.(stage := stage); StreamInv(c1) && ClosingInv(c1) && LifeInv(c1)
  {
  }

  lemma DispatchKeepsInv(c: Conn, step: Step)
    requires Inv(c) && Enabled(c, step) && AssertsHold(c, step)
    requires step.Begin? || step.DoClose? || step.DoError? || step.DoRead? || step.DoWrite?
    ensures Inv(Next(c, step))
  {
    hide HandleWrite, HandleClose, HandleRead, StreamInv, ClosingInv, LifeInv, CloseFires, ReadFires, WriteFires;
    StreamBasics(c);
    match step {
      case Begin(revents) => MoveStage(c, Dispatch(revents, AtClose));
      case DoClose =>
        var revents := c.stage.revents;
        if CloseFires(revents) {
          CloseKeepsInv(c);
          MoveStage(HandleClose(c), Dispatch(revents, AtError));
        } else {
          MoveStage(c, Dispatch(revents, AtError));
        }
      case DoError => MoveStage(c, Dispatch(c.stage.revents, AtRead));
      case DoRead(input) =>
        var c1 := if ReadFires(c.stage.revents) then HandleRead(c, input) else c;
        if ReadFires(c.stage.revents) {
          InputKeepsInv(c, input);
        }
        MoveStage(c1, Dispatch(c.stage.revents, AtWrite));
      case DoWrite(answer) =>
        WriteKeepsInv(c, answer);
        var c1 := if WriteFires(c.stage.revents) then HandleWrite(c, answer) else c;
        MoveStage(c1, Idle);
    }
  }

  lemma StreamBasics(c: Conn)
    requires StreamInv(c)
    ensures c.sent <= |c.accepted|
  {
  }

  lemma NextKeepsInv(c: Conn, step: Step)
    requires Inv(c) && Enabled(c, step) && AssertsHold(c, step) && !Untimely(c, step)
    ensures Inv(Next(c, step))
  {
    hide Inv, Enabled, AssertsHold;
    match step {
      case RunTask(task, answer) => TaskKeepsInv(c, task, answer);
      case Begin(_) => DispatchKeepsInv(c, step);
      case DoClose => DispatchKeepsInv(c, step);
      case DoError => DispatchKeepsInv(c, step);
      case DoRead(_) => DispatchKeepsInv(c, step);
      case DoWrite(_) => DispatchKeepsInv(c, step);
      case _ => CallKeepsInv(c, step);
    }
  }

  // ---- The assertions ----

  /** End of stream is read for a descriptor that was reported as hung up without input but
      with something else that calls for reading. */
  predicate DoubleClose(c: Conn, step: Step) {
    && c.stage.Dispatch? && CloseFires(c.stage.revents) && ReadFires(c.stage.revents)
    && step.DoRead? && step.input.Eof?
  }

  /** An assertion in the code fails in this case and in no other. */
  lemma AssertsHoldIff(c: Conn, step: Step)
    requires Inv(c) && Enabled(c, step)
    ensures AssertsHold(c, step) <==> !DoubleClose(c, step)
  {
    hide CloseFires, ReadFires, StreamInv, ClosingInv;
    if step.RunTask? {
      hide AssertsHold, Inv, Enabled;
      TaskKeepsInv(c, step.task, step.answer);
    }
  }

  // ---- Runs ----

  predicate Regular(c: Conn, step: Step) {
    Enabled(c, step) && !DoubleClose(c, step) && !Untimely(c, step)
  }

  /** Everyone takes a possible step, no descriptor is reported hung up in that way, and reading
      is not started or stopped at the wrong time. */
  predicate ValidRun(c: Conn, steps: seq<Step>)
    decreases steps
  {
    steps != [] ==> Regular(c, steps[0]) && ValidRun(Next(c, steps[0]), steps[1..])
  }

  function Run(c: Conn, steps: seq<Step>): Conn
    requires ValidRun(c, steps)
    decreases steps
  {
    if steps == [] then c else Run(Next(c, steps[0]), steps[1..])
  }

  lemma StartInv()
    ensures Inv(START)
  {
  }

  /** Steps that are possible, none of which runs into a failing assertion. */
  predicate Survives(c: Conn, steps: seq<Step>)
    decreases steps
  {
    steps != [] ==> Enabled(c, steps[0]) && AssertsHold(c, steps[0]) && Survives(Next(c, steps[0]), steps[1..])
  }

  function After(c: Conn, steps: seq<Step>): Conn
    requires Survives(c, steps)
    decreases steps
  {
    if steps == [] then c else After(Next(c, steps[0]), steps[1..])
  }

  /** Every run keeps the invariant and runs into no failing assertion. */
  lemma {:induction false} RunKeepsInv(c: Conn, steps: seq<Step>)
    requires Inv(c) && ValidRun(c, steps)
    ensures Survives(c, steps) && After(c, steps) == Run(c, steps) && Inv(Run(c, steps))
    decreases steps
  {
    hide Inv, Enabled, AssertsHold, DoubleClose, Untimely, Next;
    if steps != [] {
      AssertsHoldIff(c, steps[0]);
      NextKeepsInv(c, steps[0]);
      RunKeepsInv(Next(c, steps[0]), steps[1..]);
    }
  }

  // ---- The byte stream ----

  /** The message a step hands to `sendInLoop`, if it does. */
  function Offered(c: Conn, step: Step): seq<seq<Byte>> {
    match step
    case Send(message, _) => if c.state.Connected? then [message] else []
    case RunTask(task, _) => if task.SendLater? then [task.message] else []
    case _ => []
  }

  /** Whether a message offered now is refused: the connection is closed, or nothing is queued
      and the kernel says that the other end is gone. */
  predicate Refuses(c: Conn, answer: Answer) {
    c.state.Disconnected? || (!c.writing && c.sent >= |c.accepted| && (c.shut || answer.Broken?))
  }

  function Taken(c: Conn, step: Step): seq<seq<Byte>> {
    if (step.Send? || step.RunTask?) && !Refuses(c, step.answer) then Offered(c, step) else []
  }

  function TakenBy(c: Conn, steps: seq<Step>): seq<seq<Byte>>
    requires ValidRun(c, steps)
    decreases steps
  {
    if steps == [] then [] else Taken(c, steps[0]) + TakenBy(Next(c, steps[0]), steps[1..])
  }

  function Flatten(messages: seq<seq<Byte>>): seq<Byte> {
    if messages == [] then [] else messages[0] + Flatten(messages[1..])
  }

  lemma {:induction false} FlattenConcat(a: seq<seq<Byte>>, b: seq<seq<Byte>>)
    ensures Flatten(a + b) == Flatten(a) + Flatten(b)
  {
    if a == [] {
      assert a + b == b;
    } else {
      assert (a + b)[1..] == a[1..] + b;
      FlattenConcat(a[1..], b);
    }
  }

  lemma SendAccepts(c: Conn, message: seq<Byte>, answer: Answer)
    requires c.sent <= |c.accepted|
    ensures var d := SendInLoop(c, message, answer);
            d.accepted == (if Refuses(c, answer) then c.accepted else c.accepted + message) && c.sent <= d.sent
  {
  }

  /** The stream and the write side are where they were. */
  predicate SameStream(c: Conn, d: Conn) {
    d.accepted == c.accepted && d.sent == c.sent && d.shut == c.shut
  }

  lemma TaskKeepsStream(c: Conn, task: Task, answer: Answer)
    requires c.sent <= |c.accepted| && !task.SendLater? && !task.ShutdownLater?
    ensures SameStream(c, Perform(c, task, answer))
  {
  }

  lemma DispatchKeepsStream(c: Conn, step: Step)
    requires Enabled(c, step) && (step.Begin? || step.DoClose? || step.DoError? || step.DoRead?)
    ensures SameStream(c, Next(c, step))
  {
    hide CloseFires, ReadFires;
  }

  lemma CallKeepsStream(c: Conn, step: Step)
    requires Enabled(c, step) && !step.Send? && !step.Shutdown? && !step.RunTask?
    requires !step.Begin? && !step.DoClose? && !step.DoError? && !step.DoRead? && !step.DoWrite?
    ensures SameStream(c, Next(c, step))
  {
  }

  /** Only sends, writes and shutdowns touch the stream. */
  lemma OthersKeepStream(c: Conn, step: Step)
    requires Enabled(c, step) && !step.Send? && !step.Shutdown? && !step.DoWrite?
    requires !(step.RunTask? && (step.task.SendLater? || step.task.ShutdownLater?))
    ensures SameStream(c, Next(c, step))
  {
    hide Perform;
    match step {
      case RunTask(task, answer) => TaskKeepsStream(c.(tasks := c.tasks - multiset{task}), task, answer);
      case Begin(_) => DispatchKeepsStream(c, step);
      case DoClose => DispatchKeepsStream(c, step);
      case DoError => DispatchKeepsStream(c, step);
      case DoRead(_) => DispatchKeepsStream(c, step);
      case _ => CallKeepsStream(c, step);
    }
  }

  lemma OthersAcceptNothing(c: Conn, step: Step)
    requires Enabled(c, step) && !step.Send? && !(step.RunTask? && step.task.SendLater?)
    ensures Next(c, step).accepted == c.accepted && c.sent <= Next(c, step).sent
  {
    hide SendInLoop, WriteFires, HandleWrite;
    if step.DoWrite? {
      WriteAcceptsNothing(c, step.answer);
    } else if !step.Shutdown? && !(step.RunTask? && step.task.ShutdownLater?) {
      OthersKeepStream(c, step);
    }
  }

  lemma WriteAcceptsNothing(c: Conn, answer: Answer)
    requires c.sent <= |c.accepted|
    ensures HandleWrite(c, answer).accepted == c.accepted && c.sent <= HandleWrite(c, answer).sent
  {
  }

  lemma LaterSendAccepts(c: Conn, message: seq<Byte>, answer: Answer)
    requires c.sent <= |c.accepted|
    ensures var d := Perform(c.(tasks := c.tasks - multiset{SendLater(message)}), SendLater(message), answer);
            d.accepted == (if Refuses(c, answer) then c.accepted else c.accepted + message) && c.sent <= d.sent
  {
    hide SendInLoop;
    SendAccepts(c.(tasks := c.tasks - multiset{SendLater(message)}), message, answer);
  }

  /** A message is accepted as a whole or not at all, nothing else is accepted, and nothing
      that was sent is taken back. */
  lemma StepAccepts(c: Conn, step: Step)
    requires Enabled(c, step)
    ensures Next(c, step).accepted == c.accepted + Flatten(Taken(c, step))
    ensures c.sent <= Next(c, step).sent
  {
    hide SendInLoop, Perform, Refuses, Flatten, HandleWrite, HandleRead, HandleClose, RequestForceClose;
    FlattenNothing();
    if step.Send? {
      SendAccepts(c, step.message, step.answer);
      FlattenOne(step.message);
    } else if step.RunTask? && step.task.SendLater? {
      LaterSendAccepts(c, step.task.message, step.answer);
      FlattenOne(step.task.message);
    } else {
      OthersAcceptNothing(c, step);
    }
    assert c.accepted + [] == c.accepted;
  }

  lemma FlattenOne(message: seq<Byte>)
    ensures Flatten([message]) == message
  {
  }

  /** Conservation: what the kernel was given followed by what is queued is all the accepted
      messages of the run, in the order of their acceptance. */
  lemma {:induction false} Conservation(c: Conn, steps: seq<Step>)
    requires Inv(c) && ValidRun(c, steps)
    ensures var d := Run(c, steps);
            && d.sent <= |d.accepted| && c.sent <= d.sent
            && d.accepted[..d.sent] + d.accepted[d.sent..] == c.accepted + Flatten(TakenBy(c, steps))
    decreases steps
  {
    hide Inv, Enabled, AssertsHold, DoubleClose, Untimely, Next, Taken, Flatten;
    SentWithin(c);
    if steps == [] {
      assert c.accepted + Flatten([]) == c.accepted by { FlattenNothing(); }
    } else {
      var c1 := Next(c, steps[0]);
      AssertsHoldIff(c, steps[0]);
      NextKeepsInv(c, steps[0]);
      StepAccepts(c, steps[0]);
      Conservation(c1, steps[1..]);
      FlattenConcat(Taken(c, steps[0]), TakenBy(c1, steps[1..]));
    }
  }

  lemma FlattenNothing()
    ensures Flatten([]) == []
  {
  }

  lemma SentWithin(c: Conn)
    requires Inv(c)
    ensures c.sent <= |c.accepted|
  {
  }

  /** While the connection has not closed, its write side is shut down only with every accepted
      byte delivered. */
  lemma ShutdownMeansDelivered(c: Conn, step: Step)
    requires Inv(c) && Enabled(c, step) && !DoubleClose(c, step)
    ensures Next(c, step).shut && !c.shut ==> Next(c, step).sent == |Next(c, step).accepted| || c.state.Disconnected?
  {
    hide SendInLoop, HandleWrite, WriteFires, LifeInv, StageInv, ClosingInv;
    if step.DoWrite? {
      WriteShutsWhenDelivered(c, step.answer);
    } else if step.Send? {
      SendKeepsShut(c, step.message, step.answer);
    } else if step.RunTask? && step.task.SendLater? {
      SendKeepsShut(c.(tasks := c.tasks - multiset{step.task}), step.task.message, step.answer);
    } else if step.Shutdown? {
    } else if step.RunTask? && step.task.ShutdownLater? {
      assert ClosingInv(c);
      IdleShutdown(c);
    } else {
      OthersKeepStream(c, step);
    }
  }

  lemma WriteShutsWhenDelivered(c: Conn, answer: Answer)
    requires c.sent <= |c.accepted|
    ensures var d := HandleWrite(c, answer); d.shut && !c.shut ==> d.sent == |d.accepted|
  {
  }

  lemma SendKeepsShut(c: Conn, message: seq<Byte>, answer: Answer)
    requires c.sent <= |c.accepted|
    ensures SendInLoop(c, message, answer).shut == c.shut
  {
  }

  lemma IdleShutdown(c: Conn)
    requires Inv(c) && ShutdownLater in c.tasks
    ensures c.state.Disconnected? || (c.state.Disconnecting? && (c.writing <==> c.sent < |c.accepted|))
  {
  }

  /** The exact exception: the write side is shut down with bytes undelivered if and only if a
      shutdown that another thread queued runs after the connection closed with bytes left. */
  lemma ShutdownLosesBytesIff(c: Conn, step: Step)
    requires Inv(c) && Enabled(c, step) && !DoubleClose(c, step) && !c.shut
    ensures Next(c, step).shut && Next(c, step).sent < |Next(c, step).accepted|
       <==> step.RunTask? && step.task.ShutdownLater? && c.state.Disconnected? && c.sent < |c.accepted|
  {
    hide Inv, DoubleClose, SendInLoop, HandleWrite, WriteFires, Perform;
    ShutdownMeansDelivered(c, step);
    ClosedMasks(c);
    if step.RunTask? && step.task.ShutdownLater? {
      IdleShutdown(c);
      LateShutdown(c, step.answer);
    } else if c.state.Disconnected? {
      match step {
        case RunTask(task, answer) =>
          InvIsClosed(c);
          TaskKeepsInv(c, task, answer);
          ClosedTask(c, task, answer);
        case DoWrite(answer) => SilentWrite(c, answer);
        case Send(_, _) =>
        case Shutdown =>
        case _ => OthersKeepStream(c, step);
      }
    }
  }

  /** A shutdown that was asked for is not forgotten: with every byte delivered it has been
      carried out, or a task that closes the connection is still to run. */
  lemma ShutdownNotLost(c: Conn, steps: seq<Step>)
    requires ValidRun(START, steps) && c == Run(START, steps)
    requires c.state.Disconnecting? && c.sent == |c.accepted|
    requires ShutdownLater !in c.tasks && ForceCloseLater !in c.tasks && ForceCloseDelayed !in c.tasks
    ensures c.shut
  {
    hide Run, ValidRun;
    StartInv();
    RunKeepsInv(START, steps);
  }

  // ---- Messages handed over by other threads ----

  /** How often a message was handed over while connected, and how often its task ran. */
  function HandedOver(c: Conn, steps: seq<Step>, message: seq<Byte>): nat
    requires Survives(c, steps)
    decreases steps
  {
    if steps == [] then 0
    else (if steps[0] == RemoteSend(message) && c.state.Connected? then 1 else 0) + HandedOver(Next(c, steps[0]), steps[1..], message)
  }

  function TasksRun(steps: seq<Step>, task: Task): nat
    decreases steps
  {
    if steps == [] then 0 else (if steps[0].RunTask? && steps[0].task == task then 1 else 0) + TasksRun(steps[1..], task)
  }

  lemma TaskAddsNoSend(c: Conn, task: Task, answer: Answer, message: seq<Byte>)
    requires c.sent <= |c.accepted|
    ensures Perform(c, task, answer).tasks[SendLater(message)] == c.tasks[SendLater(message)]
  {
    hide SendInLoop;
    if task.SendLater? {
      SendAddsNoSend(c, task.message, answer, message);
    }
  }

  lemma SendAddsNoSend(c: Conn, message: seq<Byte>, answer: Answer, other: seq<Byte>)
    requires c.sent <= |c.accepted|
    ensures SendInLoop(c, message, answer).tasks[SendLater(other)] == c.tasks[SendLater(other)]
  {
    hide Completed, Crossed, Reply;
    var d := SendInLoop(c, message, answer);
    if d != c {
      var a := if !c.writing && c.sent == |c.accepted| then Reply(c.shut, |message|, answer) else Blocked;
      var remaining := |message| - if a.Wrote? then a.n else 0;
      assert d.tasks == c.tasks + Completed(a.Wrote?, remaining) + Crossed(|c.accepted| - c.sent, remaining);
      CallbacksOnly(a.Wrote?, |c.accepted| - c.sent, remaining, other);
    }
  }

  lemma CallbacksOnly(written: bool, queued: nat, remaining: nat, message: seq<Byte>)
    ensures Completed(written, remaining)[SendLater(message)] == 0
    ensures Crossed(queued, remaining)[SendLater(message)] == 0
  {
  }

  lemma WriteAddsNoSend(c: Conn, answer: Answer, message: seq<Byte>)
    requires c.sent <= |c.accepted|
    ensures HandleWrite(c, answer).tasks[SendLater(message)] == c.tasks[SendLater(message)]
  {
    hide Reply;
  }

  lemma DispatchSends(c: Conn, step: Step, message: seq<Byte>)
    requires Enabled(c, step) && (step.Begin? || step.DoClose? || step.DoError? || step.DoRead?)
    ensures Next(c, step).tasks[SendLater(message)] == c.tasks[SendLater(message)]
  {
    hide CloseFires, ReadFires;
  }

  lemma RequestSends(c: Conn, step: Step, message: seq<Byte>)
    requires Enabled(c, step) && (step.ForceClose? || step.ForceCloseWithDelay? || step.RemoteShutdown? || step.RemoteSend?)
    ensures Next(c, step).tasks[SendLater(message)]
         == c.tasks[SendLater(message)] + if step == RemoteSend(message) && c.state.Connected? then 1 else 0
  {
  }

  lemma StepSends(c: Conn, step: Step, message: seq<Byte>)
    requires Enabled(c, step)
    ensures Next(c, step).tasks[SendLater(message)] + (if step.RunTask? && step.task == SendLater(message) then 1 else 0)
         == c.tasks[SendLater(message)] + if step == RemoteSend(message) && c.state.Connected? then 1 else 0
  {
    hide Perform, SendInLoop, HandleWrite, CloseFires, ReadFires, WriteFires;
    match step {
      case RunTask(task, answer) => TaskAddsNoSend(c.(tasks := c.tasks - multiset{task}), task, answer, message);
      case Send(other, answer) => SendAddsNoSend(c, other, answer, message);
      case DoWrite(answer) => WriteAddsNoSend(c, answer, message);
      case Begin(_) => DispatchSends(c, step, message);
      case DoClose => DispatchSends(c, step, message);
      case DoError => DispatchSends(c, step, message);
      case DoRead(_) => DispatchSends(c, step, message);
      case Shutdown =>
      case StartRead =>
      case StopRead =>
      case Consume(_) =>
      case _ => RequestSends(c, step, message);
    }
  }

  /** A message handed over by another thread while connected is sent once by the loop thread,
      or is still waiting for it. */
  lemma {:induction false} HandedOverIsSent(c: Conn, steps: seq<Step>, message: seq<Byte>)
    requires Survives(c, steps)
    ensures c.tasks[SendLater(message)] + HandedOver(c, steps, message)
         == After(c, steps).tasks[SendLater(message)] + TasksRun(steps, SendLater(message))
    decreases steps
  {
    if steps != [] {
      hide Enabled, AssertsHold, Next;
      StepSends(c, steps[0], message);
      HandedOverIsSent(Next(c, steps[0]), steps[1..], message);
    }
  }

  // ---- What went out, and what was called back ----

  function Least(a: int, b: int): int {
    if a < b then a else b
  }

  /** What a send does with the kernel's answer: it writes at once only when nothing is queued,
      and then the kernel takes what it says of the message; the write-complete callback is due
      if and only if it takes everything, the high-water callback if and only if the bytes
      queued rise from below 64 MiB to at least that. */
  lemma SendEffect(c: Conn, message: seq<Byte>, answer: Answer)
    requires c.sent <= |c.accepted| && !Refuses(c, answer)
    ensures var d := SendInLoop(c, message, answer);
            var before, after := |c.accepted| - c.sent, |d.accepted| - d.sent;
            var direct := !c.writing && before == 0 && answer.Wrote?;
            && d.sent == c.sent + (if direct then Least(answer.n, |message|) else 0)
            && d.tasks[WriteComplete] == c.tasks[WriteComplete] + (if direct && after == 0 then 1 else 0)
            && (forall size :: d.tasks[HighWater(size)] == c.tasks[HighWater(size)]
                  + if size == after && before < 0x400_0000 <= after then 1 else 0)
  {
    hide Completed, Crossed;
    var d := SendInLoop(c, message, answer);
    var written := !c.writing && c.sent == |c.accepted| && answer.Wrote?;
    var before, remaining := |c.accepted| - c.sent, |message| - (d.sent - c.sent);
    assert 0 <= remaining && |d.accepted| - d.sent == before + remaining;
    assert d.tasks == c.tasks + Completed(written, remaining) + Crossed(before, remaining);
    CompletedCounts(written, remaining);
    CrossedCounts(before, remaining);
  }

  lemma CompletedCounts(written: bool, remaining: nat)
    ensures Completed(written, remaining)[WriteComplete] == if written && remaining == 0 then 1 else 0
    ensures forall size :: Completed(written, remaining)[HighWater(size)] == 0
  {
  }

  lemma CrossedCounts(queued: nat, remaining: nat)
    ensures Crossed(queued, remaining)[WriteComplete] == 0
    ensures forall size :: Crossed(queued, remaining)[HighWater(size)]
              == if size == queued + remaining && queued < 0x400_0000 <= queued + remaining then 1 else 0
  {
  }

  /** What a write does with the kernel's answer; the write-complete callback is due if and only
      if it leaves nothing queued. */
  lemma WriteEffect(c: Conn, answer: Answer)
    requires c.sent <= |c.accepted|
    ensures var d := HandleWrite(c, answer);
            && d.sent == c.sent + (if c.writing && !c.shut && answer.Wrote? then Least(answer.n, |c.accepted| - c.sent) else 0)
            && (d.writing <==> c.writing && !(d.sent > c.sent && d.sent == |d.accepted|))
            && d.tasks[WriteComplete] == c.tasks[WriteComplete] + (if c.writing && !d.writing then 1 else 0)
            && (c.state.Disconnecting? && c.writing && !d.writing ==> d.shut)
  {
  }

  /** The steps that handle an event. */
  function EventSteps(revents: Mask, input: Input, answer: Answer): seq<Step> {
    [Begin(revents), DoClose, DoError, DoRead(input), DoWrite(answer)]
  }

  lemma FirstStep(c: Conn, steps: seq<Step>)
    requires steps != [] && Survives(c, steps)
    ensures Enabled(c, steps[0]) && Survives(Next(c, steps[0]), steps[1..])
    ensures After(c, steps) == After(Next(c, steps[0]), steps[1..])
  {
    hide Enabled, AssertsHold, Next;
  }

  lemma FiveSteps(c: Conn, c1: Conn, c2: Conn, c3: Conn, c4: Conn, revents: Mask, input: Input, answer: Answer)
    requires Survives(c, EventSteps(revents, input, answer))
    requires Enabled(c, Begin(revents)) ==> c1 == Next(c, Begin(revents))
    requires Enabled(c1, DoClose) ==> c2 == Next(c1, DoClose)
    requires Enabled(c2, DoError) ==> c3 == Next(c2, DoError)
    requires Enabled(c3, DoRead(input)) ==> c4 == Next(c3, DoRead(input))
    ensures Enabled(c4, DoWrite(answer)) && After(c, EventSteps(revents, input, answer)) == Next(c4, DoWrite(answer))
  {
    hide Enabled, AssertsHold, Next, Survives, After;
    var all := EventSteps(revents, input, answer);
    var four := [DoClose, DoError, DoRead(input), DoWrite(answer)];
    var three := [DoError, DoRead(input), DoWrite(answer)];
    var two := [DoRead(input), DoWrite(answer)];
    var one := [DoWrite(answer)];
    assert all[1..] == four && four[1..] == three && three[1..] == two && two[1..] == one && one[1..] == [];
    FirstStep(c, all);
    FirstStep(c1, four);
    FirstStep(c2, three);
    FirstStep(c3, two);
    FirstStep(c4, one);
    NoSteps(Next(c4, DoWrite(answer)));
  }

  lemma WriteSees(c: Conn, d: Conn, answer: Answer)
    requires c.sent <= |c.accepted|
    requires d.accepted == c.accepted && d.sent == c.sent && d.shut == c.shut && d.writing == c.writing
    ensures HandleWrite(d, answer).sent == HandleWrite(c, answer).sent
    ensures !c.writing ==> HandleWrite(d, answer).sent == c.sent
    ensures HandleWrite(d, answer).received == d.received && HandleWrite(d, answer).state == d.state
  {
    hide HandleWrite;
    WriteEffect(c, answer);
    WriteEffect(d, answer);
    WriteKeepsState(d, answer);
  }

  lemma ReadSees(c: Conn, input: Input)
    ensures var d := HandleRead(c, input);
            && d.accepted == c.accepted && d.sent == c.sent && d.shut == c.shut
            && d.state == (if input.Eof? then Disconnected else c.state) && d.writing == (!input.Eof? && c.writing)
            && d.received == if input.Data? then c.received + input.bytes else c.received
  {
  }

  /** One event on an open connection, from the bits reported: it closes the connection if and
      only if it is a hang-up without input, or the read it calls for finds the end; the bytes
      read are received; what is queued is written when writing is reported and the connection
      is still open. */
  lemma EventOutcome(c: Conn, revents: Mask, input: Input, answer: Answer)
    requires Inv(c) && Active(c) && c.stage.Idle? && Survives(c, EventSteps(revents, input, answer))
    ensures var d := After(c, EventSteps(revents, input, answer));
            var readable := revents & (POLLIN | POLLPRI | POLLRDHUP) != 0;
            && (d.state.Disconnected? <==> (revents & POLLHUP != 0 && revents & POLLIN == 0) || (readable && input.Eof?))
            && d.received == (if readable && input.Data? then c.received + input.bytes else c.received)
            && d.sent == (if revents & POLLOUT != 0 && !d.state.Disconnected? then HandleWrite(c, answer).sent else c.sent)
  {
    hide Survives, After, HandleWrite, HandleRead, EventSteps, ClosingInv, LifeInv, StageInv;
    assert c.sent <= |c.accepted|;
    EventBits(revents);
    hide Inv, StreamInv, CloseFires, ReadFires, WriteFires;
    var c3 := (if CloseFires(revents) then HandleClose(c) else c).(stage := Dispatch(revents, AtRead));
    var c4 := (if ReadFires(revents) then HandleRead(c3, input) else c3).(stage := Dispatch(revents, AtWrite));
    EventRuns(c, c3, c4, revents, input, answer);
    ReadSees(c3, input);
    WriteSees(c4, c4, answer);
    if c4.writing == c.writing {
      WriteSees(c, c4, answer);
    }
  }

  lemma EventBits(revents: Mask)
    ensures CloseFires(revents) <==> revents & POLLHUP != 0 && revents & POLLIN == 0
    ensures ReadFires(revents) <==> revents & (POLLIN | POLLPRI | POLLRDHUP) != 0
    ensures WriteFires(revents) <==> revents & POLLOUT != 0
  {
  }

  lemma EventRuns(c: Conn, c3: Conn, c4: Conn, revents: Mask, input: Input, answer: Answer)
    requires Active(c) && c.stage.Idle? && Survives(c, EventSteps(revents, input, answer)) && c.sent <= |c.accepted|
    requires c3 == (if CloseFires(revents) then HandleClose(c) else c).(stage := Dispatch(revents, AtRead))
    requires c4 == (if ReadFires(revents) then HandleRead(c3, input) else c3).(stage := Dispatch(revents, AtWrite))
    ensures c4.sent <= |c4.accepted|
    ensures After(c, EventSteps(revents, input, answer)) == (if WriteFires(revents) then HandleWrite(c4, answer) else c4).(stage := Idle)
  {
    hide Survives, After, EventSteps, AssertsHold, Next, Enabled, HandleWrite, HandleRead, CloseFires, ReadFires, WriteFires;
    ReadSees(c3, input);
    var c1 := c.(stage := Dispatch(revents, AtClose));
    var c2 := c3.(stage := Dispatch(revents, AtError));
    EventClose(c, c1, c2, revents);
    hide HandleClose;
    EventRead(c2, c3, revents, input);
    FiveSteps(c, c1, c2, c3, c4, revents, input, answer);
    EventWrite(c4, revents, answer);
  }

  lemma EventClose(c: Conn, c1: Conn, c2: Conn, revents: Mask)
    requires Active(c) && c.sent <= |c.accepted| && c1 == c.(stage := Dispatch(revents, AtClose))
    requires c2 == (if CloseFires(revents) then HandleClose(c) else c).(stage := Dispatch(revents, AtError))
    ensures Enabled(c, Begin(revents)) ==> Next(c, Begin(revents)) == c1
    ensures Enabled(c1, DoClose) ==> Next(c1, DoClose) == c2
    ensures c2.sent <= |c2.accepted|
  {
    hide CloseFires;
  }

  lemma EventRead(c2: Conn, c3: Conn, revents: Mask, input: Input)
    requires c2.stage == Dispatch(revents, AtError) && c3 == c2.(stage := Dispatch(revents, AtRead))
    ensures Enabled(c2, DoError) ==> Next(c2, DoError) == c3
    ensures Enabled(c3, DoRead(input)) ==>
              Next(c3, DoRead(input)) == (if ReadFires(revents) then HandleRead(c3, input) else c3).(stage := Dispatch(revents, AtWrite))
  {
    hide ReadFires, HandleRead;
  }

  lemma EventWrite(c: Conn, revents: Mask, answer: Answer)
    requires c.stage == Dispatch(revents, AtWrite) && c.sent <= |c.accepted|
    ensures Enabled(c, DoWrite(answer))
    ensures Next(c, DoWrite(answer)) == (if WriteFires(revents) then HandleWrite(c, answer) else c).(stage := Idle)
  {
    hide WriteFires, HandleWrite;
  }

  // ---- What came in ----

  /** The bytes that the kernel delivers in some steps: those of each read whose event calls
      for reading. `revents` is the event under way. */
  function Delivered(revents: Mask, steps: seq<Step>): seq<Byte>
    decreases steps
  {
    if steps == [] then []
    else
      var rest := Delivered(if steps[0].Begin? then steps[0].revents else revents, steps[1..]);
      if steps[0].DoRead? && steps[0].input.Data? && revents & (POLLIN | POLLPRI | POLLRDHUP) != 0
      then steps[0].input.bytes + rest
      else rest
  }

  /** The number of bytes that the user takes in some steps. */
  function Consumed(steps: seq<Step>): nat
    decreases steps
  {
    if steps == [] then 0 else (if steps[0].Consume? then steps[0].n else 0) + Consumed(steps[1..])
  }

  /** The input and the event under way are what they were. */
  predicate SameInput(c: Conn, d: Conn) {
    d.received == c.received && d.consumed == c.consumed && d.stage == c.stage
  }

  lemma TaskKeepsInput(c: Conn, task: Task, answer: Answer)
    requires c.sent <= |c.accepted|
    ensures SameInput(c, Perform(c, task, answer))
  {
  }

  lemma CallKeepsInput(c: Conn, step: Step)
    requires Enabled(c, step) && !step.RunTask? && !step.Consume?
    requires !step.Begin? && !step.DoClose? && !step.DoError? && !step.DoRead? && !step.DoWrite?
    ensures SameInput(c, Next(c, step))
  {
  }

  lemma DispatchInput(c: Conn, step: Step)
    requires Enabled(c, step) && (step.Begin? || step.DoClose? || step.DoError? || step.DoRead? || step.DoWrite?)
    ensures var d := Next(c, step);
            && d.consumed == c.consumed
            && d.received == (if step.DoRead? && step.input.Data? && c.stage.revents & (POLLIN | POLLPRI | POLLRDHUP) != 0
                              then c.received + step.input.bytes else c.received)
            && (d.stage.Dispatch? ==> d.stage.revents == if step.Begin? then step.revents else c.stage.revents)
  {
    hide CloseFires, WriteFires, Reply;
  }

  lemma StepReceives(c: Conn, step: Step)
    requires Enabled(c, step)
    ensures var d := Next(c, step);
            && d.consumed == c.consumed + (if step.Consume? then step.n else 0)
            && d.received == (if step.DoRead? && step.input.Data? && c.stage.Dispatch?
                                 && c.stage.revents & (POLLIN | POLLPRI | POLLRDHUP) != 0
                              then c.received + step.input.bytes else c.received)
            && (d.stage.Dispatch? ==>
                  if step.Begin? then d.stage.revents == step.revents else c.stage.Dispatch? && d.stage.revents == c.stage.revents)
            && (step.DoRead? ==> c.stage.Dispatch?)
  {
    hide Perform;
    if step.RunTask? {
      TaskKeepsInput(c.(tasks := c.tasks - multiset{step.task}), step.task, step.answer);
    } else if step.Begin? || step.DoClose? || step.DoError? || step.DoRead? || step.DoWrite? {
      DispatchInput(c, step);
    } else if !step.Consume? {
      CallKeepsInput(c, step);
    }
  }

  /** What was received is what the kernel delivered, in order, and of that the user has taken
      what it asked for. */
  lemma {:induction false} ReceivedIsDelivered(c: Conn, revents: Mask, steps: seq<Step>)
    requires Survives(c, steps) && (c.stage.Dispatch? ==> c.stage.revents == revents)
    ensures var d := After(c, steps);
            d.received == c.received + Delivered(revents, steps) && d.consumed == c.consumed + Consumed(steps)
    decreases steps
  {
    if steps != [] {
      hide AssertsHold, Enabled, Next;
      var step := steps[0];
      StepReceives(c, step);
      var next := if step.Begin? then step.revents else revents;
      ReceivedIsDelivered(Next(c, step), next, steps[1..]);
      var rest := Delivered(next, steps[1..]);
      if step.DoRead? && step.input.Data? {
        assert c.received + step.input.bytes + rest == c.received + (step.input.bytes + rest);
      }
    }
  }

  // ---- The life of a connection ----

  lemma ClosedMasks(c: Conn)
    requires Inv(c)
    ensures !Active(c) ==> !c.reading && !c.writing
  {
  }

  lemma SilentWrite(c: Conn, answer: Answer)
    requires c.sent <= |c.accepted| && !c.writing
    ensures HandleWrite(c, answer) == c
  {
  }

  lemma LateShutdown(c: Conn, answer: Answer)
    requires c.sent <= |c.accepted|
    ensures var d := Perform(c.(tasks := c.tasks - multiset{ShutdownLater}), ShutdownLater, answer);
            d == c.(tasks := c.tasks - multiset{ShutdownLater}, shut := c.shut || !c.writing)
  {
  }

  /** What holds of a closed connection, also when reading is started again. */
  predicate Closed(c: Conn) {
    && c.state.Disconnected? && !c.writing && c.sent <= |c.accepted| && c.consumed <= |c.received|
    && c.tasks[Establish] == 0 && (c.reading || c.life != LIFE ==> c.registered)
    && (|| (c.life == LIFE[..3] && c.mapped && c.tasks[Erase] == 1 && c.tasks[Destroy] == 0)
        || (c.life == LIFE[..4] && !c.mapped && c.tasks[Erase] == 0 && c.tasks[Destroy] == 1)
        || (c.life == LIFE && !c.mapped && c.tasks[Erase] == c.tasks[Destroy] == 0))
  }

  lemma InvIsClosed(c: Conn)
    requires Inv(c) && c.state.Disconnected?
    ensures Closed(c) && !c.reading && (c.registered <==> c.life != LIFE)
  {
  }

  predicate IsReadCall(step: Step) {
    step.StartRead? || step.StopRead?
  }

  predicate ReadingAfter(reading: bool, step: Step) {
    step.StartRead? || (step.RunTask? && step.task.Establish?) || (reading && !step.StopRead?)
  }

  /** Whether the last step that starts or stops reading starts it: a call, or the start of the
      connection. */
  predicate LeftReading(reading: bool, steps: seq<Step>)
    decreases steps
  {
    if steps == [] then reading else LeftReading(ReadingAfter(reading, steps[0]), steps[1..])
  }

  /** An event on a closed connection that would close it again. */
  predicate ClosesAgain(c: Conn, step: Step) {
    && c.stage.Dispatch?
    && (|| (step.DoClose? && CloseFires(c.stage.revents))
        || (step.DoRead? && step.input.Eof? && ReadFires(c.stage.revents)))
  }

  lemma ClosedTask(c: Conn, task: Task, answer: Answer)
    requires Closed(c) && task in c.tasks && AssertsHold(c, RunTask(task, answer))
    ensures var d := Perform(c.(tasks := c.tasks - multiset{task}), task, answer);
            && Closed(d) && d.reading == c.reading && d.wanted == c.wanted && d.stage == c.stage
            && d.accepted == c.accepted && d.sent == c.sent && (!task.ShutdownLater? ==> d.shut == c.shut)
            && (c.life == LIFE ==> d.life == LIFE && d.registered == c.registered)
  {
    assert LIFE[..4] == LIFE[..3] + [Erased] && LIFE == LIFE[..4] + [Removed];
  }

  lemma ClosedAsserts(c: Conn, step: Step)
    requires Closed(c) && Enabled(c, step)
    ensures AssertsHold(c, step)
       <==> !(step.RunTask? && step.task.Destroy? && c.reading) && !ClosesAgain(c, step)
    ensures step.Begin? ==> c.reading
  {
    hide CloseFires, ReadFires;
  }

  /** What a step leaves of a closed connection. */
  predicate StaysClosed(c: Conn, step: Step, d: Conn) {
    && Closed(d) && d.accepted == c.accepted && d.sent == c.sent
    && d.reading == ReadingAfter(c.reading, step) && (c.life == LIFE ==> d.life == LIFE)
  }

  lemma ClosedDispatch(c: Conn, step: Step)
    requires Closed(c) && Enabled(c, step) && AssertsHold(c, step)
    requires step.Begin? || step.DoClose? || step.DoError? || step.DoRead?
    ensures StaysClosed(c, step, Next(c, step))
  {
    hide CloseFires, ReadFires;
  }

  lemma ClosedCall(c: Conn, step: Step)
    requires Closed(c) && Enabled(c, step) && !step.RunTask? && !step.DoWrite?
    requires !step.Begin? && !step.DoClose? && !step.DoError? && !step.DoRead?
    ensures StaysClosed(c, step, Next(c, step))
  {
    hide SendInLoop;
  }

  lemma ClosedStep(c: Conn, step: Step)
    requires Closed(c) && Enabled(c, step) && AssertsHold(c, step)
    ensures StaysClosed(c, step, Next(c, step))
  {
    hide HandleWrite, WriteFires, Perform;
    match step {
      case RunTask(task, answer) => ClosedTask(c, task, answer);
      case DoWrite(answer) => SilentWrite(c, answer);
      case Begin(_) => ClosedDispatch(c, step);
      case DoClose => ClosedDispatch(c, step);
      case DoError => ClosedDispatch(c, step);
      case DoRead(_) => ClosedDispatch(c, step);
      case _ => ClosedCall(c, step);
    }
  }

  /** After the close nothing is accepted or written and the connection stays closed, whatever
      anyone does, and it waits for input exactly when the last call on its reading was a
      start. */
  lemma {:induction false} NothingAfterClose(c: Conn, steps: seq<Step>)
    requires Closed(c) && Survives(c, steps)
    ensures var d := After(c, steps);
            Closed(d) && d.accepted == c.accepted && d.sent == c.sent && d.reading == LeftReading(c.reading, steps)
    decreases steps
  {
    if steps != [] {
      hide Closed, Enabled, AssertsHold, Next, ReadingAfter;
      ClosedStep(c, steps[0]);
      NothingAfterClose(Next(c, steps[0]), steps[1..]);
    }
  }

  /** A closed connection runs into an assertion if and only if it is destroyed while the last
      call on its reading was a start, or an event would close it again; and an event can only
      begin after such a start. */
  lemma ClosedAssertsHoldIff(c: Conn, steps: seq<Step>, step: Step)
    requires Inv(c) && c.state.Disconnected? && Survives(c, steps) && Enabled(After(c, steps), step)
    ensures var d, on := After(c, steps), LeftReading(false, steps);
            && (AssertsHold(d, step) <==> !(step.RunTask? && step.task.Destroy? && on) && !ClosesAgain(d, step))
            && (step.Begin? ==> on)
  {
    hide Inv, Closed, Survives, After, LeftReading, Enabled, AssertsHold, ClosesAgain;
    InvIsClosed(c);
    NothingAfterClose(c, steps);
    ClosedAsserts(After(c, steps), step);
  }

  /** Some continuation without further calls on the reading fails an assertion. */
  ghost predicate CanFail(c: Conn) {
    exists more: seq<Step>, step: Step :: Fails(c, more, step)
  }

  predicate Fails(c: Conn, more: seq<Step>, step: Step) {
    && (forall s :: s in more ==> !IsReadCall(s))
    && Survives(c, more) && Enabled(After(c, more), step) && !AssertsHold(After(c, more), step)
  }

  lemma IdleStaysIdle(c: Conn, step: Step)
    requires Closed(c) && !c.reading && c.stage.Idle? && Enabled(c, step)
    ensures AssertsHold(c, step) && Next(c, step).stage.Idle?
    ensures !IsReadCall(step) ==> !Next(c, step).reading
  {
    hide Perform;
    if step.RunTask? {
      ClosedTask(c, step.task, step.answer);
    }
  }

  lemma {:induction false} QuietNeverFails(c: Conn, more: seq<Step>, step: Step)
    requires Closed(c) && !c.reading && c.stage.Idle?
    ensures !Fails(c, more, step)
    decreases more
  {
    hide Closed, Enabled, AssertsHold, Next, IsReadCall;
    if Fails(c, more, step) {
      if more == [] {
        IdleStaysIdle(c, step);
      } else {
        assert more[0] in more;
        IdleStaysIdle(c, more[0]);
        ClosedStep(c, more[0]);
        QuietNeverFails(Next(c, more[0]), more[1..], step);
      }
      assert false;
    }
  }

  lemma OneStep(c: Conn, steps: seq<Step>)
    requires steps != [] && Enabled(c, steps[0]) && AssertsHold(c, steps[0]) && Survives(Next(c, steps[0]), steps[1..])
    ensures Survives(c, steps) && After(c, steps) == After(Next(c, steps[0]), steps[1..])
  {
    hide Enabled, AssertsHold, Next;
  }

  /** The end of the stream is read on a closed connection. */
  lemma EndOfStreamFails(c: Conn)
    requires Closed(c) && c.reading && c.stage.Idle?
    ensures Fails(c, [Begin(POLLIN), DoClose, DoError], DoRead(Eof))
  {
    assert c.sent <= |c.accepted| && c.registered && c.state.Disconnected?;
    InputReads();
    hide Closed, CloseFires, ReadFires, Survives, After, IsReadCall;
    var last: seq<Step> := [DoError];
    var two := [DoClose, DoError];
    var all := [Begin(POLLIN), DoClose, DoError];
    var c1 := c.(stage := Dispatch(POLLIN, AtClose));
    var c2 := c.(stage := Dispatch(POLLIN, AtError));
    var c3 := c.(stage := Dispatch(POLLIN, AtRead));
    assert Survives(c3, []) && After(c3, []) == c3 by { NoSteps(c3); }
    assert last[1..] == [] && two[1..] == last && all[1..] == two;
    assert Next(c2, DoError) == c3 && Next(c1, DoClose) == c2 && Next(c, Begin(POLLIN)) == c1;
    assert AssertsHold(c1, DoClose) && !AssertsHold(c3, DoRead(Eof));
    hide Next, AssertsHold;
    OneStep(c2, last);
    OneStep(c1, two);
    OneStep(c, all);
    assert forall s :: s in all ==> !IsReadCall(s) by { NoReadCalls(POLLIN); }
  }

  lemma NoReadCalls(revents: Mask)
    ensures forall s :: s in [Begin(revents), DoClose, DoError] ==> !IsReadCall(s)
  {
  }

  lemma InputReads()
    ensures !CloseFires(POLLIN) && ReadFires(POLLIN)
  {
  }

  lemma NoSteps(c: Conn)
    ensures Survives(c, []) && After(c, []) == c
  {
  }

  /** Between events, a closed connection can still run into an assertion if and only if the
      last call on its reading since the close was a start. */
  lemma ClosedCanFailIff(c: Conn, steps: seq<Step>)
    requires Inv(c) && c.state.Disconnected? && Survives(c, steps) && After(c, steps).stage.Idle?
    ensures CanFail(After(c, steps)) <==> LeftReading(false, steps)
  {
    hide Inv, Closed, Survives, LeftReading, Fails;
    InvIsClosed(c);
    NothingAfterClose(c, steps);
    var d := After(c, steps);
    if d.reading {
      EndOfStreamFails(d);
    } else {
      forall more: seq<Step>, step: Step
        ensures !Fails(d, more, step)
      {
        QuietNeverFails(d, more, step);
      }
    }
  }

  lemma RemovedStep(c: Conn, step: Step)
    requires Closed(c) && c.life == LIFE && Enabled(c, step) && AssertsHold(c, step)
    ensures var d := Next(c, step);
            && (d.registered <==> c.registered || step.StartRead? || (c.wanted && step.StopRead?))
            && (!d.registered ==> d.wanted == c.wanted)
  {
    hide SendInLoop, HandleWrite, CloseFires, ReadFires, WriteFires, Perform;
    match step {
      case RunTask(task, answer) => ClosedTask(c, task, answer);
      case DoWrite(answer) => SilentWrite(c, answer);
      case _ =>
    }
  }

  lemma {:induction false} RemovedRun(c: Conn, steps: seq<Step>)
    requires Closed(c) && c.life == LIFE && Survives(c, steps)
    ensures After(c, steps).registered <==> c.registered || StartRead in steps || (c.wanted && StopRead in steps)
    decreases steps
  {
    if steps != [] {
      hide Closed, Enabled, AssertsHold, Next;
      assert steps == [steps[0]] + steps[1..];
      ClosedStep(c, steps[0]);
      RemovedStep(c, steps[0]);
      RemovedRun(Next(c, steps[0]), steps[1..]);
    }
  }

  /** The destructor of a channel asserts that it is not in the loop.  A channel that was
      removed is back in if and only if reading was started since, or stopped without having
      been stopped before. */
  lemma RemovedStaysOutIff(c: Conn, steps: seq<Step>)
    requires Inv(c) && c.life == LIFE && Survives(c, steps)
    ensures !After(c, steps).registered <==> StartRead !in steps && (c.wanted ==> StopRead !in steps)
  {
    hide Closed, Survives, After;
    assert c.state.Disconnected?;
    InvIsClosed(c);
    RemovedRun(c, steps);
  }

  function Rank(state: State): nat {
    match state
    case Connecting => 0
    case Connected => 1
    case Disconnecting => 2
    case Disconnected => 3
  }

  lemma TaskGoesOn(c: Conn, task: Task, answer: Answer)
    requires c.sent <= |c.accepted| && (task.Establish? ==> c.state.Connecting?)
    ensures Rank(c.state) <= Rank(Perform(c, task, answer).state)
  {
  }

  lemma StepGoesOn(c: Conn, step: Step)
    requires Enabled(c, step) && AssertsHold(c, step)
    ensures Rank(c.state) <= Rank(Next(c, step).state)
  {
    hide Perform, SendInLoop, HandleWrite, CloseFires, ReadFires, WriteFires;
    match step {
      case RunTask(task, answer) => TaskGoesOn(c.(tasks := c.tasks - multiset{task}), task, answer);
      case Send(message, answer) => SendKeepsState(c, message, answer);
      case DoWrite(answer) => WriteKeepsState(c, answer);
      case _ =>
    }
  }

  lemma SendKeepsState(c: Conn, message: seq<Byte>, answer: Answer)
    requires c.sent <= |c.accepted|
    ensures SendInLoop(c, message, answer).state == c.state && SendInLoop(c, message, answer).reading == c.reading
    ensures c.tasks <= SendInLoop(c, message, answer).tasks
  {
  }

  lemma WriteKeepsState(c: Conn, answer: Answer)
    requires c.sent <= |c.accepted|
    ensures HandleWrite(c, answer).state == c.state && HandleWrite(c, answer).reading == c.reading
    ensures HandleWrite(c, answer).received == c.received
    ensures c.tasks <= HandleWrite(c, answer).tasks
  {
  }

  /** The state only ever goes on. */
  lemma {:induction false} NeverGoesBack(c: Conn, steps: seq<Step>)
    requires Survives(c, steps)
    ensures Rank(c.state) <= Rank(After(c, steps).state)
    decreases steps
  {
    if steps != [] {
      hide Enabled, AssertsHold, Next, Rank;
      StepGoesOn(c, steps[0]);
      NeverGoesBack(Next(c, steps[0]), steps[1..]);
    }
  }

  /** The close is done, or a task that brings it about is queued. */
  predicate CloseDue(c: Conn) {
    c.state.Disconnected? || (c.state.Disconnecting? && (ForceCloseLater in c.tasks || ForceCloseDelayed in c.tasks))
  }

  lemma TaskKeepsTasks(c: Conn, task: Task, answer: Answer)
    requires c.sent <= |c.accepted| && c.state.Disconnecting? && !task.Establish? && !task.ForceCloseLater?
    ensures var d := Perform(c, task, answer);
            && (d.state.Disconnecting? || d.state.Disconnected?) && c.tasks <= d.tasks
            && (task.ForceCloseDelayed? ==> ForceCloseLater in d.tasks)
  {
    hide SendInLoop;
    if task.SendLater? {
      SendKeepsState(c, task.message, answer);
    }
  }

  lemma TaskKeepsClosed(c: Conn, task: Task, answer: Answer)
    requires c.sent <= |c.accepted| && (task.ForceCloseLater? || c.state.Disconnected?) && !c.state.Connecting? && !task.Establish?
    ensures Perform(c, task, answer).state.Disconnected?
  {
  }

  lemma TaskKeepsDue(c: Conn, task: Task, answer: Answer)
    requires c.sent <= |c.accepted| && CloseDue(c) && task in c.tasks && (task.Establish? ==> c.state.Connecting?)
    ensures CloseDue(Perform(c.(tasks := c.tasks - multiset{task}), task, answer))
  {
    hide Perform;
    var b := c.(tasks := c.tasks - multiset{task});
    if task.ForceCloseLater? || c.state.Disconnected? {
      TaskKeepsClosed(b, task, answer);
    } else {
      TaskKeepsTasks(b, task, answer);
      var other := if ForceCloseLater in c.tasks then ForceCloseLater else ForceCloseDelayed;
      if other != task {
        OthersStay(c.tasks, task, other);
      }
    }
  }

  lemma OthersStay(tasks: multiset<Task>, task: Task, other: Task)
    requires other in tasks && other != task
    ensures other in tasks - multiset{task}
  {
  }

  lemma StepKeepsDue(c: Conn, step: Step)
    requires CloseDue(c) && Enabled(c, step) && AssertsHold(c, step)
    ensures CloseDue(Next(c, step))
  {
    hide Perform, SendInLoop, HandleWrite, CloseFires, ReadFires, WriteFires;
    match step {
      case RunTask(task, answer) => TaskKeepsDue(c, task, answer);
      case Send(message, answer) => SendKeepsState(c, message, answer);
      case DoWrite(answer) => WriteKeepsState(c, answer);
      case _ =>
    }
  }

  lemma {:induction false} DueStays(c: Conn, steps: seq<Step>)
    requires CloseDue(c) && Survives(c, steps)
    ensures CloseDue(After(c, steps))
    decreases steps
  {
    if steps != [] {
      hide Enabled, AssertsHold, Next, CloseDue;
      StepKeepsDue(c, steps[0]);
      DueStays(Next(c, steps[0]), steps[1..]);
    }
  }

  /** A close that was asked for on an open connection, now or with a delay, is done or queued
      ever after; a shutdown asked for ends the sending ever after, and is done, waits for
      bytes to be written or is queued. */
  lemma RequestsStick(c: Conn, request: Step, steps: seq<Step>)
    requires Inv(c) && Enabled(c, request) && ValidRun(Next(c, request), steps)
    ensures Active(c) && (request.ForceClose? || request.ForceCloseWithDelay?) ==> CloseDue(Run(Next(c, request), steps))
    ensures c.state.Connected? && (request.Shutdown? || request.RemoteShutdown?) ==>
              var d := Run(Next(c, request), steps);
              CloseDue(d) || (d.state.Disconnecting? && (d.shut || d.sent < |d.accepted| || ShutdownLater in d.tasks))
  {
    if (Active(c) && (request.ForceClose? || request.ForceCloseWithDelay?))
       || (c.state.Connected? && (request.Shutdown? || request.RemoteShutdown?)) {
      var b := Next(c, request);
      CallKeepsInv(c, request);
      RequestTakes(c, request);
      RunKeepsInv(b, steps);
      hide Survives, After, ValidRun, Run, Enabled, Next, CloseDue;
      NeverGoesBack(b, steps);
      if CloseDue(b) {
        DueStays(b, steps);
      }
      StillClosing(Run(b, steps));
    }
  }

  lemma RequestTakes(c: Conn, request: Step)
    requires Enabled(c, request)
    ensures Active(c) && (request.ForceClose? || request.ForceCloseWithDelay?) ==> CloseDue(Next(c, request))
    ensures c.state.Connected? && (request.Shutdown? || request.RemoteShutdown?) ==> Next(c, request).state.Disconnecting?
  {
  }

  lemma StillClosing(c: Conn)
    requires Inv(c) && Rank(c.state) >= 2
    ensures CloseDue(c) || (c.state.Disconnecting? && (c.shut || c.sent < |c.accepted| || ShutdownLater in c.tasks))
  {
  }

  lemma StepKeepsReading(c: Conn, step: Step)
    requires Enabled(c, step) && AssertsHold(c, step)
    ensures var d := Next(c, step);
            d.state.Disconnected? || d.reading == ReadingAfter(c.reading, step)
  {
    hide Perform, SendInLoop, HandleWrite, CloseFires, ReadFires, WriteFires;
    match step {
      case RunTask(task, answer) => TaskKeepsReading(c.(tasks := c.tasks - multiset{task}), task, answer);
      case Send(message, answer) => SendKeepsState(c, message, answer);
      case DoWrite(answer) => WriteKeepsState(c, answer);
      case _ =>
    }
  }

  lemma TaskKeepsReading(c: Conn, task: Task, answer: Answer)
    requires c.sent <= |c.accepted|
    ensures var d := Perform(c, task, answer); d.state.Disconnected? || d.reading == (task.Establish? || c.reading)
  {
    hide SendInLoop;
    if task.SendLater? {
      SendKeepsState(c, task.message, answer);
    }
  }

  /** A connection that is not closed waits for input exactly when its start, or its user, last
      wanted it to. */
  lemma {:induction false} OpenReads(c: Conn, steps: seq<Step>)
    requires Survives(c, steps)
    ensures var d := After(c, steps); d.state.Disconnected? || d.reading == LeftReading(c.reading, steps)
    decreases steps
  {
    if steps != [] {
      hide Enabled, AssertsHold, Next, ReadingAfter;
      StepGoesOn(c, steps[0]);
      StepKeepsReading(c, steps[0]);
      NeverGoesBack(Next(c, steps[0]), steps[1..]);
      OpenReads(Next(c, steps[0]), steps[1..]);
    }
  }

  /** The milestones come in order and at most once each; when a connection has closed and no
      task of its removal is left, each has come exactly once. */
  lemma LifeExactlyOnce(steps: seq<Step>)
    requires ValidRun(START, steps)
    ensures var c := Run(START, steps);
            && c.life <= LIFE
            && (c.state.Disconnected? && Erase !in c.tasks && Destroy !in c.tasks <==> c.life == LIFE)
            && (c.life == LIFE ==> !c.mapped && !c.registered)
  {
    hide Run, ValidRun;
    StartInv();
    RunKeepsInv(START, steps);
    assert LifeInv(Run(START, steps));
    assert LIFE[..1] == [Up];
  }

  lemma ReachedInv(steps: seq<Step>, c: Conn)
    requires Reaches(steps, c)
    ensures Inv(c)
  {
    StartInv();
    RunKeepsInv(START, steps);
  }

  // ---- Where the conditions come from ----

  ghost predicate Reaches(steps: seq<Step>, c: Conn) {
    ValidRun(START, steps) && Run(START, steps) == c
  }

  lemma {:induction false} RunOneMore(c: Conn, steps: seq<Step>, step: Step)
    requires ValidRun(c, steps) && Regular(Run(c, steps), step)
    ensures ValidRun(c, steps + [step]) && Run(c, steps + [step]) == Next(Run(c, steps), step)
    decreases steps
  {
    hide Enabled, DoubleClose, Untimely, Next;
    if steps == [] {
      assert steps + [step] == [step];
    } else {
      assert (steps + [step])[1..] == steps[1..] + [step];
      RunOneMore(Next(c, steps[0]), steps[1..], step);
    }
  }

  lemma Onward(steps: seq<Step>, c: Conn, step: Step) returns (more: seq<Step>)
    requires Reaches(steps, c) && Regular(c, step)
    ensures more == steps + [step] && Reaches(more, Next(c, step))
  {
    RunOneMore(START, steps, step);
    more := steps + [step];
  }

  const ESTABLISHED := START.(state := Connected, reading := true, registered := true, life := [Up], tasks := multiset{})

  lemma Established() returns (steps: seq<Step>)
    ensures Reaches(steps, ESTABLISHED)
  {
    assert Reaches([], START);
    steps := Onward([], START, RunTask(Establish, Blocked));
    assert multiset{Establish} - multiset{Establish} == multiset{};
  }

  /** A hang-up reported without input but with urgent data, whose read then finds the end of
      the stream, closes the connection twice. */
  lemma DoubleCloseHappens() returns (steps: seq<Step>, c: Conn)
    ensures Reaches(steps, c) && Enabled(c, DoRead(Eof)) && !AssertsHold(c, DoRead(Eof))
  {
    hide Reaches;
    var revents := POLLHUP | POLLPRI;
    steps := Established();
    steps := Onward(steps, ESTABLISHED, Begin(revents));
    c := ESTABLISHED.(stage := Dispatch(revents, AtClose));
    steps := Onward(steps, c, DoClose);
    c := HandleClose(c).(stage := Dispatch(revents, AtError));
    steps := Onward(steps, c, DoError);
    c := c.(stage := Dispatch(revents, AtRead));
  }

  /** Reading that is started after the close makes the assertion about the channel's mask fail
      when the connection is destroyed. */
  lemma ReadAfterCloseHappens() returns (steps: seq<Step>, c: Conn)
    ensures Reaches(steps, c) && Enabled(c, StartRead) && c.state.Disconnected?
    ensures var d := Next(c, StartRead); Enabled(d, RunTask(Destroy, Blocked)) && !AssertsHold(d, RunTask(Destroy, Blocked))
  {
    hide Reaches;
    steps := Established();
    steps := Onward(steps, ESTABLISHED, ForceClose);
    c := ESTABLISHED.(state := Disconnecting, tasks := multiset{ForceCloseLater});
    steps := Onward(steps, c, RunTask(ForceCloseLater, Blocked));
    c := HandleClose(c.(tasks := c.tasks - multiset{ForceCloseLater}));
    steps := Onward(steps, c, RunTask(Erase, Blocked));
    c := Perform(c.(tasks := c.tasks - multiset{Erase}), Erase, Blocked);
  }

  /** After the close a shutdown asked for by another thread may still be carried out, with
      bytes undelivered. */
  lemma LateShutdownHappens() returns (steps: seq<Step>, c: Conn)
    ensures Reaches(steps, c) && c.shut && c.sent < |c.accepted|
  {
    hide Reaches;
    steps := Established();
    steps := Onward(steps, ESTABLISHED, Send([1], Blocked));
    c := ESTABLISHED.(accepted := [1], writing := true);
    assert Next(ESTABLISHED, Send([1], Blocked)) == c by { assert [] + [1] == [1]; }
    steps, c := LateTail(steps, c);
  }

  lemma LateTail(before: seq<Step>, start: Conn) returns (steps: seq<Step>, c: Conn)
    requires Reaches(before, start) && start == ESTABLISHED.(accepted := [1], writing := true)
    ensures Reaches(steps, c) && c.shut && c.sent < |c.accepted|
  {
    hide Reaches;
    steps := Onward(before, start, RemoteShutdown);
    c := start.(state := Disconnecting, tasks := multiset{ShutdownLater});
    steps := Onward(steps, c, ForceClose);
    c := c.(tasks := multiset{ShutdownLater, ForceCloseLater});
    steps := Onward(steps, c, RunTask(ForceCloseLater, Blocked));
    c := HandleClose(c.(tasks := c.tasks - multiset{ForceCloseLater}));
    steps := Onward(steps, c, RunTask(ShutdownLater, Blocked));
    c := c.(tasks := c.tasks - multiset{ShutdownLater}, shut := true);
  }
}
