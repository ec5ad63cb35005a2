/**
 `TcpConnection` and `TcpServer` with their buffers, channel and callbacks.  Every execution
 is a run of the protocol in `TcpProtocol`.
 */
module TcpConnections {
  import opened Bytes
  import opened Buffers
  import opened Channels
  import opened TcpProtocol

  /** The interest mask of a channel. */
  function MaskOf(reading: bool, writing: bool): Mask {
    (if reading then READ_EVENT else NONE_EVENT) | (if writing then WRITE_EVENT else NONE_EVENT)
  }

  /** What a connection holds, apart from its history. */
  datatype Fields = Fields(
    state: State, events: Mask, wanted: bool, added: bool, tasks: multiset<Task>, life: seq<Milestone>, shut: bool,
    wire: seq<Byte>, output: seq<Byte>, taken: seq<Byte>, input: seq<Byte>)

  predicate Matches(f: Fields, c: Conn) {
    && f.state == c.state && f.events == MaskOf(c.reading, c.writing) && f.added == c.registered && f.wanted == c.wanted
    && f.tasks == c.tasks && f.life == c.life && f.shut == c.shut
    && c.sent <= |c.accepted| && f.wire == c.accepted[..c.sent] && f.output == c.accepted[c.sent..]
    && c.consumed <= |c.received| && f.taken == c.received[..c.consumed] && f.input == c.received[c.consumed..]
  }

  predicate IsCall(step: Step) {
    || step.Send? || step.Shutdown? || step.StartRead? || step.StopRead? || step.Consume?
    || step.RemoteSend? || step.RemoteShutdown? || step.ForceClose? || step.ForceCloseWithDelay?
  }

  /** The steps of a run that are not calls of users. */
  function LoopSteps(steps: seq<Step>): seq<Step> {
    if steps == [] then []
    else LoopSteps(steps[..|steps| - 1]) + if IsCall(steps[|steps| - 1]) then [] else [steps[|steps| - 1]]
  }

  lemma MaskBits(reading: bool, writing: bool)
    ensures var m := MaskOf(reading, writing);
            && (Has(m, READ_EVENT) <==> reading) && (Has(m, WRITE_EVENT) <==> writing)
            && With(m, WRITE_EVENT) == MaskOf(reading, true) && Without(m, WRITE_EVENT) == MaskOf(reading, false)
            && With(m, READ_EVENT) == MaskOf(true, writing) && Without(m, READ_EVENT) == MaskOf(false, writing)
            && (m == NONE_EVENT <==> !reading && !writing)
  {
  }

  /** What the attempt to write a message at once does to the fields. */
  function Attempted(f: Fields, message: seq<Byte>, a: Answer): Fields
    requires a.Wrote? ==> a.n <= |message|
  {
    if a.Wrote? then f.(wire := f.wire + message[..a.n], tasks := f.tasks + Completed(true, |message| - a.n)) else f
  }

  /** What queueing the rest of a message does to them. */
  function Enqueued(f: Fields, data: seq<Byte>): Fields {
    f.(output := f.output + data, tasks := f.tasks + Crossed(|f.output|, |data|),
       events := if |data| > 0 then With(f.events, WRITE_EVENT) else f.events)
  }

  lemma EnqueuedParts(f: Fields, data: seq<Byte>)
    ensures Enqueued(f, data)
         == if data == [] then f
            else f.(output := f.output + data, events := With(f.events, WRITE_EVENT),
                    tasks := if |f.output| < HIGH_WATER_MARK <= |f.output| + |data|
                             then f.tasks + multiset{HighWater(|f.output| + |data|)} else f.tasks)
  {
  }

  lemma WithTwice(m: Mask)
    ensures Has(m, WRITE_EVENT) ==> With(m, WRITE_EVENT) == m
  {
  }

  lemma QueuedBytes(f: Fields, c: Conn, message: seq<Byte>, n: nat)
    requires Matches(f, c) && n <= |message| && (n > 0 ==> f.output == [])
    ensures var accepted := c.accepted + message;
            && |f.output| == |c.accepted| - c.sent
            && f.wire + message[..n] == accepted[..c.sent + n] && f.output + message[n..] == accepted[c.sent + n..]
  {
    hide MaskOf;
    if n == 0 {
      assert f.wire + message[..n] == f.wire;
      assert message[n..] == message;
    }
  }

  lemma SendResult(c: Conn, message: seq<Byte>, answer: Answer, a: Answer, n: nat)
    requires c.sent <= |c.accepted| && c.state != Disconnected
    requires a == if !c.writing && c.sent == |c.accepted| then Reply(c.shut, |message|, answer) else Blocked
    requires !a.Broken? && n == if a.Wrote? then a.n else 0
    ensures n <= |message|
    ensures SendInLoop(c, message, answer)
         == c.(accepted := c.accepted + message, sent := c.sent + n, writing := c.writing || n < |message|,
               tasks := c.tasks + Completed(a.Wrote?, |message| - n) + Crossed(|c.accepted| - c.sent, |message| - n))
  {
    hide Completed, Crossed;
  }

  lemma QueuedParts(f: Fields, message: seq<Byte>, a: Answer, n: nat)
    requires n <= |message| && n == if a.Wrote? then a.n else 0
    ensures Enqueued(Attempted(f, message, a), message[n..])
         == f.(wire := f.wire + message[..n], output := f.output + message[n..],
               events := if n < |message| then With(f.events, WRITE_EVENT) else f.events,
               tasks := f.tasks + Completed(a.Wrote?, |message| - n) + Crossed(|f.output|, |message| - n))
  {
    hide With, Crossed;
    if !a.Wrote? {
      assert f.wire + message[..n] == f.wire;
      assert f.tasks + Completed(false, |message| - n) == f.tasks;
    }
  }

  lemma QueuedMatches(f: Fields, c: Conn, message: seq<Byte>, answer: Answer, a: Answer, n: nat)
    requires Matches(f, c) && c.state != Disconnected
    requires a == if !Has(f.events, WRITE_EVENT) && f.output == [] then Reply(f.shut, |message|, answer) else Blocked
    requires !a.Broken? && n == if a.Wrote? then a.n else 0
    ensures n <= |message| && Matches(Enqueued(Attempted(f, message, a), message[n..]), SendInLoop(c, message, answer))
  {
    hide Reply, MaskOf, With, Without, Has, SendInLoop, Crossed, Completed, Enqueued, Attempted;
    MaskBits(c.reading, c.writing);
    QueuedBytes(f, c, message, n);
    SendResult(c, message, answer, a, n);
    QueuedParts(f, message, a, n);
  }

  lemma BrokenMatches(f: Fields, c: Conn, message: seq<Byte>, answer: Answer)
    requires Matches(f, c)
    requires c.state == Disconnected || (!Has(f.events, WRITE_EVENT) && f.output == [] && Reply(f.shut, |message|, answer).Broken?)
    ensures SendInLoop(c, message, answer) == c
  {
    hide Reply, MaskOf, With, Without, Has;
    MaskBits(c.reading, c.writing);
  }

  lemma StateMatches(f: Fields, c: Conn)
    requires Matches(f, c)
    ensures f.state == c.state && c.sent <= |c.accepted|
  {
  }

  /** What a write of `n` queued bytes does to the fields. */
  function Written(f: Fields, n: nat): Fields
    requires n <= |f.output|
  {
    var f1 := f.(wire := f.wire + f.output[..n], output := f.output[n..]);
    if n < |f.output| || n == 0 then f1
    else
      f1.(events := Without(f.events, WRITE_EVENT), tasks := f.tasks + multiset{WriteComplete},
          shut := f.shut || f.state == Disconnecting)
  }

  lemma WrittenBytes(f: Fields, c: Conn, n: nat)
    requires Matches(f, c) && n <= |f.output|
    ensures |f.output| == |c.accepted| - c.sent
    ensures f.wire + f.output[..n] == c.accepted[..c.sent + n] && f.output[n..] == c.accepted[c.sent + n..]
  {
    hide MaskOf;
  }

  lemma WriteResult(c: Conn, answer: Answer, n: nat)
    requires c.sent <= |c.accepted| && c.writing
    requires var a := Reply(c.shut, |c.accepted| - c.sent, answer); n == if a.Wrote? then a.n else 0
    ensures c.sent + n <= |c.accepted|
    ensures HandleWrite(c, answer)
         == if n == 0 || c.sent + n < |c.accepted| then c.(sent := c.sent + n)
            else c.(sent := c.sent + n, writing := false, tasks := c.tasks + multiset{WriteComplete},
                    shut := c.shut || c.state.Disconnecting?)
  {
    hide Reply;
  }

  lemma WrittenParts(f: Fields, n: nat)
    requires n <= |f.output|
    ensures !Has(Without(f.events, WRITE_EVENT), WRITE_EVENT)
    ensures n == 0 ==> Written(f, n) == f && f.wire + f.output[..n] == f.wire
    ensures 0 < n < |f.output| ==> Written(f, n) == f.(wire := f.wire + f.output[..n], output := f.output[n..])
    ensures 0 < n == |f.output| ==>
              Written(f, n) == f.(wire := f.wire + f.output[..n], output := f.output[n..],
                                  events := Without(f.events, WRITE_EVENT), tasks := f.tasks + multiset{WriteComplete},
                                  shut := f.shut || f.state == Disconnecting)
  {
    if n == 0 {
      assert f.wire + f.output[..n] == f.wire;
    }
  }

  lemma NotWriting(f: Fields, c: Conn, answer: Answer)
    requires Matches(f, c) && !Has(f.events, WRITE_EVENT)
    ensures HandleWrite(c, answer) == c
  {
    hide MaskOf, Has, With, Without;
    MaskBits(c.reading, c.writing);
  }

  lemma WrittenMatches(f: Fields, c: Conn, answer: Answer, n: nat)
    requires Matches(f, c) && Has(f.events, WRITE_EVENT)
    requires var a := Reply(f.shut, |f.output|, answer); n == if a.Wrote? then a.n else 0
    ensures Matches(Written(f, n), HandleWrite(c, answer))
  {
    hide Reply, MaskOf, With, Without, Has, HandleWrite, Written;
    MaskBits(c.reading, c.writing);
    assert |f.output| == |c.accepted| - c.sent;
    WriteResult(c, answer, n);
    WrittenBytes(f, c, n);
    WrittenParts(f, n);
  }

  lemma LoopStepsMore(steps: seq<Step>, step: Step)
    ensures LoopSteps(steps + [step]) == LoopSteps(steps) + if IsCall(step) then [] else [step]
  {
    hide IsCall;
    assert (steps + [step])[..|steps|] == steps;
  }

  /** While a connection is open its channel is in the poller. */
  lemma OpenIsRegistered(f: Fields, c: Conn, trace: seq<Step>)
    requires Matches(f, c) && Reaches(trace, c)
    ensures c.sent <= |c.accepted| && f.state == c.state && f.tasks == c.tasks
    ensures Active(c) ==> f.added
    ensures c.stage.Dispatch? ==> !c.state.Connecting? && (f.state == Connected || f.state == Disconnecting || f.events == NONE_EVENT)
  {
    ReachedInv(trace, c);
  }

  lemma ConsumeMatches(f: Fields, c: Conn, n: nat)
    requires Matches(f, c) && n <= |f.input|
    ensures Enabled(c, Consume(n)) && Regular(c, Consume(n))
    ensures Matches(f.(taken := f.taken + f.input[..n], input := f.input[n..]), Next(c, Consume(n)))
  {
    hide MaskOf;
    assert f.taken + f.input[..n] == c.received[..c.consumed + n];
    assert f.input[n..] == c.received[c.consumed + n..];
  }

  lemma ReadMatches(f: Fields, c: Conn, bytes: seq<Byte>)
    requires Matches(f, c)
    ensures var received := c.received + bytes;
            f.taken == received[..c.consumed] && f.input + bytes == received[c.consumed..]
  {
  }

  lemma ShutdownMatches(f: Fields, c: Conn)
    requires Matches(f, c)
    ensures Matches(f.(shut := f.shut || !Has(f.events, WRITE_EVENT)), ShutdownInLoop(c))
  {
    hide MaskOf, Has, With, Without;
    MaskBits(c.reading, c.writing);
  }

  /** A task that is about to run finds what its assertions ask for. */
  lemma TaskReady(f: Fields, c: Conn, trace: seq<Step>, task: Task, answer: Answer)
    requires Matches(f, c) && Reaches(trace, c) && Enabled(c, RunTask(task, answer))
    ensures Matches(f.(tasks := f.tasks - multiset{task}), c.(tasks := c.tasks - multiset{task}))
    ensures Active(c) ==> f.added
    ensures f.state == c.state
    ensures task == Establish ==> f.state == Connecting && f.events == NONE_EVENT
    ensures task.SendLater? ==> f.state != Connecting
    ensures task == Destroy ==> f.state == Connected || f.events == NONE_EVENT
    ensures Regular(c, RunTask(task, answer))
  {
    hide StreamInv, Reaches;
    ReachedInv(trace, c);
    TaskKeepsInv(c, task, answer);
    assert c.state.Connecting? ==> !c.reading && !c.writing by { ClosedMasks(c); }
  }

  lemma MovedMatches(f: Fields, c: Conn, stage: Stage)
    requires Matches(f, c)
    ensures c.sent <= |c.accepted| && Matches(f, c.(stage := stage))
  {
  }

  lemma StageKept(c: Conn, input: Input)
    ensures HandleRead(c, input).stage == c.stage
  {
  }

  lemma CloseReady(f: Fields, c: Conn, trace: seq<Step>)
    requires Matches(f, c) && Reaches(trace, c) && c.stage.Dispatch? && c.stage.at.AtClose?
    ensures c.sent <= |c.accepted| && f.added && (f.state == Connected || f.state == Disconnecting)
  {
    ReachedInv(trace, c);
  }

  lemma ReadReady(f: Fields, c: Conn, trace: seq<Step>)
    requires Matches(f, c) && Reaches(trace, c) && c.stage.Dispatch? && c.stage.at.AtRead?
    ensures c.sent <= |c.accepted|
    ensures !CloseFires(c.stage.revents) ==> f.added && (f.state == Connected || f.state == Disconnecting)
  {
    hide CloseFires;
    ReachedInv(trace, c);
  }

  lemma WriteReady(f: Fields, c: Conn, trace: seq<Step>)
    requires Matches(f, c) && Reaches(trace, c)
    ensures c.sent <= |c.accepted| && (Has(f.events, WRITE_EVENT) ==> f.added)
  {
    hide Has, With, Without, MaskOf;
    ReachedInv(trace, c);
    MaskBits(c.reading, c.writing);
    ClosedMasks(c);
  }

  lemma SendKeepsStage(c: Conn, call: Step)
    requires IsCall(call)
    ensures Enabled(c, call) ==> Next(c, call).stage == c.stage
  {
  }

  /** When a call that starts or stops reading is a step of a regular run. */
  lemma TimelyCalls(f: Fields, c: Conn)
    requires Matches(f, c)
    ensures Regular(c, StartRead) <==> f.state == Connected || f.state == Disconnecting
    ensures Regular(c, StopRead) <==>
              f.state == Connected || f.state == Disconnecting || !f.wanted || (f.state == Disconnected && f.added)
    ensures forall n: nat :: Regular(c, Consume(n)) <==> n <= |f.input|
  {
    hide MaskOf;
  }

  lemma OtherCalls(c: Conn, call: Step)
    requires c.sent <= |c.accepted| && IsCall(call) && !call.StartRead? && !call.StopRead? && !call.Consume?
    ensures Regular(c, call)
  {
  }

  /** What user code makes of a state, and the calls it makes: those that are possible and
      timely. */
  function Called(c: Conn, script: seq<Step>): Conn {
    if script == [] then c
    else
      var d, call := Called(c, script[..|script| - 1]), script[|script| - 1];
      if Regular(d, call) then Next(d, call) else d
  }

  function Made(c: Conn, script: seq<Step>): seq<Step> {
    if script == [] then []
    else
      var front, call := script[..|script| - 1], script[|script| - 1];
      if Regular(Called(c, front), call) then Made(c, front) + [call] else Made(c, front)
  }

  lemma NothingMade(c: Conn, script: seq<Step>)
    ensures Called(c, script[..0]) == c && Made(c, script[..0]) == []
  {
  }

  lemma MadeMore(c: Conn, script: seq<Step>, i: nat)
    requires i < |script|
    ensures var d := Called(c, script[..i]);
            && Called(c, script[..i + 1]) == (if Regular(d, script[i]) then Next(d, script[i]) else d)
            && Made(c, script[..i + 1]) == if Regular(d, script[i]) then Made(c, script[..i]) + [script[i]] else Made(c, script[..i])
  {
    hide Regular, Next;
    assert script[..i + 1][..i] == script[..i];
  }

  lemma StartMatches(f: Fields, c: Conn)
    requires Matches(f, c)
    ensures c.sent <= |c.accepted|
    ensures Matches(if !f.wanted || !Has(f.events, READ_EVENT)
                    then f.(events := With(f.events, READ_EVENT), added := true, wanted := true) else f,
                    Next(c, StartRead))
  {
    hide MaskOf, Has, With, Without;
    MaskBits(c.reading, c.writing);
  }

  lemma StopMatches(f: Fields, c: Conn)
    requires Matches(f, c)
    ensures c.sent <= |c.accepted|
    ensures Matches(if f.wanted || Has(f.events, READ_EVENT)
                    then f.(events := Without(f.events, READ_EVENT), added := true, wanted := false) else f,
                    Next(c, StopRead))
  {
    hide MaskOf, Has, With, Without;
    MaskBits(c.reading, c.writing);
  }

  // ---- The parts of a dispatch ----

  lemma ClosePart(c: Conn, revents: Mask)
    requires c.sent <= |c.accepted| && c.stage == Dispatch(revents, AtClose)
    ensures Regular(c, DoClose)
    ensures Next(c, DoClose) == (if CloseFires(revents) then HandleClose(c) else c).(stage := Dispatch(revents, AtError))
  {
    hide CloseFires, ReadFires, HandleClose;
  }

  lemma ReadPart(c: Conn, revents: Mask, input: Input)
    requires c.sent <= |c.accepted| && c.stage == Dispatch(revents, AtRead)
    requires input.Data? ==> input.bytes != []
    requires !(CloseFires(revents) && ReadFires(revents) && input.Eof?)
    ensures Regular(c, DoRead(input))
    ensures Next(c, DoRead(input))
         == (if ReadFires(revents) then HandleRead(c, input) else c).(stage := Dispatch(revents, AtWrite))
  {
    hide CloseFires, ReadFires, HandleRead;
  }

  lemma WritePart(c: Conn, revents: Mask, answer: Answer)
    requires c.sent <= |c.accepted| && c.stage == Dispatch(revents, AtWrite)
    ensures Regular(c, DoWrite(answer))
    ensures Next(c, DoWrite(answer)) == (if WriteFires(revents) then HandleWrite(c, answer) else c).(stage := Idle)
  {
    hide WriteFires, HandleWrite;
  }

  /** The connection is out of the server's map. */
  lemma EraseMatches(f: Fields, c: Conn)
    requires Matches(f, c) && Erase in f.tasks
    ensures Enabled(c, RunTask(Erase, Blocked)) && Regular(c, RunTask(Erase, Blocked)) && !Next(c, RunTask(Erase, Blocked)).mapped
    ensures Matches(f.(life := f.life + [Erased], tasks := f.tasks - multiset{Erase} + multiset{Destroy}),
                    Next(c, RunTask(Erase, Blocked)))
  {
    hide MaskOf;
  }

  lemma DelayMatches(f: Fields, c: Conn)
    requires Matches(f, c)
    ensures Enabled(c, ForceCloseWithDelay) && Regular(c, ForceCloseWithDelay)
    ensures Matches(if f.state == Connected || f.state == Disconnecting
                    then f.(state := Disconnecting, tasks := f.tasks + multiset{ForceCloseDelayed}) else f,
                    Next(c, ForceCloseWithDelay))
  {
    hide MaskOf;
  }

  class TcpConnection {
    const id: nat
    const channel: Channel
    const inputBuffer: Buffer
    const outputBuffer: Buffer
    var state: State
    var reading: bool
    var tasks: multiset<Task>    // queued on the loops
    var life: seq<Milestone>     // callbacks made, in order
    var shut: bool               // the socket's write side
    ghost var wire: seq<Byte>    // bytes the kernel took
    ghost var taken: seq<Byte>   // bytes the user consumed
    ghost var spec: Conn
    ghost var trace: seq<Step>

    ghost predicate Shape()
      reads this, inputBuffer, outputBuffer
    {
      && inputBuffer.Valid() && outputBuffer.Valid()
      && inputBuffer != outputBuffer && inputBuffer.buffer != outputBuffer.buffer
    }

    ghost function View(): Fields
      reads this, channel, inputBuffer, outputBuffer, inputBuffer.buffer, outputBuffer.buffer
      requires Shape()
    {
      Fields(state, channel.events, reading, channel.addedToLoop, tasks, life, shut,
             wire, outputBuffer.Contents(), taken, inputBuffer.Contents())
    }

    /** The fields are those of the protocol's state. */
    ghost predicate Sound()
      reads this, channel, inputBuffer, outputBuffer, inputBuffer.buffer, outputBuffer.buffer
    {
      Shape() && Matches(View(), spec)
    }

    /** And the protocol came to that state in a run from its start. */
    ghost predicate Valid()
      reads this, channel, inputBuffer, outputBuffer, inputBuffer.buffer, outputBuffer.buffer
    {
      Sound() && Reaches(trace, spec)
    }

    constructor (id: nat, sockfd: nat)
      ensures Valid() && spec == START && this.id == id && trace == []
      ensures fresh(channel) && fresh(inputBuffer) && fresh(outputBuffer)
      ensures fresh(inputBuffer.buffer) && fresh(outputBuffer.buffer)
    {
      this.id := id;
      channel := new Channel(sockfd);
      inputBuffer := new Buffer(INITIAL_SIZE);
      outputBuffer := new Buffer(INITIAL_SIZE);
      state, reading, shut := Connecting, true, false;
      tasks, life := multiset{Establish}, [];
      wire, taken, spec, trace := [], [], START, [];
    }

    /** `sockets::write`. */
    method WriteSocket(data: seq<Byte>, answer: Answer) returns (a: Answer)
      modifies this`wire
      ensures a == Reply(shut, |data|, answer)
      ensures wire == if a.Wrote? then old(wire) + data[..a.n] else old(wire)
    {
      a := Reply(shut, |data|, answer);
      if a.Wrote? {
        wire := wire + data[..a.n];
      }
    }

    /** Tries to write at once what finds the queue empty. */
    method WriteDirectly(data: seq<Byte>, answer: Answer) returns (a: Answer, nwrote: nat)
      requires Shape()
      modifies this`wire, this`tasks
      ensures Shape() && nwrote <= |data|
      ensures a == if !Has(channel.events, WRITE_EVENT) && outputBuffer.Contents() == [] then Reply(shut, |data|, answer) else Blocked
      ensures nwrote == if a.Wrote? then a.n else 0
      ensures View() == Attempted(old(View()), data, a) && (!a.Wrote? ==> View() == old(View()))
    {
      a, nwrote := Blocked, 0;
      if !channel.IsWriting() && outputBuffer.ReadableBytes() == 0 {
        a := WriteSocket(data, answer);
        if a.Wrote? {
          nwrote := a.n;
          if |data| - nwrote == 0 {
            tasks := tasks + multiset{WriteComplete};
          }
        }
      }
    }

    method EnsureWriting()
      requires channel.addedToLoop
      modifies channel`events, channel`addedToLoop
      ensures channel.events == With(old(channel.events), WRITE_EVENT) && channel.addedToLoop
    {
      hide With, Has;
      WithTwice(channel.events);
      if !channel.IsWriting() {
        channel.EnableWriting();
      }
    }

    /** Queues what remains to be written. */
    method Enqueue(data: seq<Byte>)
      requires Shape() && channel.addedToLoop
      modifies this`tasks, channel`events, channel`addedToLoop, outputBuffer, outputBuffer.buffer
      ensures Shape() && (outputBuffer.buffer == old(outputBuffer.buffer) || fresh(outputBuffer.buffer))
      ensures View() == Enqueued(old(View()), data)
    {
      hide With, Has, Buffer.Contents, Enqueued, Buffer.Valid;
      EnqueuedParts(View(), data);
      var remaining := |data|;
      if remaining > 0 {
        var oldLen := outputBuffer.ReadableBytes();
        if oldLen + remaining >= HIGH_WATER_MARK && oldLen < HIGH_WATER_MARK {
          tasks := tasks + multiset{HighWater(oldLen + remaining)};
        }
        outputBuffer.Append(data);
        EnsureWriting();
      }
    }

    method SendInLoop(data: seq<Byte>, answer: Answer)
      requires Sound() && (state != Disconnected ==> channel.addedToLoop)
      modifies this`tasks, this`wire, this`spec, channel`events, channel`addedToLoop, outputBuffer, outputBuffer.buffer
      ensures Sound() && (outputBuffer.buffer == old(outputBuffer.buffer) || fresh(outputBuffer.buffer))
      ensures spec == TcpProtocol.SendInLoop(old(spec), data, answer)
    {
      hide Matches, Attempted, Enqueued, Reply, With, Has, Buffer.Contents, Buffer.Valid;
      ghost var f := View();
      StateMatches(f, spec);
      if state == Disconnected {
        BrokenMatches(f, spec, data, answer);
        return;
      }
      var a, nwrote := WriteDirectly(data, answer);
      if a == Broken {
        BrokenMatches(f, spec, data, answer);
        return;
      }
      QueuedMatches(f, spec, data, answer, a, nwrote);
      Enqueue(data[nwrote..]);
      spec := TcpProtocol.SendInLoop(spec, data, answer);
    }

    /** Shuts the socket's write side down, unless bytes are waiting to be written. */
    method ShutdownInLoop()
      modifies this`shut
      ensures shut == (old(shut) || !Has(channel.events, WRITE_EVENT))
    {
      if !channel.IsWriting() {
        shut := true;
      }
    }

    method HandleClose()
      requires Sound() && channel.addedToLoop && (state == Connected || state == Disconnecting)
      modifies this`state, this`life, this`tasks, this`spec, channel`events, channel`addedToLoop
      ensures Sound() && spec == TcpProtocol.HandleClose(old(spec))
    {
      hide Has, With, Without;
      state := Disconnected;
      channel.DisableAll();
      life := life + [Down];
      life := life + [CloseCallback];
      tasks := tasks + multiset{Erase};
      spec := TcpProtocol.HandleClose(spec);
    }

    /** Writes queued bytes; when none are left, stops writing and carries out a shutdown. */
    method WriteQueued(answer: Answer) returns (ghost n: nat)
      requires Shape() && channel.addedToLoop
      modifies this`wire, this`tasks, this`shut, channel`events, channel`addedToLoop
      modifies outputBuffer`readerIndex, outputBuffer`writerIndex
      ensures Shape()
      ensures var a := Reply(old(shut), |old(outputBuffer.Contents())|, answer); n == if a.Wrote? then a.n else 0
      ensures View() == Written(old(View()), n)
    {
      hide Reply, With, Without, Has, Written, Buffer.Contents, Buffer.Valid;
      ghost var f := View();
      var a := WriteSocket(outputBuffer.ToStringPiece(), answer);
      n := if a.Wrote? then a.n else 0;
      WrittenParts(f, n);
      if a.Wrote? && a.n > 0 {
        outputBuffer.Retrieve(a.n);
        if outputBuffer.ReadableBytes() == 0 {
          channel.DisableWriting();
          tasks := tasks + multiset{WriteComplete};
          if state == Disconnecting {
            ShutdownInLoop();
          }
        }
      }
    }

    method HandleWrite(answer: Answer)
      requires Sound() && (Has(channel.events, WRITE_EVENT) ==> channel.addedToLoop)
      modifies this`wire, this`tasks, this`shut, this`spec, channel`events, channel`addedToLoop
      modifies outputBuffer`readerIndex, outputBuffer`writerIndex
      ensures Sound() && spec == TcpProtocol.HandleWrite(old(spec), answer)
    {
      hide Matches, Reply, Has, Written, Buffer.Contents, Buffer.Valid;
      StateMatches(View(), spec);
      if channel.IsWriting() {
        ghost var f := View();
        ghost var n := WriteQueued(answer);
        WrittenMatches(f, spec, answer, n);
      } else {
        NotWriting(View(), spec, answer);
      }
      spec := TcpProtocol.HandleWrite(spec, answer);
    }

    // ---- Calls of users ----

    ghost method Record(before: Conn, step: Step)
      requires Sound() && Reaches(trace, before) && Regular(before, step)
      requires spec == Next(before, step)
      modifies this`trace
      ensures Valid() && trace == old(trace) + [step]
      ensures LoopSteps(trace) == LoopSteps(old(trace)) + if IsCall(step) then [] else [step]
    {
      hide Matches, Reaches, LoopSteps, Regular;
      LoopStepsMore(trace, step);
      trace := Onward(trace, before, step);
    }

    method Send(message: seq<Byte>, answer: Answer)
      requires Valid()
      modifies this, channel`events, channel`addedToLoop, outputBuffer, outputBuffer.buffer
      ensures Valid() && (outputBuffer.buffer == old(outputBuffer.buffer) || fresh(outputBuffer.buffer))
      ensures spec == Next(old(spec), Step.Send(message, answer)) && trace == old(trace) + [Step.Send(message, answer)]
      ensures LoopSteps(trace) == LoopSteps(old(trace))
    {
      hide Matches, Reaches, LoopSteps;
      OpenIsRegistered(View(), spec, trace);
      ghost var before := spec;
      if state == Connected {
        SendInLoop(message, answer);
      }
      Record(before, Step.Send(message, answer));
    }

    method RemoteSend(message: seq<Byte>)
      requires Valid()
      modifies this`tasks, this`spec, this`trace
      ensures Valid()
      ensures spec == Next(old(spec), Step.RemoteSend(message)) && trace == old(trace) + [Step.RemoteSend(message)]
      ensures LoopSteps(trace) == LoopSteps(old(trace))
    {
      hide Reaches, LoopSteps, MaskOf;
      ghost var before := spec;
      if state == Connected {
        tasks := tasks + multiset{SendLater(message)};
      }
      spec := Next(spec, Step.RemoteSend(message));
      Record(before, Step.RemoteSend(message));
    }

    method Shutdown()
      requires Valid()
      modifies this`state, this`shut, this`spec, this`trace
      ensures Valid()
      ensures spec == Next(old(spec), Step.Shutdown) && trace == old(trace) + [Step.Shutdown]
      ensures LoopSteps(trace) == LoopSteps(old(trace))
    {
      hide Reaches, LoopSteps, MaskOf, Has;
      MaskBits(spec.reading, spec.writing);
      ghost var before := spec;
      if state == Connected {
        state := Disconnecting;
        ShutdownInLoop();
      }
      spec := Next(spec, Step.Shutdown);
      Record(before, Step.Shutdown);
    }

    method RemoteShutdown()
      requires Valid()
      modifies this`state, this`tasks, this`spec, this`trace
      ensures Valid()
      ensures spec == Next(old(spec), Step.RemoteShutdown) && trace == old(trace) + [Step.RemoteShutdown]
      ensures LoopSteps(trace) == LoopSteps(old(trace))
    {
      hide Reaches, LoopSteps, MaskOf;
      ghost var before := spec;
      if state == Connected {
        state := Disconnecting;
        tasks := tasks + multiset{ShutdownLater};
      }
      spec := Next(spec, Step.RemoteShutdown);
      Record(before, Step.RemoteShutdown);
    }

    method QueueForceClose()
      requires Sound()
      modifies this`state, this`tasks, this`spec
      ensures Sound() && spec == RequestForceClose(old(spec))
    {
      hide MaskOf;
      if state == Connected || state == Disconnecting {
        state := Disconnecting;
        tasks := tasks + multiset{ForceCloseLater};
      }
      spec := RequestForceClose(spec);
    }

    method ForceClose()
      requires Valid()
      modifies this`state, this`tasks, this`spec, this`trace
      ensures Valid()
      ensures spec == Next(old(spec), Step.ForceClose) && trace == old(trace) + [Step.ForceClose]
      ensures LoopSteps(trace) == LoopSteps(old(trace))
    {
      hide Reaches, LoopSteps, Matches;
      OpenIsRegistered(View(), spec, trace);
      ghost var before := spec;
      QueueForceClose();
      Record(before, Step.ForceClose);
    }

    method ForceCloseWithDelay()
      requires Valid()
      modifies this`state, this`tasks, this`spec, this`trace
      ensures Valid()
      ensures spec == Next(old(spec), Step.ForceCloseWithDelay) && trace == old(trace) + [Step.ForceCloseWithDelay]
      ensures LoopSteps(trace) == LoopSteps(old(trace))
    {
      hide Reaches, LoopSteps, Matches, Regular, Next;
      ghost var before := spec;
      DelayMatches(View(), spec);
      if state == Connected || state == Disconnecting {
        state := Disconnecting;
        tasks := tasks + multiset{ForceCloseDelayed};
      }
      spec := Next(spec, Step.ForceCloseWithDelay);
      Record(before, Step.ForceCloseWithDelay);
    }

    /** Turns interest in reading on; done to a connection that is not open, that is no step of a
        regular run. */
    method StartReadInLoop()
      requires Valid()
      modifies this`reading, this`spec, this`trace, channel`events, channel`addedToLoop
      ensures Sound() && spec == Next(old(spec), StartRead)
      ensures !Untimely(old(spec), StartRead) ==>
                Valid() && trace == old(trace) + [StartRead] && LoopSteps(trace) == LoopSteps(old(trace))
    {
      hide Reaches, LoopSteps, Matches, Has, With, Without, Untimely, Next, Buffer.Contents, Buffer.Valid;
      ghost var before := spec;
      StartMatches(View(), spec);
      if !reading || !channel.IsReading() {
        channel.EnableReading();
        reading := true;
      }
      spec := Next(spec, StartRead);
      if !Untimely(before, StartRead) {
        Record(before, StartRead);
      }
    }

    method StopReadInLoop()
      requires Valid()
      modifies this`reading, this`spec, this`trace, channel`events, channel`addedToLoop
      ensures Sound() && spec == Next(old(spec), StopRead)
      ensures !Untimely(old(spec), StopRead) ==>
                Valid() && trace == old(trace) + [StopRead] && LoopSteps(trace) == LoopSteps(old(trace))
    {
      hide Reaches, LoopSteps, Matches, Has, With, Without, Untimely, Next, Buffer.Contents, Buffer.Valid;
      ghost var before := spec;
      StopMatches(View(), spec);
      if reading || channel.IsReading() {
        channel.DisableReading();
        reading := false;
      }
      spec := Next(spec, StopRead);
      if !Untimely(before, StopRead) {
        Record(before, StopRead);
      }
    }

    /** The user takes bytes out of the input buffer. */
    method Consume(n: nat)
      requires Valid() && n <= inputBuffer.ReadableBytes()
      modifies this`taken, this`spec, this`trace, inputBuffer`readerIndex, inputBuffer`writerIndex
      ensures Valid()
      ensures spec == Next(old(spec), Step.Consume(n)) && trace == old(trace) + [Step.Consume(n)]
      ensures LoopSteps(trace) == LoopSteps(old(trace))
    {
      hide Reaches, LoopSteps, Matches, Regular, Next, Buffer.Contents, Buffer.Valid;
      ghost var before := spec;
      ConsumeMatches(View(), spec, n);
      taken := taken + inputBuffer.Contents()[..n];
      inputBuffer.Retrieve(n);
      spec := Next(spec, Step.Consume(n));
      Record(before, Step.Consume(n));
    }

    // ---- The loop ----

    method HandleRead(input: Input)
      requires Sound() && (input.Data? ==> |input.bytes| <= Capacity())
      requires input.Eof? ==> channel.addedToLoop && (state == Connected || state == Disconnecting)
      modifies this`state, this`life, this`tasks, this`spec, channel`events, channel`addedToLoop, inputBuffer, inputBuffer.buffer
      ensures Sound() && spec == TcpProtocol.HandleRead(old(spec), input)
      ensures inputBuffer.buffer == old(inputBuffer.buffer) || fresh(inputBuffer.buffer)
    {
      hide MaskOf, Buffer.Contents, Buffer.Valid;
      match input {
        case Data(bytes) =>
          ReadMatches(View(), spec, bytes);
          var n := inputBuffer.ReadFd(bytes, false);
          spec := TcpProtocol.HandleRead(spec, input);
        case Eof =>
          HandleClose();
        case ReadError =>
      }
    }

    /** What one `readv` can deliver: the room in the buffer, and the stack buffer if that is
        little. */
    function Capacity(): nat
      reads this, inputBuffer
      requires inputBuffer.Valid()
    {
      var writable := inputBuffer.WritableBytes();
      writable + if writable < EXTRA_SIZE then EXTRA_SIZE else 0
    }

    method ConnectEstablished()
      requires Sound() && state == Connecting && channel.events == NONE_EVENT
      modifies this`state, this`life, this`spec, channel`events, channel`addedToLoop
      ensures Sound() && spec == Perform(old(spec), Establish, Blocked)
    {
      hide Has, With, Without;
      MaskBits(spec.reading, spec.writing);
      state := Connected;
      channel.EnableReading();
      life := life + [Up];
      spec := Perform(spec, Establish, Blocked);
    }

    method ConnectDestroyed()
      requires Sound() && (state == Connected || channel.IsNoneEvent())
      modifies this`state, this`life, this`spec, channel`events, channel`addedToLoop
      ensures Sound() && spec == Perform(old(spec), Destroy, Blocked)
    {
      if state == Connected {
        state := Disconnected;
        channel.DisableAll();
        life := life + [Down];
      }
      channel.Remove();
      life := life + [Removed];
      spec := Perform(spec, Destroy, Blocked);
    }

    method ForceCloseInLoop()
      requires Sound() && (state == Connected || state == Disconnecting ==> channel.addedToLoop)
      modifies this`state, this`life, this`tasks, this`spec, channel`events, channel`addedToLoop
      ensures Sound() && spec == Perform(old(spec), ForceCloseLater, Blocked)
    {
      hide Matches;
      StateMatches(View(), spec);
      if state == Connected || state == Disconnecting {
        HandleClose();
      }
    }

    method ShutdownLaterInLoop()
      requires Sound()
      modifies this`shut, this`spec
      ensures Sound() && spec == TcpProtocol.ShutdownInLoop(old(spec))
    {
      hide Matches;
      ShutdownMatches(View(), spec);
      ShutdownInLoop();
      spec := TcpProtocol.ShutdownInLoop(spec);
    }

    /** Whether a task finds what its assertions ask for. */
    predicate Ready(task: Task)
      reads this, channel
    {
      match task
      case Establish => state == Connecting && channel.events == NONE_EVENT
      case Destroy => state == Connected || channel.events == NONE_EVENT
      case Erase => false
      case _ => state == Connected || state == Disconnecting ==> channel.addedToLoop
    }

    method Execute(task: Task, answer: Answer)
      requires Sound() && Ready(task) && (task.SendLater? ==> state != Connecting)
      modifies this, channel`events, channel`addedToLoop, outputBuffer, outputBuffer.buffer
      ensures Sound() && (outputBuffer.buffer == old(outputBuffer.buffer) || fresh(outputBuffer.buffer))
      ensures old(spec).sent <= |old(spec).accepted| && spec == Perform(old(spec), task, answer) && trace == old(trace)
    {
      hide Matches, TcpProtocol.SendInLoop, TcpProtocol.HandleClose, RequestForceClose;
      StateMatches(View(), spec);
      match task {
        case Establish => ConnectEstablished();
        case SendLater(message) => SendInLoop(message, answer);
        case ShutdownLater => ShutdownLaterInLoop();
        case ForceCloseLater => ForceCloseInLoop();
        case ForceCloseDelayed => QueueForceClose();
        case Destroy => ConnectDestroyed();
        case WriteComplete =>
        case HighWater(_) =>
      }
    }

    /** Runs one of the tasks queued on the connection's loop. */
    method RunTask(task: Task, answer: Answer)
      requires Valid() && Enabled(spec, Step.RunTask(task, answer)) && task != Erase
      modifies this, channel`events, channel`addedToLoop, outputBuffer, outputBuffer.buffer
      ensures Valid() && (outputBuffer.buffer == old(outputBuffer.buffer) || fresh(outputBuffer.buffer))
      ensures spec == Next(old(spec), Step.RunTask(task, answer)) && trace == old(trace) + [Step.RunTask(task, answer)]
    {
      hide Matches, Reaches, LoopSteps, Perform, Regular;
      ghost var before := spec;
      TaskReady(View(), spec, trace, task, answer);
      tasks := tasks - multiset{task};
      spec := spec.(tasks := spec.tasks - multiset{task});
      Execute(task, answer);
      Record(before, Step.RunTask(task, answer));
    }

    // ---- Handling an event ----

    ghost method Begin(revents: Mask)
      requires Valid() && spec.stage.Idle? && (state == Connected || state == Disconnecting)
      modifies this`spec, this`trace
      ensures Valid() && spec == old(spec).(stage := Dispatch(revents, AtClose))
      ensures LoopSteps(trace) == LoopSteps(old(trace)) + [Step.Begin(revents)] && trace == old(trace) + [Step.Begin(revents)]
    {
      hide Matches, Reaches, LoopSteps, MaskOf;
      ghost var before := spec;
      StateMatches(View(), spec);
      MovedMatches(View(), spec, Dispatch(revents, AtClose));
      spec := Next(spec, Step.Begin(revents));
      Record(before, Step.Begin(revents));
    }

    method OnClose(revents: Mask)
      requires Valid() && spec.stage == Dispatch(revents, AtClose)
      modifies this, channel`events, channel`addedToLoop
      ensures Valid() && spec == Next(old(spec), DoClose) && spec.stage == Dispatch(revents, AtError)
      ensures LoopSteps(trace) == LoopSteps(old(trace)) + [DoClose] && trace == old(trace) + [DoClose]
    {
      hide Matches, Reaches, LoopSteps, CloseFires, TcpProtocol.HandleClose, Regular, Next;
      ghost var before := spec;
      StateMatches(View(), spec);
      ClosePart(spec, revents);
      CloseReady(View(), spec, trace);
      if CloseFires(revents) {
        HandleClose();
      }
      MovedMatches(View(), spec, Dispatch(revents, AtError));
      spec := spec.(stage := Dispatch(revents, AtError));
      Record(before, DoClose);
    }

    /** `handleError` only logs. */
    ghost method OnError(revents: Mask)
      requires Valid() && spec.stage == Dispatch(revents, AtError)
      modifies this`spec, this`trace
      ensures Valid() && spec == Next(old(spec), DoError) && spec.stage == Dispatch(revents, AtRead)
      ensures LoopSteps(trace) == LoopSteps(old(trace)) + [DoError] && trace == old(trace) + [DoError]
    {
      hide Matches, Reaches, LoopSteps;
      ghost var before := spec;
      OpenIsRegistered(View(), spec, trace);
      MovedMatches(View(), spec, Dispatch(revents, AtRead));
      spec := Next(spec, DoError);
      Record(before, DoError);
    }

    method OnRead(revents: Mask, input: Input)
      requires Valid() && spec.stage == Dispatch(revents, AtRead)
      requires input.Data? ==> 0 < |input.bytes| <= Capacity()
      requires !(CloseFires(revents) && ReadFires(revents) && input.Eof?)
      modifies this, channel`events, channel`addedToLoop, inputBuffer, inputBuffer.buffer
      ensures Valid() && spec == Next(old(spec), DoRead(input)) && spec.stage == Dispatch(revents, AtWrite)
      ensures inputBuffer.buffer == old(inputBuffer.buffer) || fresh(inputBuffer.buffer)
      ensures LoopSteps(trace) == LoopSteps(old(trace)) + [DoRead(input)] && trace == old(trace) + [DoRead(input)]
    {
      hide Matches, Reaches, LoopSteps, CloseFires, ReadFires, TcpProtocol.HandleRead, Regular, Next, Buffer.Contents, Buffer.Valid;
      ghost var before := spec;
      StateMatches(View(), spec);
      ReadPart(spec, revents, input);
      ReadReady(View(), spec, trace);
      if ReadFires(revents) {
        HandleRead(input);
      }
      StageKept(before, input);
      MovedMatches(View(), spec, Dispatch(revents, AtWrite));
      spec := spec.(stage := Dispatch(revents, AtWrite));
      Record(before, DoRead(input));
    }

    method OnWrite(revents: Mask, answer: Answer)
      requires Valid() && spec.stage == Dispatch(revents, AtWrite)
      modifies this, channel`events, channel`addedToLoop, outputBuffer`readerIndex, outputBuffer`writerIndex
      ensures Valid() && spec == Next(old(spec), DoWrite(answer)) && spec.stage == Idle
      ensures LoopSteps(trace) == LoopSteps(old(trace)) + [DoWrite(answer)] && trace == old(trace) + [DoWrite(answer)]
    {
      hide Matches, Reaches, LoopSteps, WriteFires, TcpProtocol.HandleWrite, Has, Regular, Next, Buffer.Contents, Buffer.Valid;
      ghost var before := spec;
      StateMatches(View(), spec);
      WritePart(spec, revents, answer);
      WriteReady(View(), spec, trace);
      if WriteFires(revents) {
        HandleWrite(answer);
      }
      MovedMatches(View(), spec, Idle);
      spec := spec.(stage := Idle);
      Record(before, DoWrite(answer));
    }

    /** One call of user code, if it is possible and timely. */
    method Call(call: Step)
      requires Valid() && IsCall(call)
      modifies this, channel`events, channel`addedToLoop, inputBuffer`readerIndex, inputBuffer`writerIndex
      modifies outputBuffer, outputBuffer.buffer
      ensures Valid() && (outputBuffer.buffer == old(outputBuffer.buffer) || fresh(outputBuffer.buffer))
      ensures inputBuffer.buffer == old(inputBuffer.buffer)
      ensures spec.stage == old(spec).stage && LoopSteps(trace) == LoopSteps(old(trace))
      ensures if Regular(old(spec), call) then spec == Next(old(spec), call) && trace == old(trace) + [call]
              else spec == old(spec) && trace == old(trace)
    {
      hide Matches, Reaches, LoopSteps, TcpProtocol.SendInLoop, Buffer.Contents, Regular, Next, Has, With, Without, IsCall;
      StateMatches(View(), spec);
      CallIs(call);
      match call {
        case Send(message, answer) => Send(message, answer);
        case Shutdown => Shutdown();
        case RemoteSend(message) => RemoteSend(message);
        case RemoteShutdown => RemoteShutdown();
        case ForceClose => ForceClose();
        case ForceCloseWithDelay => ForceCloseWithDelay();
        case StartRead =>
          if state == Connected || state == Disconnecting {
            StartReadInLoop();
          }
        case StopRead =>
          if state == Connected || state == Disconnecting || !reading || (state == Disconnected && channel.addedToLoop) {
            StopReadInLoop();
          }
        case Consume(n) =>
          if n <= inputBuffer.ReadableBytes() {
            Consume(n);
          }
      }
    }

    lemma CallIs(call: Step)
      requires Valid() && IsCall(call)
      ensures Regular(spec, call) ==> !Untimely(spec, call) && Next(spec, call).stage == spec.stage
      ensures match call
              case StartRead => Regular(spec, call) <==> state == Connected || state == Disconnecting
              case StopRead =>
                Regular(spec, call) <==>
                  state == Connected || state == Disconnecting || !reading || (state == Disconnected && channel.addedToLoop)
              case Consume(n) => Regular(spec, call) <==> n <= inputBuffer.ReadableBytes()
              case _ => Regular(spec, call)
      ensures !call.Begin? && !call.DoClose? && !call.DoError? && !call.DoRead? && !call.DoWrite? && !call.RunTask?
    {
      hide Matches, Reaches, TcpProtocol.SendInLoop, Next;
      StateMatches(View(), spec);
      TimelyCalls(View(), spec);
      SendKeepsStage(spec, call);
      if !call.StartRead? && !call.StopRead? && !call.Consume? {
        OtherCalls(spec, call);
      }
    }

    /** User code run by a callback. */
    method Callback(script: seq<Step>)
      requires Valid() && forall i :: 0 <= i < |script| ==> IsCall(script[i])
      modifies this, channel`events, channel`addedToLoop, inputBuffer`readerIndex, inputBuffer`writerIndex
      modifies outputBuffer, outputBuffer.buffer
      ensures Valid() && (outputBuffer.buffer == old(outputBuffer.buffer) || fresh(outputBuffer.buffer))
      ensures inputBuffer.buffer == old(inputBuffer.buffer)
      ensures spec.stage == old(spec).stage && LoopSteps(trace) == LoopSteps(old(trace))
      ensures spec == Called(old(spec), script) && trace == old(trace) + Made(old(spec), script)
    {
      hide Matches, Reaches, LoopSteps, IsCall, Regular, Next, Called, Made;
      NothingMade(spec, script);
      for i := 0 to |script|
        invariant Valid() && (outputBuffer.buffer == old(outputBuffer.buffer) || fresh(outputBuffer.buffer))
        invariant inputBuffer.buffer == old(inputBuffer.buffer)
        invariant spec.stage == old(spec).stage && LoopSteps(trace) == LoopSteps(old(trace))
        invariant spec == Called(old(spec), script[..i]) && trace == old(trace) + Made(old(spec), script[..i])
      {
        MadeMore(old(spec), script, i);
        Call(script[i]);
      }
      assert script[..|script|] == script;
    }

    /** `handleEventWithGuard`: close, error, read and write callbacks, in that order; the
        message callback runs any user code.  The run grows by exactly this dispatch and the
        calls that are made in it; `c` is the state they find. */
    method HandleEvent(revents: Mask, input: Input, script: seq<Step>, answer: Answer) returns (ghost c: Conn)
      requires Valid() && spec.stage.Idle? && (state == Connected || state == Disconnecting)
      requires input.Data? ==> 0 < |input.bytes| <= Capacity()
      requires !(CloseFires(revents) && ReadFires(revents) && input.Eof?)
      requires forall i :: 0 <= i < |script| ==> IsCall(script[i])
      modifies this, channel, inputBuffer, inputBuffer.buffer, outputBuffer, outputBuffer.buffer
      ensures Valid() && spec.stage.Idle?
      ensures LoopSteps(trace) == LoopSteps(old(trace)) + [Step.Begin(revents), DoClose, DoError, DoRead(input), DoWrite(answer)]
      ensures Reaches(old(trace) + [Step.Begin(revents), DoClose, DoError, DoRead(input)], c)
      ensures trace == old(trace) + [Step.Begin(revents), DoClose, DoError, DoRead(input)]
                       + (if revents & (POLLIN | POLLPRI | POLLRDHUP) != 0 && input.Data? then Made(c, script) else [])
                       + [DoWrite(answer)]
    {
      hide Matches, Reaches, LoopSteps, IsCall, CloseFires, WriteFires, Shape, Next, TcpConnection.Sound, Made, Called;
      Begin(revents);
      OnClose(revents);
      OnError(revents);
      OnRead(revents, input);
      c := spec;
      ghost var before := trace;
      assert before == old(trace) + [Step.Begin(revents), DoClose, DoError, DoRead(input)];
      if ReadFires(revents) && input.Data? {
        Callback(script);
      }
      OnWrite(revents, answer);
    }

    // ---- Removal ----

    lemma EraseIsMapped()
      requires Valid() && Erase in tasks
      ensures spec.mapped
    {
      hide Reaches, StreamInv, ClosingInv, StageInv;
      ReachedInv(trace, spec);
    }

    /** The connection is out of the server's map; its destruction is queued. */
    method QueueDestroy()
      requires Valid() && Erase in tasks
      modifies this`tasks, this`life, this`spec, this`trace
      ensures Valid() && spec == Next(old(spec), Step.RunTask(Erase, Blocked)) && !spec.mapped
      ensures tasks == old(tasks) - multiset{Erase} + multiset{Destroy}
    {
      hide Reaches, LoopSteps, Matches, Regular, Next;
      ghost var before := spec;
      EraseMatches(View(), spec);
      life := life + [Erased];
      tasks := tasks - multiset{Erase} + multiset{Destroy};
      spec := Next(spec, Step.RunTask(Erase, Blocked));
      Record(before, Step.RunTask(Erase, Blocked));
    }

    /** What every connection keeps: the bytes the kernel took, followed by those queued, are
        the accepted messages in order; the bytes the user took, followed by those in the input
        buffer, are what the kernel delivered; while the connection is open it waits for input
        exactly when that was last wanted, it waits to write exactly when bytes are queued, and
        its write side is shut down only when none are; callbacks are made in order and once. */
    lemma Facts()
      requires Valid()
      ensures ValidRun(START, trace) && wire + outputBuffer.Contents() == Flatten(TakenBy(START, trace))
      ensures taken + inputBuffer.Contents() == Delivered(0, trace) && |taken| == Consumed(trace)
      ensures state == Connected || state == Disconnecting ==>
                && (channel.IsWriting() <==> outputBuffer.Contents() != [])
                && (channel.IsReading() <==> LeftReading(false, trace))
                && (shut ==> outputBuffer.Contents() == [])
      ensures life <= LIFE && (life == LIFE <==> state == Disconnected && Erase !in tasks && Destroy !in tasks)
    {
      hide Has, With, Without, MaskOf, TakenBy, Run, ValidRun, Survives, After, Delivered, Consumed, LeftReading;
      StartInv();
      Conservation(START, trace);
      LifeExactlyOnce(trace);
      ReachedInv(trace, spec);
      RunKeepsInv(START, trace);
      ReceivedIsDelivered(START, 0, trace);
      OpenReads(START, trace);
      assert START.received + Delivered(0, trace) == Delivered(0, trace);
      MaskBits(spec.reading, spec.writing);
    }
  }
}

module TcpServers {
  import opened Channels
  import opened TcpProtocol
  import opened TcpConnections

  class TcpServer {
    var nextConnId: nat
    var connections: map<nat, TcpConnection>
    ghost var made: set<TcpConnection>    // every connection ever made

    /** The map holds exactly the connections whose removal has not run, each under its own
        name, and names are not used twice. */
    ghost predicate Valid()
      reads this, made
    {
      && (forall c :: c in made ==> c.id < nextConnId)
      && (forall c, d :: c in made && d in made && c.id == d.id ==> c == d)
      && (forall c :: c in made ==> (c.spec.mapped <==> c.id in connections && connections[c.id] == c))
      && (forall id :: id in connections ==> id < nextConnId)
    }

    constructor ()
      ensures Valid() && connections == map[] && made == {}
    {
      nextConnId := 1;
      connections, made := map[], {};
    }

    method NewConnection(sockfd: nat) returns (conn: TcpConnection)
      requires Valid()
      modifies this
      ensures Valid() && fresh(conn) && conn.Valid() && conn.spec == START && made == old(made) + {conn}
      ensures conn.id !in old(connections) && connections == old(connections)[conn.id := conn]
    {
      conn := new TcpConnection(nextConnId, sockfd);
      connections := connections[nextConnId := conn];
      made := made + {conn};
      nextConnId := nextConnId + 1;
    }

    /** Finds the connection in the map, as the code asserts, and queues its destruction. */
    method RemoveConnectionInLoop(conn: TcpConnection)
      requires Valid() && conn in made && conn.Valid() && Erase in conn.tasks
      modifies this`connections, conn
      ensures Valid() && conn.Valid() && conn.spec == Next(old(conn.spec), RunTask(Erase, Blocked))
      ensures conn.id in old(connections) && connections == old(connections) - {conn.id}
    {
      hide Next, TcpConnection.Valid;
      conn.EraseIsMapped();
      assert conn.id in connections;
      connections := connections - {conn.id};
      conn.QueueDestroy();
    }
  }
}
