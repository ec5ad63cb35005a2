/**
 The hand-over of log lines from any number of front-end threads to the back-end thread that
 writes them.  A buffer is the lines it holds; moving a unique pointer moves the value and
 leaves `None` behind.
 */
module AsyncLoggers {
  import opened Wrappers

  type Line = string
  type Buffer = seq<Line>

  /** Where the back-end thread is in its loop: about to take the buffers, about to write those
      it took, or about to refill its spare buffers. */
  datatype Phase = Taking | Writing | Refilling

  const MAX_BUFFERS: nat := 25

  function Length(b: Buffer): nat {
    if b == [] then 0 else Length(b[..|b| - 1]) + |b[|b| - 1]|
  }

  function Lines(buffers: seq<Buffer>): seq<Line> {
    if buffers == [] then [] else Lines(buffers[..|buffers| - 1]) + buffers[|buffers| - 1]
  }

  lemma LengthMore(b: Buffer, line: Line)
    ensures Length(b + [line]) == Length(b) + |line| && Length([]) == 0
  {
    assert (b + [line])[..|b|] == b;
  }

  lemma NoLines()
    ensures Lines([]) == [] && Length([]) == 0
  {
  }

  lemma LinesMore(buffers: seq<Buffer>, b: Buffer)
    ensures Lines(buffers + [b]) == Lines(buffers) + b
  {
    assert (buffers + [b])[..|buffers|] == buffers;
  }

  /** Something that happens to the logger; appends come at any time, the others in turn. */
  datatype Event = Append(line: Line) | Turn

  class AsyncLogging {
    const size: nat                      // of a buffer, in characters
    // shared, under the mutex
    var currentBuffer: Buffer
    var nextBuffer: Option<Buffer>
    var buffers: seq<Buffer>
    // of the back-end thread
    var phase: Phase
    var newBuffer1: Option<Buffer>
    var newBuffer2: Option<Buffer>
    var buffersToWrite: seq<Buffer>
    var written: seq<Line>               // the log file
    // history
    ghost var due: seq<Line>             // what the file is to hold in the end
    ghost var taken: seq<Line>           // every line taken into a buffer
    ghost var overrun: bool              // whether buffers were ever dropped

    /** Lines the back end took and has not written. */
    ghost function InFlight(): seq<Line>
      reads this
    {
      if phase == Writing then Lines(buffersToWrite) else []
    }

    /** No line is lost or out of order, and there is always a spare buffer to refill from: a
        front end that used up `nextBuffer` left a full buffer behind. */
    ghost predicate Valid()
      reads this
    {
      && size > 0 && Length(currentBuffer) < size
      && due == written + InFlight() + Lines(buffers) + currentBuffer
      && (!overrun ==> due == taken)
      && (nextBuffer == None ==> buffers != [])
      && (nextBuffer.Some? ==> nextBuffer.value == [])
      && (match phase
          case Taking => newBuffer1 == Some([]) && newBuffer2 == Some([]) && buffersToWrite == []
          case _ => newBuffer1 == None && newBuffer2 in {None, Some([])}
                    && |buffersToWrite| >= (if newBuffer2 == None then 2 else 1))
    }

    constructor (size: nat)
      requires size > 0
      ensures Valid() && this.size == size && due == taken == written == [] && phase == Taking && !overrun
    {
      this.size := size;
      currentBuffer, nextBuffer, buffers := [], Some([]), [];
      phase, newBuffer1, newBuffer2, buffersToWrite := Taking, Some([]), Some([]), [];
      written, due, taken, overrun := [], [], [], false;
    }

    /** Sets the current buffer aside and starts an empty one, the spare one if it is there. */
    method Rotate()
      requires Valid()
      modifies this`currentBuffer, this`nextBuffer, this`buffers
      ensures Valid() && currentBuffer == []
    {
      hide Lines;
      LinesMore(buffers, currentBuffer);
      assert Length([]) == 0;
      buffers := buffers + [currentBuffer];
      if nextBuffer.Some? {
        currentBuffer, nextBuffer := nextBuffer.value, None;
      } else {
        currentBuffer := [];
      }
    }

    /** A front end logs a line; one that does not fit an empty buffer is not taken. */
    method Append(line: Line)
      requires Valid()
      modifies this`currentBuffer, this`nextBuffer, this`buffers, this`due, this`taken
      ensures Valid()
      ensures due == (if |line| < size then old(due) + [line] else old(due))
      ensures taken == (if |line| < size then old(taken) + [line] else old(taken))
    {
      hide Length, Lines;
      LengthMore(currentBuffer, line);
      LengthMore([], line);
      if size - Length(currentBuffer) <= |line| {
        Rotate();
      }
      if size - Length(currentBuffer) > |line| {
        currentBuffer := currentBuffer + [line];
      }
      if |line| < size {
        due, taken := due + [line], taken + [line];
      }
    }

    /** The critical section: takes every buffer and leaves an empty one. */
    method Take()
      requires Valid() && phase == Taking
      modifies this`currentBuffer, this`nextBuffer, this`buffers, this`phase, this`newBuffer1, this`newBuffer2, this`buffersToWrite
      ensures Valid() && phase == Writing && InFlight() == old(Lines(buffers) + currentBuffer)
      ensures |buffersToWrite| == |old(buffers)| + 1 && currentBuffer == [] && buffers == []
    {
      hide Lines;
      LinesMore(buffers, currentBuffer);
      NoLines();
      assert written + [] + Lines(buffers) + currentBuffer == written + (Lines(buffers) + currentBuffer) + [] + [];
      buffers := buffers + [currentBuffer];
      currentBuffer, newBuffer1 := newBuffer1.value, None;
      buffersToWrite, buffers := buffers, buffersToWrite;
      if nextBuffer == None {
        nextBuffer, newBuffer2 := newBuffer2, None;
      }
      phase := Writing;
    }

    method WriteBuffers()
      modifies this`written
      ensures written == old(written) + Lines(buffersToWrite)
    {
      for i := 0 to |buffersToWrite|
        invariant written == old(written) + Lines(buffersToWrite[..i])
      {
        LinesMore(buffersToWrite[..i], buffersToWrite[i]);
        assert buffersToWrite[..i + 1] == buffersToWrite[..i] + [buffersToWrite[i]];
        written := written + buffersToWrite[i];
      }
      assert buffersToWrite[..|buffersToWrite|] == buffersToWrite;
    }

    /** Writes the buffers taken.  When they pile up, a notice and the first two are written, and
        exactly the lines of the others are lost. */
    method Write(notice: Line)
      requires Valid() && phase == Writing
      modifies this`phase, this`buffersToWrite, this`written, this`due, this`overrun
      ensures Valid() && phase == Refilling
      ensures overrun == (old(overrun) || |old(buffersToWrite)| > MAX_BUFFERS)
      ensures if |old(buffersToWrite)| <= MAX_BUFFERS
              then due == old(due) && written == old(written) + Lines(old(buffersToWrite))
              else var n, m := |old(written)|, |old(written)| + |Lines(old(buffersToWrite))|;
                   && m <= |old(due)|
                   && written == old(written) + [notice] + Lines(old(buffersToWrite)[..2])
                   && due == written + old(due)[m..]
    {
      hide Lines, Length;
      ghost var was, all, rest := written, Lines(buffersToWrite), Lines(buffers) + currentBuffer;
      assert due == was + all + rest;
      if |buffersToWrite| > MAX_BUFFERS {
        assert due[|was| + |all|..] == rest;
        written := written + [notice];
        buffersToWrite := buffersToWrite[..2];
        overrun := true;
      }
      WriteBuffers();
      due := written + rest;
      assert written + rest == written + [] + Lines(buffers) + currentBuffer;
      phase := Refilling;
    }

    /** Refills the spare buffers from those written, whose lines are forgotten. */
    method Refill()
      requires Valid() && phase == Refilling
      modifies this`phase, this`newBuffer1, this`newBuffer2, this`buffersToWrite
      ensures Valid() && phase == Taking
    {
      if |buffersToWrite| > 2 {
        buffersToWrite := buffersToWrite[..2];
      }
      if newBuffer1 == None {
        assert buffersToWrite != [];
        buffersToWrite := buffersToWrite[..|buffersToWrite| - 1];
        newBuffer1 := Some([]);
      }
      if newBuffer2 == None {
        assert buffersToWrite != [];
        buffersToWrite := buffersToWrite[..|buffersToWrite| - 1];
        newBuffer2 := Some([]);
      }
      buffersToWrite := [];
      phase := Taking;
    }

    /** One round of the back end writes everything logged before it. */
    method Round(notice: Line)
      requires Valid() && phase == Taking
      modifies this
      ensures Valid() && phase == Taking
      ensures |old(buffers)| < MAX_BUFFERS ==> written == old(due) == due && overrun == old(overrun)
    {
      hide Length, Lines;
      NoLines();
      Take();
      assert due == written + InFlight();
      Write(notice);
      assert due == written;
      Refill();
    }
  }

  /** The lines that fit a buffer. */
  function Taken(events: seq<Event>, size: nat): seq<Line> {
    if events == [] then []
    else
      var before, e := Taken(events[..|events| - 1], size), events[|events| - 1];
      if e.Append? && |e.line| < size then before + [e.line] else before
  }

  /** However appends and the turns of the back end interleave, while no buffers were dropped
      the file, the buffers in flight, the full buffers and the current one hold every line
      taken, in order. */
  method Drive(size: nat, events: seq<Event>, notice: Line) returns (logger: AsyncLogging)
    requires size > 0
    ensures logger.Valid() && logger.taken == Taken(events, size)
    ensures !logger.overrun ==>
              logger.written + logger.InFlight() + Lines(logger.buffers) + logger.currentBuffer == Taken(events, size)
  {
    logger := new AsyncLogging(size);
    for i := 0 to |events|
      invariant fresh(logger) && logger.Valid() && logger.size == size
      invariant logger.taken == Taken(events[..i], size)
    {
      assert events[..i + 1][..i] == events[..i];
      match events[i] {
        case Append(line) => logger.Append(line);
        case Turn =>
          match logger.phase {
            case Taking => logger.Take();
            case Writing => logger.Write(notice);
            case Refilling => logger.Refill();
          }
      }
    }
    assert events[..|events|] == events;
  }
}
