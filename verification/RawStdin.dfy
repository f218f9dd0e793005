/**
 The raw terminal reader (crates/multiplex-cli/src/raw_stdin.rs): a worker thread that polls standard input,
 reads a chunk and sends it over a queue of eight, and the owner that receives the chunks and, when dropped,
 raises the stop flag, closes the queue and joins the worker.
 */
module RawStdin {
  import opened Wrappers

  const CAPACITY: nat := 8
  const BUFFER: nat := 16384

  datatype WorkerPc =
    | Testing                     // about to load the stop flag
    | Polling                     // inside the 25 ms poll
    | Reading                     // the poll said there is something to read
    | Sending(chunk: Bytes)   // inside blocking_send
    | Left                        // out of the loop; the thread has ended

  datatype OwnerPc = Receiving | Stopping | Closed | Joined

  /** What the operating system answers to a poll or a read. */
  datatype Answer =
    | PollTimeout | PollReady | PollInterrupted | PollFailed
    | ReadEnd | ReadBytes(bytes: Bytes) | ReadInterrupted | ReadFailed
    | NoCall

  datatype Event =
    | Worker(answer: Answer)
    | Receive
    | RaiseStop
    | CloseQueue
    | Join

  datatype Reader = Reader(
    worker: WorkerPc,
    owner: OwnerPc,
    queue: seq<Bytes>,
    received: seq<Bytes>,
    taken: Bytes,        // every byte read from standard input so far
    dropped: Bytes)      // the chunk a refused send threw away

  predicate Stop(r: Reader) { !r.owner.Receiving? }

  predicate QueueClosed(r: Reader) { r.owner.Closed? || r.owner.Joined? }

  /** Where the worker goes, or None when it cannot move with that answer. */
  function WorkerNext(r: Reader, answer: Answer): Option<Reader> {
    match r.worker
    case Testing =>
      if answer != NoCall then None else Some(r.(worker := if Stop(r) then Left else Polling))
    case Polling =>
      (match answer
       case PollTimeout => Some(r.(worker := Testing))
       case PollInterrupted => Some(r.(worker := Testing))
       case PollFailed => Some(r.(worker := Left))
       case PollReady => Some(r.(worker := Reading))
       case _ => None)
    case Reading =>
      (match answer
       case ReadEnd => Some(r.(worker := Left))
       case ReadInterrupted => Some(r.(worker := Testing))
       case ReadFailed => Some(r.(worker := Left))
       case ReadBytes(bytes) =>
         if 0 < |bytes| <= BUFFER then Some(r.(worker := Sending(bytes), taken := r.taken + bytes)) else None
       case _ => None)
    case Sending(chunk) =>
      if answer != NoCall then None
      else if QueueClosed(r) then Some(r.(worker := Left, dropped := chunk))
      else if |r.queue| < CAPACITY then Some(r.(worker := Testing, queue := r.queue + [chunk]))
      else None  // blocked until the owner receives or closes
    case Left => None
  }

  function Next(r: Reader, e: Event): Option<Reader> {
    match e
    case Worker(answer) => WorkerNext(r, answer)
    case Receive =>
      if r.owner.Receiving? && r.queue != [] then
        Some(r.(queue := r.queue[1..], received := r.received + [r.queue[0]]))
      else None
    case RaiseStop => if r.owner.Receiving? then Some(r.(owner := Stopping)) else None
    case CloseQueue => if r.owner.Stopping? then Some(r.(owner := Closed)) else None
    case Join => if r.owner.Closed? && r.worker.Left? then Some(r.(owner := Joined)) else None
  }

  function Start(): Reader { Reader(Testing, Receiving, [], [], [], []) }

  /** The state a run ends in, or None when one of its events was not enabled. */
  function Run(r: Reader, events: seq<Event>): Option<Reader>
    decreases |events|
  {
    if events == [] then Some(r)
    else match Next(r, events[0])
      case None => None
      case Some(after) => Run(after, events[1..])
  }

  function Joining(chunks: seq<Bytes>): Bytes
    decreases |chunks|
  {
    if chunks == [] then [] else Joining(chunks[..|chunks| - 1]) + chunks[|chunks| - 1]
  }

  function InFlight(r: Reader): Bytes { if r.worker.Sending? then r.worker.chunk else r.dropped }

  /**
   Every byte read is in exactly one place, in the order it was read: received, queued, or in the chunk being
   sent or refused. Nothing is refused while the owner is still receiving.
   */
  ghost predicate Inv(r: Reader) {
    && r.taken == Joining(r.received + r.queue) + InFlight(r)
    && |r.queue| <= CAPACITY
    && (forall i :: 0 <= i < |r.queue| ==> 0 < |r.queue[i]| <= BUFFER)
    && (forall i :: 0 <= i < |r.received| ==> 0 < |r.received[i]| <= BUFFER)
    && (r.worker.Sending? ==> 0 < |r.worker.chunk| <= BUFFER)
    && (r.dropped != [] ==> r.worker.Left? && QueueClosed(r))
    && (r.owner.Joined? ==> r.worker.Left?)
  }

  lemma NextKeepsInv(r: Reader, e: Event)
    requires Inv(r) && Next(r, e).Some?
    ensures Inv(Next(r, e).value)
  {
    match e
    case Worker(answer) => WorkerKeepsInv(r, answer);
    case Receive =>
      var after := Next(r, e).value;
      assert after.received + after.queue == r.received + r.queue;
    case _ =>
  }

  lemma WorkerKeepsInv(r: Reader, answer: Answer)
    requires Inv(r) && WorkerNext(r, answer).Some?
    ensures Inv(WorkerNext(r, answer).value)
  {
    hide Joining;
    if r.worker.Sending? {
      SendingKeepsInv(r);
    } else if r.worker.Reading? {
      ReadingKeepsInv(r, answer);
    }
  }

  lemma SendingKeepsInv(r: Reader)
    requires Inv(r) && r.worker.Sending? && WorkerNext(r, NoCall).Some?
    ensures Inv(WorkerNext(r, NoCall).value)
  {
    hide Joining;
    if !QueueClosed(r) {
      var queue := r.queue + [r.worker.chunk];
      SendKeepsOrder(r.received, r.queue, r.worker.chunk);
      assert Joining(r.received + queue) + [] == Joining(r.received + queue);
      assert forall i :: 0 <= i < |queue| ==> 0 < |queue[i]| <= BUFFER;
    }
  }

  lemma ReadingKeepsInv(r: Reader, answer: Answer)
    requires Inv(r) && r.worker.Reading? && WorkerNext(r, answer).Some?
    ensures Inv(WorkerNext(r, answer).value)
  {
    hide Joining;
    assert r.dropped == [];
    assert Joining(r.received + r.queue) + [] == Joining(r.received + r.queue);
  }

  lemma SendKeepsOrder(received: seq<Bytes>, queue: seq<Bytes>, chunk: Bytes)
    ensures Joining(received + (queue + [chunk])) == Joining(received + queue) + chunk
  {
    var all := received + queue;
    assert received + (queue + [chunk]) == all + [chunk];
    assert (all + [chunk])[..|all|] == all;
  }

  lemma {:induction false} RunKeepsInv(r: Reader, events: seq<Event>)
    requires Inv(r) && Run(r, events).Some?
    ensures Inv(Run(r, events).value)
    decreases |events|
  {
    if events != [] {
      NextKeepsInv(r, events[0]);
      RunKeepsInv(Next(r, events[0]).value, events[1..]);
    }
  }

  lemma {:induction false} JoiningSplits(a: seq<Bytes>, b: seq<Bytes>)
    ensures Joining(a + b) == Joining(a) + Joining(b)
    decreases |b|
  {
    if b == [] {
      assert a + b == a;
    } else {
      var front, last := b[..|b| - 1], b[|b| - 1];
      assert (a + b)[..|a + b| - 1] == a + front;
      JoiningSplits(a, front);
    }
  }

  /** In every run the chunks received, put together, are a prefix of the bytes read, and the queue holds at most 8. */
  lemma ReceivedIsPrefix(events: seq<Event>)
    requires Run(Start(), events).Some?
    ensures var r := Run(Start(), events).value;
            && Joining(r.received) <= r.taken
            && |r.queue| <= CAPACITY
            && (!QueueClosed(r) && !r.worker.Sending? ==> r.taken == Joining(r.received) + Joining(r.queue))
  {
    RunKeepsInv(Start(), events);
    var r := Run(Start(), events).value;
    JoiningSplits(r.received, r.queue);
  }

  /** The most steps the worker can still take once the stop flag is up. */
  function StepsLeft(pc: WorkerPc): nat {
    match pc
    case Left => 0
    case Testing => 1
    case Sending(_) => 2
    case Reading => 3
    case Polling => 4
  }

  function WorkerSteps(events: seq<Event>): nat {
    if events == [] then 0 else (if events[0].Worker? then 1 else 0) + WorkerSteps(events[1..])
  }

  /** Some answer lets the worker move. */
  ghost predicate CanStep(r: Reader) { exists answer :: WorkerNext(r, answer).Some? }

  /** What makes the worker leave its loop. */
  predicate Leaves(r: Reader, answer: Answer) {
    match r.worker
    case Testing => Stop(r)
    case Polling => answer == PollFailed
    case Reading => answer == ReadEnd || answer == ReadFailed
    case Sending(_) => QueueClosed(r)
    case Left => true
  }

  /** The worker leaves for these reasons only: otherwise it goes round again, an interrupted call or not. */
  lemma LeavesIff(r: Reader, answer: Answer)
    requires WorkerNext(r, answer).Some?
    ensures WorkerNext(r, answer).value.worker.Left? <==> Leaves(r, answer)
  {
  }

  /** The calls of one round that reads a chunk, after any number of polls that found nothing or were interrupted. */
  function Round(chunk: Bytes, idle: seq<bool>): seq<Event>
    decreases |idle|
  {
    if idle == [] then [Worker(NoCall), Worker(PollReady), Worker(ReadBytes(chunk)), Worker(NoCall)]
    else [Worker(NoCall), Worker(if idle[0] then PollTimeout else PollInterrupted)] + Round(chunk, idle[1..])
  }

  /**
   While stop is down and the queue has room, the worker takes one chunk after the other: each round ends with the
   chunk queued behind the others and the worker ready to test the flag again.
   */
  lemma {:induction false} RoundQueues(r: Reader, chunk: Bytes, idle: seq<bool>)
    requires r.worker.Testing? && !Stop(r) && |r.queue| < CAPACITY && 0 < |chunk| <= BUFFER
    ensures Run(r, Round(chunk, idle)) == Some(r.(queue := r.queue + [chunk], taken := r.taken + chunk))
    decreases |idle|
  {
    var e := Round(chunk, idle);
    if idle == [] {
      assert e[1..][0] == Worker(PollReady) && e[1..][1..][0] == Worker(ReadBytes(chunk));
      assert e[1..][1..][1..] == [Worker(NoCall)];
      var reading := r.(worker := Reading);
      var sending := r.(worker := Sending(chunk), taken := r.taken + chunk);
      assert Run(r, e) == Run(r.(worker := Polling), e[1..]) == Run(reading, e[1..][1..]);
      assert Run(reading, e[1..][1..]) == Run(sending, [Worker(NoCall)]);
      assert [Worker(NoCall)][1..] == [];
    } else {
      var answer := if idle[0] then PollTimeout else PollInterrupted;
      assert e[1..][0] == Worker(answer) && e[1..][1..] == Round(chunk, idle[1..]);
      assert Run(r, e) == Run(r.(worker := Polling), e[1..]);
      assert r.(worker := Polling).(worker := Testing) == r;
      RoundQueues(r, chunk, idle[1..]);
    }
  }

  /** Outside the loop aside, the only place a worker can wait for someone else is a full queue that is still open. */
  lemma StuckIff(r: Reader)
    ensures CanStep(r) <==> !(r.worker.Left? || (r.worker.Sending? && |r.queue| >= CAPACITY && !QueueClosed(r)))
  {
    var answer := if r.worker.Polling? then PollTimeout else if r.worker.Reading? then ReadEnd else NoCall;
    assert !(r.worker.Left? || (r.worker.Sending? && |r.queue| >= CAPACITY && !QueueClosed(r)))
        ==> WorkerNext(r, answer).Some?;
  }

  /** From any control point, whatever the other events are, at most StepsLeft of the worker's own steps follow stop. */
  lemma {:induction false} StopBoundsTheWorker(r: Reader, events: seq<Event>)
    requires Stop(r) && Run(r, events).Some?
    ensures var end := Run(r, events).value;
            Stop(end) && WorkerSteps(events) + StepsLeft(end.worker) <= StepsLeft(r.worker)
    ensures QueueClosed(r) ==> QueueClosed(Run(r, events).value)
    decreases |events|
  {
    if events != [] {
      StopBoundsTheWorker(Next(r, events[0]).value, events[1..]);
    }
  }

  lemma ClosedWorkerMoves(r: Reader)
    requires Inv(r) && QueueClosed(r)
    ensures !r.worker.Left? ==> CanStep(r)
    ensures r.owner.Joined? || Next(r, Join).Some? || CanStep(r)
    ensures StepsLeft(r.worker) <= 4 && (StepsLeft(r.worker) == 0 ==> r.worker.Left?)
    ensures Stop(r)
  {
    StuckIff(r);
  }

  /**
   Once drop has raised stop and closed the queue, the worker takes at most four more steps in any run, is never
   blocked before it has left, and as soon as it has left the join goes through.
   */
  lemma DropCannotHang(before: seq<Event>, events: seq<Event>)
    requires Run(Start(), before).Some? && QueueClosed(Run(Start(), before).value)
    requires Run(Run(Start(), before).value, events).Some?
    ensures var end := Run(Run(Start(), before).value, events).value;
            && WorkerSteps(events) <= 4
            && (!end.worker.Left? ==> CanStep(end))
            && (WorkerSteps(events) == 4 ==> end.worker.Left?)
            && (end.owner.Joined? || Next(end, Join).Some? || CanStep(end))
  {
    var r := Run(Start(), before).value;
    RunKeepsInv(Start(), before);
    RunKeepsInv(r, events);
    hide Run, CanStep, Inv, StepsLeft;
    ClosedWorkerMoves(r);
    StopBoundsTheWorker(r, events);
    ClosedWorkerMoves(Run(r, events).value);
  }

  function Repeat(e: seq<Event>, n: nat): seq<Event> { if n == 0 then [] else e + Repeat(e, n - 1) }

  /** Why drop needs the flag as well as the close: while it is down an idle worker can go round for ever. */
  lemma {:induction false} IdleWorkerNeedsTheFlag(r: Reader, n: nat)
    requires r.worker.Testing? && !Stop(r)
    ensures Run(r, Repeat([Worker(NoCall), Worker(PollTimeout)], n)) == Some(r)
    decreases n
  {
    if n > 0 {
      var round := [Worker(NoCall), Worker(PollTimeout)];
      var events := Repeat(round, n);
      assert events[0] == Worker(NoCall) && events[1..][0] == Worker(PollTimeout);
      assert events[1..][1..] == Repeat(round, n - 1);
      var polling := r.(worker := Polling);
      assert Run(r, events) == Run(polling, events[1..]);
      assert polling.(worker := Testing) == r;
      IdleWorkerNeedsTheFlag(r, n - 1);
    }
  }
}
