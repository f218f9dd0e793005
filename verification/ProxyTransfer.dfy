/**
 The relay of the filtering proxy (crates/multiplex-browser/src/network.rs): any number of tunnels, each
 copying in two directions, all counting into one shared total. Every access to a socket, to the counter or to
 the stop flag is one atomic step, and the directions' steps interleave freely.
 */
module ProxyTransfer {
  import opened Wrappers

  const MAX_NETWORK_BYTES: nat := 32 * 1024 * 1024
  const CHUNK: nat := 16 * 1024

  datatype Failure = LimitReached | Stopped | TimedOut | Broken

  /** Where one direction's copy loop stands. */
  datatype Pc =
    | Looking                                // about to test the stop flag
    | Reading                                // about to read
    | Counting(chunk: Bytes)                 // about to add the chunk to the total
    | Deciding(chunk: Bytes, total: nat)     // about to compare the total it was given
    | Writing(rest: Bytes)                   // about to write what is left of the chunk
    | Ended(result: Option<Failure>)

  /** A socket the proxy has not made non-blocking keeps a call waiting where another one answers "nothing yet". */
  datatype Direction = Direction(
    readBlocks: bool,
    writeBlocks: bool,
    pc: Pc,
    read: Bytes,      // everything taken from the reader so far
    written: Bytes,   // everything the writer has accepted so far
    admitted: nat,    // bytes of chunks that passed the limit check
    refused: nat)     // bytes of the chunk that failed it, if one did

  datatype Proxy = Proxy(directions: seq<Direction>, transferred: nat, stop: bool)

  datatype Event =
    | Open(readBlocks: bool, writeBlocks: bool)
    | RaiseStop
    | Step(index: nat, io: Io, accepted: nat, expired: bool)

  /** WouldBlock: nothing to read, or no room to write. */
  datatype Io = Data(bytes: Bytes) | EndOfStream | WouldBlock | Interrupted | IoError

  /** A direction before its first step. */
  function Opened(readBlocks: bool, writeBlocks: bool): Direction {
    Direction(readBlocks, writeBlocks, Looking, [], [], 0, 0)
  }

  /** One step of copy_bounded, or of the patient write inside it. */
  function Advance(d: Direction, p: Proxy, io: Io, accepted: nat, expired: bool): (Direction, nat) {
    match d.pc
    case Looking => (d.(pc := if p.stop then Ended(Some(Stopped)) else Reading), p.transferred)
    case Reading =>
      (match io
       case Data(bytes) =>
         var chunk := if |bytes| <= CHUNK then bytes else bytes[..CHUNK];
         if chunk == [] then (d.(pc := Ended(None)), p.transferred)
         else (d.(pc := Counting(chunk), read := d.read + chunk), p.transferred)
       case EndOfStream => (d.(pc := Ended(None)), p.transferred)
       case WouldBlock => (if d.readBlocks then d else d.(pc := Looking), p.transferred)
       case Interrupted => (d.(pc := Ended(Some(Broken))), p.transferred)
       case IoError => (d.(pc := Ended(Some(Broken))), p.transferred))
    case Counting(chunk) => (d.(pc := Deciding(chunk, p.transferred + |chunk|)), p.transferred + |chunk|)
    case Deciding(chunk, total) =>
      if total > MAX_NETWORK_BYTES then (d.(pc := Ended(Some(LimitReached)), refused := |chunk|), p.transferred)
      else (d.(pc := Writing(chunk), admitted := d.admitted + |chunk|), p.transferred)
    case Writing(rest) =>
      if rest == [] then (d.(pc := Looking), p.transferred)
      else
        (match io
         case Data(_) =>
           var n := Min(accepted, |rest|);
           if n == 0 then (d.(pc := Ended(Some(Broken))), p.transferred)
           else (d.(pc := Writing(rest[n..]), written := d.written + rest[..n]), p.transferred)
         case WouldBlock => (if expired && !d.writeBlocks then d.(pc := Ended(Some(TimedOut))) else d, p.transferred)
         case Interrupted => (d, p.transferred)
         case EndOfStream => (d.(pc := Ended(Some(Broken))), p.transferred)
         case IoError => (d.(pc := Ended(Some(Broken))), p.transferred))
    case Ended(_) => (d, p.transferred)
  }

  function Next(p: Proxy, e: Event): Proxy {
    match e
    case Open(readBlocks, writeBlocks) => p.(directions := p.directions + [Opened(readBlocks, writeBlocks)])
    case RaiseStop => p.(stop := true)
    case Step(index, io, accepted, expired) =>
      if index >= |p.directions| then p
      else
        var (d, transferred) := Advance(p.directions[index], p, io, accepted, expired);
        p.(directions := p.directions[index := d], transferred := transferred)
  }

  function Run(events: seq<Event>): Proxy
    decreases |events|
  {
    if events == [] then Proxy([], 0, false) else Next(Run(events[..|events| - 1]), events[|events| - 1])
  }

  // ---------------------------------------------------------------- sums over the directions

  function Sum(ds: seq<Direction>, f: Direction -> nat): nat
    decreases |ds|
  {
    if ds == [] then 0 else Sum(ds[..|ds| - 1], f) + f(ds[|ds| - 1])
  }

  lemma {:induction false} SumUpdate(ds: seq<Direction>, i: nat, d: Direction, f: Direction -> nat)
    requires i < |ds|
    ensures Sum(ds[i := d], f) + f(ds[i]) == Sum(ds, f) + f(d)
    decreases |ds|
  {
    var n := |ds| - 1;
    if i < n {
      assert ds[i := d][..n] == ds[..n][i := d];
      SumUpdate(ds[..n], i, d, f);
    } else {
      assert ds[i := d][..n] == ds[..n];
    }
  }

  lemma {:induction false} SumAtMost(ds: seq<Direction>, f: Direction -> nat, g: Direction -> nat)
    requires forall d :: d in ds ==> f(d) <= g(d)
    ensures Sum(ds, f) <= Sum(ds, g)
    decreases |ds|
  {
    if ds != [] {
      var n := |ds| - 1;
      assert forall d :: d in ds[..n] ==> d in ds;
      SumAtMost(ds[..n], f, g);
    }
  }

  lemma {:induction false} SumBounded(ds: seq<Direction>, f: Direction -> nat, k: nat)
    requires k == CHUNK && forall d :: d in ds ==> f(d) <= k
    ensures Sum(ds, f) <= CHUNK * |ds|
    decreases |ds|
  {
    if ds != [] {
      var n := |ds| - 1;
      assert forall d :: d in ds[..n] ==> d in ds;
      SumBounded(ds[..n], f, k);
    }
  }

  // ---------------------------------------------------------------- the invariant

  /** Bytes that have passed, or are bound to pass, the limit check. */
  function Credit(d: Direction): nat {
    d.admitted + (if d.pc.Deciding? && d.pc.total <= MAX_NETWORK_BYTES then |d.pc.chunk| else 0)
  }

  /** Bytes counted but barred: each direction has at most one such chunk, and it is the direction's last. */
  function Barred(d: Direction): nat {
    d.refused + (if d.pc.Deciding? && d.pc.total > MAX_NETWORK_BYTES then |d.pc.chunk| else 0)
  }

  function Written(d: Direction): nat { |d.written| }

  ghost predicate DirectionInv(d: Direction) {
    && |d.written| <= d.admitted
    && Barred(d) <= CHUNK
    && (d.refused > 0 ==> d.pc == Ended(Some(LimitReached)))
    && match d.pc
       case Looking => d.written == d.read && |d.written| == d.admitted
       case Reading => d.written == d.read && |d.written| == d.admitted
       case Counting(chunk) => d.written + chunk == d.read && |d.written| == d.admitted && |chunk| <= CHUNK
       case Deciding(chunk, _) => d.written + chunk == d.read && |d.written| == d.admitted
       case Writing(rest) => d.written + rest == d.read && |d.written| + |rest| == d.admitted
       case Ended(result) => d.written <= d.read && (result.None? ==> d.written == d.read && |d.written| == d.admitted)
  }

  ghost predicate Inv(p: Proxy) {
    && (forall d :: d in p.directions ==> DirectionInv(d))
    && p.transferred == Sum(p.directions, Credit) + Sum(p.directions, Barred)
    && Sum(p.directions, Credit) <= MAX_NETWORK_BYTES
  }

  lemma AdvanceKeepsDirection(d: Direction, p: Proxy, io: Io, accepted: nat, expired: bool)
    requires DirectionInv(d)
    ensures var (d', transferred) := Advance(d, p, io, accepted, expired);
            && DirectionInv(d')
            && transferred == p.transferred + (Credit(d') + Barred(d')) - (Credit(d) + Barred(d))
            && (Credit(d') > Credit(d) ==> transferred <= MAX_NETWORK_BYTES)
            && Credit(d') >= Credit(d) && Barred(d') >= Barred(d)
  {
    if d.pc.Writing? && io.Data? {
      var n := Min(accepted, |d.pc.rest|);
      assert d.pc.rest[..n] + d.pc.rest[n..] == d.pc.rest;
      assert d.written + d.pc.rest == (d.written + d.pc.rest[..n]) + d.pc.rest[n..];
    }
  }

  lemma NextKeepsInv(p: Proxy, e: Event)
    requires Inv(p)
    ensures Inv(Next(p, e))
  {
    var p' := Next(p, e);
    match e
    case Open(_, _) => assert p'.directions[..|p.directions|] == p.directions;
    case RaiseStop =>
    case Step(index, io, accepted, expired) =>
      if index < |p.directions| {
        var d := p.directions[index];
        var (d', transferred) := Advance(d, p, io, accepted, expired);
        hide Advance;
        AdvanceKeepsDirection(d, p, io, accepted, expired);
        SumUpdate(p.directions, index, d', Credit);
        SumUpdate(p.directions, index, d', Barred);
      }
  }

  lemma {:induction false} RunKeepsInv(events: seq<Event>)
    ensures Inv(Run(events))
    decreases |events|
  {
    if events != [] {
      RunKeepsInv(events[..|events| - 1]);
      NextKeepsInv(Run(events[..|events| - 1]), events[|events| - 1]);
    }
  }

  // ---------------------------------------------------------------- what it means

  /** Over every interleaving of any number of directions, the bytes passed on together stay within the limit. */
  lemma PassedOnWithinLimit(events: seq<Event>)
    ensures Sum(Run(events).directions, Written) <= MAX_NETWORK_BYTES
  {
    RunKeepsInv(events);
    forall d | d in Run(events).directions ensures Written(d) <= Credit(d) {
      assert DirectionInv(d);
    }
    SumAtMost(Run(events).directions, Written, Credit);
  }

  /** In each direction, what is written is a prefix of what was read; a direction that ended well wrote all of it. */
  lemma WrittenIsPrefix(events: seq<Event>, d: Direction)
    requires d in Run(events).directions
    ensures d.written <= d.read
    ensures d.pc.Looking? || d.pc == Ended(None) ==> d.written == d.read
  {
    RunKeepsInv(events);
    assert DirectionInv(d);
  }

  /**
   The shared total never outruns the limit by more than one chunk for each direction ever opened, so
   the 64-bit counter cannot wrap before 2^49 directions have been opened.
   */
  lemma CounterStaysSmall(events: seq<Event>)
    ensures Run(events).transferred <= MAX_NETWORK_BYTES + CHUNK * |Run(events).directions|
    ensures |Run(events).directions| <= 0x1_FFFF_FFFF_FFFF ==> Run(events).transferred <= U64_MAX
  {
    RunKeepsInv(events);
    hide Run;
    forall d | d in Run(events).directions ensures Barred(d) <= CHUNK {
      assert DirectionInv(d);
    }
    SumBounded(Run(events).directions, Barred, CHUNK);
  }

  /** Once the total has passed the limit, no step of any direction admits another byte. */
  lemma LimitIsFinal(events: seq<Event>, e: Event)
    requires Run(events).transferred > MAX_NETWORK_BYTES
    ensures Sum(Next(Run(events), e).directions, Credit) == Sum(Run(events).directions, Credit)
    ensures Next(Run(events), e).transferred >= Run(events).transferred
  {
    RunKeepsInv(events);
    var p := Run(events);
    match e
    case Open(_, _) => assert Next(p, e).directions[..|p.directions|] == p.directions;
    case RaiseStop =>
    case Step(index, io, accepted, expired) =>
      if index < |p.directions| {
        var d := p.directions[index];
        var d' := Advance(d, p, io, accepted, expired).0;
        assert DirectionInv(d);
        AdvanceKeepsDirection(d, p, io, accepted, expired);
        SumUpdate(p.directions, index, d', Credit);
      }
  }

  // ---------------------------------------------------------------- what ends a direction

  /** What this call of this direction means for it: it is over, with that result. */
  predicate Ends(d: Direction, p: Proxy, io: Io, accepted: nat, expired: bool, result: Option<Failure>) {
    match result
    case None => d.pc.Reading? && (io.EndOfStream? || io == Data([]))
    case Some(Stopped) => d.pc.Looking? && p.stop
    case Some(LimitReached) => d.pc.Deciding? && d.pc.total > MAX_NETWORK_BYTES
    case Some(TimedOut) => d.pc.Writing? && d.pc.rest != [] && io.WouldBlock? && expired && !d.writeBlocks
    case Some(Broken) =>
      || (d.pc.Reading? && (io.Interrupted? || io.IoError?))
      || (d.pc.Writing? && d.pc.rest != [] && (io.EndOfStream? || io.IoError? || (io.Data? && accepted == 0)))
  }

  /** Counts are handed out in rising order. */
  ghost predicate Behind(p: Proxy) {
    forall d :: d in p.directions && d.pc.Deciding? ==> d.pc.total <= p.transferred
  }

  lemma NextKeepsBehind(p: Proxy, e: Event)
    requires Behind(p)
    ensures Behind(Next(p, e))
  {
    if e.Step? && e.index < |p.directions| {
      var d := p.directions[e.index];
      assert d in p.directions;
      assert Next(p, e).transferred >= p.transferred;
    }
  }

  lemma {:induction false} RunKeepsBehind(events: seq<Event>)
    ensures Behind(Run(events))
    decreases |events|
  {
    if events != [] {
      RunKeepsBehind(events[..|events| - 1]);
      NextKeepsBehind(Run(events[..|events| - 1]), events[|events| - 1]);
    }
  }

  lemma AdvanceEndsIff(d: Direction, p: Proxy, io: Io, accepted: nat, expired: bool, result: Option<Failure>)
    requires !d.pc.Ended?
    ensures Advance(d, p, io, accepted, expired).0.pc == Ended(result) <==> Ends(d, p, io, accepted, expired, result)
  {
  }

  /**
   In every run a direction that is under way ends exactly by its own step and for that step's reason: cleanly at the
   end of its stream, stopped only while stop is up, at the limit only once the total is past it, and otherwise only
   by the socket's answer. Nothing else ends it.
   */
  lemma EndsIff(events: seq<Event>, e: Event, i: nat, result: Option<Failure>)
    requires i < |Run(events).directions| && !Run(events).directions[i].pc.Ended?
    ensures var p := Run(events);
            && i < |Next(p, e).directions|
            && (Next(p, e).directions[i].pc == Ended(result) <==>
                  e.Step? && e.index == i && Ends(p.directions[i], p, e.io, e.accepted, e.expired, result))
            && (Next(p, e).directions[i].pc == Ended(Some(LimitReached)) ==> p.transferred > MAX_NETWORK_BYTES)
  {
    RunKeepsBehind(events);
    var p := Run(events);
    assert p.directions[i] in p.directions;
    hide Run, Advance;
    if e.Step? && e.index == i {
      AdvanceEndsIff(p.directions[i], p, e.io, e.accepted, e.expired, result);
      AdvanceEndsIff(p.directions[i], p, e.io, e.accepted, e.expired, Some(LimitReached));
    }
  }

  /** A direction that ended cleanly has passed on its whole stream: every byte read, and it had met the end. */
  lemma EndedCleanlyIsWhole(events: seq<Event>, d: Direction)
    requires d in Run(events).directions && d.pc == Ended(None)
    ensures d.written == d.read && d.refused == 0
  {
    RunKeepsInv(events);
    assert DirectionInv(d);
  }

  // ---------------------------------------------------------------- a direction keeps relaying

  /** The calls by which direction i passes on one chunk: look, read, count, decide, write, look whether it is all. */
  function Round(i: nat, chunk: Bytes): seq<Event> {
    [Step(i, WouldBlock, 0, false), Step(i, Data(chunk), 0, false), Step(i, WouldBlock, 0, false),
     Step(i, WouldBlock, 0, false), Step(i, Data([]), |chunk|, false), Step(i, WouldBlock, 0, false)]
  }

  function Rounds(i: nat, chunks: seq<Bytes>): seq<Event> {
    if chunks == [] then [Step(i, WouldBlock, 0, false), Step(i, EndOfStream, 0, false)]
    else Round(i, chunks[0]) + Rounds(i, chunks[1..])
  }

  function Concat(chunks: seq<Bytes>): Bytes { if chunks == [] then [] else chunks[0] + Concat(chunks[1..]) }

  /** The proxy with direction i changed. */
  function Having(p: Proxy, i: nat, d: Direction, transferred: nat): Proxy
    requires i < |p.directions|
  {
    p.(directions := p.directions[i := d], transferred := transferred)
  }

  function Passed(d: Direction, chunk: Bytes): Direction {
    d.(read := d.read + chunk, written := d.written + chunk, admitted := d.admitted + |chunk|)
  }

  /** Where direction i stands after one call, the rest of the proxy being as it was. */
  lemma StepHas(p: Proxy, i: nat, d: Direction, io: Io, accepted: nat, transferred: nat, d': Direction, after: nat)
    requires i < |p.directions|
    requires Advance(d, Having(p, i, d, transferred), io, accepted, false) == (d', after)
    ensures Next(Having(p, i, d, transferred), Step(i, io, accepted, false)) == Having(p, i, d', after)
  {
    hide Advance;
    assert p.directions[i := d][i := d'] == p.directions[i := d'];
  }

  /** A round passes the chunk on, and leaves the direction looking for more. */
  lemma RoundRelays(p: Proxy, i: nat, chunk: Bytes)
    requires i < |p.directions| && !p.stop && p.directions[i].pc.Looking?
    requires 0 < |chunk| <= CHUNK && p.transferred + |chunk| <= MAX_NETWORK_BYTES
    ensures RunFrom(p, Round(i, chunk))
            == Having(p, i, Passed(p.directions[i], chunk), p.transferred + |chunk|)
  {
    var d, t, total := p.directions[i], p.transferred, p.transferred + |chunk|;
    var d1 := d.(pc := Reading);
    var d2 := d.(pc := Counting(chunk), read := d.read + chunk);
    var d3 := d2.(pc := Deciding(chunk, total));
    var d4 := d2.(pc := Writing(chunk), admitted := d.admitted + |chunk|);
    var d5 := d4.(pc := Writing([]), written := d.written + chunk);
    assert chunk[|chunk|..] == [] && chunk[..|chunk|] == chunk;
    assert Having(p, i, d, t) == p by { assert p.directions[i := d] == p.directions; }
    StepHas(p, i, d, WouldBlock, 0, t, d1, t);
    StepHas(p, i, d1, Data(chunk), 0, t, d2, t);
    StepHas(p, i, d2, WouldBlock, 0, t, d3, total);
    StepHas(p, i, d3, WouldBlock, 0, total, d4, total);
    StepHas(p, i, d4, Data([]), |chunk|, total, d5, total);
    StepHas(p, i, d5, WouldBlock, 0, total, Passed(d, chunk), total);
    hide Advance, Next, Having, RunFrom;
    var e := Round(i, chunk);
    Unfold(p, e);
    Unfold(Having(p, i, d1, t), e[1..]);
    Unfold(Having(p, i, d2, t), e[2..]);
    Unfold(Having(p, i, d3, total), e[3..]);
    Unfold(Having(p, i, d4, total), e[4..]);
    Unfold(Having(p, i, d5, total), e[5..]);
    Unfold(Having(p, i, Passed(d, chunk), total), []);
    assert e[1..][1..] == e[2..] && e[2..][1..] == e[3..] && e[3..][1..] == e[4..] && e[4..][1..] == e[5..]
        && e[5..][1..] == [];
  }

  lemma Unfold(p: Proxy, events: seq<Event>)
    ensures RunFrom(p, events) == if events == [] then p else RunFrom(Next(p, events[0]), events[1..])
  {
  }

  lemma {:induction false} RunInTwo(p: Proxy, events: seq<Event>, more: seq<Event>)
    ensures RunFrom(p, events + more) == RunFrom(RunFrom(p, events), more)
    decreases |events|
  {
    hide Next;
    if events == [] {
      assert events + more == more;
    } else {
      assert (events + more)[1..] == events[1..] + more;
      RunInTwo(Next(p, events[0]), events[1..], more);
    }
  }

  lemma StreamEnds(p: Proxy, i: nat)
    requires i < |p.directions| && !p.stop && p.directions[i].pc.Looking?
    ensures RunFrom(p, Rounds(i, [])) == Having(p, i, p.directions[i].(pc := Ended(None)), p.transferred)
  {
    var d, t, e := p.directions[i], p.transferred, Rounds(i, []);
    assert Having(p, i, d, t) == p by { assert p.directions[i := d] == p.directions; }
    StepHas(p, i, d, WouldBlock, 0, t, d.(pc := Reading), t);
    StepHas(p, i, d.(pc := Reading), EndOfStream, 0, t, d.(pc := Ended(None)), t);
    assert e[1..] == [Step(i, EndOfStream, 0, false)] && e[1..][1..] == [];
    hide Advance, Next, Having;
    Unfold(p, e);
    Unfold(Having(p, i, d.(pc := Reading), t), e[1..]);
  }

  lemma PassedTwice(p: Proxy, i: nat, chunk: Bytes, rest: Bytes)
    requires i < |p.directions|
    ensures var p' := Having(p, i, Passed(p.directions[i], chunk), p.transferred + |chunk|);
            Having(p', i, Passed(p'.directions[i], rest).(pc := Ended(None)), p'.transferred + |rest|)
            == Having(p, i, Passed(p.directions[i], chunk + rest).(pc := Ended(None)), p.transferred + |chunk + rest|)
  {
    var d := p.directions[i];
    assert (d.read + chunk) + rest == d.read + (chunk + rest);
    assert (d.written + chunk) + rest == d.written + (chunk + rest);
    var d' := Passed(d, chunk + rest).(pc := Ended(None));
    assert p.directions[i := Passed(d, chunk)][i := d'] == p.directions[i := d'];
  }

  /**
   While stop is down and the total has room, a direction relays its whole stream, however many chunks it comes in:
   from its head it has a run that reads them all, writes them all, meets the end of the stream and only then ends.
   */
  lemma {:induction false} RelaysWholeStream(p: Proxy, i: nat, chunks: seq<Bytes>)
    requires i < |p.directions| && !p.stop && p.directions[i].pc.Looking?
    requires forall chunk :: chunk in chunks ==> 0 < |chunk| <= CHUNK
    requires p.transferred + |Concat(chunks)| <= MAX_NETWORK_BYTES
    ensures RunFrom(p, Rounds(i, chunks)) ==
            Having(p, i, Passed(p.directions[i], Concat(chunks)).(pc := Ended(None)), p.transferred + |Concat(chunks)|)
    decreases |chunks|
  {
    if chunks == [] {
      StreamEnds(p, i);
      var d := p.directions[i];
      assert d.read + [] == d.read && d.written + [] == d.written;
    } else {
      var chunk, rest := chunks[0], chunks[1..];
      var p' := Having(p, i, Passed(p.directions[i], chunk), p.transferred + |chunk|);
      RoundRelays(p, i, chunk);
      RunInTwo(p, Round(i, chunk), Rounds(i, rest));
      PassedTwice(p, i, chunk, Concat(rest));
      hide RunFrom, Next;
      RelaysWholeStream(p', i, rest);
    }
  }

  // ---------------------------------------------------------------- stopping

  /** A bound on a direction's own steps left once stop is raised: it may finish the chunk in hand and no more. */
  function TurnsLeft(d: Direction): nat {
    match d.pc
    case Looking => 1
    case Reading => CHUNK + 5
    case Counting(chunk) => |chunk| + 4
    case Deciding(chunk, _) => |chunk| + 3
    case Writing(rest) => |rest| + 2
    case Ended(_) => 0
  }

  /**
   The call keeps the direction where it is: a blocking read from a silent peer, a blocking write to one that takes
   nothing, a patient write before its deadline, or an interrupted one.
   */
  predicate Waits(d: Direction, io: Io, expired: bool) {
    || (d.pc.Reading? && d.readBlocks && io.WouldBlock?)
    || (d.pc.Writing? && d.pc.rest != []
        && (io.Interrupted? || (io.WouldBlock? && (d.writeBlocks || !expired))))
  }

  lemma StoppedTurn(d: Direction, p: Proxy, io: Io, accepted: nat, expired: bool)
    requires p.stop
    ensures var d' := Advance(d, p, io, accepted, expired).0;
            && (d' == d <==> d.pc.Ended? || Waits(d, io, expired))
            && (d' != d ==> TurnsLeft(d') < TurnsLeft(d))
  {
  }

  /** A turn that leaves the direction where it was leaves the shared total too. */
  lemma TurnsUnchanged(d: Direction, p: Proxy, io: Io, accepted: nat, expired: bool)
    ensures var (d', transferred) := Advance(d, p, io, accepted, expired); d' == d ==> transferred == p.transferred
  {
  }

  function RunFrom(p: Proxy, events: seq<Event>): Proxy
    decreases |events|
  {
    if events == [] then p else RunFrom(Next(p, events[0]), events[1..])
  }

  /** The steps of one direction that get somewhere. */
  function Turns(p: Proxy, events: seq<Event>, i: nat): nat
    decreases |events|
  {
    if events == [] then 0
    else
      var after := Next(p, events[0]);
      var moved := events[0].Step? && events[0].index == i && i < |p.directions|
        && after.directions[i] != p.directions[i];
      (if moved then 1 else 0) + Turns(after, events[1..], i)
  }

  lemma StoppedNext(p: Proxy, e: Event, i: nat)
    requires p.stop && i < |p.directions|
    ensures var after := Next(p, e);
            && after.stop && i < |after.directions|
            && TurnsLeft(after.directions[i]) <= TurnsLeft(p.directions[i])
            && (after.directions[i] != p.directions[i] ==>
                  e.Step? && e.index == i && TurnsLeft(after.directions[i]) < TurnsLeft(p.directions[i]))
  {
    hide Advance, TurnsLeft;
    if e.Step? && e.index == i {
      StoppedTurn(p.directions[i], p, e.io, e.accepted, e.expired);
    }
  }

  /**
   Once stop is raised, in any run a direction takes at most TurnsLeft more steps that get anywhere, from every
   control point; and the only calls that do not bring it closer to its end are those it waits in.
   */
  lemma {:induction false} StoppedDirectionEnds(p: Proxy, events: seq<Event>, i: nat)
    requires p.stop && i < |p.directions|
    ensures var end := RunFrom(p, events);
            && end.stop && i < |end.directions|
            && Turns(p, events, i) + TurnsLeft(end.directions[i]) <= TurnsLeft(p.directions[i])
            && (forall io, accepted, expired ::
                  Next(end, Step(i, io, accepted, expired)).directions[i] == end.directions[i]
                  <==> end.directions[i].pc.Ended? || Waits(end.directions[i], io, expired))
    decreases |events|
  {
    hide Advance, TurnsLeft, Waits;
    if events == [] {
      forall io, accepted, expired
        ensures Next(p, Step(i, io, accepted, expired)).directions[i] == p.directions[i]
                <==> p.directions[i].pc.Ended? || Waits(p.directions[i], io, expired)
      {
        StoppedTurn(p.directions[i], p, io, accepted, expired);
      }
    } else {
      StoppedNext(p, events[0], i);
      StoppedDirectionEnds(Next(p, events[0]), events[1..], i);
    }
  }
}
