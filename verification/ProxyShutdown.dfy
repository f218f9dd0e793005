/**
 Dropping the proxy (crates/multiplex-browser/src/network.rs): the listener, its workers and their tunnels together,
 from the moment stop is raised and the listener is woken to the end of the listener thread that drop joins.
 */
module ProxyShutdown {
  import opened Wrappers
  import A = ProxyAcceptor
  import T = ProxyTransfer

  /** One connection's thread. */
  datatype Worker =
    | Header                                            // reading the request and connecting, both under a timeout
    | Tunnel(forward: T.Direction, reverse: T.Direction)
    | Leaving                                           // done; still holds its guard
    | Released                                          // the guard is dropped
    | Gone                                              // the thread has ended

  datatype System = System(listener: A.Listener, workers: seq<Worker>, transferred: nat)

  /**
   What a worker's turn meets: whether its header opens a tunnel and with CONNECT, whose turn it is, and the answer of
   the socket.
   */
  datatype Answer = Answer(opens: bool, connect: bool, forward: bool, io: T.Io, accepted: nat, expired: bool)

  datatype Turn =
    | Listen(failed: bool)
    | Arrive
    | Work(worker: nat, answer: Answer)
    | Raise                 // drop's first step
    | Offer(arrives: bool)  // drop's second step, the wake

  /** The client's socket never blocks; the upstream one does after CONNECT, where it is left as it was opened. */
  function Tunnelled(connect: bool): Worker { Tunnel(T.Opened(false, connect), T.Opened(connect, false)) }

  function Listened(s: System, failed: bool): System {
    var l := A.ListenerNext(s.listener, failed);
    s.(listener := l, workers := if l.spawned > s.listener.spawned then s.workers + [Header] else s.workers)
  }

  function Shared(s: System): T.Proxy { T.Proxy([], s.transferred, s.listener.stop) }

  function Worked(s: System, w: nat, a: Answer): System
    requires w < |s.workers|
  {
    match s.workers[w]
    case Header => s.(workers := s.workers[w := if a.opens then Tunnelled(a.connect) else Leaving])
    case Tunnel(f, r) =>
      if f.pc.Ended? && r.pc.Ended? then s.(workers := s.workers[w := Leaving])
      else if a.forward then
        var (d, transferred) := T.Advance(f, Shared(s), a.io, a.accepted, a.expired);
        s.(workers := s.workers[w := Tunnel(d, r)], transferred := transferred)
      else
        var (d, transferred) := T.Advance(r, Shared(s), a.io, a.accepted, a.expired);
        s.(workers := s.workers[w := Tunnel(f, d)], transferred := transferred)
    case Leaving => s.(workers := s.workers[w := Released], listener := A.Next(s.listener, A.DropGuard(w)))
    case Released => s.(workers := s.workers[w := Gone], listener := A.Next(s.listener, A.Finish(w)))
    case Gone => s
  }

  function Next(s: System, t: Turn): System {
    match t
    case Listen(failed) => Listened(s, failed)
    case Arrive => s.(listener := A.Next(s.listener, A.Connect))
    case Work(w, a) => if w < |s.workers| then Worked(s, w, a) else s
    case Raise => s.(listener := A.Next(s.listener, A.RaiseStop))
    case Offer(arrives) => s.(listener := A.Next(s.listener, A.Wake(arrives)))
  }

  function Start(): System { System(A.Start(), [], 0) }

  function RunFrom(s: System, turns: seq<Turn>): System
    decreases |turns|
  {
    if turns == [] then s else RunFrom(Next(s, turns[0]), turns[1..])
  }

  predicate HoldsGuard(w: Worker) { w.Header? || w.Tunnel? || w.Leaving? }

  /** The listener's bookkeeping is about these workers. */
  ghost predicate Agree(s: System) {
    && |s.workers| == s.listener.spawned
    && (forall w :: 0 <= w < |s.workers| ==> (w in s.listener.live <==> HoldsGuard(s.workers[w])))
    && (forall w :: 0 <= w < |s.workers| ==> (w in s.listener.finished <==> s.workers[w].Gone?))
    && (forall w :: w in s.listener.finished ==> w < |s.workers|)
    && (forall w :: w in s.listener.live ==> w < |s.workers|)
  }

  lemma ListenKeepsAgreement(s: System, failed: bool)
    requires Agree(s)
    ensures Agree(Listened(s, failed))
  {
  }

  lemma WorkKeepsAgreement(s: System, w: nat, a: Answer)
    requires Agree(s) && w < |s.workers|
    ensures Agree(Worked(s, w, a))
  {
    hide T.Advance;
  }

  // ---- the measure ----

  function Rank(w: Worker): nat {
    match w
    case Header => 6
    case Tunnel(f, r) => 3 + T.TurnsLeft(f) + T.TurnsLeft(r)
    case Leaving => 2
    case Released => 1
    case Gone => 0
  }

  function Ranks(workers: seq<Worker>): nat {
    if workers == [] then 0 else Ranks(workers[..|workers| - 1]) + Rank(workers[|workers| - 1])
  }

  lemma {:induction false} RanksUpdate(workers: seq<Worker>, i: nat, w: Worker)
    requires i < |workers|
    ensures Ranks(workers[i := w]) + Rank(workers[i]) == Ranks(workers) + Rank(w)
    decreases |workers|
  {
    hide Rank;
    var n := |workers| - 1;
    if i < n {
      assert workers[i := w][..n] == workers[..n][i := w];
      RanksUpdate(workers[..n], i, w);
    } else {
      assert workers[i := w][..n] == workers[..n];
    }
  }

  lemma RanksAppend(workers: seq<Worker>, w: Worker)
    ensures Ranks(workers + [w]) == Ranks(workers) + Rank(w)
  {
    assert (workers + [w])[..|workers|] == workers;
  }

  /** What the listener has still to do, with the worker it may be about to start. */
  function ListenerLeft(l: A.Listener): nat {
    A.StepsLeft(l) + if l.pc.Raising? || l.pc.Spawning? then Rank(Header) else 0
  }

  function Left(s: System): nat { ListenerLeft(s.listener) + Ranks(s.workers) }

  lemma ListenComesCloser(s: System, failed: bool)
    requires s.listener.stop
    ensures var s' := Listened(s, failed); s'.listener.stop && (s' != s ==> Left(s') < Left(s))
    ensures A.Woken(s.listener) ==> A.Woken(Listened(s, failed).listener)
  {
    RanksAppend(s.workers, Header);
    A.StepComesCloser(s.listener, A.ListenerStep(failed));
    hide Ranks;
  }

  function Turning(worker: Worker, a: Answer): T.Direction
    requires worker.Tunnel?
  {
    if a.forward then worker.forward else worker.reverse
  }

  predicate Over(worker: Worker) { worker.Tunnel? && worker.forward.pc.Ended? && worker.reverse.pc.Ended? }

  /** The direction whose turn it is has ended, or waits for its socket. */
  predicate Waits(s: System, w: nat, a: Answer)
    requires w < |s.workers|
  {
    && s.workers[w].Tunnel? && !Over(s.workers[w])
    && (Turning(s.workers[w], a).pc.Ended? || T.Waits(Turning(s.workers[w], a), a.io, a.expired))
  }

  lemma TunnelComesCloser(s: System, w: nat, a: Answer)
    requires s.listener.stop && w < |s.workers| && s.workers[w].Tunnel?
    ensures var s' := Worked(s, w, a);
            && s'.listener == s.listener
            && (s' != s ==> Left(s') < Left(s))
            && (s' == s <==> Waits(s, w, a))
  {
    var d := Turning(s.workers[w], a);
    T.StoppedTurn(d, Shared(s), a.io, a.accepted, a.expired);
    T.TurnsUnchanged(d, Shared(s), a.io, a.accepted, a.expired);
    hide T.Advance, T.TurnsLeft, T.Waits, Ranks;
    RanksUpdate(s.workers, w, Worked(s, w, a).workers[w]);
    assert Worked(s, w, a).workers == s.workers[w := Worked(s, w, a).workers[w]];
  }

  lemma WorkComesCloser(s: System, w: nat, a: Answer)
    requires s.listener.stop && w < |s.workers|
    ensures var s' := Worked(s, w, a);
            && s'.listener.stop && (A.Woken(s.listener) ==> A.Woken(s'.listener))
            && (s' != s ==> Left(s') < Left(s))
            && (s' == s <==> s.workers[w].Gone? || Waits(s, w, a))
  {
    if s.workers[w].Tunnel? {
      hide Waits, Left;
      TunnelComesCloser(s, w, a);
    } else {
      hide Ranks;
      assert Worked(s, w, a).workers == s.workers[w := Worked(s, w, a).workers[w]];
      RanksUpdate(s.workers, w, Worked(s, w, a).workers[w]);
    }
  }

  lemma {:induction false} RunKeepsAgreement(s: System, turns: seq<Turn>)
    requires Agree(s)
    ensures Agree(RunFrom(s, turns))
    decreases |turns|
  {
    hide Listened, Worked;
    if turns != [] {
      match turns[0] {
        case Listen(failed) => ListenKeepsAgreement(s, failed);
        case Work(w, a) => if w < |s.workers| { WorkKeepsAgreement(s, w, a); }
        case _ =>
      }
      RunKeepsAgreement(Next(s, turns[0]), turns[1..]);
    }
  }

  /** Turns of the listener and the workers that get somewhere. */
  function Moves(s: System, turns: seq<Turn>): nat
    decreases |turns|
  {
    if turns == [] then 0
    else
      var after := Next(s, turns[0]);
      (if (turns[0].Listen? || turns[0].Work?) && after != s then 1 else 0) + Moves(after, turns[1..])
  }

  lemma NextComesCloser(s: System, t: Turn)
    requires s.listener.stop
    ensures var s' := Next(s, t);
            && s'.listener.stop && (A.Woken(s.listener) ==> A.Woken(s'.listener))
            && Left(s') <= Left(s)
            && ((t.Listen? || t.Work?) && s' != s ==> Left(s') < Left(s))
  {
    hide Listened, Worked, Ranks;
    match t
    case Listen(failed) => ListenComesCloser(s, failed);
    case Work(w, a) => if w < |s.workers| { WorkComesCloser(s, w, a); }
    case _ =>
  }

  lemma {:induction false} MovesAreBounded(s: System, turns: seq<Turn>)
    requires A.Woken(s.listener)
    ensures Moves(s, turns) + Left(RunFrom(s, turns)) <= Left(s)
    ensures A.Woken(RunFrom(s, turns).listener)
    decreases |turns|
  {
    if turns != [] {
      hide Next, Left;
      NextComesCloser(s, turns[0]);
      MovesAreBounded(Next(s, turns[0]), turns[1..]);
    }
  }

  // ---- when drop ends ----

  /** The peer has nothing to say and takes nothing; the patient write is past its deadline. */
  predicate Silent(a: Answer) { a.io.WouldBlock? && a.expired }

  /** The thread is inside a call that only the peer can end. */
  predicate Blocked(d: T.Direction) {
    (d.pc.Reading? && d.readBlocks) || (d.pc.Writing? && d.pc.rest != [] && d.writeBlocks)
  }

  predicate HasBlocked(worker: Worker) { worker.Tunnel? && (Blocked(worker.forward) || Blocked(worker.reverse)) }

  /** Neither the listener nor a worker gets any further by itself. */
  ghost predicate AtRest(s: System) {
    && Next(s, Listen(false)) == s
    && forall w: nat, a: Answer :: w < |s.workers| && Silent(a) ==> Next(s, Work(w, a)) == s
  }

  lemma TurnKeepsInv(s: System, t: Turn)
    requires A.Inv(s.listener)
    ensures A.Inv(Next(s, t).listener)
  {
    hide T.Advance, A.Inv, A.Next, A.ListenerNext;
    match t
    case Listen(failed) =>
      A.ListenerKeepsInv(s.listener, failed);
    case Arrive => A.NextKeepsInv(s.listener, A.Connect);
    case Raise => A.NextKeepsInv(s.listener, A.RaiseStop);
    case Offer(arrives) => A.NextKeepsInv(s.listener, A.Wake(arrives));
    case Work(w, a) =>
      A.NextKeepsInv(s.listener, A.DropGuard(w));
      A.NextKeepsInv(s.listener, A.Finish(w));
  }

  lemma {:induction false} RunKeepsInv(s: System, turns: seq<Turn>)
    requires A.Inv(s.listener)
    ensures A.Inv(RunFrom(s, turns).listener)
    decreases |turns|
  {
    hide Next, A.Inv;
    if turns != [] {
      TurnKeepsInv(s, turns[0]);
      RunKeepsInv(Next(s, turns[0]), turns[1..]);
    }
  }

  /** When the listener has ended, so has every worker. */
  lemma EndedLeavesNoWorker(s: System, w: nat)
    requires Agree(s) && A.Inv(s.listener) && s.listener.pc.Ended? && w < |s.workers|
    ensures s.workers[w].Gone?
  {
    hide A.Inv;
    A.JoinedOnce(s.listener, w);
    assert multiset(s.listener.joined)[w] == 1;
    assert w in multiset(s.listener.joined);
  }

  /** What a worker does without help: it moves unless it is gone or waits in a blocking call. */
  lemma UnaidedWorker(s: System, w: nat)
    requires s.listener.stop && w < |s.workers| && !s.workers[w].Gone? && !HasBlocked(s.workers[w])
    ensures exists a :: Silent(a) && Next(s, Work(w, a)) != s
  {
    var worker := s.workers[w];
    var a := Answer(false, false, worker.Tunnel? && !worker.forward.pc.Ended?, T.WouldBlock, 0, true);
    assert Silent(a);
    WorkComesCloser(s, w, a);
    assert !Waits(s, w, a);
    assert Next(s, Work(w, a)) != s by { hide Worked; }
  }

  lemma RestIff(s: System)
    requires Agree(s) && A.Inv(s.listener) && A.Woken(s.listener) && AtRest(s)
    ensures s.listener.pc.Ended? <==> forall w :: 0 <= w < |s.workers| ==> !HasBlocked(s.workers[w])
  {
    hide A.Inv, A.ListenerNext, Worked;
    if s.listener.pc.Ended? {
      forall w | 0 <= w < |s.workers| ensures !HasBlocked(s.workers[w]) { EndedLeavesNoWorker(s, w); }
    } else {
      A.ListenerWaitsIff(s.listener, false);
      var w := s.listener.workers[0];
      A.JoinedOnce(s.listener, w);
      if !HasBlocked(s.workers[w]) { UnaidedWorker(s, w); }
    }
  }

  // ---- what may still block ----

  /** With stop up, the direction may yet come to wait in a call on a blocking socket. */
  predicate MayBlock(d: T.Direction, transferred: nat) {
    match d.pc
    case Reading => d.readBlocks || (d.writeBlocks && transferred < T.MAX_NETWORK_BYTES)
    case Counting(chunk) => d.writeBlocks && chunk != [] && transferred + |chunk| <= T.MAX_NETWORK_BYTES
    case Deciding(chunk, total) => d.writeBlocks && chunk != [] && total <= T.MAX_NETWORK_BYTES
    case Writing(rest) => d.writeBlocks && rest != []
    case _ => false
  }

  predicate MayHang(worker: Worker, transferred: nat) {
    worker.Tunnel? && (MayBlock(worker.forward, transferred) || MayBlock(worker.reverse, transferred))
  }

  predicate NoneMayHang(s: System) {
    forall w :: 0 <= w < |s.workers| ==> !MayHang(s.workers[w], s.transferred)
  }

  /** With stop up a direction that cannot block never comes to, whatever its socket answers. */
  lemma NeverBlocks(d: T.Direction, p: T.Proxy, io: T.Io, accepted: nat, expired: bool)
    requires p.stop
    ensures T.Advance(d, p, io, accepted, expired).1 >= p.transferred
    ensures !MayBlock(d, p.transferred) ==>
              var (d', transferred) := T.Advance(d, p, io, accepted, expired); !MayBlock(d', transferred)
  {
  }

  lemma MoreCountedBlocksLess(d: T.Direction, before: nat, after: nat)
    requires before <= after && !MayBlock(d, before)
    ensures !MayBlock(d, after)
  {
  }

  lemma WorkKeepsNone(s: System, w: nat, a: Answer)
    requires s.listener.stop && w < |s.workers| && NoneMayHang(s)
    ensures NoneMayHang(Worked(s, w, a))
  {
    hide T.Advance, MayBlock;
    var worker, s' := s.workers[w], Worked(s, w, a);
    if worker.Tunnel? && !Over(worker) {
      NeverBlocks(Turning(worker, a), Shared(s), a.io, a.accepted, a.expired);
    }
    forall v | 0 <= v < |s'.workers| && s'.workers[v].Tunnel? ensures !MayHang(s'.workers[v], s'.transferred) {
      assert !MayHang(s.workers[v], s.transferred);
      if worker.Header? { FreshNeverBlocks(a.connect, s.transferred); }
      if s.workers[v].Tunnel? {
        MoreCountedBlocksLess(s.workers[v].forward, s.transferred, s'.transferred) by { hide Worked; }
        MoreCountedBlocksLess(s.workers[v].reverse, s.transferred, s'.transferred) by { hide Worked; }
      }
    }
  }

  lemma FreshNeverBlocks(connect: bool, transferred: nat)
    ensures !MayHang(Tunnelled(connect), transferred)
  {
  }

  lemma {:induction false} RunKeepsNone(s: System, turns: seq<Turn>)
    requires s.listener.stop && NoneMayHang(s)
    ensures NoneMayHang(RunFrom(s, turns))
    decreases |turns|
  {
    if turns != [] {
      NextComesCloser(s, turns[0]);
      NextKeepsNone(s, turns[0]);
      hide Next, NoneMayHang;
      RunKeepsNone(Next(s, turns[0]), turns[1..]);
    }
  }

  lemma NextKeepsNone(s: System, t: Turn)
    requires s.listener.stop && NoneMayHang(s)
    ensures NoneMayHang(Next(s, t))
  {
    hide Worked;
    match t
    case Work(w, a) => if w < |s.workers| { WorkKeepsNone(s, w, a); }
    case _ =>
  }

  // ---- a silent upstream ----

  /** The peer of that direction of that worker stays silent. */
  predicate SilentTo(turns: seq<Turn>, w: nat, forward: bool) {
    forall t :: t in turns && t.Work? && t.worker == w && t.answer.forward == forward ==> t.answer.io.WouldBlock?
  }

  predicate BlockedIn(s: System, w: nat, forward: bool) {
    && w < |s.workers| && s.workers[w].Tunnel?
    && Blocked(if forward then s.workers[w].forward else s.workers[w].reverse)
  }

  lemma BlockedStays(s: System, t: Turn, w: nat, forward: bool)
    requires BlockedIn(s, w, forward) && SilentTo([t], w, forward)
    ensures BlockedIn(Next(s, t), w, forward)
  {
    assert t in [t];
    if t.Work? && t.worker == w && t.answer.forward != forward { hide T.Advance; }
  }

  /** A call on a blocking socket lasts as long as its peer is silent, and drop with it. */
  lemma {:induction false} BlockedHoldsDrop(s: System, turns: seq<Turn>, w: nat, forward: bool)
    requires Agree(s) && A.Inv(s.listener) && BlockedIn(s, w, forward) && SilentTo(turns, w, forward)
    ensures BlockedIn(RunFrom(s, turns), w, forward) && !RunFrom(s, turns).listener.pc.Ended?
    decreases |turns|
  {
    hide A.Inv, Next, Agree;
    if turns == [] {
      if s.listener.pc.Ended? { EndedLeavesNoWorker(s, w); }
    } else {
      assert turns[0] in turns && SilentTo([turns[0]], w, forward);
      assert forall t :: t in turns[1..] ==> t in turns;
      BlockedStays(s, turns[0], w, forward);
      RunKeepsAgreement(s, [turns[0]]);
      TurnKeepsInv(s, turns[0]);
      assert RunFrom(s, [turns[0]]) == Next(s, turns[0]);
      BlockedHoldsDrop(Next(s, turns[0]), turns[1..], w, forward);
    }
  }

  /** With silent peers everyone goes on until nobody can, and the call on the blocking socket is still under way. */
  lemma {:induction false} SettlesBlocked(s: System, w: nat, forward: bool) returns (turns: seq<Turn>)
    requires Agree(s) && A.Inv(s.listener) && A.Woken(s.listener) && BlockedIn(s, w, forward)
    ensures AtRest(RunFrom(s, turns)) && !RunFrom(s, turns).listener.pc.Ended?
    decreases Left(s)
  {
    if AtRest(s) {
      turns := [];
      if s.listener.pc.Ended? { EndedLeavesNoWorker(s, w); }
    } else {
      var t := SilentTurn(s);
      hide A.Inv, Next, Agree, AtRest, Left, A.Woken;
      BlockedStays(s, t, w, forward);
      RunKeepsAgreement(s, [t]);
      TurnKeepsInv(s, t);
      NextComesCloser(s, t) by { assert s.listener.stop by { WokenIsStopped(s); } }
      assert RunFrom(s, [t]) == Next(s, t);
      var rest := SettlesBlocked(Next(s, t), w, forward);
      turns := [t] + rest;
      assert turns[1..] == rest;
    }
  }

  lemma WokenIsStopped(s: System)
    requires A.Woken(s.listener)
    ensures s.listener.stop
  {
  }

  lemma SilentTurn(s: System) returns (t: Turn)
    requires !AtRest(s)
    ensures (t.Listen? || t.Work?) && Next(s, t) != s
    ensures t.Work? ==> t.answer.io.WouldBlock?
  {
    hide Next;
    t := Listen(false);
    if Next(s, t) == s {
      var w: nat, a: Answer :| w < |s.workers| && Silent(a) && Next(s, Work(w, a)) != s;
      t := Work(w, a);
    }
  }

  const BYTE := T.Data([0])

  lemma ApproachStep(d: T.Direction, p: T.Proxy)
    requires p.stop && MayBlock(d, p.transferred) && !Blocked(d)
    ensures var (d', transferred) := T.Advance(d, p, BYTE, 0, false); d' != d && MayBlock(d', transferred)
  {
  }

  predicate MayBlockIn(s: System, w: nat, forward: bool) {
    && w < |s.workers| && s.workers[w].Tunnel?
    && MayBlock(if forward then s.workers[w].forward else s.workers[w].reverse, s.transferred)
  }

  /** What may block can: its reader has one more byte, and its writer takes nothing. */
  lemma {:induction false} ComesToBlock(s: System, w: nat, forward: bool) returns (turns: seq<Turn>)
    requires s.listener.stop && MayBlockIn(s, w, forward)
    ensures BlockedIn(RunFrom(s, turns), w, forward)
    decreases Left(s)
  {
    var d := if forward then s.workers[w].forward else s.workers[w].reverse;
    if Blocked(d) {
      turns := [];
    } else {
      var a := Answer(false, false, forward, BYTE, 0, false);
      var t := Work(w, a);
      ApproachStep(d, Shared(s));
      hide T.Advance, MayBlock, Blocked, Left;
      assert MayBlockIn(Next(s, t), w, forward) && Next(s, t) != s;
      NextComesCloser(s, t);
      var rest := ComesToBlock(Next(s, t), w, forward);
      turns := [t] + rest;
      assert turns[1..] == rest;
    }
  }

  lemma {:induction false} RunInTwo(s: System, turns: seq<Turn>, more: seq<Turn>)
    ensures RunFrom(s, turns + more) == RunFrom(RunFrom(s, turns), more)
    decreases |turns|
  {
    if turns == [] {
      assert turns + more == more;
    } else {
      assert (turns + more)[1..] == turns[1..] + more;
      RunInTwo(Next(s, turns[0]), turns[1..], more);
    }
  }

  // ---- the result ----

  lemma BlockedMayHang(s: System)
    requires NoneMayHang(s)
    ensures forall w :: 0 <= w < |s.workers| ==> !HasBlocked(s.workers[w])
  {
    forall w | 0 <= w < |s.workers| ensures !HasBlocked(s.workers[w]) {
      assert !MayHang(s.workers[w], s.transferred);
    }
  }

  /** A continuation that comes to rest with the listener thread still there, where a direction may block. */
  lemma HangsFrom(s: System, w: nat, forward: bool) returns (turns: seq<Turn>)
    requires Agree(s) && A.Inv(s.listener) && A.Woken(s.listener) && MayBlockIn(s, w, forward)
    ensures AtRest(RunFrom(s, turns)) && !RunFrom(s, turns).listener.pc.Ended?
  {
    WokenIsStopped(s);
    hide A.Inv, AtRest, RunFrom, MayBlockIn, BlockedIn, A.Woken, Agree;
    var first := ComesToBlock(s, w, forward);
    RunKeepsAgreement(s, first);
    RunKeepsInv(s, first);
    MovesAreBounded(s, first);
    var rest := SettlesBlocked(RunFrom(s, first), w, forward);
    turns := first + rest;
    RunInTwo(s, first, rest);
  }

  /**
   Dropping the proxy, judged when the wake has arrived. Whatever the peers do and whatever order the threads run in,
   at most Left turns of the listener and its workers get anywhere; and every continuation in which nobody gets
   further without the peers has ended the listener thread, and drop with it, iff no direction of any tunnel may block
   at that moment.
   */
  lemma DropEndsIff(before: seq<Turn>)
    requires RunFrom(Start(), before).listener.stop
    ensures var woken := Next(RunFrom(Start(), before), Offer(true));
            && (forall turns :: Moves(woken, turns) + Left(RunFrom(woken, turns)) <= Left(woken))
            && ((forall turns :: AtRest(RunFrom(woken, turns)) ==> RunFrom(woken, turns).listener.pc.Ended?)
                <==> NoneMayHang(woken))
  {
    var s := RunFrom(Start(), before);
    var woken := Next(s, Offer(true));
    RunKeepsAgreement(Start(), before);
    RunKeepsInv(Start(), before);
    A.WakeWakes(s.listener);
    hide A.Inv, AtRest, RunFrom, HasBlocked, Moves, Left, Start, NoneMayHang;
    assert Agree(woken);
    TurnKeepsInv(s, Offer(true));
    WokenIsStopped(woken);
    forall turns ensures Moves(woken, turns) + Left(RunFrom(woken, turns)) <= Left(woken) {
      MovesAreBounded(woken, turns);
    }
    if NoneMayHang(woken) {
      forall turns | AtRest(RunFrom(woken, turns)) ensures RunFrom(woken, turns).listener.pc.Ended? {
        EndsAtRest(woken, turns);
      }
    } else {
      var w, forward := WhoMayHang(woken);
      var turns := HangsFrom(woken, w, forward);
    }
  }

  lemma EndsAtRest(s: System, turns: seq<Turn>)
    requires Agree(s) && A.Inv(s.listener) && A.Woken(s.listener) && NoneMayHang(s) && AtRest(RunFrom(s, turns))
    ensures RunFrom(s, turns).listener.pc.Ended?
  {
    WokenIsStopped(s);
    hide *;
    RunKeepsAgreement(s, turns);
    RunKeepsInv(s, turns);
    MovesAreBounded(s, turns);
    RunKeepsNone(s, turns);
    BlockedMayHang(RunFrom(s, turns));
    RestIff(RunFrom(s, turns));
  }

  lemma WhoMayHang(s: System) returns (w: nat, forward: bool)
    requires !NoneMayHang(s)
    ensures MayBlockIn(s, w, forward)
  {
    w :| 0 <= w < |s.workers| && MayHang(s.workers[w], s.transferred);
    forward := MayBlock(s.workers[w].forward, s.transferred);
  }

  // ---- no CONNECT tunnel ----

  /** No tunnel has a blocking socket. */
  predicate NoneBlocking(s: System) {
    forall w :: 0 <= w < |s.workers| && s.workers[w].Tunnel? ==>
      && !s.workers[w].forward.readBlocks && !s.workers[w].forward.writeBlocks
      && !s.workers[w].reverse.readBlocks && !s.workers[w].reverse.writeBlocks
  }

  lemma AdvanceKeepsModes(d: T.Direction, p: T.Proxy, io: T.Io, accepted: nat, expired: bool)
    ensures var d' := T.Advance(d, p, io, accepted, expired).0;
            d'.readBlocks == d.readBlocks && d'.writeBlocks == d.writeBlocks
  {
  }

  lemma NextKeepsNoneBlocking(s: System, t: Turn)
    requires NoneBlocking(s) && (t.Work? ==> !t.answer.connect)
    ensures NoneBlocking(Next(s, t))
  {
    if t.Work? && t.worker < |s.workers| && s.workers[t.worker].Tunnel? {
      var worker, a := s.workers[t.worker], t.answer;
      AdvanceKeepsModes(Turning(worker, a), Shared(s), a.io, a.accepted, a.expired);
      hide T.Advance;
    }
  }

  lemma {:induction false} RunKeepsNoneBlocking(s: System, turns: seq<Turn>)
    requires NoneBlocking(s) && forall t :: t in turns && t.Work? ==> !t.answer.connect
    ensures NoneBlocking(RunFrom(s, turns))
    decreases |turns|
  {
    if turns != [] {
      assert turns[0] in turns && forall t :: t in turns[1..] ==> t in turns;
      NextKeepsNoneBlocking(s, turns[0]);
      hide Next, NoneBlocking;
      RunKeepsNoneBlocking(Next(s, turns[0]), turns[1..]);
    }
  }

  /** Where no tunnel was opened with CONNECT, drop ends however things go on, once its wake has arrived. */
  lemma PlainTunnelsLetDropEnd(before: seq<Turn>, turns: seq<Turn>)
    requires RunFrom(Start(), before).listener.stop && forall t :: t in before && t.Work? ==> !t.answer.connect
    ensures var end := RunFrom(Next(RunFrom(Start(), before), Offer(true)), turns);
            AtRest(end) ==> end.listener.pc.Ended?
  {
    RunKeepsNoneBlocking(Start(), before);
    var woken := Next(RunFrom(Start(), before), Offer(true));
    assert NoneBlocking(woken);
    assert NoneMayHang(woken);
    hide RunFrom, AtRest, NoneMayHang, Start;
    DropEndsIff(before);
  }

  // ---- one CONNECT tunnel ----

  lemma Play(turns: seq<Turn>, s: System, t: Turn) returns (turns': seq<Turn>, s': System)
    requires RunFrom(Start(), turns) == s
    ensures turns' == turns + [t] && s' == Next(s, t) && RunFrom(Start(), turns') == s'
  {
    turns', s' := turns + [t], Next(s, t);
    RunInTwo(Start(), turns, [t]);
  }

  /** A connection is accepted, and a worker is started for it. */
  lemma OneWorker() returns (turns: seq<Turn>, s: System)
    ensures RunFrom(Start(), turns) == s && s.workers == [Header] && !s.listener.stop
  {
    var listen := Listen(false);
    turns, s := [], Start();
    assert RunFrom(Start(), []) == s;
    hide RunFrom;
    turns, s := Play(turns, s, listen);
    turns, s := Play(turns, s, listen);
    assert s == Start().(listener := s.listener) && s.listener == Start().listener.(pc := A.Accepting);
    hide Start;
    turns, s := Play(turns, s, Arrive);
    turns, s := Play(turns, s, listen);
    turns, s := Play(turns, s, listen);
    assert s.listener.pc.Raising?;
    turns, s := Play(turns, s, listen);
    turns, s := Play(turns, s, listen);
  }

  /** Its header opens a tunnel with CONNECT, whose upstream is then read. */
  lemma OneTunnel() returns (turns: seq<Turn>, s: System)
    ensures RunFrom(Start(), turns) == s && BlockedIn(s, 0, false) && s.listener.stop
  {
    turns, s := OneWorker();
    hide RunFrom, Start;
    var opening := Work(0, Answer(true, true, false, T.WouldBlock, 0, false));
    turns, s := Play(turns, s, opening);
    assert s.workers == [Tunnelled(true)];
    turns, s := Play(turns, s, opening);
    turns, s := Play(turns, s, Raise);
  }

  /** Drop does not end in every run: with one silent CONNECT upstream it waits for ever, its wake notwithstanding. */
  lemma SilentUpstreamHangsDrop() returns (before: seq<Turn>)
    ensures RunFrom(Start(), before).listener.stop
    ensures forall turns :: SilentTo(turns, 0, false) ==>
              !RunFrom(Next(RunFrom(Start(), before), Offer(true)), turns).listener.pc.Ended?
  {
    var s, after, woken;
    before, s := OneTunnel();
    after, woken := Play(before, s, Offer(true));
    RunKeepsAgreement(Start(), after);
    RunKeepsInv(Start(), after);
    BlockedStays(s, Offer(true), 0, false);
    forall turns | SilentTo(turns, 0, false) ensures !RunFrom(woken, turns).listener.pc.Ended? {
      hide *;
      BlockedHoldsDrop(woken, turns, 0, false);
    }
  }
}
