/**
 The proxy's listener thread and its connection workers (crates/multiplex-browser/src/network.rs). The
 listener waits in accept for a connection; it reads the count of active connections and raises it in two separate
 steps; workers lower it whenever they end. Dropping the proxy raises the stop flag and then opens a connection of
 its own to wake the wait; the result of that connection is ignored.
 */
module ProxyAcceptor {
  import opened Wrappers

  const MAX_PROXY_CONNECTIONS: nat := 32

  /** The listener's control points. */
  datatype Pc =
    | Testing               // about to test the stop flag
    | Sweeping(index: nat)  // about to look at workers[index]
    | Accepting             // waiting for a connection
    | Checking              // about to test the stop flag and load the count
    | Raising               // the load allowed it; about to raise the count
    | Spawning              // the count is raised; about to start the worker
    | Joining               // the loop is over; joining what is left
    | Ended

  /** Workers are numbered in the order they are spawned. */
  datatype Listener = Listener(
    pc: Pc,
    stop: bool,
    waiting: nat,        // connections that have arrived and were not accepted yet
    active: int,
    workers: seq<nat>,   // the vector of handles
    joined: seq<nat>,    // handles joined, in order
    spawned: nat,
    live: set<nat>,      // workers whose guard is still held
    finished: set<nat>)  // threads that have ended

  datatype Event =
    | ListenerStep(failed: bool)   // `failed`: an accept of this step answers an error
    | Connect                      // a connection arrives
    | RaiseStop
    | Wake(arrives: bool)          // the connection drop opens, which may fail
    | DropGuard(worker: nat)
    | Finish(worker: nat)

  /** Vec::swap_remove: the last element takes the removed one's place. */
  function SwapRemove(s: seq<nat>, i: nat): seq<nat>
    requires i < |s|
  {
    s[i := s[|s| - 1]][..|s| - 1]
  }

  function ListenerNext(l: Listener, failed: bool): Listener {
    match l.pc
    case Testing => l.(pc := if l.stop then Joining else Sweeping(0))
    case Sweeping(index) =>
      if index >= |l.workers| then l.(pc := Accepting)
      else if l.workers[index] in l.finished then
        l.(workers := SwapRemove(l.workers, index), joined := l.joined + [l.workers[index]])
      else l.(pc := Sweeping(index + 1))
    case Accepting =>
      if failed then l.(pc := Joining)
      else if l.waiting > 0 then l.(pc := Checking, waiting := l.waiting - 1)
      else l  // blocked in accept
    case Checking => l.(pc := if l.stop || l.active >= MAX_PROXY_CONNECTIONS then Testing else Raising)
    case Raising => l.(pc := Spawning, active := l.active + 1)
    case Spawning =>
      l.(pc := Testing, workers := l.workers + [l.spawned], live := l.live + {l.spawned}, spawned := l.spawned + 1)
    case Joining =>
      if l.workers == [] then l.(pc := Ended)
      else if l.workers[0] in l.finished then l.(workers := l.workers[1..], joined := l.joined + [l.workers[0]])
      else l
    case Ended => l
  }

  function Next(l: Listener, e: Event): Listener {
    match e
    case ListenerStep(failed) => ListenerNext(l, failed)
    case Connect => l.(waiting := l.waiting + 1)
    case RaiseStop => l.(stop := true)
    case Wake(arrives) => if arrives then l.(waiting := l.waiting + 1) else l
    case DropGuard(worker) => if worker in l.live then l.(live := l.live - {worker}, active := l.active - 1) else l
    case Finish(worker) =>
      if worker < l.spawned && worker !in l.live then l.(finished := l.finished + {worker}) else l
  }

  function Start(): Listener { Listener(Testing, false, 0, 0, [], [], 0, {}, {}) }

  function Run(events: seq<Event>): Listener
    decreases |events|
  {
    if events == [] then Start() else Next(Run(events[..|events| - 1]), events[|events| - 1])
  }

  /** Each of the numbers below n once. */
  function Upto(n: nat): multiset<nat> { if n == 0 then multiset{} else Upto(n - 1) + multiset{n - 1} }

  lemma {:induction false} UptoCounts(n: nat, k: nat)
    ensures Upto(n)[k] == if k < n then 1 else 0
    decreases n
  {
    if n > 0 { UptoCounts(n - 1, k); }
  }

  /** Every handle is either still in the vector or joined, once. */
  ghost predicate Accounted(workers: seq<nat>, joined: seq<nat>, spawned: nat) {
    multiset(workers) + multiset(joined) == Upto(spawned)
  }

  ghost predicate Inv(l: Listener) {
    // the count is the guards held, plus the one raised for the worker about to start
    && l.active == |l.live| + (if l.pc.Spawning? then 1 else 0)
    && l.active <= MAX_PROXY_CONNECTIONS
    && (l.pc.Raising? ==> l.active < MAX_PROXY_CONNECTIONS)
    && Accounted(l.workers, l.joined, l.spawned)
    && (forall w :: w in l.live ==> w < l.spawned)
    && (forall w :: w in l.finished ==> w < l.spawned && w !in l.live)
    && (forall i :: 0 <= i < |l.joined| ==> l.joined[i] in l.finished)
    && (l.pc.Ended? ==> l.workers == [])
  }

  lemma SwapRemoveTakesOne(s: seq<nat>, i: nat)
    requires i < |s|
    ensures multiset(SwapRemove(s, i)) + multiset{s[i]} == multiset(s)
  {
    var last := |s| - 1;
    var front := s[..last];
    assert s == front + [s[last]];
    if i == last {
      assert SwapRemove(s, i) == front;
    } else {
      var swapped := front[i := s[last]];
      assert SwapRemove(s, i) == swapped;
      assert multiset(swapped) == multiset(front)[front[i] := multiset(front)[front[i]] - 1] + multiset{s[last]};
    }
  }

  lemma FirstIsOne(s: seq<nat>)
    requires s != []
    ensures multiset(s[1..]) + multiset{s[0]} == multiset(s)
  {
    assert s == [s[0]] + s[1..];
  }

  lemma HandleMoves(workers: seq<nat>, workers': seq<nat>, joined: seq<nat>, h: nat, spawned: nat)
    requires Accounted(workers, joined, spawned) && multiset(workers') + multiset{h} == multiset(workers)
    ensures Accounted(workers', joined + [h], spawned)
  {
    assert multiset(joined + [h]) == multiset(joined) + multiset{h};
  }

  lemma NextKeepsInv(l: Listener, e: Event)
    requires Inv(l)
    ensures Inv(Next(l, e))
  {
    match e
    case ListenerStep(failed) => ListenerKeepsInv(l, failed);
    case _ =>
  }

  lemma ListenerKeepsInv(l: Listener, failed: bool)
    requires Inv(l)
    ensures Inv(ListenerNext(l, failed))
  {
    hide SwapRemove, Accounted, Upto;
    match l.pc
    case Sweeping(index) => SweepKeepsInv(l);
    case Joining => JoinKeepsInv(l);
    case Spawning => SpawnKeepsInv(l);
    case _ =>
  }

  lemma SweepKeepsInv(l: Listener)
    requires Inv(l) && l.pc.Sweeping?
    ensures Inv(ListenerNext(l, true))
  {
    hide SwapRemove, Accounted;
    var index := l.pc.index;
    if index < |l.workers| {
      SwapRemoveTakesOne(l.workers, index);
      HandleMoves(l.workers, SwapRemove(l.workers, index), l.joined, l.workers[index], l.spawned);
    }
  }

  lemma JoinKeepsInv(l: Listener)
    requires Inv(l) && l.pc.Joining?
    ensures Inv(ListenerNext(l, true))
  {
    hide SwapRemove, Accounted;
    if l.workers != [] {
      FirstIsOne(l.workers);
      HandleMoves(l.workers, l.workers[1..], l.joined, l.workers[0], l.spawned);
    }
  }

  lemma SpawnKeepsInv(l: Listener)
    requires Inv(l) && l.pc.Spawning?
    ensures Inv(ListenerNext(l, true))
  {
    var workers' := l.workers + [l.spawned];
    assert multiset(workers') == multiset(l.workers) + multiset{l.spawned};
    assert Upto(l.spawned + 1) == Upto(l.spawned) + multiset{l.spawned};
    assert l.spawned !in l.live;
  }

  lemma {:induction false} RunKeepsInv(events: seq<Event>)
    ensures Inv(Run(events))
    decreases |events|
  {
    if events != [] {
      RunKeepsInv(events[..|events| - 1]);
      NextKeepsInv(Run(events[..|events| - 1]), events[|events| - 1]);
    }
  }

  /** However load, raise and lower interleave, no more than 32 connections are ever live. */
  lemma ConnectionsAreBounded(events: seq<Event>)
    ensures |Run(events).live| <= MAX_PROXY_CONNECTIONS && 0 <= Run(events).active <= MAX_PROXY_CONNECTIONS
  {
    RunKeepsInv(events);
  }

  /** No worker is joined twice or before it has ended, and when the listener ends all have been joined. */
  lemma EveryWorkerJoinedOnce(events: seq<Event>, w: nat)
    ensures var l := Run(events);
            && multiset(l.joined)[w] <= 1
            && (w in l.joined ==> w < l.spawned && w in l.finished)
            && (l.pc.Ended? && w < l.spawned ==> multiset(l.joined)[w] == 1)
  {
    RunKeepsInv(events);
    JoinedOnce(Run(events), w);
  }

  lemma JoinedOnce(l: Listener, w: nat)
    requires Inv(l)
    ensures multiset(l.joined)[w] <= 1
    ensures w in l.joined ==> w < l.spawned && w in l.finished
    ensures l.pc.Ended? && w < l.spawned ==> multiset(l.joined)[w] == 1
    ensures w in l.workers ==> w < l.spawned
  {
    UptoCounts(l.spawned, w);
    assert multiset(l.workers)[w] + multiset(l.joined)[w] == Upto(l.spawned)[w];
  }

  /**
   What becomes of a connection that was accepted: it gets a worker of its own iff stop was down and fewer than 32
   connections were live when it was checked; nothing that happens in between can take that back, and in either case
   the listener comes round to its flag again.
   */
  lemma AcceptedIff(events: seq<Event>, failed: bool, others: seq<Event>, more: seq<Event>)
    requires Run(events).pc.Checking? && NotOwn(others) && NotOwn(more)
    ensures var l := Run(events);
            var checked := Next(l, ListenerStep(failed));
            var welcome := !l.stop && |l.live| < MAX_PROXY_CONNECTIONS;
            && (!welcome ==> checked.pc.Testing? && checked.workers == l.workers)
            && (welcome ==>
                  var raised := Next(RunFrom(checked, others), ListenerStep(failed));
                  var spawned := Next(RunFrom(raised, more), ListenerStep(failed));
                  && spawned.pc.Testing? && spawned.spawned == l.spawned + 1
                  && spawned.workers == l.workers + [l.spawned] && l.spawned in spawned.live)
  {
    RunKeepsInv(events);
    var l := Run(events);
    assert l.active == |l.live|;
    var checked := Next(l, ListenerStep(failed));
    OthersLeave(checked, others);
    var raised := Next(RunFrom(checked, others), ListenerStep(failed));
    OthersLeave(raised, more);
  }

  /** Of the workers that had ended by then, none is left in the list, or none before the one the sweep looks at. */
  ghost predicate Swept(l: Listener, ended: set<nat>) {
    && (forall w :: w in ended ==> w < l.spawned && w in l.finished)
    && forall i :: 0 <= i < (if l.pc.Sweeping? then Min(l.pc.index, |l.workers|) else |l.workers|) ==>
         l.workers[i] !in ended
  }

  lemma NextKeepsSwept(l: Listener, e: Event, ended: set<nat>)
    requires Swept(l, ended)
    ensures Swept(Next(l, e), ended)
  {
    hide SwapRemove;
    if e.ListenerStep? && l.pc.Sweeping? { SweepKeepsSwept(l, ended); }
  }

  lemma SweepKeepsSwept(l: Listener, ended: set<nat>)
    requires Swept(l, ended) && l.pc.Sweeping?
    ensures Swept(ListenerNext(l, true), ended) && Swept(ListenerNext(l, false), ended)
  {
    var index := l.pc.index;
    if index < |l.workers| && l.workers[index] in l.finished {
      var workers := SwapRemove(l.workers, index);
      forall i | 0 <= i < Min(index, |workers|) ensures workers[i] == l.workers[i] {}
    }
  }

  /**
   Every round of a listener that is not stopped sweeps the list: from the look at the flag on, in any run, the workers
   that had ended by then are gone from it whenever the listener is not in the middle of a sweep.
   */
  lemma RoundSweeps(l: Listener, events: seq<Event>, failed: bool)
    requires Inv(l) && l.pc.Testing? && !l.stop
    ensures var end := RunFrom(Next(l, ListenerStep(failed)), events);
            && Swept(end, l.finished)
            && (!end.pc.Sweeping? ==> forall w :: w in end.workers ==> w !in l.finished)
  {
    var swept := Next(l, ListenerStep(failed));
    assert Swept(swept, l.finished);
    SweptStays(swept, events, l.finished);
  }

  lemma {:induction false} SweptStays(l: Listener, events: seq<Event>, ended: set<nat>)
    requires Swept(l, ended)
    ensures Swept(RunFrom(l, events), ended)
    decreases |events|
  {
    if events != [] {
      hide Swept, Next;
      NextKeepsSwept(l, events[0], ended);
      SweptStays(Next(l, events[0]), events[1..], ended);
    }
  }

  /** An accept that fails is the last: the listener goes on to join its workers and starts no other. */
  lemma FailedAcceptIsTheLast(l: Listener, events: seq<Event>)
    requires l.pc.Accepting?
    ensures var end := RunFrom(Next(l, ListenerStep(true)), events);
            (end.pc.Joining? || end.pc.Ended?) && end.spawned == l.spawned
  {
    JoiningStays(Next(l, ListenerStep(true)), events);
  }

  lemma {:induction false} JoiningStays(l: Listener, events: seq<Event>)
    requires l.pc.Joining? || l.pc.Ended?
    ensures var end := RunFrom(l, events); (end.pc.Joining? || end.pc.Ended?) && end.spawned == l.spawned
    decreases |events|
  {
    if events != [] { JoiningStays(Next(l, events[0]), events[1..]); }
  }

  predicate NotOwn(events: seq<Event>) { forall e :: e in events ==> !e.ListenerStep? }

  lemma {:induction false} OthersLeave(l: Listener, events: seq<Event>)
    requires NotOwn(events)
    ensures var end := RunFrom(l, events); end.pc == l.pc && end.workers == l.workers && end.spawned == l.spawned
    decreases |events|
  {
    if events != [] {
      assert events[0] in events && forall e :: e in events[1..] ==> e in events;
      OthersLeave(Next(l, events[0]), events[1..]);
    }
  }

  // ---------------------------------------------------------------- dropping the proxy

  /** A bound on the listener's own steps left once stop is raised. */
  function StepsLeft(l: Listener): nat {
    match l.pc
    case Testing => 2 + |l.workers|
    case Sweeping(index) => 6 + 2 * |l.workers| + (if index <= |l.workers| then |l.workers| - index else 0)
    case Accepting => 5 + |l.workers|
    case Checking => 4 + |l.workers|
    case Raising => 6 + |l.workers|
    case Spawning => 5 + |l.workers|
    case Joining => 1 + |l.workers|
    case Ended => 0
  }

  function RunFrom(l: Listener, events: seq<Event>): Listener
    decreases |events|
  {
    if events == [] then l else RunFrom(Next(l, events[0]), events[1..])
  }

  /** The listener's steps that get somewhere: not those spent waiting. */
  function Moves(l: Listener, events: seq<Event>): nat
    decreases |events|
  {
    if events == [] then 0
    else (if events[0].ListenerStep? && Next(l, events[0]) != l then 1 else 0) + Moves(Next(l, events[0]), events[1..])
  }

  /** Where accept may still be waited in. */
  predicate MayAccept(l: Listener) { l.pc.Sweeping? || l.pc.Accepting? }

  /** Stopped, and with a connection to take if accept is still to come. */
  predicate Woken(l: Listener) { l.stop && (MayAccept(l) ==> l.waiting > 0) }

  /** A wake that arrives after the flag is up does its work at once, wherever the listener is. */
  lemma WakeWakes(l: Listener)
    requires l.stop
    ensures Woken(Next(l, Wake(true)))
    ensures Woken(Next(l, Wake(false))) <==> Woken(l)
  {
  }

  lemma StepComesCloser(l: Listener, e: Event)
    requires l.stop
    ensures Next(l, e).stop && (Woken(l) ==> Woken(Next(l, e)))
    ensures StepsLeft(Next(l, e)) <= StepsLeft(l)
    ensures e.ListenerStep? && Next(l, e) != l ==> StepsLeft(Next(l, e)) < StepsLeft(l)
  {
  }

  /** The listener can wait for a worker that still runs, or in accept with nothing to take; nothing else stops it. */
  lemma ListenerWaitsIff(l: Listener, failed: bool)
    ensures ListenerNext(l, failed) == l <==>
              || l.pc.Ended?
              || (l.pc.Joining? && l.workers != [] && l.workers[0] !in l.finished)
              || (l.pc.Accepting? && l.waiting == 0 && !failed)
  {
    if l.pc.Joining? && l.workers != [] && l.workers[0] in l.finished {
      assert |ListenerNext(l, failed).workers| < |l.workers|;
    }
    if l.pc.Sweeping? && l.pc.index < |l.workers| && l.workers[l.pc.index] in l.finished {
      assert |ListenerNext(l, failed).workers| < |l.workers|;
    }
  }

  /** After stop, in any run, at most StepsLeft of the listener's own steps get anywhere, from every control point. */
  lemma {:induction false} StopBoundsTheListener(l: Listener, events: seq<Event>)
    requires l.stop
    ensures var end := RunFrom(l, events);
            && Moves(l, events) + StepsLeft(end) <= StepsLeft(l)
            && (Woken(l) ==> Woken(end))
    decreases |events|
  {
    if events != [] {
      hide ListenerNext, StepsLeft, Woken;
      StepComesCloser(l, events[0]);
      StopBoundsTheListener(Next(l, events[0]), events[1..]);
    }
  }

  /** Once stopped and woken, the only thing the listener can still wait for is a worker that still runs. */
  lemma StoppedListenerEnds(l: Listener, events: seq<Event>, failed: bool)
    requires Woken(l)
    ensures var end := RunFrom(l, events);
            && Moves(l, events) + StepsLeft(end) <= StepsLeft(l)
            && (ListenerNext(end, failed) == end ==>
                  end.pc.Ended? || (end.pc.Joining? && end.workers != [] && end.workers[0] !in end.finished))
  {
    StopBoundsTheListener(l, events);
    ListenerWaitsIff(RunFrom(l, events), failed);
  }

  /** Nothing arrives and no accept fails. */
  predicate Quiet(events: seq<Event>) {
    forall e :: e in events ==> e != Connect && e != Wake(true) && e != ListenerStep(true)
  }

  /**
   Why drop needs its wake: a stopped listener that is not woken when the wake fails stays before or in accept for as
   long as nothing arrives, so drop's join waits with it.
   */
  lemma {:induction false} UnwokenListenerStays(l: Listener, events: seq<Event>)
    requires l.stop && !Woken(l) && Quiet(events)
    ensures var end := RunFrom(l, events); MayAccept(end) && end.waiting == 0 && !end.pc.Ended?
    decreases |events|
  {
    if events != [] {
      assert events[0] in events;
      assert forall e :: e in events[1..] ==> e in events;
      UnwokenListenerStays(Next(l, events[0]), events[1..]);
    }
  }

  /**
   What the ignored result of the wake decides. If nothing else arrives, a listener stopped and then offered a wake
   can get past accept in some run iff the wake arrived, a connection was already waiting, or accept was behind it.
   */
  lemma WakeDecides(l: Listener, arrives: bool)
    requires l.stop
    ensures var woken := Next(l, Wake(arrives));
            (exists events :: Quiet(events) && !MayAccept(RunFrom(woken, events)))
            <==> arrives || l.waiting > 0 || !MayAccept(l)
  {
    var woken := Next(l, Wake(arrives));
    if Woken(woken) {
      var steps := PastAccept(woken);
    } else {
      forall events | Quiet(events) ensures MayAccept(RunFrom(woken, events)) {
        UnwokenListenerStays(woken, events);
      }
    }
  }

  /** A woken listener gets past accept by its own steps alone. */
  lemma {:induction false} PastAccept(l: Listener) returns (events: seq<Event>)
    requires Woken(l)
    ensures Quiet(events) && !MayAccept(RunFrom(l, events))
    decreases StepsLeft(l)
  {
    if !MayAccept(l) {
      events := [];
    } else {
      var step := ListenerStep(false);
      ListenerWaitsIff(l, false);
      StepComesCloser(l, step);
      var rest := PastAccept(Next(l, step));
      events := [step] + rest;
      assert events[1..] == rest;
    }
  }
}
