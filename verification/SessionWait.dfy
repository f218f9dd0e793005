/**
 `session wait` and the sleeping it does (crates/multiplex-cli/src/local.rs). Times are nanoseconds on a clock that
 never goes back; other processes may change the session, and a signal may cancel the command, at any moment.
 */
module SessionWait {
  import opened Wrappers
  import opened SessionDomain
  import opened WaitCondition

  const MILLISECOND: nat := 1_000_000
  const POLL_INTERVAL: nat := 50 * MILLISECOND
  const CANCELLATION_SLICE: nat := 10 * MILLISECOND
  const DURATION_MAX: nat := 0x1_0000_0000_0000_0000 * 1_000_000_000 - 1

  datatype View = View(lifecycle: Lifecycle, activity: ActivityState, revision: u64)

  /** What one load of the session store shows. */
  datatype Observation = LoadFailed | Missing | Seen(view: View)

  datatype Outcome =
    | Matched(view: View)
    | TimedOut(revision: Option<u64>)
    | WaitCancelled
    | Unavailable
    | StoreError
    | InvalidTimeout

  predicate Matches(condition: Condition, view: View) {
    match condition
    case OfLifecycle(lifecycle) => view.lifecycle == lifecycle
    case OfActivity(activity) => view.activity == activity
  }

  /** The clock, the cancellation flag and the store as one command meets them. */
  class Environment {
    var time: nat
    var cancelled: bool
    ghost var loads: seq<Observation>
    ghost var loadedAt: seq<nat>
    ghost var asked: seq<nat>   // the lengths of the thread sleeps asked for
    ghost var sleptBy: seq<nat> // how many of them had been asked for at each load
    ghost var clear: set<nat>   // after how many of them the flag was looked at and found down

    ghost predicate Valid()
      reads this
    {
      time <= DURATION_MAX && |loads| == |loadedAt| == |sleptBy|
    }

    /** Time passes; a cancellation may arrive. */
    method Pass()
      requires Valid()
      modifies this`time, this`cancelled
      ensures Valid() && time >= old(time) && (old(cancelled) ==> cancelled)
    {
      var later: nat := *;
      if time <= later <= DURATION_MAX { time := later; }
      var signal: bool := *;
      cancelled := cancelled || signal;
    }

    method Now() returns (now: nat)
      requires Valid()
      modifies this`time, this`cancelled
      ensures Valid() && now == time >= old(time) && (old(cancelled) ==> cancelled)
    {
      Pass();
      now := time;
    }

    method IsCancelled() returns (answer: bool)
      requires Valid()
      modifies this`time, this`cancelled, this`clear
      ensures Valid() && time >= old(time) && (old(cancelled) ==> cancelled) && answer == cancelled
      ensures clear == old(clear) + if answer then {} else {|asked|}
    {
      Pass();
      answer := cancelled;
      if !answer { clear := clear + {|asked|}; }
    }

    method Load() returns (o: Observation)
      requires Valid()
      modifies this`time, this`cancelled, this`loads, this`loadedAt, this`sleptBy
      ensures Valid() && time >= old(time) && (old(cancelled) ==> cancelled)
      ensures loads == old(loads) + [o] && loadedAt == old(loadedAt) + [old(time)]
      ensures sleptBy == old(sleptBy) + [|asked|]
    {
      o := *;
      loads, loadedAt, sleptBy := loads + [o], loadedAt + [time], sleptBy + [|asked|];
      Pass();
    }

    /** std::thread::sleep: at least as long as asked. */
    method ThreadSleep(duration: nat)
      requires Valid() && time + duration <= DURATION_MAX
      modifies this`time, this`cancelled, this`asked
      ensures Valid() && time >= old(time) + duration && (old(cancelled) ==> cancelled)
      ensures asked == old(asked) + [duration]
    {
      asked := asked + [duration];
      time := time + duration;
      Pass();
    }

    /**
     True means the whole duration has passed, false that the flag is up; either way no single sleep was longer than
     ten milliseconds, each was begun only after a look at the flag, and together they were asked for no more than the
     duration: a cancellation is never waited out for longer than a slice, and the sleep does not run over.
     */
    method SleepInterruptibly(duration: nat) returns (slept: bool)
      requires Valid() && time + duration <= DURATION_MAX
      modifies this`time, this`cancelled, this`asked, this`clear
      ensures Valid() && time >= old(time) && (old(cancelled) ==> cancelled)
      ensures slept ==> time >= old(time) + duration
      ensures !slept ==> cancelled
      ensures old(asked) <= asked && old(clear) <= clear
      ensures forall i :: |old(asked)| <= i < |asked| ==> 0 < asked[i] <= 10_000_000 && i in clear
      ensures Total(asked[|old(asked)|..]) <= duration
    {
      var start := Now();
      var deadline := Min(start + duration, DURATION_MAX);
      ghost var before := asked;
      while true
        invariant Valid() && time >= start && (old(cancelled) ==> cancelled)
        invariant before <= asked && old(clear) <= clear
        invariant forall i :: |before| <= i < |asked| ==> 0 < asked[i] <= 10_000_000 && i in clear
        invariant time >= start + Total(asked[|before|..]) && Total(asked[|before|..]) <= duration
        decreases if time < deadline then deadline - time else 0
      {
        var stop := IsCancelled();
        if stop { return false; }
        var now := Now();
        if now >= deadline { return true; }
        TotalAdds(asked[|before|..], Min(CANCELLATION_SLICE, deadline - now));
        ghost var earlier := asked;
        ThreadSleep(Min(CANCELLATION_SLICE, deadline - now));
        assert asked[|before|..] == earlier[|before|..] + [asked[|earlier|]];
      }
    }
  }

  function Total(sleeps: seq<nat>): nat
    decreases |sleeps|
  {
    if sleeps == [] then 0 else Total(sleeps[..|sleeps| - 1]) + sleeps[|sleeps| - 1]
  }

  lemma TotalAdds(sleeps: seq<nat>, last: nat)
    ensures Total(sleeps + [last]) == Total(sleeps) + last
  {
    assert (sleeps + [last])[..|sleeps|] == sleeps;
  }

  /** The loads of a wait that has not found its state: all saw the session, none in the state asked for. */
  ghost predicate AllMissed(condition: Condition, loads: seq<Observation>) {
    forall i :: 0 <= i < |loads| ==> Missed(condition, loads[i])
  }

  /** The session was there, its lifecycle or its activity another one than asked for. */
  predicate Missed(condition: Condition, o: Observation) {
    && o.Seen?
    && (condition.OfLifecycle? ==> o.view.lifecycle != condition.lifecycle)
    && (condition.OfActivity? ==> o.view.activity != condition.activity)
  }

  predicate Found(condition: Condition, o: Observation) { o.Seen? && !Missed(condition, o) }

  /**
   The wait looks again in time: before each load but the first, and after the last one, the sleeps asked for since
   the load before come to at most fifty milliseconds; and each load follows a look at the flag after the last sleep.
   */
  ghost predicate Prompt(sleptBy: seq<nat>, asked: seq<nat>, clear: set<nat>) {
    && (forall i :: 0 <= i < |sleptBy| ==> sleptBy[i] <= |asked| && sleptBy[i] in clear)
    && (forall i :: 0 < i < |sleptBy| ==>
          sleptBy[i - 1] <= sleptBy[i] && Total(asked[sleptBy[i - 1]..sleptBy[i]]) <= 50_000_000)
    && (sleptBy != [] ==> Total(asked[sleptBy[|sleptBy| - 1]..]) <= 50_000_000)
  }

  lemma PromptLoads(sleptBy: seq<nat>, asked: seq<nat>, clear: set<nat>)
    requires Prompt(sleptBy, asked, clear) && |asked| in clear
    ensures Prompt(sleptBy + [|asked|], asked, clear)
  {
    assert asked[|asked|..] == [];
    if sleptBy != [] { assert asked[sleptBy[|sleptBy| - 1]..|asked|] == asked[sleptBy[|sleptBy| - 1]..]; }
  }

  /** Further looks at the flag do not matter. */
  lemma PromptLooks(sleptBy: seq<nat>, asked: seq<nat>, clear: set<nat>, clearAfter: set<nat>)
    requires Prompt(sleptBy, asked, clear) && clear <= clearAfter
    ensures Prompt(sleptBy, asked, clearAfter)
  {
  }

  lemma PromptSleeps(sleptBy: seq<nat>, asked: seq<nat>, clear: set<nat>, after: seq<nat>, clearAfter: set<nat>)
    requires Prompt(sleptBy, asked, clear) && asked <= after && clear <= clearAfter
    requires sleptBy != [] ==> sleptBy[|sleptBy| - 1] == |asked| && Total(after[|asked|..]) <= 50_000_000
    ensures Prompt(sleptBy, after, clearAfter)
  {
    forall i | 0 < i < |sleptBy| ensures after[sleptBy[i - 1]..sleptBy[i]] == asked[sleptBy[i - 1]..sleptBy[i]] {}
  }

  /** Loads are at least a poll interval apart, and all but the first start before the deadline. */
  ghost predicate Paced(loadedAt: seq<nat>, start: nat, deadline: nat) {
    && (forall i :: 0 <= i < |loadedAt| ==> loadedAt[i] >= start + i * POLL_INTERVAL)
    && (forall i :: 0 < i < |loadedAt| ==> loadedAt[i - 1] + POLL_INTERVAL <= loadedAt[i] < deadline)
  }

  /** The revision a timeout reports. */
  function LastRevision(loads: seq<Observation>): Option<u64> {
    if loads != [] && loads[|loads| - 1].Seen? then Some(loads[|loads| - 1].view.revision) else None
  }

  /** At most one load for every started poll interval of the timeout. */
  lemma PacedIsBounded(loadedAt: seq<nat>, start: nat, deadline: nat, timeoutMs: nat)
    requires Paced(loadedAt, start, deadline) && deadline <= start + timeoutMs * MILLISECOND && timeoutMs > 0
    ensures |loadedAt| <= (timeoutMs + 49) / 50
  {
    if |loadedAt| > 1 {
      var last := |loadedAt| - 1;
      assert start + last * POLL_INTERVAL <= loadedAt[last] < deadline;
    }
  }

  lemma NothingLoaded(condition: Condition, start: nat, deadline: nat)
    ensures Paced([], start, deadline) && AllMissed(condition, [])
    ensures forall asked, clear :: Prompt([], asked, clear)
  {
  }

  lemma PacedExtends(loadedAt: seq<nat>, start: nat, deadline: nat, at: nat)
    requires Paced(loadedAt, start, deadline) && at >= start
    requires loadedAt != [] ==> loadedAt[|loadedAt| - 1] + POLL_INTERVAL <= at < deadline
    ensures Paced(loadedAt + [at], start, deadline)
  {
  }

  lemma MissedExtends(condition: Condition, loads: seq<Observation>, o: Observation)
    requires AllMissed(condition, loads)
    ensures (loads + [o])[..|loads|] == loads
    ensures AllMissed(condition, loads + [o]) <==> Missed(condition, o)
    ensures Found(condition, o) <==> o.Seen? && !Missed(condition, o)
    ensures o.Seen? ==> (Missed(condition, o) <==> !Matches(condition, o.view))
  {
    assert (loads + [o])[|loads|] == o;
  }

  /** The end of a round: a sleep of one poll interval, or to the deadline if that is nearer, unless it has passed. */
  method RestBeforeNextLoad(env: Environment, deadline: nat) returns (stop: bool)
    requires env.Valid() && deadline <= DURATION_MAX
    modifies env`time, env`cancelled, env`asked, env`clear
    ensures env.Valid() && env.time >= old(env.time) && (old(env.cancelled) ==> env.cancelled)
    ensures stop ==> env.cancelled
    ensures old(env.asked) <= env.asked && old(env.clear) <= env.clear
    ensures Total(env.asked[|old(env.asked)|..]) <= 50_000_000
    ensures !stop ==> env.time >= deadline || env.time >= old(env.time) + POLL_INTERVAL
  {
    var now := env.Now();
    if now >= deadline { return false; }
    var slept := env.SleepInterruptibly(Min(POLL_INTERVAL, deadline - now));
    if !slept { return true; }
    stop := env.IsCancelled();
  }

  /**
   The wait ends, reports a match only for the state it has just loaded, times out only at or after the deadline,
   and makes at most one load for every started poll interval of the timeout.
   */
  method Wait(env: Environment, condition: Condition, timeoutMs: nat) returns (r: Outcome, ghost start: nat)
    requires env.Valid() && env.loads == []
    modifies env
    ensures env.Valid()
    ensures r.InvalidTimeout? <==> !(1 <= timeoutMs <= MAX_TIMEOUT_MS)
    ensures r.InvalidTimeout? ==> env.loads == []
    ensures old(env.cancelled) && !r.InvalidTimeout? ==> r.WaitCancelled? && env.loads == []
    ensures r.WaitCancelled? ==> env.cancelled && AllMissed(condition, env.loads)
    ensures r.Matched? <==> env.loads != [] && Found(condition, env.loads[|env.loads| - 1])
    ensures Prompt(env.sleptBy, env.asked, env.clear)
    ensures r.Matched? || r.Unavailable? || r.StoreError? ==>
              && env.loads != [] && AllMissed(condition, env.loads[..|env.loads| - 1])
              && env.loads[|env.loads| - 1]
                == (match r case Matched(view) => Seen(view) case Unavailable => Missing case _ => LoadFailed)
    ensures r.TimedOut? ==>
              && env.loads != [] && AllMissed(condition, env.loads)
              && r.revision == LastRevision(env.loads)
              && env.time >= Min(start + timeoutMs * MILLISECOND, DURATION_MAX)
    ensures !r.InvalidTimeout? ==> start >= old(env.time) && |env.loads| <= (timeoutMs + 49) / 50
  {
    hide Paced, AllMissed, Matches, Missed, Found, Prompt, Total;
    start := env.time;
    NothingLoaded(condition, start, start);
    if !(1 <= timeoutMs <= MAX_TIMEOUT_MS) { return InvalidTimeout, start; }
    var now := env.Now();
    start := now;
    var deadline := Min(now + timeoutMs * MILLISECOND, DURATION_MAX);
    assert Paced([], start, deadline) && AllMissed(condition, []) by { NothingLoaded(condition, start, deadline); }
    var first := true;
    var lastRevision: Option<u64> := None;
    while true
      invariant env.Valid() && env.time >= start && (old(env.cancelled) ==> env.cancelled && env.loads == [])
      invariant first <==> env.loads == []
      invariant AllMissed(condition, env.loads) && lastRevision == LastRevision(env.loads)
      invariant Paced(env.loadedAt, start, deadline)
      invariant env.loads != [] ==>
        env.time >= deadline || env.time >= env.loadedAt[|env.loads| - 1] + POLL_INTERVAL
      invariant |env.loads| <= (timeoutMs + 49) / 50
      invariant Prompt(env.sleptBy, env.asked, env.clear)
      invariant env.loads != [] ==> !Found(condition, env.loads[|env.loads| - 1])
      decreases first, if env.time < deadline then deadline - env.time else 0
    {
      ghost var clear := env.clear;
      var stop := env.IsCancelled();
      PromptLooks(env.sleptBy, env.asked, clear, env.clear);
      if stop { return WaitCancelled, start; }
      now := env.Now();
      if !first && now >= deadline { return TimedOut(lastRevision), start; }
      ghost var loads, loadedAt, at := env.loads, env.loadedAt, env.time;
      PromptLoads(env.sleptBy, env.asked, env.clear);
      var o := env.Load();
      PacedExtends(loadedAt, start, deadline, at);
      MissedExtends(condition, loads, o);
      PacedIsBounded(env.loadedAt, start, deadline, timeoutMs);
      match o
      case LoadFailed => return StoreError, start;
      case Missing => return Unavailable, start;
      case Seen(view) =>
        lastRevision := Some(view.revision);
        if Matches(condition, view) { return Matched(view), start; }
        first := false;
        ghost var asked := env.asked;
        clear := env.clear;
        stop := RestBeforeNextLoad(env, deadline);
        PromptSleeps(env.sleptBy, asked, clear, env.asked, env.clear);
        if stop { return WaitCancelled, start; }
    }
  }
}
