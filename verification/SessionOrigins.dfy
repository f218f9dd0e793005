/**
 Runs looked at from their end: which earlier step of a command its present control point, or its answer, comes from.
 */
module SessionOrigins {
  import opened Wrappers
  import opened SessionDomain
  import opened SessionStore
  import opened Continuity
  import opened Orchestration
  import opened OrchestrationInvariant

  /** The world before the k-th event of a run. */
  function Before(w: World, events: seq<Event>, k: nat): World
    requires w.versions != [] && k <= |events|
  {
    Run(w, events[..k])
  }

  /** The k-th event is a step of this command. */
  predicate StepAt(w: World, events: seq<Event>, pid: nat, k: nat)
    requires w.versions != []
  {
    k < |events| && events[k].Act? && events[k].pid == pid && pid in Before(w, events, k).procs
  }

  /** The stop call that set the session Stopping, or found it so. */
  predicate StoppingCall(w: World, events: seq<Event>, pid: nat, k: nat)
    requires w.versions != []
  {
    && StepAt(w, events, pid, k)
    && Before(w, events, k).procs[pid].pc.StopCommit?
    && pid in Before(w, events, k + 1).procs && Before(w, events, k + 1).procs[pid].pc.StopSend?
  }

  /** The create call of a resume that was answered with a record. */
  predicate CreateCall(w: World, events: seq<Event>, pid: nat, k: nat)
    requires w.versions != []
  {
    && StepAt(w, events, pid, k)
    && Before(w, events, k).procs[pid].pc.ResumeCreate?
    && pid in Before(w, events, k + 1).procs && Before(w, events, k + 1).procs[pid].pc.ResumeHost?
  }

  lemma BeforeExtends(w: World, events: seq<Event>, e: Event, k: nat)
    requires w.versions != [] && k <= |events|
    ensures Before(w, events + [e], k) == Before(w, events, k)
  {
    assert (events + [e])[..k] == events[..k];
  }

  lemma BeforeLast(w: World, events: seq<Event>)
    requires w.versions != [] && events != []
    ensures Run(w, events) == Next(Before(w, events, |events| - 1), events[|events| - 1])
    ensures Before(w, events, |events|) == Run(w, events)
  {
    hide Next;
    assert events[..|events|] == events;
  }

  /** A command keeps what it is; only its own steps move it, each from where it stood. */
  lemma ProcMoves(x: World, e: Event, pid: nat)
    requires x.versions != [] && pid in Next(x, e).procs
    ensures pid in x.procs ==> Next(x, e).procs[pid].command == x.procs[pid].command
    ensures pid !in x.procs ==> Next(x, e).procs[pid].pc.Begin?
    ensures pid in x.procs && !(e.Act? && e.pid == pid) ==> Next(x, e).procs[pid] == x.procs[pid]
    ensures pid in x.procs && e.Act? && e.pid == pid ==>
              Next(x, e).procs[pid].pc == ProcStep(x.procs[pid], pid, x.Doc(), x.store, e.env).pc
  {
    hide ProcStep, Mutate, Create, Remove, Record;
  }

  /** The last event of a run, as seen by a command that has begun. */
  lemma LastMove(w: World, events: seq<Event>, pid: nat) returns (front: seq<Event>, e: Event)
    requires Initial(w) && pid in Run(w, events).procs && !Run(w, events).procs[pid].pc.Begin?
    ensures events == front + [e] && |front| + 1 == |events|
    ensures Inv(Run(w, front)) && Run(w, events) == Next(Run(w, front), e)
    ensures Moved(Run(w, front), e, Run(w, events), pid)
  {
    NothingRunsYet(w, events, pid);
    hide Run, Next, Inv, ProcStep, Initial, Moved;
    var n := |events| - 1;
    front, e := events[..n], events[n];
    BeforeLast(w, events);
    RunKeepsInv(w, front);
    HasMoved(Run(w, front), e, pid);
  }

  /** A command that has begun was there before the event, and moved, if at all, by a step of its own. */
  predicate Moved(x: World, e: Event, x': World, pid: nat)
    requires x.versions != []
  {
    && pid in x.procs && pid in x'.procs && x'.procs[pid].command == x.procs[pid].command
    && (if e.Act? && e.pid == pid then
          x'.procs[pid].pc == ProcStep(x.procs[pid], pid, x.Doc(), x.store, e.env).pc
        else x'.procs[pid] == x.procs[pid])
  }

  lemma HasMoved(x: World, e: Event, pid: nat)
    requires x.versions != [] && pid in Next(x, e).procs && !Next(x, e).procs[pid].pc.Begin?
    ensures Moved(x, e, Next(x, e), pid)
  {
    hide Next, ProcStep;
    ProcMoves(x, e, pid);
  }

  lemma NothingRunsYet(w: World, events: seq<Event>, pid: nat)
    requires Initial(w) && pid in Run(w, events).procs
    ensures w.versions != [] && events != []
  {
  }

  lemma BaseHolds(x: World)
    requires Inv(x)
    ensures x.versions != [] && |x.authors| == |x.versions| && History(x.versions) && ValidDocument(x.Doc())
  {
    hide ValidDocument, History, ProcInv, LaunchesInv, ValidContinuity;
  }

  // ---- stop ----

  /** That call, and what it found: `changed` says the session was not yet Stopping. */
  predicate StopOrigin(w: World, events: seq<Event>, pid: nat, k: nat, id: nat, changed: bool)
    requires w.versions != []
  {
    && StoppingCall(w, events, pid, k)
    && id in Before(w, events, k).Doc().sessions
    && (changed <==> !Before(w, events, k).Doc().sessions[id].lifecycle.Stopping?)
  }

  lemma StopOriginStays(w: World, events: seq<Event>, e: Event, pid: nat, k: nat, id: nat, changed: bool)
    requires w.versions != [] && StopOrigin(w, events, pid, k, id, changed)
    ensures StopOrigin(w, events + [e], pid, k, id, changed)
  {
    hide Run;
    BeforeExtends(w, events, e, k);
    BeforeExtends(w, events, e, k + 1);
  }

  lemma StopOriginNow(w: World, events: seq<Event>, e: Event, pid: nat)
    requires w.versions != [] && e.Act? && e.pid == pid && pid in Run(w, events).procs && Inv(Run(w, events))
    requires Run(w, events).procs[pid].command.StopCommand? && Run(w, events).procs[pid].pc.StopCommit?
    requires pid in Next(Run(w, events), e).procs && Next(Run(w, events), e).procs[pid].pc.StopSend?
    ensures StopOrigin(w, events + [e], pid, |events|, Run(w, events).procs[pid].command.id,
                       Next(Run(w, events), e).procs[pid].pc.changed)
  {
    var x := Run(w, events);
    BeforeExtends(w, events, e, |events|);
    BeforeLast(w, events + [e]);
    assert (events + [e])[..|events|] == events;
    ProcMoves(x, e, pid);
    hide Run, Next, Inv;
    StopFlag(x, pid, x.procs[pid], e);
  }

  predicate StopUnderWay(p: Proc) { p.command.StopCommand? && (p.pc.StopSend? || p.pc.StopClose?) }

  /** A stop past its first call can be traced to it, and its flag says what that call found. */
  lemma {:induction false} StopComesFrom(w: World, events: seq<Event>, pid: nat) returns (k: nat)
    requires Initial(w) && pid in Run(w, events).procs && StopUnderWay(Run(w, events).procs[pid])
    ensures var p := Run(w, events).procs[pid]; StopOrigin(w, events, pid, k, p.command.id, p.pc.changed)
    decreases |events|
  {
    assert w.versions != [];
    hide Run, Next, Inv, Initial, StopOrigin, ProcStep;
    var front, e := LastMove(w, events, pid);
    var p := Run(w, front).procs[pid];
    if e.Act? && e.pid == pid && p.pc.StopCommit? {
      StopFlag(Run(w, front), pid, p, e);
      StopOriginNow(w, front, e, pid);
      k := |front|;
    } else {
      if e.Act? && e.pid == pid { StopStays(Run(w, front), pid, p, e); }
      k := StopComesFrom(w, front, pid);
      StopOriginStays(w, front, e, pid, k, p.command.id, p.pc.changed);
    }
  }

  lemma StopFlag(x: World, pid: nat, p: Proc, e: Event)
    requires Inv(x) && pid in x.procs && x.procs[pid] == p && p.command.StopCommand? && p.pc.StopCommit? && e.Act?
    ensures var next := ProcStep(p, pid, x.Doc(), x.store, e.env).pc;
            && !next.StopClose?
            && (next.StopSend? ==>
                  && p.command.id in x.Doc().sessions
                  && (next.changed <==> !x.Doc().sessions[p.command.id].lifecycle.Stopping?))
  {
    BaseHolds(x);
    hide Inv, ValidDocument, CommitStep, Mutate;
    MutateContract(x.Doc(), p.command.id, p.pc.revision, SetLifecycle(Stopping), e.env.now);
  }

  lemma StopStays(x: World, pid: nat, p: Proc, e: Event)
    requires x.versions != [] && p.command.StopCommand? && !p.pc.StopCommit? && e.Act?
    ensures var next := ProcStep(p, pid, x.Doc(), x.store, e.env).pc;
            (next.StopSend? || next.StopClose?) ==> (p.pc.StopSend? || p.pc.StopClose?) && next.changed == p.pc.changed
  {
    hide Mutate;
  }

  // ---- resume ----

  /** What a resume past its create call holds of the record it was answered with. */
  function Holding(pc: Pc): Option<(Session, bool)> {
    match pc
    case ResumeHost(created, isNew, _, _) => Some((created, isNew))
    case ResumeRecord(created, isNew, _, _) => Some((created, isNew))
    case ResumeAttaching(created, isNew) => Some((created, isNew))
    case ResumeLive(created, isNew, _) => Some((created, isNew))
    case Done(result) =>
      if result.Success? && result.value.Resumed? then Some((result.value.created, result.value.isNew)) else None
    case _ => None
  }

  predicate Early(pc: Pc) { Holding(pc).None? && !pc.ResumeCreate? && !pc.Done? && !pc.AbortStop? && !pc.Close? }

  lemma EarlyStepWrites(x: World, pid: nat, p: Proc, env: Env)
    requires x.versions != [] && p.command.ResumeCommand? && Early(p.pc)
    ensures var eff := ProcStep(p, pid, x.Doc(), x.store, env);
            eff.doc == x.Doc() && Holding(eff.pc).None?
  {
    hide Create, SetTo, Record;
  }

  lemma LateStepWrites(x: World, pid: nat, p: Proc, env: Env)
    requires x.versions != [] && p.command.ResumeCommand? && (p.pc.Done? || p.pc.AbortStop? || p.pc.Close?)
    ensures var eff := ProcStep(p, pid, x.Doc(), x.store, env);
            Holding(eff.pc) == Holding(p.pc) && (Holding(p.pc).Some? ==> eff.doc == x.Doc())
            && (Holding(p.pc).None? ==> eff.pc.Done? || eff.pc.AbortStop? || eff.pc.Close?)
  {
    hide Create, SetTo, Record;
  }

  lemma HeldStepWrites(x: World, pid: nat, p: Proc, env: Env)
    requires x.versions != [] && ValidDocument(x.Doc())
    requires p.command.ResumeCommand? && Holding(p.pc).Some? && !p.pc.Done?
    ensures var eff := ProcStep(p, pid, x.Doc(), x.store, env);
            && eff.doc.sessions.Keys == x.Doc().sessions.Keys
            && (if Holding(eff.pc).Some? then Holding(eff.pc) == Holding(p.pc)
                else eff.pc.Done? || eff.pc.AbortStop? || eff.pc.Close?)
  {
    hide ValidDocument, CommitStep, Create, SetTo, Record;
    match p.pc
    case ResumeAttaching(created, _) => SetToLegal(env, x.Doc(), created.id, created.revision, Attaching);
    case ResumeLive(_, _, attaching) => SetToLegal(env, x.Doc(), attaching.id, attaching.revision, Live);
    case _ =>
  }

  lemma CreateStepWrites(x: World, pid: nat, p: Proc, env: Env)
    requires x.versions != [] && ValidDocument(x.Doc()) && p.command.ResumeCommand? && p.pc.ResumeCreate?
    ensures var eff := ProcStep(p, pid, x.Doc(), x.store, env);
            if Holding(eff.pc).None? then eff.pc.Done?
            else
              var created, isNew := Holding(eff.pc).value.0, Holding(eff.pc).value.1;
              && created.id == p.command.replacement && eff.pc.ResumeHost?
              && (isNew <==> p.command.replacement !in x.Doc().sessions)
              && (!isNew ==> eff.doc == x.Doc() && created == x.Doc().sessions[p.command.replacement])
              && (isNew ==> eff.doc != x.Doc() && created.id in eff.doc.sessions
                            && eff.doc.sessions[created.id] == created && created.lifecycle.Provisioning?)
  {
    hide ValidDocument, CommitStep, Create;
    CreateContract(x.Doc(), Successor(p.pc.prepared.source, p.command.replacement, env.now),
      p.pc.prepared.snapshot.revision);
  }

  lemma CreateFlag(x: World, pid: nat, p: Proc, env: Env)
    requires x.versions != [] && ValidDocument(x.Doc()) && p.command.ResumeCommand? && p.pc.ResumeCreate?
    ensures var next := ProcStep(p, pid, x.Doc(), x.store, env).pc;
            next.ResumeHost? ==>
              && Holding(next) == Some((next.created, next.isNew))
              && (next.isNew <==> p.command.replacement !in x.Doc().sessions)
              && (!next.isNew ==> next.created == x.Doc().sessions[p.command.replacement])
  {
    hide ValidDocument, ProcStep;
    CreateStepWrites(x, pid, p, env);
  }

  /** The create call, whether the replacement was absent when it was made, and the record that answered it. */
  predicate ResumeOrigin(w: World, events: seq<Event>, pid: nat, k: nat, id: nat, created: Session, isNew: bool)
    requires w.versions != []
  {
    && CreateCall(w, events, pid, k)
    && Holding(Before(w, events, k + 1).procs[pid].pc) == Some((created, isNew))
    && (isNew <==> id !in Before(w, events, k).Doc().sessions)
    && (!isNew ==> created == Before(w, events, k).Doc().sessions[id])
  }

  lemma ResumeOriginStays(w: World, events: seq<Event>, e: Event, pid: nat, k: nat, id: nat, created: Session,
      isNew: bool)
    requires w.versions != [] && ResumeOrigin(w, events, pid, k, id, created, isNew)
    ensures ResumeOrigin(w, events + [e], pid, k, id, created, isNew)
  {
    hide Run;
    BeforeExtends(w, events, e, k);
    BeforeExtends(w, events, e, k + 1);
  }

  lemma ResumeOriginNow(w: World, events: seq<Event>, e: Event, pid: nat)
    requires w.versions != [] && e.Act? && e.pid == pid && pid in Run(w, events).procs && Inv(Run(w, events))
    requires Run(w, events).procs[pid].command.ResumeCommand? && Run(w, events).procs[pid].pc.ResumeCreate?
    requires pid in Next(Run(w, events), e).procs && Next(Run(w, events), e).procs[pid].pc.ResumeHost?
    ensures var pc := Next(Run(w, events), e).procs[pid].pc;
            ResumeOrigin(w, events + [e], pid, |events|, Run(w, events).procs[pid].command.replacement, pc.created,
              pc.isNew)
  {
    var x := Run(w, events);
    BeforeExtends(w, events, e, |events|);
    BeforeLast(w, events + [e]);
    assert (events + [e])[..|events|] == events;
    ProcMoves(x, e, pid);
    BaseHolds(x);
    hide Run, Next, Inv, ProcStep, ValidDocument, Holding;
    CreateFlag(x, pid, x.procs[pid], e.env);
  }

  lemma ResumeStays(x: World, pid: nat, p: Proc, e: Event)
    requires x.versions != [] && p.command.ResumeCommand? && !p.pc.ResumeCreate? && e.Act?
    ensures var next := ProcStep(p, pid, x.Doc(), x.store, e.env).pc;
            Holding(next).Some? ==> Holding(p.pc) == Holding(next)
  {
    hide Mutate, Create, Record;
  }

  /** A resume past its create call can be traced to it. */
  lemma {:induction false} ResumeComesFrom(w: World, events: seq<Event>, pid: nat) returns (k: nat)
    requires Initial(w) && pid in Run(w, events).procs
    requires Run(w, events).procs[pid].command.ResumeCommand? && Holding(Run(w, events).procs[pid].pc).Some?
    ensures var p := Run(w, events).procs[pid];
            var held := Holding(p.pc).value;
            ResumeOrigin(w, events, pid, k, p.command.replacement, held.0, held.1)
    decreases |events|
  {
    assert w.versions != [];
    var held := Holding(Run(w, events).procs[pid].pc).value;
    hide Run, Next, Inv, Initial, ResumeOrigin, ProcStep;
    var front, e := LastMove(w, events, pid);
    var p := Run(w, front).procs[pid];
    if e.Act? && e.pid == pid && p.pc.ResumeCreate? {
      BaseHolds(Run(w, front));
      CreateStepWrites(Run(w, front), pid, p, e.env);
      ResumeOriginNow(w, front, e, pid);
      k := |front|;
    } else {
      if e.Act? && e.pid == pid { ResumeStays(Run(w, front), pid, p, e); }
      k := ResumeComesFrom(w, front, pid);
      ResumeOriginStays(w, front, e, pid, k, p.command.replacement, held.0, held.1);
    }
  }

  /** The i-th version is a commit of this command that brings a session in. */
  predicate Creates(x: World, pid: nat, i: int, id: nat)
    requires |x.authors| == |x.versions|
  {
    && 0 < i < |x.versions| && x.authors[i] == Process(pid)
    && id !in x.versions[i - 1].sessions && id in x.versions[i].sessions
  }

  /** The command itself created this record, Provisioning. */
  ghost predicate MadeBy(x: World, pid: nat, s: Session)
    requires |x.authors| == |x.versions|
  {
    exists i :: Creates(x, pid, i, s.id) && x.versions[i].sessions[s.id] == s && s.lifecycle.Provisioning?
  }

  ghost predicate MadeNothing(x: World, pid: nat, id: nat)
    requires |x.authors| == |x.versions|
  {
    forall i :: !Creates(x, pid, i, id)
  }

  /** A resume is silent up to its create call, and what it holds afterwards is its own creation or it made none. */
  ghost predicate MadeInv(x: World, pid: nat, p: Proc)
    requires |x.authors| == |x.versions|
  {
    p.command.ResumeCommand? ==>
      match Holding(p.pc)
      case Some((created, isNew)) =>
        created.id == p.command.replacement &&
        if isNew then MadeBy(x, pid, created) else MadeNothing(x, pid, p.command.replacement)
      case None => p.pc.Done? || p.pc.AbortStop? || p.pc.Close? || Process(pid) !in x.authors
  }

  lemma MadeByLasts(x: World, x': World, pid: nat, s: Session)
    requires |x.authors| == |x.versions| && |x'.authors| == |x'.versions|
    requires x.versions <= x'.versions && x.authors <= x'.authors && MadeBy(x, pid, s)
    ensures MadeBy(x', pid, s)
  {
    var i :| Creates(x, pid, i, s.id) && x.versions[i].sessions[s.id] == s && s.lifecycle.Provisioning?;
    assert x'.versions[i] == x.versions[i] && x'.versions[i - 1] == x.versions[i - 1] && x'.authors[i] == x.authors[i];
    assert Creates(x', pid, i, s.id);
  }

  /** A commit by someone else, or one that brings nothing in, is no creation of this command. */
  lemma MadeNothingLasts(x: World, doc: Document, author: Actor, pid: nat, id: nat)
    requires x.versions != [] && |x.authors| == |x.versions| && MadeNothing(x, pid, id)
    requires author != Process(pid) || doc == x.Doc() || id in x.Doc().sessions || id !in doc.sessions
    ensures MadeNothing(Publish(x, doc, author), pid, id)
  {
    var x' := Publish(x, doc, author);
    forall i ensures !Creates(x', pid, i, id) {
      assert !Creates(x, pid, i, id);
    }
  }

  lemma SilentMadeNothing(x: World, pid: nat, id: nat)
    requires |x.authors| == |x.versions| && Process(pid) !in x.authors
    ensures MadeNothing(x, pid, id)
  {
  }

  lemma SameCommits(x: World, x': World, pid: nat, p: Proc)
    requires |x.authors| == |x.versions| && x'.versions == x.versions && x'.authors == x.authors && MadeInv(x, pid, p)
    ensures MadeInv(x', pid, p)
  {
    var held := Holding(p.pc);
    if p.command.ResumeCommand? && held.Some? {
      if held.value.1 { MadeByLasts(x, x', pid, held.value.0); }
      else {
        forall i ensures !Creates(x', pid, i, p.command.replacement) {
          assert !Creates(x, pid, i, p.command.replacement);
        }
      }
    }
  }

  lemma OthersKeepMade(x: World, doc: Document, author: Actor, pid: nat, p: Proc)
    requires x.versions != [] && |x.authors| == |x.versions| && author != Process(pid) && MadeInv(x, pid, p)
    ensures MadeInv(Publish(x, doc, author), pid, p)
  {
    var held := Holding(p.pc);
    if p.command.ResumeCommand? && held.Some? {
      hide Creates;
      if held.value.1 { MadeByLasts(x, Publish(x, doc, author), pid, held.value.0); }
      else { MadeNothingLasts(x, doc, author, pid, p.command.replacement); }
    }
  }

  lemma CreatedNow(x: World, doc: Document, pid: nat, s: Session)
    requires x.versions != [] && |x.authors| == |x.versions| && doc != x.Doc()
    requires s.id !in x.Doc().sessions && s.id in doc.sessions && doc.sessions[s.id] == s && s.lifecycle.Provisioning?
    ensures MadeBy(Publish(x, doc, Process(pid)), pid, s)
  {
    assert Creates(Publish(x, doc, Process(pid)), pid, |x.versions|, s.id);
  }

  lemma OwnStepKeepsMade(x: World, pid: nat, p: Proc, env: Env)
    requires Inv(x) && pid in x.procs && x.procs[pid] == p && |x.authors| == |x.versions| && MadeInv(x, pid, p)
    ensures var eff := ProcStep(p, pid, x.Doc(), x.store, env);
            MadeInv(Publish(x, eff.doc, Process(pid)), pid, Proc(p.command, eff.pc))
  {
    BaseHolds(x);
    hide Inv, History, ValidDocument, ProcStep, Creates;
    var eff := ProcStep(p, pid, x.Doc(), x.store, env);
    var id := if p.command.ResumeCommand? then p.command.replacement else 0;
    if !p.command.ResumeCommand? {
    } else if p.pc.ResumeCreate? {
      CreateStepWrites(x, pid, p, env);
      if Holding(eff.pc).Some? {
        if Holding(eff.pc).value.1 { CreatedNow(x, eff.doc, pid, Holding(eff.pc).value.0); }
        else { SilentMadeNothing(x, pid, id); }
      }
    } else if Early(p.pc) {
      EarlyStepWrites(x, pid, p, env);
    } else if p.pc.Done? || p.pc.AbortStop? || p.pc.Close? {
      LateStepWrites(x, pid, p, env);
    } else {
      HeldStepWrites(x, pid, p, env);
      if Holding(p.pc).value.1 { MadeByLasts(x, Publish(x, eff.doc, Process(pid)), pid, Holding(p.pc).value.0); }
      else { MadeNothingLasts(x, eff.doc, Process(pid), pid, id); }
    }
  }

  /** The document an event commits, the current one if it commits none, and who commits it. */
  function Committed(x: World, e: Event): Document
    requires x.versions != []
  {
    Next(x, e).Doc()
  }

  function Author(e: Event): Actor { if e.Act? then Process(e.pid) else Outside }

  lemma NextPublishes(x: World, e: Event)
    requires x.versions != [] && |x.authors| == |x.versions|
    ensures var y := Publish(x, Committed(x, e), Author(e));
            Next(x, e).versions == y.versions && Next(x, e).authors == y.authors
    ensures e.Act? && e.pid in x.procs ==>
        Committed(x, e) == ProcStep(x.procs[e.pid], e.pid, x.Doc(), x.store, e.env).doc
  {
    hide ProcStep, Mutate, Create, Remove, Record, OutsideMay;
  }

  ghost predicate AllMade(x: World) {
    |x.authors| == |x.versions| && forall pid :: pid in x.procs ==> MadeInv(x, pid, x.procs[pid])
  }

  lemma NewcomerIsSilent(x: World, e: Event, pid: nat)
    requires Inv(x) && pid !in x.procs && pid in Next(x, e).procs
    ensures Process(pid) !in Next(x, e).authors && Next(x, e).procs[pid].pc.Begin?
  {
    BaseHolds(x);
    ProcMoves(x, e, pid);
    assert forall i :: 0 <= i < |x.authors| && x.authors[i].Process? ==> x.authors[i].pid in x.procs by {
      hide Base, ProcInv, LaunchesInv;
    }
    hide Inv, ProcStep, Mutate, Create, Remove, Record, OutsideMay;
  }

  lemma ProcKeepsMade(x: World, e: Event, pid: nat)
    requires Inv(x) && AllMade(x) && pid in Next(x, e).procs && |Next(x, e).authors| == |Next(x, e).versions|
    ensures MadeInv(Next(x, e), pid, Next(x, e).procs[pid])
  {
    BaseHolds(x);
    ProcMoves(x, e, pid);
    NextPublishes(x, e);
    var doc, author := Committed(x, e), Author(e);
    hide History, ValidDocument, ProcStep, Committed;
    if pid !in x.procs {
      NewcomerIsSilent(x, e, pid);
    } else {
      var p := x.procs[pid];
      hide Inv, Next, MadeInv;
      if author == Process(pid) { OwnStepKeepsMade(x, pid, p, e.env); } else { OthersKeepMade(x, doc, author, pid, p); }
      SameCommits(Publish(x, doc, author), Next(x, e), pid, Next(x, e).procs[pid]);
    }
  }

  lemma {:induction false} RunKeepsMade(w: World, events: seq<Event>)
    requires Initial(w)
    ensures AllMade(Run(w, events))
    decreases |events|
  {
    RunKeepsInv(w, events);
    BaseHolds(Run(w, events));
    if events != [] {
      var front, e := events[..|events| - 1], events[|events| - 1];
      RunKeepsMade(w, front);
      RunKeepsInv(w, front);
      var x := Run(w, front);
      assert Run(w, events) == Next(x, e);
      hide Run, Inv, Next, MadeInv;
      forall pid | pid in Next(x, e).procs ensures MadeInv(Next(x, e), pid, Next(x, e).procs[pid]) {
        ProcKeepsMade(x, e, pid);
      }
    }
  }

  /** A resume made the record it holds iff its create call found none. */
  lemma MadeIff(x: World, pid: nat, p: Proc)
    requires |x.authors| == |x.versions| && MadeInv(x, pid, p) && p.command.ResumeCommand? && Holding(p.pc).Some?
    ensures MadeBy(x, pid, Holding(p.pc).value.0) <==> Holding(p.pc).value.1
  {
    hide Creates;
  }
}
