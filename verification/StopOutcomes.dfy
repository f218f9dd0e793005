/**
 How a stop ends (crates/multiplex-cli/src/local.rs): its Exited commit needs the Host's word that it has stopped.
 */
module StopOutcomes {
  import opened Wrappers
  import opened SessionDomain
  import opened SessionStore
  import opened Continuity
  import opened Orchestration
  import opened OrchestrationInvariant
  import opened SessionOrigins
  import opened SessionProgress
  import opened SessionDeeds
  import opened SessionTheorems

  /** The i-th version is a commit of this command that takes the session to Exited. */
  predicate Exits(x: World, pid: nat, i: int, id: nat)
    requires |x.authors| == |x.versions|
  {
    && 0 < i < |x.versions| && x.authors[i] == Process(pid)
    && id in x.versions[i - 1].sessions && id in x.versions[i].sessions
    && !x.versions[i - 1].sessions[id].lifecycle.Exited? && x.versions[i].sessions[id].lifecycle.Exited?
  }

  /** The command has committed Exited. */
  ghost predicate HasExited(x: World, pid: nat, id: nat)
    requires |x.authors| == |x.versions|
  {
    exists i :: Exits(x, pid, i, id)
  }

  /** What lies behind a stop: the Host's answer, if it was asked, and the Exited commit. */
  datatype Past = Past(stopped: bool, refused: bool, written: bool)

  const NOTHING := Past(false, false, false)

  predicate Fits(c: Command, pc: Pc, past: Past)
    requires c.StopCommand?
  {
    match pc
    case StopClose(_, _) => past == Past(true, false, false)
    case Done(result) =>
      && (past.written ==> past.stopped)
      && (past.refused ==> !past.stopped && result == Failure(OperationFailed))
      && (result.Success? ==> past.stopped || c.requireExactHost)
    case _ => past == NOTHING
  }

  ghost predicate Told(x: World, pid: nat, c: Command, past: Past)
    requires c.StopCommand? && |x.authors| == |x.versions|
  {
    && (if pid in x.procs then x.procs[pid].command == c && Fits(c, x.procs[pid].pc, past) else past == NOTHING)
    && (HasExited(x, pid, c.id) <==> past.written)
  }

  function After(past: Past, pc: Pc, doc: Document, env: Env): Past {
    Past(past.stopped || StopSettles(pc, doc, env, HostStopped), past.refused || StopSettles(pc, doc, env, HostRefused),
         past.written || StopSettles(pc, doc, env, ExitWritten))
  }

  lemma StepFits(c: Command, pid: nat, pc: Pc, doc: Document, store: Continuity, env: Env, past: Past)
    requires c.StopCommand? && Fits(c, pc, past)
    ensures Fits(c, ProcStep(Proc(c, pc), pid, doc, store, env).pc, After(past, pc, doc, env))
  {
    hide SetTo;
  }

  /** A commit by this command is an exit iff it takes the session there. */
  lemma PublishExits(x: World, doc: Document, author: Actor, pid: nat, id: nat)
    requires x.versions != [] && |x.authors| == |x.versions|
    ensures var x' := Publish(x, doc, author);
            var now := author == Process(pid) && TakesToExit(x.Doc(), doc, id);
            |x'.authors| == |x'.versions| && (HasExited(x', pid, id) <==> HasExited(x, pid, id) || now)
  {
    var x' := Publish(x, doc, author);
    if HasExited(x, pid, id) {
      var i :| Exits(x, pid, i, id);
      assert Exits(x', pid, i, id);
    }
    if HasExited(x', pid, id) {
      var i :| Exits(x', pid, i, id);
      if i < |x.versions| { assert Exits(x, pid, i, id); }
    }
    if doc != x.Doc() && Exits(x', pid, |x.versions|, id) { assert HasExited(x', pid, id); }
  }

  /** Whether committing `doc` takes the session to Exited. */
  predicate TakesToExit(before: Document, doc: Document, id: nat) {
    && doc != before && id in before.sessions && id in doc.sessions
    && !before.sessions[id].lifecycle.Exited? && doc.sessions[id].lifecycle.Exited?
  }

  /** A stop writes Exited only by its last call, over the Stopping record it holds. */
  lemma OwnWrites(x: World, pid: nat, c: Command, pc: Pc, env: Env)
    requires Inv(x) && x.versions != [] && pid in x.procs && x.procs[pid] == Proc(c, pc) && c.StopCommand?
    ensures var doc := ProcStep(Proc(c, pc), pid, x.Doc(), x.store, env).doc;
            TakesToExit(x.Doc(), doc, c.id) <==> StopSettles(pc, x.Doc(), env, ExitWritten)
  {
    if pc.StopClose? {
      HeldRecord(x, pid, c, pc);
      hide Inv;
      CloseWrites(c, pid, pc, x.Doc(), x.store, env);
    } else {
      hide Inv;
      NoExitBefore(c, pid, pc, x.Doc(), x.store, env);
    }
  }

  /** The record a stop holds is a Stopping record of its session; if its stamp is current it is the stored one. */
  lemma HeldRecord(x: World, pid: nat, c: Command, pc: Pc)
    requires Inv(x) && x.versions != [] && pid in x.procs && x.procs[pid] == Proc(c, pc)
    requires c.StopCommand? && pc.StopClose?
    ensures pc.stopping.id == c.id && pc.stopping.lifecycle.Stopping?
    ensures pc.stopping.revision == x.Doc().revision ==>
              c.id in x.Doc().sessions && x.Doc().sessions[c.id] == pc.stopping
    ensures x.Doc().revision <= U64_MAX
  {
    BaseHolds(x);
    hide History, CommitStep, ValidDocument, LaunchesInv, ValidContinuity;
    assert ProcInv(x, pid, x.procs[pid]);
    StampedNowIsCurrent(x.versions, pc.stopping);
    assert x.Doc().revision <= U64_MAX by { BaseHolds(x); DocBound(x.Doc()); }
  }

  lemma DocBound(doc: Document)
    requires ValidDocument(doc)
    ensures doc.revision <= U64_MAX
  {
  }

  lemma CloseWrites(c: Command, pid: nat, pc: Pc, doc: Document, store: Continuity, env: Env)
    requires c.StopCommand? && pc.StopClose? && doc.revision <= U64_MAX
    requires pc.stopping.id == c.id && pc.stopping.lifecycle.Stopping?
    requires pc.stopping.revision == doc.revision ==> c.id in doc.sessions && doc.sessions[c.id] == pc.stopping
    ensures TakesToExit(doc, ProcStep(Proc(c, pc), pid, doc, store, env).doc, c.id)
            <==> StopSettles(pc, doc, env, ExitWritten)
  {
    SetToMeans(env, doc, pc.stopping.id, pc.stopping.revision, Exited);
    hide SetTo;
  }

  lemma NoExitBefore(c: Command, pid: nat, pc: Pc, doc: Document, store: Continuity, env: Env)
    requires c.StopCommand? && !pc.StopClose?
    ensures !TakesToExit(doc, ProcStep(Proc(c, pc), pid, doc, store, env).doc, c.id)
  {
    if pc.StopCommit? { SetToMeans(env, doc, c.id, pc.revision, Stopping); }
    hide SetTo;
  }

  // ---- over runs ----

  predicate IsStop(x: World, pid: nat, c: Command) {
    c.StopCommand? && (pid in x.procs ==> x.procs[pid].command == c)
  }

  function NextPast(past: Past, x: World, e: Event, pid: nat): Past
    requires x.versions != []
  {
    if e.Act? && e.pid == pid && pid in x.procs && x.procs[pid].command.StopCommand? then
      After(past, x.procs[pid].pc, x.Doc(), e.env)
    else past
  }

  lemma NextTold(x: World, e: Event, pid: nat, c: Command, past: Past)
    requires Inv(x) && x.versions != [] && |x.authors| == |x.versions| && c.StopCommand? && Told(x, pid, c, past)
    requires pid in Next(x, e).procs ==> Next(x, e).procs[pid].command == c
    ensures |Next(x, e).authors| == |Next(x, e).versions| && Told(Next(x, e), pid, c, NextPast(past, x, e, pid))
  {
    NextPublishes(x, e);
    PublishExits(x, Committed(x, e), Author(e), pid, c.id);
    SameExits(Publish(x, Committed(x, e), Author(e)), Next(x, e), pid, c.id);
    if pid in x.procs { ProcKept(x, e, pid); }
    if pid in Next(x, e).procs { ProcMoves(x, e, pid); }
    if e.Act? && e.pid == pid && pid in x.procs {
      var pc := x.procs[pid].pc;
      assert x.procs[pid] == Proc(c, pc);
      hide Next, Inv, ProcStep, HasExited, StopSettles, Fits;
      StepFits(c, pid, pc, x.Doc(), x.store, e.env, past);
      OwnWrites(x, pid, c, pc, e.env);
    } else {
      hide Next, Inv, ProcStep, HasExited;
    }
  }

  lemma SameExits(x: World, y: World, pid: nat, id: nat)
    requires |x.authors| == |x.versions| && x.versions == y.versions && x.authors == y.authors
    ensures HasExited(x, pid, id) <==> HasExited(y, pid, id)
  {
    if HasExited(x, pid, id) {
      var i :| Exits(x, pid, i, id);
      assert Exits(y, pid, i, id);
    }
    if HasExited(y, pid, id) {
      var i :| Exits(y, pid, i, id);
      assert Exits(x, pid, i, id);
    }
  }

  function PastOf(w: World, events: seq<Event>, pid: nat): Past
    requires w.versions != []
  {
    Past(Did(w, events, pid, HostStopped), Did(w, events, pid, HostRefused), Did(w, events, pid, ExitWritten))
  }

  lemma PastSnoc(w: World, events: seq<Event>, e: Event, pid: nat)
    requires w.versions != []
    ensures PastOf(w, events + [e], pid) == NextPast(PastOf(w, events, pid), Run(w, events), e, pid)
  {
    hide Run, StopSettles, Did;
    DidSnoc(w, events, e, pid, HostStopped);
    DidSnoc(w, events, e, pid, HostRefused);
    DidSnoc(w, events, e, pid, ExitWritten);
  }

  lemma {:induction false} RunTells(w: World, events: seq<Event>, pid: nat, c: Command)
    requires Initial(w) && IsStop(Run(w, events), pid, c)
    ensures |Run(w, events).authors| == |Run(w, events).versions|
    ensures Told(Run(w, events), pid, c, PastOf(w, events, pid))
    decreases |events|
  {
    if events != [] {
      var front, e := events[..|events| - 1], events[|events| - 1];
      assert events == front + [e];
      var x := Run(w, front);
      RunKeepsInv(w, front);
      BaseHolds(x);
      hide Run, Next, Inv, PastOf, Told, NextPast, History, ValidDocument;
      BeforeLast(w, events);
      if pid in x.procs { ProcKept(x, e, pid); ProcMoves(x, e, pid); }
      RunTells(w, front, pid, c);
      PastSnoc(w, front, e, pid);
      NextTold(x, e, pid, c, PastOf(w, front, pid));
    }
  }

  // ---- the results ----

  /**
   A stop has committed Exited iff its last call was written, and that only after the Host had answered this command
   that it has stopped. At its last control point the Host has so answered; a stop whose Host answered anything else
   ends with its operation failed and commits no Exited; and one that succeeds, other than by finding the session
   exited, has the Host's word.
   */
  lemma StopExitsIff(w: World, events: seq<Event>, pid: nat)
    requires Initial(w) && pid in Run(w, events).procs && Run(w, events).procs[pid].command.StopCommand?
    ensures var x := Run(w, events);
            var c, pc := x.procs[pid].command, x.procs[pid].pc;
            && |x.authors| == |x.versions|
            && (HasExited(x, pid, c.id) <==> Did(w, events, pid, ExitWritten))
            && (Did(w, events, pid, ExitWritten) ==> Did(w, events, pid, HostStopped))
            && (Did(w, events, pid, HostStopped) ==> pc.StopClose? || pc.Done?)
            && (pc.StopClose? ==> Did(w, events, pid, HostStopped))
            && (Did(w, events, pid, HostRefused) ==>
                  pc == Done(Failure(OperationFailed)) && !HasExited(x, pid, c.id))
            && (pc.Done? && pc.result.Success? && !c.requireExactHost ==> Did(w, events, pid, HostStopped))
  {
    var c := Run(w, events).procs[pid].command;
    hide Run, Did, HasExited;
    RunTells(w, events, pid, c);
    assert Fits(c, Run(w, events).procs[pid].pc, PastOf(w, events, pid));
  }

  /**
   Any other answer of the Host ends the stop with its operation failed and the repository as it was: a session nobody
   has touched since is still Stopping.
   */
  lemma RefusedStopStays(x: World, pid: nat, c: Command, pc: Pc, env: Env)
    requires At(x, pid, c, pc) && c.StopCommand? && pc.StopSend? && !env.stop.Stopped?
    ensures Leads(x, pid, env, Done(Failure(OperationFailed)), x.Doc())
    ensures var now := x.Doc().sessions;
            c.id in now && now[c.id].revision <= pc.stopping.revision ==> now[c.id].lifecycle.Stopping?
  {
    StopGoesOnIff(x, pid, c, pc, env);
    ReachableFacts(x);
    hide Leads, Sends, Launches, Reachable, Next;
    BaseHolds(x);
    SentRecord(x, pid, c, pc);
  }

  lemma SentRecord(x: World, pid: nat, c: Command, pc: Pc)
    requires Inv(x) && x.versions != [] && pid in x.procs && x.procs[pid] == Proc(c, pc)
    requires c.StopCommand? && pc.StopSend?
    ensures var now := x.Doc().sessions;
            c.id in now && now[c.id].revision <= pc.stopping.revision ==> now[c.id].lifecycle.Stopping?
  {
    BaseHolds(x);
    hide History, CommitStep, ValidDocument, LaunchesInv, ValidContinuity;
    assert ProcInv(x, pid, x.procs[pid]);
    if c.id in x.Doc().sessions { CurrentIsNewer(x.versions, pc.stopping); }
  }
}
