/**
 What the session commands guarantee in every interleaving, and where they guarantee less than one might expect.
 */
module SessionTheorems {
  import opened Wrappers
  import opened SessionDomain
  import opened SessionStore
  import opened Continuity
  import opened Orchestration
  import opened OrchestrationInvariant
  import opened SessionOrigins

  // ---------------------------------------------------------------- lifecycle

  /** In every run, every document the repository ever had keeps archived sessions exited. */
  lemma ArchivedIsExited(w: World, events: seq<Event>, d: Document, id: nat)
    requires Initial(w) && d in Run(w, events).versions && id in d.sessions
    ensures d.sessions[id].archivedAt.Some? ==> d.sessions[id].lifecycle.Exited?
  {
    RunKeepsInv(w, events);
  }

  /** A session that has exited stays exited for as long as its record is kept. */
  lemma ExitIsFinal(w: World, events: seq<Event>, i: nat, j: nat, id: nat)
    requires Initial(w)
    requires var versions := Run(w, events).versions;
             && i <= j < |versions|
             && (forall k :: i <= k <= j ==> id in versions[k].sessions)
             && versions[i].sessions[id].lifecycle.Exited?
    ensures Run(w, events).versions[j].sessions[id].lifecycle.Exited?
  {
    RunKeepsInv(w, events);
    ExitIsFinalIn(Run(w, events).versions, i, j, id);
  }

  lemma {:induction false} ExitIsFinalIn(versions: seq<Document>, i: nat, j: nat, id: nat)
    requires History(versions) && i <= j < |versions|
    requires forall k :: i <= k <= j ==> id in versions[k].sessions
    requires versions[i].sessions[id].lifecycle.Exited?
    ensures versions[j].sessions[id].lifecycle.Exited?
    decreases j
  {
    hide ValidDocument, ValidSession;
    if i < j {
      ExitIsFinalIn(versions, i, j - 1, id);
      assert CommitStep(versions[j - 1], versions[j]);
    }
  }

  // ---------------------------------------------------------------- reviewed commits

  /** Documents of one run are told apart by their revision. */
  lemma RevisionIdentifies(versions: seq<Document>, a: Document, b: Document)
    requires History(versions) && a in versions && b in versions && a.revision == b.revision
    ensures a == b
  {
    var i :| 0 <= i < |versions| && versions[i] == a;
    var j :| 0 <= j < |versions| && versions[j] == b;
    assert versions[i].revision == versions[0].revision + i;
    assert versions[j].revision == versions[0].revision + j;
  }

  /**
   When a command commits after a review, the session still carries the reviewed revision at that
   moment: no other writer's change to it is ever overwritten unseen.
   */
  lemma CommitMeetsReview(w: World, events: seq<Event>, pid: nat, env: Env)
    requires Initial(w)
    requires var x := Run(w, events);
             && pid in x.procs && (x.procs[pid].pc.StopCommit? || x.procs[pid].pc.Commit?)
             && !x.procs[pid].command.LaunchCommand? && !x.procs[pid].command.ResumeCommand?
             && Next(x, Act(pid, env)).versions != x.versions
    ensures var x := Run(w, events);
            var c := x.procs[pid].command;
            && c.id in x.Doc().sessions
            && (Reviewed(c).Some? ==> x.Doc().sessions[c.id].revision == Reviewed(c).value)
  {
    RunKeepsInv(w, events);
    CommitMeetsReviewIn(Run(w, events), pid, env);
  }

  lemma CommitMeetsReviewIn(x: World, pid: nat, env: Env)
    requires Inv(x) && pid in x.procs && (x.procs[pid].pc.StopCommit? || x.procs[pid].pc.Commit?)
    requires !x.procs[pid].command.LaunchCommand? && !x.procs[pid].command.ResumeCommand?
    requires Next(x, Act(pid, env)).versions != x.versions
    ensures var c := x.procs[pid].command;
            && c.id in x.Doc().sessions
            && (Reviewed(c).Some? ==> x.Doc().sessions[c.id].revision == Reviewed(c).value)
  {
    hide ValidDocument, CommitStep, ValidContinuity, LaunchesInv;
    var c, pc := x.procs[pid].command, x.procs[pid].pc;
    assert ProcInv(x, pid, x.procs[pid]);
    var m := if pc.StopCommit? then SetLifecycle(Stopping) else pc.mutation;
    MutateContract(x.Doc(), c.id, pc.revision, m, env.now);
    var d :| d in x.versions && d.revision == pc.revision && c.id in d.sessions
             && ReviewedRevision(d.sessions[c.id], Reviewed(c));
    RevisionIdentifies(x.versions, d, x.Doc());
  }

  // ---------------------------------------------------------------- stop

  predicate LastAuthorIs(w: World, pid: nat) {
    w.authors != [] && w.authors[|w.authors| - 1] == Process(pid)
  }

  /**
   A stop's Exited commit lands directly on a commit that left the session Stopping. That commit is the
   stop's own iff the session was not yet Stopping in the repository when its Stopping call, the k-th event of
   the run, was made.
   */
  lemma StopLandsOnStopping(w: World, events: seq<Event>, pid: nat, env: Env) returns (k: nat)
    requires Initial(w)
    requires var x := Run(w, events);
             && pid in x.procs && x.procs[pid].command.StopCommand? && x.procs[pid].pc.StopClose?
             && Next(x, Act(pid, env)).versions != x.versions
    ensures var x := Run(w, events);
            var x' := Next(x, Act(pid, env));
            var id, pc := x.procs[pid].command.id, x.procs[pid].pc;
            && id in x.Doc().sessions && id in x'.Doc().sessions
            && x.Doc().sessions[id] == pc.stopping
            && pc.stopping.lifecycle.Stopping? && pc.stopping.revision == x.Doc().revision
            && x'.versions == x.versions + [x'.Doc()] && x'.Doc().sessions[id].lifecycle.Exited?
            && StoppingCall(w, events, pid, k)
            && id in Before(w, events, k).Doc().sessions
            && (LastAuthorIs(x, pid) <==> !Before(w, events, k).Doc().sessions[id].lifecycle.Stopping?)
  {
    RunKeepsInv(w, events);
    StopLandsIn(Run(w, events), pid, env);
    hide Run, Inv, Next;
    k := StopComesFrom(w, events, pid);
  }

  lemma StopLandsIn(x: World, pid: nat, env: Env)
    requires Inv(x) && pid in x.procs && x.procs[pid].command.StopCommand? && x.procs[pid].pc.StopClose?
    requires Next(x, Act(pid, env)).versions != x.versions
    ensures var x' := Next(x, Act(pid, env));
            var id, pc := x.procs[pid].command.id, x.procs[pid].pc;
            && id in x.Doc().sessions && id in x'.Doc().sessions
            && x.Doc().sessions[id] == pc.stopping
            && pc.stopping.lifecycle.Stopping? && pc.stopping.revision == x.Doc().revision
            && x'.versions == x.versions + [x'.Doc()] && x'.Doc().sessions[id].lifecycle.Exited?
            && (LastAuthorIs(x, pid) <==> pc.changed)
  {
    hide CommitStep, ValidDocument, SetTo;
    var c, pc := x.procs[pid].command, x.procs[pid].pc;
    assert ProcInv(x, pid, x.procs[pid]);
    SetToLegal(env, x.Doc(), c.id, pc.stopping.revision, Exited);
    StampedNowIsCurrent(x.versions, pc.stopping);
    if pc.changed {
      var i :| 0 <= i < |x.versions| && x.versions[i].revision == pc.stopping.revision && x.authors[i] == Process(pid);
      assert x.versions[|x.versions| - 1].revision == x.versions[0].revision + (|x.versions| - 1);
      assert x.versions[i].revision == x.versions[0].revision + i;
    }
  }

  // ---------------------------------------------------------------- resume

  /** Any two links of one run that share a source, a replacement or a command are one link. */
  lemma ContinuityHolds(w: World, events: seq<Event>, a: Link, b: Link)
    requires Initial(w)
    requires var links := Run(w, events).store.links;
             a in links && b in links
             && (a.source == b.source || a.replacement == b.replacement || a.command == b.command)
    ensures a == b
  {
    RunKeepsInv(w, events);
    OneSuccessor(Run(w, events).store.links, a, b);
  }

  /** In no run does a chain of links come back to where it started. */
  lemma NoChainCloses(w: World, events: seq<Event>, path: seq<nat>)
    requires Initial(w) && Chain(Run(w, events).store.links, path)
    ensures Run(w, events).store.links[path[|path| - 1]].replacement != Run(w, events).store.links[path[0]].source
  {
    RunKeepsInv(w, events);
    NoCycle(Run(w, events).store.links, path);
  }

  /** A replacement Host that reported ready is linked or was sent a stop naming it, once its command returns. */
  lemma ReadyHostIsAccountedFor(w: World, events: seq<Event>, pid: nat)
    requires Initial(w)
    requires var x := Run(w, events);
             && pid in x.procs && x.procs[pid].command.ResumeCommand? && x.procs[pid].pc.Done? && pid in x.ready
    ensures var x := Run(w, events);
            Linked(x, x.procs[pid].command) || StopSent(x, pid, x.procs[pid].command)
  {
    assert w.versions != [];
    hide *;
    RunKeepsInv(w, events);
    FinishedResume(Run(w, events), pid);
    ReadyIn(Run(w, events), pid);
  }

  lemma ReadyIn(x: World, pid: nat)
    requires pid in x.procs && x.procs[pid].command.ResumeCommand? && x.procs[pid].pc.Done? && pid in x.ready
    requires ResumeInv(x, pid, x.procs[pid].command, x.procs[pid].pc)
    ensures Linked(x, x.procs[pid].command) || StopSent(x, pid, x.procs[pid].command)
  {
    hide Linked, StopSent, Observed;
  }

  lemma FinishedResume(x: World, pid: nat)
    requires Inv(x) && pid in x.procs && x.procs[pid].command.ResumeCommand? && x.procs[pid].pc.Done?
    ensures ResumeInv(x, pid, x.procs[pid].command, x.procs[pid].pc)
  {
    hide Base, LaunchesInv, ResumeInv, LaunchInv;
    assert |x.authors| == |x.versions| by { BaseFacts(x); }
    assert ProcInv(x, pid, x.procs[pid]);
  }

  /**
   A successful resume has its link, and the successor stood Attaching and then Live under rising revisions. The
   record it was handed by its create call, the k-th event of the run, is its own creation, Provisioning, iff the
   replacement was absent from the repository when that call was made.
   */
  lemma ResumedMeansLinkedAndLive(w: World, events: seq<Event>, pid: nat) returns (k: nat)
    requires Initial(w)
    requires var x := Run(w, events);
             && pid in x.procs && x.procs[pid].command.ResumeCommand?
             && x.procs[pid].pc.Done? && x.procs[pid].pc.result.Success? && x.procs[pid].pc.result.value.Resumed?
    ensures var x := Run(w, events);
            var c, r := x.procs[pid].command, x.procs[pid].pc.result.value;
            && |x.authors| == |x.versions|
            && Linked(x, c)
            && r.created.id == r.attaching.id == r.live.id == c.replacement
            && Observed(x.versions, r.created) && Observed(x.versions, r.attaching) && Observed(x.versions, r.live)
            && r.attaching.lifecycle.Attaching? && r.live.lifecycle.Live?
            && r.attaching.revision < r.live.revision
            && CreateCall(w, events, pid, k)
            && (MadeBy(x, pid, r.created) <==> c.replacement !in Before(w, events, k).Doc().sessions)
            && (MadeBy(x, pid, r.created) ==>
                  r.created.lifecycle.Provisioning? && r.created.revision < r.attaching.revision)
  {
    assert w.versions != [];
    k := ResumeComesFrom(w, events, pid) by { hide Run, ResumeOrigin; }
    hide Run, Next, Inv, MadeBy, MadeInv, CreateCall, Linked, Observed, ResumeInv;
    RunKeepsInv(w, events);
    RunKeepsMade(w, events);
    BaseHolds(Run(w, events));
    FinishedResume(Run(w, events), pid);
    ResumedIn(Run(w, events), pid);
    MadeIff(Run(w, events), pid, Run(w, events).procs[pid]);
  }

  lemma ResumedIn(x: World, pid: nat)
    requires pid in x.procs && x.procs[pid].command.ResumeCommand?
    requires x.procs[pid].pc.Done? && x.procs[pid].pc.result.Success? && x.procs[pid].pc.result.value.Resumed?
    requires ResumeInv(x, pid, x.procs[pid].command, x.procs[pid].pc)
    ensures var c, r := x.procs[pid].command, x.procs[pid].pc.result.value;
            && Linked(x, c)
            && r.created.id == r.attaching.id == r.live.id == c.replacement
            && Observed(x.versions, r.created) && Observed(x.versions, r.attaching) && Observed(x.versions, r.live)
            && r.attaching.lifecycle.Attaching? && r.live.lifecycle.Live?
            && r.attaching.revision < r.live.revision
            && (r.isNew ==> r.created.lifecycle.Provisioning? && r.created.revision < r.attaching.revision)
  {
    hide Linked, Observed;
  }

  // ---------------------------------------------------------------- launch

  predicate NeverRemoved(events: seq<Event>, id: nat) { OutsideRemove(id) !in events }

  /** Once there, always there. */
  predicate StaysPresent(versions: seq<Document>, id: nat) {
    forall i, j :: 0 <= i <= j < |versions| && id in versions[i].sessions ==> id in versions[j].sessions
  }

  lemma {:induction false} PresenceLasts(w: World, events: seq<Event>, id: nat)
    requires Initial(w) && NeverRemoved(events, id)
    ensures StaysPresent(Run(w, events).versions, id)
    decreases |events|
  {
    if events != [] {
      var earlier, e := events[..|events| - 1], events[|events| - 1];
      assert NeverRemoved(earlier, id) && e in events;
      PresenceLasts(w, earlier, id);
      RunKeepsInv(w, earlier);
      NextKeepsPresence(Run(w, earlier), e, id);
    }
  }

  lemma StepKeepsIds(p: Proc, pid: nat, doc: Document, store: Continuity, env: Env)
    requires ValidDocument(doc) && ValidContinuity(store)
    ensures doc.sessions.Keys <= ProcStep(p, pid, doc, store, env).doc.sessions.Keys
  {
    hide ProcStep, ValidDocument, ValidContinuity, CommitStep;
    StepIsLegal(p, pid, doc, store, env);
  }

  lemma MutateKeepsIds(doc: Document, id: nat, m: Mutation, now: nat)
    ensures doc.sessions.Keys <= Mutate(doc, id, doc.revision, m, now).doc.sessions.Keys
  {
    hide Reduce;
  }

  lemma CreateKeepsIds(doc: Document, s: Session)
    ensures doc.sessions.Keys <= Create(doc, s, doc.revision).doc.sessions.Keys
  {
  }

  lemma RemoveKeepsOtherIds(doc: Document, id: nat)
    ensures doc.sessions.Keys - {id} <= Remove(doc, id, doc.revision).doc.sessions.Keys
  {
  }

  /** Only an event that removes a session takes it out of the repository. */
  lemma PresentNext(x: World, e: Event, id: nat)
    requires x.versions != [] && ValidDocument(x.Doc()) && ValidContinuity(x.store)
    requires id in x.Doc().sessions && e != OutsideRemove(id)
    ensures id in Next(x, e).Doc().sessions
  {
    hide ProcStep, Create, Mutate, Remove, Record, CommitStep, ValidDocument, ValidContinuity;
    match e
    case Act(pid, env) =>
      if pid in x.procs { StepKeepsIds(x.procs[pid], pid, x.Doc(), x.store, env); }
    case OutsideMutate(other, m, now) => MutateKeepsIds(x.Doc(), other, m, now);
    case OutsideCreate(s) => CreateKeepsIds(x.Doc(), s);
    case OutsideRemove(other) => RemoveKeepsOtherIds(x.Doc(), other);
    case _ =>
  }

  lemma NextKeepsPresence(x: World, e: Event, id: nat)
    requires Inv(x) && StaysPresent(x.versions, id) && e != OutsideRemove(id)
    ensures StaysPresent(Next(x, e).versions, id)
  {
    BaseHolds(x);
    NextPublishes(x, e);
    hide Inv, Next, History, ValidDocument;
    assert ValidDocument(x.Doc()) && ValidContinuity(x.store) by { BaseFacts(x); }
    if id in x.Doc().sessions { PresentNext(x, e, id); }
    assert x.Doc() == x.versions[|x.versions| - 1];
  }

  /** While a session is not removed, at most one commit of the run created it. */
  lemma CreatedAtMostOnce(w: World, events: seq<Event>, id: nat, i: nat, j: nat)
    requires Initial(w) && NeverRemoved(events, id)
    requires var versions := Run(w, events).versions;
             && 0 < i < |versions| && 0 < j < |versions|
             && id !in versions[i - 1].sessions && id in versions[i].sessions
             && id !in versions[j - 1].sessions && id in versions[j].sessions
    ensures i == j
  {
    PresenceLasts(w, events, id);
  }

  /**
   Two launcher calls for one requested session come from two commands that had both loaded the
   repository before the session was created. A replay that starts later never launches.
   */
  lemma LaunchesNeedOverlap(w: World, events: seq<Event>, i: nat, j: nat)
    requires Initial(w)
    requires var launches := Run(w, events).launches;
             && i < j < |launches|
             && launches[i].session == launches[j].session && launches[i].requested && launches[j].requested
             && NeverRemoved(events, launches[i].session)
    ensures var x := Run(w, events);
            && x.launches[i].pid != x.launches[j].pid
            && forall d :: d in x.versions && x.launches[i].session in d.sessions ==>
                 x.launches[i].snapshot.revision < d.revision && x.launches[j].snapshot.revision < d.revision
  {
    RunKeepsInv(w, events);
    var x := Run(w, events);
    var id := x.launches[i].session;
    PresenceLasts(w, events, id);
    forall d | d in x.versions && id in d.sessions
      ensures x.launches[i].snapshot.revision < d.revision && x.launches[j].snapshot.revision < d.revision
    {
      AbsentIsEarlier(x.versions, x.launches[i].snapshot, d, id);
      AbsentIsEarlier(x.versions, x.launches[j].snapshot, d, id);
    }
  }

  lemma AbsentIsEarlier(versions: seq<Document>, absent: Document, present: Document, id: nat)
    requires History(versions) && StaysPresent(versions, id)
    requires absent in versions && present in versions && id !in absent.sessions && id in present.sessions
    ensures absent.revision < present.revision
  {
    var i :| 0 <= i < |versions| && versions[i] == absent;
    var j :| 0 <= j < |versions| && versions[j] == present;
    assert versions[i].revision == versions[0].revision + i;
    assert versions[j].revision == versions[0].revision + j;
  }

  /** A replay that finds the session answers with it, or with a conflict if preset or group differ. */
  lemma LaunchReplayAnswers(c: Command, pid: nat, doc: Document, store: Continuity, env: Env)
    requires c.LaunchCommand? && c.requested && c.id in doc.sessions && !env.cancelled && !env.fault
    ensures var eff := ProcStep(Proc(c, Begin), pid, doc, store, env);
            && eff.doc == doc && eff.launched.None? && eff.pc.Done?
            && (eff.pc.result == Success(Mutated(doc.sessions[c.id])) <==>
                  doc.sessions[c.id].preset == Some(c.preset) && doc.sessions[c.id].group == c.group)
            && (eff.pc.result == Failure(CommandError.Conflict) <==>
                  !(doc.sessions[c.id].preset == Some(c.preset) && doc.sessions[c.id].group == c.group))
  {
  }

  // ---------------------------------------------------------------- launcher calls over runs

  /** The launcher call of a step carries the number of the command that takes it. */
  lemma CallCarriesPid(p: Proc, pid: nat, doc: Document, store: Continuity, env: Env)
    ensures var call := ProcStep(p, pid, doc, store, env).launched; call.Some? ==> call.value.pid == pid
  {
    hide SetTo, Create, Record, Mutate;
  }

  lemma NextLaunches(x: World, e: Event)
    requires x.versions != []
    ensures Next(x, e).launches == x.launches +
              if e.Act? && e.pid in x.procs && ProcStep(x.procs[e.pid], e.pid, x.Doc(), x.store, e.env).launched.Some?
              then [ProcStep(x.procs[e.pid], e.pid, x.Doc(), x.store, e.env).launched.value] else []
  {
    hide ProcStep, Mutate, Create, Remove, Record, OutsideMay;
  }

  /** A command's calls are added by its own steps only, and never taken back. */
  lemma CallsAreOwn(x: World, e: Event, pid: nat)
    requires x.versions != []
    ensures !NoLaunch(x, pid) ==> !NoLaunch(Next(x, e), pid)
    ensures NoLaunch(x, pid) && !(e.Act? && e.pid == pid) ==> NoLaunch(Next(x, e), pid)
  {
    NextLaunches(x, e);
    if e.Act? && e.pid in x.procs { CallCarriesPid(x.procs[e.pid], e.pid, x.Doc(), x.store, e.env); }
    hide Next, ProcStep;
    if !NoLaunch(x, pid) {
      var i :| 0 <= i < |x.launches| && x.launches[i].pid == pid;
      assert Next(x, e).launches[i].pid == pid;
    }
  }

  predicate AtLaunch(x: World, pid: nat) { pid in x.procs && x.procs[pid].command.LaunchCommand? }

  /** A launch that is over and has made no call. */
  ghost predicate Settled(x: World, pid: nat) { AtLaunch(x, pid) && x.procs[pid].pc.Done? && NoLaunch(x, pid) }

  /** A launch whose next step is its launcher call. */
  ghost predicate AboutToCall(x: World, pid: nat) {
    AtLaunch(x, pid) && x.procs[pid].pc.LaunchHost? && NoLaunch(x, pid)
  }

  lemma SettledStays(x: World, e: Event, pid: nat)
    requires x.versions != [] && Settled(x, pid)
    ensures Settled(Next(x, e), pid)
  {
    ProcKept(x, e, pid);
    ProcMoves(x, e, pid);
    NextLaunches(x, e);
    CallsAreOwn(x, e, pid);
    hide Next, SetTo, Create, Record, Mutate;
  }

  lemma ProcKept(x: World, e: Event, pid: nat)
    requires x.versions != [] && pid in x.procs
    ensures pid in Next(x, e).procs
  {
    hide ProcStep, Mutate, Create, Remove, Record, OutsideMay;
  }

  lemma CallMade(x: World, e: Event, pid: nat)
    requires x.versions != [] && AboutToCall(x, pid)
    ensures if e.Act? && e.pid == pid then !NoLaunch(Next(x, e), pid) else AboutToCall(Next(x, e), pid)
  {
    ProcKept(x, e, pid);
    ProcMoves(x, e, pid);
    NextLaunches(x, e);
    CallsAreOwn(x, e, pid);
    hide Next, SetTo, Create, Record, Mutate;
    if e.Act? && e.pid == pid {
      assert Next(x, e).launches[|x.launches|].pid == pid;
    }
  }

  predicate Steps(events: seq<Event>, pid: nat) { exists e :: e in events && e.Act? && e.pid == pid }

  lemma RunLast(w: World, before: seq<Event>, after: seq<Event>)
    requires w.versions != [] && after != []
    ensures Run(w, before + after) == Next(Run(w, before + after[..|after| - 1]), after[|after| - 1])
  {
    hide Next;
    assert (before + after)[..|before + after| - 1] == before + after[..|after| - 1];
  }

  lemma {:induction false} SettledForever(w: World, before: seq<Event>, after: seq<Event>, pid: nat)
    requires w.versions != [] && Settled(Run(w, before), pid)
    ensures Settled(Run(w, before + after), pid)
    decreases |after|
  {
    if after == [] {
      assert before + after == before;
    } else {
      RunLast(w, before, after);
      hide Run, Next, Settled;
      SettledForever(w, before, after[..|after| - 1], pid);
      SettledStays(Run(w, before + after[..|after| - 1]), after[|after| - 1], pid);
    }
  }

  lemma {:induction false} CallComesWithTheNextStep(w: World, before: seq<Event>, after: seq<Event>, pid: nat)
    requires w.versions != [] && AboutToCall(Run(w, before), pid)
    ensures var y := Run(w, before + after); if Steps(after, pid) then !NoLaunch(y, pid) else AboutToCall(y, pid)
    decreases |after|
  {
    if after == [] {
      assert before + after == before;
    } else {
      var front, e := after[..|after| - 1], after[|after| - 1];
      assert after == front + [e];
      RunLast(w, before, after);
      hide Run, Next, AboutToCall, NoLaunch;
      CallComesWithTheNextStep(w, before, front, pid);
      if Steps(front, pid) {
        CallsAreOwn(Run(w, before + front), e, pid);
      } else {
        CallMade(Run(w, before + front), e, pid);
      }
    }
  }

  /**
   A create step gets as far as the launcher: nothing outside objects, and either the session already stands there,
   which is not checked against the snapshot, or the snapshot is still current and there is room.
   */
  predicate Proceeds(p: Proc, doc: Document, env: Env)
    requires p.command.LaunchCommand? && p.pc.LaunchCreate?
  {
    && NoObjection(env)
    && (p.command.id in doc.sessions
        || (p.pc.snapshot.revision == doc.revision && |doc.sessions| < MAX_SESSIONS && doc.revision < U64_MAX))
  }

  lemma CreateStepDecides(x: World, pid: nat, env: Env)
    requires Inv(x) && AtLaunch(x, pid) && x.procs[pid].pc.LaunchCreate? && x.versions != []
    ensures var y := Next(x, Act(pid, env));
            if Proceeds(x.procs[pid], x.Doc(), env) then AboutToCall(y, pid) else Settled(y, pid)
  {
    assert NoLaunch(x, pid) by { LaunchHasNotCalled(x, pid); }
    ProcKept(x, Act(pid, env), pid);
    ProcMoves(x, Act(pid, env), pid);
    NextLaunches(x, Act(pid, env));
    assert x.Doc().revision <= U64_MAX by { BaseHolds(x); }
    LaunchProceedsIff(x.procs[pid], pid, x.Doc(), x.store, env);
    hide Next, Inv, ProcStep, Proceeds;
  }

  lemma LaunchProceedsIff(p: Proc, pid: nat, doc: Document, store: Continuity, env: Env)
    requires p.command.LaunchCommand? && p.pc.LaunchCreate? && doc.revision <= U64_MAX
    ensures var eff := ProcStep(p, pid, doc, store, env);
            eff.launched.None? && if Proceeds(p, doc, env) then eff.pc.LaunchHost? else eff.pc.Done?
  {
    hide SetTo, Mutate, CleanupStep;
  }

  lemma LaunchHasNotCalled(x: World, pid: nat)
    requires Inv(x) && AtLaunch(x, pid) && x.procs[pid].pc.LaunchCreate?
    ensures NoLaunch(x, pid)
  {
    hide Base, LaunchesInv, ResumeInv, ReviewInv, StopInv;
    assert |x.authors| == |x.versions| by { BaseFacts(x); }
    assert ProcInv(x, pid, x.procs[pid]);
  }

  /** Nothing outside objects to a create step. */
  predicate NoObjection(env: Env) { !env.othersChanged && !env.refused && !env.fault }

  /**
   A launch that has loaded the repository without its session adds a launcher call to the run iff its create step
   proceeds and it steps again; for a replay whose session stands there by then, iff nothing outside objects.
   */
  lemma LaunchCallsIff(w: World, before: seq<Event>, pid: nat, env: Env, after: seq<Event>)
    requires Initial(w)
    requires var x := Run(w, before);
             AtLaunch(x, pid) && x.procs[pid].pc.LaunchCreate?
    ensures var x := Run(w, before);
            && (!NoLaunch(Run(w, before + [Act(pid, env)] + after), pid)
                <==> Proceeds(x.procs[pid], x.Doc(), env) && Steps(after, pid))
            && (x.procs[pid].command.id in x.Doc().sessions ==>
                  (Proceeds(x.procs[pid], x.Doc(), env) <==> NoObjection(env)))
  {
    var front := before + [Act(pid, env)];
    RunKeepsInv(w, before);
    CreateStepDecides(Run(w, before), pid, env);
    assert Run(w, front) == Next(Run(w, before), Act(pid, env)) by { assert front[..|before|] == before; }
    var proceeds := Proceeds(Run(w, before).procs[pid], Run(w, before).Doc(), env);
    hide Run, Next, Inv;
    if proceeds {
      CallComesWithTheNextStep(w, front, after, pid);
    } else {
      SettledForever(w, front, after, pid);
    }
  }

  /** Not begun yet, or settled without a call. */
  ghost predicate Replaying(x: World, pid: nat, c: Command) {
    pid in x.procs && x.procs[pid].command == c && (Settled(x, pid) || (x.procs[pid].pc.Begin? && NoLaunch(x, pid)))
  }

  lemma ReplayingNext(x: World, e: Event, pid: nat, c: Command)
    requires Inv(x) && x.versions != [] && c.LaunchCommand? && c.requested && c.id in x.Doc().sessions
    requires Replaying(x, pid, c)
    ensures Replaying(Next(x, e), pid, c)
  {
    ProcKept(x, e, pid);
    ProcMoves(x, e, pid);
    hide Inv;
    if Settled(x, pid) {
      SettledStays(x, e, pid);
    } else {
      NextLaunches(x, e);
      CallsAreOwn(x, e, pid);
      hide Next, LaunchStep;
    }
  }

  lemma {:induction false} ReplayingForever(w: World, before: seq<Event>, after: seq<Event>, pid: nat, c: Command)
    requires Initial(w) && c.LaunchCommand? && c.requested && c.id in Run(w, before).Doc().sessions
    requires Replaying(Run(w, before), pid, c) && NeverRemoved(after, c.id)
    ensures Replaying(Run(w, before + after), pid, c) && c.id in Run(w, before + after).Doc().sessions
    decreases |after|
  {
    if after == [] {
      assert before + after == before;
    } else {
      var front, e := after[..|after| - 1], after[|after| - 1];
      assert e in after && NeverRemoved(front, c.id);
      RunLast(w, before, after);
      RunKeepsInv(w, before + front);
      assert w.versions != [];
      BaseFacts(Run(w, before + front));
      hide Run, Next, Inv, Replaying;
      ReplayingForever(w, before, front, pid, c);
      ReplayingNext(Run(w, before + front), e, pid, c);
      PresentNext(Run(w, before + front), e, c.id);
    }
  }

  lemma StartsReplaying(x: World, pid: nat, c: Command)
    requires Inv(x) && x.versions != [] && pid !in x.procs && c.LaunchCommand?
    ensures Replaying(Next(x, Start(pid, c)), pid, c) && Next(x, Start(pid, c)).Doc() == x.Doc()
  {
    hide Base, ProcInv;
  }

  /** A launch that begins while its session stands in the repository, never removed, never calls the launcher. */
  lemma LateReplayNeverLaunches(w: World, before: seq<Event>, pid: nat, c: Command, after: seq<Event>)
    requires Initial(w) && c.LaunchCommand? && c.requested
    requires pid !in Run(w, before).procs && c.id in Run(w, before).Doc().sessions && NeverRemoved(after, c.id)
    ensures NoLaunch(Run(w, before + [Start(pid, c)] + after), pid)
  {
    var front := before + [Start(pid, c)];
    RunKeepsInv(w, before);
    RunLast(w, before, [Start(pid, c)]);
    assert before + [] == before;
    assert w.versions != [];
    hide Run, Inv, Next, Initial;
    StartsReplaying(Run(w, before), pid, c);
    ReplayingForever(w, front, after, pid, c);
  }
}
