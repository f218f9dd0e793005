/**
 Concrete runs of the session commands that show where they guarantee less than one might expect.
 */
module SessionRuns {
  import opened Wrappers
  import opened SessionDomain
  import opened SessionStore
  import opened Continuity
  import opened Orchestration
  import opened OrchestrationInvariant
  import opened SessionTheorems

  lemma RunSnoc(w: World, events: seq<Event>, e: Event)
    requires w.versions != []
    ensures Run(w, events + [e]) == Next(Run(w, events), e)
  {
    hide Next;
    assert (events + [e])[..|events + [e]| - 1] == events;
  }

  function Calm(): Env {
    Env(false, false, false, false, false, Ready, Stopped, Some(3), 0, 1)
  }

  function Fresh(sessions: map<nat, Session>): World {
    World([Document(0, sessions)], [Outside], Continuity(0, []), map[], [], {}, {})
  }

  lemma Play(w: World, x: World, events: seq<Event>, e: Event, x': World) returns (events': seq<Event>)
    requires w.versions != [] && x == Run(w, events) && x'== Next(x, e)
    ensures events' == events + [e] && x' == Run(w, events')
  {
    events' := events + [e];
    RunSnoc(w, events, e);
  }

  const STOP := StopCommand(7, None, true, false)
  const LIVE := NewSession(7, None, Some(1), "t", Default, false, 0).(lifecycle := Live)
  const STOPPING := LIVE.(lifecycle := Stopping, revision := 1, updatedAt := 1)

  function With(w: World, pid: nat, c: Command, pc: Pc): World {
    w.(procs := w.procs[pid := Proc(c, pc)])
  }

  lemma StopLoads(w: World, pid: nat)
    requires w.versions == [Document(0, map[7 := LIVE])] && pid in w.procs && w.procs[pid] == Proc(STOP, Begin)
    ensures Next(w, Act(pid, Calm())) == With(w, pid, STOP, StopCommit(0, None))
  {
  }

  /** The world once stop `pid` has committed Stopping. */
  function AfterStopping(w: World, pid: nat): World {
    With(w, pid, STOP, StopSend(STOPPING, true, None)).(
      versions := w.versions + [Document(1, map[7 := STOPPING])], authors := w.authors + [Process(pid)])
  }

  lemma StopCommits(w: World, pid: nat)
    requires w.versions == [Document(0, map[7 := LIVE])]
    requires pid in w.procs && w.procs[pid] == Proc(STOP, StopCommit(0, None))
    ensures Next(w, Act(pid, Calm())) == AfterStopping(w, pid)
  {
    assert map[7 := LIVE][7 := STOPPING] == map[7 := STOPPING];
  }

  lemma StopRepeats(w: World, pid: nat)
    requires w.versions != [] && w.Doc() == Document(1, map[7 := STOPPING])
    requires pid in w.procs && w.procs[pid] == Proc(STOP, StopCommit(0, None))
    ensures Next(w, Act(pid, Calm())) == With(w, pid, STOP, StopSend(STOPPING, false, None))
  {
  }

  lemma StopSends(w: World, pid: nat)
    requires w.versions != [] && pid in w.procs && w.procs[pid] == Proc(STOP, StopSend(STOPPING, false, None))
    ensures Next(w, Act(pid, Calm())) ==
            With(w, pid, STOP, StopClose(STOPPING, false)).(stops := w.stops + {StopRequest(pid, 7, None)})
  {
  }

  lemma StopCloses(w: World, pid: nat)
    requires w.versions != [] && w.Doc() == Document(1, map[7 := STOPPING])
    requires pid in w.procs && w.procs[pid] == Proc(STOP, StopClose(STOPPING, false))
    ensures |Next(w, Act(pid, Calm())).versions| == |w.versions| + 1
  {
  }

  /**
   Two stops of one live session: both load it Live, the first commits Stopping, the second's call is
   answered without a commit, and the second is the one whose Exited commit lands, on the first's commit.
   */
  lemma StopMayCloseAnotherStop() returns (w: World, events: seq<Event>)
    ensures Initial(w)
    ensures var x := Run(w, events);
            && 2 in x.procs && x.procs[2].command.StopCommand? && x.procs[2].pc.StopClose?
            && |Next(x, Act(2, Calm())).versions| == |x.versions| + 1
            && LastAuthorIs(x, 1)
  {
    hide ProcStep, Install;
    w := Fresh(map[7 := LIVE]);
    events := [];
    var x1 := With(w, 1, STOP, Begin);
    events := Play(w, w, events, Start(1, STOP), x1);
    var x2 := With(x1, 2, STOP, Begin);
    events := Play(w, x1, events, Start(2, STOP), x2);
    var x3 := With(x2, 1, STOP, StopCommit(0, None));
    StopLoads(x2, 1);
    events := Play(w, x2, events, Act(1, Calm()), x3);
    var x4 := With(x3, 2, STOP, StopCommit(0, None));
    StopLoads(x3, 2);
    events := Play(w, x3, events, Act(2, Calm()), x4);
    var x5 := AfterStopping(x4, 1);
    StopCommits(x4, 1);
    events := Play(w, x4, events, Act(1, Calm()), x5);
    var x6 := With(x5, 2, STOP, StopSend(STOPPING, false, None));
    StopRepeats(x5, 2);
    events := Play(w, x5, events, Act(2, Calm()), x6);
    var x7 := With(x6, 2, STOP, StopClose(STOPPING, false)).(stops := x6.stops + {StopRequest(2, 7, None)});
    StopSends(x6, 2);
    events := Play(w, x6, events, Act(2, Calm()), x7);
    StopCloses(x7, 2);
  }

  const LAUNCH := LaunchCommand(7, true, 1, None, "t")
  const EMPTY := Document(0, map[])
  const CREATED := NewSession(7, None, Some(1), "t", Default, false, 1).(revision := 1)

  lemma LaunchLoads(w: World, pid: nat)
    requires w.versions == [EMPTY] && pid in w.procs && w.procs[pid] == Proc(LAUNCH, Begin)
    ensures Next(w, Act(pid, Calm())) == With(w, pid, LAUNCH, LaunchCreate(EMPTY))
  {
  }

  function AfterCreate(w: World, pid: nat): World {
    With(w, pid, LAUNCH, LaunchHost(CREATED, EMPTY)).(
      versions := w.versions + [Document(1, map[7 := CREATED])], authors := w.authors + [Process(pid)])
  }

  lemma LaunchCreates(w: World, pid: nat)
    requires w.versions == [EMPTY] && pid in w.procs && w.procs[pid] == Proc(LAUNCH, LaunchCreate(EMPTY))
    ensures Next(w, Act(pid, Calm())) == AfterCreate(w, pid)
  {
    assert map[][7 := CREATED] == map[7 := CREATED];
  }

  lemma LaunchFinds(w: World, pid: nat)
    requires w.versions != [] && w.Doc() == Document(1, map[7 := CREATED])
    requires pid in w.procs && w.procs[pid] == Proc(LAUNCH, LaunchCreate(EMPTY))
    ensures Next(w, Act(pid, Calm())) == With(w, pid, LAUNCH, LaunchHost(CREATED, EMPTY))
  {
  }

  function AfterCall(w: World, pid: nat): World {
    With(w, pid, LAUNCH, LaunchAttaching(CREATED)).(
      launches := w.launches + [LaunchCall(pid, 7, true, EMPTY)], ready := w.ready + {pid})
  }

  lemma LaunchCalls(w: World, pid: nat)
    requires w.versions != [] && pid in w.procs && w.procs[pid] == Proc(LAUNCH, LaunchHost(CREATED, EMPTY))
    ensures Next(w, Act(pid, Calm())) == AfterCall(w, pid)
  {
  }

  /** Both replays load, the first creates the record and the second is handed it. */
  lemma LaunchesShareARecord() returns (w: World, events: seq<Event>)
    ensures Initial(w) && NeverRemoved(events, 7)
    ensures var x := Run(w, events);
            && 1 in x.procs && x.procs[1] == Proc(LAUNCH, LaunchHost(CREATED, EMPTY))
            && 2 in x.procs && x.procs[2] == Proc(LAUNCH, LaunchHost(CREATED, EMPTY))
            && |x.versions| == 2 && x.launches == []
  {
    hide ProcStep, Install;
    w := Fresh(map[]);
    events := [];
    var x1 := With(w, 1, LAUNCH, Begin);
    events := Play(w, w, events, Start(1, LAUNCH), x1);
    var x2 := With(x1, 2, LAUNCH, Begin);
    events := Play(w, x1, events, Start(2, LAUNCH), x2);
    var x3 := With(x2, 1, LAUNCH, LaunchCreate(EMPTY));
    LaunchLoads(x2, 1);
    events := Play(w, x2, events, Act(1, Calm()), x3);
    var x4 := With(x3, 2, LAUNCH, LaunchCreate(EMPTY));
    LaunchLoads(x3, 2);
    events := Play(w, x3, events, Act(2, Calm()), x4);
    var x5 := AfterCreate(x4, 1);
    LaunchCreates(x4, 1);
    events := Play(w, x4, events, Act(1, Calm()), x5);
    LaunchFinds(x5, 2);
    events := Play(w, x5, events, Act(2, Calm()), With(x5, 2, LAUNCH, LaunchHost(CREATED, EMPTY)));
  }

  /**
   Two replays of one launch id that load before either has created the session: the second is handed
   the record the first created, and both call the launcher.
   */
  lemma LaunchMayRunTwice() returns (w: World, events: seq<Event>)
    ensures Initial(w) && NeverRemoved(events, 7)
    ensures var x := Run(w, events);
            && |x.launches| == 2
            && x.launches[0].session == x.launches[1].session == 7
            && x.launches[0].requested && x.launches[1].requested
            && |x.versions| == 2
  {
    hide ProcStep, Install;
    w, events := LaunchesShareARecord();
    var x := Run(w, events);
    LaunchCalls(x, 1);
    events := Play(w, x, events, Act(1, Calm()), AfterCall(x, 1));
    LaunchCalls(AfterCall(x, 1), 2);
    events := Play(w, AfterCall(x, 1), events, Act(2, Calm()), AfterCall(AfterCall(x, 1), 2));
  }

  // ---- a resume handed a record that was already there ----

  const RESUME := ResumeCommand(1, Some(0), true, 5, 9)
  const SOURCE := NewSession(1, None, Some(1), "s", Default, false, 0).(lifecycle := Offline)
  const OLD := NewSession(9, None, Some(1), "s", Default, false, 0).(lifecycle := Offline)
  const SHELF := Document(0, map[1 := SOURCE, 9 := OLD])
  const PLAN := Prepared(SOURCE, SHELF, 0)
  const LINK := Link(5, 1, 9, 0, 1, 1)
  const ATTACHED := OLD.(lifecycle := Attaching, revision := 1, updatedAt := 1)
  const LIVING := OLD.(lifecycle := Live, revision := 2, updatedAt := 1)

  predicate OnShelf(w: World) { w.versions == [SHELF] && w.authors == [Outside] && w.store == Continuity(0, []) }

  predicate At(w: World, pc: Pc) { 1 in w.procs && w.procs[1] == Proc(RESUME, pc) }

  lemma ResumePrepares(w: World)
    requires OnShelf(w) && At(w, Begin)
    ensures Next(w, Act(1, Calm())) == With(w, 1, RESUME, ResumeRecheck(PLAN))
  {
  }

  lemma ResumeRechecks(w: World)
    requires OnShelf(w) && At(w, ResumeRecheck(PLAN))
    ensures Next(w, Act(1, Calm())) == With(w, 1, RESUME, ResumeConfirm(PLAN))
  {
  }

  lemma ResumeConfirms(w: World)
    requires OnShelf(w) && At(w, ResumeConfirm(PLAN))
    ensures Next(w, Act(1, Calm())) == With(w, 1, RESUME, ResumeLinks(PLAN))
  {
  }

  lemma ResumeFindsNoLink(w: World)
    requires OnShelf(w) && At(w, ResumeLinks(PLAN))
    ensures Next(w, Act(1, Calm())) == With(w, 1, RESUME, ResumeCreate(PLAN, 0))
  {
  }

  /** The create call: the id is taken, so the stored record is the answer. */
  lemma ResumeIsHanded(w: World)
    requires OnShelf(w) && At(w, ResumeCreate(PLAN, 0))
    ensures Next(w, Act(1, Calm())) == With(w, 1, RESUME, ResumeHost(OLD, false, PLAN, 0))
  {
  }

  function Launched(w: World): World {
    With(w, 1, RESUME, ResumeRecord(OLD, false, PLAN, 0)).(
      launches := w.launches + [LaunchCall(1, 9, false, SHELF)], ready := w.ready + {1})
  }

  lemma ResumeLaunches(w: World)
    requires OnShelf(w) && At(w, ResumeHost(OLD, false, PLAN, 0))
    ensures Next(w, Act(1, Calm())) == Launched(w)
  {
  }

  /** The run so far: a Host is up for the record that was already there. */
  lemma ResumeGetsReady() returns (w: World, events: seq<Event>)
    ensures Initial(w) && w == Fresh(map[1 := SOURCE, 9 := OLD])
    ensures OnShelf(Run(w, events)) && At(Run(w, events), ResumeRecord(OLD, false, PLAN, 0))
        && Run(w, events).ready == {1} && Run(w, events).stops == {}
    ensures Act(1, Calm()) in events
  {
    hide ProcStep, Install;
    w := Fresh(map[1 := SOURCE, 9 := OLD]);
    events := [];
    var x := With(w, 1, RESUME, Begin);
    events := Play(w, w, events, Start(1, RESUME), x);
    ResumePrepares(x);
    var x1 := With(x, 1, RESUME, ResumeRecheck(PLAN));
    events := Play(w, x, events, Act(1, Calm()), x1);
    ResumeRechecks(x1);
    var x2 := With(x1, 1, RESUME, ResumeConfirm(PLAN));
    events := Play(w, x1, events, Act(1, Calm()), x2);
    ResumeConfirms(x2);
    var x3 := With(x2, 1, RESUME, ResumeLinks(PLAN));
    events := Play(w, x2, events, Act(1, Calm()), x3);
    ResumeFindsNoLink(x3);
    var x4 := With(x3, 1, RESUME, ResumeCreate(PLAN, 0));
    events := Play(w, x3, events, Act(1, Calm()), x4);
    ResumeIsHanded(x4);
    var x5 := With(x4, 1, RESUME, ResumeHost(OLD, false, PLAN, 0));
    events := Play(w, x4, events, Act(1, Calm()), x5);
    ResumeLaunches(x5);
    events := Play(w, x5, events, Act(1, Calm()), Launched(x5));
  }

  function Recorded(w: World): World {
    With(w, 1, RESUME, ResumeAttaching(OLD, false)).(store := Continuity(1, [LINK]))
  }

  lemma FirstRecord(link: Link)
    requires ValidLink(link)
    ensures Record(Continuity(0, []), 0, link) == RecordOutcome(Continuity(1, [link]), Success(()))
  {
    var none: seq<Link> := [];
    hide Competes;
    assert FindCommand(none, link.command) == None;
    assert none + [link] == [link];
  }

  lemma FirstLink()
    ensures LinkFor(RESUME, 0, 1) == LINK
    ensures Record(Continuity(0, []), 0, LINK) == RecordOutcome(Continuity(1, [LINK]), Success(()))
  {
    hide Record;
    FirstRecord(LINK);
  }

  lemma ResumeRecords(w: World)
    requires OnShelf(w) && At(w, ResumeRecord(OLD, false, PLAN, 0))
    ensures Next(w, Act(1, Calm())) == Recorded(w)
  {
    FirstLink();
    hide Record, LinkFor;
  }

  function Attached(w: World): World {
    With(w, 1, RESUME, ResumeLive(OLD, false, ATTACHED)).(
      versions := w.versions + [Document(1, map[1 := SOURCE, 9 := ATTACHED])], authors := w.authors + [Process(1)])
  }

  lemma ResumeAttaches(w: World)
    requires w.versions == [SHELF] && At(w, ResumeAttaching(OLD, false))
    ensures Next(w, Act(1, Calm())) == Attached(w)
  {
    assert map[1 := SOURCE, 9 := OLD][9 := ATTACHED] == map[1 := SOURCE, 9 := ATTACHED];
  }

  lemma ResumeAnswers(w: World)
    requires w.versions != [] && w.Doc() == Document(1, map[1 := SOURCE, 9 := ATTACHED])
    requires At(w, ResumeLive(OLD, false, ATTACHED))
    ensures At(Next(w, Act(1, Calm())), Done(Success(Resumed(OLD, false, ATTACHED, LIVING))))
    ensures Next(w, Act(1, Calm())).store == w.store
  {
  }

  /**
   A confirmed resume whose replacement id already names an Offline record: it is handed that record, launches a Host
   for it, records the link and answers success, and no Provisioning step was its own. A retry of a resume whose
   abort could not stop its Host meets exactly such a record.
   */
  lemma ResumeMayReuseARecord() returns (w: World, events: seq<Event>)
    ensures Initial(w)
    ensures var x := Run(w, events);
            && At(x, Done(Success(Resumed(OLD, false, ATTACHED, LIVING))))
            && Linked(x, RESUME) && OLD.lifecycle.Offline? && 9 in w.Doc().sessions && w.Doc().sessions[9] == OLD
  {
    hide ProcStep, Install;
    w, events := ResumeGetsReady();
    var x := Run(w, events);
    ResumeRecords(x);
    events := Play(w, x, events, Act(1, Calm()), Recorded(x));
    ResumeAttaches(Recorded(x));
    events := Play(w, Recorded(x), events, Act(1, Calm()), Attached(Recorded(x)));
    ResumeAnswers(Attached(Recorded(x)));
    events := Play(w, Attached(Recorded(x)), events, Act(1, Calm()), Next(Attached(Recorded(x)), Act(1, Calm())));
    assert LINK in Run(w, events).store.links;
  }

  // ---- a link whose resume failed ----

  /** The store call answers an error after its file was replaced. */
  function Landed(): Env { Calm().(fault := true, landed := true) }

  function Aborting(w: World): World {
    With(w, 1, RESUME, AbortStop(OLD, Failed, CommandError.Conflict)).(store := Continuity(1, [LINK]))
  }

  lemma ResumeRecordFails(w: World)
    requires OnShelf(w) && At(w, ResumeRecord(OLD, false, PLAN, 0))
    ensures Next(w, Act(1, Landed())) == Aborting(w)
  {
    FirstLink();
    hide Record, LinkFor;
  }

  lemma ResumeAborts(w: World)
    requires OnShelf(w.(store := Continuity(0, []))) && At(w, AbortStop(OLD, Failed, CommandError.Conflict))
    ensures Next(w, Act(1, Calm())) ==
            With(w, 1, RESUME, Close(OLD, Failed, CommandError.Conflict))
              .(stops := w.stops + {StopRequest(1, 9, Some(1))})
  {
  }

  lemma ResumeCloses(w: World)
    requires OnShelf(w.(store := Continuity(0, []))) && At(w, Close(OLD, Failed, CommandError.Conflict))
    ensures At(Next(w, Act(1, Calm())), Done(Failure(CommandError.Conflict)))
    ensures Next(w, Act(1, Calm())).store == w.store && Next(w, Act(1, Calm())).stops == w.stops
  {
  }

  /** The link can stand although its resume answered an error and had its Host stopped. */
  lemma LinkMayOutliveItsResume() returns (w: World, events: seq<Event>)
    ensures Initial(w)
    ensures var x := Run(w, events);
            At(x, Done(Failure(CommandError.Conflict))) && Linked(x, RESUME) && StopSent(x, 1, RESUME)
  {
    hide ProcStep, Install;
    w, events := ResumeGetsReady();
    var x := Run(w, events);
    ResumeRecordFails(x);
    var x1 := Aborting(x);
    events := Play(w, x, events, Act(1, Landed()), x1);
    ResumeAborts(x1);
    var x2 := With(x1, 1, RESUME, Close(OLD, Failed, CommandError.Conflict))
      .(stops := x1.stops + {StopRequest(1, 9, Some(1))});
    events := Play(w, x1, events, Act(1, Calm()), x2);
    ResumeCloses(x2);
    events := Play(w, x2, events, Act(1, Calm()), Next(x2, Act(1, Calm())));
    assert LINK in Run(w, events).store.links;
  }

  const PINNED := SOURCE.(pinned := true, revision := 1)

  function Disturbed(w: World): World {
    w.(versions := w.versions + [Document(1, map[1 := PINNED, 9 := OLD])], authors := w.authors + [Outside])
  }

  lemma SourceIsPinned(w: World)
    requires w.versions == [SHELF]
    ensures Next(w, OutsideMutate(1, SetPinned(true), 0)) == Disturbed(w)
  {
    assert map[1 := SOURCE, 9 := OLD][1 := PINNED] == map[1 := PINNED, 9 := OLD];
  }

  lemma ResumeIsHeldBack(w: World)
    requires w.versions != [] && w.Doc() == Document(1, map[1 := PINNED, 9 := OLD])
    requires At(w, ResumeAttaching(OLD, false))
    ensures Next(w, Act(1, Calm())) == With(w, 1, RESUME, Done(Failure(CommandError.Store(Stale(1)))))
  {
  }

  /**
   A link whose resume failed without any store fault: another session is pinned between the link call and the
   Attaching call, which is refused as stale. The Host is ready and nobody was told to stop it.
   */
  lemma ResumeMayLeaveItsHost() returns (w: World, events: seq<Event>)
    ensures Initial(w)
    ensures var x := Run(w, events);
            && At(x, Done(Failure(CommandError.Store(Stale(1))))) && Linked(x, RESUME)
            && 1 in x.ready && !StopSent(x, 1, RESUME)
  {
    hide ProcStep, Install;
    w, events := ResumeGetsReady();
    var x := Run(w, events);
    ResumeRecords(x);
    events := Play(w, x, events, Act(1, Calm()), Recorded(x));
    SourceIsPinned(Recorded(x));
    var x1 := Disturbed(Recorded(x));
    events := Play(w, Recorded(x), events, OutsideMutate(1, SetPinned(true), 0), x1);
    ResumeIsHeldBack(x1);
    events := Play(w, x1, events, Act(1, Calm()),
      With(x1, 1, RESUME, Done(Failure(CommandError.Store(Stale(1))))));
    assert LINK in Run(w, events).store.links;
  }
}
