/**
 What a success answer of a session command means (crates/multiplex-cli/src/local.rs): at the moment it is given, the
 repository holds the answered record, it is the session asked for, and the effect asked for is in it.
 */
module SessionAnswers {
  import opened Wrappers
  import opened SessionDomain
  import opened SessionStore
  import opened Continuity
  import opened Orchestration
  import opened OrchestrationInvariant
  import SessionOrigins
  import SessionTheorems

  /** The effect of a mutation, as its caller understands it. */
  predicate Achieved(m: Mutation, s: Session) {
    match m
    case Rename(title) => s.title == title
    case SetPinned(pinned) => s.pinned == pinned
    case MarkRead(through) => s.readThrough >= Min(through, s.lastOutput)
    case MarkUnread(at) => s.unread == Some(at) && s.readThrough < at
    case ObserveOutput(through) => s.lastOutput >= through
    case SetActivity(activity) => s.activity == activity
    case ApplyActivity(activity, visible) => s.activity == activity
    case SetLifecycle(lifecycle) => s.lifecycle == lifecycle
    case Reconcile(lifecycle, activity, through) =>
      s.lifecycle == lifecycle && s.activity == activity && s.lastOutput >= through
    case ArchiveAt(_) => s.archivedAt.Some? && s.lifecycle.Exited?
    case Restore => s.archivedAt.None?
    case ApplyAutomaticTitle(title) => s.titleSource.Default? ==> s.title == title
  }

  /** Whatever the store answers with, the effect is there, also when there was nothing to change. */
  lemma MutateAchieves(d: Document, id: nat, expected: nat, m: Mutation, now: nat)
    requires ValidDocument(d)
    ensures var o := Mutate(d, id, expected, m, now);
            o.result.Success? ==>
              && Achieved(m, o.result.value) && o.result.value.id == id
              && id in o.doc.sessions && o.doc.sessions[id] == o.result.value
  {
    if id in d.sessions { assert ValidSession(d.sessions[id]); }
  }

  predicate Unconfirmed(c: Command) { (c.StopCommand? || c.ResumeCommand?) && !c.confirmed }

  /** An unconfirmed command only looks. */
  predicate OnlyLooks(c: Command, pc: Pc) {
    pc.Begin? || pc.Done? || (c.ResumeCommand? && pc.ResumeRecheck?)
  }

  /** The plan of a resume before its first write. */
  function Plan(pc: Pc): Option<Prepared> {
    match pc
    case ResumeRecheck(prepared) => Some(prepared)
    case ResumeConfirm(prepared) => Some(prepared)
    case ResumeLinks(prepared) => Some(prepared)
    case ResumeCreate(prepared, _) => Some(prepared)
    case _ => None
  }

  /** The plan's snapshot shows the source unarchived, with a preset, and at the reviewed revision. */
  predicate PlanReviewed(c: Command, plan: Prepared)
    requires c.ResumeCommand?
  {
    && c.source in plan.snapshot.sessions && plan.snapshot.sessions[c.source] == plan.source
    && plan.source.archivedAt.None? && plan.source.preset.Some?
    && ReviewedRevision(plan.source, c.expected)
  }

  /** What the control point of a command knows about its session, whatever the stores do meanwhile. */
  predicate Intent(c: Command, pc: Pc) {
    && (Unconfirmed(c) ==> OnlyLooks(c, pc))
    && (c.ResumeCommand? && Plan(pc).Some? ==> PlanReviewed(c, Plan(pc).value))
    && match pc
    case Commit(_, m) =>
      (match c
       case ArchiveCommand(_, _, _) => m.ArchiveAt?
       case RestoreCommand(_, _, _) => m.Restore?
       case MetadataCommand(_, _, mutation) => m == mutation
       case MarkReadCommand(_, _) => m.MarkRead?
       case _ => true)
    case StopSend(stopping, _, _) => c.StopCommand? ==> stopping.id == c.id
    case StopClose(stopping, _) => c.StopCommand? ==> stopping.id == c.id
    case LaunchHost(created, _) => c.LaunchCommand? ==> created.id == c.id
    case LaunchAttaching(created) => c.LaunchCommand? ==> created.id == c.id
    case LaunchLive(attaching) => c.LaunchCommand? ==> attaching.id == c.id && attaching.lifecycle.Attaching?
    case _ => true
  }

  /** What a success answer given at a control point promises of the record. */
  predicate Promise(c: Command, pc: Pc, s: Session) {
    match c
    case StopCommand(_, _, _, _) => s.lifecycle.Exited?
    case ArchiveCommand(_, _, _) => s.archivedAt.Some? && s.lifecycle.Exited?
    case RestoreCommand(_, _, _) => s.archivedAt.None?
    case MetadataCommand(_, _, mutation) => Achieved(mutation, s)
    case MarkReadCommand(_, _) => if pc.Commit? then Achieved(pc.mutation, s) else !s.HasUnread()
    case LaunchCommand(_, requested, preset, group, _) =>
      if pc.Begin? then requested && s.preset == Some(preset) && s.group == group else s.lifecycle.Live?
    case ResumeCommand(_, _, _, _, _) => true
  }

  /** The promise of one step. */
  predicate Kept(p: Proc, eff: Effect) {
    eff.pc.Done? && eff.pc.result.Success? && eff.pc.result.value.Mutated? && !p.pc.Done? ==>
      var s := eff.pc.result.value.session;
      && !p.command.ResumeCommand? && s.id == p.command.id && Promise(p.command, p.pc, s)
      && s.id in eff.doc.sessions && eff.doc.sessions[s.id] == s
  }

  lemma BeginStep(p: Proc, pid: nat, doc: Document, store: Continuity, env: Env)
    requires ValidDocument(doc) && p.pc.Begin?
    ensures var eff := ProcStep(p, pid, doc, store, env); Intent(p.command, eff.pc) && Kept(p, eff)
  {
    hide StopStep, LaunchStep, ResumeStep, MutationStep, CommitStep;
    if !p.command.ResumeCommand? && p.command.id in doc.sessions { assert ValidSession(doc.sessions[p.command.id]); }
  }

  lemma StopAnswers(p: Proc, pid: nat, doc: Document, store: Continuity, env: Env)
    requires ValidDocument(doc) && p.command.StopCommand? && !p.pc.Begin? && Intent(p.command, p.pc)
    ensures var eff := StopStep(p.command, pid, p.pc, doc, store, env); Intent(p.command, eff.pc) && Kept(p, eff)
  {
    hide Mutate, ValidDocument, CommitStep;
    match p.pc
    case StopCommit(revision, _) => MutateAchieves(doc, p.command.id, revision, SetLifecycle(Stopping), env.now);
    case StopClose(stopping, _) => MutateAchieves(doc, stopping.id, stopping.revision, SetLifecycle(Exited), env.now);
    case _ =>
  }

  lemma MutationAnswers(p: Proc, doc: Document, store: Continuity, env: Env)
    requires p.command.ArchiveCommand? || p.command.RestoreCommand? || p.command.MetadataCommand?
        || p.command.MarkReadCommand?
    requires ValidDocument(doc) && !p.pc.Begin? && Intent(p.command, p.pc)
    ensures var eff := MutationStep(p.command, p.pc, doc, store, env); Intent(p.command, eff.pc) && Kept(p, eff)
  {
    hide Mutate, ValidDocument, CommitStep;
    if p.pc.Commit? { MutateAchieves(doc, p.command.id, p.pc.revision, p.pc.mutation, env.now); }
  }

  lemma LaunchAnswers(p: Proc, pid: nat, doc: Document, store: Continuity, env: Env)
    requires ValidDocument(doc) && p.command.LaunchCommand? && !p.pc.Begin? && Intent(p.command, p.pc)
    ensures var eff := LaunchStep(p.command, pid, p.pc, doc, store, env); Intent(p.command, eff.pc) && Kept(p, eff)
  {
    hide Mutate, Create, ValidDocument, CommitStep;
    var c := p.command;
    match p.pc
    case LaunchCreate(snapshot) =>
      CreateContract(doc, NewSession(c.id, c.group, Some(c.preset), c.title, Default, false, env.now),
        snapshot.revision);
    case LaunchAttaching(created) =>
      MutateAchieves(doc, created.id, created.revision, SetLifecycle(Attaching), env.now);
    case LaunchLive(attaching) => MutateAchieves(doc, attaching.id, attaching.revision, SetLifecycle(Live), env.now);
    case _ =>
  }

  lemma ResumeAnswers(p: Proc, pid: nat, doc: Document, store: Continuity, env: Env)
    requires p.command.ResumeCommand? && !p.pc.Begin? && Intent(p.command, p.pc)
    ensures var eff := ResumeStep(p.command, pid, p.pc, doc, store, env); Intent(p.command, eff.pc) && Kept(p, eff)
  {
    hide Mutate, Create, Record, SetTo;
  }

  lemma StepAnswers(p: Proc, pid: nat, doc: Document, store: Continuity, env: Env)
    requires ValidDocument(doc) && Intent(p.command, p.pc)
    ensures var eff := ProcStep(p, pid, doc, store, env); Intent(p.command, eff.pc) && Kept(p, eff)
  {
    hide Intent, Kept, ValidDocument, StopStep, LaunchStep, ResumeStep, MutationStep, StopBegin, LaunchBegin,
        ResumeBegin, MutationBegin;
    if p.pc.Begin? { BeginStep(p, pid, doc, store, env); }
    else if p.command.StopCommand? { StopAnswers(p, pid, doc, store, env); }
    else if p.command.LaunchCommand? { LaunchAnswers(p, pid, doc, store, env); }
    else if p.command.ResumeCommand? { ResumeAnswers(p, pid, doc, store, env); }
    else { MutationAnswers(p, doc, store, env); }
  }

  predicate Intents(x: World) {
    forall pid :: pid in x.procs ==> Intent(x.procs[pid].command, x.procs[pid].pc)
  }

  lemma NextKeepsIntents(x: World, e: Event)
    requires Inv(x) && Intents(x)
    ensures Intents(Next(x, e))
  {
    SessionOrigins.BaseHolds(x);
    NextChangesOneProc(x, e);
    BeginIntends();
    hide Intent, Inv, Next, ProcStep;
    if e.Act? && e.pid in x.procs { StepAnswers(x.procs[e.pid], e.pid, x.Doc(), x.store, e.env); }
  }

  lemma {:induction false} RunKeepsIntent(w: World, events: seq<Event>)
    requires Initial(w)
    ensures Intents(Run(w, events))
    decreases |events|
  {
    hide Intent, Inv, Next;
    if events != [] {
      RunKeepsIntent(w, events[..|events| - 1]);
      RunKeepsInv(w, events[..|events| - 1]);
      NextKeepsIntents(Run(w, events[..|events| - 1]), events[|events| - 1]);
    }
  }

  lemma BeginIntends()
    ensures forall c :: Intent(c, Begin)
  {
  }

  lemma NextChangesOneProc(x: World, e: Event)
    requires x.versions != []
    ensures forall pid :: pid in Next(x, e).procs ==>
              || (pid in x.procs && Next(x, e).procs[pid] == x.procs[pid])
              || (e.Start? && e.pid == pid && Next(x, e).procs[pid] == Proc(e.command, Begin))
              || (e.Act? && e.pid == pid && pid in x.procs && Next(x, e).procs[pid]
                    == Proc(x.procs[pid].command, ProcStep(x.procs[pid], pid, x.Doc(), x.store, e.env).pc))
  {
    hide ProcStep, Mutate, Create, Remove, Record;
  }

  lemma LookingChangesNothing(p: Proc, pid: nat, doc: Document, store: Continuity, env: Env)
    requires Unconfirmed(p.command) && OnlyLooks(p.command, p.pc)
    ensures var eff := ProcStep(p, pid, doc, store, env);
            eff.doc == doc && eff.store == store && eff.launched.None? && eff.stop.None? && !eff.ready
  {
    hide Mutate, Create, Record, SetTo;
  }

  /** In every run a stop or resume that was not confirmed commits nothing, launches nothing and stops nothing. */
  lemma UnconfirmedTouchesNothing(w: World, events: seq<Event>, pid: nat, env: Env)
    requires Initial(w) && pid in Run(w, events).procs && Unconfirmed(Run(w, events).procs[pid].command)
    ensures var x := Run(w, events);
            Next(x, Act(pid, env)) == x.(procs := Next(x, Act(pid, env)).procs)
  {
    RunKeepsIntent(w, events);
    hide Run, ProcStep, Intents;
    var x := Run(w, events);
    assert Intent(x.procs[pid].command, x.procs[pid].pc) by { IntentOf(x, pid); }
    LookingChangesNothing(x.procs[pid], pid, x.Doc(), x.store, env);
  }

  lemma IntentOf(x: World, pid: nat)
    requires Intents(x) && pid in x.procs
    ensures Intent(x.procs[pid].command, x.procs[pid].pc)
  {
    hide Intent;
  }

  /** Every plan's snapshot is a version the repository has had. */
  predicate PlansAreLoaded(x: World) {
    forall pid :: pid in x.procs && Plan(x.procs[pid].pc).Some? ==> Plan(x.procs[pid].pc).value.snapshot in x.versions
  }

  lemma PlanComesFromHere(p: Proc, pid: nat, doc: Document, store: Continuity, env: Env)
    ensures var plan := Plan(ProcStep(p, pid, doc, store, env).pc);
            plan.Some? ==> plan == Plan(p.pc) || plan.value.snapshot == doc
  {
    hide Mutate, Create, Record, SetTo;
  }

  lemma VersionsGrow(x: World, e: Event)
    requires x.versions != []
    ensures x.versions <= Next(x, e).versions
  {
    hide ProcStep, Mutate, Create, Remove, Record;
  }

  lemma NextKeepsPlans(x: World, e: Event)
    requires x.versions != [] && PlansAreLoaded(x)
    ensures PlansAreLoaded(Next(x, e))
  {
    NextChangesOneProc(x, e);
    VersionsGrow(x, e);
    if e.Act? && e.pid in x.procs { PlanComesFromHere(x.procs[e.pid], e.pid, x.Doc(), x.store, e.env); }
    hide Next, ProcStep;
    assert x.Doc() in x.versions;
    forall d | d in x.versions ensures d in Next(x, e).versions {
      var i :| 0 <= i < |x.versions| && x.versions[i] == d;
      assert Next(x, e).versions[i] == d;
    }
  }

  lemma {:induction false} RunKeepsPlans(w: World, events: seq<Event>)
    requires Initial(w)
    ensures PlansAreLoaded(Run(w, events))
    decreases |events|
  {
    hide Next, PlansAreLoaded;
    if events == [] {
      NoPlans(w);
    } else {
      RunKeepsPlans(w, events[..|events| - 1]);
      NextKeepsPlans(Run(w, events[..|events| - 1]), events[|events| - 1]);
    }
  }

  lemma NoPlans(w: World)
    requires Initial(w)
    ensures PlansAreLoaded(w)
  {
  }

  /**
   A resume that creates its successor does so on the very document it reviewed: the source is still unarchived and
   at the expected revision, and the successor is made from that record.
   */
  lemma ResumeMeetsReview(w: World, events: seq<Event>, pid: nat, env: Env)
    requires Initial(w)
    requires var x := Run(w, events);
             && pid in x.procs && x.procs[pid].command.ResumeCommand? && x.procs[pid].pc.ResumeCreate?
             && Next(x, Act(pid, env)).versions != x.versions
    ensures var x := Run(w, events);
            var c, plan := x.procs[pid].command, x.procs[pid].pc.prepared;
            && plan.snapshot == x.Doc() && PlanReviewed(c, plan)
            && c.replacement !in x.Doc().sessions && c.replacement in Next(x, Act(pid, env)).Doc().sessions
  {
    assert w.versions != [];
    hide *;
    RunKeepsIntent(w, events);
    RunKeepsPlans(w, events);
    RunKeepsInv(w, events);
    ResumeMeetsReviewIn(Run(w, events), pid, env);
  }

  lemma ResumeMeetsReviewIn(x: World, pid: nat, env: Env)
    requires Inv(x) && Intents(x) && PlansAreLoaded(x) && x.versions != []
    requires pid in x.procs && x.procs[pid].command.ResumeCommand? && x.procs[pid].pc.ResumeCreate?
    requires Next(x, Act(pid, env)).versions != x.versions
    ensures var c, plan := x.procs[pid].command, x.procs[pid].pc.prepared;
            && plan.snapshot == x.Doc() && PlanReviewed(c, plan)
            && c.replacement !in x.Doc().sessions && c.replacement in Next(x, Act(pid, env)).Doc().sessions
  {
    var plan := x.procs[pid].pc.prepared;
    IntentOf(x, pid);
    SessionOrigins.BaseHolds(x);
    hide Inv, Intents, History, ValidDocument, CommitStep, PlanReviewed, Next;
    CreationIsCurrent(x, pid, env);
    assert plan.snapshot in x.versions && x.Doc() in x.versions;
    SessionTheorems.RevisionIdentifies(x.versions, plan.snapshot, x.Doc());
  }

  lemma CreationIsCurrent(x: World, pid: nat, env: Env)
    requires x.versions != [] && ValidDocument(x.Doc())
    requires pid in x.procs && x.procs[pid].command.ResumeCommand? && x.procs[pid].pc.ResumeCreate?
    requires Next(x, Act(pid, env)).versions != x.versions
    ensures var c := x.procs[pid].command;
            && x.procs[pid].pc.prepared.snapshot.revision == x.Doc().revision
            && c.replacement !in x.Doc().sessions && c.replacement in Next(x, Act(pid, env)).Doc().sessions
  {
    var c, plan := x.procs[pid].command, x.procs[pid].pc.prepared;
    hide ValidDocument, CommitStep, Create;
    CreateContract(x.Doc(), Successor(plan.source, c.replacement, env.now), plan.snapshot.revision);
  }

  /**
   In every run: when a command's step answers with a session, it is the session the command names, the repository
   holds exactly that record at that moment, and the effect asked for is in it.
   */
  lemma AnswerMeansDone(w: World, events: seq<Event>, pid: nat, env: Env)
    requires Initial(w) && pid in Run(w, events).procs
    ensures var x := Run(w, events); Kept(x.procs[pid], ProcStep(x.procs[pid], pid, x.Doc(), x.store, env))
    ensures var x := Run(w, events);
            Next(x, Act(pid, env)).Doc() == ProcStep(x.procs[pid], pid, x.Doc(), x.store, env).doc
  {
    assert w.versions != [];
    hide *;
    RunKeepsIntent(w, events);
    RunKeepsInv(w, events);
    AnswerIn(Run(w, events), pid, env);
  }

  lemma AnswerIn(x: World, pid: nat, env: Env)
    requires Inv(x) && Intents(x) && pid in x.procs && x.versions != []
    ensures Kept(x.procs[pid], ProcStep(x.procs[pid], pid, x.Doc(), x.store, env))
    ensures Next(x, Act(pid, env)).Doc() == ProcStep(x.procs[pid], pid, x.Doc(), x.store, env).doc
  {
    hide Intent, Kept, Inv, ProcStep;
    SessionOrigins.BaseHolds(x);
    StepAnswers(x.procs[pid], pid, x.Doc(), x.store, env);
  }
}
