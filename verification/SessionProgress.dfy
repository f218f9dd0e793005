/**
 When the session commands go on (crates/multiplex-cli/src/local.rs). In every run, a step of a command goes on
 exactly when none of the things that may object to it does, and it carries over what it has read; otherwise the
 command ends with the first objection.
 */
module SessionProgress {
  import opened Wrappers
  import opened SessionDomain
  import opened SessionStore
  import opened Continuity
  import opened Orchestration
  import opened OrchestrationInvariant
  import opened SessionOrigins

  /** A world that some run comes to. */
  ghost predicate Reachable(x: World) {
    exists w: World, events: seq<Event> :: Initial(w) && Run(w, events) == x
  }

  lemma ReachableFacts(x: World)
    requires Reachable(x)
    ensures Inv(x) && x.versions != [] && ValidDocument(x.Doc()) && x.Doc().revision <= U64_MAX
  {
    var w: World, events: seq<Event> :| Initial(w) && Run(w, events) == x;
    RunKeepsInv(w, events);
    hide Run, Inv, Initial;
    BaseHolds(x);
  }

  /** A run has come to x, where command `pid` stands at `pc`. */
  ghost predicate At(x: World, pid: nat, c: Command, pc: Pc) {
    x.versions != [] && Reachable(x) && pid in x.procs && x.procs[pid] == Proc(c, pc)
  }

  /** Its next step leads to control point `pc`, with `doc` in the repository. */
  predicate Leads(x: World, pid: nat, env: Env, pc: Pc, doc: Document)
    requires x.versions != []
  {
    var after := Next(x, Act(pid, env));
    pid in after.procs && after.procs[pid].pc == pc && after.Doc() == doc
  }

  /** That step asks the Host of no session to stop, or for this. */
  predicate Sends(x: World, pid: nat, env: Env, stop: Option<StopRequest>)
    requires x.versions != []
  {
    Next(x, Act(pid, env)).stops == x.stops + if stop.Some? then {stop.value} else {}
  }

  /** That step calls no launcher, or makes this call. */
  predicate Launches(x: World, pid: nat, env: Env, call: Option<LaunchCall>)
    requires x.versions != []
  {
    Next(x, Act(pid, env)).launches == x.launches + if call.Some? then [call.value] else []
  }

  /** The step at hand, as what ProcStep makes of the document and the links. */
  lemma StepLeads(x: World, pid: nat, c: Command, pc: Pc, env: Env)
    requires x.versions != [] && pid in x.procs && x.procs[pid] == Proc(c, pc)
    ensures var eff := ProcStep(Proc(c, pc), pid, x.Doc(), x.store, env);
            && Leads(x, pid, env, eff.pc, eff.doc) && Sends(x, pid, env, eff.stop)
            && Launches(x, pid, env, eff.launched) && Next(x, Act(pid, env)).store == eff.store
  {
    hide ProcStep;
  }

  lemma RunStep(x: World, pid: nat, c: Command, pc: Pc, env: Env)
    requires At(x, pid, c, pc)
    ensures x.Doc().revision <= U64_MAX
    ensures var eff := ProcStep(Proc(c, pc), pid, x.Doc(), x.store, env);
            && Leads(x, pid, env, eff.pc, eff.doc) && Sends(x, pid, env, eff.stop)
            && Launches(x, pid, env, eff.launched) && Next(x, Act(pid, env)).store == eff.store
  {
    ReachableFacts(x);
    hide Reachable, ProcStep, Next, Inv, ValidDocument;
    StepLeads(x, pid, c, pc, env);
  }

  // ---- store calls ----

  /** Why this record's lifecycle cannot be set: it is gone, the move is illegal, or the revision is not current. */
  function SetRefusal(doc: Document, id: nat, revision: nat, to: Lifecycle): Option<StoreError> {
    if id !in doc.sessions then Some(Unavailable)
    else
      var now := doc.sessions[id].lifecycle;
      if now == to then None
      else if !LegalTransition(now, to) then Some(Refused(InvalidLifecycleTransition(now, to)))
      else if revision != doc.revision then Some(Stale(doc.revision))
      else if revision == U64_MAX then Some(RevisionOverflow)
      else None
  }

  /** The error a lifecycle call answers, if any. */
  function SetError(env: Env, doc: Document, id: nat, revision: nat, to: Lifecycle): Option<StoreError> {
    if env.fault then Some(Fault) else SetRefusal(doc, id, revision, to)
  }

  /** The document after it: an error may be answered after the write. */
  function SetDoc(env: Env, doc: Document, id: nat, revision: nat, to: Lifecycle): Document {
    if SetRefusal(doc, id, revision, to).Some? || (env.fault && !env.landed) then doc
    else if doc.sessions[id].lifecycle == to then doc
    else
      var moved := doc.sessions[id].(lifecycle := to, revision := doc.revision + 1, updatedAt := env.now);
      Document(doc.revision + 1, doc.sessions[id := moved])
  }

  lemma SetToMeans(env: Env, doc: Document, id: nat, revision: nat, to: Lifecycle)
    ensures var o := SetTo(env, doc, id, revision, to);
            && o.doc == SetDoc(env, doc, id, revision, to)
            && match SetError(env, doc, id, revision, to)
               case Some(error) => o.result == Failure(error)
               case None => id in o.doc.sessions && o.result == Success(o.doc.sessions[id])
  {
  }

  /** Why that session cannot be created; one that is there already is simply handed over. */
  function CreateRefusal(doc: Document, id: nat, revision: nat): Option<StoreError> {
    if id in doc.sessions then None
    else if revision != doc.revision then Some(Stale(doc.revision))
    else if |doc.sessions| >= MAX_SESSIONS then Some(ResourceLimit)
    else if revision == U64_MAX then Some(RevisionOverflow)
    else None
  }

  function CreateError(env: Env, doc: Document, id: nat, revision: nat): Option<StoreError> {
    if env.fault then Some(Fault) else CreateRefusal(doc, id, revision)
  }

  /** The document after the call: an error may be answered after the write. */
  function CreateDoc(env: Env, doc: Document, s: Session, revision: nat): Document {
    if s.id in doc.sessions || CreateRefusal(doc, s.id, revision).Some? || (env.fault && !env.landed) then doc
    else Document(doc.revision + 1, doc.sessions[s.id := s.(revision := doc.revision + 1)])
  }

  lemma CreateMeans(env: Env, doc: Document, s: Session, revision: nat)
    ensures var o := Faulty(env, doc, Create(doc, s, revision));
            && o.doc == CreateDoc(env, doc, s, revision)
            && match CreateError(env, doc, s.id, revision)
               case Some(error) => o.result == Failure(error)
               case None => s.id in o.doc.sessions && o.result == Success(o.doc.sessions[s.id])
  {
  }

  // ---- resume ----

  predicate ResumeEarly(pc: Pc) {
    pc.Begin? || pc.ResumeRecheck? || pc.ResumeConfirm? || pc.ResumeLinks?
  }

  /** What objects to an early step of a resume, if anything does. */
  function ResumeObjection(c: Command, pc: Pc, doc: Document, store: Continuity, env: Env): Option<CommandError>
    requires c.ResumeCommand? && ResumeEarly(pc)
  {
    if pc.Begin? && c.confirmed != c.expected.Some? then Some(InteractionRequired)
    else if pc.ResumeLinks? then
      if env.fault || env.refused || HasSuccessor(store, c.source) then Some(CommandError.Conflict) else None
    else if env.cancelled then Some(CancelledByUser)
    else if env.fault then Some(Store(Fault))
    else if pc.Begin? then PlanObjection(c, doc, env)
    else if doc.revision != pc.prepared.snapshot.revision || env.othersChanged then Some(CommandError.Conflict)
    else if pc.ResumeRecheck? && env.refused then Some(CommandError.Conflict)
    else None
  }

  predicate HasSuccessor(store: Continuity, source: nat) {
    exists link :: link in store.links && link.source == source
  }

  function PlanObjection(c: Command, doc: Document, env: Env): Option<CommandError>
    requires c.ResumeCommand?
  {
    if c.source !in doc.sessions then Some(Missing)
    else
      var source := doc.sessions[c.source];
      if source.archivedAt.Some? then Some(Validation)
      else if c.expected.Some? && c.expected.value != source.revision then Some(CommandError.Conflict)
      else if source.preset.None? || env.refused || env.generation >= U64_MAX then Some(Validation)
      else None
  }

  /** Where an early step leads that meets no objection, with what it has read. */
  function ResumeGoal(c: Command, pc: Pc, doc: Document, store: Continuity, env: Env): Pc
    requires c.ResumeCommand? && ResumeEarly(pc) && (pc.Begin? ==> c.source in doc.sessions)
  {
    match pc
    case Begin => ResumeRecheck(Prepared(doc.sessions[c.source], doc, env.generation))
    case ResumeRecheck(prepared) => if c.confirmed then ResumeConfirm(prepared) else Done(Success(ResumePreview))
    case ResumeConfirm(prepared) => ResumeLinks(prepared)
    case ResumeLinks(prepared) => ResumeCreate(prepared, store.revision)
  }

  /** An early step of a resume goes on iff nothing objects to it, and changes nothing either way. */
  lemma ResumeGoesOnIff(x: World, pid: nat, c: Command, pc: Pc, env: Env)
    requires At(x, pid, c, pc) && c.ResumeCommand? && ResumeEarly(pc)
    ensures var objection := ResumeObjection(c, pc, x.Doc(), x.store, env);
            && (pc.Begin? && objection.None? ==> c.source in x.Doc().sessions)
            && var next := if objection.Some? then Done(Failure(objection.value))
                           else ResumeGoal(c, pc, x.Doc(), x.store, env);
               Leads(x, pid, env, next, x.Doc()) && Sends(x, pid, env, None) && Launches(x, pid, env, None)
  {
    RunStep(x, pid, c, pc, env);
    hide At, Leads, Sends, Launches, Next;
    if pc.Begin? { ResumeBegins(c, x.Doc(), x.store, env); }
    else { ResumeEarlySteps(c, pid, pc, x.Doc(), x.store, env); }
  }

  lemma ResumeBegins(c: Command, doc: Document, store: Continuity, env: Env)
    requires c.ResumeCommand?
    ensures var objection := ResumeObjection(c, Begin, doc, store, env);
            && (objection.None? ==> c.source in doc.sessions)
            && ResumeBegin(c, doc, store, env).pc == if objection.Some? then Done(Failure(objection.value))
                                                      else ResumeGoal(c, Begin, doc, store, env)
  {
  }

  lemma ResumeEarlySteps(c: Command, pid: nat, pc: Pc, doc: Document, store: Continuity, env: Env)
    requires c.ResumeCommand? && ResumeEarly(pc) && !pc.Begin?
    ensures var objection := ResumeObjection(c, pc, doc, store, env);
            var eff := ProcStep(Proc(c, pc), pid, doc, store, env);
            && eff.pc == (if objection.Some? then Done(Failure(objection.value))
                          else ResumeGoal(c, pc, doc, store, env))
            && eff.doc == doc && eff.stop.None? && eff.launched.None?
  {
    hide Create, Record, SetTo, CleanupStep;
  }

  // ---- stop ----

  /** A stop of a session that has exited, asked for again by the management interface. */
  predicate StoppedAlready(c: Command, doc: Document)
    requires c.StopCommand?
  {
    c.requireExactHost && c.id in doc.sessions && doc.sessions[c.id].lifecycle.Exited?
  }

  function StopObjection(c: Command, doc: Document, env: Env): Option<CommandError>
    requires c.StopCommand?
  {
    if !c.confirmed then Some(Validation)
    else if env.cancelled then Some(CancelledByUser)
    else if env.fault then Some(Store(Fault))
    else if c.id !in doc.sessions then Some(Missing)
    else if StoppedAlready(c, doc) then None
    else
      var session := doc.sessions[c.id];
      if !(session.lifecycle in {Provisioning, Attaching, Replaying, Live, RecordingPaused, RunningAppAttached}) then
        Some(Validation)
      else if c.expected.Some? && c.expected.value != session.revision then Some(CommandError.Conflict)
      else if c.requireExactHost && env.hostMetadata.None? then Some(Missing)
      else None
  }

  /** A stop goes on to its Stopping call iff nothing objects and the session has not exited. */
  lemma StopBeginsIff(x: World, pid: nat, c: Command, env: Env)
    requires At(x, pid, c, Begin) && c.StopCommand?
    ensures var doc := x.Doc();
            && (match StopObjection(c, doc, env)
                case Some(error) => Leads(x, pid, env, Done(Failure(error)), doc)
                case None =>
                  && c.id in doc.sessions
                  && if StoppedAlready(c, doc) then Leads(x, pid, env, Done(Success(Mutated(doc.sessions[c.id]))), doc)
                     else Leads(x, pid, env,
                                StopCommit(doc.revision, if c.requireExactHost then env.hostMetadata else None), doc))
            && Sends(x, pid, env, None) && Launches(x, pid, env, None)
  {
    RunStep(x, pid, c, Begin, env);
    hide At, Leads, Sends, Launches, Next;
  }

  /** Where a stop's step leads past its first: on iff the store call, or the Host, agrees. */
  function StopGoal(c: Command, pc: Pc, doc: Document, after: Document, env: Env): Pc
    requires c.StopCommand? && (pc.StopCommit? || pc.StopSend? || pc.StopClose?)
    requires pc.StopCommit? && SetError(env, doc, c.id, pc.revision, Stopping).None? ==> c.id in after.sessions
    requires pc.StopClose? && SetError(env, doc, pc.stopping.id, pc.stopping.revision, Exited).None? ==>
               pc.stopping.id in after.sessions
  {
    match pc
    case StopCommit(revision, host) =>
      (match SetError(env, doc, c.id, revision, Stopping)
       case Some(error) => Done(Failure(Store(error)))
       case None => StopSend(after.sessions[c.id], after != doc, host))
    case StopSend(stopping, changed, _) =>
      if env.stop.Stopped? then StopClose(stopping, changed) else Done(Failure(OperationFailed))
    case StopClose(stopping, _) =>
      (match SetError(env, doc, stopping.id, stopping.revision, Exited)
       case Some(error) => Done(Failure(Store(error)))
       case None => Done(Success(Mutated(after.sessions[stopping.id]))))
  }

  lemma StopGoesOnIff(x: World, pid: nat, c: Command, pc: Pc, env: Env)
    requires At(x, pid, c, pc) && c.StopCommand? && (pc.StopCommit? || pc.StopSend? || pc.StopClose?)
    ensures var doc := x.Doc();
            var after := match pc
              case StopCommit(revision, _) => SetDoc(env, doc, c.id, revision, Stopping)
              case StopClose(stopping, _) => SetDoc(env, doc, stopping.id, stopping.revision, Exited)
              case _ => doc;
            && Leads(x, pid, env, StopGoal(c, pc, doc, after, env), after)
            && Sends(x, pid, env, if pc.StopSend? then Some(StopRequest(pid, c.id, pc.host)) else None)
            && Launches(x, pid, env, None)
  {
    RunStep(x, pid, c, pc, env);
    hide At, Leads, Sends, Launches, Next, SetTo;
    if pc.StopCommit? { SetToMeans(env, x.Doc(), c.id, pc.revision, Stopping); }
    if pc.StopClose? { SetToMeans(env, x.Doc(), pc.stopping.id, pc.stopping.revision, Exited); }
  }

  // ---- archive, restore, rename, pin and mark read ----

  predicate Mutates(c: Command) {
    c.ArchiveCommand? || c.RestoreCommand? || c.MetadataCommand? || c.MarkReadCommand?
  }

  /** The session is already as asked, and the command is one that may be repeated, or was reviewed on older data. */
  predicate DoneAlready(c: Command, session: Session)
    requires Mutates(c)
  {
    match c
    case ArchiveCommand(_, _, allowReplay) => allowReplay && session.archivedAt.Some?
    case RestoreCommand(_, _, allowReplay) => allowReplay && session.archivedAt.None?
    case MetadataCommand(_, reviewed, m) =>
      reviewed != session.revision
      && ((m.Rename? && session.title == m.title) || (m.SetPinned? && session.pinned == m.pinned))
    case MarkReadCommand(_, reviewed) =>
      reviewed != session.revision && (session.unread.None? || session.unread.value <= session.readThrough)
  }

  function MutationObjection(c: Command, doc: Document, env: Env): Option<CommandError>
    requires Mutates(c)
  {
    if env.fault then Some(Store(Fault))
    else if c.id !in doc.sessions then Some(Missing)
    else
      var session := doc.sessions[c.id];
      if DoneAlready(c, session) then None
      else if c.ArchiveCommand? && !session.lifecycle.Exited? then Some(Validation)
      else if Reviewed(c).Some? && Reviewed(c).value != session.revision then Some(CommandError.Conflict)
      else None
  }

  /** The mutation asked for, of the session as loaded. */
  function Asked(c: Command, session: Session, env: Env): Mutation
    requires Mutates(c)
  {
    match c
    case ArchiveCommand(_, _, _) => ArchiveAt(env.now)
    case RestoreCommand(_, _, _) => Restore
    case MetadataCommand(_, _, m) => m
    case MarkReadCommand(_, _) => MarkRead(session.lastOutput)
  }

  /** Such a command goes on to its commit, naming the revision it has loaded, iff nothing objects and there is need. */
  lemma MutationBeginsIff(x: World, pid: nat, c: Command, env: Env)
    requires At(x, pid, c, Begin) && Mutates(c)
    ensures var doc := x.Doc();
            && (match MutationObjection(c, doc, env)
                case Some(error) => Leads(x, pid, env, Done(Failure(error)), doc)
                case None =>
                  && c.id in doc.sessions
                  && var session := doc.sessions[c.id];
                     if DoneAlready(c, session) then Leads(x, pid, env, Done(Success(Mutated(session))), doc)
                     else Leads(x, pid, env, Commit(doc.revision, Asked(c, session, env)), doc))
            && Sends(x, pid, env, None) && Launches(x, pid, env, None)
  {
    RunStep(x, pid, c, Begin, env);
    hide At, Leads, Sends, Launches, Next, ProcStep;
    MutationBegins(c, pid, x.Doc(), x.store, env);
  }

  lemma MutationBegins(c: Command, pid: nat, doc: Document, store: Continuity, env: Env)
    requires Mutates(c)
    ensures var eff := ProcStep(Proc(c, Begin), pid, doc, store, env);
            && eff.doc == doc && eff.stop.None? && eff.launched.None?
            && (match MutationObjection(c, doc, env)
                case Some(error) => eff.pc == Done(Failure(error))
                case None =>
                  && c.id in doc.sessions
                  && var session := doc.sessions[c.id];
                     eff.pc == if DoneAlready(c, session) then Done(Success(Mutated(session)))
                               else Commit(doc.revision, Asked(c, session, env)))
  {
  }

  /** The commit answers what the store answers, and leaves what it leaves. */
  lemma MutationCommits(x: World, pid: nat, c: Command, pc: Pc, env: Env)
    requires At(x, pid, c, pc) && Mutates(c) && pc.Commit?
    ensures var o := Mutate(x.Doc(), c.id, pc.revision, pc.mutation, env.now);
            && (match o.result
                case Success(session) =>
                  if env.fault then
                    Leads(x, pid, env, Done(Failure(Store(Fault))), if env.landed then o.doc else x.Doc())
                  else Leads(x, pid, env, Done(Success(Mutated(session))), o.doc)
                case Failure(error) =>
                  Leads(x, pid, env, Done(Failure(Store(if env.fault then Fault else error))), x.Doc()))
            && Sends(x, pid, env, None) && Launches(x, pid, env, None)
  {
    RunStep(x, pid, c, pc, env);
    RefusedLeavesAlone(x.Doc(), c.id, pc.revision, pc.mutation, env.now);
    hide At, Leads, Sends, Launches, Next, Mutate;
  }

  lemma RefusedLeavesAlone(doc: Document, id: nat, revision: nat, m: Mutation, now: nat)
    ensures var o := Mutate(doc, id, revision, m, now); o.result.Failure? ==> o.doc == doc
  {
    hide Reduce;
  }

  // ---- launch ----

  /** A launch asked for again under an id that is taken. */
  predicate LaunchedAlready(c: Command, doc: Document)
    requires c.LaunchCommand?
  {
    c.requested && c.id in doc.sessions
  }

  function LaunchObjection(c: Command, doc: Document, env: Env): Option<CommandError>
    requires c.LaunchCommand?
  {
    if env.cancelled then Some(CancelledByUser)
    else if env.fault then Some(Store(Fault))
    else if LaunchedAlready(c, doc) then
      if doc.sessions[c.id].preset == Some(c.preset) && doc.sessions[c.id].group == c.group then None
      else Some(CommandError.Conflict)
    else if env.refused then Some(Validation)
    else None
  }

  lemma LaunchBeginsIff(x: World, pid: nat, c: Command, env: Env)
    requires At(x, pid, c, Begin) && c.LaunchCommand?
    ensures var doc := x.Doc();
            && (match LaunchObjection(c, doc, env)
                case Some(error) => Leads(x, pid, env, Done(Failure(error)), doc)
                case None =>
                  if LaunchedAlready(c, doc) then Leads(x, pid, env, Done(Success(Mutated(doc.sessions[c.id]))), doc)
                  else Leads(x, pid, env, LaunchCreate(doc), doc))
            && Sends(x, pid, env, None) && Launches(x, pid, env, None)
  {
    RunStep(x, pid, c, Begin, env);
    hide At, Leads, Sends, Launches, Next;
  }

  /** The session a launch creates: provisioning, with nothing read, nothing written and nothing pinned. */
  function LaunchedSession(c: Command, now: nat): Session
    requires c.LaunchCommand?
  {
    Session(c.id, c.group, Some(c.preset), c.title, Default, Provisioning, Activity(0, false, None), false, 0, 0, None,
            None, now, 0)
  }

  /** The create step of a launch. */
  lemma LaunchCreatesIff(x: World, pid: nat, c: Command, pc: Pc, env: Env)
    requires At(x, pid, c, pc) && c.LaunchCommand? && pc.LaunchCreate?
    ensures var doc := x.Doc();
            && (if env.othersChanged then Leads(x, pid, env, Done(Failure(CommandError.Conflict)), doc)
                else if env.refused then Leads(x, pid, env, Done(Failure(OperationFailed)), doc)
                else
                  var after := CreateDoc(env, doc, LaunchedSession(c, env.now), pc.snapshot.revision);
                  match CreateError(env, doc, c.id, pc.snapshot.revision)
                  case Some(error) => Leads(x, pid, env, Done(Failure(Store(error))), after)
                  case None =>
                    && c.id in after.sessions
                    && Leads(x, pid, env, LaunchHost(after.sessions[c.id], pc.snapshot), after))
            && Sends(x, pid, env, None) && Launches(x, pid, env, None)
  {
    RunStep(x, pid, c, pc, env);
    CreateMeans(env, x.Doc(), LaunchedSession(c, env.now), pc.snapshot.revision);
    hide At, Leads, Sends, Launches, Next, Create;
  }

  /** What a launch makes of its Host and of its two lifecycle calls. */
  function LaunchGoal(c: Command, pc: Pc, doc: Document, after: Document, env: Env): Pc
    requires c.LaunchCommand?
    requires pc.LaunchHost? || pc.LaunchAttaching? || pc.LaunchLive? || pc.LaunchReload?
    requires pc.LaunchAttaching? && SetError(env, doc, pc.created.id, pc.created.revision, Attaching).None? ==>
               pc.created.id in after.sessions
    requires pc.LaunchLive? && SetError(env, doc, pc.attaching.id, pc.attaching.revision, Live).None? ==>
               pc.attaching.id in after.sessions
  {
    match pc
    case LaunchHost(created, _) =>
      if env.launch.Ready? then LaunchAttaching(created)
      else if env.launch.ReadyAfterPreReadyCancellation? then AbortStop(created, Cancelled, CancelledByUser)
      else if env.launch.cancelled then Close(created, Cancelled, CancelledByUser)
      else Close(created, Failed, OperationFailed)
    case LaunchAttaching(created) =>
      if SetError(env, doc, created.id, created.revision, Attaching).Some? then LaunchReload
      else LaunchLive(after.sessions[created.id])
    case LaunchLive(attaching) =>
      if SetError(env, doc, attaching.id, attaching.revision, Live).Some? then LaunchReload
      else Done(Success(Mutated(after.sessions[attaching.id])))
    case LaunchReload =>
      if env.fault || c.id !in doc.sessions then Done(Failure(OperationFailed))
      else Done(Success(ReconciliationPending(doc.sessions[c.id])))
  }

  lemma LaunchGoesOnIff(x: World, pid: nat, c: Command, pc: Pc, env: Env)
    requires At(x, pid, c, pc) && c.LaunchCommand?
    requires pc.LaunchHost? || pc.LaunchAttaching? || pc.LaunchLive? || pc.LaunchReload?
    ensures var doc := x.Doc();
            var after := match pc
              case LaunchAttaching(created) => SetDoc(env, doc, created.id, created.revision, Attaching)
              case LaunchLive(attaching) => SetDoc(env, doc, attaching.id, attaching.revision, Live)
              case _ => doc;
            && Leads(x, pid, env, LaunchGoal(c, pc, doc, after, env), after)
            && Sends(x, pid, env, None)
            && Launches(x, pid, env,
                        if pc.LaunchHost? then Some(LaunchCall(pid, c.id, c.requested, pc.snapshot)) else None)
  {
    RunStep(x, pid, c, pc, env);
    hide At, Leads, Sends, Launches, Next, ProcStep;
    LaunchSteps(c, pid, pc, x.Doc(), x.store, env);
  }

  lemma LaunchSteps(c: Command, pid: nat, pc: Pc, doc: Document, store: Continuity, env: Env)
    requires c.LaunchCommand? && doc.revision <= U64_MAX
    requires pc.LaunchHost? || pc.LaunchAttaching? || pc.LaunchLive? || pc.LaunchReload?
    ensures var eff := ProcStep(Proc(c, pc), pid, doc, store, env);
            && eff.doc == (match pc
               case LaunchAttaching(created) => SetDoc(env, doc, created.id, created.revision, Attaching)
               case LaunchLive(attaching) => SetDoc(env, doc, attaching.id, attaching.revision, Live)
               case _ => doc)
            && (pc.LaunchAttaching? && SetError(env, doc, pc.created.id, pc.created.revision, Attaching).None? ==>
                  pc.created.id in eff.doc.sessions)
            && (pc.LaunchLive? && SetError(env, doc, pc.attaching.id, pc.attaching.revision, Live).None? ==>
                  pc.attaching.id in eff.doc.sessions)
            && eff.pc == LaunchGoal(c, pc, doc, eff.doc, env) && eff.stop.None?
            && eff.launched ==
                 if pc.LaunchHost? then Some(LaunchCall(pid, c.id, c.requested, pc.snapshot)) else None
  {
    hide SetTo, SetDoc, SetError;
    if pc.LaunchAttaching? { SetToMeans(env, doc, pc.created.id, pc.created.revision, Attaching); }
    if pc.LaunchLive? { SetToMeans(env, doc, pc.attaching.id, pc.attaching.revision, Live); }
  }

  // ---- giving a Host up ----

  /**
   An abort names the Host instance it started. If the Host confirms, the record is closed as asked; if not, it is
   left Offline and the command answers that its operation failed, whatever it was aborted for.
   */
  lemma AbortLeaves(x: World, pid: nat, c: Command, pc: Pc, env: Env)
    requires At(x, pid, c, pc) && (c.LaunchCommand? || c.ResumeCommand?) && (pc.AbortStop? || pc.Close?)
    ensures pc.AbortStop? ==>
              && Sends(x, pid, env, Some(StopRequest(pid, pc.created.id, Some(pid))))
              && if env.stop.Stopped? then Leads(x, pid, env, Close(pc.created, pc.lifecycle, pc.error), x.Doc())
                 else Leads(x, pid, env, Close(pc.created, Offline, OperationFailed), x.Doc())
    ensures pc.Close? ==>
              && Sends(x, pid, env, None)
              && Leads(x, pid, env, Done(Failure(pc.error)),
                       SetDoc(env, x.Doc(), pc.created.id, pc.created.revision, pc.lifecycle))
    ensures Launches(x, pid, env, None)
  {
    RunStep(x, pid, c, pc, env);
    CleansUp(c, pid, pc, x.Doc(), x.store, env);
    hide At, Leads, Sends, Launches, Next, SetTo, ProcStep;
    if pc.Close? { SetToMeans(env, x.Doc(), pc.created.id, pc.created.revision, pc.lifecycle); }
  }

  lemma CleansUp(c: Command, pid: nat, pc: Pc, doc: Document, store: Continuity, env: Env)
    requires (c.LaunchCommand? || c.ResumeCommand?) && (pc.AbortStop? || pc.Close?)
    ensures ProcStep(Proc(c, pc), pid, doc, store, env) == CleanupStep(pid, pc, doc, store, env)
  {
    hide CleanupStep, SetTo, Create, Record;
  }

  // ---- resume, from its create call on ----

  /** The session a resume creates: a fresh one of the source's group, preset and title, the title as good as imported
      unless the user had given it. */
  function ResumedSession(c: Command, source: Session, now: nat): Session
    requires c.ResumeCommand?
  {
    Session(c.replacement, source.group, source.preset, source.title,
            if source.titleSource.Manual? then Manual else Imported, Provisioning, Activity(0, false, None),
            source.pinned, 0, 0, None, None, now, 0)
  }

  lemma ResumeCreatesIff(x: World, pid: nat, c: Command, pc: Pc, env: Env)
    requires At(x, pid, c, pc) && c.ResumeCommand? && pc.ResumeCreate?
    ensures var doc, revision := x.Doc(), pc.prepared.snapshot.revision;
            var after := CreateDoc(env, doc, ResumedSession(c, pc.prepared.source, env.now), revision);
            && (match CreateError(env, doc, c.replacement, revision)
                case Some(error) => Leads(x, pid, env, Done(Failure(Store(error))), after)
                case None =>
                  && c.replacement in after.sessions
                  && Leads(x, pid, env, ResumeHost(after.sessions[c.replacement], c.replacement !in doc.sessions,
                                                   pc.prepared, pc.linkRevision), after))
            && Sends(x, pid, env, None) && Launches(x, pid, env, None)
  {
    RunStep(x, pid, c, pc, env);
    hide At, Leads, Sends, Launches, Next, ProcStep;
    ResumeCreateStep(c, pid, pc, x.Doc(), x.store, env);
  }

  lemma ResumeCreateStep(c: Command, pid: nat, pc: Pc, doc: Document, store: Continuity, env: Env)
    requires c.ResumeCommand? && pc.ResumeCreate?
    ensures var eff := ProcStep(Proc(c, pc), pid, doc, store, env);
            var revision := pc.prepared.snapshot.revision;
            && eff.doc == CreateDoc(env, doc, ResumedSession(c, pc.prepared.source, env.now), revision)
            && (match CreateError(env, doc, c.replacement, revision)
                case Some(error) => eff.pc == Done(Failure(Store(error)))
                case None =>
                  && c.replacement in eff.doc.sessions
                  && eff.pc == ResumeHost(eff.doc.sessions[c.replacement], c.replacement !in doc.sessions, pc.prepared,
                                          pc.linkRevision))
            && eff.stop.None? && eff.launched.None?
  {
    CreateMeans(env, doc, ResumedSession(c, pc.prepared.source, env.now), pc.prepared.snapshot.revision);
    hide Create;
  }

  /** Where a resume goes from its launcher call, its link call and its two lifecycle calls. */
  function ResumeLateGoal(c: Command, pc: Pc, doc: Document, after: Document, linked: bool, env: Env): Pc
    requires c.ResumeCommand?
    requires pc.ResumeHost? || pc.ResumeRecord? || pc.ResumeAttaching? || pc.ResumeLive?
    requires pc.ResumeAttaching? && SetError(env, doc, pc.created.id, pc.created.revision, Attaching).None? ==>
               pc.created.id in after.sessions
    requires pc.ResumeLive? && SetError(env, doc, pc.attaching.id, pc.attaching.revision, Live).None? ==>
               pc.attaching.id in after.sessions
  {
    match pc
    case ResumeHost(created, isNew, prepared, linkRevision) =>
      if env.launch.LaunchFailed? then
        if env.launch.cancelled then Close(created, Cancelled, CancelledByUser)
        else Close(created, Failed, OperationFailed)
      else if env.launch.Ready? && !env.cancelled then ResumeRecord(created, isNew, prepared, linkRevision)
      else AbortStop(created, Cancelled, CancelledByUser)
    case ResumeRecord(created, isNew, _, _) =>
      if linked then ResumeAttaching(created, isNew) else AbortStop(created, Failed, CommandError.Conflict)
    case ResumeAttaching(created, isNew) =>
      (match SetError(env, doc, created.id, created.revision, Attaching)
       case Some(error) => Done(Failure(Store(error)))
       case None => ResumeLive(created, isNew, after.sessions[created.id]))
    case ResumeLive(created, isNew, attaching) =>
      (match SetError(env, doc, attaching.id, attaching.revision, Live)
       case Some(error) => Done(Failure(Store(error)))
       case None => Done(Success(Resumed(created, isNew, attaching, after.sessions[attaching.id]))))
  }

  /** The link call, with the link it records. */
  function LinkOutcome(c: Command, pc: Pc, store: Continuity, env: Env): RecordOutcome
    requires c.ResumeCommand? && pc.ResumeRecord?
  {
    var generation := pc.prepared.generation;
    Record(store, pc.linkRevision, Link(c.command, c.source, c.replacement, generation, generation + 1, env.now))
  }

  lemma ResumeFinishesIff(x: World, pid: nat, c: Command, pc: Pc, env: Env)
    requires At(x, pid, c, pc) && c.ResumeCommand?
    requires pc.ResumeHost? || pc.ResumeRecord? || pc.ResumeAttaching? || pc.ResumeLive?
    ensures var doc := x.Doc();
            var linked := pc.ResumeRecord? && !env.fault && LinkOutcome(c, pc, x.store, env).result.Success?;
            var after := match pc
              case ResumeAttaching(created, _) => SetDoc(env, doc, created.id, created.revision, Attaching)
              case ResumeLive(_, _, attaching) => SetDoc(env, doc, attaching.id, attaching.revision, Live)
              case _ => doc;
            && Leads(x, pid, env, ResumeLateGoal(c, pc, doc, after, linked, env), after)
            && Sends(x, pid, env, None)
            && Launches(x, pid, env,
                        if pc.ResumeHost? then Some(LaunchCall(pid, c.replacement, false, pc.prepared.snapshot))
                        else None)
            && Next(x, Act(pid, env)).store == if pc.ResumeRecord? && (!env.fault || env.landed)
                                               then LinkOutcome(c, pc, x.store, env).store else x.store
  {
    RunStep(x, pid, c, pc, env);
    hide At, Leads, Sends, Launches, Next, ProcStep, LinkOutcome;
    ResumeLateSteps(c, pid, pc, x.Doc(), x.store, env);
  }

  lemma ResumeLateSteps(c: Command, pid: nat, pc: Pc, doc: Document, store: Continuity, env: Env)
    requires c.ResumeCommand? && doc.revision <= U64_MAX
    requires pc.ResumeHost? || pc.ResumeRecord? || pc.ResumeAttaching? || pc.ResumeLive?
    ensures var eff := ProcStep(Proc(c, pc), pid, doc, store, env);
            var linked := pc.ResumeRecord? && !env.fault && LinkOutcome(c, pc, store, env).result.Success?;
            && eff.doc == (match pc
               case ResumeAttaching(created, _) => SetDoc(env, doc, created.id, created.revision, Attaching)
               case ResumeLive(_, _, attaching) => SetDoc(env, doc, attaching.id, attaching.revision, Live)
               case _ => doc)
            && (pc.ResumeAttaching? && SetError(env, doc, pc.created.id, pc.created.revision, Attaching).None? ==>
                  pc.created.id in eff.doc.sessions)
            && (pc.ResumeLive? && SetError(env, doc, pc.attaching.id, pc.attaching.revision, Live).None? ==>
                  pc.attaching.id in eff.doc.sessions)
            && eff.pc == ResumeLateGoal(c, pc, doc, eff.doc, linked, env) && eff.stop.None?
            && eff.launched ==
                 (if pc.ResumeHost? then Some(LaunchCall(pid, c.replacement, false, pc.prepared.snapshot)) else None)
            && eff.store == if pc.ResumeRecord? && (!env.fault || env.landed) then LinkOutcome(c, pc, store, env).store
                            else store
  {
    hide SetTo, SetDoc, SetError, Record;
    if pc.ResumeAttaching? { SetToMeans(env, doc, pc.created.id, pc.created.revision, Attaching); }
    if pc.ResumeLive? { SetToMeans(env, doc, pc.attaching.id, pc.attaching.revision, Live); }
  }
}
