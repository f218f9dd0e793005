/**
 The session commands as small programs over the shared stores
 (crates/multiplex-cli/src/local.rs). Every store call and every Host call is one atomic step;
 between any two steps of one command, other commands and other writers may take any number of theirs.

 What the commands cannot decide themselves arrives as an `Env`: faults of a store call, answers of the
 Host, cancellation, the clock and the outcome of checks outside the session and continuity stores.
 A command's number (`pid`) also names the Host instance it launches: instance ids are never reused.
 */
module Orchestration {
  import opened Wrappers
  import opened SessionDomain
  import opened SessionStore
  import opened Continuity

  datatype Command =
    | StopCommand(id: nat, expected: Option<nat>, confirmed: bool, requireExactHost: bool)
    | ArchiveCommand(id: nat, expected: Option<nat>, allowReplay: bool)
    | RestoreCommand(id: nat, expected: Option<nat>, allowReplay: bool)
    | MetadataCommand(id: nat, reviewed: nat, mutation: Mutation)
    | MarkReadCommand(id: nat, reviewed: nat)
    | LaunchCommand(id: nat, requested: bool, preset: nat, group: Option<nat>, title: string)
    | ResumeCommand(source: nat, expected: Option<nat>, confirmed: bool, command: nat, replacement: nat)

  datatype CommandError =
    | Validation
    | Conflict
    | Missing
    | CancelledByUser
    | OperationFailed
    | InteractionRequired
    | Store(error: StoreError)

  datatype Answer =
    | Mutated(session: Session)
    | ReconciliationPending(session: Session)
    | ResumePreview
    | Resumed(created: Session, isNew: bool, attaching: Session, live: Session)

  datatype LaunchOutcome = Ready | ReadyAfterPreReadyCancellation | LaunchFailed(cancelled: bool)

  datatype StopOutcome = Stopped | StopCancelled | StopFailed

  datatype Env = Env(
    fault: bool,              // the store call of this step answers an error (lock timeout, I/O, refused write)
    landed: bool,             // ... although its write had already replaced the file
    refused: bool,            // a check outside the modelled stores fails
    cancelled: bool,          // the user has cancelled
    othersChanged: bool,      // the library or preset revision moved since it was captured
    launch: LaunchOutcome,
    stop: StopOutcome,
    hostMetadata: Option<nat>, // the instance id found in the durable Host metadata
    generation: nat,          // the occupant generation found in the source Host's metadata
    now: nat)

  /** What a validated resume carries: the source as loaded, the snapshot it came from, its generation. */
  datatype Prepared = Prepared(source: Session, snapshot: Document, generation: nat)

  datatype Pc =
    | Begin
    | StopCommit(revision: nat, host: Option<nat>)
    | StopSend(stopping: Session, changed: bool, host: Option<nat>)
    | StopClose(stopping: Session, changed: bool)
    | Commit(revision: nat, mutation: Mutation)
    | LaunchCreate(snapshot: Document)
    | LaunchHost(created: Session, snapshot: Document)
    | LaunchAttaching(created: Session)
    | LaunchLive(attaching: Session)
    | LaunchReload
    | ResumeRecheck(prepared: Prepared)
    | ResumeConfirm(prepared: Prepared)
    | ResumeLinks(prepared: Prepared)
    | ResumeCreate(prepared: Prepared, linkRevision: nat)
    | ResumeHost(created: Session, isNew: bool, prepared: Prepared, linkRevision: nat)
    | ResumeRecord(created: Session, isNew: bool, prepared: Prepared, linkRevision: nat)
    | ResumeAttaching(created: Session, isNew: bool)
    | ResumeLive(created: Session, isNew: bool, attaching: Session)
    | AbortStop(created: Session, lifecycle: Lifecycle, error: CommandError)
    | Close(created: Session, lifecycle: Lifecycle, error: CommandError)
    | Done(result: Result<Answer, CommandError>)

  datatype Proc = Proc(command: Command, pc: Pc)

  /** A call of the Host launcher, with the snapshot its command had loaded. */
  datatype LaunchCall = LaunchCall(pid: nat, session: nat, requested: bool, snapshot: Document)

  /** A stop request: who sent it, for which session, naming which Host instance if any. */
  datatype StopRequest = StopRequest(pid: nat, session: nat, host: Option<nat>)

  /** What one step leaves behind: the stores, the calls it made, and where its command stands. */
  datatype Effect = Effect(
    pc: Pc, doc: Document, store: Continuity, launched: Option<LaunchCall>, stop: Option<StopRequest>, ready: bool)

  function Goto(doc: Document, store: Continuity, pc: Pc): Effect {
    Effect(pc, doc, store, None, None, false)
  }

  function Fail(doc: Document, store: Continuity, error: CommandError): Effect {
    Goto(doc, store, Done(Failure(error)))
  }

  function Answered(doc: Document, store: Continuity, answer: Answer): Effect {
    Goto(doc, store, Done(Success(answer)))
  }

  /**
   A store call. A write replaces the file by a rename and can still fail after it, in setting permissions, in
   syncing the directory or in reading the document back; such a call answers an error and yet has committed.
   */
  function Faulty(env: Env, doc: Document, o: Outcome): Outcome {
    if env.fault then Outcome(if env.landed then o.doc else doc, Failure(Fault)) else o
  }

  /** The continuity store writes the same way. */
  function FaultyStore(env: Env, store: Continuity, o: RecordOutcome): Continuity {
    if env.fault && !env.landed then store else o.store
  }

  function SetTo(env: Env, doc: Document, id: nat, revision: nat, lifecycle: Lifecycle): Outcome {
    Faulty(env, doc, Mutate(doc, id, revision, SetLifecycle(lifecycle), env.now))
  }

  /** mutation_revision: the session must be the reviewed one; the commit then names the whole document. */
  predicate ReviewedRevision(session: Session, expected: Option<nat>) {
    expected.Some? ==> expected.value == session.revision
  }

  // ---------------------------------------------------------------- stop

  function StopBegin(c: Command, doc: Document, store: Continuity, env: Env): (eff: Effect)
    requires c.StopCommand?
    ensures eff.doc == doc && eff.store == store && eff.launched.None? && eff.stop.None? && !eff.ready
  {
    if !c.confirmed then Fail(doc, store, Validation)
    else if env.cancelled then Fail(doc, store, CancelledByUser)
    else if env.fault then Fail(doc, store, Store(Fault))
    else if c.id !in doc.sessions then Fail(doc, store, Missing)
    else
      var session := doc.sessions[c.id];
      if c.requireExactHost && session.lifecycle.Exited? then Answered(doc, store, Mutated(session))
      else if !session.lifecycle.CanStop() then Fail(doc, store, Validation)
      else if !ReviewedRevision(session, c.expected) then Fail(doc, store, Conflict)
      else if c.requireExactHost && env.hostMetadata.None? then Fail(doc, store, Missing)
      else Goto(doc, store, StopCommit(doc.revision, if c.requireExactHost then env.hostMetadata else None))
  }

  function StopStep(c: Command, pid: nat, pc: Pc, doc: Document, store: Continuity, env: Env): Effect
    requires c.StopCommand?
  {
    match pc
    case StopCommit(revision, host) =>
      var o := SetTo(env, doc, c.id, revision, Stopping);
      if o.result.Failure? then Fail(o.doc, store, Store(o.result.error))
      else Goto(o.doc, store, StopSend(o.result.value, o.doc != doc, host))
    case StopSend(stopping, changed, host) =>
      var next :=
        match env.stop
        case Stopped => StopClose(stopping, changed)
        case StopCancelled => Done(Failure(OperationFailed))
        case StopFailed => Done(Failure(OperationFailed));
      Effect(next, doc, store, None, Some(StopRequest(pid, c.id, host)), false)
    case StopClose(stopping, changed) =>
      var o := SetTo(env, doc, stopping.id, stopping.revision, Exited);
      if o.result.Failure? then Fail(o.doc, store, Store(o.result.error))
      else Answered(o.doc, store, Mutated(o.result.value))
    case _ => Goto(doc, store, pc)
  }

  // ---------------------------------------------------------------- archive, restore, metadata

  function MutationBegin(c: Command, doc: Document, store: Continuity, env: Env): (eff: Effect)
    requires c.ArchiveCommand? || c.RestoreCommand? || c.MetadataCommand? || c.MarkReadCommand?
    ensures eff.doc == doc && eff.store == store && eff.launched.None? && eff.stop.None? && !eff.ready
  {
    if env.fault then Fail(doc, store, Store(Fault))
    else if c.id !in doc.sessions then Fail(doc, store, Missing)
    else
      var session := doc.sessions[c.id];
      match c
      case ArchiveCommand(_, expected, allowReplay) =>
        if allowReplay && session.archivedAt.Some? then Answered(doc, store, Mutated(session))
        else if !session.lifecycle.Exited? then Fail(doc, store, Validation)
        else if !ReviewedRevision(session, expected) then Fail(doc, store, Conflict)
        else Goto(doc, store, Commit(doc.revision, ArchiveAt(env.now)))
      case RestoreCommand(_, expected, allowReplay) =>
        if allowReplay && session.archivedAt.None? then Answered(doc, store, Mutated(session))
        else if !ReviewedRevision(session, expected) then Fail(doc, store, Conflict)
        else Goto(doc, store, Commit(doc.revision, Restore))
      case MetadataCommand(_, expected, mutation) =>
        var applied :=
          match mutation
          case Rename(title) => session.title == title
          case SetPinned(pinned) => session.pinned == pinned
          case _ => false;
        if expected != session.revision && applied then Answered(doc, store, Mutated(session))
        else if expected != session.revision then Fail(doc, store, Conflict)
        else Goto(doc, store, Commit(doc.revision, mutation))
      case MarkReadCommand(_, expected) =>
        if expected != session.revision && !session.HasUnread() then Answered(doc, store, Mutated(session))
        else if expected != session.revision then Fail(doc, store, Conflict)
        else Goto(doc, store, Commit(doc.revision, MarkRead(session.lastOutput)))
  }

  function MutationStep(c: Command, pc: Pc, doc: Document, store: Continuity, env: Env): Effect
    requires c.ArchiveCommand? || c.RestoreCommand? || c.MetadataCommand? || c.MarkReadCommand?
  {
    match pc
    case Commit(revision, mutation) =>
      var o := Faulty(env, doc, Mutate(doc, c.id, revision, mutation, env.now));
      if o.result.Failure? then Fail(o.doc, store, Store(o.result.error))
      else Answered(o.doc, store, Mutated(o.result.value))
    case _ => Goto(doc, store, pc)
  }

  // ---------------------------------------------------------------- launch

  function NewSession(id: nat, group: Option<nat>, preset: Option<nat>, title: string, source: TitleSource,
                      pinned: bool, now: nat): Session {
    Session(id, group, preset, title, source, Provisioning, Activity(0, false, None), pinned, 0, 0, None, None, now, 0)
  }

  function LaunchBegin(c: Command, doc: Document, store: Continuity, env: Env): (eff: Effect)
    requires c.LaunchCommand?
    ensures eff.doc == doc && eff.store == store && eff.launched.None? && eff.stop.None? && !eff.ready
  {
    if env.cancelled then Fail(doc, store, CancelledByUser)
    else if env.fault then Fail(doc, store, Store(Fault))
    else if c.requested && c.id in doc.sessions then
      var existing := doc.sessions[c.id];
      if existing.preset != Some(c.preset) || existing.group != c.group then Fail(doc, store, Conflict)
      else Answered(doc, store, Mutated(existing))
    else if env.refused then Fail(doc, store, Validation)
    else Goto(doc, store, LaunchCreate(doc))
  }

  function LaunchStep(c: Command, pid: nat, pc: Pc, doc: Document, store: Continuity, env: Env): Effect
    requires c.LaunchCommand?
  {
    match pc
    case LaunchCreate(snapshot) =>
      if env.othersChanged then Fail(doc, store, Conflict)
      else if env.refused then Fail(doc, store, OperationFailed)
      else
        var session := NewSession(c.id, c.group, Some(c.preset), c.title, Default, false, env.now);
        var o := Faulty(env, doc, Create(doc, session, snapshot.revision));
        if o.result.Failure? then Fail(o.doc, store, Store(o.result.error))
        else Goto(o.doc, store, LaunchHost(o.result.value, snapshot))
    case LaunchHost(created, snapshot) =>
      var call := Some(LaunchCall(pid, c.id, c.requested, snapshot));
      (match env.launch
       case Ready => Effect(LaunchAttaching(created), doc, store, call, None, true)
       case ReadyAfterPreReadyCancellation =>
         Effect(AbortStop(created, Cancelled, CancelledByUser), doc, store, call, None, true)
       case LaunchFailed(cancelled) =>
         Effect(Close(created, if cancelled then Cancelled else Failed,
                      if cancelled then CancelledByUser else OperationFailed), doc, store, call, None, false))
    case LaunchAttaching(created) =>
      var o := SetTo(env, doc, created.id, created.revision, Attaching);
      if o.result.Failure? then Goto(o.doc, store, LaunchReload) else Goto(o.doc, store, LaunchLive(o.result.value))
    case LaunchLive(attaching) =>
      var o := SetTo(env, doc, attaching.id, attaching.revision, Live);
      if o.result.Failure? then Goto(o.doc, store, LaunchReload)
      else Answered(o.doc, store, Mutated(o.result.value))
    case LaunchReload =>
      if !env.fault && c.id in doc.sessions then Answered(doc, store, ReconciliationPending(doc.sessions[c.id]))
      else Fail(doc, store, OperationFailed)
    case _ => CleanupStep(pid, pc, doc, store, env)
  }

  /** The two compensation steps launch and resume share: stop the Host just started, then close its record. */
  function CleanupStep(pid: nat, pc: Pc, doc: Document, store: Continuity, env: Env): Effect {
    match pc
    case AbortStop(created, lifecycle, error) =>
      var next := if env.stop.Stopped? then Close(created, lifecycle, error)
                  else Close(created, Offline, OperationFailed);
      Effect(next, doc, store, None, Some(StopRequest(pid, created.id, Some(pid))), false)
    case Close(created, lifecycle, error) =>
      Fail(SetTo(env, doc, created.id, created.revision, lifecycle).doc, store, error)
    case _ => Goto(doc, store, pc)
  }

  // ---------------------------------------------------------------- resume

  /** The record a resume creates for its replacement session. */
  function Successor(source: Session, id: nat, now: nat): Session {
    NewSession(id, source.group, source.preset, source.title,
               if source.titleSource.Manual? then Manual else Imported, source.pinned, now)
  }

  function LinkFor(c: Command, generation: nat, now: nat): Link
    requires c.ResumeCommand?
  {
    Link(c.command, c.source, c.replacement, generation, generation + 1, now)
  }

  function ResumeBegin(c: Command, doc: Document, store: Continuity, env: Env): (eff: Effect)
    requires c.ResumeCommand?
    ensures eff.doc == doc && eff.store == store && eff.launched.None? && eff.stop.None? && !eff.ready
  {
    if c.confirmed != c.expected.Some? then Fail(doc, store, InteractionRequired)
    else if env.cancelled then Fail(doc, store, CancelledByUser)
    else if env.fault then Fail(doc, store, Store(Fault))
    else if c.source !in doc.sessions then Fail(doc, store, Missing)
    else
      var source := doc.sessions[c.source];
      if source.archivedAt.Some? then Fail(doc, store, Validation)
      else if !ReviewedRevision(source, c.expected) then Fail(doc, store, Conflict)
      else if source.preset.None? || env.refused || env.generation >= U64_MAX then Fail(doc, store, Validation)
      else Goto(doc, store, ResumeRecheck(Prepared(source, doc, env.generation)))
  }

  function ResumeStep(c: Command, pid: nat, pc: Pc, doc: Document, store: Continuity, env: Env): Effect
    requires c.ResumeCommand?
  {
    match pc
    case ResumeRecheck(prepared) =>
      if env.cancelled then Fail(doc, store, CancelledByUser)
      else if env.fault then Fail(doc, store, Store(Fault))
      else if doc.revision != prepared.snapshot.revision || env.othersChanged || env.refused then
        Fail(doc, store, Conflict)
      else if !c.confirmed then Answered(doc, store, ResumePreview)
      else Goto(doc, store, ResumeConfirm(prepared))
    case ResumeConfirm(prepared) =>
      if env.cancelled then Fail(doc, store, CancelledByUser)
      else if env.fault then Fail(doc, store, Store(Fault))
      else if doc.revision != prepared.snapshot.revision || env.othersChanged then Fail(doc, store, Conflict)
      else Goto(doc, store, ResumeLinks(prepared))
    case ResumeLinks(prepared) =>
      if env.fault || env.refused then Fail(doc, store, Conflict)
      else if exists link :: link in store.links && link.source == c.source then Fail(doc, store, Conflict)
      else Goto(doc, store, ResumeCreate(prepared, store.revision))
    case ResumeCreate(prepared, linkRevision) =>
      var o := Faulty(env, doc, Create(doc, Successor(prepared.source, c.replacement, env.now),
                                       prepared.snapshot.revision));
      if o.result.Failure? then Fail(o.doc, store, Store(o.result.error))
      else Goto(o.doc, store, ResumeHost(o.result.value, o.doc != doc, prepared, linkRevision))
    case ResumeHost(created, isNew, prepared, linkRevision) =>
      var call := Some(LaunchCall(pid, c.replacement, false, prepared.snapshot));
      (match env.launch
       case Ready =>
         if env.cancelled then Effect(AbortStop(created, Cancelled, CancelledByUser), doc, store, call, None, true)
         else Effect(ResumeRecord(created, isNew, prepared, linkRevision), doc, store, call, None, true)
       case ReadyAfterPreReadyCancellation =>
         Effect(AbortStop(created, Cancelled, CancelledByUser), doc, store, call, None, true)
       case LaunchFailed(cancelled) =>
         Effect(Close(created, if cancelled then Cancelled else Failed,
                      if cancelled then CancelledByUser else OperationFailed), doc, store, call, None, false))
    case ResumeRecord(created, isNew, prepared, linkRevision) =>
      var o := Record(store, linkRevision, LinkFor(c, prepared.generation, env.now));
      var after := FaultyStore(env, store, o);
      if env.fault || o.result.Failure? then Goto(doc, after, AbortStop(created, Failed, Conflict))
      else Goto(doc, after, ResumeAttaching(created, isNew))
    case ResumeAttaching(created, isNew) =>
      var o := SetTo(env, doc, created.id, created.revision, Attaching);
      if o.result.Failure? then Fail(o.doc, store, Store(o.result.error))
      else Goto(o.doc, store, ResumeLive(created, isNew, o.result.value))
    case ResumeLive(created, isNew, attaching) =>
      var o := SetTo(env, doc, attaching.id, attaching.revision, Live);
      if o.result.Failure? then Fail(o.doc, store, Store(o.result.error))
      else Answered(o.doc, store, Resumed(created, isNew, attaching, o.result.value))
    case _ => CleanupStep(pid, pc, doc, store, env)
  }

  // ---------------------------------------------------------------- runs

  function ProcStep(p: Proc, pid: nat, doc: Document, store: Continuity, env: Env): Effect {
    match p.command
    case StopCommand(_, _, _, _) =>
      if p.pc.Begin? then StopBegin(p.command, doc, store, env) else StopStep(p.command, pid, p.pc, doc, store, env)
    case LaunchCommand(_, _, _, _, _) =>
      if p.pc.Begin? then LaunchBegin(p.command, doc, store, env) else LaunchStep(p.command, pid, p.pc, doc, store, env)
    case ResumeCommand(_, _, _, _, _) =>
      if p.pc.Begin? then ResumeBegin(p.command, doc, store, env) else ResumeStep(p.command, pid, p.pc, doc, store, env)
    case _ =>
      if p.pc.Begin? then MutationBegin(p.command, doc, store, env) else MutationStep(p.command, p.pc, doc, store, env)
  }

  datatype Actor = Outside | Process(pid: nat)

  /**
   Everything shared, with the past kept: `versions` holds every document the repository has had, the
   current one last, and `authors[i]` says who committed `versions[i]`.
   */
  datatype World = World(
    versions: seq<Document>,
    authors: seq<Actor>,
    store: Continuity,
    procs: map<nat, Proc>,
    launches: seq<LaunchCall>,
    stops: set<StopRequest>,
    ready: set<nat>)
  {
    function Doc(): Document
      requires versions != []
    {
      versions[|versions| - 1]
    }
  }

  function Publish(w: World, doc: Document, author: Actor): World
    requires w.versions != []
  {
    if doc == w.Doc() then w else w.(versions := w.versions + [doc], authors := w.authors + [author])
  }

  /** The world after command `pid` took a step with this effect. */
  function Install(w: World, pid: nat, c: Command, eff: Effect): World
    requires w.versions != []
  {
    Publish(w, eff.doc, Process(pid)).(
      store := eff.store,
      procs := w.procs[pid := Proc(c, eff.pc)],
      launches := if eff.launched.Some? then w.launches + [eff.launched.value] else w.launches,
      stops := if eff.stop.Some? then w.stops + {eff.stop.value} else w.stops,
      ready := if eff.ready then w.ready + {pid} else w.ready)
  }

  datatype Event =
    | Start(pid: nat, command: Command)
    | Act(pid: nat, env: Env)
    | OutsideMutate(id: nat, mutation: Mutation, now: nat)
    | OutsideCreate(session: Session)
    | OutsideRemove(id: nat)
    | OutsideCommit(doc: Document)
    | OutsideLink(link: Link)

  /** What one commit that removes nothing may do, such as placing several sessions in groups at once. */
  predicate OutsideMay(doc: Document, after: Document) {
    ValidDocument(after) && CommitStep(doc, after) && doc.sessions.Keys <= after.sessions.Keys
  }

  /**
   One event. Outside writers are the desktop application and others. They create, mutate and remove sessions as
   the commands do, and they commit documents that change several records at once.
   */
  function Next(w: World, e: Event): World
    requires w.versions != []
  {
    match e
    case Start(pid, command) =>
      if pid in w.procs then w else w.(procs := w.procs[pid := Proc(command, Begin)])
    case Act(pid, env) =>
      if pid !in w.procs then w
      else
        Install(w, pid, w.procs[pid].command, ProcStep(w.procs[pid], pid, w.Doc(), w.store, env))
    case OutsideMutate(id, mutation, now) =>
      Publish(w, Mutate(w.Doc(), id, w.Doc().revision, mutation, now).doc, Outside)
    case OutsideCreate(session) =>
      if ValidSession(session) then Publish(w, Create(w.Doc(), session, w.Doc().revision).doc, Outside) else w
    case OutsideRemove(id) =>
      Publish(w, Remove(w.Doc(), id, w.Doc().revision).doc, Outside)
    case OutsideCommit(doc) => if OutsideMay(w.Doc(), doc) then Publish(w, doc, Outside) else w
    case OutsideLink(link) =>
      w.(store := Record(w.store, w.store.revision, link).store)
  }

  /** Any valid documents may stand at the start; no command is under way. */
  predicate Initial(w: World) {
    && |w.versions| == |w.authors| == 1
    && ValidDocument(w.versions[0])
    && w.authors[0] == Outside
    && ValidContinuity(w.store)
    && w.procs == map[]
    && w.launches == []
    && w.stops == {}
    && w.ready == {}
  }

  function Run(w: World, events: seq<Event>): (w': World)
    requires w.versions != []
    ensures w'.versions != []
    decreases |events|
  {
    if events == [] then w else Next(Run(w, events[..|events| - 1]), events[|events| - 1])
  }
}
