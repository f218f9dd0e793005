/**
 The invariant every interleaving of the session commands keeps, and its proof: one small lemma for each
 command program, one for what a step leaves untouched, and one for the events of other writers.
 */
module OrchestrationInvariant {
  import opened Wrappers
  import opened SessionDomain
  import opened SessionStore
  import opened Continuity
  import opened Orchestration

  // ---------------------------------------------------------------- the store's past

  /** Each document is valid and follows the one before it by exactly one commit. */
  predicate History(versions: seq<Document>) {
    && versions != []
    && (forall i :: 0 <= i < |versions| ==>
          ValidDocument(versions[i]) && versions[i].revision == versions[0].revision + i)
    && (forall i :: 0 < i < |versions| ==> CommitStep(versions[i - 1], versions[i]))
  }

  /** `s` stood in the repository at some time. */
  predicate Observed(versions: seq<Document>, s: Session) {
    exists d :: d in versions && s.id in d.sessions && d.sessions[s.id] == s
  }

  /** Between two versions a record is either untouched or stamped later than the earlier version. */
  lemma {:induction false} RecordsAdvance(versions: seq<Document>, i: nat, j: nat, id: nat)
    requires History(versions) && i <= j < |versions| && id in versions[j].sessions
    ensures || (id in versions[i].sessions && versions[i].sessions[id] == versions[j].sessions[id])
            || versions[j].sessions[id].revision > versions[i].revision
    decreases j
  {
    if i < j {
      assert CommitStep(versions[j - 1], versions[j]);
      if id in versions[j - 1].sessions {
        RecordsAdvance(versions, i, j - 1, id);
      }
    }
  }

  /** A record whose stamp is the current revision is the current record: what a compare-and-swap relies on. */
  lemma StampedNowIsCurrent(versions: seq<Document>, s: Session)
    requires History(versions) && Observed(versions, s)
    ensures var doc := versions[|versions| - 1];
            && s.revision <= doc.revision
            && (s.revision == doc.revision ==> s.id in doc.sessions && doc.sessions[s.id] == s)
  {
    var d :| d in versions && s.id in d.sessions && d.sessions[s.id] == s;
    var i :| 0 <= i < |versions| && versions[i] == d;
    assert versions[|versions| - 1].revision == versions[0].revision + (|versions| - 1);
  }

  /** A record read now was stamped no earlier than one seen before, and later unless it is the same record. */
  lemma CurrentIsNewer(versions: seq<Document>, s: Session)
    requires History(versions) && Observed(versions, s) && s.id in versions[|versions| - 1].sessions
    ensures var now := versions[|versions| - 1].sessions[s.id]; now == s || s.revision < now.revision
  {
    hide ValidSession, CommitStep;
    var d :| d in versions && s.id in d.sessions && d.sessions[s.id] == s;
    var i :| 0 <= i < |versions| && versions[i] == d;
    RecordsAdvance(versions, i, |versions| - 1, s.id);
  }

  // ---------------------------------------------------------------- the invariant

  ghost predicate Silent(w: World, pid: nat) { Process(pid) !in w.authors }

  ghost predicate NoLaunch(w: World, pid: nat) {
    forall i :: 0 <= i < |w.launches| ==> w.launches[i].pid != pid
  }

  /** The continuity store holds this command's link. */
  ghost predicate Linked(w: World, c: Command)
    requires c.ResumeCommand?
  {
    exists l :: l in w.store.links && l.command == c.command && l.source == c.source && l.replacement == c.replacement
  }

  /** The Host this command started was sent a stop naming its own instance. */
  ghost predicate StopSent(w: World, pid: nat, c: Command)
    requires c.ResumeCommand?
  {
    StopRequest(pid, c.replacement, Some(pid)) in w.stops
  }

  /** A stopping record is the command's own commit exactly when its call changed the record. */
  ghost predicate StopInv(w: World, pid: nat, c: Command, stopping: Session, changed: bool)
    requires |w.authors| == |w.versions|
  {
    && c.StopCommand?
    && Observed(w.versions, stopping)
    && stopping.id == c.id
    && stopping.lifecycle.Stopping?
    && (!changed ==> Silent(w, pid))
    && (changed ==> exists i :: 0 <= i < |w.versions| && w.versions[i].revision == stopping.revision
                               && w.authors[i] == Process(pid))
  }

  /** The session revision the user reviewed, where the command names one. */
  function Reviewed(c: Command): Option<nat> {
    match c
    case StopCommand(_, expected, _, _) => expected
    case ArchiveCommand(_, expected, _) => expected
    case RestoreCommand(_, expected, _) => expected
    case MetadataCommand(_, reviewed, _) => Some(reviewed)
    case MarkReadCommand(_, reviewed) => Some(reviewed)
    case _ => None
  }

  /** The repository revision a command will commit against belongs to a document showing the reviewed session. */
  ghost predicate ReviewInv(w: World, c: Command, revision: nat)
    requires !c.ResumeCommand?
  {
    exists d :: d in w.versions && d.revision == revision && c.id in d.sessions
                && ReviewedRevision(d.sessions[c.id], Reviewed(c))
  }

  ghost predicate ResumeInv(w: World, pid: nat, c: Command, pc: Pc)
    requires c.ResumeCommand?
  {
    match pc
    case ResumeRecheck(_) => NoLaunch(w, pid) && pid !in w.ready
    case ResumeConfirm(_) => NoLaunch(w, pid) && pid !in w.ready
    case ResumeLinks(_) => NoLaunch(w, pid) && pid !in w.ready
    case ResumeCreate(_, _) => NoLaunch(w, pid) && pid !in w.ready
    case ResumeHost(created, isNew, _, _) =>
      NoLaunch(w, pid) && pid !in w.ready && CreatedInv(w, c, created, isNew)
    case ResumeRecord(created, isNew, _, _) => CreatedInv(w, c, created, isNew)
    case ResumeAttaching(created, isNew) => CreatedInv(w, c, created, isNew) && Linked(w, c)
    case ResumeLive(created, isNew, attaching) =>
      CreatedInv(w, c, created, isNew) && Linked(w, c) && AttachingInv(w, created, attaching)
    case AbortStop(created, _, _) => created.id == c.replacement
    case Close(created, _, _) => created.id == c.replacement && (pid in w.ready ==> StopSent(w, pid, c))
    case Done(result) =>
      && (pid in w.ready ==> Linked(w, c) || StopSent(w, pid, c))
      && (result.Success? && result.value.Resumed? ==>
            var r := result.value;
            && CreatedInv(w, c, r.created, r.isNew) && Linked(w, c) && AttachingInv(w, r.created, r.attaching)
            && Observed(w.versions, r.live) && r.live.id == c.replacement && r.live.lifecycle.Live?
            && r.attaching.revision < r.live.revision)
    case _ => true
  }

  ghost predicate CreatedInv(w: World, c: Command, created: Session, isNew: bool)
    requires c.ResumeCommand?
  {
    && Observed(w.versions, created)
    && created.id == c.replacement
    && (isNew ==> created.lifecycle.Provisioning?)
  }

  ghost predicate AttachingInv(w: World, created: Session, attaching: Session) {
    && Observed(w.versions, attaching)
    && attaching.id == created.id
    && attaching.lifecycle.Attaching?
    && (attaching == created || created.revision < attaching.revision)
  }

  ghost predicate LaunchInv(w: World, pid: nat, c: Command, pc: Pc)
    requires c.LaunchCommand?
  {
    match pc
    case LaunchCreate(snapshot) =>
      NoLaunch(w, pid) && snapshot in w.versions && (c.requested ==> c.id !in snapshot.sessions)
    case LaunchHost(created, snapshot) =>
      NoLaunch(w, pid) && snapshot in w.versions && (c.requested ==> c.id !in snapshot.sessions)
    case _ => true
  }

  ghost predicate ProcInv(w: World, pid: nat, p: Proc)
    requires |w.authors| == |w.versions|
  {
    match p.pc
    case Begin => Silent(w, pid) && NoLaunch(w, pid) && pid !in w.ready
    case StopCommit(revision, _) => p.command.StopCommand? ==> Silent(w, pid) && ReviewInv(w, p.command, revision)
    case StopSend(stopping, changed, _) => p.command.StopCommand? ==> StopInv(w, pid, p.command, stopping, changed)
    case StopClose(stopping, changed) => p.command.StopCommand? ==> StopInv(w, pid, p.command, stopping, changed)
    case Commit(revision, _) => !p.command.ResumeCommand? ==> ReviewInv(w, p.command, revision)
    case _ =>
      && (p.command.ResumeCommand? ==> ResumeInv(w, pid, p.command, p.pc))
      && (p.command.LaunchCommand? ==> LaunchInv(w, pid, p.command, p.pc))
  }

  /** A requested launch calls the launcher only if its own snapshot did not hold the session. */
  ghost predicate LaunchesInv(w: World) {
    && (forall i :: 0 <= i < |w.launches| ==>
          && w.launches[i].pid in w.procs
          && (w.launches[i].requested ==>
                w.launches[i].snapshot in w.versions && w.launches[i].session !in w.launches[i].snapshot.sessions))
    && (forall i, j :: 0 <= i < j < |w.launches| ==> w.launches[i].pid != w.launches[j].pid)
  }

  /** The invariant's part that does not mention any command. */
  ghost predicate Base(w: World) {
    && w.versions != []
    && History(w.versions)
    && |w.authors| == |w.versions|
    && ValidDocument(w.Doc())
    && ValidContinuity(w.store)
  }

  ghost predicate Inv(w: World) {
    && Base(w)
    && LaunchesInv(w)
    && (forall i :: 0 <= i < |w.authors| && w.authors[i].Process? ==> w.authors[i].pid in w.procs)
    && (forall pid :: pid in w.ready ==> pid in w.procs)
    && (forall pid :: pid in w.procs ==> ProcInv(w, pid, w.procs[pid]))
  }

  // ---------------------------------------------------------------- what a step may do to the stores

  predicate LegalEffect(doc: Document, store: Continuity, eff: Effect) {
    && ValidDocument(eff.doc)
    && (eff.doc != doc ==> CommitStep(doc, eff.doc))
    && doc.sessions.Keys <= eff.doc.sessions.Keys
    && ValidContinuity(eff.store)
    && store.links <= eff.store.links
  }

  lemma SetToLegal(env: Env, doc: Document, id: nat, revision: nat, lifecycle: Lifecycle)
    requires ValidDocument(doc)
    ensures var o := SetTo(env, doc, id, revision, lifecycle);
            && ValidDocument(o.doc)
            && (o.doc != doc ==> revision == doc.revision && CommitStep(doc, o.doc))
            && o.doc.sessions.Keys == doc.sessions.Keys
            // a call that answers an error may have committed all the same
            && (o.result.Success? || o.doc != doc ==> id in doc.sessions && o.doc.sessions[id].lifecycle == lifecycle)
            && (o.result.Success? ==>
                  && o.result.value == o.doc.sessions[id] && o.result.value.id == id
                  && (o.doc != doc ==> o.result.value.revision == o.doc.revision == doc.revision + 1))
  {
    hide ValidDocument, CommitStep;
    MutateContract(doc, id, revision, SetLifecycle(lifecycle), env.now);
  }

  lemma CleanupIsLegal(pid: nat, pc: Pc, doc: Document, store: Continuity, env: Env)
    requires ValidDocument(doc) && ValidContinuity(store)
    ensures LegalEffect(doc, store, CleanupStep(pid, pc, doc, store, env))
  {
    hide SetTo, ValidDocument, CommitStep, ValidContinuity;
    if pc.Close? { SetToLegal(env, doc, pc.created.id, pc.created.revision, pc.lifecycle); }
  }

  lemma StopIsLegal(c: Command, pid: nat, pc: Pc, doc: Document, store: Continuity, env: Env)
    requires c.StopCommand? && ValidDocument(doc) && ValidContinuity(store)
    ensures LegalEffect(doc, store, StopStep(c, pid, pc, doc, store, env))
  {
    hide SetTo, Mutate, ValidDocument, CommitStep, ValidContinuity;
    if pc.StopCommit? { SetToLegal(env, doc, c.id, pc.revision, Stopping); }
    if pc.StopClose? { SetToLegal(env, doc, pc.stopping.id, pc.stopping.revision, Exited); }
  }

  lemma LaunchIsLegal(c: Command, pid: nat, pc: Pc, doc: Document, store: Continuity, env: Env)
    requires c.LaunchCommand? && ValidDocument(doc) && ValidContinuity(store)
    ensures LegalEffect(doc, store, LaunchStep(c, pid, pc, doc, store, env))
  {
    hide SetTo, Create, ValidDocument, CommitStep, ValidContinuity, CleanupStep;
    match pc
    case LaunchCreate(snapshot) =>
      CreateContract(doc, NewSession(c.id, c.group, Some(c.preset), c.title, Default, false, env.now),
                     snapshot.revision);
    case LaunchAttaching(created) => SetToLegal(env, doc, created.id, created.revision, Attaching);
    case LaunchLive(attaching) => SetToLegal(env, doc, attaching.id, attaching.revision, Live);
    case _ => CleanupIsLegal(pid, pc, doc, store, env);
  }

  lemma ResumeIsLegal(c: Command, pid: nat, pc: Pc, doc: Document, store: Continuity, env: Env)
    requires c.ResumeCommand? && ValidDocument(doc) && ValidContinuity(store)
    ensures LegalEffect(doc, store, ResumeStep(c, pid, pc, doc, store, env))
  {
    hide SetTo, Create, Record, ValidDocument, CommitStep, ValidContinuity, CleanupStep;
    match pc
    case ResumeCreate(prepared, _) =>
      CreateContract(doc, Successor(prepared.source, c.replacement, env.now), prepared.snapshot.revision);
    case ResumeRecord(_, _, prepared, linkRevision) =>
      RecordContract(store, linkRevision, LinkFor(c, prepared.generation, env.now));
    case ResumeAttaching(created, _) => SetToLegal(env, doc, created.id, created.revision, Attaching);
    case ResumeLive(_, _, attaching) => SetToLegal(env, doc, attaching.id, attaching.revision, Live);
    case _ => CleanupIsLegal(pid, pc, doc, store, env);
  }

  lemma MutationIsLegal(c: Command, pc: Pc, doc: Document, store: Continuity, env: Env)
    requires c.ArchiveCommand? || c.RestoreCommand? || c.MetadataCommand? || c.MarkReadCommand?
    requires ValidDocument(doc) && ValidContinuity(store)
    ensures LegalEffect(doc, store, MutationStep(c, pc, doc, store, env))
  {
    hide Mutate, ValidDocument, CommitStep, ValidContinuity;
    if pc.Commit? { MutateContract(doc, c.id, pc.revision, pc.mutation, env.now); }
  }

  lemma BeginIsLegal(p: Proc, pid: nat, doc: Document, store: Continuity, env: Env)
    requires p.pc.Begin? && ValidDocument(doc) && ValidContinuity(store)
    ensures LegalEffect(doc, store, ProcStep(p, pid, doc, store, env))
  {
    hide StopBegin, LaunchBegin, ResumeBegin, MutationBegin, StopStep, LaunchStep, ResumeStep, MutationStep;
  }

  lemma StepIsLegal(p: Proc, pid: nat, doc: Document, store: Continuity, env: Env)
    requires ValidDocument(doc) && ValidContinuity(store)
    ensures LegalEffect(doc, store, ProcStep(p, pid, doc, store, env))
  {
    hide LegalEffect, StopStep, LaunchStep, ResumeStep, MutationStep;
    if p.pc.Begin? { BeginIsLegal(p, pid, doc, store, env); }
    else if p.command.StopCommand? { StopIsLegal(p.command, pid, p.pc, doc, store, env); }
    else if p.command.LaunchCommand? { LaunchIsLegal(p.command, pid, p.pc, doc, store, env); }
    else if p.command.ResumeCommand? { ResumeIsLegal(p.command, pid, p.pc, doc, store, env); }
    else { MutationIsLegal(p.command, p.pc, doc, store, env); }
  }

  /** The past is only added to. */
  ghost predicate Extends(w: World, w': World) {
    && w.versions <= w'.versions
    && w.authors <= w'.authors
    && w.store.links <= w'.store.links
    && w.launches <= w'.launches
    && w.stops <= w'.stops
    && w.ready <= w'.ready
    && w.procs.Keys <= w'.procs.Keys
  }

  lemma ObservedStays(w: World, w': World, s: Session)
    requires w.versions <= w'.versions && Observed(w.versions, s)
    ensures Observed(w'.versions, s)
  {
    var d :| d in w.versions && s.id in d.sessions && d.sessions[s.id] == s;
    assert d in w'.versions;
  }

  lemma LinkedStays(w: World, w': World, c: Command)
    requires c.ResumeCommand? && w.store.links <= w'.store.links && Linked(w, c)
    ensures Linked(w', c)
  {
    var l :| l in w.store.links && l.command == c.command && l.source == c.source && l.replacement == c.replacement;
    assert l in w'.store.links;
  }

  lemma ReviewStays(w: World, w': World, c: Command, revision: nat)
    requires !c.ResumeCommand? && w.versions <= w'.versions && ReviewInv(w, c, revision)
    ensures ReviewInv(w', c, revision)
  {
    var d :| d in w.versions && d.revision == revision && c.id in d.sessions
             && ReviewedRevision(d.sessions[c.id], Reviewed(c));
    assert d in w'.versions;
  }

  /** What other commands do cannot break what one command's program relies on. */
  lemma OthersKeepProcInv(w: World, w': World, pid: nat, p: Proc)
    requires |w.authors| == |w.versions| && |w'.authors| == |w'.versions|
    requires Extends(w, w') && ProcInv(w, pid, p)
    requires Silent(w, pid) ==> Silent(w', pid)
    requires NoLaunch(w, pid) ==> NoLaunch(w', pid)
    requires pid in w'.ready ==> pid in w.ready
    ensures ProcInv(w', pid, p)
  {
    var c := p.command;
    match p.pc
    case StopCommit(revision, _) => if c.StopCommand? { ReviewStays(w, w', c, revision); }
    case Commit(revision, _) => if !c.ResumeCommand? { ReviewStays(w, w', c, revision); }
    case StopSend(stopping, changed, _) => if c.StopCommand? { StopInvStays(w, w', pid, c, stopping, changed); }
    case StopClose(stopping, changed) => if c.StopCommand? { StopInvStays(w, w', pid, c, stopping, changed); }
    case ResumeHost(created, _, _, _) => if c.ResumeCommand? { ObservedStays(w, w', created); }
    case ResumeRecord(created, _, _, _) => if c.ResumeCommand? { ObservedStays(w, w', created); }
    case ResumeAttaching(created, _) => if c.ResumeCommand? { ObservedStays(w, w', created); LinkedStays(w, w', c); }
    case ResumeLive(created, _, attaching) =>
      if c.ResumeCommand? { ObservedStays(w, w', created); ObservedStays(w, w', attaching); LinkedStays(w, w', c); }
    case Done(result) =>
      if c.ResumeCommand? {
        if Linked(w, c) { LinkedStays(w, w', c); }
        if result.Success? && result.value.Resumed? {
          ObservedStays(w, w', result.value.created);
          ObservedStays(w, w', result.value.attaching);
          ObservedStays(w, w', result.value.live);
        }
      }
    case _ =>
  }

  lemma StopInvStays(w: World, w': World, pid: nat, c: Command, stopping: Session, changed: bool)
    requires |w.authors| == |w.versions| && |w'.authors| == |w'.versions|
    requires Extends(w, w') && StopInv(w, pid, c, stopping, changed)
    requires Silent(w, pid) ==> Silent(w', pid)
    ensures StopInv(w', pid, c, stopping, changed)
  {
    ObservedStays(w, w', stopping);
    if changed {
      var i :| 0 <= i < |w.versions| && w.versions[i].revision == stopping.revision && w.authors[i] == Process(pid);
      assert w'.versions[i] == w.versions[i] && w'.authors[i] == w.authors[i];
    }
  }

  // ---------------------------------------------------------------- one step of one command

  lemma PublishKeepsHistory(w: World, doc: Document, author: Actor)
    requires History(w.versions) && |w.authors| == |w.versions|
    requires ValidDocument(doc) && (doc != w.Doc() ==> CommitStep(w.Doc(), doc))
    ensures var w' := Publish(w, doc, author);
            && History(w'.versions) && |w'.authors| == |w'.versions| && w'.Doc() == doc && doc in w'.versions
  {
    hide ValidDocument;
  }

  /** A record a store call has just answered with stands in the repository. */
  lemma AnswerIsObserved(w: World, doc: Document, author: Actor, s: Session)
    requires w.versions != []
    requires s.id in doc.sessions && doc.sessions[s.id] == s
    ensures Observed(Publish(w, doc, author).versions, s)
  {
    var w' := Publish(w, doc, author);
    assert w'.versions[|w'.versions| - 1] == doc;
  }

  lemma StopKeepsProcInv(w: World, pid: nat, c: Command, pc: Pc, env: Env)
    requires Base(w) && c.StopCommand? && !pc.Begin? && ProcInv(w, pid, Proc(c, pc))
    ensures var eff := StopStep(c, pid, pc, w.Doc(), w.store, env);
            var w' := Install(w, pid, c, eff);
            |w'.authors| == |w'.versions| && ProcInv(w', pid, Proc(c, eff.pc))
  {
    hide SetTo, ValidDocument, CommitStep, ValidContinuity, History;
    var eff := StopStep(c, pid, pc, w.Doc(), w.store, env);
    var w' := Install(w, pid, c, eff);
    match pc
    case StopCommit(revision, _) =>
      var o := SetTo(env, w.Doc(), c.id, revision, Stopping);
      if o.result.Success? {
        SetToLegal(env, w.Doc(), c.id, revision, Stopping);
        AnswerIsObserved(w, o.doc, Process(pid), o.result.value);
        StoppingIsOwn(w, pid, o);
      }
    case StopSend(stopping, changed, _) => StopInvStays(w, w', pid, c, stopping, changed);
    case _ =>
  }

  /** A stopping record that this call committed is authored by this command. */
  lemma StoppingIsOwn(w: World, pid: nat, o: Outcome)
    requires Base(w) && o.result.Success?
    requires o.doc != w.Doc() ==> o.result.value.revision == o.doc.revision
    ensures var w' := Publish(w, o.doc, Process(pid));
            o.doc != w.Doc() ==>
              exists i :: 0 <= i < |w'.versions| && w'.versions[i].revision == o.result.value.revision
                          && w'.authors[i] == Process(pid)
  {
    var w' := Publish(w, o.doc, Process(pid));
    if o.doc != w.Doc() {
      var n := |w.versions|;
      assert w'.versions[n] == o.doc && w'.authors[n] == Process(pid);
    }
  }

  lemma LaunchKeepsProcInv(w: World, pid: nat, c: Command, pc: Pc, env: Env)
    requires Base(w) && c.LaunchCommand? && !pc.Begin? && ProcInv(w, pid, Proc(c, pc))
    ensures var eff := LaunchStep(c, pid, pc, w.Doc(), w.store, env);
            var w' := Install(w, pid, c, eff);
            |w'.authors| == |w'.versions| && ProcInv(w', pid, Proc(c, eff.pc))
  {
    hide SetTo, Create, ValidDocument, CommitStep, ValidContinuity, History, NewSession;
  }

  lemma BeginKeepsProcInv(w: World, pid: nat, c: Command, env: Env)
    requires Base(w) && ProcInv(w, pid, Proc(c, Begin))
    ensures var eff := ProcStep(Proc(c, Begin), pid, w.Doc(), w.store, env);
            var w' := Install(w, pid, c, eff);
            |w'.authors| == |w'.versions| && ProcInv(w', pid, Proc(c, eff.pc))
  {
    hide StopStep, LaunchStep, ResumeStep, MutationStep, ValidDocument, CommitStep, ValidContinuity, History;
    assert w.Doc() in w.versions;
  }

  lemma ResumeKeepsProcInv(w: World, pid: nat, c: Command, pc: Pc, env: Env)
    requires Base(w) && c.ResumeCommand? && !pc.Begin? && ProcInv(w, pid, Proc(c, pc))
    ensures var eff := ResumeStep(c, pid, pc, w.Doc(), w.store, env);
            var w' := Install(w, pid, c, eff);
            |w'.authors| == |w'.versions| && ProcInv(w', pid, Proc(c, eff.pc))
  {
    ResumeLeavesStopStates(c, pid, pc, w.Doc(), w.store, env);
    hide ResumeStep;
    if !pc.StopCommit? && !pc.StopSend? && !pc.StopClose? {
      ResumeKeepsResumeInv(w, pid, c, pc, env);
    }
  }

  /** A resume never enters a stop command's states. */
  lemma ResumeLeavesStopStates(c: Command, pid: nat, pc: Pc, doc: Document, store: Continuity, env: Env)
    requires c.ResumeCommand? && !pc.Begin?
    ensures var next := ResumeStep(c, pid, pc, doc, store, env).pc;
            next == pc || !(next.Begin? || next.StopCommit? || next.StopSend? || next.StopClose?)
  {
    hide SetTo, Create, Record;
  }

  lemma ResumeKeepsResumeInv(w: World, pid: nat, c: Command, pc: Pc, env: Env)
    requires Base(w) && c.ResumeCommand? && !pc.Begin? && ResumeInv(w, pid, c, pc)
    ensures var eff := ResumeStep(c, pid, pc, w.Doc(), w.store, env);
            ResumeInv(Install(w, pid, c, eff), pid, c, eff.pc)
  {
    hide SetTo, Create, Record, ValidDocument, CommitStep, ValidContinuity, History, Observed;
    var w' := Install(w, pid, c, ResumeStep(c, pid, pc, w.Doc(), w.store, env));
    match pc
    case ResumeCreate(_, _) => ResumeCreateKeeps(w, pid, c, pc, env);
    case ResumeHost(created, _, _, _) => ObservedStays(w, w', created);
    case ResumeRecord(created, _, prepared, linkRevision) =>
      ObservedStays(w, w', created);
      RecordContract(w.store, linkRevision, LinkFor(c, prepared.generation, env.now));
    case ResumeAttaching(_, _) => ResumeAttachingKeeps(w, pid, c, pc, env);
    case ResumeLive(_, _, _) => ResumeLiveKeeps(w, pid, c, pc, env);
    case Done(result) => ResumeDoneKeeps(w, w', pid, c, pc);
    case _ =>
  }

  lemma ResumeDoneKeeps(w: World, w': World, pid: nat, c: Command, pc: Pc)
    requires w.versions <= w'.versions && w.store.links <= w'.store.links && w.stops <= w'.stops && w'.ready == w.ready
    requires c.ResumeCommand? && pc.Done? && ResumeInv(w, pid, c, pc)
    ensures ResumeInv(w', pid, c, pc)
  {
    hide Observed, Linked;
    if Linked(w, c) { LinkedStays(w, w', c); }
    if pc.result.Success? && pc.result.value.Resumed? {
      ObservedStays(w, w', pc.result.value.created);
      ObservedStays(w, w', pc.result.value.attaching);
      ObservedStays(w, w', pc.result.value.live);
    }
  }

  /** One lifecycle call on a record seen earlier: the answer is observed, and later unless it is that record. */
  lemma SetToAdvances(w: World, pid: nat, env: Env, s: Session, lifecycle: Lifecycle)
    requires Base(w) && Observed(w.versions, s)
    requires SetTo(env, w.Doc(), s.id, s.revision, lifecycle).result.Success?
    ensures var o := SetTo(env, w.Doc(), s.id, s.revision, lifecycle);
            var r := o.result.value;
            && Observed(Publish(w, o.doc, Process(pid)).versions, r)
            && r.id == s.id && r.lifecycle == lifecycle
            && (r == s || s.revision < r.revision)
  {
    hide ValidDocument, CommitStep, SetTo, ValidContinuity, History;
    var o := SetTo(env, w.Doc(), s.id, s.revision, lifecycle);
    SetToLegal(env, w.Doc(), s.id, s.revision, lifecycle);
    AnswerIsObserved(w, o.doc, Process(pid), o.result.value);
    StampedNowIsCurrent(w.versions, s);
    CurrentIsNewer(w.versions, s);
  }

  lemma ResumeCreateKeeps(w: World, pid: nat, c: Command, pc: Pc, env: Env)
    requires Base(w) && c.ResumeCommand? && pc.ResumeCreate? && ResumeInv(w, pid, c, pc)
    ensures var eff := ResumeStep(c, pid, pc, w.Doc(), w.store, env);
            ResumeInv(Install(w, pid, c, eff), pid, c, eff.pc)
  {
    hide ValidDocument, CommitStep, ValidContinuity, History, Create;
    var successor := Successor(pc.prepared.source, c.replacement, env.now);
    var o := Faulty(env, w.Doc(), Create(w.Doc(), successor, pc.prepared.snapshot.revision));
    if o.result.Success? {
      CreateContract(w.Doc(), successor, pc.prepared.snapshot.revision);
      AnswerIsObserved(w, o.doc, Process(pid), o.result.value);
    }
  }

  lemma ResumeAttachingKeeps(w: World, pid: nat, c: Command, pc: Pc, env: Env)
    requires Base(w) && c.ResumeCommand? && pc.ResumeAttaching? && ResumeInv(w, pid, c, pc)
    ensures var eff := ResumeStep(c, pid, pc, w.Doc(), w.store, env);
            ResumeInv(Install(w, pid, c, eff), pid, c, eff.pc)
  {
    hide ValidDocument, CommitStep, ValidContinuity, History, SetTo;
    var w' := Install(w, pid, c, ResumeStep(c, pid, pc, w.Doc(), w.store, env));
    LinkedStays(w, w', c);
    ObservedStays(w, w', pc.created);
    if SetTo(env, w.Doc(), pc.created.id, pc.created.revision, Attaching).result.Success? {
      SetToAdvances(w, pid, env, pc.created, Attaching);
    }
  }

  lemma ResumeLiveKeeps(w: World, pid: nat, c: Command, pc: Pc, env: Env)
    requires Base(w) && c.ResumeCommand? && pc.ResumeLive? && ResumeInv(w, pid, c, pc)
    ensures var eff := ResumeStep(c, pid, pc, w.Doc(), w.store, env);
            ResumeInv(Install(w, pid, c, eff), pid, c, eff.pc)
  {
    hide ValidDocument, CommitStep, ValidContinuity, History, SetTo;
    var w' := Install(w, pid, c, ResumeStep(c, pid, pc, w.Doc(), w.store, env));
    LinkedStays(w, w', c);
    ObservedStays(w, w', pc.created);
    ObservedStays(w, w', pc.attaching);
    if SetTo(env, w.Doc(), pc.attaching.id, pc.attaching.revision, Live).result.Success? {
      SetToAdvances(w, pid, env, pc.attaching, Live);
    }
  }

  // ---------------------------------------------------------------- every event

  lemma MutationKeepsProcInv(w: World, pid: nat, c: Command, pc: Pc, env: Env)
    requires c.ArchiveCommand? || c.RestoreCommand? || c.MetadataCommand? || c.MarkReadCommand?
    requires Base(w) && !pc.Begin? && ProcInv(w, pid, Proc(c, pc))
    ensures var eff := MutationStep(c, pc, w.Doc(), w.store, env);
            var w' := Install(w, pid, c, eff);
            |w'.authors| == |w'.versions| && ProcInv(w', pid, Proc(c, eff.pc))
  {
    hide Mutate, ValidDocument, CommitStep, ValidContinuity, History;
  }

  /** The command that steps keeps its own part of the invariant. */
  lemma OwnProcInv(w: World, pid: nat, c: Command, pc: Pc, env: Env)
    requires Base(w) && ProcInv(w, pid, Proc(c, pc))
    ensures var eff := ProcStep(Proc(c, pc), pid, w.Doc(), w.store, env);
            var w' := Install(w, pid, c, eff);
            |w'.authors| == |w'.versions| && ProcInv(w', pid, Proc(c, eff.pc))
  {
    hide Base, ProcInv, Install, StopBegin, LaunchBegin, ResumeBegin, MutationBegin,
         StopStep, LaunchStep, ResumeStep, MutationStep;
    if pc.Begin? { BeginKeepsProcInv(w, pid, c, env); }
    else if c.StopCommand? { StopKeepsProcInv(w, pid, c, pc, env); }
    else if c.LaunchCommand? { LaunchKeepsProcInv(w, pid, c, pc, env); }
    else if c.ResumeCommand? { ResumeKeepsProcInv(w, pid, c, pc, env); }
    else { MutationKeepsProcInv(w, pid, c, pc, env); }
  }

  /** A command calls the launcher once, and a requested launch only for a session its snapshot lacked. */
  lemma LaunchCallIsFirst(w: World, pid: nat, c: Command, pc: Pc, env: Env)
    requires Base(w) && ProcInv(w, pid, Proc(c, pc))
    ensures var call := ProcStep(Proc(c, pc), pid, w.Doc(), w.store, env).launched;
            call.Some? ==>
              && call.value.pid == pid && NoLaunch(w, pid)
              && (call.value.requested ==>
                    call.value.snapshot in w.versions && call.value.session !in call.value.snapshot.sessions)
  {
    hide SetTo, Create, Record, Mutate, ValidDocument, CommitStep, ValidContinuity, History,
         StopBegin, LaunchBegin, ResumeBegin, MutationBegin, Observed, StopInv;
  }

  lemma InstallFacts(w: World, pid: nat, c: Command, eff: Effect)
    requires Base(w) && pid in w.procs && LegalEffect(w.Doc(), w.store, eff)
    ensures var w' := Install(w, pid, c, eff);
            && Base(w') && Extends(w, w')
            && (forall q :: q != pid ==>
                  && (Silent(w, q) ==> Silent(w', q))
                  && (q in w'.ready ==> q in w.ready)
                  && (NoLaunch(w, q) && (eff.launched.Some? ==> eff.launched.value.pid == pid) ==> NoLaunch(w', q)))
            && (forall i :: 0 <= i < |w'.authors| ==>
                  w'.authors[i] == Process(pid) || (i < |w.authors| && w'.authors[i] == w.authors[i]))
  {
    hide ValidDocument, CommitStep;
    PublishKeepsHistory(w, eff.doc, Process(pid));
  }

  lemma LaunchesStay(w: World, pid: nat, c: Command, eff: Effect)
    requires Base(w) && LaunchesInv(w) && pid in w.procs
    requires eff.launched.Some? ==>
               && eff.launched.value.pid == pid && NoLaunch(w, pid)
               && (eff.launched.value.requested ==>
                     && eff.launched.value.snapshot in w.versions
                     && eff.launched.value.session !in eff.launched.value.snapshot.sessions)
    ensures LaunchesInv(Install(w, pid, c, eff))
  {
    hide ValidDocument, CommitStep, ValidContinuity, History;
  }

  lemma ActKeepsInv(w: World, pid: nat, env: Env)
    requires Inv(w) && pid in w.procs
    ensures var c := w.procs[pid].command;
            Inv(Install(w, pid, c, ProcStep(w.procs[pid], pid, w.Doc(), w.store, env)))
  {
    hide Base, ProcInv, LaunchesInv, LegalEffect, ProcStep;
    var p := w.procs[pid];
    assert p == Proc(p.command, p.pc);
    BaseFacts(w);
    var eff := ProcStep(p, pid, w.Doc(), w.store, env);
    var w' := Install(w, pid, p.command, eff);
    StepIsLegal(p, pid, w.Doc(), w.store, env);
    OwnProcInv(w, pid, p.command, p.pc, env);
    InstallFacts(w, pid, p.command, eff);
    LaunchCallIsFirst(w, pid, p.command, p.pc, env);
    LaunchesStay(w, pid, p.command, eff);
    forall q | q in w'.procs ensures ProcInv(w', q, w'.procs[q]) {
      if q != pid {
        BaseFacts(w');
        OthersKeepProcInv(w, w', q, w.procs[q]);
      }
    }
  }

  lemma BaseFacts(w: World)
    requires Base(w)
    ensures w.versions != [] && |w.authors| == |w.versions| && ValidDocument(w.Doc()) && ValidContinuity(w.store)
  {
  }

  /** Any world that only adds commits of outside writers and links keeps the invariant. */
  lemma OutsideKeepsInv(w: World, doc: Document, store: Continuity)
    requires Inv(w)
    requires ValidDocument(doc) && (doc != w.Doc() ==> CommitStep(w.Doc(), doc))
    requires ValidContinuity(store) && w.store.links <= store.links
    ensures Inv(Publish(w, doc, Outside).(store := store))
  {
    hide ProcInv, ValidDocument, CommitStep;
    var w' := Publish(w, doc, Outside).(store := store);
    PublishKeepsHistory(w, doc, Outside);
    forall q | q in w'.procs ensures ProcInv(w', q, w'.procs[q]) {
      OthersKeepProcInv(w, w', q, w.procs[q]);
    }
  }

  lemma StartKeepsInv(w: World, pid: nat, c: Command)
    requires Inv(w) && pid !in w.procs
    ensures Inv(w.(procs := w.procs[pid := Proc(c, Begin)]))
  {
    hide Base, CommitStep;
    BaseFacts(w);
    var w' := w.(procs := w.procs[pid := Proc(c, Begin)]);
    assert Base(w') by { BaseDependsOnStores(w, w'); }
    forall q | q in w'.procs ensures ProcInv(w', q, w'.procs[q]) {
      if q != pid { OthersKeepProcInv(w, w', q, w.procs[q]); }
    }
  }

  lemma BaseDependsOnStores(w: World, w': World)
    requires Base(w) && w'.versions == w.versions && w'.authors == w.authors && w'.store == w.store
    ensures Base(w')
  {
  }

  lemma NextKeepsInv(w: World, e: Event)
    requires Inv(w)
    ensures Inv(Next(w, e))
  {
    hide Base, ProcInv, LaunchesInv, Install, Publish, Create, Mutate, Remove, Record, CommitStep, ProcStep;
    BaseFacts(w);
    match e
    case Start(pid, c) => if pid !in w.procs { StartKeepsInv(w, pid, c); }
    case Act(pid, env) => if pid in w.procs { ActKeepsInv(w, pid, env); }
    case OutsideMutate(id, m, now) =>
      MutateContract(w.Doc(), id, w.Doc().revision, m, now);
      OutsideKeepsInv(w, Mutate(w.Doc(), id, w.Doc().revision, m, now).doc, w.store);
      PublishLeavesStore(w, Mutate(w.Doc(), id, w.Doc().revision, m, now).doc);
    case OutsideCreate(s) =>
      if ValidSession(s) {
        CreateContract(w.Doc(), s, w.Doc().revision);
        OutsideKeepsInv(w, Create(w.Doc(), s, w.Doc().revision).doc, w.store);
        PublishLeavesStore(w, Create(w.Doc(), s, w.Doc().revision).doc);
      }
    case OutsideRemove(id) =>
      RemoveContract(w.Doc(), id, w.Doc().revision);
      OutsideKeepsInv(w, Remove(w.Doc(), id, w.Doc().revision).doc, w.store);
      PublishLeavesStore(w, Remove(w.Doc(), id, w.Doc().revision).doc);
    case OutsideCommit(doc) =>
      if OutsideMay(w.Doc(), doc) {
        OutsideKeepsInv(w, doc, w.store);
        PublishLeavesStore(w, doc);
      }
    case OutsideLink(link) =>
      RecordContract(w.store, w.store.revision, link);
      OutsideKeepsInv(w, w.Doc(), Record(w.store, w.store.revision, link).store);
      PublishNothing(w);
  }

  lemma PublishLeavesStore(w: World, doc: Document)
    requires w.versions != []
    ensures Publish(w, doc, Outside).(store := w.store) == Publish(w, doc, Outside)
  {
  }

  lemma PublishNothing(w: World)
    requires w.versions != []
    ensures Publish(w, w.Doc(), Outside) == w
  {
  }

  /** The invariant holds after every run. */
  lemma {:induction false} RunKeepsInv(w: World, events: seq<Event>)
    requires Initial(w)
    ensures Inv(Run(w, events))
    decreases |events|
  {
    if events == [] {
      assert Base(w);
    } else {
      RunKeepsInv(w, events[..|events| - 1]);
      NextKeepsInv(Run(w, events[..|events| - 1]), events[|events| - 1]);
    }
  }
}
