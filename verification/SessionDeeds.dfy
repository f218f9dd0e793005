/**
 What the steps of a run settle for the command that takes them: the events the outcome of a stop or a resume is traced
 back to.
 */
module SessionDeeds {
  import opened Wrappers
  import opened SessionDomain
  import opened SessionStore
  import opened Continuity
  import opened Orchestration
  import opened SessionOrigins
  import opened SessionProgress

  /** What one step of a command can settle. */
  datatype Deed =
    | Passed(stage: nat)  // an early step of a resume met no objection
    | LinkAnswered  // the link is written and its call answers success
    | LinkLanded    // the link is written although its call answers an error
    | GivenUp       // the resume was cancelled and its Host came up ready, or its link call answered an error
    | HeldBack      // its Attaching or its Live call answered an error
    | HostStopped   // the Host answered a stop that it has stopped
    | HostRefused   // it answered anything else
    | ExitWritten   // a stop's Exited call is written

  /** The store can take the link: nothing succeeds its source, precedes its replacement, or starts from there. */
  predicate LinkRoom(store: Continuity, expected: nat, link: Link) {
    && ValidLink(link)
    && store.revision == expected && store.revision < U64_MAX && |store.links| < MAX_LINKS
    && forall existing :: existing in store.links ==>
         && existing.source != link.source && existing.replacement != link.replacement
         && existing.source != link.replacement
  }

  /** The early control points of a resume, in order. */
  function Stage(pc: Pc): Option<nat> {
    match pc
    case Begin => Some(0)
    case ResumeRecheck(_) => Some(1)
    case ResumeConfirm(_) => Some(2)
    case ResumeLinks(_) => Some(3)
    case ResumeCreate(_, _) => Some(4)
    case _ => None
  }

  predicate PassesEarly(c: Command, pc: Pc, doc: Document, store: Continuity, env: Env)
    requires c.ResumeCommand?
  {
    if pc.ResumeCreate? then CreateError(env, doc, c.replacement, pc.prepared.snapshot.revision).None?
    else ResumeEarly(pc) && ResumeObjection(c, pc, doc, store, env).None?
  }

  /** A lifecycle call about that record answers an error. */
  predicate MoveFails(env: Env, doc: Document, s: Session, to: Lifecycle) {
    SetError(env, doc, s.id, s.revision, to).Some?
  }

  predicate Settles(c: Command, pc: Pc, doc: Document, store: Continuity, env: Env, deed: Deed) {
    if c.ResumeCommand? then ResumeSettles(c, pc, doc, store, env, deed)
    else c.StopCommand? && StopSettles(pc, doc, env, deed)
  }

  predicate StopSettles(pc: Pc, doc: Document, env: Env, deed: Deed) {
    match deed
    case HostStopped => pc.StopSend? && env.stop.Stopped?
    case HostRefused => pc.StopSend? && !env.stop.Stopped?
    case ExitWritten =>
      pc.StopClose? && pc.stopping.revision == doc.revision && doc.revision < U64_MAX && (!env.fault || env.landed)
    case _ => false
  }

  predicate ResumeSettles(c: Command, pc: Pc, doc: Document, store: Continuity, env: Env, deed: Deed)
    requires c.ResumeCommand?
  {
    match deed
    case Passed(stage) => Stage(pc) == Some(stage) && PassesEarly(c, pc, doc, store, env)
    case LinkAnswered => !env.fault && TakesLink(c, pc, store, env)
    case LinkLanded => env.fault && env.landed && TakesLink(c, pc, store, env)
    case GivenUp =>
      || (pc.ResumeHost? && (env.launch.ReadyAfterPreReadyCancellation? || (env.launch.Ready? && env.cancelled)))
      || (pc.ResumeRecord? && (env.fault || LinkCall(c, pc, store, env).result.Failure?))
    case HeldBack =>
      || (pc.ResumeAttaching? && MoveFails(env, doc, pc.created, Attaching))
      || (pc.ResumeLive? && MoveFails(env, doc, pc.attaching, Live))
    case _ => false
  }

  function LinkCall(c: Command, pc: Pc, store: Continuity, env: Env): RecordOutcome
    requires c.ResumeCommand? && pc.ResumeRecord?
  {
    Record(store, pc.linkRevision, LinkFor(c, pc.prepared.generation, env.now))
  }

  predicate TakesLink(c: Command, pc: Pc, store: Continuity, env: Env)
    requires c.ResumeCommand?
  {
    pc.ResumeRecord? && LinkRoom(store, pc.linkRevision, LinkFor(c, pc.prepared.generation, env.now))
  }

  predicate Does(x: World, e: Event, pid: nat, deed: Deed)
    requires x.versions != []
  {
    && e.Act? && e.pid == pid && pid in x.procs
    && Settles(x.procs[pid].command, x.procs[pid].pc, x.Doc(), x.store, e.env, deed)
  }

  /** Some step of the run settled it. */
  predicate Did(w: World, events: seq<Event>, pid: nat, deed: Deed)
    requires w.versions != []
  {
    exists k :: 0 <= k < |events| && Does(Before(w, events, k), events[k], pid, deed)
  }

  lemma DidSnoc(w: World, events: seq<Event>, e: Event, pid: nat, deed: Deed)
    requires w.versions != []
    ensures Did(w, events + [e], pid, deed) <==> Did(w, events, pid, deed) || Does(Run(w, events), e, pid, deed)
  {
    hide Run, Does;
    var all := events + [e];
    assert Before(w, all, |events|) == Run(w, events) by { assert all[..|events|] == events; }
    forall k: nat | k < |events| ensures Before(w, all, k) == Before(w, events, k) && all[k] == events[k] {
      BeforeExtends(w, events, e, k);
    }
    assert all[|events|] == e;
    if Did(w, events, pid, deed) {
      var k :| 0 <= k < |events| && Does(Before(w, events, k), events[k], pid, deed);
      assert Does(Before(w, all, k), all[k], pid, deed);
    }
  }
}
