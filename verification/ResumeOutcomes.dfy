/**
 How a resume ends (crates/multiplex-cli/src/local.rs): whether its link stands and whether its Host was sent a stop,
 each decided by one earlier step of the run.
 */
module ResumeOutcomes {
  import opened Wrappers
  import opened SessionDomain
  import opened SessionStore
  import opened Continuity
  import opened Orchestration
  import opened OrchestrationInvariant
  import opened SessionOrigins
  import opened SessionDeeds
  import opened SessionProgress
  import SessionTheorems

  // ---- nobody else writes under the command id ----

  predicate Unnamed(links: seq<Link>, c: Command)
    requires c.ResumeCommand?
  {
    forall l :: l in links ==> l.command != c.command
  }

  predicate NotFromOutside(events: seq<Event>, c: Command)
    requires c.ResumeCommand?
  {
    forall e :: e in events && e.OutsideLink? ==> e.link.command != c.command
  }

  /** An event by which some resume of this command id writes a link. */
  predicate WritesFor(x: World, e: Event, c: Command)
    requires x.versions != [] && c.ResumeCommand?
  {
    && e.Act? && e.pid in x.procs && SameId(x.procs[e.pid].command, c)
    && (Does(x, e, e.pid, LinkAnswered) || Does(x, e, e.pid, LinkLanded))
  }

  predicate SameId(other: Command, c: Command)
    requires c.ResumeCommand?
  {
    other.ResumeCommand? && other.command == c.command
  }

  predicate Wrote(w: World, events: seq<Event>, pid: nat)
    requires w.versions != []
  {
    Did(w, events, pid, LinkAnswered) || Did(w, events, pid, LinkLanded)
  }

  /** No other resume wrote a link under this command id; one may have tried, as an earlier try of the same request. */
  predicate OthersWroteNone(w: World, events: seq<Event>, pid: nat, c: Command)
    requires w.versions != [] && c.ResumeCommand?
  {
    forall q :: q in Run(w, events).procs && q != pid && SameId(Run(w, events).procs[q].command, c)
                ==> !Wrote(w, events, q)
  }

  /** Nobody but this resume writes a link under its command id. */
  predicate OwnsItsId(w: World, events: seq<Event>, pid: nat, c: Command)
    requires w.versions != [] && c.ResumeCommand?
  {
    && Unnamed(w.store.links, c)
    && NotFromOutside(events, c)
    && OthersWroteNone(w, events, pid, c)
  }

  // ---- what each event leaves alone ----

  /** Only a resume's link call writes a link, and it is that command's own. */
  lemma StepTouches(p: Proc, pid: nat, doc: Document, store: Continuity, env: Env)
    ensures var eff := ProcStep(p, pid, doc, store, env);
            && (eff.stop.Some? ==> eff.stop.value.pid == pid)
            && (eff.store != store ==>
                  && p.command.ResumeCommand? && p.pc.ResumeRecord?
                  && eff.store == FaultyStore(env, store, LinkCall(p.command, p.pc, store, env)))
  {
    hide SetTo, Create, Record, Mutate;
  }

  lemma RecordAdds(store: Continuity, expected: nat, link: Link)
    ensures var after := Record(store, expected, link).store; after == store || after.links == store.links + [link]
  {
  }

  /** What a step leaves in the shared parts a resume looks back on. */
  lemma ActLeaves(x: World, e: Event)
    requires x.versions != [] && e.Act? && e.pid in x.procs
    ensures var p := x.procs[e.pid];
            var eff := ProcStep(p, e.pid, x.Doc(), x.store, e.env);
            && Next(x, e).store == eff.store
            && Next(x, e).stops == x.stops + (if eff.stop.Some? then {eff.stop.value} else {})
            && Next(x, e).ready == x.ready + (if eff.ready then {e.pid} else {})
            && Next(x, e).procs == x.procs[e.pid := Proc(p.command, eff.pc)]
  {
    hide ProcStep;
  }

  lemma OutsideLeaves(x: World, e: Event)
    requires x.versions != [] && !(e.Act? && e.pid in x.procs)
    ensures Next(x, e).stops == x.stops && Next(x, e).ready == x.ready
    ensures Next(x, e).store == if e.OutsideLink? then Record(x.store, x.store.revision, e.link).store else x.store
    ensures Next(x, e).procs == if e.Start? && e.pid !in x.procs then x.procs[e.pid := Proc(e.command, Begin)]
                                else x.procs
  {
    hide ProcStep, Mutate, Create, Remove, Record, OutsideMay;
  }

  predicate IsStep(x: World, e: Event, pid: nat) { e.Act? && e.pid == pid && pid in x.procs }

  predicate Named(links: seq<Link>, c: Command)
    requires c.ResumeCommand?
  {
    exists l :: l in links && l.command == c.command
  }

  /** Another command's or writer's event adds no stop, no link and no ready Host of this resume. */
  lemma OthersLeave(x: World, e: Event, pid: nat, c: Command)
    requires x.versions != [] && c.ResumeCommand? && !IsStep(x, e, pid)
    ensures StopSent(Next(x, e), pid, c) <==> StopSent(x, pid, c)
    ensures pid in x.ready ==> pid in Next(x, e).ready
    ensures x.store.links <= Next(x, e).store.links
    ensures x.store.revision <= U64_MAX && !WritesFor(x, e, c) && NotFromOutside([e], c) ==>
              (Named(Next(x, e).store.links, c) <==> Named(x.store.links, c))
  {
    hide Next, ProcStep, LinkCall, Record;
    if e.Act? && e.pid in x.procs {
      ActLeaves(x, e);
      StepTouches(x.procs[e.pid], e.pid, x.Doc(), x.store, e.env);
      if Next(x, e).store != x.store { OtherCallAdds(x, e, pid, c); }
    } else {
      OutsideLeaves(x, e);
      assert e in [e];
      if e.OutsideLink? { RecordAdds(x.store, x.store.revision, e.link); }
    }
  }

  lemma OtherCallAdds(x: World, e: Event, pid: nat, c: Command)
    requires x.versions != [] && c.ResumeCommand? && e.Act? && e.pid in x.procs && e.pid != pid
    requires x.procs[e.pid].command.ResumeCommand? && x.procs[e.pid].pc.ResumeRecord?
    ensures var after := StoreAfter(x, e);
            && x.store.links <= after.links
            && (x.store.revision <= U64_MAX && !WritesFor(x, e, c) ==>
                  (Named(after.links, c) <==> Named(x.store.links, c)))
  {
    var p := x.procs[e.pid];
    var link := LinkFor(p.command, p.pc.prepared.generation, e.env.now);
    RecordAdds(x.store, p.pc.linkRevision, link);
    if SameId(p.command, c) && x.store.revision <= U64_MAX {
      if Named(x.store.links, c) { RecordRepeats(x.store, p.pc.linkRevision, link); }
      else { RecordDecides(x.store, p.pc.linkRevision, link); }
    }
    hide Record, LinkRoom;
  }

  /** The continuity store after a step at the link call. */
  function StoreAfter(x: World, e: Event): Continuity
    requires e.Act? && e.pid in x.procs
    requires x.procs[e.pid].command.ResumeCommand? && x.procs[e.pid].pc.ResumeRecord?
  {
    FaultyStore(e.env, x.store, LinkCall(x.procs[e.pid].command, x.procs[e.pid].pc, x.store, e.env))
  }

  lemma RecordRepeats(store: Continuity, expected: nat, link: Link)
    requires exists l :: l in store.links && l.command == link.command
    ensures Record(store, expected, link).store == store
  {
  }

  lemma RecordDecides(store: Continuity, expected: nat, link: Link)
    requires store.revision <= U64_MAX && forall l :: l in store.links ==> l.command != link.command
    ensures var o := Record(store, expected, link);
            && (o.result.Success? <==> LinkRoom(store, expected, link))
            && o.store == if LinkRoom(store, expected, link) then Continuity(store.revision + 1, store.links + [link])
                          else store
  {
    hide ValidLink;
  }

  // ---- what a resume's control point says of its past ----

  /** Which deeds lie behind it. */
  datatype Past = Past(answered: bool, landed: bool, givenUp: bool, heldBack: bool)

  const NOTHING := Past(false, false, false, false)

  predicate Fits(pc: Pc, past: Past) {
    match pc
    case ResumeAttaching(_, _) => past == Past(true, false, false, false)
    case ResumeLive(_, _, _) => past == Past(true, false, false, false)
    case AbortStop(_, _, _) => !past.answered && past.givenUp && !past.heldBack
    case Close(_, _, _) => !past.answered && !past.heldBack && (past.landed ==> past.givenUp)
    case Done(result) =>
      && (past.landed ==> past.givenUp)
      && (past.givenUp ==> result.Failure?)
      && (past.answered ==> !past.landed && !past.givenUp)
      && (past.heldBack ==> past.answered && result.Failure?)
      && (past.answered && !past.heldBack <==> result.Success? && result.value.Resumed?)
    case _ => past == NOTHING
  }

  /** The past of one command after a step from there. */
  function After(past: Past, c: Command, pc: Pc, doc: Document, store: Continuity, env: Env): Past
    requires c.ResumeCommand?
  {
    Past(past.answered || Settles(c, pc, doc, store, env, LinkAnswered),
         past.landed || Settles(c, pc, doc, store, env, LinkLanded),
         past.givenUp || Settles(c, pc, doc, store, env, GivenUp),
         past.heldBack || Settles(c, pc, doc, store, env, HeldBack))
  }

  lemma SetToFails(env: Env, doc: Document, s: Session, lifecycle: Lifecycle)
    ensures SetTo(env, doc, s.id, s.revision, lifecycle).result.Failure? <==> MoveFails(env, doc, s, lifecycle)
  {
    SetToMeans(env, doc, s.id, s.revision, lifecycle);
  }

  predicate BeforeHost(pc: Pc) {
    pc.Begin? || pc.ResumeRecheck? || pc.ResumeConfirm? || pc.ResumeLinks? || pc.ResumeCreate?
  }

  lemma EarlyStepFits(c: Command, pid: nat, pc: Pc, doc: Document, store: Continuity, env: Env)
    requires c.ResumeCommand? && BeforeHost(pc)
    ensures Fits(ProcStep(Proc(c, pc), pid, doc, store, env).pc, NOTHING)
    ensures After(NOTHING, c, pc, doc, store, env) == NOTHING
  {
    hide Create, MoveFails, LinkRoom, Record;
    hide ResumeBegin;
    EarlyBegin(c, doc, store, env);
  }

  lemma EarlyBegin(c: Command, doc: Document, store: Continuity, env: Env)
    requires c.ResumeCommand?
    ensures var pc := ResumeBegin(c, doc, store, env).pc; pc.ResumeRecheck? || (pc.Done? && pc.result.Failure?)
  {
  }

  lemma LinkStepFits(c: Command, pid: nat, pc: Pc, doc: Document, store: Continuity, env: Env)
    requires c.ResumeCommand? && pc.ResumeRecord? && store.revision <= U64_MAX && Unnamed(store.links, c)
    ensures Fits(ProcStep(Proc(c, pc), pid, doc, store, env).pc, After(NOTHING, c, pc, doc, store, env))
  {
    hide Record, LinkRoom;
    RecordDecides(store, pc.linkRevision, LinkFor(c, pc.prepared.generation, env.now));
  }

  lemma MoveStepFits(c: Command, pid: nat, pc: Pc, doc: Document, store: Continuity, env: Env, past: Past)
    requires c.ResumeCommand? && (pc.ResumeAttaching? || pc.ResumeLive?) && Fits(pc, past)
    ensures Fits(ProcStep(Proc(c, pc), pid, doc, store, env).pc, After(past, c, pc, doc, store, env))
  {
    hide SetTo, MoveFails;
    if pc.ResumeAttaching? { SetToFails(env, doc, pc.created, Attaching); }
    else { SetToFails(env, doc, pc.attaching, Live); }
  }

  lemma LateStepFits(c: Command, pid: nat, pc: Pc, doc: Document, store: Continuity, env: Env, past: Past)
    requires c.ResumeCommand? && !BeforeHost(pc) && Fits(pc, past)
    requires !pc.ResumeRecord? && !pc.ResumeAttaching? && !pc.ResumeLive?
    ensures Fits(ProcStep(Proc(c, pc), pid, doc, store, env).pc, After(past, c, pc, doc, store, env))
  {
    hide SetTo;
  }

  /** A step of a resume keeps its control point and its past in accord. */
  lemma StepFits(c: Command, pid: nat, pc: Pc, doc: Document, store: Continuity, env: Env, past: Past)
    requires c.ResumeCommand? && store.revision <= U64_MAX && Fits(pc, past)
    requires pc.ResumeRecord? ==> Unnamed(store.links, c)
    ensures Fits(ProcStep(Proc(c, pc), pid, doc, store, env).pc, After(past, c, pc, doc, store, env))
  {
    hide ProcStep, After;
    if BeforeHost(pc) { EarlyStepFits(c, pid, pc, doc, store, env); }
    else if pc.ResumeRecord? { LinkStepFits(c, pid, pc, doc, store, env); }
    else if pc.ResumeAttaching? || pc.ResumeLive? { MoveStepFits(c, pid, pc, doc, store, env, past); }
    else { LateStepFits(c, pid, pc, doc, store, env, past); }
  }

  /** What a step of a resume adds to the links. */
  lemma StepTells(c: Command, pid: nat, pc: Pc, doc: Document, store: Continuity, env: Env)
    requires c.ResumeCommand? && store.revision <= U64_MAX
    requires pc.ResumeRecord? ==> Unnamed(store.links, c)
    ensures var eff := ProcStep(Proc(c, pc), pid, doc, store, env);
            && (eff.store == store || pc.ResumeRecord?)
            && (pc.ResumeRecord? ==>
                  var writes := Settles(c, pc, doc, store, env, LinkAnswered)
                                || Settles(c, pc, doc, store, env, LinkLanded);
                  eff.store.links ==
                    if writes then store.links + [LinkFor(c, pc.prepared.generation, env.now)] else store.links)
            && (eff.pc.ResumeRecord? ==> eff.ready)
  {
    hide SetTo, Create, Record, Mutate, LinkRoom, MoveFails;
    if pc.ResumeRecord? { RecordDecides(store, pc.linkRevision, LinkFor(c, pc.prepared.generation, env.now)); }
  }

  /** Whether it has given its Host up, as far as its control point says. */
  predicate GivenFits(pc: Pc, given: bool) {
    && (pc.AbortStop? ==> given)
    && (!pc.AbortStop? && !pc.Close? && !pc.Done? ==> !given)
  }

  /** What a step of a resume adds to the stops. */
  lemma StepStops(c: Command, pid: nat, pc: Pc, doc: Document, store: Continuity, env: Env, given: bool)
    requires c.ResumeCommand? && GivenFits(pc, given)
    ensures var eff := ProcStep(Proc(c, pc), pid, doc, store, env);
            var gives := Settles(c, pc, doc, store, env, GivenUp);
            && GivenFits(eff.pc, given || gives)
            && eff.stop == (if pc.AbortStop? then Some(StopRequest(pid, pc.created.id, Some(pid))) else None)
            && (pc.AbortStop? ==> eff.pc.Close?)
            && (eff.pc.AbortStop? <==> gives)
  {
    hide SetTo, Create, Record, Mutate;
  }

  // ---- over runs ----

  ghost predicate PcTold(x: World, pid: nat, c: Command, past: Past)
    requires c.ResumeCommand?
  {
    if pid in x.procs then
      x.procs[pid].command == c && Fits(x.procs[pid].pc, past) && (x.procs[pid].pc.ResumeRecord? ==> pid in x.ready)
    else past == NOTHING
  }

  /** The command's link, told from its past. */
  ghost predicate LinkTold(x: World, pid: nat, c: Command, past: Past)
    requires c.ResumeCommand?
  {
    && (Named(x.store.links, c) <==> past.answered || past.landed)
    && (Named(x.store.links, c) ==> Linked(x, c) && pid in x.ready)
  }

  ghost predicate Told(x: World, pid: nat, c: Command, past: Past)
    requires c.ResumeCommand?
  {
    PcTold(x, pid, c, past) && LinkTold(x, pid, c, past)
  }

  /** The stop of its Host, told from whether it was given up. */
  ghost predicate StopTold(x: World, pid: nat, c: Command, given: bool)
    requires c.ResumeCommand?
  {
    && (if pid in x.procs then x.procs[pid].command == c && GivenFits(x.procs[pid].pc, given) else !given)
    && (given <==> StopSent(x, pid, c) || (pid in x.procs && x.procs[pid].pc.AbortStop?))
  }

  function NextPast(past: Past, x: World, e: Event, pid: nat): Past
    requires x.versions != []
  {
    if IsStep(x, e, pid) && x.procs[pid].command.ResumeCommand? then
      After(past, x.procs[pid].command, x.procs[pid].pc, x.Doc(), x.store, e.env)
    else past
  }

  /** The abort stops the replacement, and the store is within its bounds. */
  lemma ResumeFacts(x: World, pid: nat, c: Command)
    requires Inv(x) && pid in x.procs && x.procs[pid].command == c && c.ResumeCommand?
    ensures x.store.revision <= U64_MAX
    ensures x.procs[pid].pc.AbortStop? ==> x.procs[pid].pc.created.id == c.replacement
  {
    hide LaunchesInv, History, ValidDocument, ValidLinks, Linked, StopSent, NoLaunch;
    assert ProcInv(x, pid, x.procs[pid]);
  }

  /** A step of the resume at hand, with its effect laid out. */
  ghost predicate Stepped(x: World, e: Event, x': World, pid: nat, c: Command)
    requires x.versions != [] && c.ResumeCommand?
  {
    && IsStep(x, e, pid) && x.procs[pid].command == c
    && var eff := ProcStep(Proc(c, x.procs[pid].pc), pid, x.Doc(), x.store, e.env);
    && x'.procs == x.procs[pid := Proc(c, eff.pc)]
    && x'.store == eff.store
    && x'.stops == x.stops + (if eff.stop.Some? then {eff.stop.value} else {})
    && x'.ready == x.ready + if eff.ready then {pid} else {}
  }

  lemma OwnStep(x: World, e: Event, pid: nat, c: Command)
    requires x.versions != [] && c.ResumeCommand? && IsStep(x, e, pid) && x.procs[pid].command == c
    ensures Stepped(x, e, Next(x, e), pid, c)
  {
    ActLeaves(x, e);
    assert x.procs[pid] == Proc(c, x.procs[pid].pc);
    hide Next, ProcStep;
  }

  lemma OwnLink(x: World, e: Event, x': World, pid: nat, c: Command, past: Past)
    requires x.versions != [] && c.ResumeCommand? && Stepped(x, e, x', pid, c) && x.store.revision <= U64_MAX
    requires Told(x, pid, c, past)
    ensures LinkTold(x', pid, c, NextPast(past, x, e, pid))
    ensures x'.procs[pid].pc.ResumeRecord? ==> pid in x'.ready
  {
    var pc := x.procs[pid].pc;
    assert pc.ResumeRecord? ==> past == NOTHING;
    hide ProcStep, LinkRoom, LinkCall, MoveFails, Fits;
    StepTells(c, pid, pc, x.Doc(), x.store, e.env);
    if pc.ResumeRecord? {
      var link := LinkFor(c, pc.prepared.generation, e.env.now);
      assert link in x.store.links + [link];
    }
  }

  lemma OwnStop(x: World, e: Event, x': World, pid: nat, c: Command, given: bool)
    requires x.versions != [] && c.ResumeCommand? && Stepped(x, e, x', pid, c) && StopTold(x, pid, c, given)
    requires x.procs[pid].pc.AbortStop? ==> x.procs[pid].pc.created.id == c.replacement
    ensures StopTold(x', pid, c, given || Does(x, e, pid, GivenUp))
  {
    hide ProcStep, Settles;
    StepStops(c, pid, x.procs[pid].pc, x.Doc(), x.store, e.env, given);
  }

  lemma OwnStepTold(x: World, e: Event, pid: nat, c: Command, past: Past)
    requires Inv(x) && x.versions != [] && c.ResumeCommand? && IsStep(x, e, pid) && Told(x, pid, c, past)
    ensures Told(Next(x, e), pid, c, NextPast(past, x, e, pid))
  {
    ResumeFacts(x, pid, c);
    OwnStep(x, e, pid, c);
    var pc := x.procs[pid].pc;
    assert pc.ResumeRecord? ==> past == NOTHING;
    hide Next, Inv, ProcStep, Settles, Fits;
    StepFits(c, pid, pc, x.Doc(), x.store, e.env, past);
    OwnLink(x, e, Next(x, e), pid, c, past);
    hide LinkTold;
  }

  lemma OtherStepTold(x: World, e: Event, pid: nat, c: Command, past: Past)
    requires x.versions != [] && c.ResumeCommand? && !IsStep(x, e, pid) && Told(x, pid, c, past)
    requires x.store.revision <= U64_MAX && !WritesFor(x, e, c) && NotFromOutside([e], c)
    requires pid in Next(x, e).procs ==> Next(x, e).procs[pid].command == c
    ensures Told(Next(x, e), pid, c, NextPast(past, x, e, pid))
  {
    OthersLeave(x, e, pid, c);
    OtherLeavesProc(x, e, pid);
    assert NextPast(past, x, e, pid) == past;
    hide Next, NextPast, WritesFor, NotFromOutside, Fits, Named;
    assert Linked(x, c) ==> Linked(Next(x, e), c);
  }

  lemma OtherLeavesProc(x: World, e: Event, pid: nat)
    requires x.versions != [] && !IsStep(x, e, pid)
    ensures pid in Next(x, e).procs ==>
              if pid in x.procs then Next(x, e).procs[pid] == x.procs[pid] else Next(x, e).procs[pid].pc.Begin?
    ensures pid in x.procs ==> pid in Next(x, e).procs
  {
    hide Next, ProcStep;
    if e.Act? && e.pid in x.procs { ActLeaves(x, e); } else { OutsideLeaves(x, e); }
  }

  lemma NextStopTold(x: World, e: Event, pid: nat, c: Command, given: bool)
    requires Inv(x) && x.versions != [] && c.ResumeCommand? && StopTold(x, pid, c, given)
    requires pid in Next(x, e).procs ==> Next(x, e).procs[pid].command == c
    ensures StopTold(Next(x, e), pid, c, given || Does(x, e, pid, GivenUp))
  {
    if IsStep(x, e, pid) {
      ResumeFacts(x, pid, c);
      OwnStep(x, e, pid, c);
      hide Next, Inv, Does, StopTold;
      assert x.procs[pid].command == c by { ProcMoves(x, e, pid); }
      OwnStop(x, e, Next(x, e), pid, c, given);
    } else {
      OthersLeave(x, e, pid, c);
      OtherLeavesProc(x, e, pid);
      hide Next, Inv, StopSent, Settles;
    }
  }

  // ---- the run of one resume ----

  /** The command a run has under this number, if it has one, is this resume. */
  predicate IsResume(x: World, pid: nat, c: Command) {
    c.ResumeCommand? && (pid in x.procs ==> x.procs[pid].command == c)
  }

  function PastOf(w: World, events: seq<Event>, pid: nat): Past
    requires w.versions != []
  {
    Past(Did(w, events, pid, LinkAnswered), Did(w, events, pid, LinkLanded), Did(w, events, pid, GivenUp),
         Did(w, events, pid, HeldBack))
  }

  lemma PastSnoc(w: World, events: seq<Event>, e: Event, pid: nat)
    requires w.versions != []
    ensures PastOf(w, events + [e], pid) == NextPast(PastOf(w, events, pid), Run(w, events), e, pid)
  {
    hide Run, ResumeSettles, Did;
    DidSnoc(w, events, e, pid, LinkAnswered);
    DidSnoc(w, events, e, pid, LinkLanded);
    DidSnoc(w, events, e, pid, GivenUp);
    DidSnoc(w, events, e, pid, HeldBack);
  }

  /** What holds of the commands after an event held before it. */
  lemma IdsWereOwn(x: World, e: Event, pid: nat, c: Command)
    requires x.versions != [] && c.ResumeCommand?
    ensures IsResume(Next(x, e), pid, c) ==> IsResume(x, pid, c)
    ensures forall q :: q in x.procs ==> q in Next(x, e).procs && Next(x, e).procs[q].command == x.procs[q].command
  {
    hide Next, ProcStep;
    if e.Act? && e.pid in x.procs { ActLeaves(x, e); } else { OutsideLeaves(x, e); }
  }

  lemma StoreBound(x: World)
    requires Inv(x)
    ensures x.versions != [] && x.store.revision <= U64_MAX
  {
    hide LaunchesInv, ProcInv, History, ValidDocument, ValidLinks;
  }

  lemma OwnedItsId(w: World, front: seq<Event>, e: Event, pid: nat, c: Command)
    requires w.versions != [] && c.ResumeCommand? && OwnsItsId(w, front + [e], pid, c)
    requires IsResume(Run(w, front + [e]), pid, c) && Run(w, front + [e]) == Next(Run(w, front), e)
    ensures OwnsItsId(w, front, pid, c) && NotFromOutside([e], c)
    ensures !IsStep(Run(w, front), e, pid) ==> !WritesFor(Run(w, front), e, c)
  {
    var events := front + [e];
    assert forall f :: f in front ==> f in events;
    assert e in events;
    var x := Run(w, front);
    IdsWereOwn(x, e, pid, c);
    hide Run, Next, Did, Does;
    forall q | q in x.procs && q != pid && SameId(x.procs[q].command, c)
      ensures !Wrote(w, front, q) && !Does(x, e, q, LinkAnswered) && !Does(x, e, q, LinkLanded)
    {
      assert !Wrote(w, events, q);
      DidSnoc(w, front, e, q, LinkAnswered);
      DidSnoc(w, front, e, q, LinkLanded);
    }
  }

  lemma {:induction false} RunTellsStop(w: World, events: seq<Event>, pid: nat, c: Command)
    requires Initial(w) && IsResume(Run(w, events), pid, c)
    ensures StopTold(Run(w, events), pid, c, Did(w, events, pid, GivenUp))
    decreases |events|
  {
    if events != [] {
      var front, e := events[..|events| - 1], events[|events| - 1];
      assert events == front + [e];
      var x := Run(w, front);
      RunKeepsInv(w, front);
      hide Run, Next, Inv, Did, Does, StopTold;
      BeforeLast(w, events);
      IdsWereOwn(x, e, pid, c);
      RunTellsStop(w, front, pid, c);
      DidSnoc(w, front, e, pid, GivenUp);
      NextStopTold(x, e, pid, c, Did(w, front, pid, GivenUp));
    }
  }

  lemma {:induction false} RunTells(w: World, events: seq<Event>, pid: nat, c: Command)
    requires Initial(w) && IsResume(Run(w, events), pid, c) && OwnsItsId(w, events, pid, c)
    ensures Told(Run(w, events), pid, c, PastOf(w, events, pid))
    decreases |events|
  {
    if events != [] {
      var front, e := events[..|events| - 1], events[|events| - 1];
      assert events == front + [e];
      var x, past := Run(w, front), PastOf(w, front, pid);
      RunKeepsInv(w, front);
      StoreBound(x);
      hide Run, Next, Inv, PastOf, Told, NextPast, WritesFor, NotFromOutside, OwnsItsId;
      BeforeLast(w, events);
      IdsWereOwn(x, e, pid, c);
      OwnedItsId(w, front, e, pid, c);
      RunTells(w, front, pid, c);
      PastSnoc(w, front, e, pid);
      if IsStep(x, e, pid) { OwnStepTold(x, e, pid, c, past); } else { OtherStepTold(x, e, pid, c, past); }
    }
  }

  // ---- the results ----

  predicate Finished(x: World, pid: nat) {
    pid in x.procs && x.procs[pid].command.ResumeCommand? && x.procs[pid].pc.Done?
  }

  /**
   A finished resume has had its Host sent a stop iff some step of the run gave it up: it was cancelled and the Host
   came up ready, or its link call answered an error.
   */
  lemma HostIsStoppedIff(w: World, events: seq<Event>, pid: nat)
    requires Initial(w) && Finished(Run(w, events), pid)
    ensures StopSent(Run(w, events), pid, Run(w, events).procs[pid].command) <==> Did(w, events, pid, GivenUp)
  {
    var c := Run(w, events).procs[pid].command;
    hide Run, Did;
    RunTellsStop(w, events, pid, c);
  }

  lemma EndTold(x: World, pid: nat, c: Command, past: Past)
    requires c.ResumeCommand? && Told(x, pid, c, past) && Finished(x, pid)
    requires StopSent(x, pid, c) <==> past.givenUp
    ensures var result := x.procs[pid].pc.result;
            && (Linked(x, c) <==> past.answered || past.landed)
            && (result.Failure? && Linked(x, c) && StopSent(x, pid, c) <==> past.landed)
            && (result.Failure? && Linked(x, c) && !StopSent(x, pid, c) <==> past.heldBack)
            && (result.Success? && result.value.Resumed? <==> past.answered && !past.heldBack)
            && (Linked(x, c) ==> pid in x.ready)
  {
    assert Linked(x, c) ==> Named(x.store.links, c);
    hide Linked, StopSent, Named;
  }

  /**
   How a finished resume stands, its command id being its own. Its link stands iff its link call wrote it. It failed
   with its link and a stopped Host iff that call answered an error although it had written; it failed with its link
   and a ready Host that nobody was told to stop iff one of its two calls after that answered an error.
   */
  lemma ResumeEndsIff(w: World, events: seq<Event>, pid: nat)
    requires Initial(w) && Finished(Run(w, events), pid)
    requires OwnsItsId(w, events, pid, Run(w, events).procs[pid].command)
    ensures var x := Run(w, events);
            var c, result := x.procs[pid].command, x.procs[pid].pc.result;
            && (Linked(x, c) <==> Did(w, events, pid, LinkAnswered) || Did(w, events, pid, LinkLanded))
            && (result.Failure? && Linked(x, c) && StopSent(x, pid, c) <==> Did(w, events, pid, LinkLanded))
            && (result.Failure? && Linked(x, c) && !StopSent(x, pid, c) <==> Did(w, events, pid, HeldBack))
            && (result.Success? && result.value.Resumed? <==>
                  Did(w, events, pid, LinkAnswered) && !Did(w, events, pid, HeldBack))
            && (Linked(x, c) ==> pid in x.ready)
  {
    var x := Run(w, events);
    var c := x.procs[pid].command;
    assert IsResume(x, pid, c);
    hide Run, Did, StopSent, Told, OwnsItsId, Linked;
    HostIsStoppedIff(w, events, pid);
    RunTells(w, events, pid, c);
    EndTold(x, pid, c, PastOf(w, events, pid));
  }

  // ---- how far a resume comes ----

  /** How many early steps lie behind a control point, and whether the launcher has been called. */
  predicate ReachFits(c: Command, pc: Pc, reach: nat, called: bool)
    requires c.ResumeCommand?
  {
    match pc
    case Done(result) =>
      && reach <= 5 && (called <==> reach == 5)
      && (result == Success(ResumePreview) <==> reach == 2 && !c.confirmed)
      && (result.Failure? || called || result == Success(ResumePreview))
    case ResumeHost(_, _, _, _) => reach == 5 && !called && c.confirmed
    case _ =>
      if Stage(pc).Some? then reach == Stage(pc).value && !called && (reach >= 2 ==> c.confirmed)
      else reach == 5 && called && c.confirmed
  }

  ghost predicate ReachTold(x: World, pid: nat, c: Command, reach: nat)
    requires c.ResumeCommand?
  {
    if pid in x.procs then x.procs[pid].command == c && ReachFits(c, x.procs[pid].pc, reach, !NoLaunch(x, pid))
    else reach == 0 && NoLaunch(x, pid)
  }

  function NextReach(reach: nat, x: World, e: Event, pid: nat): nat
    requires x.versions != []
  {
    if IsStep(x, e, pid) && x.procs[pid].command.ResumeCommand?
       && PassesEarly(x.procs[pid].command, x.procs[pid].pc, x.Doc(), x.store, e.env)
    then reach + 1 else reach
  }

  lemma EarlyReach(c: Command, pid: nat, pc: Pc, doc: Document, store: Continuity, env: Env, reach: nat)
    requires c.ResumeCommand? && ResumeEarly(pc) && ReachFits(c, pc, reach, false)
    ensures var eff := ProcStep(Proc(c, pc), pid, doc, store, env);
            && ReachFits(c, eff.pc, if PassesEarly(c, pc, doc, store, env) then reach + 1 else reach, false)
            && eff.launched.None?
  {
    hide ResumeObjection, ResumeBegin, ResumeStep;
    if pc.Begin? { ResumeBegins(c, doc, store, env); } else { ResumeEarlySteps(c, pid, pc, doc, store, env); }
  }

  lemma CreateReach(c: Command, pid: nat, pc: Pc, doc: Document, store: Continuity, env: Env, reach: nat)
    requires c.ResumeCommand? && pc.ResumeCreate? && ReachFits(c, pc, reach, false)
    ensures var eff := ProcStep(Proc(c, pc), pid, doc, store, env);
            && ReachFits(c, eff.pc, if PassesEarly(c, pc, doc, store, env) then reach + 1 else reach, false)
            && eff.launched.None?
  {
    ResumeCreateStep(c, pid, pc, doc, store, env);
    hide ProcStep, CreateError, CreateDoc;
  }

  lemma LateReach(c: Command, pid: nat, pc: Pc, doc: Document, store: Continuity, env: Env, reach: nat, called: bool)
    requires c.ResumeCommand? && Stage(pc).None? && ReachFits(c, pc, reach, called)
    ensures var eff := ProcStep(Proc(c, pc), pid, doc, store, env);
            ReachFits(c, eff.pc, reach, called || eff.launched.Some?)
  {
    hide SetTo, Record;
  }

  lemma StepReach(c: Command, pid: nat, pc: Pc, doc: Document, store: Continuity, env: Env, reach: nat, called: bool)
    requires c.ResumeCommand? && ReachFits(c, pc, reach, called)
    ensures var eff := ProcStep(Proc(c, pc), pid, doc, store, env);
            ReachFits(c, eff.pc, if PassesEarly(c, pc, doc, store, env) then reach + 1 else reach,
                      called || eff.launched.Some?)
  {
    hide ProcStep, ResumeObjection, CreateError;
    if pc.ResumeCreate? { CreateReach(c, pid, pc, doc, store, env, reach); }
    else if Stage(pc).Some? { EarlyReach(c, pid, pc, doc, store, env, reach); }
    else { LateReach(c, pid, pc, doc, store, env, reach, called); }
  }

  lemma NextReachTold(x: World, e: Event, pid: nat, c: Command, reach: nat)
    requires x.versions != [] && c.ResumeCommand? && ReachTold(x, pid, c, reach)
    requires pid in Next(x, e).procs ==> Next(x, e).procs[pid].command == c
    ensures ReachTold(Next(x, e), pid, c, NextReach(reach, x, e, pid))
  {
    SessionTheorems.NextLaunches(x, e);
    SessionTheorems.CallsAreOwn(x, e, pid);
    if IsStep(x, e, pid) {
      OwnStep(x, e, pid, c);
      var pc := x.procs[pid].pc;
      hide Next, ProcStep, PassesEarly, ReachFits;
      StepReach(c, pid, pc, x.Doc(), x.store, e.env, reach, !NoLaunch(x, pid));
      OwnCall(x, e, pid, c);
    } else {
      OtherLeavesProc(x, e, pid);
      hide Next, ProcStep, PassesEarly;
    }
  }

  /** Whether the launcher has been called after a step of its own. */
  lemma OwnCall(x: World, e: Event, pid: nat, c: Command)
    requires x.versions != [] && IsStep(x, e, pid) && x.procs[pid].command == c
    ensures !NoLaunch(Next(x, e), pid) <==>
              !NoLaunch(x, pid) || ProcStep(Proc(c, x.procs[pid].pc), pid, x.Doc(), x.store, e.env).launched.Some?
  {
    SessionTheorems.NextLaunches(x, e);
    SessionTheorems.CallsAreOwn(x, e, pid);
    assert x.procs[pid] == Proc(c, x.procs[pid].pc);
    SessionTheorems.CallCarriesPid(x.procs[pid], pid, x.Doc(), x.store, e.env);
    hide Next, ProcStep;
    if ProcStep(Proc(c, x.procs[pid].pc), pid, x.Doc(), x.store, e.env).launched.Some? {
      assert Next(x, e).launches[|x.launches|].pid == pid;
    }
  }

  /** The stages passed are those below how far it has come. */
  ghost predicate PassedBelow(w: World, events: seq<Event>, pid: nat, reach: nat)
    requires w.versions != []
  {
    forall stage: nat :: Did(w, events, pid, Passed(stage)) <==> stage < reach
  }

  lemma {:induction false} RunReaches(w: World, events: seq<Event>, pid: nat, c: Command) returns (reach: nat)
    requires Initial(w) && IsResume(Run(w, events), pid, c)
    ensures ReachTold(Run(w, events), pid, c, reach) && PassedBelow(w, events, pid, reach)
    decreases |events|
  {
    if events == [] {
      reach := 0;
    } else {
      var front, e := events[..|events| - 1], events[|events| - 1];
      assert events == front + [e];
      var x := Run(w, front);
      RunKeepsInv(w, front);
      assert x.versions != [];
      hide Run, Next, Inv, Did, Does, ReachTold;
      BeforeLast(w, events);
      IdsWereOwn(x, e, pid, c);
      var before := RunReaches(w, front, pid, c);
      NextReachTold(x, e, pid, c, before);
      reach := NextReach(before, x, e, pid);
      forall stage: nat ensures Did(w, events, pid, Passed(stage)) <==> stage < reach {
        DidSnoc(w, front, e, pid, Passed(stage));
        PassingIs(x, e, pid, c, before, stage);
      }
    }
  }

  lemma PassingIs(x: World, e: Event, pid: nat, c: Command, reach: nat, stage: nat)
    requires x.versions != [] && c.ResumeCommand? && ReachTold(x, pid, c, reach)
    ensures Does(x, e, pid, Passed(stage)) <==> NextReach(reach, x, e, pid) == reach + 1 && stage == reach
  {
    hide ResumeObjection, CreateError, NoLaunch;
  }

  lemma ReachedEnd(x: World, pid: nat, c: Command, reach: nat)
    requires c.ResumeCommand? && ReachTold(x, pid, c, reach) && Finished(x, pid)
    ensures var result := x.procs[pid].pc.result;
            && (!NoLaunch(x, pid) <==> reach >= 5)
            && (result == Success(ResumePreview) <==> !c.confirmed && reach == 2)
            && (NoLaunch(x, pid) ==> result.Failure? || result == Success(ResumePreview))
  {
    hide NoLaunch;
  }

  /**
   When a reviewed resume comes to launch. A finished resume has called the launcher iff each of its five early steps
   met no objection, each of them only after the one before; it answered with a preview iff it was not confirmed and
   its first two met none; in every other case that called no launcher it failed.
   */
  lemma ResumeCallsIff(w: World, events: seq<Event>, pid: nat)
    requires Initial(w) && Finished(Run(w, events), pid)
    ensures var x := Run(w, events);
            var c, result := x.procs[pid].command, x.procs[pid].pc.result;
            && (!NoLaunch(x, pid) <==> Did(w, events, pid, Passed(4)))
            && (forall stage: nat :: Did(w, events, pid, Passed(stage + 1)) ==> Did(w, events, pid, Passed(stage)))
            && (result == Success(ResumePreview) <==>
                  !c.confirmed && Did(w, events, pid, Passed(1)) && !Did(w, events, pid, Passed(2)))
            && (NoLaunch(x, pid) ==> result.Failure? || result == Success(ResumePreview))
  {
    var c := Run(w, events).procs[pid].command;
    hide Run, Did, NoLaunch, ReachTold;
    var reach := RunReaches(w, events, pid, c);
    ReachedEnd(Run(w, events), pid, c, reach);
  }
}
