/**
 The durable session record and the reducer that applies one mutation to it
 (crates/multiplex-domain/src/session.rs).
 */
module SessionDomain {
  import opened Wrappers

  datatype Lifecycle =
    | Draft
    | Validating
    | Starting
    | Provisioning
    | Attaching
    | Replaying
    | Live
    | RecordingPaused
    | Stopping
    | Offline
    | Orphaned
    | Gap
    | PermissionDenied
    | Incompatible
    | RunningAppAttached
    | Failed
    | Cancelled
    | Exited
  {
    predicate CanStop() {
      Provisioning? || Attaching? || Replaying? || Live? || RecordingPaused? || RunningAppAttached?
    }
  }

  predicate LegalTransition(from: Lifecycle, to: Lifecycle) {
    match from
    case Draft => to.Validating? || to.Cancelled?
    case Validating => to.Provisioning? || to.Failed? || to.Cancelled?
    case Starting => to.Live? || to.Failed? || to.Cancelled?
    case Provisioning =>
      to.Attaching? || to.RunningAppAttached? || to.Failed? || to.Cancelled? || to.Offline? || to.Stopping?
    case Attaching =>
      || to.Replaying? || to.Live? || to.RecordingPaused? || to.Offline? || to.Orphaned? || to.Gap?
      || to.PermissionDenied? || to.Incompatible? || to.Exited? || to.Stopping?
    case Replaying =>
      || to.Live? || to.RecordingPaused? || to.Offline? || to.Orphaned? || to.Gap?
      || to.PermissionDenied? || to.Incompatible? || to.Exited? || to.Stopping?
    case Live =>
      || to.Live? || to.RecordingPaused? || to.Attaching? || to.Stopping? || to.Offline?
      || to.Orphaned? || to.Gap? || to.Exited?
    case RecordingPaused =>
      || to.Live? || to.RecordingPaused? || to.Attaching? || to.Stopping? || to.Offline?
      || to.Orphaned? || to.Gap? || to.Exited?
    case Stopping => to.Exited? || to.Failed? || to.Orphaned?
    case Offline => to.Attaching? || to.Orphaned? || to.Exited?
    case Gap => to.Attaching? || to.Orphaned? || to.Exited?
    case PermissionDenied => to.Attaching? || to.Orphaned? || to.Exited?
    case Incompatible => to.Attaching? || to.Orphaned? || to.Exited?
    case Orphaned => to.Attaching? || to.Exited?
    case RunningAppAttached => to.Stopping? || to.Exited? || to.Failed?
    case Failed => to.Starting?
    case Cancelled => false
    case Exited => false
  }

  datatype TitleSource = Default | Automatic | Imported | Manual

  /** An activity report, reduced to what decides the unread mark. */
  datatype Activity = Activity(report: nat, requiresAttention: bool, attentionSequence: Option<nat>)

  datatype Session = Session(
    id: nat,
    group: Option<nat>,
    preset: Option<nat>,
    title: string,
    titleSource: TitleSource,
    lifecycle: Lifecycle,
    activity: Activity,
    pinned: bool,
    lastOutput: nat,
    readThrough: nat,
    unread: Option<nat>,
    archivedAt: Option<nat>,
    updatedAt: nat,
    revision: nat)
  {
    predicate HasUnread() { unread.Some? && unread.value > readThrough }

    predicate CanRemove() { archivedAt.Some? && lifecycle.Exited? }
  }

  /** What the store demands of every record it reads or writes. */
  predicate ValidSession(s: Session) {
    && s.readThrough <= s.lastOutput
    && (s.unread.Some? ==> s.unread.value <= s.lastOutput)
    && (s.archivedAt.Some? ==> s.lifecycle.Exited?)
  }

  datatype Mutation =
    | Rename(title: string)
    | ApplyAutomaticTitle(title: string)
    | SetPinned(pinned: bool)
    | MarkRead(through: nat)
    | MarkUnread(at: nat)
    | ObserveOutput(through: nat)
    | SetActivity(activity: Activity)
    | ApplyActivity(activity: Activity, visibleThrough: Option<nat>)
    | SetLifecycle(lifecycle: Lifecycle)
    | Reconcile(lifecycle: Lifecycle, activity: Activity, through: nat)
    | ArchiveAt(at: nat)
    | Restore

  datatype StateError =
    | InvalidLifecycleTransition(from: Lifecycle, to: Lifecycle)
    | StopRequiredBeforeArchive
    | InvalidSequence

  datatype Reduction = Unchanged | Changed(session: Session)

  /** Records an activity report; what it may touch is the activity and the read and unread marks. */
  function WithActivity(s: Session, activity: Activity, visibleThrough: Option<nat>): (r: Session)
    ensures ValidSession(s) ==> ValidSession(r)
    ensures r.activity == activity
    ensures r == s.(activity := activity, readThrough := r.readThrough, unread := r.unread)
  {
    var attention :=
      if activity.requiresAttention && activity.attentionSequence.Some?
      then Some(Min(activity.attentionSequence.value, s.lastOutput))
      else None;
    var seen :=
      if visibleThrough.Some? then
        var visible := Min(visibleThrough.value, s.lastOutput);
        s.(readThrough := Max(s.readThrough, visible),
           unread := if s.unread.Some? && s.unread.value <= visible then None else s.unread)
      else s;
    var reported := seen.(activity := activity);
    if attention.Some? && attention.value > reported.readThrough then
      reported.(unread := Some(if reported.unread.Some?
                               then Min(reported.unread.value, attention.value)
                               else attention.value))
    else reported
  }

  function Reduce(s: Session, m: Mutation): Result<Reduction, StateError> {
    match m
    case Rename(title) =>
      if s.title == title && s.titleSource.Manual? then Success(Unchanged)
      else Success(Changed(s.(title := title, titleSource := Manual)))
    case ApplyAutomaticTitle(title) =>
      if !s.titleSource.Default? then Success(Unchanged)
      else Success(Changed(s.(title := title, titleSource := Automatic)))
    case SetPinned(pinned) =>
      if s.pinned == pinned then Success(Unchanged) else Success(Changed(s.(pinned := pinned)))
    case MarkRead(requested) =>
      var through := Min(requested, s.lastOutput);
      if through <= s.readThrough then Success(Unchanged)
      else Success(Changed(s.(readThrough := through,
                              unread := if s.unread.Some? && s.unread.value <= through then None else s.unread)))
    case MarkUnread(at) =>
      if at == 0 || at > s.lastOutput then Failure(InvalidSequence)
      else if s.unread == Some(at) && s.readThrough < at then Success(Unchanged)
      else Success(Changed(s.(unread := Some(at), readThrough := Min(s.readThrough, at - 1))))
    case ObserveOutput(through) =>
      if through <= s.lastOutput then Success(Unchanged) else Success(Changed(s.(lastOutput := through)))
    case SetActivity(activity) =>
      if s.activity == activity then Success(Unchanged)
      else Success(Changed(WithActivity(s, activity, None)))
    case ApplyActivity(activity, visibleThrough) =>
      var after := WithActivity(s, activity, visibleThrough);
      if after == s then Success(Unchanged) else Success(Changed(after))
    case SetLifecycle(lifecycle) =>
      if s.lifecycle == lifecycle then Success(Unchanged)
      else if !LegalTransition(s.lifecycle, lifecycle) then
        Failure(InvalidLifecycleTransition(s.lifecycle, lifecycle))
      else Success(Changed(s.(lifecycle := lifecycle)))
    case Reconcile(lifecycle, activity, requested) =>
      if s.lifecycle != lifecycle && !LegalTransition(s.lifecycle, lifecycle) then
        Failure(InvalidLifecycleTransition(s.lifecycle, lifecycle))
      else
        var through := Max(requested, s.lastOutput);
        if s.lifecycle == lifecycle && s.activity == activity && s.lastOutput == through then Success(Unchanged)
        else Success(Changed(WithActivity(s.(lifecycle := lifecycle, lastOutput := through), activity, None)))
    case ArchiveAt(at) =>
      if s.archivedAt.Some? then Success(Unchanged)
      else if !s.lifecycle.Exited? then Failure(StopRequiredBeforeArchive)
      else Success(Changed(s.(archivedAt := Some(at))))
    case Restore =>
      if s.archivedAt.None? then Success(Unchanged) else Success(Changed(s.(archivedAt := None)))
  }

  /** A lifecycle may stay as it is or take one legal step. */
  predicate LifecycleStep(from: Lifecycle, to: Lifecycle) {
    from == to || LegalTransition(from, to)
  }

  /** No mutation can break what the store validates; in particular an archived session stays exited. */
  lemma ReduceKeepsValid(s: Session, m: Mutation)
    requires ValidSession(s)
    ensures var r := Reduce(s, m);
            r.Success? && r.value.Changed? ==>
              && ValidSession(r.value.session)
              && r.value.session != s
              && r.value.session.id == s.id
              && r.value.session.revision == s.revision
              && LifecycleStep(s.lifecycle, r.value.session.lifecycle)
  {
    hide WithActivity;
  }

  /** Replaying a mutation that took effect changes nothing further and is not refused. */
  lemma ReduceIsIdempotent(s: Session, m: Mutation)
    ensures var r := Reduce(s, m);
            r.Success? && r.value.Changed? ==> Reduce(r.value.session, m) == Success(Unchanged)
  {
  }

  /** The lifecycles a session can come to `to` from: the table read by its targets. */
  function Predecessors(to: Lifecycle): set<Lifecycle> {
    var running := {Live, RecordingPaused};
    var lost := {Offline, Gap, PermissionDenied, Incompatible};
    match to
    case Validating => {Draft}
    case Provisioning => {Validating}
    case Starting => {Failed}
    case Attaching => {Provisioning, Orphaned} + running + lost
    case Replaying => {Attaching}
    case Live => {Starting, Attaching, Replaying} + running
    case RecordingPaused => {Attaching, Replaying} + running
    case Stopping => {Provisioning, Attaching, Replaying, RunningAppAttached} + running
    case Offline => {Provisioning, Attaching, Replaying} + running
    case Orphaned => {Attaching, Replaying, Stopping} + running + lost
    case Gap => {Attaching, Replaying} + running
    case PermissionDenied => {Attaching, Replaying}
    case Incompatible => {Attaching, Replaying}
    case RunningAppAttached => {Provisioning}
    case Failed => {Validating, Starting, Provisioning, Stopping, RunningAppAttached}
    case Cancelled => {Draft, Validating, Starting, Provisioning}
    case Exited => {Attaching, Replaying, Stopping, Orphaned, RunningAppAttached} + running + lost
    case Draft => {}
  }

  /** Both readings of the table agree; in particular a session can be stopped iff it may come to Stopping. */
  lemma TransitionIff(from: Lifecycle, to: Lifecycle)
    ensures LegalTransition(from, to) <==> from in Predecessors(to)
    ensures from.CanStop() <==> LegalTransition(from, Stopping)
  {
  }

  /** Why a mutation is refused, if it is. */
  function Refusal(s: Session, m: Mutation): Option<StateError> {
    match m
    case MarkUnread(at) => if 0 < at <= s.lastOutput then None else Some(InvalidSequence)
    case SetLifecycle(to) =>
      if s.lifecycle == to || s.lifecycle in Predecessors(to) then None
      else Some(InvalidLifecycleTransition(s.lifecycle, to))
    case Reconcile(to, _, _) =>
      if s.lifecycle == to || s.lifecycle in Predecessors(to) then None
      else Some(InvalidLifecycleTransition(s.lifecycle, to))
    case ArchiveAt(_) =>
      if s.archivedAt.None? && !s.lifecycle.Exited? then Some(StopRequiredBeforeArchive) else None
    case _ => None
  }

  /** The unread mark after an activity report: attention asked for beyond what was read moves it there, or leaves it
      where it is if that is earlier. */
  function MarkAfter(s: Session, activity: Activity): Option<nat> {
    if !activity.requiresAttention || activity.attentionSequence.None? then s.unread
    else
      var at := Min(activity.attentionSequence.value, s.lastOutput);
      if at <= s.readThrough then s.unread
      else if s.unread.Some? && s.unread.value <= at then s.unread
      else Some(at)
  }

  /**
   A mutation is refused for its reason only, and one that changes the record leaves everything alone that it does not
   speak of: reading clears the unread mark only up to what was read, marking unread takes the read mark back before
   it, and an activity report moves no more than the unread mark.
   */
  lemma ReduceTouchesOnly(s: Session, m: Mutation)
    ensures var r := Reduce(s, m);
            && (match Refusal(s, m) case Some(error) => r == Failure(error) case None => r.Success?)
            && (r.Success? && r.value.Changed? ==>
                  var t := r.value.session;
                  match m
                  case Rename(title) => t == s.(title := title, titleSource := Manual)
                  case ApplyAutomaticTitle(title) =>
                    s.titleSource.Default? && t == s.(title := title, titleSource := Automatic)
                  case SetPinned(pinned) => t == s.(pinned := pinned)
                  case MarkRead(_) =>
                    && s.readThrough < t.readThrough && t == s.(readThrough := t.readThrough, unread := t.unread)
                    && t.unread == if s.unread.Some? && s.unread.value > t.readThrough then s.unread else None
                  case MarkUnread(at) =>
                    t == s.(unread := Some(at), readThrough := if s.readThrough < at then s.readThrough else at - 1)
                  case ObserveOutput(through) => s.lastOutput < through && t == s.(lastOutput := through)
                  case SetActivity(activity) => t == s.(activity := activity, unread := MarkAfter(s, activity))
                  case ApplyActivity(activity, visible) =>
                    && t == s.(activity := activity, readThrough := t.readThrough, unread := t.unread)
                    && t.readThrough
                       == Max(s.readThrough, if visible.Some? then Min(visible.value, s.lastOutput) else 0)
                  case SetLifecycle(to) => t == s.(lifecycle := to)
                  case Reconcile(to, activity, through) =>
                    var seen := s.(lifecycle := to, lastOutput := Max(through, s.lastOutput));
                    t == seen.(activity := activity, unread := MarkAfter(seen, activity))
                  case ArchiveAt(at) => t == s.(archivedAt := Some(at))
                  case Restore => t == s.(archivedAt := None))
  {
    TransitionIff(s.lifecycle, if m.SetLifecycle? || m.Reconcile? then m.lifecycle else Draft);
    hide LegalTransition, Predecessors;
  }

  /** Applies a run of mutations, skipping the ones that are refused. */
  function ReduceAll(s: Session, ms: seq<Mutation>): Session
    decreases |ms|
  {
    if ms == [] then s
    else
      var r := Reduce(s, ms[0]);
      ReduceAll(if r.Success? && r.value.Changed? then r.value.session else s, ms[1..])
  }

  /** An exited or cancelled session keeps that lifecycle, whatever is applied to it and however often. */
  lemma {:induction false} TerminalForever(s: Session, ms: seq<Mutation>)
    requires s.lifecycle.Exited? || s.lifecycle.Cancelled?
    ensures ReduceAll(s, ms).lifecycle == s.lifecycle
    decreases |ms|
  {
    if ms != [] {
      var r := Reduce(s, ms[0]);
      TerminalForever(if r.Success? && r.value.Changed? then r.value.session else s, ms[1..]);
    }
  }
}
