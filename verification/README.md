# Session commands, replay, proxy and command line: a verified model

This project models the parts of Multiplex where a property has to survive interleaving, retries or partial
failure, and proves those properties with Dafny. `dafny verify dfyconfig.toml` checks all of it.

- **Session commands over revisioned stores** (`SessionDomain`, `SessionStore`, `Continuity`, `Orchestration`,
  `OrchestrationInvariant`, `SessionProgress`, `SessionOrigins`, `SessionDeeds`, `SessionTheorems`, `StopOutcomes`,
  `ResumeOutcomes`, `SessionRuns`, `SessionAnswers`). The session reducer and the two stores follow the code of the
  domain and store crates. Stop, archive, restore, metadata, mark-read, launch and resume are programs with a program
  counter; every store call and every Host call is one step, and any number of commands and outside writers interleave
  freely. Outside writers also commit documents that change several records at once. A failing store call may leave
  the old document or the new one, since the store renames its file before it has finished. What a command cannot
  decide itself (a failing call, the Host's answer, cancellation, the clock, checks outside these stores) arrives as
  an arbitrary `Env` at each step. `SessionProgress` says when each step goes on; `SessionOrigins` traces what a
  command holds back to the call that handed it over, `StopOutcomes` and `ResumeOutcomes` how a stop or a resume ended
  back to the step that settled it; `SessionRuns` holds concrete runs.
- **Double-collect snapshot, removal tokens and removal** (`Snapshot`, `RemovalToken`, `Removal`), over a timeline of
  store states of which each read sees an arbitrary later one.
- **Bounded polling** (`SessionWait`, `WaitCondition`), with a clock that never goes back and sleeps that last at least
  as asked.
- **Replay and attach** (`Attach`, `AttachModel`): the terminal client and the desktop's attach model against a Host
  log whose records may be resent arbitrarily.
- **The filtering proxy** (`ProxyTransfer`, `ProxyAcceptor`, and both together while the proxy is dropped in
  `ProxyShutdown`) and **the raw stdin worker** (`RawStdin`), as threads that take steps and may wait.
- **The accessibility bridge** (`Accessibility`): a class over two maps, with native elements as objects, and patches
  that may stop half-way.
- **Sequential algorithms**: line wrapping (`Wrap`), the dependency search (`DependencyPath`), and the command grammar
  with its round trip and its exact meaning (`CommandOptions`, `CommandLine`, `CommandRoundTrip`, `CommandMeaning`,
  `FreeText`).

## What the code does not guarantee

Where the proofs met a difference between what one would expect and what the code does, the model follows the code,
and the exact condition is proved.

- A mutation that changes nothing is answered without a revision check (sessions.rs:245-274), so a stop's Exited
  commit may land on another stop's Stopping commit. It lands on its own exactly when the session was not yet Stopping
  when its Stopping call was made (`StopLandsOnStopping`; the run is `StopMayCloseAnotherStop`).
- Creating a session that exists answers with the stored record without a revision check (sessions.rs:213-243), so two
  replays of one launch that both loaded the repository before the session existed may both call the launcher. Such an
  overlapping replay calls it exactly when nothing outside objects to its create step and it steps again
  (`LaunchCallsIff`); one that begins later never does (`LateReplayNeverLaunches`; the run is `LaunchMayRunTwice`).
  One record is created in every case (`CreatedAtMostOnce`).
- For the same reason a confirmed resume may be handed an existing record under its replacement id, and then goes
  through no Provisioning step of its own. The successor is its own creation exactly when the id was absent when its
  create call was made (`ResumedMeansLinkedAndLive`; the run is `ResumeMayReuseARecord`).
- A resume can fail and leave its link behind, in two ways. Its link call can answer an error although the write has
  landed (atomic.rs:54-71, sessions.rs:605-613); it then stops its Host (`LinkMayOutliveItsResume`). Or the link call
  succeeds and one of the two calls after it is refused, as when somebody else commits in between; its Host then keeps
  running and nobody is told to stop it (`ResumeMayLeaveItsHost`). These are the only ways, and each happens
  exactly under its condition (`ResumeEndsIff`, `HostIsStoppedIff`).
- Dropping the proxy ignores whether its wake arrived (network.rs:283-286). When it did not and nothing else arrives,
  the listener stays in accept and drop waits with it (`WakeDecides`, `UnwokenListenerStays`).
- After CONNECT the upstream socket is left blocking (network.rs:329-332, against 346), so a tunnel inside a read from
  an upstream that is silent, or a write to one that takes nothing, does not see the stop flag, and drop waits until
  that upstream does something. When the wake has arrived, drop ends however things go on exactly if no direction of a
  tunnel may still come to such a call (`DropEndsIff`, `BlockedHoldsDrop`; the run is `SilentUpstreamHangsDrop`).
- A removal token does not name its session; it fits any session of equal revision and manifest
  (`TokenDoesNotNameItsSession`). A title with a control character, a line break for one, can never be typed as
  confirmation (`UnconfirmableTitle`, `TwoLineTitleCannotBeRemoved`).
- A wrapped line loses the indent of its first piece, and a wide character overflows exactly when the indent does not
  leave two cells (`FirstLineIsNotIndented`, `IndentFitsIff`).
- The dependency search raises a KeyError if a package on the offending chain has no name (`DependencyPath`).
- Focusing a stale node clears the old flag but keeps the old focus recorded (`Bridge.SetFocus`).

## Model

| member | source | states |
|---|---|---|
| SessionDomain.ReduceKeepsValid | crates/multiplex-domain/src/session.rs:262-397 | any accepted mutation of a valid session leaves it valid: an archived session is exited, marks and watermarks stay ordered |
| SessionDomain.ReduceIsIdempotent | crates/multiplex-domain/src/session.rs:262-397 | applying the same mutation again to its own result changes nothing, which is what makes a replayed command harmless |
| SessionDomain.TerminalForever | crates/multiplex-domain/src/session.rs:495-555 | no sequence of mutations takes a session out of Exited or Cancelled |
| SessionDomain.TransitionIff | crates/multiplex-domain/src/session.rs:495-555 | the transition table read by its targets agrees with it, and a session can be asked to stop iff it may come to Stopping |
| SessionDomain.ReduceTouchesOnly | crates/multiplex-domain/src/session.rs:262-430 | a mutation is refused for its own reason only, and one that changes the record does its effect and leaves every field alone that it does not speak of |
| SessionStore.CreateContract | crates/multiplex-store/src/sessions.rs:213-243 | create succeeds iff the id is already stored, whatever revision was named, or the revision is current and there is room; the answer is the stored record; no other record moves |
| SessionStore.MutateContract | crates/multiplex-store/src/sessions.rs:245-274 | a mutation succeeds iff the reducer accepts it and, only when it changes the record, the revision named is current; then it is one commit of the reducer's record, stamped, and moves no other |
| SessionStore.RemoveContract | crates/multiplex-store/src/sessions.rs:413-486 | removal succeeds iff the session is exited and archived, the revision named is current and another one exists, and takes out that record only |
| SessionStore.SessionRepository.CreateSession | crates/multiplex-store/src/sessions.rs:213-243 | the method over the repository's fields computes Create, succeeds iff the id is stored or the revision is current with room left, answers what it stored and moves no other record |
| SessionStore.SessionRepository.MutateSession | crates/multiplex-store/src/sessions.rs:245-274 | the method over the repository's fields computes Mutate, succeeds iff the reducer accepts and, where it changes the record, the revision is current, and moves no other record |
| SessionStore.SessionRepository.RemoveSession | crates/multiplex-store/src/sessions.rs:413-486 | the method over the repository's fields computes Remove, succeeds iff the session may be removed at the current revision, and takes out that record only |
| Continuity.RecordContract | crates/multiplex-store/src/continuity.rs:128-171 | recording succeeds iff the link stands afterwards; a change appends exactly that link at the expected revision; the link set stays valid and only grows |
| ResumeOutcomes.RecordDecides | crates/multiplex-store/src/continuity.rs:128-171 | a link whose command id is new is recorded, at the end and under the next revision, iff it is valid, the revision named is current, there is room and nothing competes; otherwise nothing changes |
| Continuity.OneSuccessor | crates/multiplex-store/src/continuity.rs:275-291 | two valid links that share a source or a replacement are one link |
| Continuity.NoCycle | crates/multiplex-store/src/continuity.rs:275-305 | no chain of links, of any length, comes back to its first source |
| Continuity.ChainClimbs | crates/multiplex-store/src/continuity.rs:275-305 | commit order rises along every chain, the measure behind the absence of cycles |
| OrchestrationInvariant.StampedNowIsCurrent | crates/multiplex-cli/src/local.rs:1944-1979 | a record stamped with the current repository revision is the current record, so a compare-and-swap on a session's own revision is sound |
| OrchestrationInvariant.CurrentIsNewer | crates/multiplex-store/src/sessions.rs:245-274 | in every history a later record of a session is the same record or carries a strictly larger revision |
| OrchestrationInvariant.StepIsLegal | crates/multiplex-cli/src/local.rs:1424-2103 | every step of every command, from any control point, either leaves the repository alone or commits one legal step, never drops a session and never drops a link |
| OrchestrationInvariant.OthersKeepProcInv | crates/multiplex-cli/src/local.rs:1424-2103 | what other commands commit between two steps never breaks what a command in flight relies on |
| OrchestrationInvariant.NextKeepsInv | crates/multiplex-cli/src/local.rs:1424-2103 | every event of any command or outside writer keeps the invariant of the whole system |
| OrchestrationInvariant.RunKeepsInv | crates/multiplex-cli/src/local.rs:1424-2103 | the invariant holds after every interleaving of any number of commands and outside writers |
| SessionTheorems.ArchivedIsExited | crates/multiplex-cli/src/local.rs:1851-1979 | in every run every version of the repository has its archived sessions exited |
| SessionTheorems.ExitIsFinal | crates/multiplex-cli/src/local.rs:1907-1979 | once exited, a session is exited in every later version for as long as its record is kept |
| SessionTheorems.CommitMeetsReview | crates/multiplex-cli/src/local.rs:2972-2988 | when a reviewed stop, archive, restore or metadata command commits, the session still has the reviewed revision at that very moment |
| SessionProgress.ResumeGoesOnIff | crates/multiplex-cli/src/local.rs:1368-1715 | in every run an early step of a resume goes on, carrying the plan and the link revision it read, iff nothing objects to it (cancellation, a fault, the source or its review, a moved revision, a link whose source is this session); otherwise it fails with the first objection; it changes nothing either way |
| SessionProgress.ResumeCreatesIff | crates/multiplex-cli/src/local.rs:1439-1469 | in every run the create step hands over the record that stands under the replacement id, or one of the source's group, preset, title and pin created at the planned revision, iff there is no fault, refusal or lack of room; otherwise it fails with that error |
| SessionProgress.ResumeFinishesIff | crates/multiplex-cli/src/local.rs:1470-1533 | in every run the launcher call, the link call with its exact link and the two lifecycle calls of a resume each lead on iff their own call agrees, and leave exactly what that call leaves |
| SessionProgress.AbortLeaves | crates/multiplex-cli/src/local.rs:1716-1751 | in every run an abort names the Host instance its command started; the record is closed as asked if the Host confirms, and otherwise left Offline with the command's operation failed |
| SessionProgress.StopBeginsIff | crates/multiplex-cli/src/local.rs:1907-1943 | in every run a stop goes on to its Stopping call at the loaded revision iff it is confirmed, not cancelled, the session is there in a state that can be stopped and as reviewed, and the Host metadata is there if it is needed; a repeated stop of an exited session answers with it |
| SessionProgress.StopGoesOnIff | crates/multiplex-cli/src/local.rs:1944-1979 | in every run each later step of a stop leads on iff the store call, or the Host, agrees: only a Host that has stopped lets it come to its Exited call |
| SessionProgress.MutationBeginsIff | crates/multiplex-cli/src/local.rs:1851-1905 | in every run archive, restore, rename, pin and mark-read go on to their commit, of what was asked and at the loaded revision, iff nothing objects and the session is not as asked already |
| SessionProgress.MutationCommits | crates/multiplex-cli/src/local.rs:1851-1905 | in every run that commit answers what the store answers and leaves what the store leaves |
| SessionProgress.LaunchBeginsIff | crates/multiplex-cli/src/local.rs:1981-2060 | in every run a launch goes on to its create step iff it is not cancelled, the load succeeds and nothing else objects; under a taken id it answers with that record iff preset and group agree |
| SessionProgress.LaunchCreatesIff | crates/multiplex-cli/src/local.rs:2061-2103 | in every run the create step of a launch creates the session asked for, fresh and provisioning, or takes the one that stands there, iff nothing objects, and otherwise fails with that error |
| SessionProgress.LaunchGoesOnIff | crates/multiplex-cli/src/local.rs:2104-2190 | in every run the launcher call and the two lifecycle calls of a launch lead on iff they agree, and a lifecycle call that fails leads to a reload that answers with the record as it stands |
| SessionTheorems.StopLandsOnStopping | crates/multiplex-cli/src/local.rs:1907-1979 | a stop's Exited commit lands directly on a version in which the session is the Stopping record the command holds; that version is the command's own commit if and only if the session was not yet Stopping in the repository when the command's Stopping call was made, an earlier event of the same run |
| SessionOrigins.StopComesFrom | crates/multiplex-cli/src/local.rs:1935-1950 | in every run a stop past its first call can be traced to that call, and its flag says whether the session was not yet Stopping then |
| StopOutcomes.StopExitsIff | crates/multiplex-cli/src/local.rs:1944-1979 | in every run a stop has committed Exited iff its Exited call was written, and that only after its own step in which the Host answered that it has stopped; any other answer ends it with its operation failed and no Exited commit; a success, other than finding the session exited, has the Host's word |
| StopOutcomes.RefusedStopStays | crates/multiplex-cli/src/local.rs:1962-1979 | in every run a stop whose Host answers anything else ends with its operation failed and the repository unchanged: a session nobody has touched since is still Stopping |
| SessionRuns.StopMayCloseAnotherStop | crates/multiplex-cli/src/local.rs:1907-1979 | a concrete run of two stops in which the second one's Exited commit lands on the first one's Stopping commit |
| SessionTheorems.ContinuityHolds | crates/multiplex-cli/src/local.rs:1424-1556 | in every interleaving two links that share a source, a replacement or a command are one link |
| SessionTheorems.NoChainCloses | crates/multiplex-cli/src/local.rs:1424-1556 | in no interleaving does a chain of links come back to the source it started from |
| SessionTheorems.ReadyHostIsAccountedFor | crates/multiplex-cli/src/local.rs:1716-1751 | when a resume has returned, a replacement Host that reported ready is linked or was sent a stop naming its own instance |
| SessionTheorems.ResumedMeansLinkedAndLive | crates/multiplex-cli/src/local.rs:1466-1533 | a successful resume has its link, and the successor stood Attaching and then Live under rising revisions; the record it was handed was its own Provisioning creation if and only if the replacement was absent when its create call, an earlier event of the run, was made |
| SessionOrigins.ResumeComesFrom | crates/multiplex-cli/src/local.rs:1466-1533 | in every run a resume that holds a record was handed it by one create call of its own; the record is new if and only if the replacement was absent then, and otherwise it is the record that stood there |
| SessionOrigins.RunKeepsMade | crates/multiplex-cli/src/local.rs:1466-1533 | in every run a resume that holds a record as new has itself committed its creation, Provisioning, and one that holds a record as existing has committed no creation of that id |
| SessionRuns.ResumeMayReuseARecord | crates/multiplex-cli/src/local.rs:1466-1533 | a concrete run in which a confirmed resume is handed an Offline record that already had the replacement's id, launches, links it and answers success without a Provisioning step of its own |
| ResumeOutcomes.ResumeCallsIff | crates/multiplex-cli/src/local.rs:1368-1470 | in every run a finished resume has called the launcher iff each of its five early steps met no objection, in order; it answers with a preview iff it is unconfirmed and its first two met none; otherwise it has failed |
| ResumeOutcomes.ResumeEndsIff | crates/multiplex-cli/src/local.rs:1480-1533 | in every run, for a finished resume under whose command id nobody else wrote a link: the link stands iff its link call found room and was not refused before the write; it failed with link and stopped Host iff that call answered an error although it had written; it failed with link and an unstopped ready Host iff its Attaching or Live call answered an error; it succeeded iff the link call succeeded and neither of those did |
| ResumeOutcomes.HostIsStoppedIff | crates/multiplex-cli/src/local.rs:1473-1504 | in every run a finished resume has had its Host sent a stop iff the resume was cancelled and its Host came up ready, or its link call answered an error |
| ResumeOutcomes.RunTells | crates/multiplex-cli/src/local.rs:1424-1556 | in every run, from every control point of a resume past its link check, its deeds are those its control point allows, and the link stands iff one of them wrote it |
| SessionRuns.LinkMayOutliveItsResume | crates/multiplex-cli/src/local.rs:1466-1556 | a concrete run in which the link's write lands although its call answers an error: the resume stops its Host and fails, and the link stands |
| SessionRuns.ResumeMayLeaveItsHost | crates/multiplex-cli/src/local.rs:1505-1533 | a concrete run without any store fault in which another session is pinned after the link call: the Attaching call is stale, the resume fails, the link stands and its ready Host was sent no stop |
| SessionTheorems.CreatedAtMostOnce | crates/multiplex-cli/src/local.rs:1981-2103 | while a session is not removed, at most one commit of a run creates it |
| SessionTheorems.LaunchesNeedOverlap | crates/multiplex-cli/src/local.rs:1981-2103 | two launcher calls for one requested session come from different commands that had both loaded the repository before the session existed; a replay that starts later never launches |
| SessionTheorems.LaunchCallsIff | crates/multiplex-cli/src/local.rs:1981-2103 | a launch that has loaded the repository without its session adds a launcher call to the run if and only if its create step proceeds and it steps again; the step proceeds exactly when nothing outside objects and the session stands there by then, which is not checked against the snapshot, or the snapshot is still current with room left |
| SessionTheorems.LateReplayNeverLaunches | crates/multiplex-cli/src/local.rs:1981-2103 | a launch that begins while its session stands in the repository, and is never removed, calls the launcher in no run |
| SessionTheorems.LaunchReplayAnswers | crates/multiplex-cli/src/local.rs:1999-2014 | a replay that finds the session answers with it iff preset and group agree, with a conflict iff they do not, and changes nothing |
| SessionRuns.LaunchMayRunTwice | crates/multiplex-cli/src/local.rs:1981-2103 | a concrete run of two replays of one launch in which both call the launcher although one record is created |
| SessionAnswers.MutateAchieves | crates/multiplex-store/src/sessions.rs:245-274 | whatever a store mutation answers with success holds the mutation's effect, also when nothing had to change, and stands in the repository |
| SessionAnswers.RunKeepsIntent | crates/multiplex-cli/src/local.rs:1368-2230 | in every run each command's control point carries the session and the mutation its own command names, and an unconfirmed one only looks |
| SessionAnswers.AnswerMeansDone | crates/multiplex-cli/src/local.rs:1851-2230 | in every run a success answer is the record the repository holds at that moment, of the session the command names, with the effect asked for: exited, archived, restored, renamed, read, or live |
| SessionAnswers.UnconfirmedTouchesNothing | crates/multiplex-cli/src/local.rs:1368-1423 | in every run a stop or resume that was not confirmed changes no store, launches nothing and stops nothing |
| SessionAnswers.ResumeMeetsReview | crates/multiplex-cli/src/local.rs:1466-1469 | a resume that creates its successor does so on the very document it reviewed, with the source still unarchived and at the expected revision |
| Snapshot.UndisturbedIsSimultaneous | crates/multiplex-cli/src/local.rs:2230-2266 | equal revisions in a pair of double reads pin both stores through the whole middle of the call |
| Snapshot.ConsistentSnapshot | crates/multiplex-cli/src/local.rs:2230-2266 | an answer is the simultaneous state of both stores at a moment inside the call, and there is one exactly when one of the two attempts met no commit between its paired reads |
| RemovalToken.RoundTrip | crates/multiplex-cli/src/local.rs:327-378 | every token over u64 fields encodes within 256 bytes and parses back to itself |
| RemovalToken.ParseExact | crates/multiplex-cli/src/local.rs:343-378 | whatever parses is the encoding of its result: leading zeros, plus signs and extra fields are refused |
| RemovalToken.EncodeInjective | crates/multiplex-cli/src/local.rs:330-341 | different tokens have different encodings |
| RemovalToken.ParseDecimal | crates/multiplex-cli/src/local.rs:330-378 | printed numbers read back for the whole u64 range, and carry no separator |
| Removal.RemovalIsAsReviewed | crates/multiplex-cli/src/local.rs:810-947 | a token-based removal that succeeds under arbitrary commits removes at exactly the repository revision and manifest the token carries |
| Removal.ConfirmationIsTheOneAskedFor | crates/multiplex-cli/src/local.rs:867-947 | when a token issued by one preview is spent, the confirmation accepted is that preview's asked text if it was for the same session, and otherwise iff the text does not depend on the title or the titles agree |
| Removal.TokenDoesNotNameItsSession | crates/multiplex-cli/src/local.rs:327-378 | a token issued for one session removes another of equal revision and manifest: the token does not bind the session id |
| Removal.QuietRemovalSucceedsIff | crates/multiplex-cli/src/local.rs:810-947 | with no commits during the call, removal succeeds iff the token is the fresh preview's and the confirmation is the asked text, bounded as the command line bounds it |
| Removal.RemovalAnswers | crates/multiplex-cli/src/local.rs:810-947 | whatever moves between its calls, a removal answers the first objection to the token's form, the preview, the token as the preview's, the confirmation, the plan and the removal, in that order, and the removed record iff there is none |
| Removal.UnconfirmableTitle | crates/multiplex-cli/src/local.rs:867-947 | a session asked to be confirmed by a title with a control character can never be removed this way |
| Removal.TwoLineTitleCannotBeRemoved | crates/multiplex-domain/src/session.rs:98-116 | a title of two lines is one the domain accepts, and no token and no confirmation removes the session that has it |
| Attach.DeliveryIsExact | crates/multiplex-cli/src/local_attach.rs:538-556 | the records delivered are exactly the longest run of next-in-sequence records before the first gap, whatever is resent |
| Attach.ReplayIsStable | crates/multiplex-cli/src/local_attach.rs:510-536 | replaying the log up to a point depends only on the log up to that point |
| Attach.TextIsLogSlice | crates/multiplex-cli/src/local_attach.rs:538-556 | what a batch delivers spells the slice of the log between the two watermarks |
| Attach.BatchInStep | crates/multiplex-cli/src/local_attach.rs:538-556 | any leading part of a delivery keeps the screen in step with the watermark it earns |
| Attach.SnapshotInStep | crates/multiplex-cli/src/local_attach.rs:510-536 | a faithful snapshot at or past the watermark puts the screen in step at its boundary |
| Attach.TerminalClient.WriteOutputs | crates/multiplex-cli/src/local_attach.rs:538-556 | the loop delivers exactly Deliver's records and watermark, reports a gap iff there is one, and after a failed write counts only records written in full |
| Attach.TerminalClient.PollOutput | crates/multiplex-cli/src/local_attach.rs:510-536 | unless a write fails, a poll answers and leaves exactly what the reply earns: the snapshot and then every deliverable record written, the watermark moved, a gap or a missing state reported; the screen shows the log exactly up to the watermark, which never falls |
| Attach.TerminalClient.Follow | crates/multiplex-cli/src/local_attach.rs:510-556 | the same over any sequence of polls from a blank terminal at sequence zero: poll after poll is taken up to the first that fails |
| AttachModel.NextAlwaysExists | crates/multiplex-client/src/attach_model.rs:85-94 | the branch for a watermark with no successor cannot be reached |
| AttachModel.RunIsMonotoneAndCounts | crates/multiplex-client/src/attach_model.rs:65-126 | over every run of calls the watermark never falls and the counters are the true totals since the last replay start, capped at the u64 maximum |
| AttachModel.LeaseNeedsLive | crates/multiplex-client/src/attach_model.rs:108-126 | a writer lease is held only from a mark-live that granted it and that no offline or dead mark followed |
| AttachModel.PhaseIsTheLastBrought | crates/multiplex-client/src/attach_model.rs:55-126 | after any run of calls the phase is the one the last deciding call brought: replay, gap, live, recording paused, offline or dead; a duplicate, a delivered output and a refused snapshot decide none |
| AttachModel.ModelAgreesWithClient | crates/multiplex-client/src/attach_model.rs:80-106 | on any outputs up to the first gap the model delivers the same records and reaches the same watermark as the terminal client |
| AttachModel.GpuiAttachModel.ObserveOutput | crates/multiplex-client/src/attach_model.rs:80-106 | the method on the fields takes exactly the model's step and classifies as the terminal client does |
| AttachModel.GpuiAttachModel.ApplySnapshotCall | crates/multiplex-client/src/attach_model.rs:71-78 | a snapshot behind the watermark is refused and changes nothing; any other one moves the watermark and restarts the counters |
| ProxyTransfer.PassedOnWithinLimit | crates/multiplex-browser/src/network.rs:469-503 | over any interleaving of any number of tunnels, the bytes passed on in all directions together never exceed the limit |
| ProxyTransfer.WrittenIsPrefix | crates/multiplex-browser/src/network.rs:369-392 | in each direction the bytes written are a prefix of the bytes read, through partial and interrupted writes, and all of them at the head of the loop and after a clean end |
| ProxyTransfer.EndsIff | crates/multiplex-browser/src/network.rs:469-503 | in every run a direction ends exactly by its own step and for that step's reason: cleanly at the end of its stream, stopped only while stop is up, at the limit only once the total has passed it, otherwise only by the socket's answer |
| ProxyTransfer.EndedCleanlyIsWhole | crates/multiplex-browser/src/network.rs:469-503 | in every run a direction that ended cleanly has passed on its whole stream |
| ProxyTransfer.RelaysWholeStream | crates/multiplex-browser/src/network.rs:469-503 | while stop is down and the total has room a direction goes round for any number of chunks: it reads and writes them all and ends only when it meets the end of the stream |
| ProxyTransfer.CounterStaysSmall | crates/multiplex-browser/src/network.rs:469-503 | the shared counter outruns the limit by at most one chunk for each direction ever opened, so it cannot wrap below 2^49 directions |
| ProxyTransfer.LimitIsFinal | crates/multiplex-browser/src/network.rs:469-503 | once the total has passed the limit no step of any direction admits another byte |
| ProxyTransfer.StoppedDirectionEnds | crates/multiplex-browser/src/network.rs:369-392 | once stop is raised, in any run a direction takes at most TurnsLeft more steps, from every control point, and exactly these calls bring it no closer to its end: a blocking read from a silent peer, a blocking or interrupted write, a patient write before its deadline |
| ProxyAcceptor.ConnectionsAreBounded | crates/multiplex-browser/src/network.rs:224-261 | although the load and the increment of the count are separate steps, never more than 32 connections are live |
| ProxyAcceptor.EveryWorkerJoinedOnce | crates/multiplex-browser/src/network.rs:224-261 | no worker is joined twice or before it has ended, and when the listener has ended every spawned worker was joined |
| ProxyAcceptor.SwapRemoveTakesOne | crates/multiplex-browser/src/network.rs:230-233 | the sweep's swap_remove takes exactly the one handle out |
| ProxyAcceptor.AcceptedIff | crates/multiplex-browser/src/network.rs:238-258 | in every run a connection taken by accept gets a worker of its own iff stop was down and fewer than 32 connections were live at its check, whatever happens in between, and the listener comes round to its flag again |
| ProxyAcceptor.RoundSweeps | crates/multiplex-browser/src/network.rs:226-237 | in every run, from a look at the flag that finds it down, the workers that had ended by then are gone from the list whenever the listener is not in the middle of a sweep |
| ProxyAcceptor.FailedAcceptIsTheLast | crates/multiplex-browser/src/network.rs:238-240 | after an accept that fails the listener only joins: no other worker is started |
| ProxyAcceptor.ListenerWaitsIff | crates/multiplex-browser/src/network.rs:226-261 | the listener waits exactly for a worker that still runs when it joins, and in accept when nothing has arrived and accept does not fail |
| ProxyAcceptor.StopBoundsTheListener | crates/multiplex-browser/src/network.rs:226-261 | after stop alone, woken or not, at most StepsLeft of the listener's own steps get anywhere in any run |
| ProxyAcceptor.StoppedListenerEnds | crates/multiplex-browser/src/network.rs:226-261 | once stop is up and a wake has arrived, in any run a bounded number of the listener's own steps get anywhere, and until it has ended all it can wait for is a worker that still runs |
| ProxyAcceptor.UnwokenListenerStays | crates/multiplex-browser/src/network.rs:281-290 | a stopped listener that was not woken stays at or before accept for as long as nothing arrives and no accept fails |
| ProxyAcceptor.WakeDecides | crates/multiplex-browser/src/network.rs:281-290 | if nothing else arrives, a stopped listener can get past accept after drop's connection attempt if and only if that attempt arrived, a connection was waiting, or accept was already behind it |
| ProxyShutdown.DropEndsIff | crates/multiplex-browser/src/network.rs:281-361 | judged when stop is up and the wake has arrived: in every run a bounded number of turns get anywhere, and every continuation that comes to rest has ended the listener thread if and only if no direction of any tunnel may block at that moment: reading a blocking socket, or reading with room under the limit, counting, admitting or writing a chunk for one |
| ProxyShutdown.RestIff | crates/multiplex-browser/src/network.rs:226-261 | at rest after stop and wake the listener thread has ended if and only if no tunnel is inside a call on a blocking socket |
| ProxyShutdown.BlockedHoldsDrop | crates/multiplex-browser/src/network.rs:443-483 | while a peer stays silent to a call on a blocking socket, the call lasts and the listener thread does not end, whatever else happens |
| ProxyShutdown.SilentUpstreamHangsDrop | crates/multiplex-browser/src/network.rs:319-361 | a concrete run, one CONNECT tunnel whose upstream is being read, after which drop does not end however long the upstream stays silent, although the wake arrived |
| ProxyShutdown.PlainTunnelsLetDropEnd | crates/multiplex-browser/src/network.rs:333-361 | where no tunnel was opened with CONNECT, drop ends however things go on once its wake has arrived |
| RawStdin.ReceivedIsPrefix | crates/multiplex-cli/src/raw_stdin.rs:25-73 | in every run the chunks received, put together, are a prefix of the bytes read, and the queue never holds more than eight |
| RawStdin.RunKeepsInv | crates/multiplex-cli/src/raw_stdin.rs:25-84 | every byte read is at all times in exactly one place, in order: received, queued, or in the chunk being sent or refused |
| RawStdin.LeavesIff | crates/multiplex-cli/src/raw_stdin.rs:33-61 | the worker leaves its loop exactly when stop is up at its test, a poll or a read fails, the input ends or the queue is closed: interrupted calls and sent chunks go round again |
| RawStdin.RoundQueues | crates/multiplex-cli/src/raw_stdin.rs:33-57 | while stop is down and the queue has room, after any number of idle and interrupted polls the next chunk is queued behind the others and the worker is ready for the one after |
| RawStdin.StuckIff | crates/multiplex-cli/src/raw_stdin.rs:53-57 | outside the end of the loop the worker can be blocked on someone else only by a full queue that is still open |
| RawStdin.StopBoundsTheWorker | crates/multiplex-cli/src/raw_stdin.rs:33-61 | from any control point at most StepsLeft of the worker's own steps follow the stop flag, whatever else happens |
| RawStdin.DropCannotHang | crates/multiplex-cli/src/raw_stdin.rs:75-84 | after drop has raised stop and closed the queue the worker takes at most four more steps, is never blocked, and once it has left the join goes through |
| RawStdin.IdleWorkerNeedsTheFlag | crates/multiplex-cli/src/raw_stdin.rs:33-44 | without the flag an idle worker can go round for any number of polls |
| Accessibility.BitMeansMember | crates/multiplex-accessibility-macos/src/lib.rs:718-722 | a bit test on a node's action bits answers membership of the action in its set |
| Accessibility.BitsAgreeExactly | crates/multiplex-accessibility-macos/src/lib.rs:296-298 | comparing action bits compares the action sets |
| Accessibility.SurvivorsKeepTheirActions | crates/multiplex-accessibility-macos/src/lib.rs:278-305 | an element that no change retired still belongs to a node with the same actions |
| Accessibility.Bridge.RebuildNativeTree | crates/multiplex-accessibility-macos/src/lib.rs:186-245 | the rebuild succeeds iff all text resolves, all parents and the root exist, and then every native element says what its model says: identity, bits, label, parent and visible children |
| Accessibility.Bridge.Apply | crates/multiplex-accessibility-macos/src/lib.rs:279-304 | one change moves both maps together or neither; it replaces an element exactly when the change retires it |
| Accessibility.Bridge.ApplyAll | crates/multiplex-accessibility-macos/src/lib.rs:278-305 | the loop stops at the first change that cannot be made, with the maps agreeing and the models being what the changes so far say |
| Accessibility.Bridge.ApplyPatch | crates/multiplex-accessibility-macos/src/lib.rs:264-306 | after any patch, complete or not, the maps agree and hold distinct elements of the right class, the flag is on no element but the recorded focus, the generation has not fallen, and the errors are exactly those the patch earns |
| Accessibility.Bridge.SetFocus | crates/multiplex-accessibility-macos/src/lib.rs:308-338 | success leaves the flag on the target and nowhere else; a stale target leaves it nowhere, with the recorded focus kept; a stale generation changes nothing |
| DependencyPath.DependencyPath | scripts/verify/gpui-boundaries.py:36-51 | the search ends on every finite graph, comes back clean iff no forbidden package other than the root is reachable, otherwise finds a chain no other is shorter than, and raises a KeyError iff a package on that chain has no name |
| DependencyPath.NewIsShortest | scripts/verify/gpui-boundaries.py:47-50 | a package met for the first time is met over a shortest chain, cycles or not |
| DependencyPath.HeadIsNearest | scripts/verify/gpui-boundaries.py:44-46 | a forbidden package at the head of the queue is nearest among all forbidden ones |
| DependencyPath.UnvisitedIsFar | scripts/verify/gpui-boundaries.py:41-50 | a chain to a package not yet visited is longer than the level being expanded |
| SessionWait.Wait | crates/multiplex-cli/src/local.rs:1155-1213 | the wait ends; it matches iff the last load shows the lifecycle or activity asked for, times out only at or after the deadline with the last revision seen, loads at most once per started poll interval, and looks again in time: between two loads, and after the last, its sleeps come to at most fifty milliseconds; every load follows a look at the cancellation flag |
| SessionWait.Environment.SleepInterruptibly | crates/multiplex-cli/src/local.rs:2884-2896 | true means the whole duration has passed, false that the flag is up; no single sleep exceeds ten milliseconds, each follows a look at the flag, and together they ask for no more than the duration |
| SessionWait.PacedIsBounded | crates/multiplex-cli/src/local.rs:1202-1207 | loads a poll interval apart before the deadline are at most ceil(timeout / 50 ms) |
| Wrap.WrappingKeepsText | crates/multiplex-cli/src/render.rs:510-567 | at every width, zero included, wrapping loses, adds and reorders nothing but white space |
| Wrap.WrappedFits | crates/multiplex-cli/src/render.rs:510-567 | every line of a non-blank input fits whenever the continuation indent leaves room for the widest character (two cells, or one if none is wide) |
| Wrap.WordsStayWhole | crates/multiplex-cli/src/render.rs:510-536 | if every word fits behind the indent, the lines are the words in order, one space apart behind the indent, each line but the last as full as it can be, and every line fits |
| Wrap.WrappingIsGreedy | crates/multiplex-cli/src/render.rs:510-567 | a line that fits or is blank stays; otherwise its words, in order and one space apart, fill rows greedily behind the indent, and each row comes out as it is if it fits and else broken greedily between characters |
| Wrap.WordsDivide | crates/multiplex-cli/src/render.rs:522-522 | the words are the maximal runs: they and the white space around them make up the text, with white space between any two |
| Wrap.FillIsGreedy | crates/multiplex-cli/src/render.rs:519-539 | filling puts the words in order, one space apart, into rows of which all but the last could not have taken the next row's first word |
| Wrap.HardWrapIsGreedy | crates/multiplex-cli/src/render.rs:546-567 | a row that is too wide is broken into pieces that make it up, each but the last as long as the width allows |
| Wrap.DeepIndentOverflows | crates/multiplex-cli/src/render.rs:546-567 | at every width, zero and one included, a line of wide characters behind an indent that does not leave two cells comes out too wide |
| Wrap.IndentFitsIff | crates/multiplex-cli/src/render.rs:510-567 | for each indent and width: all lines of that indent without wider characters fit if and only if the indent leaves two cells |
| Wrap.FirstLineIsNotIndented | crates/multiplex-cli/src/render.rs:519-540 | a wrapped line loses its own indent: its first piece starts with its first solid character |
| Wrap.Fill | crates/multiplex-cli/src/render.rs:519-539 | the word loop with its running width computes FillFrom, the running width being the true width throughout |
| Wrap.HardWrapLine | crates/multiplex-cli/src/render.rs:546-567 | the character loop with its running width computes HardWrap |
| Wrap.WrapLine | crates/multiplex-cli/src/render.rs:510-544 | the whole function computes Wrapped, which the lemmas are about |
| CommandOptions.ParsesIff | crates/multiplex-cli/src/args.rs:670-701 | parse_options accepts exactly the lists of allowed options, each once, in any order, values not dashed, and answers what they list |
| CommandOptions.AnyOrderParses | crates/multiplex-cli/src/args.rs:670-701 | any order of a set of options parses back to that set |
| CommandOptions.ParseOptionsLoop | crates/multiplex-cli/src/args.rs:670-701 | the loop over vector and sets answers what ParseOptions says, entry by entry, and fails exactly when it does |
| CommandOptions.ValueMissing | crates/multiplex-cli/src/args.rs:684-690 | after any allowed options, a name that wants a value and has none or a dashed one is refused |
| CommandOptions.ListingExists | crates/multiplex-cli/src/args.rs:670-701 | every set of options has a list that spells it, so the order-independence statements are about something |
| CommandOptions.TextIsInjective | crates/multiplex-cli/src/args.rs:294-471 | the fixed words of the grammar are pairwise different |
| CommandLine.StripLoop | crates/multiplex-cli/src/args.rs:275-286 | the loop that takes --json out computes Strip, duplicates refused |
| CommandRoundTrip.RoundTrip | crates/multiplex-cli/src/args.rs:273-607 | every printable command, options in any order and --json anywhere or nowhere, parses back to itself with the right flag, or is refused for size |
| CommandMeaning.AcceptedIff | crates/multiplex-cli/src/args.rs:273-607 | the command line accepts exactly the argument lists within the limits that, with one --json or none taken out, are a command written out: its own words, its own options only and each once, every value in its syntax and range, what belongs together given together, and what is left out at its default |
| CommandRoundTrip.SshRoundTrip | crates/multiplex-cli/src/args.rs:476-607 | the same for the SSH route: target options and action options each in any order around the action word |
| CommandRoundTrip.ActionIndexIs | crates/multiplex-cli/src/args.rs:483-486 | the split falls on the action word when nothing before it is one |
| FreeText.UnfreeTextFails | crates/multiplex-cli/src/args.rs:670-701 | a dashed folder, token, host or user, or a host or user that is an action word, is never accepted, in any option order and with --json anywhere |
| FreeText.RoundTripIff | crates/multiplex-cli/src/args.rs:273-607 | for every command in range: it parses back to itself iff its arguments are within the limits and its free text is free |

## Left out

- Session positions and the move command: no modelled decision reads a position; a refused duplicate position shows as a store fault, and a commit of placements is an outside commit of several records.
- SessionDomain.ReduceKeepsValid: the move mutation is left out, since positions are.
- SessionDomain.ReduceIsIdempotent: the move mutation is left out, since positions are.
- SessionStore.CreateContract: a new session's tail position can overflow in the code, which here is a store fault.
- SessionStore.RemoveContract: the plan's manifest and the quarantine directory are not part of this iff; the plan and manifest are compared in Removal.
- SessionStore.SessionRepository.RemoveSession: as RemoveContract.
- OrchestrationInvariant.CurrentIsNewer: true of records without positions; a rebalance (sessions.rs:725) moves the positions of a session's neighbours without stamping them.
- Outside commits that remove sessions and change others in one step: they are two events here.
- Folder, creation time, title text validation and activity validation: not read by any modelled decision.
- Reading the last good copy when the primary document is corrupt, and re-reading after a write: a corrupt store shows as a store fault.
- The combined stop-and-archive management command: it is the stop command followed by the archive command.
- The library and preset stores in launch and resume: reduced to whether their revision moved since it was captured.
- Host processes, sockets, file permissions and Objective-C calls: their answers are arbitrary inputs of a step.
- ResumeOutcomes.ResumeEndsIff: another resume may carry the same command id, but then it must not have written a link under it, nor anybody else; two writers under one id are not told apart.
- SessionTheorems.ReadyHostIsAccountedFor: states that the stop naming the Host was sent, not that the Host obeyed it; that is the Host's part.
- The quarantine directory of a removal and conflicts on it: a store fault.
- The proxy's header parsing, URL and address policies, and the bytes that follow a CONNECT header in the same read: the header phase, whose reads, connects and writes all carry deadlines, is one step of a worker.
- ProxyShutdown.DropEndsIff: counts turns, not time; interrupted calls and patient writes before their deadline are turns that get nowhere.
- RawStdin.DropCannotHang: assumes that a read after a ready poll and a poll of 25 ms return; no bound on their duration is modelled.
- SessionWait.Wait: opening the repository is not modelled, and the sleep's own use of the instant clock is taken not to overflow.
- The attach shell's lease bookkeeping and input forwarding (local_attach.rs): only the output path is modelled.
- Accessibility.Bridge.RebuildNativeTree: states identity, bits, label, parent and children; relations, values, roles and bounds are left out.
- The relations between native elements, element values, bounds and roles, announcements and action dispatch of the accessibility bridge: they do not touch the maps or the flag. The order in which nodes are configured is left arbitrary.
- Accessibility.BitMeansMember: the u64 is represented by its low byte, since seven actions set no higher bit.
- Which characters are white space and how wide they are: a parameter of the wrapping model.
- UUID syntax, the tables of session state, activity and device status names, and the host and user syntaxes: a parameter of the command line model, required only to read back what they print.
- CommandRoundTrip.RoundTrip: the texts of error messages are one value, since every refusal but the size limit has the same error code.
- Help output, rendering of records, exit codes, error tables: one-branch facts over finite domains.
