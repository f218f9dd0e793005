/**
 Reviewed removal of a session (crates/multiplex-cli/src/local.rs, crates/multiplex-store/src/sessions.rs):
 a preview issues a token, and a later commit takes the token and a typed confirmation, previews again,
 plans again and removes. Each of its four store calls falls on some moment of a timeline that other
 writers extend in between.
 */
module Removal {
  import opened Wrappers
  import opened SessionDomain
  import opened SessionStore
  import opened RemovalToken

  /** The data directory of one session as a scan finds it; an unsafe or oversized tree fails the scan. */
  datatype Files = ScanFails | Scanned(journal: u64, transcript: u64, artifact: u64, count: u64)

  /** `files` answers for every session; a session without a directory scans as empty. */
  datatype Moment = Moment(doc: Document, files: map<nat, Files>)

  /** The document changes by commits; the directories change freely. */
  ghost predicate Timeline(t: seq<Moment>) {
    && (forall i :: 0 <= i < |t| ==> ValidDocument(t[i].doc))
    && (forall i :: 0 < i < |t| ==> t[i - 1].doc == t[i].doc || CommitStep(t[i - 1].doc, t[i].doc))
  }

  /** Equal revisions at two moments of one timeline mean equal documents. */
  lemma {:induction false} SameRevisionSameDocument(t: seq<Moment>, i: nat, j: nat)
    requires Timeline(t) && i <= j < |t|
    ensures t[i].doc == t[j].doc || t[i].doc.revision < t[j].doc.revision
    decreases j
  {
    if i < j {
      SameRevisionSameDocument(t, i, j - 1);
      assert t[j - 1].doc == t[j].doc || CommitStep(t[j - 1].doc, t[j].doc);
    }
  }

  // ---------------------------------------------------------------- plans and previews

  datatype RemovalError = CancelledByUser | Invalid | Conflict | Mismatch | Store(error: StoreError)

  datatype Plan = Plan(id: nat, revision: nat, title: string, manifest: Manifest)

  /** The manifest of a session: the size of its own record and what its directory holds. */
  function ScanManifest(m: Moment, s: Session, size: Session -> u64): Option<Manifest> {
    if s.id !in m.files then Some(Manifest(size(s), 0, 0, 0, 0))
    else
      match m.files[s.id]
      case ScanFails => None
      case Scanned(journal, transcript, artifact, count) =>
        Some(Manifest(size(s), journal, transcript, artifact, count))
  }

  function RemovalPlan(m: Moment, id: nat, size: Session -> u64): Result<Plan, RemovalError> {
    if id !in m.doc.sessions then Failure(Store(Unavailable))
    else if !m.doc.sessions[id].CanRemove() then Failure(Store(RemoveRequiresExitedArchive))
    else
      match ScanManifest(m, m.doc.sessions[id], size)
      case None => Failure(Store(Fault))
      case Some(manifest) => Success(Plan(id, m.doc.revision, m.doc.sessions[id].title, manifest))
  }

  /** The text a preview or a plan asks the user to type. */
  function AskedText(plan: Plan): string {
    if plan.manifest.RequiresTitle() then plan.title else "REMOVE"
  }

  /** Loads, then plans; the two must agree on the revision. */
  function Preview(load: Moment, planned: Moment, id: nat, expected: Option<nat>, size: Session -> u64)
    : Result<Plan, RemovalError>
  {
    if id !in load.doc.sessions then Failure(Store(Unavailable))
    else if expected.Some? && expected.value != load.doc.sessions[id].revision then Failure(Conflict)
    else
      var plan := RemovalPlan(planned, id, size);
      if plan.Failure? then plan
      else if plan.value.revision != load.doc.revision then Failure(Conflict)
      else plan
  }

  function TokenOf(plan: Plan): Token { Token(plan.revision, plan.manifest) }

  /** Everything a plan puts into a token fits the token's fields. */
  lemma PlanInRange(m: Moment, id: nat, size: Session -> u64)
    requires ValidDocument(m.doc)
    ensures RemovalPlan(m, id, size).Success? ==> InRange(TokenOf(RemovalPlan(m, id, size).value))
  {
  }

  predicate IsControl(c: char) { c < ' ' || '\U{7F}' <= c <= '\U{9F}' }

  /** A confirmation may hold up to 256 characters, none of them a control character. */
  predicate BoundedConfirmation(text: string) {
    |text| <= 256 && forall c :: c in text ==> !IsControl(c)
  }

  // ---------------------------------------------------------------- removal

  /**
   remove_management_session: plan again, compare with what was reviewed, then remove under that revision.
   The user may cancel before the plan and once more before the removal.
   */
  function RemoveReviewed(planned: Moment, removed: Moment, id: nat, token: Token, confirmation: string,
                          size: Session -> u64, cancelledEarly: bool, cancelledLate: bool, fault: bool)
    : Result<Session, RemovalError>
  {
    if cancelledEarly then Failure(CancelledByUser)
    else if !BoundedConfirmation(confirmation) then Failure(Invalid)
    else
      var plan := RemovalPlan(planned, id, size);
      if plan.Failure? then Failure(plan.error)
      else if plan.value.revision != token.revision then Failure(Conflict)
      else if plan.value.manifest != token.manifest then Failure(Conflict)
      else if confirmation != AskedText(plan.value) then Failure(Mismatch)
      else if cancelledLate then Failure(CancelledByUser)
      else RemoveSession(removed, plan.value, token.revision, size, fault)
  }

  /** The store's removal: the revision, the right to remove and the manifest are all checked once more. */
  function RemoveSession(m: Moment, plan: Plan, expected: nat, size: Session -> u64, fault: bool)
    : Result<Session, RemovalError>
  {
    var o := Remove(m.doc, plan.id, expected);
    if expected == m.doc.revision && plan.revision != expected then Failure(Store(Stale(expected)))
    else if o.result.Failure? then Failure(Store(o.result.error))
    else if ScanManifest(m, m.doc.sessions[plan.id], size) != Some(plan.manifest) then Failure(Conflict)
    else if fault then Failure(Store(Fault))
    else Success(o.result.value)
  }

  /**
   commit_cli_session_removal. `at` are the moments of its four store calls: the preview's load and plan,
   the second plan, and the removal. `cancelled` answers its four cancellation checks.
   */
  function Commit(t: seq<Moment>, at: seq<nat>, id: nat, expected: Option<nat>, tokenText: string,
                  confirmation: string, size: Session -> u64, cancelled: seq<bool>, fault: bool)
    : Result<Session, RemovalError>
    requires |at| == |cancelled| == 4 && forall i :: 0 <= i < 4 ==> at[i] < |t|
  {
    match Parse(tokenText)
    case None => Failure(Invalid)
    case Some(token) =>
      if cancelled[0] then Failure(CancelledByUser)
      else
        var preview := Preview(t[at[0]], t[at[1]], id, expected, size);
        if preview.Failure? then Failure(preview.error)
        else if cancelled[1] then Failure(CancelledByUser)
        else if Encode(TokenOf(preview.value)) != tokenText then Failure(Conflict)
        else RemoveReviewed(t[at[2]], t[at[3]], id, token, confirmation, size, cancelled[2], cancelled[3], fault)
  }

  ghost predicate InOrder(t: seq<Moment>, at: seq<nat>) {
    && |at| == 4
    && (forall i :: 0 <= i < 4 ==> at[i] < |t|)
    && at[0] <= at[1] <= at[2] <= at[3]
  }

  /**
   If a token's removal succeeds, then at the moment of removal the repository revision and the manifest are
   the token's, no commit fell anywhere inside the call, and the confirmation is the text that session asks for.
   */
  lemma RemovalIsAsReviewed(t: seq<Moment>, at: seq<nat>, id: nat, expected: Option<nat>, tokenText: string,
                            confirmation: string, size: Session -> u64, cancelled: seq<bool>, fault: bool)
    requires Timeline(t) && InOrder(t, at) && |cancelled| == 4
    requires Commit(t, at, id, expected, tokenText, confirmation, size, cancelled, fault).Success?
    ensures Parse(tokenText).Some?
    ensures var token := Parse(tokenText).value;
            var m := t[at[3]];
            && token.revision == m.doc.revision
            && id in m.doc.sessions && m.doc.sessions[id].CanRemove()
            && ScanManifest(m, m.doc.sessions[id], size) == Some(token.manifest)
            && confirmation == AskedText(Plan(id, token.revision, m.doc.sessions[id].title, token.manifest))
            && BoundedConfirmation(confirmation)
            && (expected.Some? ==> m.doc.sessions[id].revision == expected.value)
    ensures forall k :: at[0] <= k <= at[3] ==> t[k].doc == t[at[3]].doc
  {
    hide Encode, Parse, ValidDocument, CommitStep, ScanManifest;
    ParseExact(tokenText);
    PlanInRange(t[at[1]], id, size);
    var plan := RemovalPlan(t[at[1]], id, size).value;
    EncodeInjective(TokenOf(plan), Parse(tokenText).value);
    assert t[at[0]].doc.revision == t[at[3]].doc.revision;
    forall k | at[0] <= k <= at[3] ensures t[k].doc == t[at[3]].doc {
      SameRevisionSameDocument(t, at[0], k);
      SameRevisionSameDocument(t, k, at[3]);
    }
  }

  /**
   The preview that issued a token and the commit that spends it. The token names the revision and the
   manifest but not the session, so the confirmation accepted is the text the issuing preview asked for
   exactly when that text does not depend on the session, or both titles agree.
   */
  lemma ConfirmationIsTheOneAskedFor(t: seq<Moment>, issued: seq<nat>, at: seq<nat>, issuedFor: nat, id: nat,
                                     issuedExpected: Option<nat>, expected: Option<nat>, confirmation: string,
                                     size: Session -> u64, cancelled: seq<bool>, fault: bool)
    requires Timeline(t) && InOrder(t, at) && |cancelled| == 4
    requires |issued| == 2 && issued[0] <= issued[1] <= at[0]
    requires var preview := Preview(t[issued[0]], t[issued[1]], issuedFor, issuedExpected, size);
             && preview.Success?
             && Commit(t, at, id, expected, Encode(TokenOf(preview.value)), confirmation, size, cancelled,
               fault).Success?
    ensures var preview := Preview(t[issued[0]], t[issued[1]], issuedFor, issuedExpected, size);
            var doc := t[at[3]].doc;
            && t[issued[0]].doc == doc
            && issuedFor in doc.sessions && id in doc.sessions
            && (confirmation == AskedText(preview.value) <==>
                  || !preview.value.manifest.RequiresTitle()
                  || doc.sessions[issuedFor].title == doc.sessions[id].title)
            && (issuedFor == id ==> confirmation == AskedText(preview.value))
  {
    hide Encode, Parse, ValidDocument, CommitStep, ScanManifest, Commit;
    var preview := Preview(t[issued[0]], t[issued[1]], issuedFor, issuedExpected, size).value;
    PlanInRange(t[issued[1]], issuedFor, size);
    RoundTrip(TokenOf(preview));
    RemovalIsAsReviewed(t, at, id, expected, Encode(TokenOf(preview)), confirmation, size, cancelled, fault);
    SameRevisionSameDocument(t, issued[0], at[3]);
    SameRevisionSameDocument(t, issued[1], at[3]);
  }

  const TWIN_A :=
    Session(1, None, None, "a", Default, Exited, Activity(0, false, None), false, 0, 0, None, Some(0), 0, 0)
  const TWIN_B := TWIN_A.(id := 2, title := "b")
  const TWINS := Moment(Document(0, map[1 := TWIN_A, 2 := TWIN_B]),
    map[1 := Scanned(0, 5, 0, 1), 2 := Scanned(0, 5, 0, 1)])
  const TWIN_TOKEN := Token(0, Manifest(9, 0, 5, 0, 1))

  lemma TwinPlans(id: nat)
    requires id == 1 || id == 2
    ensures RemovalPlan(TWINS, id, s => 9) == Success(Plan(id, 0, if id == 1 then "a" else "b", TWIN_TOKEN.manifest))
    ensures Preview(TWINS, TWINS, id, None, s => 9) == RemovalPlan(TWINS, id, s => 9)
  {
    assert TWINS.doc.sessions[1] == TWIN_A && TWINS.doc.sessions[2] == TWIN_B;
  }

  /** A token issued for one session and spent on another of the same manifest and a different title. */
  lemma TokenDoesNotNameItsSession() returns (t: seq<Moment>, confirmation: string, size: Session -> u64)
    ensures Timeline(t) && |t| == 1
    ensures var preview := Preview(t[0], t[0], 1, None, size);
            && preview.Success?
            && Commit(t, [0, 0, 0, 0], 2, None, Encode(TokenOf(preview.value)), confirmation, size,
                      [false, false, false, false], false).Success?
            && confirmation != AskedText(preview.value)
  {
    hide Encode, Parse, RemovalPlan, Preview;
    t, confirmation, size := [TWINS], "b", s => 9;
    assert |TWINS.doc.sessions| <= 2 by { assert TWINS.doc.sessions.Keys == {1, 2}; }
    TwinPlans(1);
    TwinPlans(2);
    RoundTrip(TWIN_TOKEN);
    assert TWIN_TOKEN == TokenOf(Plan(1, 0, "a", TWIN_TOKEN.manifest));
    var never := [false, false, false, false];
    assert Commit(t, [0, 0, 0, 0], 2, None, Encode(TWIN_TOKEN), confirmation, size, never, false).Success?;
  }

  /** What a scan of that session's data finds, if it finds any and is allowed to: its manifest. */
  function Found(m: Moment, id: nat, size: Session -> u64): Option<Manifest>
    requires id in m.doc.sessions
  {
    if m.doc.sessions[id].id !in m.files then Some(Manifest(size(m.doc.sessions[id]), 0, 0, 0, 0))
    else
      match m.files[m.doc.sessions[id].id]
      case ScanFails => None
      case Scanned(j, t, a, n) => Some(Manifest(size(m.doc.sessions[id]), j, t, a, n))
  }

  /** Why no plan can be made of removing that session. */
  function PlanRefusal(m: Moment, id: nat, size: Session -> u64): Option<RemovalError> {
    if id !in m.doc.sessions then Some(Store(Unavailable))
    else if m.doc.sessions[id].archivedAt.None? || !m.doc.sessions[id].lifecycle.Exited? then
      Some(Store(RemoveRequiresExitedArchive))
    else if Found(m, id, size).None? then Some(Store(Fault))
    else None
  }

  /** The text that must be typed for this data. */
  function Asked(title: string, manifest: Manifest): string {
    if manifest.transcriptBytes == 0 && manifest.artifactBytes == 0 then ['R', 'E', 'M', 'O', 'V', 'E'] else title
  }

  /** The first objection to a token, at the two moments of the preview. */
  function PreviewObjection(t: seq<Moment>, at: seq<nat>, id: nat, expected: Option<nat>, size: Session -> u64)
    : Option<RemovalError>
    requires |at| == 4 && forall i :: 0 <= i < 4 ==> at[i] < |t|
  {
    var loaded, planned := t[at[0]].doc, t[at[1]];
    if id !in loaded.sessions then Some(Store(Unavailable))
    else if expected.Some? && expected.value != loaded.sessions[id].revision then Some(Conflict)
    else if PlanRefusal(planned, id, size).Some? then PlanRefusal(planned, id, size)
    else if planned.doc.revision != loaded.revision then Some(Conflict)
    else None
  }

  /** The first objection once the preview's own token is the one given, at the moments of the plan and the removal. */
  function SpendObjection(t: seq<Moment>, at: seq<nat>, id: nat, token: Token, confirmation: string,
                          size: Session -> u64, cancelled: seq<bool>, fault: bool): Option<RemovalError>
    requires |at| == |cancelled| == 4 && forall i :: 0 <= i < 4 ==> at[i] < |t|
  {
    var planned, removed := t[at[2]], t[at[3]];
    if cancelled[2] then Some(CancelledByUser)
    else if |confirmation| > 256 || exists c :: c in confirmation && IsControl(c) then Some(Invalid)
    else if PlanRefusal(planned, id, size).Some? then PlanRefusal(planned, id, size)
    else if planned.doc.revision != token.revision then Some(Conflict)
    else if Found(planned, id, size) != Some(token.manifest) then Some(Conflict)
    else if confirmation != Asked(planned.doc.sessions[id].title, token.manifest) then Some(Mismatch)
    else if cancelled[3] then Some(CancelledByUser)
    else if removed.doc.revision != token.revision then Some(Store(Stale(removed.doc.revision)))
    else if removed.doc.revision == U64_MAX && PlanRefusal(removed, id, size) in {None, Some(Store(Fault))} then
      Some(Store(RevisionOverflow))
    else if PlanRefusal(removed, id, size).Some? && PlanRefusal(removed, id, size) != Some(Store(Fault)) then
      PlanRefusal(removed, id, size)
    else if Found(removed, id, size) != Some(token.manifest) then Some(Conflict)
    else if fault then Some(Store(Fault))
    else None
  }

  /**
   What a removal answers, whatever moves between its calls: the first objection of those to the token's form, to the
   preview and to the token as the preview's, and then to the confirmation, the plan and the removal; and the record
   removed if there is none.
   */
  lemma RemovalAnswers(t: seq<Moment>, at: seq<nat>, id: nat, expected: Option<nat>, tokenText: string,
                       confirmation: string, size: Session -> u64, cancelled: seq<bool>, fault: bool)
    requires |at| == |cancelled| == 4 && forall i :: 0 <= i < 4 ==> at[i] < |t|
    ensures var r := Commit(t, at, id, expected, tokenText, confirmation, size, cancelled, fault);
            match Parse(tokenText)
            case None => r == Failure(Invalid)
            case Some(token) =>
              if cancelled[0] then r == Failure(CancelledByUser)
              else
                match PreviewObjection(t, at, id, expected, size)
                case Some(error) => r == Failure(error)
                case None =>
                  id in t[at[1]].doc.sessions && Found(t[at[1]], id, size).Some? &&
                  if cancelled[1] then r == Failure(CancelledByUser)
                  else if Encode(Token(t[at[1]].doc.revision, Found(t[at[1]], id, size).value)) != tokenText then
                    r == Failure(Conflict)
                  else
                    match SpendObjection(t, at, id, token, confirmation, size, cancelled, fault)
                    case Some(error) => r == Failure(error)
                    case None => id in t[at[3]].doc.sessions && r == Success(t[at[3]].doc.sessions[id])
  {
    hide Encode, Parse;
    PlanIs(t[at[1]], id, size);
    PlanIs(t[at[2]], id, size);
    hide RemovalPlan, Found;
    match Parse(tokenText)
    case None =>
    case Some(token) => SpendIs(t, at, id, token, confirmation, size, cancelled, fault);
  }

  lemma PlanIs(m: Moment, id: nat, size: Session -> u64)
    ensures match PlanRefusal(m, id, size)
            case Some(error) => RemovalPlan(m, id, size) == Failure(error)
            case None =>
              RemovalPlan(m, id, size)
              == Success(Plan(id, m.doc.revision, m.doc.sessions[id].title, Found(m, id, size).value))
  {
  }

  lemma SpendIs(t: seq<Moment>, at: seq<nat>, id: nat, token: Token, confirmation: string, size: Session -> u64,
                cancelled: seq<bool>, fault: bool)
    requires |at| == |cancelled| == 4 && forall i :: 0 <= i < 4 ==> at[i] < |t|
    ensures var planned, removed := t[at[2]], t[at[3]];
            var r := RemoveReviewed(planned, removed, id, token, confirmation, size, cancelled[2], cancelled[3], fault);
            match SpendObjection(t, at, id, token, confirmation, size, cancelled, fault)
            case Some(error) => r == Failure(error)
            case None => id in t[at[3]].doc.sessions && r == Success(t[at[3]].doc.sessions[id])
  {
    PlanIs(t[at[2]], id, size);
    hide RemovalPlan;
    assert ['R', 'E', 'M', 'O', 'V', 'E'] == "REMOVE";
  }

  /** When nothing else moves during the call, removal succeeds exactly for a fresh token and the asked text. */
  lemma QuietRemovalSucceedsIff(m: Moment, id: nat, tokenText: string, confirmation: string, size: Session -> u64)
    requires ValidDocument(m.doc) && m.doc.revision < U64_MAX
    ensures Commit([m], [0, 0, 0, 0], id, None, tokenText, confirmation, size,
                   [false, false, false, false], false).Success?
            <==>
              && RemovalPlan(m, id, size).Success?
              && tokenText == Encode(TokenOf(RemovalPlan(m, id, size).value))
              && confirmation == AskedText(RemovalPlan(m, id, size).value)
              && BoundedConfirmation(confirmation)
  {
    hide Encode, Parse, ScanManifest;
    var plan := RemovalPlan(m, id, size);
    if plan.Success? {
      PlanInRange(m, id, size);
      RoundTrip(TokenOf(plan.value));
    }
  }

  /**
   A session that must be confirmed by its title can be removed only if that title is free of control
   characters; the domain allows line breaks and tabs inside a title.
   */
  lemma UnconfirmableTitle(t: seq<Moment>, at: seq<nat>, id: nat, expected: Option<nat>, tokenText: string,
                           confirmation: string, size: Session -> u64, cancelled: seq<bool>, fault: bool)
    requires Timeline(t) && InOrder(t, at) && |cancelled| == 4
    requires Commit(t, at, id, expected, tokenText, confirmation, size, cancelled, fault).Success?
    ensures Parse(tokenText).Some? && id in t[at[3]].doc.sessions
    ensures Parse(tokenText).value.manifest.RequiresTitle() ==>
              forall c :: c in t[at[3]].doc.sessions[id].title ==> !IsControl(c)
  {
    RemovalIsAsReviewed(t, at, id, expected, tokenText, confirmation, size, cancelled, fault);
  }

  const MAX_TITLE: nat := 256

  /** Unicode white space, which trimming takes off both ends. */
  predicate IsBlank(c: char) {
    || c == ' ' || '\t' <= c <= '\r' || c in ['\U{85}', '\U{A0}', '\U{1680}']
    || '\U{2000}' <= c <= '\U{200A}' || c in ['\U{2028}', '\U{2029}', '\U{202F}', '\U{205F}', '\U{3000}']
  }

  /** What the domain accepts as a title: trimmed, bounded, and of the control characters only line breaks and tabs. */
  predicate AllowedTitle(title: string) {
    && 0 < |title| <= MAX_TITLE && !IsBlank(title[0]) && !IsBlank(title[|title| - 1])
    && forall c :: c in title ==> !IsControl(c) || c in ['\n', '\r', '\t']
  }

  const TWO_LINES := TWIN_A.(title := "a\nb")
  const TWO_LINE_MOMENT := Moment(Document(0, map[1 := TWO_LINES]), map[1 := Scanned(0, 5, 0, 1)])

  /**
   Such a session exists: its title is one the domain accepts, it may be removed, it is asked for by its title, and
   whatever token and confirmation are given, no attempt removes it.
   */
  lemma TwoLineTitleCannotBeRemoved(at: seq<nat>, expected: Option<nat>, tokenText: string, confirmation: string,
                                    size: Session -> u64, cancelled: seq<bool>, fault: bool)
    requires at == [0, 0, 0, 0] && |cancelled| == 4
    ensures AllowedTitle(TWO_LINES.title)
    ensures var plan := RemovalPlan(TWO_LINE_MOMENT, 1, size);
            plan.Success? && plan.value.manifest.RequiresTitle() && AskedText(plan.value) == TWO_LINES.title
    ensures Commit([TWO_LINE_MOMENT], at, 1, expected, tokenText, confirmation, size, cancelled, fault).Failure?
  {
    assert TWO_LINES.title == ['a', '\n', 'b'];
    assert '\n' in TWO_LINES.title;
    hide Parse, Encode;
  }
}
