/**
 The command line (crates/multiplex-cli/src/args.rs): from arguments to a command, and from a command back to
 arguments.
 */
module CommandLine {
  import opened Wrappers
  import opened CommandOptions
  import opened WaitCondition
  import Domain = SessionDomain
  import Numbers = RemovalToken

  const MAX_ARG_COUNT: nat := 128
  const MAX_ARG_BYTES: nat := 4096
  const MAX_TOTAL_ARG_BYTES: nat := 65536
  const DEFAULT_TIMEOUT_MS: nat := 30_000

  type Uuid = nat

  datatype DeviceStatus = Offline | Online | Revoked

  datatype SshAction =
    | SshPair
    | SshSessions
    | SshAttach(session: Uuid, generation: nat, fromSequence: nat, columns: nat, rows: nat, write: bool)
    | SshInput(session: Uuid, generation: nat)
    | SshResize(session: Uuid, generation: nat, columns: nat, rows: nat)
    | SshApproval(session: Uuid, generation: nat, approval: Uuid, allow: bool)
    | SshDetach(session: Uuid, generation: nat)

  datatype Command =
    | Help
    | Status
    | DeviceList(status: Option<DeviceStatus>)
    | DeviceShow(id: Uuid)
    | DeviceRevoke(id: Uuid, revision: Option<nat>, confirmed: bool)
    | PresetList
    | SessionList(group: Option<Uuid>, state: Option<Domain.Lifecycle>, archivedOnly: bool)
    | SessionShow(id: Uuid)
    | SessionWait(id: Uuid, condition: Condition, timeoutMs: nat)
    | SessionInput(id: Uuid)
    | SessionResize(id: Uuid, columns: nat, rows: nat)
    | SessionAttach(id: Uuid, fromSequence: nat, columns: nat, rows: nat, write: bool)
    | SessionResume(id: Uuid, revision: Option<nat>, confirmed: bool)
    | SessionLaunch(folder: string, preset: Uuid, group: Option<Uuid>)
    | SessionStop(id: Uuid, revision: Option<nat>, confirmed: bool)
    | SessionArchive(id: Uuid, revision: Option<nat>)
    | SessionRestore(id: Uuid, revision: Option<nat>)
    | SessionRemove(id: Uuid, revision: Option<nat>, token: Option<string>, confirmed: bool, confirmationStdin: bool)
    | ControllerSsh(host: string, user: Option<string>, port: Option<nat>, action: SshAction, allowInteraction: bool)

  datatype Invocation = Invocation(json: bool, command: Command)

  /** The value syntaxes defined elsewhere, each with its printed form where the command line has one. */
  datatype Lexicon = Lexicon(
    parseId: string -> Option<Uuid>, showId: Uuid -> string,
    parseState: string -> Option<Domain.Lifecycle>, showState: Domain.Lifecycle -> string,
    parseActivity: string -> Option<ActivityState>, showActivity: ActivityState -> string,
    parseStatus: string -> Option<DeviceStatus>, showStatus: DeviceStatus -> string,
    parseHost: string -> Option<string>, parseUser: string -> Option<string>)
  {
    /** What is printed reads back, and cannot be taken for an option. */
    ghost predicate Valid() {
      && (forall x: Uuid :: parseId(showId(x)) == Some(x) && !Dashed(showId(x)))
      && (forall x: Domain.Lifecycle :: parseState(showState(x)) == Some(x) && !Dashed(showState(x)))
      && (forall x: ActivityState :: parseActivity(showActivity(x)) == Some(x) && !Dashed(showActivity(x)))
      && (forall x: DeviceStatus :: parseStatus(showStatus(x)) == Some(x) && !Dashed(showStatus(x)))
    }
  }

  // ---- values ----

  function Need<T>(o: Option<T>): Result<T, Fault> { if o.Some? then Success(o.value) else Failure(Usage) }

  function Number(o: Options, k: Keyword): Result<Option<nat>, Fault> {
    match o.Get(k)
    case None => Success(None)
    case Some(text) => var n :- Need(Numbers.ParseU64(text)); Success(Some(n))
  }

  function Bounded(text: string, low: nat, high: nat): Result<nat, Fault> {
    var n :- Need(Numbers.ParseU64(text));
    if low <= n <= high then Success(n) else Failure(Usage)
  }

  function Dimension(o: Options, k: Keyword, default: Option<nat>): Result<nat, Fault> {
    match o.Get(k)
    case None => Need(default)
    case Some(text) => Bounded(text, 1, 1000)
  }

  function Converted<T>(o: Options, k: Keyword, parse: string -> Option<T>): Result<Option<T>, Fault> {
    match o.Get(k)
    case None => Success(None)
    case Some(text) => var value :- Need(parse(text)); Success(Some(value))
  }

  function Sequence(o: Options): Result<nat, Fault> {
    var n :- Number(o, OFromSequence);
    Success(if n.Some? then n.value else 0)
  }

  function Generation(o: Options): Result<nat, Fault> {
    var text :- Need(o.Get(OGeneration));
    Bounded(text, 1, U64_MAX)
  }

  function RequiredId(lex: Lexicon, o: Options, k: Keyword): Result<Uuid, Fault> {
    var text :- Need(o.Get(k));
    Need(lex.parseId(text))
  }

  // ---- parsing ----

  function ParseDevice(lex: Lexicon, words: seq<string>): Result<Command, Fault>
    requires |words| >= 2
  {
    match Lex(words[1])
    case Some(List) =>
      var o :- ParseOptions(words[2..], {OStatus}, {});
      var status :- Converted(o, OStatus, lex.parseStatus);
      Success(DeviceList(status))
    case Some(Show) =>
      if |words| != 3 then Failure(Usage)
      else
        var id :- Need(lex.parseId(words[2]));
        Success(DeviceShow(id))
    case Some(Revoke) =>
      if |words| < 3 then Failure(Usage)
      else
        var o :- ParseOptions(words[3..], {OExpectedRevision}, {OYes});
        var revision :- Number(o, OExpectedRevision);
        if (OYes in o.flags) != revision.Some? then Failure(Usage)
        else
          var id :- Need(lex.parseId(words[2]));
          Success(DeviceRevoke(id, revision, OYes in o.flags))
    case _ => Failure(Usage)
  }

  function ParseWait(lex: Lexicon, id: string, rest: seq<string>): Result<Command, Fault> {
    var o :- ParseOptions(rest, {OState, OActivity, OTimeoutMs}, {});
    var state :- Converted(o, OState, lex.parseState);
    var activity :- Converted(o, OActivity, lex.parseActivity);
    if state.Some? == activity.Some? then Failure(Usage)
    else
      var session :- Need(lex.parseId(id));
      var timeout :- match o.Get(OTimeoutMs)
        case None => Success(DEFAULT_TIMEOUT_MS)
        case Some(text) => Bounded(text, 1, MAX_TIMEOUT_MS);
      var condition := if state.Some? then OfLifecycle(state.value) else OfActivity(activity.value);
      Success(SessionWait(session, condition, timeout))
  }

  function ParseRemove(lex: Lexicon, id: string, rest: seq<string>): Result<Command, Fault> {
    var o :- ParseOptions(rest, {OExpectedRevision, OPreviewToken}, {OYes, OConfirmationStdin});
    var token, confirmed, stdin := o.Get(OPreviewToken), OYes in o.flags, OConfirmationStdin in o.flags;
    var given := (if token.Some? then 1 else 0) + (if confirmed then 1 else 0) + (if stdin then 1 else 0);
    if given != 0 && given != 3 then Failure(Usage)
    else
      var session :- Need(lex.parseId(id));
      var revision :- Number(o, OExpectedRevision);
      Success(SessionRemove(session, revision, token, confirmed, stdin))
  }

  /** The session commands that name a session and then take options. */
  function ParseOnSession(lex: Lexicon, action: Keyword, id: string, rest: seq<string>): Result<Command, Fault> {
    match action
    case Show =>
      if rest != [] then Failure(Usage)
      else
        var session :- Need(lex.parseId(id));
        Success(SessionShow(session))
    case Wait => ParseWait(lex, id, rest)
    case Input =>
      var o :- ParseOptions(rest, {}, {OInputStdin});
      if OInputStdin !in o.flags then Failure(Usage)
      else
        var session :- Need(lex.parseId(id));
        Success(SessionInput(session))
    case Resize =>
      var o :- ParseOptions(rest, {OColumns, ORows}, {});
      var session :- Need(lex.parseId(id));
      var columns :- Dimension(o, OColumns, None);
      var rows :- Dimension(o, ORows, None);
      Success(SessionResize(session, columns, rows))
    case Attach =>
      var o :- ParseOptions(rest, {OFromSequence, OColumns, ORows}, {OWrite});
      var session :- Need(lex.parseId(id));
      var from :- Sequence(o);
      var columns :- Dimension(o, OColumns, Some(80));
      var rows :- Dimension(o, ORows, Some(24));
      Success(SessionAttach(session, from, columns, rows, OWrite in o.flags))
    case Resume =>
      var o :- ParseOptions(rest, {OExpectedRevision}, {OYes});
      var revision :- Number(o, OExpectedRevision);
      if (OYes in o.flags) != revision.Some? then Failure(Usage)
      else
        var session :- Need(lex.parseId(id));
        Success(SessionResume(session, revision, OYes in o.flags))
    case Stop =>
      var o :- ParseOptions(rest, {OExpectedRevision}, {OYes});
      var session :- Need(lex.parseId(id));
      var revision :- Number(o, OExpectedRevision);
      Success(SessionStop(session, revision, OYes in o.flags))
    case Archive =>
      var o :- ParseOptions(rest, {OExpectedRevision}, {});
      var session :- Need(lex.parseId(id));
      var revision :- Number(o, OExpectedRevision);
      Success(SessionArchive(session, revision))
    case Restore =>
      var o :- ParseOptions(rest, {OExpectedRevision}, {});
      var session :- Need(lex.parseId(id));
      var revision :- Number(o, OExpectedRevision);
      Success(SessionRestore(session, revision))
    case Remove => ParseRemove(lex, id, rest)
    case _ => Failure(Usage)
  }

  function ParseSession(lex: Lexicon, words: seq<string>): Result<Command, Fault>
    requires |words| >= 2
  {
    match Lex(words[1])
    case None => Failure(Usage)
    case Some(action) =>
      if action == List then
        var o :- ParseOptions(words[2..], {OGroup, OState}, {OArchived});
        var group :- Converted(o, OGroup, lex.parseId);
        var state :- Converted(o, OState, lex.parseState);
        Success(SessionList(group, state, OArchived in o.flags))
      else if action == Launch then
        var o :- ParseOptions(words[2..], {OFolder, OPreset, OGroup}, {});
        var folder :- Need(o.Get(OFolder));
        var preset :- RequiredId(lex, o, OPreset);
        var group :- Converted(o, OGroup, lex.parseId);
        Success(SessionLaunch(folder, preset, group))
      else if |words| < 3 then Failure(Usage)
      else ParseOnSession(lex, action, words[2], words[3..])
  }

  predicate NamesAction(k: Keyword) {
    k.Pair? || k.Sessions? || k.Attach? || k.Input? || k.Resize? || k.Approval? || k.Detach?
  }

  predicate IsAction(argument: string) { Lex(argument).Some? && NamesAction(Lex(argument).value) }

  /** Where the target options end: the first argument that is an action word. */
  function ActionIndex(arguments: seq<string>): (r: Option<nat>)
    ensures r.Some? ==> r.value < |arguments| && IsAction(arguments[r.value])
    ensures forall i :: 0 <= i < (if r.Some? then r.value else |arguments|) ==> !IsAction(arguments[i])
    decreases |arguments|
  {
    if arguments == [] then None
    else if IsAction(arguments[0]) then Some(0)
    else
      match ActionIndex(arguments[1..])
      case None => None
      case Some(i) =>
        assert forall j :: 0 < j < i + 1 ==> arguments[j] == arguments[1..][j - 1];
        Some(i + 1)
  }

  /** The options an SSH action takes a value for, and the flags it knows. */
  function ActionValues(action: Keyword): set<Keyword> {
    match action
    case Attach => {OSession, OGeneration, OFromSequence, OColumns, ORows}
    case Input => {OSession, OGeneration}
    case Resize => {OSession, OGeneration, OColumns, ORows}
    case Approval => {OSession, OGeneration, OApproval, ODecision}
    case Detach => {OSession, OGeneration}
    case _ => {}
  }

  function ActionFlags(action: Keyword): set<Keyword> { if action == Attach then {OWrite} else {} }

  function Decision(o: Options): Result<bool, Fault> {
    var text :- Need(o.Get(ODecision));
    if text == Text(Allow) then Success(true) else if text == Text(Deny) then Success(false) else Failure(Usage)
  }

  function ReadAction(lex: Lexicon, action: Keyword, o: Options): Result<SshAction, Fault> {
    if action == Pair then Success(SshPair)
    else if action == Sessions then Success(SshSessions)
    else
      var session :- RequiredId(lex, o, OSession);
      var generation :- Generation(o);
      match action
      case Attach =>
        var from :- Sequence(o);
        var columns :- Dimension(o, OColumns, Some(80));
        var rows :- Dimension(o, ORows, Some(24));
        Success(SshAttach(session, generation, from, columns, rows, OWrite in o.flags))
      case Input => Success(SshInput(session, generation))
      case Resize =>
        var columns :- Dimension(o, OColumns, None);
        var rows :- Dimension(o, ORows, None);
        Success(SshResize(session, generation, columns, rows))
      case Approval =>
        var approval :- RequiredId(lex, o, OApproval);
        var allow :- Decision(o);
        Success(SshApproval(session, generation, approval, allow))
      case Detach => Success(SshDetach(session, generation))
      case _ => Failure(Usage)
  }

  function ParseSshAction(lex: Lexicon, action: Keyword, rest: seq<string>): Result<SshAction, Fault> {
    var o :- ParseOptions(rest, ActionValues(action), ActionFlags(action));
    ReadAction(lex, action, o)
  }

  datatype Target = Target(host: string, user: Option<string>, port: Option<nat>)

  function ParseTarget(lex: Lexicon, arguments: seq<string>): Result<Target, Fault> {
    var o :- ParseOptions(arguments, {OHost, OUser, OPort}, {});
    var hostText :- Need(o.Get(OHost));
    var host :- Need(lex.parseHost(hostText));
    var user :- Converted(o, OUser, lex.parseUser);
    match o.Get(OPort)
    case None => Success(Target(host, user, None))
    case Some(text) =>
      var port :- Bounded(text, 1, 65535);
      Success(Target(host, user, Some(port)))
  }

  function ParseSsh(lex: Lexicon, arguments: seq<string>, interactive: bool): Result<Command, Fault> {
    var index :- Need(ActionIndex(arguments));
    var target :- ParseTarget(lex, arguments[..index]);
    var action :- ParseSshAction(lex, Lex(arguments[index]).value, arguments[index + 1..]);
    Success(ControllerSsh(target.host, target.user, target.port, action, interactive))
  }

  function ParseCommand(lex: Lexicon, words: seq<string>, json: bool): Result<Command, Fault> {
    if words == [] || words == [Text(HelpLong)] || words == [Text(HelpShort)] then Success(Help)
    else if |words| == 1 then if Lex(words[0]) == Some(StatusWord) then Success(Status) else Failure(Usage)
    else
      match Lex(words[0])
      case Some(Device) => ParseDevice(lex, words)
      case Some(Preset) => if |words| == 2 && Lex(words[1]) == Some(List) then Success(PresetList) else Failure(Usage)
      case Some(Session) => ParseSession(lex, words)
      case Some(Controller) =>
        if Lex(words[1]) == Some(Ssh) then ParseSsh(lex, words[2..], !json) else Failure(Usage)
      case _ => Failure(Usage)
  }

  function TotalBytes(arguments: seq<string>): nat {
    if arguments == [] then 0 else Numbers.Utf8Length(arguments[0]) + TotalBytes(arguments[1..])
  }

  predicate InBounds(arguments: seq<string>) {
    && |arguments| <= MAX_ARG_COUNT
    && (forall a :: a in arguments ==> Numbers.Utf8Length(a) <= MAX_ARG_BYTES)
    && TotalBytes(arguments) <= MAX_TOTAL_ARG_BYTES
  }

  /** The arguments without --json, which may be given once. */
  function Strip(arguments: seq<string>, json: bool): Result<(bool, seq<string>), Fault>
    decreases |arguments|
  {
    if arguments == [] then Success((json, []))
    else if arguments[0] == Text(Json) then if json then Failure(Usage) else Strip(arguments[1..], true)
    else
      var rest :- Strip(arguments[1..], json);
      Success((rest.0, [arguments[0]] + rest.1))
  }

  lemma Shift<T>(a: seq<T>, b: seq<T>, c: seq<T>)
    ensures a + b + c == a + (b + c)
  {
  }

  function Before(done: seq<string>, rest: Result<(bool, seq<string>), Fault>): Result<(bool, seq<string>), Fault> {
    if rest.Failure? then rest else Success((rest.value.0, done + rest.value.1))
  }

  lemma BeforeGrows(done: seq<string>, a: string, rest: Result<(bool, seq<string>), Fault>)
    ensures Before(done, Before([a], rest)) == Before(done + [a], rest)
    ensures Before([], rest) == rest
  {
    if rest.Success? {
      Shift(done, [a], rest.value.1);
      assert [] + rest.value.1 == rest.value.1;
    }
  }

  method StripLoop(arguments: seq<string>) returns (r: Result<(bool, seq<string>), Fault>)
    ensures r == Strip(arguments, false)
  {
    hide Text, Before;
    var json := false;
    var filtered: seq<string> := [];
    BeforeGrows([], [], Strip(arguments, false));
    assert arguments[0..] == arguments;
    for i := 0 to |arguments|
      invariant Strip(arguments, false) == Before(filtered, Strip(arguments[i..], json))
    {
      StripFirst(arguments, i, json);
      BeforeGrows(filtered, arguments[i], Strip(arguments[i + 1..], json));
      if arguments[i] == Text(Json) {
        if json {
          BeforeFault(filtered, Usage);
          return Failure(Usage);
        }
        json := true;
      } else {
        filtered := filtered + [arguments[i]];
      }
    }
    BeforeNothing(filtered, json);
    assert arguments[|arguments|..] == [];
    r := Success((json, filtered));
  }

  lemma StripFirst(arguments: seq<string>, i: nat, json: bool)
    requires i < |arguments|
    ensures Strip(arguments[i..], json) ==
            if arguments[i] != Text(Json) then Before([arguments[i]], Strip(arguments[i + 1..], json))
            else if json then Failure(Usage) else Strip(arguments[i + 1..], true)
  {
    hide Text;
    assert arguments[i..][0] == arguments[i] && arguments[i..][1..] == arguments[i + 1..];
  }

  lemma BeforeFault(done: seq<string>, f: Fault)
    ensures Before(done, Failure(f)) == Failure(f)
  {
  }

  lemma BeforeNothing(done: seq<string>, json: bool)
    ensures Before(done, Strip([], json)) == Success((json, done))
  {
    assert done + [] == done;
  }

  function ParseArgs(lex: Lexicon, arguments: seq<string>): Result<Invocation, Fault> {
    if !InBounds(arguments) then Failure(ResourceLimit)
    else
      var stripped :- Strip(arguments, false);
      var command :- ParseCommand(lex, stripped.1, stripped.0);
      Success(Invocation(stripped.0, command))
  }
}
