/**
 What the command line accepts (crates/multiplex-cli/src/args.rs): every list of arguments that parses is one of the
 commands written out, with no option but that command's own, each value read by its own syntax and in its range, the
 options that belong together given together, and what is left out at its default.
 */
module CommandMeaning {
  import opened Wrappers
  import opened CommandOptions
  import opened CommandLine
  import opened WaitCondition
  import opened CommandRoundTrip
  import Domain = SessionDomain
  import Numbers = RemovalToken

  /** The option is absent and so is the value, or its text reads as the value. */
  predicate Reads<T(==)>(o: Options, k: Keyword, parse: string -> Option<T>, v: Option<T>) {
    match o.Get(k)
    case None => v.None?
    case Some(text) => v.Some? && parse(text) == v
  }

  predicate ReadsNumber(o: Options, k: Keyword, low: nat, high: nat, v: Option<nat>) {
    match o.Get(k)
    case None => v.None?
    case Some(text) => v.Some? && Numbers.ParseU64(text) == v && low <= v.value <= high
  }

  /** A number that may be left out, when the default stands. */
  predicate ReadsOr(o: Options, k: Keyword, low: nat, high: nat, default: nat, v: nat) {
    if o.Get(k).None? then v == default else ReadsNumber(o, k, low, high, Some(v))
  }

  predicate GivenAs<T(==)>(o: Options, k: Keyword, parse: string -> Option<T>, v: T) { Reads(o, k, parse, Some(v)) }

  /** No other option is given, and no value looks like an option. */
  predicate OnlyThese(o: Options, valueNames: set<Keyword>, flagNames: set<Keyword>) {
    o.values.Keys <= valueNames && o.flags <= flagNames && forall k :: k in o.values ==> !Dashed(o.values[k])
  }

  /** A confirmed command carries the revision reviewed, and one that is not carries none. */
  predicate Reviewed(o: Options, revision: Option<nat>, confirmed: bool) {
    && OnlyThese(o, {OExpectedRevision}, {OYes}) && ReadsNumber(o, OExpectedRevision, 0, U64_MAX, revision)
    && (confirmed <==> OYes in o.flags)
  }

  /** The options of a command read as its fields. */
  predicate Means(lex: Lexicon, o: Options, c: Command) {
    match c
    case DeviceList(status) => OnlyThese(o, {OStatus}, {}) && Reads(o, OStatus, lex.parseStatus, status)
    case DeviceRevoke(_, revision, confirmed) => Reviewed(o, revision, confirmed) && confirmed == revision.Some?
    case SessionList(group, state, archivedOnly) =>
      && OnlyThese(o, {OGroup, OState}, {OArchived})
      && Reads(o, OGroup, lex.parseId, group) && Reads(o, OState, lex.parseState, state)
      && (archivedOnly <==> OArchived in o.flags)
    case SessionWait(_, condition, timeoutMs) =>
      && OnlyThese(o, {OState, OActivity, OTimeoutMs}, {})
      && Reads(o, OState, lex.parseState, if condition.OfLifecycle? then Some(condition.lifecycle) else None)
      && Reads(o, OActivity, lex.parseActivity, if condition.OfActivity? then Some(condition.activity) else None)
      && ReadsOr(o, OTimeoutMs, 1, 300_000, 30_000, timeoutMs)
    case SessionInput(_) => o == Options(map[], {OInputStdin})
    case SessionResize(_, columns, rows) =>
      && OnlyThese(o, {OColumns, ORows}, {})
      && ReadsNumber(o, OColumns, 1, 1000, Some(columns)) && ReadsNumber(o, ORows, 1, 1000, Some(rows))
    case SessionAttach(_, from, columns, rows, write) =>
      && OnlyThese(o, {OFromSequence, OColumns, ORows}, {OWrite})
      && ReadsOr(o, OFromSequence, 0, U64_MAX, 0, from)
      && ReadsOr(o, OColumns, 1, 1000, 80, columns) && ReadsOr(o, ORows, 1, 1000, 24, rows)
      && (write <==> OWrite in o.flags)
    case SessionResume(_, revision, confirmed) => Reviewed(o, revision, confirmed) && confirmed == revision.Some?
    case SessionLaunch(folder, preset, group) =>
      && OnlyThese(o, {OFolder, OPreset, OGroup}, {}) && o.Get(OFolder) == Some(folder)
      && GivenAs(o, OPreset, lex.parseId, preset) && Reads(o, OGroup, lex.parseId, group)
    case SessionStop(_, revision, confirmed) => Reviewed(o, revision, confirmed)
    case SessionArchive(_, revision) => Reviewed(o, revision, false)
    case SessionRestore(_, revision) => Reviewed(o, revision, false)
    case SessionRemove(_, revision, token, confirmed, stdin) =>
      && OnlyThese(o, {OExpectedRevision, OPreviewToken}, {OYes, OConfirmationStdin})
      && ReadsNumber(o, OExpectedRevision, 0, U64_MAX, revision) && o.Get(OPreviewToken) == token
      && (confirmed <==> OYes in o.flags) && (stdin <==> OConfirmationStdin in o.flags)
      && token.Some? == confirmed == stdin
    case ControllerSsh(host, user, port, _, _) =>
      && OnlyThese(o, {OHost, OUser, OPort}, {})
      && GivenAs(o, OHost, lex.parseHost, host) && Reads(o, OUser, lex.parseUser, user)
      && ReadsNumber(o, OPort, 1, 65535, port)
    case _ => o == NO_OPTIONS
  }

  /** The session and the occupant an SSH action is for. */
  predicate MeansOccupant(lex: Lexicon, o: Options, session: Uuid, generation: nat) {
    GivenAs(o, OSession, lex.parseId, session) && ReadsNumber(o, OGeneration, 1, U64_MAX, Some(generation))
  }

  predicate MeansAction(lex: Lexicon, o: Options, action: SshAction) {
    match action
    case SshAttach(session, generation, from, columns, rows, write) =>
      && OnlyThese(o, {OSession, OGeneration, OFromSequence, OColumns, ORows}, {OWrite})
      && MeansOccupant(lex, o, session, generation)
      && ReadsOr(o, OFromSequence, 0, U64_MAX, 0, from)
      && ReadsOr(o, OColumns, 1, 1000, 80, columns) && ReadsOr(o, ORows, 1, 1000, 24, rows)
      && (write <==> OWrite in o.flags)
    case SshInput(session, generation) =>
      OnlyThese(o, {OSession, OGeneration}, {}) && MeansOccupant(lex, o, session, generation)
    case SshResize(session, generation, columns, rows) =>
      && OnlyThese(o, {OSession, OGeneration, OColumns, ORows}, {}) && MeansOccupant(lex, o, session, generation)
      && ReadsNumber(o, OColumns, 1, 1000, Some(columns)) && ReadsNumber(o, ORows, 1, 1000, Some(rows))
    case SshApproval(session, generation, approval, allow) =>
      && OnlyThese(o, {OSession, OGeneration, OApproval, ODecision}, {}) && MeansOccupant(lex, o, session, generation)
      && GivenAs(o, OApproval, lex.parseId, approval)
      && o.Get(ODecision) == Some(Text(if allow then Allow else Deny))
    case SshDetach(session, generation) =>
      OnlyThese(o, {OSession, OGeneration}, {}) && MeansOccupant(lex, o, session, generation)
    case _ => o == NO_OPTIONS
  }

  // ---- values ----

  lemma NumberReads(o: Options, k: Keyword)
    ensures Number(o, k).Success? ==> ReadsNumber(o, k, 0, U64_MAX, Number(o, k).value)
  {
    if o.Get(k).Some? { U64IsBounded(o.Get(k).value); }
  }

  lemma U64IsBounded(text: string)
    ensures Numbers.ParseU64(text).Some? ==> Numbers.ParseU64(text).value <= U64_MAX
  {
    var digits := if text != [] && text[0] == '+' then text[1..] else text;
    if digits != [] { DigitsAreBounded(digits, 0); }
  }

  lemma {:induction false} DigitsAreBounded(s: string, acc: nat)
    requires acc <= U64_MAX
    ensures Numbers.ParseDigits(s, acc).Some? ==> Numbers.ParseDigits(s, acc).value <= U64_MAX
    decreases |s|
  {
    if s != [] && Numbers.IsDigit(s[0]) && acc * 10 + (s[0] - '0') as nat <= U64_MAX {
      DigitsAreBounded(s[1..], acc * 10 + (s[0] - '0') as nat);
    }
  }

  lemma ListedBy(arguments: seq<string>, valueNames: set<Keyword>, flagNames: set<Keyword>)
    returns (items: seq<Item>)
    requires valueNames !! flagNames && ParseOptions(arguments, valueNames, flagNames).Success?
    ensures var o := ParseOptions(arguments, valueNames, flagNames).value;
            Lists(items, o) && Render(items) == arguments && OnlyThese(o, valueNames, flagNames)
  {
    var o := ParseOptions(arguments, valueNames, flagNames).value;
    ParsesIff(arguments, valueNames, flagNames, o);
    items :| Lists(items, o) && Render(items) == arguments;
  }

  // ---- the commands that are not for SSH ----

  /** The two words such a command starts with. */
  function Heading(c: Command): (Keyword, Keyword) {
    match c
    case DeviceList(_) => (Device, List)
    case DeviceShow(_) => (Device, Show)
    case DeviceRevoke(_, _, _) => (Device, Revoke)
    case PresetList => (Preset, List)
    case SessionList(_, _, _) => (Session, List)
    case SessionLaunch(_, _, _) => (Session, Launch)
    case ControllerSsh(_, _, _, _, _) => (Controller, Ssh)
    case _ => (Session, if OnSession(c) then SessionVerb(c) else List)
  }

  /** The session or device it is for, if it names one. */
  function Subject(c: Command): Option<Uuid> {
    if OnSession(c) || c.DeviceShow? || c.DeviceRevoke? then Some(c.id) else None
  }

  predicate Plain(c: Command) { !c.Help? && !c.Status? && !c.ControllerSsh? }

  /** Such a command written out. */
  ghost predicate Written(lex: Lexicon, words: seq<string>, c: Command) {
    var n := if Subject(c).Some? then 3 else 2;
    && |words| >= n && words[0] == Text(Heading(c).0) && words[1] == Text(Heading(c).1)
    && (Subject(c).Some? ==> lex.parseId(words[2]) == Subject(c))
    && exists items, o :: Lists(items, o) && words[n..] == Render(items) && Means(lex, o, c)
  }

  lemma NothingIsListed()
    ensures Lists([], NO_OPTIONS) && Render([]) == []
  {
  }

  lemma DeviceMeans(lex: Lexicon, words: seq<string>)
    requires |words| >= 2 && Lex(words[0]) == Some(Device) && ParseDevice(lex, words).Success?
    ensures Plain(ParseDevice(lex, words).value) && Written(lex, words, ParseDevice(lex, words).value)
  {
    hide Text, Candidate, Lists, Render, ParseOptions, Numbers.ParseU64;
    match Lex(words[1])
    case Some(List) => var items := ListedBy(words[2..], {OStatus}, {});
    case Some(Show) => NothingIsListed();
    case Some(Revoke) =>
      var items := ListedBy(words[3..], {OExpectedRevision}, {OYes});
      NumberReads(ParseOptions(words[3..], {OExpectedRevision}, {OYes}).value, OExpectedRevision);
    case _ =>
  }

  /** A session command's options, from what follows its id. */
  ghost predicate Follows(lex: Lexicon, rest: seq<string>, c: Command) {
    exists items, o :: Lists(items, o) && rest == Render(items) && Means(lex, o, c)
  }

  lemma BoundedReads(o: Options, k: Keyword, low: nat, high: nat)
    requires o.Get(k).Some? && Bounded(o.Get(k).value, low, high).Success?
    ensures ReadsNumber(o, k, low, high, Some(Bounded(o.Get(k).value, low, high).value))
  {
  }

  lemma WaitMeans(lex: Lexicon, id: string, rest: seq<string>)
    requires ParseWait(lex, id, rest).Success?
    ensures var c := ParseWait(lex, id, rest).value;
            c.SessionWait? && lex.parseId(id) == Some(c.id) && Follows(lex, rest, c)
  {
    hide Text, Candidate, Lists, Render, ParseOptions, Numbers.ParseU64;
    var items := ListedBy(rest, {OState, OActivity, OTimeoutMs}, {});
  }

  lemma RemoveMeans(lex: Lexicon, id: string, rest: seq<string>)
    requires ParseRemove(lex, id, rest).Success?
    ensures var c := ParseRemove(lex, id, rest).value;
            c.SessionRemove? && lex.parseId(id) == Some(c.id) && Follows(lex, rest, c)
  {
    hide Text, Candidate, Lists, Render, ParseOptions, Numbers.ParseU64;
    var items := ListedBy(rest, {OExpectedRevision, OPreviewToken}, {OYes, OConfirmationStdin});
    NumberReads(ParseOptions(rest, {OExpectedRevision, OPreviewToken}, {OYes, OConfirmationStdin}).value,
                OExpectedRevision);
  }

  lemma ReviseMeans(lex: Lexicon, action: Keyword, id: string, rest: seq<string>)
    requires action.Resume? || action.Stop? || action.Archive? || action.Restore?
    requires ParseOnSession(lex, action, id, rest).Success?
    ensures var c := ParseOnSession(lex, action, id, rest).value;
            OnSession(c) && SessionVerb(c) == action && lex.parseId(id) == Some(c.id) && Follows(lex, rest, c)
  {
    hide Text, Candidate, Lists, Render, ParseOptions, Numbers.ParseU64;
    var flags := if action.Resume? || action.Stop? then {OYes} else {};
    var items := ListedBy(rest, {OExpectedRevision}, flags);
    NumberReads(ParseOptions(rest, {OExpectedRevision}, flags).value, OExpectedRevision);
  }

  lemma ScreenMeans(lex: Lexicon, action: Keyword, id: string, rest: seq<string>)
    requires action.Show? || action.Input? || action.Resize? || action.Attach?
    requires ParseOnSession(lex, action, id, rest).Success?
    ensures var c := ParseOnSession(lex, action, id, rest).value;
            OnSession(c) && SessionVerb(c) == action && lex.parseId(id) == Some(c.id) && Follows(lex, rest, c)
  {
    hide Text, Candidate, Lists, Render, ParseOptions, Numbers.ParseU64;
    NothingIsListed();
    if action.Input? { var items := ListedBy(rest, {}, {OInputStdin}); }
    if action.Resize? { var items := ListedBy(rest, {OColumns, ORows}, {}); }
    if action.Attach? {
      var items := ListedBy(rest, {OFromSequence, OColumns, ORows}, {OWrite});
      NumberReads(ParseOptions(rest, {OFromSequence, OColumns, ORows}, {OWrite}).value, OFromSequence);
    }
  }

  lemma OnSessionMeans(lex: Lexicon, action: Keyword, id: string, rest: seq<string>)
    requires ParseOnSession(lex, action, id, rest).Success?
    ensures var c := ParseOnSession(lex, action, id, rest).value;
            OnSession(c) && SessionVerb(c) == action && lex.parseId(id) == Some(c.id) && Follows(lex, rest, c)
  {
    hide Follows, ParseOptions, Text;
    match action
    case Wait => WaitMeans(lex, id, rest);
    case Remove => RemoveMeans(lex, id, rest);
    case Resume => ReviseMeans(lex, action, id, rest);
    case Stop => ReviseMeans(lex, action, id, rest);
    case Archive => ReviseMeans(lex, action, id, rest);
    case Restore => ReviseMeans(lex, action, id, rest);
    case Show => ScreenMeans(lex, action, id, rest);
    case Input => ScreenMeans(lex, action, id, rest);
    case Resize => ScreenMeans(lex, action, id, rest);
    case Attach => ScreenMeans(lex, action, id, rest);
    case _ =>
  }

  lemma SessionMeans(lex: Lexicon, words: seq<string>)
    requires |words| >= 2 && Lex(words[0]) == Some(Session) && ParseSession(lex, words).Success?
    ensures Plain(ParseSession(lex, words).value) && Written(lex, words, ParseSession(lex, words).value)
  {
    hide Text, Candidate, Lists, Render, ParseOptions, ParseOnSession, Numbers.ParseU64;
    var action := Lex(words[1]).value;
    if action == List {
      var items := ListedBy(words[2..], {OGroup, OState}, {OArchived});
    } else if action == Launch {
      var items := ListedBy(words[2..], {OFolder, OPreset, OGroup}, {});
    } else {
      OnSessionMeans(lex, action, words[2], words[3..]);
    }
  }

  // ---- SSH ----

  /** The target's options, the action word and the action's options, and nothing before it that is an action word. */
  ghost predicate WrittenSsh(lex: Lexicon, words: seq<string>, c: Command)
    requires c.ControllerSsh?
  {
    exists items, o, actionItems, p ::
      && Lists(items, o) && Means(lex, o, c) && Lists(actionItems, p) && MeansAction(lex, p, c.action)
      && words == [Text(Controller), Text(Ssh)] + Render(items) + [Text(ActionWord(c.action))] + Render(actionItems)
      && forall a :: a in Render(items) ==> !IsAction(a)
  }

  lemma TargetMeans(lex: Lexicon, arguments: seq<string>, action: SshAction, interactive: bool)
    requires ParseTarget(lex, arguments).Success?
    ensures var t := ParseTarget(lex, arguments).value;
            Follows(lex, arguments, ControllerSsh(t.host, t.user, t.port, action, interactive))
  {
    hide Text, Candidate, Lists, Render, ParseOptions, Numbers.ParseU64;
    var items := ListedBy(arguments, {OHost, OUser, OPort}, {});
    var t := ParseTarget(lex, arguments).value;
    var o := ParseOptions(arguments, {OHost, OUser, OPort}, {}).value;
    assert Means(lex, o, ControllerSsh(t.host, t.user, t.port, action, interactive));
  }

  ghost predicate ActionFollows(lex: Lexicon, rest: seq<string>, action: SshAction) {
    exists items, o :: Lists(items, o) && rest == Render(items) && MeansAction(lex, o, action)
  }

  lemma ActionMeans(lex: Lexicon, action: Keyword, rest: seq<string>)
    requires NamesAction(action) && ParseSshAction(lex, action, rest).Success?
    ensures var a := ParseSshAction(lex, action, rest).value; ActionWord(a) == action && ActionFollows(lex, rest, a)
  {
    hide Text, Candidate, Lists, Render, ParseOptions, Numbers.ParseU64;
    var items := ListedBy(rest, ActionValues(action), ActionFlags(action));
    var o := ParseOptions(rest, ActionValues(action), ActionFlags(action)).value;
    ReadActionMeans(lex, action, o);
  }

  lemma ReadActionMeans(lex: Lexicon, action: Keyword, o: Options)
    requires NamesAction(action) && OnlyThese(o, ActionValues(action), ActionFlags(action))
    requires ReadAction(lex, action, o).Success?
    ensures var a := ReadAction(lex, action, o).value; ActionWord(a) == action && MeansAction(lex, o, a)
  {
    hide Text, Candidate, Numbers.ParseU64;
    if action.Attach? { AttachActionMeans(lex, o); }
  }

  lemma AttachActionMeans(lex: Lexicon, o: Options)
    requires OnlyThese(o, ActionValues(Attach), ActionFlags(Attach)) && ReadAction(lex, Attach, o).Success?
    ensures var a := ReadAction(lex, Attach, o).value; ActionWord(a) == Attach && MeansAction(lex, o, a)
  {
    hide Text, Candidate, Numbers.ParseU64;
    NumberReads(o, OFromSequence);
  }

  lemma SshMeans(lex: Lexicon, words: seq<string>, interactive: bool)
    requires |words| >= 2 && words[0] == Text(Controller) && words[1] == Text(Ssh)
    requires ParseSsh(lex, words[2..], interactive).Success?
    ensures var c := ParseSsh(lex, words[2..], interactive).value;
            c.ControllerSsh? && c.allowInteraction == interactive && WrittenSsh(lex, words, c)
  {
    hide Text, Candidate, Lists, Render, ParseOptions, Numbers.ParseU64, Means, MeansAction;
    var arguments := words[2..];
    var i := ActionIndex(arguments).value;
    var k := Lex(arguments[i]).value;
    var c := ParseSsh(lex, arguments, interactive).value;
    TargetMeans(lex, arguments[..i], c.action, interactive);
    ActionMeans(lex, k, arguments[i + 1..]);
    var items, o :| Lists(items, o) && arguments[..i] == Render(items) && Means(lex, o, c);
    var actionItems, p :|
      Lists(actionItems, p) && arguments[i + 1..] == Render(actionItems) && MeansAction(lex, p, c.action);
    assert words == [Text(Controller), Text(Ssh)] + Render(items) + [Text(k)] + Render(actionItems);
  }

  // ---- the whole line ----

  /** These words mean that command. */
  ghost predicate WordsMean(lex: Lexicon, words: seq<string>, c: Command, json: bool) {
    match c
    case Help => words == [] || words == [Text(HelpLong)] || words == [Text(HelpShort)]
    case Status => words == [Text(StatusWord)]
    case ControllerSsh(_, _, _, _, interactive) => WrittenSsh(lex, words, c) && interactive == !json
    case _ => Written(lex, words, c)
  }

  lemma CommandMeans(lex: Lexicon, words: seq<string>, json: bool)
    requires ParseCommand(lex, words, json).Success?
    ensures WordsMean(lex, words, ParseCommand(lex, words, json).value, json)
  {
    hide Text, Candidate, ParseDevice, ParseSession, ParseSsh, Written, WrittenSsh;
    if |words| >= 2 && words != [Text(HelpLong)] && words != [Text(HelpShort)] {
      match Lex(words[0])
      case Some(Device) => DeviceMeans(lex, words);
      case Some(Preset) => PresetMeans(lex, words);
      case Some(Session) => SessionMeans(lex, words);
      case Some(Controller) => SshMeans(lex, words, !json);
      case _ =>
    }
  }

  lemma PresetMeans(lex: Lexicon, words: seq<string>)
    requires |words| == 2 && Lex(words[0]) == Some(Preset) && Lex(words[1]) == Some(List)
    ensures Written(lex, words, PresetList)
  {
    hide Text, Candidate;
    NothingIsListed();
  }

  // ---- and nothing that means a command is refused ----

  lemma ListParses(items: seq<Item>, o: Options, valueNames: set<Keyword>, flagNames: set<Keyword>)
    requires valueNames !! flagNames && Lists(items, o) && OnlyThese(o, valueNames, flagNames)
    ensures ParseOptions(Render(items), valueNames, flagNames) == Success(o)
  {
    AnyOrderParses(items, o, valueNames, flagNames);
  }

  lemma DeviceReads(lex: Lexicon, words: seq<string>, c: Command)
    requires (c.DeviceList? || c.DeviceShow? || c.DeviceRevoke?) && Written(lex, words, c)
    ensures |words| >= 2 && ParseDevice(lex, words) == Success(c)
  {
    hide Text, Candidate, Lists, Render, ParseOptions, Numbers.ParseU64, Lex;
    LexText(Heading(c).1);
    var n := if Subject(c).Some? then 3 else 2;
    var items, o :| Lists(items, o) && words[n..] == Render(items) && Means(lex, o, c);
    if c.DeviceList? { ListParses(items, o, {OStatus}, {}); }
    else if c.DeviceRevoke? { ListParses(items, o, {OExpectedRevision}, {OYes}); }
    else { NothingListed(items); }
  }

  lemma WaitReads(lex: Lexicon, id: string, rest: seq<string>, c: Command)
    requires c.SessionWait? && lex.parseId(id) == Some(c.id) && Follows(lex, rest, c)
    ensures ParseWait(lex, id, rest) == Success(c)
  {
    hide Text, Candidate, Lists, Render, ParseOptions, Numbers.ParseU64;
    var items, o :| Lists(items, o) && rest == Render(items) && Means(lex, o, c);
    ListParses(items, o, {OState, OActivity, OTimeoutMs}, {});
  }

  lemma RemoveReads(lex: Lexicon, id: string, rest: seq<string>, c: Command)
    requires c.SessionRemove? && lex.parseId(id) == Some(c.id) && Follows(lex, rest, c)
    ensures ParseRemove(lex, id, rest) == Success(c)
  {
    hide Text, Candidate, Lists, Render, ParseOptions, Numbers.ParseU64;
    var items, o :| Lists(items, o) && rest == Render(items) && Means(lex, o, c);
    ListParses(items, o, {OExpectedRevision, OPreviewToken}, {OYes, OConfirmationStdin});
  }

  lemma ReviseReads(lex: Lexicon, id: string, rest: seq<string>, c: Command)
    requires c.SessionResume? || c.SessionStop? || c.SessionArchive? || c.SessionRestore?
    requires lex.parseId(id) == Some(c.id) && Follows(lex, rest, c)
    ensures ParseOnSession(lex, SessionVerb(c), id, rest) == Success(c)
  {
    hide Text, Candidate, Lists, Render, ParseOptions, Numbers.ParseU64;
    var items, o :| Lists(items, o) && rest == Render(items) && Means(lex, o, c);
    ListParses(items, o, {OExpectedRevision}, if c.SessionResume? || c.SessionStop? then {OYes} else {});
  }

  lemma AttachReads(lex: Lexicon, id: string, rest: seq<string>, c: Command)
    requires c.SessionAttach? && lex.parseId(id) == Some(c.id) && Follows(lex, rest, c)
    ensures ParseOnSession(lex, Attach, id, rest) == Success(c)
  {
    hide Text, Candidate, Lists, Render, ParseOptions, Numbers.ParseU64, ReadsOr, Dimension, Sequence;
    var items, o :| Lists(items, o) && rest == Render(items) && Means(lex, o, c);
    ListParses(items, o, {OFromSequence, OColumns, ORows}, {OWrite});
    PlacesRead(o, c.fromSequence, c.columns, c.rows);
  }

  lemma PlacesRead(o: Options, from: nat, columns: nat, rows: nat)
    requires ReadsOr(o, OFromSequence, 0, U64_MAX, 0, from)
    requires ReadsOr(o, OColumns, 1, 1000, 80, columns) && ReadsOr(o, ORows, 1, 1000, 24, rows)
    ensures Sequence(o) == Success(from)
    ensures Dimension(o, OColumns, Some(80)) == Success(columns) && Dimension(o, ORows, Some(24)) == Success(rows)
  {
    hide Numbers.ParseU64;
  }

  lemma ScreenReads(lex: Lexicon, id: string, rest: seq<string>, c: Command)
    requires c.SessionShow? || c.SessionInput? || c.SessionResize?
    requires lex.parseId(id) == Some(c.id) && Follows(lex, rest, c)
    ensures ParseOnSession(lex, SessionVerb(c), id, rest) == Success(c)
  {
    hide Text, Candidate, Lists, Render, ParseOptions, Numbers.ParseU64;
    var items, o :| Lists(items, o) && rest == Render(items) && Means(lex, o, c);
    if c.SessionShow? { NothingListed(items); }
    else if c.SessionInput? { ListParses(items, o, {}, {OInputStdin}); }
    else { ListParses(items, o, {OColumns, ORows}, {}); }
  }

  lemma OnSessionReads(lex: Lexicon, id: string, rest: seq<string>, c: Command)
    requires OnSession(c) && lex.parseId(id) == Some(c.id) && Follows(lex, rest, c)
    ensures ParseOnSession(lex, SessionVerb(c), id, rest) == Success(c)
  {
    if c.SessionWait? { hide Follows, ParseWait, Text; WaitReads(lex, id, rest, c); }
    else if c.SessionRemove? { hide Follows, ParseRemove, Text; RemoveReads(lex, id, rest, c); }
    else if c.SessionResume? || c.SessionStop? || c.SessionArchive? || c.SessionRestore? {
      hide Follows, ParseOnSession;
      ReviseReads(lex, id, rest, c);
    } else if c.SessionAttach? {
      hide Follows, ParseOnSession;
      AttachReads(lex, id, rest, c);
    } else {
      hide Follows, ParseOnSession;
      ScreenReads(lex, id, rest, c);
    }
  }

  lemma SessionReads(lex: Lexicon, words: seq<string>, c: Command)
    requires (c.SessionList? || c.SessionLaunch? || OnSession(c)) && Written(lex, words, c)
    ensures |words| >= 2 && ParseSession(lex, words) == Success(c)
  {
    if OnSession(c) {
      hide Text, Candidate, ParseOnSession, ParseOptions, Lex, Written, Follows;
      WrittenFollows(lex, words, c);
      LexText(SessionVerb(c));
      OnSessionReads(lex, words[2], words[3..], c);
    } else {
      hide ParseSession, Written;
      if c.SessionList? { ListReads(lex, words, c); } else { LaunchReads(lex, words, c); }
    }
  }

  lemma WrittenFollows(lex: Lexicon, words: seq<string>, c: Command)
    requires OnSession(c) && Written(lex, words, c)
    ensures |words| >= 3 && words[1] == Text(SessionVerb(c)) && lex.parseId(words[2]) == Some(c.id)
    ensures Follows(lex, words[3..], c)
  {
    hide Text, Lists, Render, Means;
  }

  lemma ListReads(lex: Lexicon, words: seq<string>, c: Command)
    requires c.SessionList? && Written(lex, words, c)
    ensures |words| >= 2 && ParseSession(lex, words) == Success(c)
  {
    hide Text, Candidate, Lists, Render, ParseOptions, ParseOnSession, Lex;
    LexText(List);
    var items, o :| Lists(items, o) && words[2..] == Render(items) && Means(lex, o, c);
    ListParses(items, o, {OGroup, OState}, {OArchived});
  }

  lemma LaunchReads(lex: Lexicon, words: seq<string>, c: Command)
    requires c.SessionLaunch? && Written(lex, words, c)
    ensures |words| >= 2 && ParseSession(lex, words) == Success(c)
  {
    hide Text, Candidate, Lists, Render, ParseOptions, ParseOnSession, Lex;
    LexText(Launch);
    var items, o :| Lists(items, o) && words[2..] == Render(items) && Means(lex, o, c);
    ListParses(items, o, {OFolder, OPreset, OGroup}, {});
  }

  lemma TargetReads(lex: Lexicon, items: seq<Item>, o: Options, c: Command)
    requires c.ControllerSsh? && Lists(items, o) && Means(lex, o, c)
    ensures ParseTarget(lex, Render(items)) == Success(Target(c.host, c.user, c.port))
  {
    hide Text, Candidate, Lists, Render, ParseOptions, Numbers.ParseU64;
    ListParses(items, o, {OHost, OUser, OPort}, {});
  }

  lemma ActionReads(lex: Lexicon, items: seq<Item>, o: Options, action: SshAction)
    requires Lists(items, o) && MeansAction(lex, o, action)
    ensures ParseSshAction(lex, ActionWord(action), Render(items)) == Success(action)
  {
    hide Candidate, Lists, Render, ParseOptions, Numbers.ParseU64;
    DecisionsDiffer();
    hide Text;
    var k := ActionWord(action);
    ListParses(items, o, ActionValues(k), ActionFlags(k));
  }

  lemma DecisionsDiffer()
    ensures Text(Allow) != Text(Deny)
  {
  }

  lemma SshReads(lex: Lexicon, words: seq<string>, c: Command)
    requires c.ControllerSsh? && WrittenSsh(lex, words, c)
    ensures |words| >= 2 && words[0] == Text(Controller) && words[1] == Text(Ssh)
    ensures ParseSsh(lex, words[2..], c.allowInteraction) == Success(c)
  {
    hide Text, Candidate, Lists, Render, ParseOptions, Means, MeansAction, ParseTarget, ParseSshAction, Lex;
    var items, o, actionItems, p :|
      && Lists(items, o) && Means(lex, o, c) && Lists(actionItems, p) && MeansAction(lex, p, c.action)
      && words == [Text(Controller), Text(Ssh)] + Render(items) + [Text(ActionWord(c.action))] + Render(actionItems)
      && forall a :: a in Render(items) ==> !IsAction(a);
    var front, k, rest := Render(items), ActionWord(c.action), Render(actionItems);
    TargetReads(lex, items, o, c);
    ActionReads(lex, actionItems, p, c.action);
    LexText(k);
    assert words[2..] == front + [Text(k)] + rest;
    ActionIndexIs(front, Text(k), rest);
    assert words[2..][..|front|] == front && words[2..][|front| + 1..] == rest;
  }

  lemma CommandReads(lex: Lexicon, words: seq<string>, c: Command, json: bool)
    requires WordsMean(lex, words, c, json)
    ensures ParseCommand(lex, words, json) == Success(c)
  {
    HelpIsNoOther();
    hide Text, Candidate, ParseDevice, ParseSession, ParseSsh, Written, WrittenSsh, Lex;
    if c.Status? {
      LexText(StatusWord);
    } else if c.ControllerSsh? {
      LexText(Controller);
      LexText(Ssh);
      SshReads(lex, words, c);
    } else if !c.Help? {
      HeadingReads(lex, words, c);
    }
  }

  lemma HelpIsNoOther()
    ensures Text(StatusWord) != Text(HelpLong) && Text(StatusWord) != Text(HelpShort)
  {
  }

  lemma HeadingReads(lex: Lexicon, words: seq<string>, c: Command)
    requires Plain(c) && Written(lex, words, c)
    ensures |words| >= 2 && ParseCommand(lex, words, true) == ParseCommand(lex, words, false) == Success(c)
  {
    hide Text, Candidate, ParseDevice, ParseSession, ParseSsh, Lex;
    LexText(Heading(c).0);
    LexText(Heading(c).1);
    if c.DeviceList? || c.DeviceShow? || c.DeviceRevoke? {
      DeviceReads(lex, words, c);
    } else if c.PresetList? {
      var items, o :| Lists(items, o) && words[2..] == Render(items) && Means(lex, o, c);
      NothingListed(items);
    } else {
      SessionReads(lex, words, c);
    }
  }

  /** The arguments with --json taken out, if it is there, are words that mean this. */
  ghost predicate LineMeans(lex: Lexicon, arguments: seq<string>, inv: Invocation, words: seq<string>,
                            at: Option<nat>) {
    && at.Some? == inv.json && (at.Some? ==> at.value <= |words|) && arguments == WithJson(words, at)
    && Text(Json) !in words && WordsMean(lex, words, inv.command, inv.json)
  }

  /**
   What the command line accepts, exactly: the arguments are within the limits, --json stands at most once and
   anywhere, and the rest means the command that is answered.
   */
  lemma AcceptedIff(lex: Lexicon, arguments: seq<string>, inv: Invocation)
    ensures ParseArgs(lex, arguments) == Success(inv) <==>
              InBounds(arguments) && exists words, at :: LineMeans(lex, arguments, inv, words, at)
  {
    hide Text, ParseCommand, WordsMean, WithJson;
    if ParseArgs(lex, arguments) == Success(inv) {
      var stripped := Strip(arguments, false).value;
      CommandMeans(lex, stripped.1, stripped.0);
      var at := StrippedOnce(arguments);
      assert LineMeans(lex, arguments, inv, stripped.1, at);
    }
    if InBounds(arguments) && exists words, at :: LineMeans(lex, arguments, inv, words, at) {
      var words, at :| LineMeans(lex, arguments, inv, words, at);
      StripsTo(words, at);
      CommandReads(lex, words, inv.command, inv.json);
    }
  }

  lemma StripsTo(words: seq<string>, at: Option<nat>)
    requires Text(Json) !in words && (at.Some? ==> at.value <= |words|)
    ensures Strip(WithJson(words, at), false) == Success((at.Some?, words))
  {
    hide Text;
    if at.Some? { StripFinds(words, at.value); } else { StripPlain(words, false); }
  }

  /** What --json was taken out of. */
  lemma StrippedOnce(arguments: seq<string>) returns (at: Option<nat>)
    requires Strip(arguments, false).Success?
    ensures var (json, words) := Strip(arguments, false).value;
            && at.Some? == json && (at.Some? ==> at.value <= |words|) && Text(Json) !in words
            && arguments == WithJson(words, at)
  {
    hide Text;
    at := StrippedFrom(arguments, false);
  }

  lemma {:induction false} StrippedFrom(arguments: seq<string>, json: bool) returns (at: Option<nat>)
    requires Strip(arguments, json).Success?
    ensures var r := Strip(arguments, json).value;
            && Text(Json) !in r.1
            && (json ==> at.None? && r.0 && arguments == r.1)
            && (!json ==> at.Some? == r.0 && (at.Some? ==> at.value <= |r.1|) && arguments == WithJson(r.1, at))
    decreases |arguments|
  {
    hide Text;
    if arguments == [] {
      at := None;
    } else if arguments[0] == Text(Json) {
      var none := StrippedFrom(arguments[1..], true);
      at := Some(0);
      var words := Strip(arguments, json).value.1;
      assert arguments == [arguments[0]] + arguments[1..];
      assert WithJson(words, Some(0)) == [] + [Text(Json)] + words;
    } else {
      var later := StrippedFrom(arguments[1..], json);
      at := if later.Some? then Some(later.value + 1) else None;
      assert arguments == [arguments[0]] + arguments[1..];
    }
  }
}
