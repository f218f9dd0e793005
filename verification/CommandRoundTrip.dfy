/**
 A command written out as arguments, and the round trip: options in any order, --json anywhere or nowhere
 (crates/multiplex-cli/src/args.rs).
 */
module CommandRoundTrip {
  import opened Wrappers
  import opened CommandOptions
  import opened CommandLine
  import opened WaitCondition
  import Numbers = RemovalToken

  function Given(k: Keyword, v: Option<string>): map<Keyword, string> { if v.Some? then map[k := v.value] else map[] }

  function Switch(k: Keyword, on: bool): set<Keyword> { if on then {k} else {} }

  function Digits(n: nat): string { Numbers.Decimal(n) }

  function Shown<T>(o: Option<T>, show: T -> string): Option<string> { if o.Some? then Some(show(o.value)) else None }

  function ShownNumber(o: Option<nat>): Option<string> { if o.Some? then Some(Digits(o.value)) else None }

  function SizeOptions(columns: nat, rows: nat): map<Keyword, string> {
    map[OColumns := Digits(columns), ORows := Digits(rows)]
  }

  /** Those options with the session and occupant an SSH action names. */
  function Occupied(m: map<Keyword, string>, lex: Lexicon, session: Uuid, generation: nat): map<Keyword, string> {
    m[OSession := lex.showId(session)][OGeneration := Digits(generation)]
  }

  /** The options of a command; for an SSH command, those of the target. */
  function OptionsOf(lex: Lexicon, c: Command): Options {
    match c
    case DeviceList(status) => Options(Given(OStatus, Shown(status, lex.showStatus)), {})
    case DeviceRevoke(_, revision, confirmed) =>
      Options(Given(OExpectedRevision, ShownNumber(revision)), Switch(OYes, confirmed))
    case SessionList(group, state, archivedOnly) =>
      Options(Given(OGroup, Shown(group, lex.showId)) + Given(OState, Shown(state, lex.showState)),
        Switch(OArchived, archivedOnly))
    case SessionWait(_, OfLifecycle(state), timeoutMs) =>
      Options(map[OState := lex.showState(state), OTimeoutMs := Digits(timeoutMs)], {})
    case SessionWait(_, OfActivity(activity), timeoutMs) =>
      Options(map[OActivity := lex.showActivity(activity), OTimeoutMs := Digits(timeoutMs)], {})
    case SessionInput(_) => Options(map[], {OInputStdin})
    case SessionResize(_, columns, rows) => Options(SizeOptions(columns, rows), {})
    case SessionAttach(_, from, columns, rows, write) =>
      Options(SizeOptions(columns, rows)[OFromSequence := Digits(from)], Switch(OWrite, write))
    case SessionResume(_, revision, confirmed) =>
      Options(Given(OExpectedRevision, ShownNumber(revision)), Switch(OYes, confirmed))
    case SessionLaunch(folder, preset, group) =>
      Options(Given(OGroup, Shown(group, lex.showId)) + map[OFolder := folder, OPreset := lex.showId(preset)], {})
    case SessionStop(_, revision, confirmed) =>
      Options(Given(OExpectedRevision, ShownNumber(revision)), Switch(OYes, confirmed))
    case SessionArchive(_, revision) => Options(Given(OExpectedRevision, ShownNumber(revision)), {})
    case SessionRestore(_, revision) => Options(Given(OExpectedRevision, ShownNumber(revision)), {})
    case SessionRemove(_, revision, token, confirmed, stdin) =>
      Options(Given(OExpectedRevision, ShownNumber(revision)) + Given(OPreviewToken, token),
              Switch(OYes, confirmed) + Switch(OConfirmationStdin, stdin))
    case ControllerSsh(host, user, port, _, _) =>
      Options(Given(OUser, user) + Given(OPort, ShownNumber(port)) + map[OHost := host], {})
    case _ => NO_OPTIONS
  }

  function ActionOptions(lex: Lexicon, action: SshAction): Options {
    match action
    case SshAttach(session, generation, from, columns, rows, write) =>
      Options(Occupied(SizeOptions(columns, rows)[OFromSequence := Digits(from)], lex, session, generation),
        Switch(OWrite, write))
    case SshInput(session, generation) => Options(Occupied(map[], lex, session, generation), {})
    case SshResize(session, generation, columns, rows) =>
      Options(Occupied(SizeOptions(columns, rows), lex, session, generation), {})
    case SshApproval(session, generation, approval, allow) =>
      Options(Occupied(map[OApproval := lex.showId(approval), ODecision := Text(if allow then Allow else Deny)],
                       lex, session, generation), {})
    case SshDetach(session, generation) => Options(Occupied(map[], lex, session, generation), {})
    case _ => NO_OPTIONS
  }

  function ActionWord(action: SshAction): Keyword {
    match action
    case SshPair => Pair
    case SshSessions => Sessions
    case SshAttach(_, _, _, _, _, _) => Attach
    case SshInput(_, _) => Input
    case SshResize(_, _, _, _) => Resize
    case SshApproval(_, _, _, _) => Approval
    case SshDetach(_, _) => Detach
  }

  /** The words a command starts with. */
  function Words(lex: Lexicon, c: Command): seq<string> {
    match c
    case Help => [Text(HelpLong)]
    case Status => [Text(StatusWord)]
    case DeviceList(_) => [Text(Device), Text(List)]
    case DeviceShow(id) => [Text(Device), Text(Show), lex.showId(id)]
    case DeviceRevoke(id, _, _) => [Text(Device), Text(Revoke), lex.showId(id)]
    case PresetList => [Text(Preset), Text(List)]
    case SessionList(_, _, _) => [Text(Session), Text(List)]
    case SessionShow(id) => [Text(Session), Text(Show), lex.showId(id)]
    case SessionWait(id, _, _) => [Text(Session), Text(Wait), lex.showId(id)]
    case SessionInput(id) => [Text(Session), Text(Input), lex.showId(id)]
    case SessionResize(id, _, _) => [Text(Session), Text(Resize), lex.showId(id)]
    case SessionAttach(id, _, _, _, _) => [Text(Session), Text(Attach), lex.showId(id)]
    case SessionResume(id, _, _) => [Text(Session), Text(Resume), lex.showId(id)]
    case SessionLaunch(_, _, _) => [Text(Session), Text(Launch)]
    case SessionStop(id, _, _) => [Text(Session), Text(Stop), lex.showId(id)]
    case SessionArchive(id, _) => [Text(Session), Text(Archive), lex.showId(id)]
    case SessionRestore(id, _) => [Text(Session), Text(Restore), lex.showId(id)]
    case SessionRemove(id, _, _, _, _) => [Text(Session), Text(Remove), lex.showId(id)]
    case ControllerSsh(_, _, _, _, _) => [Text(Controller), Text(Ssh)]
  }

  /** A command written out with its options, and those of its SSH action, in the orders given. */
  function Spelling(lex: Lexicon, c: Command, items: seq<Item>, actionItems: seq<Item>): seq<string> {
    Words(lex, c) + Render(items) + if c.ControllerSsh? then [Text(ActionWord(c.action))] + Render(actionItems) else []
  }

  predicate Size(columns: nat, rows: nat) { 1 <= columns <= 1000 && 1 <= rows <= 1000 }

  predicate Revisable(revision: Option<nat>) { revision.Some? ==> revision.value <= U64_MAX }

  predicate PrintableAction(action: SshAction) {
    match action
    case SshAttach(_, generation, from, columns, rows, _) =>
      1 <= generation <= U64_MAX && from <= U64_MAX && Size(columns, rows)
    case SshInput(_, generation) => 1 <= generation <= U64_MAX
    case SshResize(_, generation, columns, rows) => 1 <= generation <= U64_MAX && Size(columns, rows)
    case SshApproval(_, generation, _, _) => 1 <= generation <= U64_MAX
    case SshDetach(_, generation) => 1 <= generation <= U64_MAX
    case _ => true
  }

  /** The numbers and switches are in the ranges the grammar accepts, the host and user valid and canonical. */
  predicate InRange(lex: Lexicon, c: Command) {
    match c
    case DeviceRevoke(_, revision, confirmed) => Revisable(revision) && confirmed == revision.Some?
    case SessionWait(_, _, timeoutMs) => 1 <= timeoutMs <= MAX_TIMEOUT_MS
    case SessionResize(_, columns, rows) => Size(columns, rows)
    case SessionAttach(_, from, columns, rows, _) => from <= U64_MAX && Size(columns, rows)
    case SessionResume(_, revision, confirmed) => Revisable(revision) && confirmed == revision.Some?
    case SessionStop(_, revision, _) => Revisable(revision)
    case SessionArchive(_, revision) => Revisable(revision)
    case SessionRestore(_, revision) => Revisable(revision)
    case SessionRemove(_, revision, token, confirmed, stdin) => Revisable(revision) && token.Some? == confirmed == stdin
    case ControllerSsh(host, user, port, action, _) =>
      && lex.parseHost(host) == Some(host)
      && (user.Some? ==> lex.parseUser(user.value) == user)
      && (port.Some? ==> 1 <= port.value <= 65535)
      && PrintableAction(action)
    case _ => true
  }

  predicate FreeAsTarget(text: string) { !Dashed(text) && !IsAction(text) }

  /** No free text can be taken for an option, nor a host or user for an SSH action. */
  predicate TextIsFree(c: Command) {
    match c
    case SessionLaunch(folder, _, _) => !Dashed(folder)
    case SessionRemove(_, _, token, _, _) => token.Some? ==> !Dashed(token.value)
    case ControllerSsh(host, user, _, _, _) => FreeAsTarget(host) && (user.Some? ==> FreeAsTarget(user.value))
    case _ => true
  }

  predicate Printable(lex: Lexicon, c: Command) { InRange(lex, c) && TextIsFree(c) }

  lemma DigitsRead(n: nat)
    requires n <= U64_MAX
    ensures Numbers.ParseU64(Digits(n)) == Some(n) && !Dashed(Digits(n)) && !IsAction(Digits(n))
  {
    Numbers.ParseDecimal(n);
    var text := Digits(n);
    assert text != [] && text[0] in text;
    if IsAction(text) { ActionsAreWords(Lex(text).value); }
  }

  lemma ActionsAreWords(k: Keyword)
    requires NamesAction(k)
    ensures Text(k) != [] && 'a' <= Text(k)[0]
  {
  }

  predicate PlainValues(m: map<Keyword, string>) { Json !in m && forall k :: k in m ==> !Dashed(m[k]) }

  predicate PlainOptions(o: Options) { PlainValues(o.values) && Json !in o.flags }

  lemma PlainMerge(a: map<Keyword, string>, b: map<Keyword, string>)
    requires PlainValues(a) && PlainValues(b)
    ensures PlainValues(a + b)
  {
    hide Dashed;
  }

  lemma PlainNumbers(a: nat, b: nat)
    requires a <= U64_MAX && b <= U64_MAX
    ensures !Dashed(Digits(a)) && !Dashed(Digits(b))
  {
    DigitsRead(a);
    DigitsRead(b);
  }

  lemma PlainRevision(revision: Option<nat>, k: Keyword)
    requires Revisable(revision) && k != Json
    ensures PlainValues(Given(k, ShownNumber(revision)))
  {
    hide Dashed;
    if revision.Some? { PlainNumbers(revision.value, 0); }
  }

  lemma PlainSize(columns: nat, rows: nat)
    requires Size(columns, rows)
    ensures PlainValues(SizeOptions(columns, rows))
  {
    hide Dashed, Digits;
    PlainNumbers(columns, rows);
  }

  lemma PlainOccupied(m: map<Keyword, string>, lex: Lexicon, session: Uuid, generation: nat)
    requires lex.Valid() && generation <= U64_MAX && PlainValues(m)
    ensures PlainValues(Occupied(m, lex, session, generation))
  {
    hide Dashed, Digits;
    PlainNumbers(generation, 0);
  }

  lemma MergedOptionsArePlain(lex: Lexicon, c: Command)
    requires lex.Valid() && Printable(lex, c) && (c.SessionRemove? || c.ControllerSsh?)
    ensures PlainOptions(OptionsOf(lex, c))
  {
    hide Text, Lex, Dashed, IsAction, PrintableAction, Digits, ShownNumber;
    if c.SessionRemove? {
      PlainRevision(c.revision, OExpectedRevision);
      PlainMerge(Given(OExpectedRevision, ShownNumber(c.revision)), Given(OPreviewToken, c.token));
    } else {
      PlainRevision(c.port, OPort);
      PlainMerge(Given(OUser, c.user), Given(OPort, ShownNumber(c.port)));
      PlainMerge(Given(OUser, c.user) + Given(OPort, ShownNumber(c.port)), map[OHost := c.host]);
    }
  }

  lemma OptionsArePlain(lex: Lexicon, c: Command)
    requires lex.Valid() && Printable(lex, c)
    ensures PlainOptions(OptionsOf(lex, c))
  {
    if c.SessionRemove? || c.ControllerSsh? {
      hide OptionsOf, Printable;
      MergedOptionsArePlain(lex, c);
    } else {
      hide Text, Lex, Dashed, IsAction, PrintableAction, Digits, SizeOptions, ShownNumber;
      match c
      case DeviceRevoke(_, revision, _) => PlainRevision(revision, OExpectedRevision);
      case SessionWait(_, _, timeoutMs) => PlainNumbers(timeoutMs, 0);
      case SessionResize(_, columns, rows) => PlainSize(columns, rows);
      case SessionAttach(_, from, columns, rows, _) =>
        PlainSize(columns, rows);
        PlainNumbers(from, 0);
      case SessionResume(_, revision, _) => PlainRevision(revision, OExpectedRevision);
      case SessionStop(_, revision, _) => PlainRevision(revision, OExpectedRevision);
      case SessionArchive(_, revision) => PlainRevision(revision, OExpectedRevision);
      case SessionRestore(_, revision) => PlainRevision(revision, OExpectedRevision);
      case _ =>
    }
  }

  lemma ActionOptionsArePlain(lex: Lexicon, a: SshAction)
    requires lex.Valid() && PrintableAction(a)
    ensures PlainOptions(ActionOptions(lex, a))
  {
    assert !Dashed(Text(Allow)) && !Dashed(Text(Deny));
    hide Text, Lex, Dashed, Digits, SizeOptions, Occupied;
    match a
    case SshAttach(session, generation, from, columns, rows, _) =>
      PlainSize(columns, rows);
      PlainNumbers(from, 0);
      PlainOccupied(SizeOptions(columns, rows)[OFromSequence := Digits(from)], lex, session, generation);
    case SshInput(session, generation) => PlainOccupied(map[], lex, session, generation);
    case SshResize(session, generation, columns, rows) =>
      PlainSize(columns, rows);
      PlainOccupied(SizeOptions(columns, rows), lex, session, generation);
    case SshApproval(session, generation, approval, allow) =>
      var answer := map[OApproval := lex.showId(approval), ODecision := Text(if allow then Allow else Deny)];
      PlainOccupied(answer, lex, session, generation);
    case SshDetach(session, generation) => PlainOccupied(map[], lex, session, generation);
    case _ =>
  }

  // ---- the round trip, command by command ----

  predicate OnSession(c: Command) {
    || c.SessionShow? || c.SessionWait? || c.SessionInput? || c.SessionResize? || c.SessionAttach? || c.SessionResume?
    || c.SessionStop? || c.SessionArchive? || c.SessionRestore? || c.SessionRemove?
  }

  function SessionVerb(c: Command): Keyword
    requires OnSession(c)
  {
    match c
    case SessionShow(_) => Show
    case SessionWait(_, _, _) => Wait
    case SessionInput(_) => Input
    case SessionResize(_, _, _) => Resize
    case SessionAttach(_, _, _, _, _) => Attach
    case SessionResume(_, _, _) => Resume
    case SessionStop(_, _, _) => Stop
    case SessionArchive(_, _) => Archive
    case SessionRestore(_, _) => Restore
    case SessionRemove(_, _, _, _, _) => Remove
  }

  lemma RevisionReads(revision: Option<nat>, o: Options)
    requires Revisable(revision) && o.Get(OExpectedRevision) == ShownNumber(revision)
    ensures Number(o, OExpectedRevision) == Success(revision)
    ensures revision.Some? ==> !Dashed(Digits(revision.value))
  {
    if revision.Some? { DigitsRead(revision.value); }
  }

  /** A printed size, number or id is a value the options accept. */
  lemma SizeReads(columns: nat, rows: nat, o: Options, a: Option<nat>, b: Option<nat>)
    requires Size(columns, rows) && o.Get(OColumns) == Some(Digits(columns)) && o.Get(ORows) == Some(Digits(rows))
    ensures Dimension(o, OColumns, a) == Success(columns) && Dimension(o, ORows, b) == Success(rows)
    ensures !Dashed(Digits(columns)) && !Dashed(Digits(rows))
  {
    DigitsRead(columns);
    DigitsRead(rows);
  }

  lemma ReviseRoundTrip(lex: Lexicon, c: Command, items: seq<Item>)
    requires lex.Valid() && Printable(lex, c) && Lists(items, OptionsOf(lex, c))
    requires c.SessionResume? || c.SessionStop? || c.SessionArchive? || c.SessionRestore?
    ensures ParseOnSession(lex, SessionVerb(c), lex.showId(c.id), Render(items)) == Success(c)
  {
    hide Text, Lex, Dashed, Lists;
    var o := OptionsOf(lex, c);
    RevisionReads(c.revision, o);
    AnyOrderParses(items, o, {OExpectedRevision}, if c.SessionResume? || c.SessionStop? then {OYes} else {});
  }

  lemma RemoveRoundTrip(lex: Lexicon, c: Command, items: seq<Item>)
    requires lex.Valid() && Printable(lex, c) && Lists(items, OptionsOf(lex, c)) && c.SessionRemove?
    ensures ParseOnSession(lex, Remove, lex.showId(c.id), Render(items)) == Success(c)
  {
    hide Text, Lex, Dashed, Lists;
    var o := OptionsOf(lex, c);
    RevisionReads(c.revision, o);
    AnyOrderParses(items, o, {OExpectedRevision, OPreviewToken}, {OYes, OConfirmationStdin});
  }

  lemma WaitRoundTrip(lex: Lexicon, c: Command, items: seq<Item>)
    requires lex.Valid() && Printable(lex, c) && Lists(items, OptionsOf(lex, c)) && c.SessionWait?
    ensures ParseOnSession(lex, Wait, lex.showId(c.id), Render(items)) == Success(c)
  {
    hide Text, Lex, Dashed, Lists;
    var o := OptionsOf(lex, c);
    DigitsRead(c.timeoutMs);
    AnyOrderParses(items, o, {OState, OActivity, OTimeoutMs}, {});
  }

  lemma ListedHead(items: seq<Item>, o: Options)
    requires Lists(items, o) && items != []
    ensures o != NO_OPTIONS
  {
    hide Text;
    match items[0]
    case Flag(k) => assert Flag(k) in items;
    case Value(k, v) =>
      assert Value(k, v) in items;
      assert o.Has(k, v);
  }

  lemma NothingListed(items: seq<Item>)
    requires Lists(items, NO_OPTIONS)
    ensures items == [] && Render(items) == []
  {
    if items != [] {
      ListedHead(items, NO_OPTIONS);
      assert false;
    }
  }

  lemma ScreenRoundTrip(lex: Lexicon, c: Command, items: seq<Item>)
    requires lex.Valid() && Printable(lex, c) && Lists(items, OptionsOf(lex, c))
    requires c.SessionShow? || c.SessionInput? || c.SessionResize?
    ensures ParseOnSession(lex, SessionVerb(c), lex.showId(c.id), Render(items)) == Success(c)
  {
    hide Text, Lex, Dashed, Lists;
    var o := OptionsOf(lex, c);
    if c.SessionShow? {
      NothingListed(items);
    } else if c.SessionInput? {
      AnyOrderParses(items, o, {}, {OInputStdin});
    } else {
      SizeReads(c.columns, c.rows, o, None, None);
      AnyOrderParses(items, o, {OColumns, ORows}, {});
    }
  }

  lemma AttachRoundTrip(lex: Lexicon, c: Command, items: seq<Item>)
    requires lex.Valid() && Printable(lex, c) && Lists(items, OptionsOf(lex, c)) && c.SessionAttach?
    ensures ParseOnSession(lex, Attach, lex.showId(c.id), Render(items)) == Success(c)
  {
    hide Text, Lex, Dashed, Lists;
    var o := OptionsOf(lex, c);
    SizeReads(c.columns, c.rows, o, Some(80), Some(24));
    DigitsRead(c.fromSequence);
    AnyOrderParses(items, o, {OFromSequence, OColumns, ORows}, {OWrite});
  }

  lemma OnSessionRoundTrip(lex: Lexicon, c: Command, items: seq<Item>)
    requires lex.Valid() && Printable(lex, c) && Lists(items, OptionsOf(lex, c)) && OnSession(c)
    ensures ParseOnSession(lex, SessionVerb(c), lex.showId(c.id), Render(items)) == Success(c)
  {
    hide ParseOnSession, OptionsOf, Printable, Lists;
    if c.SessionWait? { WaitRoundTrip(lex, c, items); }
    else if c.SessionRemove? { RemoveRoundTrip(lex, c, items); }
    else if c.SessionResume? || c.SessionStop? || c.SessionArchive? || c.SessionRestore? {
      ReviseRoundTrip(lex, c, items);
    }
    else if c.SessionAttach? { AttachRoundTrip(lex, c, items); }
    else { ScreenRoundTrip(lex, c, items); }
  }

  lemma SessionListRoundTrip(lex: Lexicon, c: Command, items: seq<Item>)
    requires lex.Valid() && Lists(items, OptionsOf(lex, c)) && c.SessionList?
    ensures ParseSession(lex, Words(lex, c) + Render(items)) == Success(c)
  {
    hide Text, Lex, Dashed, Lists, ParseOnSession, Render, ParseOptions, IsAction;
    var words := Words(lex, c) + Render(items);
    LexText(List);
    assert words[1] == Text(List) && words[2..] == Render(items);
    AnyOrderParses(items, OptionsOf(lex, c), {OGroup, OState}, {OArchived});
  }

  lemma LaunchRoundTrip(lex: Lexicon, c: Command, items: seq<Item>)
    requires lex.Valid() && Printable(lex, c) && Lists(items, OptionsOf(lex, c)) && c.SessionLaunch?
    ensures ParseSession(lex, Words(lex, c) + Render(items)) == Success(c)
  {
    hide Text, Lex, Dashed, Lists, ParseOnSession, IsAction, Render, ParseOptions;
    var words := Words(lex, c) + Render(items);
    LexText(Launch);
    assert words[1] == Text(Launch) && words[2..] == Render(items);
    AnyOrderParses(items, OptionsOf(lex, c), {OFolder, OPreset, OGroup}, {});
  }

  lemma SessionRoundTrip(lex: Lexicon, c: Command, items: seq<Item>)
    requires lex.Valid() && Printable(lex, c) && Lists(items, OptionsOf(lex, c))
    requires OnSession(c) || c.SessionList? || c.SessionLaunch?
    ensures ParseSession(lex, Words(lex, c) + Render(items)) == Success(c)
  {
    hide Text, Lex, Dashed, Lists, ParseOnSession, Printable, OptionsOf, Lexicon.Valid, Render, ParseOptions;
    if c.SessionList? {
      SessionListRoundTrip(lex, c, items);
    } else if c.SessionLaunch? {
      LaunchRoundTrip(lex, c, items);
    } else {
      var words := Words(lex, c) + Render(items);
      OnSessionRoundTrip(lex, c, items);
      LexText(SessionVerb(c));
      assert words[1] == Text(SessionVerb(c)) && words[2] == lex.showId(c.id) && words[3..] == Render(items);
    }
  }

  lemma DeviceRoundTrip(lex: Lexicon, c: Command, items: seq<Item>)
    requires lex.Valid() && Printable(lex, c) && Lists(items, OptionsOf(lex, c))
    requires c.DeviceList? || c.DeviceShow? || c.DeviceRevoke?
    ensures ParseDevice(lex, Words(lex, c) + Render(items)) == Success(c)
  {
    hide Text, Lex, Dashed, Lists;
    var o := OptionsOf(lex, c);
    var words := Words(lex, c) + Render(items);
    if c.DeviceList? {
      LexText(List);
      assert words[1] == Text(List) && words[2..] == Render(items);
      AnyOrderParses(items, o, {OStatus}, {});
    } else if c.DeviceShow? {
      LexText(Show);
      NothingListed(items);
      assert words == Words(lex, c);
    } else {
      LexText(Revoke);
      assert words[1] == Text(Revoke) && words[2] == lex.showId(c.id) && words[3..] == Render(items);
      RevisionReads(c.revision, o);
      AnyOrderParses(items, o, {OExpectedRevision}, {OYes});
    }
  }

  lemma OccupantReads(lex: Lexicon, session: Uuid, generation: nat, o: Options)
    requires lex.Valid() && 1 <= generation <= U64_MAX
    requires o.Get(OSession) == Some(lex.showId(session)) && o.Get(OGeneration) == Some(Digits(generation))
    ensures RequiredId(lex, o, OSession) == Success(session) && Generation(o) == Success(generation)
  {
    DigitsRead(generation);
  }

  lemma SequenceReads(n: nat, o: Options)
    requires n <= U64_MAX && o.Get(OFromSequence) == Some(Digits(n))
    ensures Sequence(o) == Success(n)
  {
    DigitsRead(n);
  }

  lemma AttachReads(lex: Lexicon, a: SshAction)
    requires lex.Valid() && PrintableAction(a) && a.SshAttach?
    ensures ReadAction(lex, Attach, ActionOptions(lex, a)) == Success(a)
  {
    var o := ActionOptions(lex, a);
    hide Text, Digits, RequiredId, Generation, Sequence, Dimension;
    OccupantReads(lex, a.session, a.generation, o);
    SequenceReads(a.fromSequence, o);
    SizeReads(a.columns, a.rows, o, Some(80), Some(24));
  }

  lemma ResizeReads(lex: Lexicon, a: SshAction)
    requires lex.Valid() && PrintableAction(a) && a.SshResize?
    ensures ReadAction(lex, Resize, ActionOptions(lex, a)) == Success(a)
  {
    var o := ActionOptions(lex, a);
    hide Text, Digits, RequiredId, Generation, Sequence, Dimension;
    OccupantReads(lex, a.session, a.generation, o);
    SizeReads(a.columns, a.rows, o, None, None);
  }

  lemma DecisionReads(o: Options, allow: bool)
    requires o.Get(ODecision) == Some(Text(if allow then Allow else Deny))
    ensures Decision(o) == Success(allow)
  {
    hide Text;
    if Text(Allow) == Text(Deny) { TextIsInjective(Allow, Deny); }
  }

  lemma ApprovalReads(lex: Lexicon, a: SshAction)
    requires lex.Valid() && PrintableAction(a) && a.SshApproval?
    ensures ReadAction(lex, Approval, ActionOptions(lex, a)) == Success(a)
  {
    var o := ActionOptions(lex, a);
    hide Text, Digits, RequiredId, Generation, Sequence, Dimension, Lexicon.Valid, Decision;
    DecisionReads(o, a.allow);
    OccupantReads(lex, a.session, a.generation, o);
    IdReads(lex, a.approval, o, OApproval);
  }

  lemma ShortReads(lex: Lexicon, a: SshAction)
    requires lex.Valid() && PrintableAction(a) && !(a.SshAttach? || a.SshResize? || a.SshApproval?)
    ensures ReadAction(lex, ActionWord(a), ActionOptions(lex, a)) == Success(a)
  {
    hide Text, Digits, RequiredId, Generation, Sequence, Dimension;
    if a.SshInput? || a.SshDetach? { OccupantReads(lex, a.session, a.generation, ActionOptions(lex, a)); }
  }

  lemma ActionReads(lex: Lexicon, a: SshAction)
    requires lex.Valid() && PrintableAction(a)
    ensures ReadAction(lex, ActionWord(a), ActionOptions(lex, a)) == Success(a)
  {
    hide ReadAction, ActionOptions, PrintableAction, Lexicon.Valid;
    if a.SshAttach? {
      AttachReads(lex, a);
    } else if a.SshResize? {
      ResizeReads(lex, a);
    } else if a.SshApproval? {
      ApprovalReads(lex, a);
    } else {
      ShortReads(lex, a);
    }
  }

  lemma IdReads(lex: Lexicon, id: Uuid, o: Options, k: Keyword)
    requires lex.Valid() && o.Get(k) == Some(lex.showId(id))
    ensures RequiredId(lex, o, k) == Success(id)
  {
  }

  lemma ActionAllowed(lex: Lexicon, a: SshAction)
    requires lex.Valid() && PrintableAction(a)
    ensures Allowed(ActionOptions(lex, a), ActionValues(ActionWord(a)), ActionFlags(ActionWord(a)))
  {
    ActionOptionsArePlain(lex, a);
    hide Text, Dashed, Digits, PrintableAction, Lexicon.Valid;
  }

  lemma SshActionRoundTrip(lex: Lexicon, a: SshAction, items: seq<Item>)
    requires lex.Valid() && PrintableAction(a) && Lists(items, ActionOptions(lex, a))
    ensures ParseSshAction(lex, ActionWord(a), Render(items)) == Success(a)
  {
    hide Lists, Allowed, ReadAction, ParseOptions, Lexicon.Valid, ActionOptions, ActionValues, ActionFlags;
    ActionReads(lex, a);
    ActionAllowed(lex, a);
    AnyOrderParses(items, ActionOptions(lex, a), ActionValues(ActionWord(a)), ActionFlags(ActionWord(a)));
  }

  /** The split falls on the action word when nothing before it is one. */
  lemma {:induction false} ActionIndexIs(front: seq<string>, word: string, rest: seq<string>)
    requires IsAction(word) && forall a :: a in front ==> !IsAction(a)
    ensures ActionIndex(front + [word] + rest) == Some(|front|)
  {
    hide Text, Lex, IsAction;
    var all := front + [word] + rest;
    assert all[|front|] == word;
    assert forall i :: 0 <= i < |front| ==> all[i] == front[i] && front[i] in front;
    assert ActionIndex(all).Some?;
  }

  lemma {:induction false} RenderedHasNoAction(items: seq<Item>)
    requires forall i :: i in items ==> !NamesAction(i.name) && (i.Value? ==> !IsAction(i.text))
    ensures forall a :: a in Render(items) ==> !IsAction(a)
    decreases |items|
  {
    hide Text, Lex;
    if items != [] {
      var first := items[0];
      assert first in items;
      LexText(first.name);
      assert forall i :: i in items[1..] ==> i in items;
      RenderedHasNoAction(items[1..]);
      assert forall a :: a in Spell(first) ==> a == Text(first.name) || (first.Value? && a == first.text);
    }
  }

  lemma TargetHasNoAction(lex: Lexicon, c: Command, items: seq<Item>)
    requires Printable(lex, c) && Lists(items, OptionsOf(lex, c)) && c.ControllerSsh?
    ensures forall a :: a in Render(items) ==> !IsAction(a)
  {
    var o := OptionsOf(lex, c);
    if c.port.Some? { DigitsRead(c.port.value); }
    hide Text, Lex, IsAction, Dashed;
    forall i | i in items ensures !NamesAction(i.name) && (i.Value? ==> !IsAction(i.text)) {
      if i.Value? {
        assert Value(i.name, i.text) in items;
        assert o.Has(i.name, i.text);
      }
    }
    RenderedHasNoAction(items);
  }

  lemma TargetRoundTrip(lex: Lexicon, c: Command, items: seq<Item>)
    requires lex.Valid() && Printable(lex, c) && c.ControllerSsh? && Lists(items, OptionsOf(lex, c))
    ensures ParseTarget(lex, Render(items)) == Success(Target(c.host, c.user, c.port))
  {
    hide Text, Lex, Dashed, Lists, IsAction, PrintableAction;
    var o := OptionsOf(lex, c);
    if c.port.Some? { DigitsRead(c.port.value); }
    AnyOrderParses(items, o, {OHost, OUser, OPort}, {});
  }

  lemma SshSplits(lex: Lexicon, front: seq<string>, k: Keyword, rest: seq<string>, t: Target, a: SshAction,
      interactive: bool)
    requires NamesAction(k) && forall s :: s in front ==> !IsAction(s)
    requires ParseTarget(lex, front) == Success(t) && ParseSshAction(lex, k, rest) == Success(a)
    ensures ParseSsh(lex, front + [Text(k)] + rest, interactive)
         == Success(ControllerSsh(t.host, t.user, t.port, a, interactive))
  {
    hide ParseTarget, ParseSshAction, ActionIndex, Text, Lex;
    LexText(k);
    ActionIndexIs(front, Text(k), rest);
    var all := front + [Text(k)] + rest;
    assert all[..|front|] == front && all[|front|] == Text(k) && all[|front| + 1..] == rest;
  }

  lemma SshRoundTrip(lex: Lexicon, c: Command, items: seq<Item>, actionItems: seq<Item>)
    requires lex.Valid() && Printable(lex, c) && c.ControllerSsh?
    requires Lists(items, OptionsOf(lex, c)) && Lists(actionItems, ActionOptions(lex, c.action))
    ensures ParseSsh(lex, Render(items) + [Text(ActionWord(c.action))] + Render(actionItems), c.allowInteraction)
        == Success(c)
  {
    hide Text, Lex, Dashed, Lists, ParseSsh, ParseSshAction, ParseTarget, OptionsOf, ActionOptions, Render;
    TargetHasNoAction(lex, c, items);
    TargetRoundTrip(lex, c, items);
    SshActionRoundTrip(lex, c.action, actionItems);
    SshSplits(lex, Render(items), ActionWord(c.action), Render(actionItems), Target(c.host, c.user, c.port), c.action,
              c.allowInteraction);
  }

  // ---- --json anywhere ----

  /** The arguments with --json put in at a place, or without it. */
  function WithJson(arguments: seq<string>, at: Option<nat>): seq<string>
    requires at.Some? ==> at.value <= |arguments|
  {
    if at.Some? then arguments[..at.value] + [Text(Json)] + arguments[at.value..] else arguments
  }

  lemma {:induction false} StripPlain(arguments: seq<string>, json: bool)
    requires Text(Json) !in arguments
    ensures Strip(arguments, json) == Success((json, arguments))
    decreases |arguments|
  {
    hide Text;
    if arguments != [] {
      assert arguments[0] in arguments;
      assert forall a :: a in arguments[1..] ==> a in arguments;
      StripPlain(arguments[1..], json);
      assert arguments == [arguments[0]] + arguments[1..];
    }
  }

  lemma {:induction false} StripFinds(arguments: seq<string>, at: nat)
    requires Text(Json) !in arguments && at <= |arguments|
    ensures Strip(WithJson(arguments, Some(at)), false) == Success((true, arguments))
    decreases at
  {
    hide Text;
    var all := WithJson(arguments, Some(at));
    if at == 0 {
      assert all[0] == Text(Json) && all[1..] == arguments;
      StripPlain(arguments, true);
    } else {
      var rest := arguments[1..];
      assert arguments[0] in arguments;
      assert forall a :: a in rest ==> a in arguments;
      StripFinds(rest, at - 1);
      assert all[0] == arguments[0] && all[1..] == WithJson(rest, Some(at - 1));
      assert arguments == [arguments[0]] + rest;
    }
  }

  lemma {:induction false} RenderedHasNoJson(items: seq<Item>)
    requires forall i :: i in items ==> i.name != Json && (i.Value? ==> !Dashed(i.text))
    ensures Text(Json) !in Render(items)
    decreases |items|
  {
    assert Dashed(Text(Json));
    hide Text, Dashed;
    if items != [] {
      var first := items[0];
      assert first in items;
      if Text(first.name) == Text(Json) { TextIsInjective(first.name, Json); }
      assert forall i :: i in items[1..] ==> i in items;
      RenderedHasNoJson(items[1..]);
      assert forall a :: a in Spell(first) ==> a == Text(first.name) || (first.Value? && a == first.text);
    }
  }

  lemma ListedHasNoJson(items: seq<Item>, o: Options)
    requires Lists(items, o) && PlainOptions(o)
    ensures Text(Json) !in Render(items)
  {
    hide Text, Dashed;
    forall i | i in items ensures i.name != Json && (i.Value? ==> !Dashed(i.text)) {
      if i.Value? {
        assert Value(i.name, i.text) in items;
        assert o.Has(i.name, i.text);
      } else {
        assert Flag(i.name) in items;
      }
    }
    RenderedHasNoJson(items);
  }

  lemma WordsHaveNoJson(lex: Lexicon, c: Command)
    requires lex.Valid()
    ensures Text(Json) !in Words(lex, c)
  {
    assert Dashed(Text(Json));
    hide Text, Lex, Dashed;
    forall k | Text(k) == Text(Json) ensures k == Json { TextIsInjective(k, Json); }
  }

  lemma SpellingHasNoJson(lex: Lexicon, c: Command, items: seq<Item>, actionItems: seq<Item>)
    requires lex.Valid() && Printable(lex, c) && Lists(items, OptionsOf(lex, c))
    requires c.ControllerSsh? ==> Lists(actionItems, ActionOptions(lex, c.action))
    ensures Text(Json) !in Spelling(lex, c, items, actionItems)
  {
    WordsHaveNoJson(lex, c);
    OptionsArePlain(lex, c);
    ListedHasNoJson(items, OptionsOf(lex, c));
    if c.ControllerSsh? {
      hide Text;
      ActionOptionsArePlain(lex, c.action);
      ListedHasNoJson(actionItems, ActionOptions(lex, c.action));
      if Text(ActionWord(c.action)) == Text(Json) { TextIsInjective(ActionWord(c.action), Json); }
    }
  }

  lemma ShortCommand(lex: Lexicon, c: Command, json: bool)
    requires c.Help? || c.Status? || c.PresetList?
    ensures ParseCommand(lex, Words(lex, c), json) == Success(c)
  {
    hide Text, Lex, ParseDevice, ParseSession, ParseSsh;
    LexText(HelpLong);
    LexText(HelpShort);
    LexText(StatusWord);
    LexText(Preset);
    LexText(List);
    assert [Text(HelpLong)][0] == Text(HelpLong) && [Text(HelpShort)][0] == Text(HelpShort);
  }

  lemma LongCommand(lex: Lexicon, words: seq<string>, k: Keyword, json: bool)
    requires |words| >= 2 && words[0] == Text(k) && k in {Device, Session, Controller}
    ensures k == Device ==> ParseCommand(lex, words, json) == ParseDevice(lex, words)
    ensures k == Session ==> ParseCommand(lex, words, json) == ParseSession(lex, words)
    ensures k == Controller && Lex(words[1]) == Some(Ssh) ==>
              ParseCommand(lex, words, json) == ParseSsh(lex, words[2..], !json)
  {
    hide Text, Lex, ParseDevice, ParseSession, ParseSsh;
    LexText(k);
  }

  lemma ControllerRoundTrip(lex: Lexicon, c: Command, items: seq<Item>, actionItems: seq<Item>, json: bool)
    requires lex.Valid() && Printable(lex, c) && Lists(items, OptionsOf(lex, c)) && c.ControllerSsh?
    requires Lists(actionItems, ActionOptions(lex, c.action)) && c.allowInteraction == !json
    ensures ParseCommand(lex, Spelling(lex, c, items, actionItems), json) == Success(c)
  {
    hide Text, Lex, Lists, ParseSsh, Printable, Render, ParseCommand, Lexicon.Valid, ActionOptions, OptionsOf,
        ActionWord;
    SshRoundTrip(lex, c, items, actionItems);
    LexText(Ssh);
    var front, word, rest := Render(items), [Text(ActionWord(c.action))], Render(actionItems);
    var all := [Text(Controller), Text(Ssh)] + front + (word + rest);
    assert all == Spelling(lex, c, items, actionItems);
    assert all[0] == Text(Controller) && all[1] == Text(Ssh) && all[2..] == front + word + rest;
    LongCommand(lex, all, Controller, json);
  }

  lemma CommandRoundTrip(lex: Lexicon, c: Command, items: seq<Item>, actionItems: seq<Item>, json: bool)
    requires lex.Valid() && Printable(lex, c) && Lists(items, OptionsOf(lex, c))
    requires c.ControllerSsh? ==> Lists(actionItems, ActionOptions(lex, c.action)) && c.allowInteraction == !json
    ensures ParseCommand(lex, Spelling(lex, c, items, actionItems), json) == Success(c)
  {
    hide Text, Lex, Dashed, Lists, ParseDevice, ParseSession, ParseSsh, Printable, Render, ParseCommand, Lexicon.Valid,
         ActionOptions, ActionWord;
    var all := Spelling(lex, c, items, actionItems);
    if c.Help? || c.Status? || c.PresetList? {
      NothingListed(items);
      assert all == Words(lex, c);
      ShortCommand(lex, c, json);
    } else if c.ControllerSsh? {
      ControllerRoundTrip(lex, c, items, actionItems, json);
    } else if c.DeviceList? || c.DeviceShow? || c.DeviceRevoke? {
      assert all == Words(lex, c) + Render(items);
      LongCommand(lex, all, Device, json);
      DeviceRoundTrip(lex, c, items);
    } else {
      assert all == Words(lex, c) + Render(items);
      LongCommand(lex, all, Session, json);
      SessionRoundTrip(lex, c, items);
    }
  }

  /**
   A printable command, its options in any order and --json anywhere or nowhere, parses back to itself with the
   right json flag, unless the arguments are too long to be looked at.
   */
  lemma RoundTrip(lex: Lexicon, c: Command, items: seq<Item>, actionItems: seq<Item>, at: Option<nat>)
    requires lex.Valid() && Printable(lex, c) && Lists(items, OptionsOf(lex, c))
    requires c.ControllerSsh? ==> Lists(actionItems, ActionOptions(lex, c.action)) && c.allowInteraction == at.None?
    requires at.Some? ==> at.value <= |Spelling(lex, c, items, actionItems)|
    ensures var arguments := WithJson(Spelling(lex, c, items, actionItems), at);
            ParseArgs(lex, arguments)
            == if InBounds(arguments) then Success(Invocation(at.Some?, c)) else Failure(ResourceLimit)
  {
    hide ParseCommand, Spelling, InBounds, Lists, Printable, OptionsOf, ActionOptions;
    var plain := Spelling(lex, c, items, actionItems);
    SpellingHasNoJson(lex, c, items, actionItems);
    CommandRoundTrip(lex, c, items, actionItems, at.Some?);
    if at.Some? { StripFinds(plain, at.value); } else { StripPlain(plain, false); }
  }
}
