/**
 The option grammar of the command line (crates/multiplex-cli/src/args.rs): names, each given at most once, that
 either stand alone or take the next argument as their value.
 */
module CommandOptions {
  import opened Wrappers

  /** Every fixed word of the grammar. */
  datatype Keyword =
    | Json | HelpLong | HelpShort | Device | Preset | Session | Controller | Ssh | StatusWord | List
    | Show | Revoke | Wait | Input | Resize | Attach | Resume | Launch | Stop | Archive | Restore
    | Remove | Pair | Sessions | Approval | Detach | Allow | Deny | OStatus | OExpectedRevision
    | OYes | OGroup | OState | OArchived | OActivity | OTimeoutMs | OInputStdin | OColumns | ORows
    | OFromSequence | OWrite | OFolder | OPreset | OPreviewToken | OConfirmationStdin | OHost | OUser
    | OPort | OSession | OGeneration | OApproval | ODecision

  // The texts are given in four tables only to keep each small.

  function WordText(k: Keyword): string {
    match k
    case Json => "--json"
    case HelpLong => "--help"
    case HelpShort => "-h"
    case Device => "device"
    case Preset => "preset"
    case Session => "session"
    case Controller => "controller"
    case Ssh => "ssh"
    case StatusWord => "status"
    case List => "list"
    case Show => "show"
    case Revoke => "revoke"
    case Wait => "wait"
    case Allow => "allow"
    case Deny => "deny"
    case _ => ""
  }

  function ActionText(k: Keyword): string {
    match k
    case Input => "input"
    case Resize => "resize"
    case Attach => "attach"
    case Resume => "resume"
    case Launch => "launch"
    case Stop => "stop"
    case Archive => "archive"
    case Restore => "restore"
    case Remove => "remove"
    case Pair => "pair"
    case Sessions => "sessions"
    case Approval => "approval"
    case Detach => "detach"
    case _ => ""
  }

  function OptionText(k: Keyword): string {
    match k
    case OStatus => "--status"
    case OExpectedRevision => "--expected-revision"
    case OYes => "--yes"
    case OGroup => "--group"
    case OState => "--state"
    case OArchived => "--archived"
    case OActivity => "--activity"
    case OTimeoutMs => "--timeout-ms"
    case OInputStdin => "--input-stdin"
    case OColumns => "--columns"
    case ORows => "--rows"
    case OFromSequence => "--from-sequence"
    case _ => ""
  }

  function MoreOptionText(k: Keyword): string {
    match k
    case OWrite => "--write"
    case OFolder => "--folder"
    case OPreset => "--preset"
    case OPreviewToken => "--preview-token"
    case OConfirmationStdin => "--confirmation-stdin"
    case OHost => "--host"
    case OUser => "--user"
    case OPort => "--port"
    case OSession => "--session"
    case OGeneration => "--generation"
    case OApproval => "--approval"
    case ODecision => "--decision"
    case _ => ""
  }

  datatype Table = PlainWords | ActionWords | SomeOptions | OtherOptions

  function TableOf(k: Keyword): Table {
    match k
    case Json | HelpLong | HelpShort | Device | Preset | Session | Controller | Ssh | StatusWord | List | Show |
       Revoke | Wait | Allow | Deny => PlainWords
    case Input | Resize | Attach | Resume | Launch | Stop | Archive | Restore | Remove | Pair | Sessions |
       Approval | Detach => ActionWords
    case OStatus | OExpectedRevision | OYes | OGroup | OState | OArchived | OActivity | OTimeoutMs | OInputStdin
       | OColumns | ORows | OFromSequence => SomeOptions
    case _ => OtherOptions
  }

  function Text(k: Keyword): string {
    match TableOf(k)
    case PlainWords => WordText(k)
    case ActionWords => ActionText(k)
    case SomeOptions => OptionText(k)
    case OtherOptions => MoreOptionText(k)
  }

  /** The only fixed word an argument could be, told from its length and a letter or two. */
  function Candidate(s: string): Keyword {
    if |s| == 2 then HelpShort
    else if |s| == 3 then Ssh
    else if |s| == 4 then
      if s[0] == 'l' then List
      else if s[0] == 's' then
        if s[1] == 'h' then Show
        else Stop
      else if s[0] == 'w' then Wait
      else if s[0] == 'p' then Pair
      else Deny
    else if |s| == 5 then
      if s[0] == 'i' then Input
      else if s[0] == 'a' then Allow
      else OYes
    else if |s| == 6 then
      if s[4] == 'o' then Json
      else if s[4] == 'l' then HelpLong
      else if s[4] == 'c' then
        if s[0] == 'd' then
          if s[2] == 'v' then Device
          else Detach
        else if s[0] == 'a' then Attach
        else Launch
      else if s[4] == 'e' then
        if s[0] == 'p' then Preset
        else OUser
      else if s[4] == 'u' then StatusWord
      else if s[4] == 'k' then Revoke
      else if s[4] == 'z' then Resize
      else if s[4] == 'm' then Resume
      else if s[4] == 'v' then Remove
      else if s[4] == 'w' then ORows
      else if s[4] == 's' then OHost
      else OPort
    else if |s| == 7 then
      if s[5] == 'o' then Session
      else if s[5] == 'v' then Archive
      else if s[5] == 'r' then Restore
      else if s[5] == 'u' then OGroup
      else
        if s[2] == 's' then OState
        else OWrite
    else if |s| == 8 then
      if s[4] == 'i' then Sessions
      else if s[4] == 'o' then Approval
      else if s[4] == 'a' then OStatus
      else if s[4] == 'l' then OFolder
      else OPreset
    else if |s| == 9 then
      if s[2] == 'c' then OColumns
      else OSession
    else if |s| == 10 then
      if s[3] == 't' then Controller
      else if s[3] == 'r' then OArchived
      else if s[3] == 'c' then OActivity
      else if s[3] == 'p' then OApproval
      else ODecision
    else if |s| == 12 then
      if s[2] == 't' then OTimeoutMs
      else OGeneration
    else if |s| == 13 then OInputStdin
    else if |s| == 15 then
      if s[2] == 'f' then OFromSequence
      else OPreviewToken
    else if |s| == 19 then OExpectedRevision
    else if |s| == 20 then OConfirmationStdin
    else Json
  }

  lemma WordCandidate(k: Keyword)
    requires TableOf(k) == PlainWords
    ensures Candidate(WordText(k)) == k
  {
  }

  lemma ActionCandidate(k: Keyword)
    requires TableOf(k) == ActionWords
    ensures Candidate(ActionText(k)) == k
  {
  }

  lemma OptionCandidate(k: Keyword)
    requires TableOf(k) == SomeOptions
    ensures Candidate(OptionText(k)) == k
  {
  }

  lemma MoreOptionCandidate(k: Keyword)
    requires TableOf(k) == OtherOptions
    ensures Candidate(MoreOptionText(k)) == k
  {
  }

  lemma CandidateOfText(k: Keyword)
    ensures Candidate(Text(k)) == k
  {
    hide Candidate, TableOf, WordText, ActionText, OptionText, MoreOptionText;
    match TableOf(k)
    case PlainWords => WordCandidate(k);
    case ActionWords => ActionCandidate(k);
    case SomeOptions => OptionCandidate(k);
    case OtherOptions => MoreOptionCandidate(k);
  }

  lemma TextIsInjective(j: Keyword, k: Keyword)
    requires Text(j) == Text(k)
    ensures j == k
  {
    hide Text, Candidate;
    CandidateOfText(j);
    CandidateOfText(k);
  }

  /** The fixed word an argument is, if it is one. */
  function Lex(argument: string): (r: Option<Keyword>) {
    if Text(Candidate(argument)) == argument then Some(Candidate(argument)) else None
  }

  lemma LexText(k: Keyword)
    ensures Lex(Text(k)) == Some(k)
  {
    hide Text, Candidate;
    CandidateOfText(k);
  }

  predicate Dashed(s: string) { |s| >= 2 && s[0] == '-' && s[1] == '-' }

  lemma SomeOptionsAreDashed(k: Keyword)
    requires TableOf(k) == SomeOptions
    ensures Dashed(OptionText(k))
  {
  }

  lemma OtherOptionsAreDashed(k: Keyword)
    requires TableOf(k) == OtherOptions
    ensures Dashed(MoreOptionText(k))
  {
  }

  /** Option names start with two dashes. */
  lemma OptionsAreDashed(k: Keyword)
    requires TableOf(k) == SomeOptions || TableOf(k) == OtherOptions
    ensures Dashed(Text(k))
  {
    hide Dashed, TableOf, WordText, ActionText, OptionText, MoreOptionText;
    if TableOf(k) == SomeOptions { SomeOptionsAreDashed(k); } else { OtherOptionsAreDashed(k); }
  }

  datatype Fault = Usage | ResourceLimit

  datatype Options = Options(values: map<Keyword, string>, flags: set<Keyword>) {
    function Get(k: Keyword): Option<string> { if k in values then Some(values[k]) else None }

    predicate Has(k: Keyword, v: string) { k in values && values[k] == v }
  }

  const NO_OPTIONS: Options := Options(map[], {})

  /** What a list of arguments means: none of the names may be in `o` already. */
  function ParseFrom(arguments: seq<string>, valueNames: set<Keyword>, flagNames: set<Keyword>, o: Options)
      : Result<Options, Fault>
    decreases |arguments|
  {
    if arguments == [] then Success(o)
    else
      match Lex(arguments[0])
      case None => Failure(Usage)
      case Some(k) =>
        if k in o.values || k in o.flags then Failure(Usage)
        else if k in valueNames then
          if |arguments| < 2 || Dashed(arguments[1]) then Failure(Usage)
          else ParseFrom(arguments[2..], valueNames, flagNames, o.(values := o.values[k := arguments[1]]))
        else if k in flagNames then ParseFrom(arguments[1..], valueNames, flagNames, o.(flags := o.flags + {k}))
        else Failure(Usage)
  }

  function ParseOptions(arguments: seq<string>, valueNames: set<Keyword>, flagNames: set<Keyword>)
    : Result<Options, Fault>
  {
    ParseFrom(arguments, valueNames, flagNames, NO_OPTIONS)
  }

  // ---- the other direction: options written out ----

  datatype Item = Flag(name: Keyword) | Value(name: Keyword, text: string)

  function Spell(i: Item): seq<string> { if i.Flag? then [Text(i.name)] else [Text(i.name), i.text] }

  function Render(items: seq<Item>): seq<string> { if items == [] then [] else Spell(items[0]) + Render(items[1..]) }

  /** The items are exactly the options of `o`, each once, in some order. */
  ghost predicate Lists(items: seq<Item>, o: Options) {
    && (forall i, j :: 0 <= i < j < |items| ==> items[i].name != items[j].name)
    && (forall k :: k in o.flags <==> Flag(k) in items)
    && (forall k, v :: o.Has(k, v) <==> Value(k, v) in items)
  }

  /** Options the grammar of a command allows. */
  ghost predicate Allowed(o: Options, valueNames: set<Keyword>, flagNames: set<Keyword>) {
    && o.values.Keys <= valueNames && o.flags <= flagNames && o.flags !! valueNames
    && forall k :: k in o.values ==> !Dashed(o.values[k])
  }

  /** `o` with one more item. */
  function Plus(o: Options, i: Item): Options {
    if i.Flag? then o.(flags := o.flags + {i.name}) else o.(values := o.values[i.name := i.text])
  }

  lemma SpelledParses(i: Item, rest: seq<string>, valueNames: set<Keyword>, flagNames: set<Keyword>, o: Options)
    requires i.name !in o.values && i.name !in o.flags
    requires if i.Flag? then i.name in flagNames && i.name !in valueNames else i.name in valueNames && !Dashed(i.text)
    ensures ParseFrom(Spell(i) + rest, valueNames, flagNames, o) == ParseFrom(rest, valueNames, flagNames, Plus(o, i))
  {
    hide Text, Lex;
    LexText(i.name);
    var all := Spell(i) + rest;
    assert all[|Spell(i)|..] == rest;
  }

  function PlusAll(o: Options, items: seq<Item>): Options
    decreases |items|
  {
    if items == [] then o else PlusAll(Plus(o, items[0]), items[1..])
  }

  lemma {:induction false} RenderedParses(items: seq<Item>, valueNames: set<Keyword>, flagNames: set<Keyword>,
      o: Options)
    requires forall i, j :: 0 <= i < j < |items| ==> items[i].name != items[j].name
    requires forall i :: 0 <= i < |items| ==> items[i].name !in o.values && items[i].name !in o.flags
    requires forall i :: i in items ==>
      if i.Flag? then i.name in flagNames && i.name !in valueNames else i.name in valueNames && !Dashed(i.text)
    ensures ParseFrom(Render(items), valueNames, flagNames, o) == Success(PlusAll(o, items))
    decreases |items|
  {
    hide ParseFrom, Spell, Dashed;
    if items == [] {
      NothingParses(valueNames, flagNames, o);
    } else {
      assert items[0] in items;
      SpelledParses(items[0], Render(items[1..]), valueNames, flagNames, o);
      assert forall i :: i in items[1..] ==> i in items;
      RenderedParses(items[1..], valueNames, flagNames, Plus(o, items[0]));
    }
  }

  lemma NothingParses(valueNames: set<Keyword>, flagNames: set<Keyword>, o: Options)
    ensures ParseFrom([], valueNames, flagNames, o) == Success(o)
  {
  }

  lemma {:induction false} PlusAllHas(o: Options, items: seq<Item>)
    requires forall i, j :: 0 <= i < j < |items| ==> items[i].name != items[j].name
    requires forall i :: 0 <= i < |items| ==> items[i].name !in o.values && items[i].name !in o.flags
    ensures forall k :: k in PlusAll(o, items).flags <==> k in o.flags || Flag(k) in items
    ensures forall k, v :: PlusAll(o, items).Has(k, v) <==> o.Has(k, v) || Value(k, v) in items
    decreases |items|
  {
    if items != [] {
      var first, rest := items[0], items[1..];
      assert items == [first] + rest;
      PlusAllHas(Plus(o, first), rest);
      forall k, v ensures PlusAll(o, items).Has(k, v) <==> o.Has(k, v) || Value(k, v) in items {
        assert Plus(o, first).Has(k, v) <==> o.Has(k, v) || Value(k, v) == first;
      }
    }
  }

  /** Whatever the order its options are written in, a list of them parses back to the same options. */
  lemma AnyOrderParses(items: seq<Item>, o: Options, valueNames: set<Keyword>, flagNames: set<Keyword>)
    requires Lists(items, o) && Allowed(o, valueNames, flagNames)
    ensures ParseOptions(Render(items), valueNames, flagNames) == Success(o)
  {
    forall i | i in items
      ensures if i.Flag? then i.name in flagNames && i.name !in valueNames else i.name in valueNames && !Dashed(i.text)
    {
      if i.Value? { assert Value(i.name, i.text) in items; } else { assert Flag(i.name) in items; }
    }
    RenderedParses(items, valueNames, flagNames, NO_OPTIONS);
    PlusAllHas(NO_OPTIONS, items);
    SameOptions(PlusAll(NO_OPTIONS, items), o);
  }

  lemma SameOptions(a: Options, b: Options)
    requires forall k :: k in a.flags <==> k in b.flags
    requires forall k, v :: a.Has(k, v) <==> b.Has(k, v)
    ensures a == b
  {
    assert a.flags == b.flags;
    assert forall k :: k in a.values ==> a.Has(k, a.values[k]) && b.Has(k, a.values[k]);
    assert forall k :: k in b.values ==> b.Has(k, b.values[k]) && a.Has(k, b.values[k]);
    assert a.values == b.values;
  }

  /** Only such lists parse, and to nothing else. */
  lemma {:induction false} ParsedIsRendered(arguments: seq<string>, valueNames: set<Keyword>, flagNames: set<Keyword>,
      o: Options)
      returns (items: seq<Item>)
    requires ParseFrom(arguments, valueNames, flagNames, o).Success?
    ensures Render(items) == arguments
    ensures forall i, j :: 0 <= i < j < |items| ==> items[i].name != items[j].name
    ensures forall i :: 0 <= i < |items| ==> items[i].name !in o.values && items[i].name !in o.flags
    ensures forall i :: i in items ==>
      if i.Flag? then i.name in flagNames && i.name !in valueNames else i.name in valueNames && !Dashed(i.text)
    ensures ParseFrom(arguments, valueNames, flagNames, o) == Success(PlusAll(o, items))
    decreases |arguments|
  {
    hide Text;
    if arguments == [] {
      items := [];
    } else {
      var k := Lex(arguments[0]).value;
      var first := if k in valueNames then Value(k, arguments[1]) else Flag(k);
      var rest := arguments[|Spell(first)|..];
      var tail := ParsedIsRendered(rest, valueNames, flagNames, Plus(o, first));
      items := [first] + tail;
      assert Spell(first) + rest == arguments;
      assert items[1..] == tail;
      forall j | 0 < j < |items| ensures items[j].name != k {
        assert items[j] == tail[j - 1];
      }
    }
  }

  /** parse_options accepts exactly the lists of allowed options, in any order, and answers what they list. */
  lemma ParsesIff(arguments: seq<string>, valueNames: set<Keyword>, flagNames: set<Keyword>, o: Options)
    requires valueNames !! flagNames
    ensures ParseOptions(arguments, valueNames, flagNames) == Success(o)
       <==> Allowed(o, valueNames, flagNames) && exists items :: Lists(items, o) && Render(items) == arguments
  {
    if ParseOptions(arguments, valueNames, flagNames) == Success(o) {
      var items := ParsedIsRendered(arguments, valueNames, flagNames, NO_OPTIONS);
      PlusAllHas(NO_OPTIONS, items);
      assert Lists(items, o);
      forall k | k in o.values ensures k in valueNames && !Dashed(o.values[k]) {
        assert o.Has(k, o.values[k]);
        assert Value(k, o.values[k]) in items;
      }
      forall k | k in o.flags ensures k in flagNames { assert Flag(k) in items; }
    }
    if Allowed(o, valueNames, flagNames) && exists items :: Lists(items, o) && Render(items) == arguments {
      var items :| Lists(items, o) && Render(items) == arguments;
      AnyOrderParses(items, o, valueNames, flagNames);
    }
  }

  /** An item the grammar allows. */
  predicate Fine(i: Item, valueNames: set<Keyword>, flagNames: set<Keyword>) {
    if i.Flag? then i.name in flagNames && i.name !in valueNames else i.name in valueNames && !Dashed(i.text)
  }

  /** After any allowed options, a name that wants a value and has none, or a dashed one, is refused. */
  lemma {:induction false} ValueMissing(front: seq<Item>, k: Keyword, rest: seq<string>, valueNames: set<Keyword>,
                                        flagNames: set<Keyword>, o: Options)
    requires k in valueNames && (rest == [] || Dashed(rest[0]))
    requires forall i :: i in front ==> Fine(i, valueNames, flagNames)
    ensures ParseFrom(Render(front) + [Text(k)] + rest, valueNames, flagNames, o).Failure?
    decreases |front|
  {
    hide Text, Lex, Dashed;
    LexText(k);
    var all := Render(front) + [Text(k)] + rest;
    if front == [] {
      assert all == [Text(k)] + rest;
    } else {
      var first := front[0];
      assert first in front;
      LexText(first.name);
      var tail := Render(front[1..]) + [Text(k)] + rest;
      assert all == Spell(first) + tail;
      assert forall i :: i in front[1..] ==> i in front;
      if first.name !in o.values && first.name !in o.flags {
        SpelledParses(first, tail, valueNames, flagNames, o);
        ValueMissing(front[1..], k, rest, valueNames, flagNames, Plus(o, first));
      }
    }
  }

  /** Every set of options can be listed. */
  lemma {:induction false} ListingExists(o: Options) returns (items: seq<Item>)
    requires o.values.Keys !! o.flags
    ensures Lists(items, o)
    decreases |o.values| + |o.flags|
  {
    hide Text;
    if k :| k in o.flags {
      var less := o.(flags := o.flags - {k});
      var rest := ListingExists(less);
      items := [Flag(k)] + rest;
      assert forall i :: 0 <= i < |rest| ==> rest[i] in rest && rest[i].name != k by { NameIsUsed(rest, less); }
    } else if k :| k in o.values {
      var less := o.(values := o.values - {k});
      assert k !in less.values && less.values.Keys == o.values.Keys - {k};
      var rest := ListingExists(less);
      items := [Value(k, o.values[k])] + rest;
      assert forall i :: 0 <= i < |rest| ==> rest[i] in rest && rest[i].name != k by { NameIsUsed(rest, less); }
      assert forall j, v :: o.Has(j, v) <==> less.Has(j, v) || (j == k && v == o.values[k]);
    } else {
      items := [];
    }
  }

  lemma NameIsUsed(items: seq<Item>, o: Options)
    requires Lists(items, o)
    ensures forall i :: 0 <= i < |items| ==> items[i].name in o.values || items[i].name in o.flags
  {
    forall i | 0 <= i < |items| ensures items[i].name in o.values || items[i].name in o.flags {
      match items[i]
      case Flag(k) => assert Flag(k) in items;
      case Value(k, v) => assert Value(k, v) in items && o.Has(k, v);
    }
  }

  // ---- the loop ----

  /** The first entry under a name, as ParsedOptions::value finds it. */
  function Find(values: seq<(string, string)>, name: string): Option<string>
    decreases |values|
  {
    if values == [] then None else if values[0].0 == name then Some(values[0].1) else Find(values[1..], name)
  }

  lemma {:induction false} FindAppend(values: seq<(string, string)>, name: string, value: string, k: string)
    requires Find(values, name).None?
    ensures Find(values + [(name, value)], k) == if k == name then Some(value) else Find(values, k)
    decreases |values|
  {
    var all := values + [(name, value)];
    if values != [] {
      assert all[1..] == values[1..] + [(name, value)];
      FindAppend(values[1..], name, value, k);
    } else {
      assert all[1..] == [];
    }
  }

  /** The vector and the sets of the loop hold the same options as `o`. */
  ghost predicate Holds(values: seq<(string, string)>, flags: set<string>, seen: set<string>, o: Options) {
    && (forall k :: Find(values, Text(k)) == o.Get(k))
    && (forall k :: Text(k) in flags <==> k in o.flags)
    && (forall k :: Text(k) in seen <==> k in o.values || k in o.flags)
  }

  lemma HoldsValue(values: seq<(string, string)>, flags: set<string>, seen: set<string>, o: Options, k: Keyword,
      v: string)
    requires Holds(values, flags, seen, o) && k !in o.values
    ensures Holds(values + [(Text(k), v)], flags, seen + {Text(k)}, o.(values := o.values[k := v]))
  {
    hide Text;
    forall j ensures j == k <==> Text(j) == Text(k) {
      if Text(j) == Text(k) { TextIsInjective(j, k); }
    }
    forall j ensures Find(values + [(Text(k), v)], Text(j)) == o.(values := o.values[k := v]).Get(j) {
      assert Find(values, Text(k)) == o.Get(k);
      FindAppend(values, Text(k), v, Text(j));
    }
  }

  lemma HoldsFlag(values: seq<(string, string)>, flags: set<string>, seen: set<string>, o: Options, k: Keyword)
    requires Holds(values, flags, seen, o)
    ensures Holds(values, flags + {Text(k)}, seen + {Text(k)}, o.(flags := o.flags + {k}))
  {
    hide Text;
    forall j ensures j == k <==> Text(j) == Text(k) {
      if Text(j) == Text(k) { TextIsInjective(j, k); }
    }
    assert forall j :: o.(flags := o.flags + {k}).Get(j) == o.Get(j);
  }

  method ParseOptionsLoop(arguments: seq<string>, valueNames: seq<Keyword>, flagNames: seq<Keyword>)
      returns (fault: Option<Fault>, values: seq<(string, string)>, flags: set<string>)
    ensures var parsed := ParseOptions(arguments, set k | k in valueNames, set k | k in flagNames);
            match fault
            case Some(f) => parsed == Failure(f)
            case None => parsed.Success? && exists seen :: Holds(values, flags, seen, parsed.value)
  {
    hide Text;
    ghost var V, F := set k | k in valueNames, set k | k in flagNames;
    ghost var o := NO_OPTIONS;
    values, flags := [], {};
    var seen: set<string> := {};
    var index := 0;
    while index < |arguments|
      invariant 0 <= index <= |arguments|
      invariant Holds(values, flags, seen, o)
      invariant ParseOptions(arguments, V, F) == ParseFrom(arguments[index..], V, F, o)
    {
      var name := arguments[index];
      ghost var rest := arguments[index..];
      assert rest[0] == name && rest[1..] == arguments[index + 1..];
      assert index + 1 < |arguments| ==> rest[1] == arguments[index + 1] && rest[2..] == arguments[index + 2..];
      ghost var lexed := Lex(name);
      if name in seen {
        fault := Some(Usage);
        return;
      }
      seen := seen + {name};
      var isValue, value := IsNamed(valueNames, name);
      var isFlag, flag := IsNamed(flagNames, name);
      if isValue {
        LexText(value);
        if index + 1 == |arguments| || Dashed(arguments[index + 1]) {
          fault := Some(Usage);
          return;
        }
        HoldsValue(values, flags, seen - {name}, o, value, arguments[index + 1]);
        assert seen - {name} + {name} == seen;
        o := o.(values := o.values[value := arguments[index + 1]]);
        values := values + [(name, arguments[index + 1])];
        index := index + 2;
      } else if isFlag {
        LexText(flag);
        HoldsFlag(values, flags, seen - {name}, o, flag);
        assert seen - {name} + {name} == seen;
        o := o.(flags := o.flags + {flag});
        flags := flags + {name};
        index := index + 1;
      } else {
        fault := Some(Usage);
        return;
      }
    }
    fault := None;
  }

  /** `contains` over a fixed list of names. */
  method IsNamed(names: seq<Keyword>, name: string) returns (found: bool, k: Keyword)
    ensures found ==> k in names && Text(k) == name
    ensures !found ==> forall j :: j in names ==> Text(j) != name
  {
    hide Text;
    k := Json;
    for i := 0 to |names|
      invariant forall j :: 0 <= j < i ==> Text(names[j]) != name
    {
      if Text(names[i]) == name { return true, names[i]; }
    }
    found := false;
  }
}
