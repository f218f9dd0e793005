/**
 Why the round trip needs its condition on free text: a folder, token, host or user that looks like an option, or a
 host or user that is an SSH action word, is never read back (crates/multiplex-cli/src/args.rs).
 */
module FreeText {
  import opened Wrappers
  import opened CommandOptions
  import opened CommandLine
  import opened WaitCondition
  import opened CommandRoundTrip

  function Plain(arguments: seq<string>): seq<string> {
    if arguments == [] then []
    else (if arguments[0] == Text(Json) then [] else [arguments[0]]) + Plain(arguments[1..])
  }

  lemma {:induction false} StripIsPlain(arguments: seq<string>, json: bool)
    ensures Strip(arguments, json).Success? ==> Strip(arguments, json).value.1 == Plain(arguments)
    decreases |arguments|
  {
    hide Text;
    if arguments != [] {
      StripIsPlain(arguments[1..], true);
      StripIsPlain(arguments[1..], json);
    }
  }

  lemma {:induction false} PlainAdd(a: seq<string>, b: seq<string>)
    ensures Plain(a + b) == Plain(a) + Plain(b)
    decreases |a|
  {
    hide Text;
    if a == [] {
      assert a + b == b;
    } else {
      assert (a + b)[1..] == a[1..] + b;
      PlainAdd(a[1..], b);
    }
  }

  lemma {:induction false} PlainKeeps(a: seq<string>)
    requires Text(Json) !in a
    ensures Plain(a) == a
    decreases |a|
  {
    hide Text;
    if a != [] {
      assert a[0] in a;
      assert forall x :: x in a[1..] ==> x in a;
      PlainKeeps(a[1..]);
      assert a == [a[0]] + a[1..];
    }
  }

  lemma PlainIgnoresJson(arguments: seq<string>, at: Option<nat>)
    requires at.Some? ==> at.value <= |arguments|
    ensures Plain(WithJson(arguments, at)) == Plain(arguments)
  {
    if at.Some? {
      var a, b, json := arguments[..at.value], arguments[at.value..], [Text(Json)];
      assert arguments == a + b;
      assert Plain(json) == [];
      hide Text;
      PlainAdd(a, b);
      PlainAdd(a, json);
      PlainAdd(a + json, b);
    }
  }

  predicate Bad(c: Command, i: Item) {
    i.Value? && (Dashed(i.text) || (c.ControllerSsh? && IsAction(i.text)))
  }

  predicate TakesText(c: Command) { c.SessionLaunch? || c.SessionRemove? || c.ControllerSsh? }

  function TextValues(c: Command): set<Keyword> {
    if c.SessionLaunch? then {OFolder, OPreset, OGroup}
    else if c.SessionRemove? then {OExpectedRevision, OPreviewToken}
    else {OHost, OUser, OPort}
  }

  function TextFlags(c: Command): set<Keyword> { if c.SessionRemove? then {OYes, OConfirmationStdin} else {} }

  lemma BadItem(lex: Lexicon, c: Command, items: seq<Item>) returns (bad: Item)
    requires !TextIsFree(c) && Lists(items, OptionsOf(lex, c))
    ensures TakesText(c) && bad in items && Bad(c, bad)
  {
    hide Text, Lex, Dashed, IsAction;
    var o := OptionsOf(lex, c);
    bad :=
      if c.SessionLaunch? then Value(OFolder, c.folder)
      else if c.SessionRemove? then Value(OPreviewToken, c.token.value)
      else if !FreeAsTarget(c.host) then Value(OHost, c.host)
      else Value(OUser, c.user.value);
    assert o.Has(bad.name, bad.text);
  }

  lemma FirstBad(c: Command, items: seq<Item>, last: nat) returns (j: nat)
    requires last < |items| && Bad(c, items[last])
    ensures j < |items| && Bad(c, items[j]) && forall i :: 0 <= i < j ==> !Bad(c, items[i])
  {
    hide Bad;
    j := 0;
    while !Bad(c, items[j])
      invariant 0 <= j <= last && forall i :: 0 <= i < j ==> !Bad(c, items[i])
      decreases |items| - j
    {
      j := j + 1;
    }
  }

  lemma BadIsListed(lex: Lexicon, c: Command, items: seq<Item>) returns (j: nat)
    requires !TextIsFree(c) && Lists(items, OptionsOf(lex, c))
    ensures TakesText(c) && j < |items| && Bad(c, items[j]) && forall i :: i in items[..j] ==> !Bad(c, i)
  {
    hide OptionsOf, Lists, TextIsFree, Bad, TakesText;
    var bad := BadItem(lex, c, items);
    var last: nat :| last < |items| && items[last] == bad;
    j := FirstBad(c, items, last);
  }

  lemma ListedNames(lex: Lexicon, c: Command, items: seq<Item>, i: Item)
    requires TakesText(c) && Lists(items, OptionsOf(lex, c)) && i in items
    ensures i.name in TextValues(c) + TextFlags(c)
    ensures i.Value? ==> i.name in TextValues(c)
    ensures !Bad(c, i) ==> Fine(i, TextValues(c), TextFlags(c))
  {
    hide Text, Lex, Dashed, IsAction;
    var o := OptionsOf(lex, c);
    match i
    case Value(k, v) => assert o.Has(k, v);
    case Flag(k) => assert k in o.flags;
  }

  lemma OptionNames(c: Command, k: Keyword)
    requires k in TextValues(c) + TextFlags(c)
    ensures Dashed(Text(k)) && k != Json && !NamesAction(k)
  {
    hide Text, Dashed;
    OptionsAreDashed(k);
  }

  lemma {:induction false} RenderSplits(a: seq<Item>, b: seq<Item>)
    ensures Render(a + b) == Render(a) + Render(b)
    decreases |a|
  {
    hide Spell;
    if a == [] {
      assert a + b == b;
    } else {
      assert (a + b)[1..] == a[1..] + b;
      RenderSplits(a[1..], b);
    }
  }

  lemma Around<T>(s: seq<T>, j: nat)
    requires j < |s|
    ensures s == s[..j] + ([s[j]] + s[j + 1..])
  {
  }

  lemma Regroup<T>(a: seq<T>, x: T, y: T, b: seq<T>)
    ensures a + ([x, y] + b) == a + [x] + ([y] + b)
  {
  }

  lemma RenderAround(items: seq<Item>, j: nat)
    requires j < |items| && items[j].Value?
    ensures Render(items) == Render(items[..j]) + [Text(items[j].name)] + ([items[j].text] + Render(items[j + 1..]))
  {
    hide Text, Render;
    var before, after := items[..j], items[j + 1..];
    RenderFirst(items[j], after);
    Around(items, j);
    RenderSplits(before, [items[j]] + after);
    Regroup(Render(before), Text(items[j].name), items[j].text, Render(after));
  }

  lemma RenderFirst(i: Item, rest: seq<Item>)
    ensures Render([i] + rest) == Spell(i) + Render(rest)
  {
    assert ([i] + rest)[1..] == rest;
  }

  /** The arguments after the bad option's name, --json taken out, do not give it a value. */
  predicate NoValue(c: Command, rest: seq<string>) {
    rest == [] || Dashed(rest[0]) || (c.ControllerSsh? && IsAction(rest[0]))
  }

  lemma PlainFirst(first: string, rest: seq<string>)
    requires first != Text(Json)
    ensures Plain([first] + rest) == [first] + Plain(rest)
  {
    hide Text;
    assert ([first] + rest)[1..] == rest;
  }

  lemma JsonServesNothing(lex: Lexicon, c: Command, items: seq<Item>, after: seq<Item>, suffix: seq<string>)
    requires TakesText(c) && Lists(items, OptionsOf(lex, c)) && forall i :: i in after ==> i in items
    requires suffix == [] || (c.ControllerSsh? && IsAction(suffix[0]))
    ensures NoValue(c, Plain(Render(after) + suffix))
  {
    if after != [] {
      var next := after[0];
      ListedNames(lex, c, items, next);
      OptionNames(c, next.name);
      hide Text, Lex, Dashed, OptionsOf, Lists;
      if Text(next.name) == Text(Json) { TextIsInjective(next.name, Json); }
      var rest := Render(after) + suffix;
      assert rest == [Text(next.name)] + rest[1..];
      PlainFirst(Text(next.name), rest[1..]);
    } else if suffix != [] {
      hide Text, Dashed, OptionsOf, Lists;
      if suffix[0] == Text(Json) { LexText(Json); }
      assert Render(after) + suffix == [suffix[0]] + suffix[1..];
      PlainFirst(suffix[0], suffix[1..]);
    }
  }

  lemma NothingServesAsValue(lex: Lexicon, c: Command, items: seq<Item>, j: nat, suffix: seq<string>)
    requires TakesText(c) && Lists(items, OptionsOf(lex, c)) && j < |items| && Bad(c, items[j])
    requires suffix == [] || (c.ControllerSsh? && IsAction(suffix[0]))
    ensures NoValue(c, Plain([items[j].text] + (Render(items[j + 1..]) + suffix)))
  {
    hide Text, Lex, Dashed, OptionsOf, Lists, Render;
    var v, rest := items[j].text, Render(items[j + 1..]) + suffix;
    if v == Text(Json) {
      assert ([v] + rest)[1..] == rest;
      JsonServesNothing(lex, c, items, items[j + 1..], suffix);
    } else {
      PlainFirst(v, rest);
    }
  }

  /** The front of the arguments, up to the bad option's name, survives taking --json out. */
  lemma FrontIsPlain(lex: Lexicon, c: Command, items: seq<Item>, j: nat)
    requires lex.Valid() && TakesText(c) && Lists(items, OptionsOf(lex, c)) && j < |items| && Bad(c, items[j])
    requires forall i :: i in items[..j] ==> !Bad(c, i)
    ensures forall i :: i in items[..j] ==>
              Fine(i, TextValues(c), TextFlags(c)) && i.name != Json && !NamesAction(i.name)
    ensures Text(Json) !in Render(items[..j]) + [Text(items[j].name)]
    ensures items[j].name in TextValues(c) && !NamesAction(items[j].name)
  {
    var k := items[j].name;
    ListedNames(lex, c, items, items[j]);
    OptionNames(c, k);
    hide Text, Lex, Dashed, OptionsOf, Lists;
    if Text(k) == Text(Json) { TextIsInjective(k, Json); }
    forall i | i in items[..j]
      ensures Fine(i, TextValues(c), TextFlags(c)) && i.name != Json && !NamesAction(i.name)
    {
      assert i in items;
      ListedNames(lex, c, items, i);
      OptionNames(c, i.name);
    }
    RenderedHasNoJson(items[..j]);
  }

  lemma LaunchOrRemoveFails(lex: Lexicon, c: Command, front: seq<Item>, k: Keyword, rest: seq<string>, json: bool)
    requires c.SessionLaunch? || c.SessionRemove?
    requires k in TextValues(c) && NoValue(c, rest)
    requires forall i :: i in front ==> Fine(i, TextValues(c), TextFlags(c))
    ensures ParseCommand(lex, Words(lex, c) + (Render(front) + [Text(k)] + rest), json).Failure?
  {
    hide Text, Lex, Dashed, Render, Fine, ParseFrom, ParseCommand;
    var arguments := Render(front) + [Text(k)] + rest;
    ValueMissing(front, k, rest, TextValues(c), TextFlags(c), NO_OPTIONS);
    var all := Words(lex, c) + arguments;
    assert |Words(lex, c)| >= 2 && all[0] == Text(Session);
    LongCommand(lex, all, Session, json);
    if c.SessionLaunch? {
      LexText(Launch);
      assert all[1] == Text(Launch) && all[2..] == arguments;
    } else {
      LexText(Remove);
      assert all[1] == Text(Remove) && all[2] == lex.showId(c.id) && all[3..] == arguments;
    }
  }

  lemma SshFails(lex: Lexicon, front: seq<Item>, k: Keyword, rest: seq<string>, interactive: bool)
    requires k in {OHost, OUser, OPort} && !NamesAction(k)
    requires rest == [] || Dashed(rest[0]) || IsAction(rest[0])
    requires forall i :: i in front ==>
               Fine(i, {OHost, OUser, OPort}, {}) && !NamesAction(i.name) && (i.Value? ==> !IsAction(i.text))
    ensures ParseSsh(lex, Render(front) + [Text(k)] + rest, interactive).Failure?
  {
    hide Text, Lex, Dashed, Render, Fine, ParseFrom;
    var head := Render(front) + [Text(k)];
    RenderedHasNoAction(front);
    LexText(k);
    assert forall a :: a in head ==> !IsAction(a);
    hide IsAction;
    var all := head + rest;
    if ActionIndex(all).Some? {
      var r := ActionIndex(all).value;
      assert forall i :: 0 <= i < |head| ==> all[i] == head[i] && head[i] in head;
      var m := r - |head|;
      assert all[..r] == head + rest[..m];
      assert m > 0 ==> all[|head|] == rest[0] && rest[..m][0] == rest[0];
      ValueMissing(front, k, rest[..m], {OHost, OUser, OPort}, {}, NO_OPTIONS);
    }
  }

  lemma ControllerFails(lex: Lexicon, c: Command, front: seq<Item>, k: Keyword, rest: seq<string>, json: bool)
    requires c.ControllerSsh? && k in TextValues(c) && !NamesAction(k) && NoValue(c, rest)
    requires forall i :: i in front ==> Fine(i, TextValues(c), TextFlags(c)) && !Bad(c, i) && !NamesAction(i.name)
    ensures ParseCommand(lex, Words(lex, c) + (Render(front) + [Text(k)] + rest), json).Failure?
  {
    hide Text, Lex, Dashed, Render, ParseSsh, ParseCommand, IsAction;
    var arguments := Render(front) + [Text(k)] + rest;
    SshFails(lex, front, k, rest, !json);
    var all := Words(lex, c) + arguments;
    LexText(Ssh);
    assert all[0] == Text(Controller) && all[1] == Text(Ssh) && all[2..] == arguments;
    LongCommand(lex, all, Controller, json);
  }

  lemma BadTextFails(lex: Lexicon, c: Command, front: seq<Item>, k: Keyword, rest: seq<string>, json: bool)
    requires TakesText(c) && k in TextValues(c) && !NamesAction(k) && NoValue(c, rest)
    requires forall i :: i in front ==> Fine(i, TextValues(c), TextFlags(c)) && !Bad(c, i) && !NamesAction(i.name)
    ensures ParseCommand(lex, Words(lex, c) + (Render(front) + [Text(k)] + rest), json).Failure?
  {
    hide Words, Text, Render, ParseCommand, TextValues, TextFlags, NoValue, Fine, Bad;
    if c.ControllerSsh? {
      ControllerFails(lex, c, front, k, rest, json);
    } else {
      LaunchOrRemoveFails(lex, c, front, k, rest, json);
    }
  }

  /** What follows the options of a command: an SSH action and its own. */
  function Suffix(c: Command, actionItems: seq<Item>): seq<string> {
    if c.ControllerSsh? then [Text(ActionWord(c.action))] + Render(actionItems) else []
  }

  /** The spelled command is its front, the bad option's name, and the rest. */
  lemma SpellingAround(lex: Lexicon, c: Command, items: seq<Item>, actionItems: seq<Item>, j: nat)
    requires j < |items| && items[j].Value?
    ensures Spelling(lex, c, items, actionItems)
         == Words(lex, c) + (Render(items[..j]) + [Text(items[j].name)])
            + ([items[j].text] + (Render(items[j + 1..]) + Suffix(c, actionItems)))
  {
    hide Text, Words, Render;
    RenderAround(items, j);
    Reassociate(Words(lex, c), Render(items[..j]) + [Text(items[j].name)], [items[j].text], Render(items[j + 1..]),
                Suffix(c, actionItems));
  }

  lemma Reassociate<T>(a: seq<T>, b: seq<T>, c: seq<T>, d: seq<T>, e: seq<T>)
    ensures a + (b + (c + d)) + e == a + b + (c + (d + e))
  {
  }

  lemma StrippedFails(lex: Lexicon, words: seq<string>, front: seq<string>, tail: seq<string>, at: Option<nat>)
    requires Text(Json) !in words && Text(Json) !in front && (at.Some? ==> at.value <= |words + front + tail|)
    requires forall json :: ParseCommand(lex, words + (front + Plain(tail)), json).Failure?
    ensures ParseArgs(lex, WithJson(words + front + tail, at)).Failure?
  {
    hide Text, ParseCommand, Plain, Strip, WithJson, InBounds;
    var arguments := WithJson(words + front + tail, at);
    StripIsPlain(arguments, false);
    PlainIgnoresJson(words + front + tail, at);
    PlainAdd(words + front, tail);
    PlainAdd(words, front);
    PlainKeeps(words);
    PlainKeeps(front);
    Shift(words, front, Plain(tail));
  }

  /** Free text that looks like an option, or a host or user that is an action word, never parses. */
  lemma UnfreeTextFails(lex: Lexicon, c: Command, items: seq<Item>, actionItems: seq<Item>, at: Option<nat>)
    requires lex.Valid() && !TextIsFree(c) && Lists(items, OptionsOf(lex, c))
    requires at.Some? ==> at.value <= |Spelling(lex, c, items, actionItems)|
    ensures ParseArgs(lex, WithJson(Spelling(lex, c, items, actionItems), at)).Failure?
  {
    hide Spelling, Words, Text, Lex, Render, Lists, OptionsOf, ParseCommand, ParseArgs, NoValue, Fine, TextValues,
         TextFlags, InBounds, TextIsFree, Lexicon.Valid, Plain, WithJson, Dashed, ActionWord, TakesText;
    var j := BadIsListed(lex, c, items);
    var suffix := Suffix(c, actionItems);
    FrontIsPlain(lex, c, items, j);
    WordsHaveNoJson(lex, c);
    SpellingAround(lex, c, items, actionItems, j);
    SuffixStarts(c, actionItems);
    NothingServesAsValue(lex, c, items, j, suffix);
    hide Bad, IsAction, Suffix;
    var front, tail := Render(items[..j]) + [Text(items[j].name)], [items[j].text] + (Render(items[j + 1..]) + suffix);
    forall json ensures ParseCommand(lex, Words(lex, c) + (front + Plain(tail)), json).Failure? {
      BadTextFails(lex, c, items[..j], items[j].name, Plain(tail), json);
    }
    StrippedFails(lex, Words(lex, c), front, tail, at);
  }

  lemma SuffixStarts(c: Command, actionItems: seq<Item>)
    ensures Suffix(c, actionItems) == [] || (c.ControllerSsh? && IsAction(Suffix(c, actionItems)[0]))
  {
    hide Text, Lex;
    if c.ControllerSsh? { LexText(ActionWord(c.action)); }
  }

  /** A command in range comes back exactly when its free text is free and its arguments are within the limits. */
  lemma RoundTripIff(lex: Lexicon, c: Command, items: seq<Item>, actionItems: seq<Item>, at: Option<nat>)
    requires lex.Valid() && InRange(lex, c) && Lists(items, OptionsOf(lex, c))
    requires c.ControllerSsh? ==> Lists(actionItems, ActionOptions(lex, c.action)) && c.allowInteraction == at.None?
    requires at.Some? ==> at.value <= |Spelling(lex, c, items, actionItems)|
    ensures var arguments := WithJson(Spelling(lex, c, items, actionItems), at);
            ParseArgs(lex, arguments) == Success(Invocation(at.Some?, c)) <==> InBounds(arguments) && TextIsFree(c)
  {
    hide ParseArgs, Spelling, WithJson, InBounds, Lists, InRange, TextIsFree;
    if TextIsFree(c) {
      RoundTrip(lex, c, items, actionItems, at);
    } else {
      UnfreeTextFails(lex, c, items, actionItems, at);
    }
  }
}
