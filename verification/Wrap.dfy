/**
 Line wrapping by display width (crates/multiplex-cli/src/render.rs). Which characters are white space and how
 many terminal cells each takes come from Unicode tables; here they are a parameter.
 */
module Wrap {
  import opened Wrappers

  datatype Alphabet = Alphabet(cells: char -> nat, white: char -> bool) {
    predicate Valid() { white(' ') && cells(' ') == 1 }
  }

  function Cells(a: Alphabet, s: string): nat { if s == [] then 0 else a.cells(s[0]) + Cells(a, s[1..]) }

  /** The characters that are not white space, in order. */
  function Solid(a: Alphabet, s: string): string {
    if s == [] then [] else (if a.white(s[0]) then [] else [s[0]]) + Solid(a, s[1..])
  }

  function Joined(lines: seq<string>): string { if lines == [] then [] else lines[0] + Joined(lines[1..]) }

  function Repeated(c: char, n: nat): string { seq(n, _ => c) }

  function Spaces(n: nat): string { Repeated(' ', n) }

  lemma {:induction false} CellsAdd(a: Alphabet, s: string, t: string)
    ensures Cells(a, s + t) == Cells(a, s) + Cells(a, t)
    decreases |s|
  {
    if s == [] {
      assert s + t == t;
    } else {
      assert (s + t)[1..] == s[1..] + t;
      CellsAdd(a, s[1..], t);
    }
  }

  lemma {:induction false} SolidAdd(a: Alphabet, s: string, t: string)
    ensures Solid(a, s + t) == Solid(a, s) + Solid(a, t)
    decreases |s|
  {
    if s == [] {
      assert s + t == t;
    } else {
      assert (s + t)[1..] == s[1..] + t;
      SolidAdd(a, s[1..], t);
    }
  }

  lemma {:induction false} JoinedAdd(s: seq<string>, t: seq<string>)
    ensures Joined(s + t) == Joined(s) + Joined(t)
    decreases |s|
  {
    if s == [] {
      assert s + t == t;
    } else {
      assert (s + t)[1..] == s[1..] + t;
      JoinedAdd(s[1..], t);
    }
  }

  lemma {:induction false} SpacesAreBlank(a: Alphabet, n: nat)
    requires a.Valid()
    ensures Solid(a, Spaces(n)) == [] && Cells(a, Spaces(n)) == n
    decreases n
  {
    if n > 0 {
      assert Spaces(n)[1..] == Spaces(n - 1);
      SpacesAreBlank(a, n - 1);
    }
  }

  // ---- words ----

  function Leading(a: Alphabet, s: string, white: bool): (n: nat)
    ensures n <= |s|
    ensures n < |s| ==> a.white(s[n]) != white
    ensures forall i :: 0 <= i < n ==> a.white(s[i]) == white
  {
    if s == [] || a.white(s[0]) != white then 0
    else
      var rest := Leading(a, s[1..], white);
      assert forall i :: 0 < i < 1 + rest ==> s[i] == s[1..][i - 1];
      1 + rest
  }

  /** The maximal runs of characters that are not white space. */
  function Words(a: Alphabet, s: string): seq<string>
    decreases |s|
  {
    if s == [] then []
    else if a.white(s[0]) then Words(a, s[1..])
    else
      var n := Leading(a, s, false);
      [s[..n]] + Words(a, s[n..])
  }

  lemma {:induction false} WordsKeepSolid(a: Alphabet, s: string)
    ensures Solid(a, Joined(Words(a, s))) == Solid(a, s)
    ensures forall w :: w in Words(a, s) ==> w != [] && !a.white(w[0])
    decreases |s|
  {
    if s != [] {
      if a.white(s[0]) {
        WordsKeepSolid(a, s[1..]);
      } else {
        var n := Leading(a, s, false);
        WordsKeepSolid(a, s[n..]);
        assert s == s[..n] + s[n..];
        SolidAdd(a, s[..n], s[n..]);
        SolidAdd(a, s[..n], Joined(Words(a, s[n..])));
        assert Words(a, s)[1..] == Words(a, s[n..]);
      }
    }
  }

  // ---- breaking a line that is too wide character by character ----

  function HardWrapFrom(a: Alphabet, current: string, rest: string, width: nat, continuation: string): seq<string>
    decreases |rest|
  {
    if rest == [] then if current == [] then [] else [current]
    else if Cells(a, current) + a.cells(rest[0]) > width && current != [] then
      [current] + HardWrapFrom(a, continuation + [rest[0]], rest[1..], width, continuation)
    else HardWrapFrom(a, current + [rest[0]], rest[1..], width, continuation)
  }

  function HardWrap(a: Alphabet, line: string, width: nat, continuation: string): seq<string> {
    if Cells(a, line) <= width then [line] else HardWrapFrom(a, [], line, width, continuation)
  }

  lemma SolidOfFirst(a: Alphabet, first: string, lines: seq<string>)
    ensures Solid(a, Joined([first] + lines)) == Solid(a, first) + Solid(a, Joined(lines))
  {
    assert ([first] + lines)[1..] == lines;
    SolidAdd(a, first, Joined(lines));
  }

  lemma SolidOfNothing(a: Alphabet)
    ensures Solid(a, []) == [] && Joined([]) == []
  {
  }

  lemma {:induction false} HardWrapFromKeepsSolid(a: Alphabet, current: string, rest: string, width: nat,
      continuation: string)
    requires Solid(a, continuation) == []
    ensures Solid(a, Joined(HardWrapFrom(a, current, rest, width, continuation))) == Solid(a, current) + Solid(a, rest)
    decreases |rest|
  {
    hide Solid, Joined, Cells;
    if rest == [] {
      SolidOfFirst(a, current, []);
      SolidOfNothing(a);
      assert [current] + [] == [current];
    } else {
      var c := [rest[0]];
      assert rest == c + rest[1..];
      SolidAdd(a, c, rest[1..]);
      if Cells(a, current) + a.cells(rest[0]) > width && current != [] {
        HardWrapFromKeepsSolid(a, continuation + c, rest[1..], width, continuation);
        SolidAdd(a, continuation, c);
        SolidOfFirst(a, current, HardWrapFrom(a, continuation + c, rest[1..], width, continuation));
      } else {
        HardWrapFromKeepsSolid(a, current + c, rest[1..], width, continuation);
        SolidAdd(a, current, c);
        assert (Solid(a, current) + Solid(a, c)) + Solid(a, rest[1..])
            == Solid(a, current) + (Solid(a, c) + Solid(a, rest[1..]));
      }
    }
  }

  ghost predicate Fit(a: Alphabet, lines: seq<string>, width: nat) {
    forall i :: 0 <= i < |lines| ==> Cells(a, lines[i]) <= width
  }

  /** No character of the line takes more than `most` cells. */
  ghost predicate NoWider(a: Alphabet, s: string, most: nat) { forall i :: 0 <= i < |s| ==> a.cells(s[i]) <= most }

  lemma {:induction false} HardWrapFromFits(a: Alphabet, current: string, rest: string, width: nat,
      continuation: string, most: nat)
    requires NoWider(a, rest, most) && Cells(a, current) <= width && Cells(a, continuation) + most <= width
    ensures Fit(a, HardWrapFrom(a, current, rest, width, continuation), width)
    decreases |rest|
  {
    if rest != [] {
      var c := [rest[0]];
      assert NoWider(a, rest[1..], most);
      assert Cells(a, c) == a.cells(rest[0]);
      if Cells(a, current) + a.cells(rest[0]) > width && current != [] {
        CellsAdd(a, continuation, c);
        HardWrapFromFits(a, continuation + c, rest[1..], width, continuation, most);
      } else {
        CellsAdd(a, current, c);
        HardWrapFromFits(a, current + c, rest[1..], width, continuation, most);
      }
    }
  }

  method HardWrapLine(a: Alphabet, line: string, width: nat, continuation: string) returns (lines: seq<string>)
    ensures lines == HardWrap(a, line, width, continuation)
  {
    if Cells(a, line) <= width { return [line]; }
    lines := [];
    var current: string := [];
    var currentWidth := 0;
    for i := 0 to |line|
      invariant currentWidth == Cells(a, current)
      invariant HardWrap(a, line, width, continuation)
          == lines + HardWrapFrom(a, current, line[i..], width, continuation)
    {
      var c := line[i];
      assert line[i..][1..] == line[i + 1..];
      if currentWidth + a.cells(c) > width && current != [] {
        lines := lines + [current];
        current := continuation;
        currentWidth := Cells(a, current);
      }
      CellsAdd(a, current, [c]);
      assert Cells(a, [c]) == a.cells(c);
      current := current + [c];
      currentWidth := currentWidth + a.cells(c);
    }
    if current != [] { lines := lines + [current]; }
  }

  // ---- filling lines with words ----

  function Spaced(s: string): string { if s != [] && s[|s| - 1] != ' ' then s + [' '] else s }

  function Overflows(a: Alphabet, current: string, word: string, width: nat): bool {
    current != [] && Cells(a, current) + 1 + Cells(a, word) > width
  }

  function FillFrom(a: Alphabet, current: string, words: seq<string>, width: nat, continuation: string): seq<string>
    decreases |words|
  {
    if words == [] then if current == [] then [] else [current]
    else if Overflows(a, current, words[0], width) then
      [current] + FillFrom(a, Spaced(continuation) + words[0], words[1..], width, continuation)
    else FillFrom(a, Spaced(current) + words[0], words[1..], width, continuation)
  }

  lemma SpacedWord(a: Alphabet, s: string, word: string)
    requires a.Valid()
    ensures Solid(a, Spaced(s) + word) == Solid(a, s) + Solid(a, word)
  {
    SolidAdd(a, s, [' ']);
    SolidAdd(a, Spaced(s), word);
  }

  lemma {:induction false} FillFromKeepsSolid(a: Alphabet, current: string, words: seq<string>, width: nat,
      continuation: string)
    requires a.Valid() && Solid(a, continuation) == []
    ensures Solid(a, Joined(FillFrom(a, current, words, width, continuation)))
        == Solid(a, current) + Solid(a, Joined(words))
    decreases |words|
  {
    hide Overflows, Spaced, Solid, Joined;
    if words == [] {
      SolidOfFirst(a, current, []);
      SolidOfNothing(a);
      assert [current] + [] == [current];
    } else {
      SolidOfFirst(a, words[0], words[1..]);
      assert words == [words[0]] + words[1..];
      if Overflows(a, current, words[0], width) {
        SpacedWord(a, continuation, words[0]);
        FillFromKeepsSolid(a, Spaced(continuation) + words[0], words[1..], width, continuation);
        SolidOfFirst(a, current, FillFrom(a, Spaced(continuation) + words[0], words[1..], width, continuation));
      } else {
        SpacedWord(a, current, words[0]);
        FillFromKeepsSolid(a, Spaced(current) + words[0], words[1..], width, continuation);
        assert (Solid(a, current) + Solid(a, words[0])) + Solid(a, Joined(words[1..]))
            == Solid(a, current) + (Solid(a, words[0]) + Solid(a, Joined(words[1..])));
      }
    }
  }

  /** The continuation indent: the line's own indent in characters, capped one below the width. */
  function Indent(a: Alphabet, line: string, width: nat): nat {
    Min(Leading(a, line, true), if width == 0 then 0 else width - 1)
  }

  function HardWrapAll(a: Alphabet, lines: seq<string>, width: nat, continuation: string): seq<string> {
    if lines == [] then []
    else HardWrap(a, lines[0], width, continuation) + HardWrapAll(a, lines[1..], width, continuation)
  }

  predicate Blank(a: Alphabet, line: string) { Leading(a, line, true) == |line| }

  function Wrapped(a: Alphabet, line: string, width: nat): seq<string> {
    if Cells(a, line) <= width || Blank(a, line) then [line]
    else
      var continuation := Spaces(Indent(a, line, width));
      HardWrapAll(a, FillFrom(a, [], Words(a, line), width, continuation), width, continuation)
  }

  lemma {:induction false} HardWrapAllKeepsSolid(a: Alphabet, lines: seq<string>, width: nat, continuation: string)
    requires Solid(a, continuation) == []
    ensures Solid(a, Joined(HardWrapAll(a, lines, width, continuation))) == Solid(a, Joined(lines))
    decreases |lines|
  {
    if lines != [] {
      var first, tail := HardWrap(a, lines[0], width, continuation), HardWrapAll(a, lines[1..], width, continuation);
      HardWrapFromKeepsSolid(a, [], lines[0], width, continuation);
      assert Joined([lines[0]]) == lines[0];
      assert Solid(a, Joined(first)) == Solid(a, lines[0]);
      hide HardWrap, Solid;
      HardWrapAllKeepsSolid(a, lines[1..], width, continuation);
      JoinedAdd(first, tail);
      SolidAdd(a, Joined(first), Joined(tail));
      SolidAdd(a, lines[0], Joined(lines[1..]));
    }
  }

  /** Wrapping at any width, zero included, loses, adds and reorders nothing but white space. */
  lemma WrappingKeepsText(a: Alphabet, line: string, width: nat)
    requires a.Valid()
    ensures Solid(a, Joined(Wrapped(a, line, width))) == Solid(a, line)
  {
    if Cells(a, line) <= width || Blank(a, line) {
      assert Joined([line]) == line;
    } else {
      var continuation := Spaces(Indent(a, line, width));
      SpacesAreBlank(a, Indent(a, line, width));
      HardWrapAllKeepsSolid(a, FillFrom(a, [], Words(a, line), width, continuation), width, continuation);
      FillFromKeepsSolid(a, [], Words(a, line), width, continuation);
      WordsKeepSolid(a, line);
    }
  }

  ghost predicate AllNoWider(a: Alphabet, lines: seq<string>, most: nat) {
    forall i :: 0 <= i < |lines| ==> NoWider(a, lines[i], most)
  }

  lemma {:induction false} HardWrapAllFits(a: Alphabet, lines: seq<string>, width: nat, continuation: string, most: nat)
    requires AllNoWider(a, lines, most)
    requires Cells(a, continuation) + most <= width
    ensures Fit(a, HardWrapAll(a, lines, width, continuation), width)
    decreases |lines|
  {
    if lines != [] {
      HardWrapAllFits(a, lines[1..], width, continuation, most);
      HardWrapFromFits(a, [], lines[0], width, continuation, most);
    }
  }

  lemma {:induction false} FillFromNoWider(a: Alphabet, current: string, words: seq<string>, width: nat,
      continuation: string, most: nat)
    requires a.Valid() && most >= 1
    requires NoWider(a, current, most) && NoWider(a, continuation, most)
    requires AllNoWider(a, words, most)
    ensures AllNoWider(a, FillFrom(a, current, words, width, continuation), most)
    decreases |words|
  {
    if words != [] {
      assert NoWider(a, words[0], most);
      hide Overflows, Cells;
      if Overflows(a, current, words[0], width) {
        var tail := FillFrom(a, Spaced(continuation) + words[0], words[1..], width, continuation);
        FillFromNoWider(a, Spaced(continuation) + words[0], words[1..], width, continuation, most);
        assert AllNoWider(a, [current] + tail, most);
      } else {
        FillFromNoWider(a, Spaced(current) + words[0], words[1..], width, continuation, most);
      }
    }
  }

  lemma {:induction false} WordsNoWider(a: Alphabet, s: string, most: nat)
    requires NoWider(a, s, most)
    ensures AllNoWider(a, Words(a, s), most)
    decreases |s|
  {
    if s != [] {
      if a.white(s[0]) {
        WordsNoWider(a, s[1..], most);
      } else {
        WordsNoWider(a, s[Leading(a, s, false)..], most);
      }
    }
  }

  /**
   Every line fits whenever the continuation indent leaves room for the widest character: two cells in general,
   one when the line has no wide character.
   */
  lemma WrappedFits(a: Alphabet, line: string, width: nat, most: nat)
    requires a.Valid() && NoWider(a, line, most) && most >= 1
    requires Indent(a, line, width) + most <= width
    ensures Blank(a, line) || Fit(a, Wrapped(a, line, width), width)
  {
    if Cells(a, line) > width && !Blank(a, line) {
      var continuation := Spaces(Indent(a, line, width));
      SpacesAreBlank(a, Indent(a, line, width));
      WordsNoWider(a, line, most);
      FillFromNoWider(a, [], Words(a, line), width, continuation, most);
      HardWrapAllFits(a, FillFrom(a, [], Words(a, line), width, continuation), width, continuation, most);
    }
  }

  // ---- words stay whole ----

  lemma {:induction false} FillFromFits(a: Alphabet, current: string, words: seq<string>, width: nat,
      continuation: string)
    requires a.Valid() && Cells(a, current) <= width
    requires forall i :: 0 <= i < |words| ==> Cells(a, Spaced(continuation)) + Cells(a, words[i]) <= width
    ensures Fit(a, FillFrom(a, current, words, width, continuation), width)
    decreases |words|
  {
    if words != [] {
      if Overflows(a, current, words[0], width) {
        CellsAdd(a, Spaced(continuation), words[0]);
        FillFromFits(a, Spaced(continuation) + words[0], words[1..], width, continuation);
      } else {
        CellsAdd(a, current, [' ']);
        CellsAdd(a, Spaced(current), words[0]);
        assert Cells(a, [' ']) == 1;
        FillFromFits(a, Spaced(current) + words[0], words[1..], width, continuation);
      }
    }
  }

  lemma {:induction false} HardWrapAllLeavesFitting(a: Alphabet, lines: seq<string>, width: nat, continuation: string)
    requires Fit(a, lines, width)
    ensures HardWrapAll(a, lines, width, continuation) == lines
    decreases |lines|
  {
    if lines != [] {
      HardWrapAllLeavesFitting(a, lines[1..], width, continuation);
    }
  }

  // ---- what the words of a line become ----

  predicate AllWhite(a: Alphabet, s: string) { forall i :: 0 <= i < |s| ==> a.white(s[i]) }

  predicate NoneWhite(a: Alphabet, s: string) { forall i :: 0 <= i < |s| ==> !a.white(s[i]) }

  /** The gaps and the words between them, one after the other. */
  function Woven(gaps: seq<string>, words: seq<string>): string
    requires |gaps| == |words| + 1
    decreases |words|
  {
    gaps[0] + if words == [] then [] else words[0] + Woven(gaps[1..], words[1..])
  }

  /** Such a division of a text into words and the white space around them; between two words there is some. */
  ghost predicate Divides(a: Alphabet, s: string, gaps: seq<string>, words: seq<string>) {
    && |gaps| == |words| + 1 && s == Woven(gaps, words)
    && (forall i :: 0 <= i < |gaps| ==> AllWhite(a, gaps[i]))
    && (forall i :: 0 < i < |words| ==> gaps[i] != [])
    && (forall i :: 0 <= i < |words| ==> words[i] != [] && NoneWhite(a, words[i]))
  }

  lemma DivideNothing(a: Alphabet)
    ensures Divides(a, [], [[]], [])
  {
  }

  lemma DivideAfterWhite(a: Alphabet, c: char, s: string, gaps: seq<string>, words: seq<string>)
    requires Divides(a, s, gaps, words) && a.white(c)
    ensures Divides(a, [c] + s, [[c] + gaps[0]] + gaps[1..], words)
  {
    WovenPrefix([c], gaps, words);
  }

  lemma DivideAfterWord(a: Alphabet, w: string, s: string, gaps: seq<string>, words: seq<string>)
    requires Divides(a, s, gaps, words) && w != [] && NoneWhite(a, w) && (s == [] || a.white(s[0]))
    ensures Divides(a, w + s, [[]] + gaps, [w] + words)
  {
    assert ([[]] + gaps)[1..] == gaps && ([w] + words)[1..] == words;
    assert Woven([[]] + gaps, [w] + words) == w + s;
    if words != [] { WovenStarts(gaps, words); }
  }

  /** The words are the maximal runs: they divide the text, and white space stands between any two. */
  lemma {:induction false} WordsDivide(a: Alphabet, s: string) returns (gaps: seq<string>)
    ensures |gaps| == |Words(a, s)| + 1 && Divides(a, s, gaps, Words(a, s))
    decreases |s|
  {
    hide Divides;
    if s == [] {
      gaps := [[]];
      DivideNothing(a);
    } else if a.white(s[0]) {
      var rest := WordsDivide(a, s[1..]);
      DivideAfterWhite(a, s[0], s[1..], rest, Words(a, s[1..]));
      gaps := [[s[0]] + rest[0]] + rest[1..];
      assert s == [s[0]] + s[1..];
    } else {
      var n := Leading(a, s, false);
      var rest := WordsDivide(a, s[n..]);
      DivideAfterWord(a, s[..n], s[n..], rest, Words(a, s[n..]));
      gaps := [[]] + rest;
      assert s == s[..n] + s[n..];
    }
  }

  lemma Regrouped<T>(r: seq<T>, s: seq<T>, t: seq<T>)
    ensures (r + s) + t == r + (s + t)
  {
  }

  lemma WovenPrefix(first: string, gaps: seq<string>, words: seq<string>)
    requires |gaps| == |words| + 1
    ensures Woven([first + gaps[0]] + gaps[1..], words) == first + Woven(gaps, words)
  {
    assert ([first + gaps[0]] + gaps[1..])[1..] == gaps[1..];
    Regrouped(first, gaps[0], if words == [] then [] else words[0] + Woven(gaps[1..], words[1..]));
  }

  lemma WovenStarts(gaps: seq<string>, words: seq<string>)
    requires |gaps| == |words| + 1 && words != [] && words[0] != []
    ensures Woven(gaps, words) != []
    ensures Woven(gaps, words)[0] == if gaps[0] == [] then words[0][0] else gaps[0][0]
  {
  }

  // ---- which words share a line ----

  /** The words of a line, one space apart. */
  function Spread(words: seq<string>): string
    decreases |words|
  {
    if words == [] then []
    else if |words| == 1 then words[0]
    else Spread(words[..|words| - 1]) + [' '] + words[|words| - 1]
  }

  function Flat<T>(groups: seq<seq<T>>): seq<T> { if groups == [] then [] else groups[0] + Flat(groups[1..]) }

  ghost predicate Proper(a: Alphabet, words: seq<string>) {
    forall i :: 0 <= i < |words| ==> words[i] != [] && NoneWhite(a, words[i])
  }

  /** Line i stands behind nothing if it is the first, behind the continuation otherwise. */
  function Before(first: string, continuation: string, i: int): string { if i == 0 then first else continuation }

  /**
   The lines hold these groups of words, one space apart behind the continuation, and greedily: the first word of the
   next line would not have fitted on any but the last.
   */
  ghost predicate Filled(a: Alphabet, lines: seq<string>, groups: seq<seq<string>>, width: nat, first: string,
                         continuation: string) {
    && |lines| == |groups|
    && (forall i :: 0 <= i < |groups| ==>
          groups[i] != [] && lines[i] == Before(first, continuation, i) + Spread(groups[i]))
    && (forall i :: 0 <= i < |groups| - 1 ==>
          groups[i + 1] != [] && Cells(a, lines[i]) + 1 + Cells(a, groups[i + 1][0]) > width)
  }

  lemma {:induction false} SpreadEnds(a: Alphabet, words: seq<string>)
    requires a.Valid() && words != [] && Proper(a, words)
    ensures Spread(words) != [] && Spread(words)[|Spread(words)| - 1] != ' '
    decreases |words|
  {
    var last := words[|words| - 1];
    assert !a.white(last[|last| - 1]);
    if |words| > 1 {
      assert Spread(words)[|Spread(words)| - 1] == last[|last| - 1];
    }
  }

  lemma SpreadSnoc(words: seq<string>, word: string)
    requires words != []
    ensures Spread(words + [word]) == Spread(words) + [' '] + word
  {
    assert (words + [word])[..|words|] == words;
  }

  lemma FilledCons(a: Alphabet, line: string, lines: seq<string>, group: seq<string>, groups: seq<seq<string>>,
                   width: nat, first: string, continuation: string)
    requires Filled(a, lines, groups, width, continuation, continuation) && groups != [] && group != []
    requires line == first + Spread(group) && Cells(a, line) + 1 + Cells(a, groups[0][0]) > width
    ensures Filled(a, [line] + lines, [group] + groups, width, first, continuation)
  {
    hide Spread, Cells;
    var all, rows := [group] + groups, [line] + lines;
    forall i | 0 < i < |all| ensures all[i] == groups[i - 1] && rows[i] == lines[i - 1] {}
  }

  lemma {:induction false} FillFromFills(a: Alphabet, first: string, now: seq<string>, words: seq<string>, width: nat,
                                         indent: nat) returns (groups: seq<seq<string>>)
    requires a.Valid() && now != [] && Proper(a, now) && Proper(a, words)
    ensures groups != [] && Flat(groups) == now + words && now <= groups[0]
    ensures Filled(a, FillFrom(a, first + Spread(now), words, width, Spaces(indent)), groups, width, first,
                   Spaces(indent))
    decreases |words|
  {
    var continuation, current := Spaces(indent), first + Spread(now);
    SpreadEnds(a, now);
    hide Cells, Spread, Filled, Spaced, Spaces;
    if words == [] {
      groups := [now];
      FilledOnce(a, current, now, width, first, continuation);
    } else {
      var word, rest := words[0], words[1..];
      assert words == [word] + rest;
      assert Proper(a, [word]) && Proper(a, rest) && Proper(a, now + [word]);
      if Overflows(a, current, word, width) {
        NextRow(indent, word);
        var tail := FillFromFills(a, continuation, [word], rest, width, indent);
        groups := [now] + tail;
        assert groups[1..] == tail;
        FilledCons(a, current, FillFrom(a, continuation + Spread([word]), rest, width, continuation), now, tail, width,
                   first, continuation);
      } else {
        NextWord(a, first, now, word);
        groups := FillFromFills(a, first, now + [word], rest, width, indent);
        Regrouped(now, [word], rest);
      }
    }
  }

  /** A word that fits goes one space behind the row. */
  lemma NextWord(a: Alphabet, first: string, now: seq<string>, word: string)
    requires a.Valid() && now != [] && Proper(a, now)
    ensures Spaced(first + Spread(now)) + word == first + Spread(now + [word])
  {
    SpreadEnds(a, now);
    SpreadSnoc(now, word);
    hide Spread;
    assert Spaced(first + Spread(now)) == (first + Spread(now)) + [' '];
    Regrouped(first, Spread(now), [' ']);
    Regrouped(first, Spread(now) + [' '], word);
  }

  /** One that does not starts the next row. */
  lemma NextRow(indent: nat, word: string)
    ensures Spaced(Spaces(indent)) + word == Spaces(indent) + Spread([word])
  {
    assert Spaced(Spaces(indent)) == Spaces(indent);
  }

  lemma SpreadOne(word: string)
    ensures Spread([word]) == word
  {
  }

  lemma FilledOnce(a: Alphabet, line: string, group: seq<string>, width: nat, first: string, continuation: string)
    requires group != [] && line == first + Spread(group)
    ensures Filled(a, [line], [group], width, first, continuation) && Flat([group]) == group
  {
  }

  lemma WordsAreProper(a: Alphabet, line: string)
    ensures Proper(a, Words(a, line))
  {
    var gaps := WordsDivide(a, line);
  }

  /** Filling from nothing: the words in order, greedily. */
  lemma FillIsGreedy(a: Alphabet, words: seq<string>, width: nat, indent: nat) returns (groups: seq<seq<string>>)
    requires a.Valid() && words != [] && Proper(a, words)
    ensures Flat(groups) == words
    ensures Filled(a, FillFrom(a, [], words, width, Spaces(indent)), groups, width, [], Spaces(indent))
  {
    assert Proper(a, [words[0]]) && Proper(a, words[1..]);
    groups := FillFromFills(a, [], [words[0]], words[1..], width, indent);
    SpreadOne(words[0]);
    assert [words[0]] + words[1..] == words;
    assert Spaced([]) + words[0] == words[0] && [] + words[0] == words[0];
  }

  // ---- which characters share a line, when a row must be broken ----

  ghost predicate Broken(a: Alphabet, lines: seq<string>, pieces: seq<string>, width: nat, first: string,
                         continuation: string) {
    && |lines| == |pieces|
    && (forall i :: 0 <= i < |pieces| ==> pieces[i] != [] && lines[i] == Before(first, continuation, i) + pieces[i])
    && (forall i :: 0 <= i < |pieces| - 1 ==>
          pieces[i + 1] != [] && Cells(a, lines[i]) + a.cells(pieces[i + 1][0]) > width)
  }

  lemma BrokenCons(a: Alphabet, line: string, lines: seq<string>, piece: string, pieces: seq<string>, width: nat,
                   first: string, continuation: string)
    requires Broken(a, lines, pieces, width, continuation, continuation) && pieces != [] && piece != []
    requires line == first + piece && Cells(a, line) + a.cells(pieces[0][0]) > width
    ensures Broken(a, [line] + lines, [piece] + pieces, width, first, continuation)
  {
    hide Cells;
    var all, rows := [piece] + pieces, [line] + lines;
    forall i | 0 < i < |all| ensures all[i] == pieces[i - 1] && rows[i] == lines[i - 1] {}
  }

  lemma {:induction false} HardWrapFromBreaks(a: Alphabet, first: string, now: string, rest: string, width: nat,
                                              continuation: string) returns (pieces: seq<string>)
    requires now != []
    ensures pieces != [] && Joined(pieces) == now + rest && now <= pieces[0]
    ensures Broken(a, HardWrapFrom(a, first + now, rest, width, continuation), pieces, width, first, continuation)
    decreases |rest|
  {
    hide Cells;
    if rest == [] {
      pieces := [now];
    } else {
      var c := [rest[0]];
      assert rest == c + rest[1..];
      if Cells(a, first + now) + a.cells(rest[0]) > width {
        var tail := HardWrapFromBreaks(a, continuation, c, rest[1..], width, continuation);
        pieces := [now] + tail;
        assert pieces[1..] == tail;
        hide Broken;
        BrokenCons(a, first + now, HardWrapFrom(a, continuation + c, rest[1..], width, continuation), now, tail, width,
                   first, continuation);
      } else {
        hide Broken;
        Regrouped(first, now, c);
        Regrouped(now, c, rest[1..]);
        pieces := HardWrapFromBreaks(a, first, now + c, rest[1..], width, continuation);
      }
    }
  }

  /** A row that is too wide is broken between characters, as late as the width allows. */
  lemma HardWrapIsGreedy(a: Alphabet, row: string, width: nat, continuation: string) returns (pieces: seq<string>)
    requires Cells(a, row) > width
    ensures Joined(pieces) == row && Broken(a, HardWrap(a, row, width, continuation), pieces, width, [], continuation)
  {
    pieces := HardWrapFromBreaks(a, [], [row[0]], row[1..], width, continuation);
    assert [row[0]] + row[1..] == row && [] + [row[0]] == [row[0]];
  }

  // ---- the whole rule ----

  /** A row as it comes out: as it is if it fits, broken greedily otherwise. */
  ghost predicate RowBecomes(a: Alphabet, row: string, lines: seq<string>, width: nat, continuation: string) {
    if Cells(a, row) <= width then lines == [row]
    else exists pieces :: Joined(pieces) == row && Broken(a, lines, pieces, width, [], continuation)
  }

  lemma {:induction false} RowsBecome(a: Alphabet, rows: seq<string>, width: nat, continuation: string)
    returns (broken: seq<seq<string>>)
    ensures |broken| == |rows| && HardWrapAll(a, rows, width, continuation) == Flat(broken)
    ensures forall i :: 0 <= i < |rows| ==> RowBecomes(a, rows[i], broken[i], width, continuation)
    decreases |rows|
  {
    hide Broken, Joined, Cells;
    if rows == [] {
      broken := [];
    } else {
      var lines := HardWrap(a, rows[0], width, continuation);
      if Cells(a, rows[0]) > width { var pieces := HardWrapIsGreedy(a, rows[0], width, continuation); }
      var rest := RowsBecome(a, rows[1..], width, continuation);
      broken := [lines] + rest;
      assert broken[1..] == rest;
    }
  }

  /** The indent is the line's own number of leading white characters, but stays below the width. */
  predicate Behind(a: Alphabet, line: string, width: nat, indent: nat) {
    var own := Leading(a, line, true);
    if own < width then indent == own else if width == 0 then indent == 0 else indent == width - 1
  }

  /**
   What wrapping does. A line that fits, or is blank, stays. Otherwise its words, in order, fill rows greedily, one
   space apart, all rows but the first behind an indent as deep as the line's own but less than the width; and each row
   comes out as it is if it fits, or broken greedily between characters.
   */
  lemma WrappingIsGreedy(a: Alphabet, line: string, width: nat, indent: nat)
    returns (groups: seq<seq<string>>, rows: seq<string>, broken: seq<seq<string>>)
    requires a.Valid()
    requires Behind(a, line, width, indent)
    ensures Cells(a, line) <= width || Blank(a, line) ==> Wrapped(a, line, width) == [line]
    ensures Cells(a, line) > width && !Blank(a, line) ==>
              && Flat(groups) == Words(a, line) && Filled(a, rows, groups, width, [], Spaces(indent))
              && |broken| == |rows| && Wrapped(a, line, width) == Flat(broken)
              && forall i :: 0 <= i < |rows| ==> RowBecomes(a, rows[i], broken[i], width, Spaces(indent))
  {
    groups, rows, broken := [], [], [];
    if Cells(a, line) > width && !Blank(a, line) {
      FirstWord(a, line);
      WordsAreProper(a, line);
      hide Cells, Filled, RowBecomes, Blank, Words;
      groups := FillIsGreedy(a, Words(a, line), width, indent);
      rows := FillFrom(a, [], Words(a, line), width, Spaces(indent));
      broken := RowsBecome(a, rows, width, Spaces(indent));
    }
  }

  /** If every word fits behind the indent no word is broken: the lines are the rows of words, and every one fits. */
  lemma WordsStayWhole(a: Alphabet, line: string, width: nat, indent: nat) returns (groups: seq<seq<string>>)
    requires a.Valid() && Cells(a, line) > width && !Blank(a, line)
    requires Behind(a, line, width, indent)
    requires forall i :: 0 <= i < |Words(a, line)| ==> indent + Cells(a, Words(a, line)[i]) <= width
    ensures Flat(groups) == Words(a, line) && Filled(a, Wrapped(a, line, width), groups, width, [], Spaces(indent))
    ensures Fit(a, Wrapped(a, line, width), width)
  {
    FirstWord(a, line);
    WordsAreProper(a, line);
    SpacesAreBlank(a, indent);
    assert Spaced(Spaces(indent)) == Spaces(indent);
    FillFromFits(a, [], Words(a, line), width, Spaces(indent));
    HardWrapAllLeavesFitting(a, FillFrom(a, [], Words(a, line), width, Spaces(indent)), width, Spaces(indent));
    groups := FillIsGreedy(a, Words(a, line), width, indent);
  }

  // ---- what the rule does not give ----

  lemma {:induction false} HardWrapFromStarts(a: Alphabet, current: string, rest: string, width: nat,
      continuation: string)
    requires current != []
    ensures var lines := HardWrapFrom(a, current, rest, width, continuation);
            lines != [] && current <= lines[0]
    ensures Cells(a, HardWrapFrom(a, current, rest, width, continuation)[0]) >= Cells(a, current)
    decreases |rest|
  {
    if rest != [] && Cells(a, current) + a.cells(rest[0]) <= width {
      CellsAdd(a, current, [rest[0]]);
      HardWrapFromStarts(a, current + [rest[0]], rest[1..], width, continuation);
    }
  }

  lemma {:induction false} FillFromStarts(a: Alphabet, current: string, words: seq<string>, width: nat,
      continuation: string)
    requires current != []
    ensures var lines := FillFrom(a, current, words, width, continuation);
            lines != [] && current <= lines[0]
    decreases |words|
  {
    if words != [] && !Overflows(a, current, words[0], width) {
      FillFromStarts(a, Spaced(current) + words[0], words[1..], width, continuation);
    }
  }

  lemma {:induction false} FirstWord(a: Alphabet, s: string)
    requires !Blank(a, s)
    ensures Words(a, s) != [] && Words(a, s)[0] != [] && Words(a, s)[0][0] == s[Leading(a, s, true)]
    decreases |s|
  {
    if a.white(s[0]) { FirstWord(a, s[1..]); }
  }

  /** A line that is wrapped loses its own indent: its first piece starts with its first solid character. */
  lemma FirstLineIsNotIndented(a: Alphabet, line: string, width: nat)
    requires a.Valid() && Cells(a, line) > width && !Blank(a, line)
    ensures var lines := Wrapped(a, line, width);
            lines != [] && lines[0] != [] && lines[0][0] == line[Leading(a, line, true)]
  {
    var continuation := Spaces(Indent(a, line, width));
    FirstWord(a, line);
    var words := Words(a, line);
    FillFromStarts(a, words[0], words[1..], width, continuation);
    var filled := FillFrom(a, [], words, width, continuation);
    assert Spaced([]) + words[0] == words[0];
    assert filled == FillFrom(a, words[0], words[1..], width, continuation);
    if Cells(a, filled[0]) > width {
      HardWrapFromStarts(a, [filled[0][0]], filled[0][1..], width, continuation);
      assert [] + [filled[0][0]] == [filled[0][0]];
    }
  }

  lemma {:induction false} WideTextOverflows(a: Alphabet, current: string, rest: string, width: nat,
      continuation: string)
    requires current != [] && Cells(a, continuation) + 1 == width
    requires forall i :: 0 <= i < |rest| ==> a.cells(rest[i]) == 2
    requires Cells(a, current) + 2 * |rest| > width && rest != []
    ensures !Fit(a, HardWrapFrom(a, current, rest, width, continuation), width)
    decreases |rest|
  {
    var c := [rest[0]];
    assert Cells(a, c) == 2;
    if Cells(a, current) + 2 > width {
      CellsAdd(a, continuation, c);
      var tail := HardWrapFrom(a, continuation + c, rest[1..], width, continuation);
      HardWrapFromStarts(a, continuation + c, rest[1..], width, continuation);
      assert ([current] + tail)[1] == tail[0];
    } else {
      CellsAdd(a, current, c);
      WideTextOverflows(a, current + c, rest[1..], width, continuation);
    }
  }

  function WideLine(indent: nat, wide: char, n: nat): string { Spaces(indent) + Repeated(wide, n) }

  /** How a line of wide characters behind an indent is wrapped, when it is too wide: as one word, by characters. */
  lemma WideLineWraps(a: Alphabet, wide: char, indent: nat, width: nat)
    requires a.Valid() && a.cells(wide) == 2 && !a.white(wide)
    ensures var line := WideLine(indent, wide, width + 1);
            && Leading(a, line, true) == indent && !Blank(a, line)
            && Wrapped(a, line, width) ==
                 HardWrapFrom(a, [wide], Repeated(wide, width), width, Spaces(Indent(a, line, width)))
  {
    var text := Repeated(wide, width + 1);
    var line := WideLine(indent, wide, width + 1);
    LeadingSpaces(a, indent, text);
    WideCells(a, wide, width + 1);
    SpacesAreBlank(a, indent);
    CellsAdd(a, Spaces(indent), text);
    WordsAfterSpaces(a, indent, text);
    assert Leading(a, text, false) == width + 1;
    assert text[..width + 1] == text && text[width + 1..] == [];
    assert Words(a, text) == [text];
    var continuation := Spaces(Indent(a, line, width));
    assert Spaced([]) + text == text;
    assert FillFrom(a, [], [text], width, continuation) == [text];
    assert [] + [text[0]] == [wide] && text[1..] == Repeated(wide, width);
    assert HardWrap(a, text, width, continuation) == HardWrapFrom(a, [wide], text[1..], width, continuation);
    assert HardWrapAll(a, [text], width, continuation) == HardWrap(a, text, width, continuation) + [];
  }

  /**
   Why the indent must leave room: at every width, zero and one included, and every indent that does not leave two
   cells, a line of wide characters behind that indent comes out too wide.
   */
  lemma DeepIndentOverflows(a: Alphabet, wide: char, indent: nat, width: nat)
    requires a.Valid() && a.cells(wide) == 2 && !a.white(wide) && indent + 2 > width
    ensures !Fit(a, Wrapped(a, WideLine(indent, wide, width + 1), width), width)
  {
    var line := WideLine(indent, wide, width + 1);
    WideLineWraps(a, wide, indent, width);
    var n := Indent(a, line, width);
    SpacesAreBlank(a, n);
    var rest := Repeated(wide, width);
    assert Cells(a, [wide]) == 2;
    if width < 2 {
      HardWrapFromStarts(a, [wide], rest, width, Spaces(n));
    } else {
      WideTextOverflows(a, [wide], rest, width, Spaces(n));
    }
  }

  lemma WideLineIsNoWider(a: Alphabet, wide: char, indent: nat, n: nat)
    requires a.Valid() && a.cells(wide) == 2
    ensures NoWider(a, WideLine(indent, wide, n), 2)
  {
  }

  /** For each indent and width: every line of that indent without wider characters fits iff the indent leaves two
      cells. */
  lemma IndentFitsIff(a: Alphabet, wide: char, indent: nat, width: nat)
    requires a.Valid() && a.cells(wide) == 2 && !a.white(wide)
    ensures (forall line :: Leading(a, line, true) == indent && !Blank(a, line) && NoWider(a, line, 2) ==>
               Fit(a, Wrapped(a, line, width), width))
            <==> indent + 2 <= width
  {
    if indent + 2 <= width {
      forall line | Leading(a, line, true) == indent && !Blank(a, line) && NoWider(a, line, 2)
        ensures Fit(a, Wrapped(a, line, width), width)
      {
        WrappedFits(a, line, width, 2);
      }
    } else {
      WideLineWraps(a, wide, indent, width);
      WideLineIsNoWider(a, wide, indent, width + 1);
      DeepIndentOverflows(a, wide, indent, width);
    }
  }

  lemma {:induction false} LeadingSpaces(a: Alphabet, n: nat, text: string)
    requires a.Valid() && text != [] && !a.white(text[0])
    ensures Leading(a, Spaces(n) + text, true) == n
    decreases n
  {
    if n > 0 {
      assert (Spaces(n) + text)[1..] == Spaces(n - 1) + text;
      LeadingSpaces(a, n - 1, text);
    } else {
      assert Spaces(0) + text == text;
    }
  }

  lemma {:induction false} WordsAfterSpaces(a: Alphabet, n: nat, text: string)
    requires a.Valid()
    ensures Words(a, Spaces(n) + text) == Words(a, text)
    decreases n
  {
    if n > 0 {
      assert (Spaces(n) + text)[1..] == Spaces(n - 1) + text;
      WordsAfterSpaces(a, n - 1, text);
    } else {
      assert Spaces(0) + text == text;
    }
  }

  lemma {:induction false} WideCells(a: Alphabet, wide: char, n: nat)
    requires a.cells(wide) == 2
    ensures Cells(a, Repeated(wide, n)) == 2 * n
    decreases n
  {
    if n > 0 {
      assert Repeated(wide, n)[1..] == Repeated(wide, n - 1);
      WideCells(a, wide, n - 1);
    }
  }

  // ---- the loops ----

  lemma NoCells(a: Alphabet)
    ensures Cells(a, []) == 0
    ensures a.Valid() ==> Cells(a, [' ']) == 1
  {
  }

  lemma FillUnfolds(a: Alphabet, current: string, words: seq<string>, i: nat, width: nat, continuation: string)
    requires i < |words|
    ensures FillFrom(a, current, words[i..], width, continuation) ==
            if Overflows(a, current, words[i], width) then
              [current] + FillFrom(a, Spaced(continuation) + words[i], words[i + 1..], width, continuation)
            else FillFrom(a, Spaced(current) + words[i], words[i + 1..], width, continuation)
  {
    hide Spaced, Overflows, Cells;
    assert words[i..][1..] == words[i + 1..];
  }

  lemma SpacedCells(a: Alphabet, s: string, word: string)
    requires a.Valid()
    ensures Cells(a, Spaced(s) + word) == Cells(a, s) + (if Spaced(s) == s then 0 else 1) + Cells(a, word)
  {
    NoCells(a);
    CellsAdd(a, s, [' ']);
    CellsAdd(a, Spaced(s), word);
  }

  method Fill(a: Alphabet, words: seq<string>, width: nat, continuation: string) returns (lines: seq<string>)
    requires a.Valid()
    ensures lines == FillFrom(a, [], words, width, continuation)
  {
    lines := [];
    var current: string := [];
    var currentWidth := 0;
    for i := 0 to |words|
      invariant currentWidth == Cells(a, current)
      invariant FillFrom(a, [], words, width, continuation)
          == lines + FillFrom(a, current, words[i..], width, continuation)
    {
      hide FillFrom, Cells;
      var word := words[i];
      FillUnfolds(a, current, words, i, width, continuation);
      var wordWidth := Cells(a, word);
      var separator := if current != [] then 1 else 0;
      if currentWidth + separator + wordWidth > width && current != [] {
        assert lines + ([current] + FillFrom(a, Spaced(continuation) + word, words[i + 1..], width, continuation))
            == (lines + [current]) + FillFrom(a, Spaced(continuation) + word, words[i + 1..], width, continuation);
        lines := lines + [current];
        current := continuation;
        currentWidth := Cells(a, current);
      }
      SpacedCells(a, current, word);
      if current != [] && current[|current| - 1] != ' ' {
        current := current + [' '];
        currentWidth := currentWidth + 1;
      }
      current := current + word;
      currentWidth := currentWidth + wordWidth;
    }
    if current != [] { lines := lines + [current]; }
  }

  method WrapLine(a: Alphabet, line: string, width: nat) returns (lines: seq<string>)
    requires a.Valid()
    ensures lines == Wrapped(a, line, width)
  {
    if Cells(a, line) <= width || Blank(a, line) { return [line]; }
    var continuation := Spaces(Indent(a, line, width));
    var filled := Fill(a, Words(a, line), width, continuation);
    lines := [];
    for i := 0 to |filled|
      invariant HardWrapAll(a, filled, width, continuation) == lines + HardWrapAll(a, filled[i..], width, continuation)
    {
      var broken := HardWrapLine(a, filled[i], width, continuation);
      assert filled[i..][1..] == filled[i + 1..];
      lines := lines + broken;
    }
  }
}
