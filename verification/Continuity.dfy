/**
 The resume continuity store (crates/multiplex-store/src/continuity.rs): a revisioned list of links,
 each naming the session that was resumed and the session that replaced it.
 */
module Continuity {
  import opened Wrappers

  const MAX_LINKS: nat := 10_000

  datatype Link = Link(
    command: nat, source: nat, replacement: nat, priorGeneration: nat, replacementGeneration: nat, committedAt: nat)

  datatype LinkError = CorruptLink | LinkConflict | StaleLinks(actual: nat) | TooManyLinks | LinkRevisionOverflow

  datatype Continuity = Continuity(revision: nat, links: seq<Link>)

  predicate ValidLink(link: Link) {
    && link.source != link.replacement
    && link.priorGeneration != U64_MAX
    && link.replacementGeneration == link.priorGeneration + 1
  }

  /** May `later` stand after `earlier` in the list? */
  predicate Compatible(earlier: Link, later: Link) {
    && earlier.command != later.command
    && earlier.source != later.source
    && earlier.replacement != later.replacement
    && earlier.source != later.replacement
  }

  predicate ValidLinks(links: seq<Link>) {
    && |links| <= MAX_LINKS
    && (forall i :: 0 <= i < |links| ==> ValidLink(links[i]))
    && (forall i, j :: 0 <= i < j < |links| ==> Compatible(links[i], links[j]))
  }

  predicate ValidContinuity(c: Continuity) {
    c.revision <= U64_MAX && ValidLinks(c.links)
  }

  datatype RecordOutcome = RecordOutcome(store: Continuity, result: Result<(), LinkError>)

  /** The first link carrying this command id. */
  function FindCommand(links: seq<Link>, command: nat): (found: Option<Link>)
    ensures found.Some? ==> found.value in links && found.value.command == command
    ensures found.None? ==> forall l :: l in links ==> l.command != command
    decreases |links|
  {
    if links == [] then None
    else if links[0].command == command then Some(links[0])
    else FindCommand(links[1..], command)
  }

  predicate Competes(existing: Link, link: Link) {
    || existing.source == link.source
    || existing.replacement == link.replacement
    || existing.source == link.replacement
  }

  function Record(c: Continuity, expected: nat, link: Link): (o: RecordOutcome) {
    if !ValidLink(link) then RecordOutcome(c, Failure(CorruptLink))
    else
      var existing := FindCommand(c.links, link.command);
      if existing.Some? then
        RecordOutcome(c, if existing.value == link then Success(()) else Failure(LinkConflict))
      else if c.revision != expected then RecordOutcome(c, Failure(StaleLinks(c.revision)))
      else if |c.links| >= MAX_LINKS then RecordOutcome(c, Failure(TooManyLinks))
      else if exists existing :: existing in c.links && Competes(existing, link) then
        RecordOutcome(c, Failure(LinkConflict))
      else if c.revision == U64_MAX then RecordOutcome(c, Failure(LinkRevisionOverflow))
      else RecordOutcome(Continuity(c.revision + 1, c.links + [link]), Success(()))
  }

  lemma RecordContract(c: Continuity, expected: nat, link: Link)
    requires ValidContinuity(c)
    ensures var o := Record(c, expected, link);
            && ValidContinuity(o.store)
            && c.links <= o.store.links
            && (o.result.Success? <==> link in o.store.links)
            && (o.store != c ==>
                  c.revision == expected && o.store.revision == c.revision + 1 && o.store.links == c.links + [link])
  {
    var o := Record(c, expected, link);
    if link in c.links {
      OneSuccessor(c.links, link, FindCommand(c.links, link.command).value);
    }
    if o.store != c {
      forall i | 0 <= i < |c.links| ensures Compatible(c.links[i], link) {
        assert c.links[i] in c.links;
      }
    }
  }

  /** A source has at most one successor, and a session succeeds at most one other. */
  lemma OneSuccessor(links: seq<Link>, a: Link, b: Link)
    requires ValidLinks(links) && a in links && b in links
    requires a.source == b.source || a.replacement == b.replacement || a.command == b.command
    ensures a == b
  {
    var i :| 0 <= i < |links| && links[i] == a;
    var j :| 0 <= j < |links| && links[j] == b;
    assert i < j ==> Compatible(links[i], links[j]);
    assert j < i ==> Compatible(links[j], links[i]);
  }

  /** Following links: each step's replacement is the next step's source. */
  predicate Chain(links: seq<Link>, path: seq<nat>) {
    && path != []
    && (forall k :: 0 <= k < |path| ==> path[k] < |links|)
    && (forall k :: 0 <= k < |path| - 1 ==> links[path[k]].replacement == links[path[k + 1]].source)
  }

  /** Resuming again and again never leads back to a session already passed. */
  lemma NoCycle(links: seq<Link>, path: seq<nat>)
    requires ValidLinks(links) && Chain(links, path)
    ensures links[path[|path| - 1]].replacement != links[path[0]].source
  {
    ChainClimbs(links, path);
    var first, last := path[0], path[|path| - 1];
    assert first < last ==> Compatible(links[first], links[last]);
  }

  lemma {:induction false} ChainClimbs(links: seq<Link>, path: seq<nat>)
    requires ValidLinks(links) && Chain(links, path)
    ensures path[0] <= path[|path| - 1]
    decreases |path|
  {
    if |path| > 1 {
      ChainClimbs(links, path[1..]);
      assert path[1] < path[0] ==> Compatible(links[path[1]], links[path[0]]);
    }
  }
}
