/**
 The breadth-first search that finds how a package depends on the user-interface toolkit
 (scripts/verify/gpui-boundaries.py).
 */
module DependencyPath {

  /** Package ids are only ever compared. */
  datatype Id = Id(key: nat)

  const FORBIDDEN: set<string> := {"gpui", "gpui-component"}

  type Dependencies = map<Id, seq<Id>>

  datatype Outcome = Clean | Found(names: seq<string>) | KeyError

  function Deps(deps: Dependencies, id: Id): seq<Id> { if id in deps then deps[id] else [] }

  predicate Forbidden(root: Id, names: map<Id, string>, id: Id) {
    id != root && id in names && names[id] in FORBIDDEN
  }

  /** A dependency chain from the root; cycles make these arbitrarily long. */
  ghost predicate Chain(root: Id, deps: Dependencies, p: seq<Id>) {
    && |p| > 0 && p[0] == root
    && forall i :: 0 < i < |p| ==> p[i] in Deps(deps, p[i - 1])
  }

  function Last(p: seq<Id>): Id
    requires |p| > 0
  {
    p[|p| - 1]
  }

  ghost predicate Shortest(root: Id, deps: Dependencies, p: seq<Id>) {
    && Chain(root, deps, p)
    && forall q :: Chain(root, deps, q) && Last(q) == Last(p) ==> |p| <= |q|
  }

  /** Where a chain leaves a set it starts in. */
  lemma {:induction false} Crossing(root: Id, deps: Dependencies, p: seq<Id>, inside: set<Id>) returns (i: nat)
    requires Chain(root, deps, p) && root in inside && Last(p) !in inside
    ensures 0 < i < |p| && p[i - 1] in inside && p[i] !in inside
  {
    i := 1;
    while p[i] in inside
      invariant 0 < i < |p| && p[i - 1] in inside
      decreases |p| - i
    {
      i := i + 1;
    }
  }

  type Entry = (Id, seq<Id>)

  ghost predicate InQueue(queue: seq<Entry>, id: Id) { exists e :: e in queue && e.0 == id }

  /** Every package is recorded with a shortest chain to it. */
  ghost predicate Known(root: Id, deps: Dependencies, chains: map<Id, seq<Id>>) {
    forall id :: id in chains ==> Shortest(root, deps, chains[id]) && Last(chains[id]) == id
  }

  lemma KnownGrows(root: Id, deps: Dependencies, chains: map<Id, seq<Id>>, p: seq<Id>)
    requires Known(root, deps, chains) && Shortest(root, deps, p)
    ensures Known(root, deps, chains[Last(p) := p])
  {
    hide Shortest;
  }

  ghost predicate Listed(queue: seq<Entry>, chains: map<Id, seq<Id>>) {
    forall e :: e in queue ==> e.0 in chains && e.1 == chains[e.0]
  }

  lemma ListedAppend(queue: seq<Entry>, chains: map<Id, seq<Id>>, extra: Entry)
    requires Listed(queue, chains) && extra.0 !in chains
    ensures Listed(queue + [extra], chains[extra.0 := extra.1])
  {
  }

  ghost predicate Closed(deps: Dependencies, done: set<Id>, visited: set<Id>) {
    forall id, d :: id in done && d in Deps(deps, id) ==> d in visited
  }

  /**
   What holds between two looks at the queue. `done` are the packages already expanded, `chains` the chain each
   visited package was found by.
   */
  ghost predicate Search(root: Id, names: map<Id, string>, deps: Dependencies, queue: seq<Entry>, visited: set<Id>,
                         chains: map<Id, seq<Id>>, done: set<Id>)
  {
    && root in visited && chains.Keys == visited && done <= visited
    && Known(root, deps, chains)
    && (forall id :: id in visited && id !in done ==> InQueue(queue, id))
    && Listed(queue, chains)
    && (forall id :: id in done ==> !Forbidden(root, names, id))
    && Closed(deps, done, visited)
    && (forall i, j :: 0 <= i <= j < |queue| ==> |queue[i].1| <= |queue[j].1| <= |queue[i].1| + 1)
  }

  /** A chain to a package not yet visited is longer than the chain of everything in the queue's first level. */
  lemma UnvisitedIsFar(root: Id, deps: Dependencies, p: seq<Id>, visited: set<Id>, chains: map<Id, seq<Id>>,
                       expanded: set<Id>, level: nat)
    requires root in visited && chains.Keys == visited
    requires Known(root, deps, chains)
    requires Closed(deps, expanded, visited)
    requires forall id :: id in visited && id !in expanded ==> |chains[id]| >= level
    requires Chain(root, deps, p) && Last(p) !in visited
    ensures |p| > level
  {
    var i := Crossing(root, deps, p, visited);
    var front := p[..i];
    assert Chain(root, deps, front) && Last(front) == p[i - 1];
    assert Shortest(root, deps, chains[p[i - 1]]);
  }

  /** The queue holds one level of the search and then the next. */
  ghost predicate Levels(queue: seq<Entry>, level: nat) {
    forall i, j :: 0 <= i <= j < |queue| ==> level <= |queue[i].1| <= |queue[j].1| <= level + 1
  }

  lemma LevelsAppend(queue: seq<Entry>, level: nat, e: Entry)
    requires Levels(queue, level) && |e.1| == level + 1
    ensures Levels(queue + [e], level)
  {
  }

  /** The same while the package `id`, taken off the queue with `path`, has its first k dependencies looked at. */
  ghost predicate Expanding(root: Id, names: map<Id, string>, deps: Dependencies, queue: seq<Entry>, visited: set<Id>,
                            chains: map<Id, seq<Id>>, done: set<Id>, id: Id, path: seq<Id>, k: nat)
  {
    && root in visited && chains.Keys == visited && done <= visited
    && id in visited && path == chains[id] && !Forbidden(root, names, id) && k <= |Deps(deps, id)|
    && Known(root, deps, chains)
    && (forall v :: v in visited && v !in done ==> v == id || InQueue(queue, v))
    && Listed(queue, chains)
    && (forall v :: v in done ==> !Forbidden(root, names, v))
    && Closed(deps, done, visited)
    && (forall j :: 0 <= j < k ==> Deps(deps, id)[j] in visited)
    && Levels(queue, |path|)
  }

  lemma ChainExtends(root: Id, deps: Dependencies, path: seq<Id>, d: Id)
    requires Chain(root, deps, path) && d in Deps(deps, Last(path))
    ensures Chain(root, deps, path + [d]) && Last(path + [d]) == d
  {
  }

  lemma PendingIsFar(root: Id, names: map<Id, string>, deps: Dependencies, queue: seq<Entry>, visited: set<Id>,
                     chains: map<Id, seq<Id>>, done: set<Id>, id: Id, path: seq<Id>, k: nat, v: Id)
    requires Expanding(root, names, deps, queue, visited, chains, done, id, path, k)
    requires v in visited && v !in done
    ensures |chains[v]| >= |path|
  {
    hide Shortest, Forbidden, Deps;
    if v != id {
      var e :| e in queue && e.0 == v;
      var i :| 0 <= i < |queue| && queue[i] == e;
      assert |path| <= |queue[i].1|;
    }
  }

  /** A dependency met for the first time is reached by the shortest chain there is to it. */
  lemma NewIsShortest(root: Id, names: map<Id, string>, deps: Dependencies, queue: seq<Entry>, visited: set<Id>,
                      chains: map<Id, seq<Id>>, done: set<Id>, id: Id, path: seq<Id>, k: nat)
    requires Expanding(root, names, deps, queue, visited, chains, done, id, path, k)
    requires k < |Deps(deps, id)| && Deps(deps, id)[k] !in visited
    ensures Shortest(root, deps, path + [Deps(deps, id)[k]])
  {
    var d := Deps(deps, id)[k];
    var p := path + [d];
    assert Shortest(root, deps, path) && Last(path) == id;
    ChainExtends(root, deps, path, d);
    hide Forbidden, Deps, Chain;
    forall v | v in visited && v !in done ensures |chains[v]| >= |path| {
      PendingIsFar(root, names, deps, queue, visited, chains, done, id, path, k, v);
    }
    hide Shortest, InQueue;
    forall q | Chain(root, deps, q) && Last(q) == d ensures |p| <= |q| {
      UnvisitedIsFar(root, deps, q, visited, chains, done, |path|);
    }
    ShortestByBound(root, deps, p);
  }

  lemma ShortestByBound(root: Id, deps: Dependencies, p: seq<Id>)
    requires Chain(root, deps, p) && forall q :: Chain(root, deps, q) && Last(q) == Last(p) ==> |p| <= |q|
    ensures Shortest(root, deps, p)
  {
  }

  lemma AddDependency(root: Id, names: map<Id, string>, deps: Dependencies, queue: seq<Entry>, visited: set<Id>,
                      chains: map<Id, seq<Id>>, done: set<Id>, id: Id, path: seq<Id>, k: nat)
    requires Expanding(root, names, deps, queue, visited, chains, done, id, path, k)
    requires k < |Deps(deps, id)| && Deps(deps, id)[k] !in visited
    ensures var d := Deps(deps, id)[k];
            Expanding(root, names, deps, queue + [(d, path + [d])], visited + {d}, chains[d := path + [d]], done, id,
              path, k + 1)
  {
    NewIsShortest(root, names, deps, queue, visited, chains, done, id, path, k);
    hide Shortest, Forbidden, Levels;
    var d := Deps(deps, id)[k];
    var more := queue + [(d, path + [d])];
    LevelsAppend(queue, |path|, (d, path + [d]));
    assert Closed(deps, done, visited + {d});
    KnownGrows(root, deps, chains, path + [d]);
    hide InQueue, Closed, Listed, Known;
    StillQueued(queue, (d, path + [d]));
    ListedAppend(queue, chains, (d, path + [d]));
  }

  lemma StillQueued(queue: seq<Entry>, extra: Entry)
    ensures InQueue(queue + [extra], extra.0)
    ensures forall v :: InQueue(queue, v) ==> InQueue(queue + [extra], v)
  {
    assert extra in queue + [extra];
    forall v | InQueue(queue, v) ensures InQueue(queue + [extra], v) {
      var e :| e in queue && e.0 == v;
      assert e in queue + [extra];
    }
  }

  /** Everything a chain can visit. */
  function Universe(root: Id, deps: Dependencies): set<Id> {
    {root} + set id, d | id in deps && d in deps[id] :: d
  }

  lemma RootIsInUniverse(root: Id, deps: Dependencies)
    ensures root in Universe(root, deps)
  {
  }

  lemma DependencyIsInUniverse(root: Id, deps: Dependencies, id: Id, k: nat)
    requires k < |Deps(deps, id)|
    ensures Deps(deps, id)[k] in Universe(root, deps)
  {
    assert deps[id][k] in deps[id];
  }

  method Expand(root: Id, names: map<Id, string>, deps: Dependencies, id: Id, path: seq<Id>, rest: seq<Entry>,
                seen: set<Id>, ghost found: map<Id, seq<Id>>, ghost done: set<Id>)
      returns (queue: seq<Entry>, visited: set<Id>, ghost chains: map<Id, seq<Id>>)
    requires Expanding(root, names, deps, rest, seen, found, done, id, path, 0)
    requires seen <= Universe(root, deps)
    ensures Expanding(root, names, deps, queue, visited, chains, done, id, path, |Deps(deps, id)|)
    ensures visited <= Universe(root, deps)
    ensures |queue| + |Universe(root, deps) - visited| == |rest| + |Universe(root, deps) - seen|
  {
    hide Expanding, Universe;
    queue, visited, chains := rest, seen, found;
    var dependencies := Deps(deps, id);
    for k := 0 to |dependencies|
      invariant Expanding(root, names, deps, queue, visited, chains, done, id, path, k)
      invariant visited <= Universe(root, deps)
      invariant |queue| + |Universe(root, deps) - visited| == |rest| + |Universe(root, deps) - seen|
    {
      var d := dependencies[k];
      if d !in visited {
        AddDependency(root, names, deps, queue, visited, chains, done, id, path, k);
        DependencyIsInUniverse(root, deps, id, k);
        assert Universe(root, deps) - (visited + {d}) == (Universe(root, deps) - visited) - {d};
        visited, queue, chains := visited + {d}, queue + [(d, path + [d])], chains[d := path + [d]];
      } else {
        SkipDependency(root, names, deps, queue, visited, chains, done, id, path, k);
      }
    }
  }

  lemma SkipDependency(root: Id, names: map<Id, string>, deps: Dependencies, queue: seq<Entry>, visited: set<Id>,
                       chains: map<Id, seq<Id>>, done: set<Id>, id: Id, path: seq<Id>, k: nat)
    requires Expanding(root, names, deps, queue, visited, chains, done, id, path, k)
    requires k < |Deps(deps, id)| && Deps(deps, id)[k] in visited
    ensures Expanding(root, names, deps, queue, visited, chains, done, id, path, k + 1)
  {
  }

  lemma TakeFirst(root: Id, names: map<Id, string>, deps: Dependencies, queue: seq<Entry>, visited: set<Id>,
                  chains: map<Id, seq<Id>>, done: set<Id>)
    requires queue != [] && Search(root, names, deps, queue, visited, chains, done)
    requires !Forbidden(root, names, queue[0].0)
    ensures Expanding(root, names, deps, queue[1..], visited, chains, done, queue[0].0, queue[0].1, 0)
  {
    hide Shortest, Known;
    forall v | v in visited && v !in done && v != queue[0].0 ensures InQueue(queue[1..], v) {
      var e :| e in queue && e.0 == v;
      assert queue == [queue[0]] + queue[1..];
    }
  }

  lemma FinishFirst(root: Id, names: map<Id, string>, deps: Dependencies, queue: seq<Entry>, visited: set<Id>,
                    chains: map<Id, seq<Id>>, done: set<Id>, id: Id, path: seq<Id>)
    requires Expanding(root, names, deps, queue, visited, chains, done, id, path, |Deps(deps, id)|)
    ensures Search(root, names, deps, queue, visited, chains, done + {id})
  {
    hide Shortest;
  }

  /** No chain at all leads to a forbidden package. */
  ghost predicate Unreachable(root: Id, names: map<Id, string>, deps: Dependencies) {
    forall p :: Chain(root, deps, p) ==> !Forbidden(root, names, Last(p))
  }

  /** A chain to a forbidden package, none shorter. */
  ghost predicate ShortestOffence(root: Id, names: map<Id, string>, deps: Dependencies, p: seq<Id>) {
    && Chain(root, deps, p) && Forbidden(root, names, Last(p))
    && forall q :: Chain(root, deps, q) && Forbidden(root, names, Last(q)) ==> |p| <= |q|
  }

  lemma HeadIsNearest(root: Id, names: map<Id, string>, deps: Dependencies, queue: seq<Entry>, visited: set<Id>,
                      chains: map<Id, seq<Id>>, done: set<Id>)
    requires queue != [] && Search(root, names, deps, queue, visited, chains, done)
    requires Forbidden(root, names, queue[0].0)
    ensures ShortestOffence(root, names, deps, queue[0].1)
  {
    var level := |queue[0].1|;
    assert queue[0] in queue;
    forall v | v in visited && v !in done ensures |chains[v]| >= level {
      var e :| e in queue && e.0 == v;
      var i :| 0 <= i < |queue| && queue[i] == e;
    }
    forall q | Chain(root, deps, q) && Forbidden(root, names, Last(q)) ensures level <= |q| {
      if Last(q) in visited {
        assert Shortest(root, deps, chains[Last(q)]);
      } else {
        UnvisitedIsFar(root, deps, q, visited, chains, done, level);
      }
    }
  }

  lemma NothingLeft(root: Id, names: map<Id, string>, deps: Dependencies, visited: set<Id>, chains: map<Id, seq<Id>>,
      done: set<Id>)
    requires Search(root, names, deps, [], visited, chains, done)
    ensures Unreachable(root, names, deps)
  {
    forall p | Chain(root, deps, p) ensures !Forbidden(root, names, Last(p)) {
      assert forall v :: v in visited && v !in done ==> InQueue([], v);
      if Last(p) !in visited {
        var i := Crossing(root, deps, p, visited);
        assert false;
      }
    }
  }

  lemma StartsSearching(root: Id, names: map<Id, string>, deps: Dependencies)
    ensures Search(root, names, deps, [(root, [root])], {root}, map[root := [root]], {})
  {
    var queue := [(root, [root])];
    assert (root, [root]) in queue;
    assert Chain(root, deps, [root]);
  }

  /**
   The search ends on every finite graph. It comes back clean iff no forbidden package can be reached; otherwise
   it has a shortest offending chain in hand, and raises a KeyError iff a package on that chain has no name.
   */
  method DependencyPath(root: Id, names: map<Id, string>, deps: Dependencies) returns (r: Outcome, path: seq<Id>)
    ensures r.Clean? <==> Unreachable(root, names, deps)
    ensures !r.Clean? ==> ShortestOffence(root, names, deps, path)
    ensures r.Found? ==> |r.names| == |path|
    ensures r.Found? ==> forall i :: 0 <= i < |path| ==> path[i] in names && r.names[i] == names[path[i]]
    ensures r.KeyError? <==> !r.Clean? && exists i :: 0 <= i < |path| && path[i] !in names
  {
    hide Search, Expanding, Universe, Forbidden, Unreachable;
    var queue: seq<Entry> := [(root, [root])];
    var visited := {root};
    ghost var chains := map[root := [root]];
    ghost var done: set<Id> := {};
    StartsSearching(root, names, deps);
    RootIsInUniverse(root, deps);
    while queue != []
      invariant Search(root, names, deps, queue, visited, chains, done)
      invariant visited <= Universe(root, deps)
      decreases |queue| + |Universe(root, deps) - visited|
    {
      var id := queue[0].0;
      path := queue[0].1;
      if Forbidden(root, names, id) {
        HeadIsNearest(root, names, deps, queue, visited, chains, done);
        OffenceMeansReachable(root, names, deps, path);
        if forall i :: 0 <= i < |path| ==> path[i] in names {
          return Found(seq(|path|, i requires 0 <= i < |path| && path[i] in names => names[path[i]])), path;
        }
        return KeyError, path;
      }
      TakeFirst(root, names, deps, queue, visited, chains, done);
      queue, visited, chains := Expand(root, names, deps, id, path, queue[1..], visited, chains, done);
      FinishFirst(root, names, deps, queue, visited, chains, done, id, path);
      done := done + {id};
    }
    NothingLeft(root, names, deps, visited, chains, done);
    return Clean, [];
  }

  lemma OffenceMeansReachable(root: Id, names: map<Id, string>, deps: Dependencies, p: seq<Id>)
    requires ShortestOffence(root, names, deps, p)
    ensures !Unreachable(root, names, deps)
  {
  }
}
