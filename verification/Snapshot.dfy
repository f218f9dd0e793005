/**
 The two-store snapshot (crates/multiplex-cli/src/local.rs): read library, other store, library, other
 store, and accept when neither revision moved between its two reads; try at most twice.

 A `timeline` lists every state the two stores pass through; a read sees one of its moments. Which
 moments the reads fall on is arbitrary, so this covers every interleaving with writers.
 */
module Snapshot {
  import opened Wrappers

  datatype Versioned<T> = Versioned(revision: nat, content: T)

  datatype Moment<L, O> = Moment(library: Versioned<L>, other: Versioned<O>)

  /** A store either stays as it is or takes a later revision. */
  ghost predicate Advances<T>(a: Versioned<T>, b: Versioned<T>) {
    a == b || a.revision < b.revision
  }

  ghost predicate Timeline<L, O>(t: seq<Moment<L, O>>) {
    forall i :: 0 < i < |t| ==> Advances(t[i - 1].library, t[i].library) && Advances(t[i - 1].other, t[i].other)
  }

  /** The eight moments the loads of the two attempts fall on, in order. */
  ghost predicate Reads<L, O>(t: seq<Moment<L, O>>, at: seq<nat>) {
    && |at| == 8
    && (forall i :: 0 <= i < 8 ==> at[i] < |t|)
    && (forall i, j :: 0 <= i <= j < 8 ==> at[i] <= at[j])
  }

  lemma {:induction false} TimelineAdvances<L, O>(t: seq<Moment<L, O>>, i: nat, j: nat)
    requires Timeline(t) && i <= j < |t|
    ensures Advances(t[i].library, t[j].library) && Advances(t[i].other, t[j].other)
    decreases j
  {
    if i < j {
      TimelineAdvances(t, i, j - 1);
      assert Advances(t[j - 1].library, t[j].library);
    }
  }

  /** Attempt `a` saw neither store's revision move. */
  predicate Undisturbed<L, O>(t: seq<Moment<L, O>>, at: seq<nat>, a: nat)
    requires a < 2 && |at| == 8 && forall i :: 0 <= i < 8 ==> at[i] < |t|
  {
    && t[at[4 * a]].library.revision == t[at[4 * a + 2]].library.revision
    && t[at[4 * a + 1]].other.revision == t[at[4 * a + 3]].other.revision
  }

  /** An undisturbed attempt's last two reads are the state of both stores at its second and at its third read. */
  lemma UndisturbedIsSimultaneous<L, O>(t: seq<Moment<L, O>>, at: seq<nat>, a: nat)
    requires Timeline(t) && Reads(t, at) && a < 2 && Undisturbed(t, at, a)
    ensures forall m :: at[4 * a + 1] <= m <= at[4 * a + 2] ==>
              t[m] == Moment(t[at[4 * a + 2]].library, t[at[4 * a + 3]].other)
  {
    forall m | at[4 * a + 1] <= m <= at[4 * a + 2]
      ensures t[m] == Moment(t[at[4 * a + 2]].library, t[at[4 * a + 3]].other)
    {
      TimelineAdvances(t, at[4 * a], m);
      TimelineAdvances(t, m, at[4 * a + 2]);
      TimelineAdvances(t, at[4 * a + 1], m);
      TimelineAdvances(t, m, at[4 * a + 3]);
    }
  }

  method ConsistentSnapshot<L, O>(t: seq<Moment<L, O>>, at: seq<nat>) returns (r: Option<Moment<L, O>>)
    requires Timeline(t) && Reads(t, at)
    // an answer is the simultaneous state of both stores at a moment inside the call
    ensures r.Some? ==> exists m :: at[0] <= m <= at[7] && t[m] == r.value
    // and there is one exactly when some attempt met no commit between its paired reads
    ensures r.Some? <==> Undisturbed(t, at, 0) || Undisturbed(t, at, 1)
  {
    r := None;
    var attempt := 0;
    while attempt < 2
      invariant 0 <= attempt <= 2
      invariant r.None?
      invariant forall a :: 0 <= a < attempt ==> !Undisturbed(t, at, a)
    {
      var firstLibrary := t[at[4 * attempt]].library;
      var firstOther := t[at[4 * attempt + 1]].other;
      var secondLibrary := t[at[4 * attempt + 2]].library;
      var secondOther := t[at[4 * attempt + 3]].other;
      if firstLibrary.revision == secondLibrary.revision && firstOther.revision == secondOther.revision {
        UndisturbedIsSimultaneous(t, at, attempt);
        r := Some(Moment(secondLibrary, secondOther));
        assert t[at[4 * attempt + 2]] == r.value;
        return;
      }
      attempt := attempt + 1;
    }
  }
}
