/**
 The revisioned session repository (crates/multiplex-store/src/sessions.rs).
 One document holds every session; a write must name the document's current revision, but a
 request that would change nothing is answered without looking at the revision at all.
 */
module SessionStore {
  import opened Wrappers
  import opened SessionDomain

  const MAX_SESSIONS: nat := 10_000

  datatype StoreError =
    | Unavailable
    | Stale(actual: nat)
    | Refused(reason: StateError)
    | RemoveRequiresExitedArchive
    | ResourceLimit
    | RevisionOverflow
    | Fault

  datatype Document = Document(revision: nat, sessions: map<nat, Session>)

  predicate ValidDocument(d: Document) {
    && d.revision <= U64_MAX
    && |d.sessions| <= MAX_SESSIONS
    && forall id :: id in d.sessions ==>
         d.sessions[id].id == id && d.sessions[id].revision <= d.revision && ValidSession(d.sessions[id])
  }

  /** The document after a call, and the call's answer. */
  datatype Outcome = Outcome(doc: Document, result: Result<Session, StoreError>)

  function Create(d: Document, s: Session, expected: nat): (o: Outcome) {
    if s.id in d.sessions then Outcome(d, Success(d.sessions[s.id]))
    else if expected != d.revision then Outcome(d, Failure(Stale(d.revision)))
    else if |d.sessions| >= MAX_SESSIONS then Outcome(d, Failure(ResourceLimit))
    else if d.revision == U64_MAX then Outcome(d, Failure(RevisionOverflow))
    else
      var stored := s.(revision := d.revision + 1);
      Outcome(Document(d.revision + 1, d.sessions[s.id := stored]), Success(stored))
  }

  function Mutate(d: Document, id: nat, expected: nat, m: Mutation, now: nat): (o: Outcome) {
    if id !in d.sessions then Outcome(d, Failure(Unavailable))
    else
      match Reduce(d.sessions[id], m)
      case Failure(reason) => Outcome(d, Failure(Refused(reason)))
      case Success(Unchanged) => Outcome(d, Success(d.sessions[id]))
      case Success(Changed(candidate)) =>
        if expected != d.revision then Outcome(d, Failure(Stale(d.revision)))
        else if d.revision == U64_MAX then Outcome(d, Failure(RevisionOverflow))
        else
          var stored := candidate.(revision := d.revision + 1, updatedAt := now);
          Outcome(Document(d.revision + 1, d.sessions[id := stored]), Success(stored))
  }

  function Remove(d: Document, id: nat, expected: nat): (o: Outcome) {
    if expected != d.revision then Outcome(d, Failure(Stale(d.revision)))
    else if id !in d.sessions then Outcome(d, Failure(Unavailable))
    else if !d.sessions[id].CanRemove() then Outcome(d, Failure(RemoveRequiresExitedArchive))
    else if d.revision == U64_MAX then Outcome(d, Failure(RevisionOverflow))
    else Outcome(Document(d.revision + 1, d.sessions - {id}), Success(d.sessions[id]))
  }

  /** One commit: the revision rises by one, and every record not left alone is stamped with it. */
  predicate CommitStep(d: Document, d': Document) {
    && d'.revision == d.revision + 1
    && (forall id :: id in d'.sessions ==>
          (id in d.sessions && d'.sessions[id] == d.sessions[id]) || d'.sessions[id].revision == d'.revision)
    && (forall id :: id in d.sessions && id in d'.sessions ==>
          LifecycleStep(d.sessions[id].lifecycle, d'.sessions[id].lifecycle))
  }

  /** What a caller may rely on: no change without the expected revision, and one commit if there is one. */
  predicate CallContract(d: Document, expected: nat, id: nat, o: Outcome) {
    && ValidDocument(o.doc)
    && (o.doc != d ==> expected == d.revision && CommitStep(d, o.doc) && o.result.Success?)
    && (o.result.Success? && id in o.doc.sessions ==> o.result.value == o.doc.sessions[id] && o.result.value.id == id)
  }

  lemma CreateContract(d: Document, s: Session, expected: nat)
    requires ValidDocument(d) && ValidSession(s)
    ensures var o := Create(d, s, expected);
            && CallContract(d, expected, s.id, o)
            && (o.result.Success? <==>
                  s.id in d.sessions || (expected == d.revision && |d.sessions| < MAX_SESSIONS && d.revision < U64_MAX))
            && (o.result.Success? ==>
                  && s.id in o.doc.sessions
                  && (s.id in d.sessions <==> o.doc == d)
                  && (s.id !in d.sessions ==> o.result.value == s.(revision := d.revision + 1)))
            && (forall other :: other in d.sessions ==>
                  other in o.doc.sessions && o.doc.sessions[other] == d.sessions[other])
  {
    var o := Create(d, s, expected);
    if o.doc != d {
      assert |o.doc.sessions| == |d.sessions| + 1 by { MapGrows(d.sessions, s.id, o.result.value); }
    }
  }

  lemma MutateContract(d: Document, id: nat, expected: nat, m: Mutation, now: nat)
    requires ValidDocument(d)
    ensures var o := Mutate(d, id, expected, m, now);
            && CallContract(d, expected, id, o)
            && (o.result.Success? <==>
                  && id in d.sessions && Reduce(d.sessions[id], m).Success?
                  && (Reduce(d.sessions[id], m).value.Changed? ==> expected == d.revision && d.revision < U64_MAX))
            && o.doc.sessions.Keys == d.sessions.Keys
            // the answer is a fresh commit exactly when the mutation changes the record
            && (o.result.Success? ==> (o.doc != d <==> Reduce(d.sessions[id], m).value.Changed?))
            // and the record committed is the reducer's, stamped; no other record moves
            && (o.doc != d ==> o.doc.sessions[id] == Reduce(d.sessions[id], m).value.session.(
                                 revision := d.revision + 1, updatedAt := now))
            && (forall other :: other in d.sessions && other != id ==> o.doc.sessions[other] == d.sessions[other])
  {
    var o := Mutate(d, id, expected, m, now);
    if id in d.sessions {
      ReduceKeepsValid(d.sessions[id], m);
      if o.doc != d {
        assert o.doc.sessions.Keys == d.sessions.Keys;
        assert |o.doc.sessions.Keys| == |d.sessions.Keys|;
      }
    }
  }

  lemma RemoveContract(d: Document, id: nat, expected: nat)
    requires ValidDocument(d)
    ensures var o := Remove(d, id, expected);
            && CallContract(d, expected, id, o)
            && (o.result.Success? <==>
                  expected == d.revision && id in d.sessions && d.sessions[id].CanRemove() && d.revision < U64_MAX)
            && (o.result.Success? ==> o.doc.sessions == d.sessions - {id})
  {
    var o := Remove(d, id, expected);
    if o.doc != d {
      assert d.sessions == o.doc.sessions[id := d.sessions[id]];
      MapGrows(o.doc.sessions, id, d.sessions[id]);
    }
  }

  lemma MapGrows<T>(m: map<nat, T>, k: nat, v: T)
    requires k !in m
    ensures |m[k := v]| == |m| + 1
  {
    assert m[k := v].Keys == m.Keys + {k};
    assert |m[k := v].Keys| == |m.Keys| + 1;
  }

  /**
   The repository object. Each method reads the document, decides, and only then replaces it,
   all under the metadata lock, so one call is one atomic step.
   */
  class SessionRepository {
    var document: Document

    ghost predicate Valid() reads this { ValidDocument(document) }

    constructor ()
      ensures Valid() && document == Document(0, map[])
    {
      document := Document(0, map[]);
    }

    method CreateSession(session: Session, expected: nat) returns (r: Result<Session, StoreError>)
      requires Valid() && ValidSession(session)
      modifies this
      ensures Valid() && Outcome(document, r) == Create(old(document), session, expected)
      // success iff the id is stored, or the revision is current and there is room; no other record moves
      ensures r.Success? <==>
                || session.id in old(document).sessions
                || (expected == old(document).revision && |old(document).sessions| < MAX_SESSIONS
                    && old(document).revision < U64_MAX)
      ensures r.Success? ==> session.id in document.sessions && r.value == document.sessions[session.id]
      ensures document != old(document) ==> expected == old(document).revision && CommitStep(old(document), document)
      ensures forall other :: other in old(document).sessions ==>
                other in document.sessions && document.sessions[other] == old(document).sessions[other]
    {
      CreateContract(document, session, expected);
      if session.id in document.sessions {
        return Success(document.sessions[session.id]);
      }
      if expected != document.revision {
        return Failure(Stale(document.revision));
      }
      if |document.sessions| >= MAX_SESSIONS {
        return Failure(ResourceLimit);
      }
      if document.revision == U64_MAX {
        return Failure(RevisionOverflow);
      }
      var revision := document.revision + 1;
      var stored := session.(revision := revision);
      document := Document(revision, document.sessions[stored.id := stored]);
      return Success(stored);
    }

    method MutateSession(id: nat, expected: nat, mutation: Mutation, updatedAt: nat)
      returns (r: Result<Session, StoreError>)
      requires Valid()
      modifies this
      ensures Valid() && Outcome(document, r) == Mutate(old(document), id, expected, mutation, updatedAt)
      // success iff the reducer accepts and, only where it changes the record, the revision is current
      ensures r.Success? <==>
                && id in old(document).sessions && Reduce(old(document).sessions[id], mutation).Success?
                && (Reduce(old(document).sessions[id], mutation).value.Changed? ==>
                      expected == old(document).revision && old(document).revision < U64_MAX)
      ensures r.Success? ==> id in document.sessions && r.value == document.sessions[id]
      ensures document != old(document) ==> expected == old(document).revision && CommitStep(old(document), document)
      ensures document.sessions.Keys == old(document).sessions.Keys
      ensures forall other :: other in old(document).sessions && other != id ==>
                document.sessions[other] == old(document).sessions[other]
    {
      MutateContract(document, id, expected, mutation, updatedAt);
      if id !in document.sessions {
        return Failure(Unavailable);
      }
      var reduced := Reduce(document.sessions[id], mutation);
      if reduced.Failure? {
        return Failure(Refused(reduced.error));
      }
      if reduced.value.Unchanged? {
        return Success(document.sessions[id]);
      }
      if expected != document.revision {
        return Failure(Stale(document.revision));
      }
      if document.revision == U64_MAX {
        return Failure(RevisionOverflow);
      }
      var revision := document.revision + 1;
      var candidate := reduced.value.session.(revision := revision, updatedAt := updatedAt);
      document := Document(revision, document.sessions[id := candidate]);
      return Success(candidate);
    }

    method RemoveSession(id: nat, expected: nat) returns (r: Result<Session, StoreError>)
      requires Valid()
      modifies this
      ensures Valid() && Outcome(document, r) == Remove(old(document), id, expected)
      // success iff the session may be removed and the revision is current; nothing else leaves the document
      ensures r.Success? <==>
                && expected == old(document).revision && id in old(document).sessions
                && old(document).sessions[id].CanRemove() && old(document).revision < U64_MAX
      ensures document.sessions == if r.Success? then old(document).sessions - {id} else old(document).sessions
      ensures r.Success? ==> document.revision == old(document).revision + 1
    {
      RemoveContract(document, id, expected);
      if expected != document.revision {
        return Failure(Stale(document.revision));
      }
      if id !in document.sessions {
        return Failure(Unavailable);
      }
      var session := document.sessions[id];
      if !session.CanRemove() {
        return Failure(RemoveRequiresExitedArchive);
      }
      if document.revision == U64_MAX {
        return Failure(RevisionOverflow);
      }
      document := Document(document.revision + 1, document.sessions - {id});
      return Success(session);
    }
  }
}
