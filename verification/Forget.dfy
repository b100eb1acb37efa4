/** `identities/forget.py`: one transaction makes an identity FORGOTTEN, ends its link, takes away its
    faces, and queues the erasure of every vector it or anything merged into it still has. */
module Forget {
  import opened Store
  import opened Repositories
  import opened Protocol
  import opened Evolution
  import opened Queueing
  import opened Tables
  import opened MergeForest
  import opened IdentityManager
  import opened People

  function OwnedByAny(reps: Reps, family: set<IdentityId>): set<RepId> {
    set r | r in reps && reps[r].identity.Some? && reps[r].identity.value in family
  }

  // What a forget has to remove, whatever it is doing now.
  function Vectors(reps: Reps, family: set<IdentityId>): set<RepId> {
    set r | r in OwnedByAny(reps, family) && !reps[r].state.Erased?
  }

  // What an earlier forgetting still owes.
  function Owing(reps: Reps, family: set<IdentityId>): set<RepId> {
    set r | r in OwnedByAny(reps, family) && reps[r].state.Erasing?
  }

  ghost function FamilyOf(identities: Identities, x: IdentityId): set<IdentityId> {
    set y | y in identities && PassesThrough(identities, y, x)
  }

  function ForgottenIdentities(identities: Identities, x: IdentityId, family: set<IdentityId>): Identities {
    map i | i in identities ::
      var row := if i in family then identities[i].(representative := None) else identities[i];
      if i == x then row.(state := IdentityState.Forgotten, revision := row.revision + 1) else row
  }

  function FacesGone(occurrences: Occurrences, x: IdentityId): Occurrences {
    map o | o in occurrences :: if occurrences[o].ActiveOf(x) then occurrences[o].(state := OccurrenceState.Deleted) else occurrences[o]
  }

  function ForgetRefusal(t: Tables, x: IdentityId, expected: Option<nat>): Option<Refusal> {
    if x !in t.identities then Some(Invalid)
    else if t.identities[x].state.Forgotten? then None
    else if !t.identities[x].state.Active? then Some(Invalid)
    else if expected.Some? && expected.value != t.identities[x].revision then Some(StaleRevision)
    else None
  }

  // `_one` on an ACTIVE identity, before the vectors are queued.
  ghost function AfterOne(t: Tables, x: IdentityId): Tables
    requires x in t.identities
  {
    var family := FamilyOf(t.identities, x);
    var person := if HasActiveLink(t.links, x) then Some(PersonOf(t.links, x)) else None;
    var u := if HasActiveLink(t.links, x) then AfterUnlink(t, x) else t;
    u.(identities := ForgottenIdentities(u.identities, x, family), occurrences := FacesGone(t.occurrences, x),
       evidence := u.evidence + [Evidence(IdentityForgotten, Some(x), person, Vectors(t.reps, family))])
  }

  method ForgetOne(session: LifecycleSession, x: IdentityId, expected: Option<nat>) returns (r: Result<set<RepId>>)
    requires OneLinkEach(session.links)
    modifies session
    ensures match ForgetRefusal(old(session.T()), x, expected)
      case Some(e) => r == Refused(e) && session.T() == old(session.T())
      case None =>
        if old(session.identities)[x].state.Forgotten? then
          session.T() == old(session.T()) && r == Ok(Owing(old(session.reps), FamilyOf(old(session.identities), x)))
        else
          session.T() == AfterOne(old(session.T()), x) && r == Ok(Vectors(old(session.reps), FamilyOf(old(session.identities), x)))
  {
    if x !in session.identities { return Refused(Invalid); }
    var listed := Family(session.identities, x);
    var family := set y | y in listed;
    assert family == FamilyOf(session.identities, x);
    if session.identities[x].state.Forgotten? { return Ok(Owing(session.reps, family)); }
    if !session.identities[x].state.Active? { return Refused(Invalid); }
    if expected.Some? && expected.value != session.identities[x].revision { return Refused(StaleRevision); }
    var vectors := Vectors(session.reps, family);
    var person := EndLink(session, x);
    session.Record(Evidence(IdentityForgotten, Some(x), person, vectors));
    session.occurrences := FacesGone(session.occurrences, x);
    session.identities := ForgottenIdentities(session.identities, x, family);
    r := Ok(vectors);
  }

  method EndLink(session: LifecycleSession, x: IdentityId) returns (person: Option<PersonId>)
    requires OneLinkEach(session.links) && x in session.identities
    modifies session
    ensures session.T() == if HasActiveLink(old(session.links), x) then AfterUnlink(old(session.T()), x) else old(session.T())
    ensures person == if HasActiveLink(old(session.links), x) then Some(PersonOf(old(session.links), x)) else None
  {
    person := None;
    if HasActiveLink(session.links, x) {
      var l :| l in session.links && session.links[l].ActiveOf(x);
      person := Some(session.links[l].person);
      var _ := RemoveIdentityFromPerson(session, x);
    }
  }

  // ----- `queue_in`, joining the caller's transaction -----

  function Restated(reps: Reps, rows: Rows): Reps
    requires reps.Keys == rows.Keys
  {
    map r | r in reps :: reps[r].(state := rows[r].state)
  }

  function Memory(t: Tables): Db { View(t, None, 0) }

  // The eraser's statements on the rows as the transaction sees them.
  method QueueStatements(db: Db, vectors: set<RepId>, now: Time) returns (statements: Session)
    requires DbInv(db)
    ensures fresh(statements) && ErasureQueued(db, statements.Db(), vectors, true)
  {
    statements := new Session(db);
    var ids := Listed(vectors);
    assert Elements(ids) == vectors;
    Queue(statements, ids, true, now);
  }

  function AfterQueueing(t: Tables, d: Db): Tables
    requires t.reps.Keys == d.rows.Keys
  {
    t.(reps := Restated(t.reps, d.rows), ops := d.ops, nextOp := d.nextOp)
  }

  lemma QueuedTables(t: Tables, d: Db, vectors: set<RepId>)
    requires ErasureQueued(Memory(t), d, vectors, true)
    ensures d.rows.Keys == t.reps.Keys && Memory(AfterQueueing(t, d)) == d
  {
    var u := AfterQueueing(t, d);
    forall r | r in t.reps ensures RowOf(u.identities, u.reps[r]) == d.rows[r] {}
    assert RowsOf(u.identities, u.reps) == d.rows;
  }

  method QueueIn(session: LifecycleSession, vectors: set<RepId>, now: Time)
    requires DbInv(Memory(session.T()))
    modifies session`reps, session`ops, session`nextOp
    ensures ErasureQueued(Memory(old(session.T())), Memory(session.T()), vectors, true)
    ensures session.reps.Keys == old(session.reps).Keys
    ensures forall r :: r in session.reps ==> session.reps[r] == old(session.reps)[r].(state := session.reps[r].state)
  {
    ghost var t := session.T();
    var statements := QueueStatements(Memory(session.T()), vectors, now);
    QueuedTables(t, statements.Db(), vectors);
    session.reps, session.ops, session.nextOp := Restated(session.reps, statements.rows), statements.ops, statements.nextOp;
    assert session.T() == AfterQueueing(t, statements.Db());
  }

  // ----- the transaction -----

  // What a forget that was not refused leaves.
  ghost predicate IsForgotten(t: Tables, u: Tables, x: IdentityId)
    requires x in t.identities
  {
    var family := FamilyOf(t.identities, x);
    var mid := if t.identities[x].state.Forgotten? then t else AfterOne(t, x);
    var vectors := if t.identities[x].state.Forgotten? then Owing(t.reps, family) else Vectors(t.reps, family);
    && u == mid.(reps := u.reps, ops := u.ops, nextOp := u.nextOp) && u.reps.Keys == t.reps.Keys
    && (forall r :: r in u.reps ==> u.reps[r] == t.reps[r].(state := u.reps[r].state))
    && ErasureQueued(Memory(mid), Memory(u), vectors, true)
  }

  method ForgetIdentity(session: LifecycleSession, x: IdentityId, expected: Option<nat>, now: Time) returns (r: Result<set<RepId>>)
    requires OneLinkEach(session.links) && DbInv(Memory(session.T()))
    modifies session
    ensures match ForgetRefusal(old(session.T()), x, expected)
      case Some(e) => r == Refused(e) && session.T() == old(session.T())
      case None => r.Ok? && IsForgotten(old(session.T()), session.T(), x)
  {
    ghost var t := session.T();
    r := ForgetOne(session, x, expected);
    if r.Ok? {
      OneKeepsDb(t, session.T(), x);
      QueueIn(session, r.value, now);
    }
  }

  lemma OneKeepsDb(t: Tables, mid: Tables, x: IdentityId)
    requires DbInv(Memory(t)) && x in t.identities
    requires mid == t || (t.identities[x].state.Active? && mid == AfterOne(t, x))
    ensures DbInv(Memory(mid))
  {
    SameRowsButOwners(t, mid);
  }

  lemma SameRowsButOwners(t: Tables, mid: Tables)
    requires DbInv(Memory(t)) && mid.reps == t.reps && mid.ops == t.ops && mid.nextOp == t.nextOp && mid.nextKey == t.nextKey
    requires forall i :: IsActive(mid.identities, i) ==> IsActive(t.identities, i)
    ensures DbInv(Memory(mid))
  {
    var d, e := Memory(t), Memory(mid);
    forall r | r in e.rows ensures RowOk(e, r) { assert RowOk(d, r); }
    forall o | o in e.ops ensures OpOk(e, o) { assert OpOk(d, o); }
  }
}
