/** What forgetting keeps and what it takes away for good. */
module ForgetProof {
  import opened Store
  import opened Protocol
  import opened Evolution
  import opened Tables
  import opened MergeForest
  import opened IdentityManager
  import opened Forget
  import Erasure
  import Passes

  ghost predicate CanForget(t: Tables, x: IdentityId) {
    x in t.identities && (t.identities[x].state.Active? || t.identities[x].state.Forgotten?)
  }

  // ----- the merge pointers are untouched -----

  ghost predicate SamePointers(a: Identities, b: Identities) {
    && a.Keys == b.Keys
    && forall i :: i in a ==> b[i].mergedInto == a[i].mergedInto && (b[i].state.Merged? <==> a[i].state.Merged?)
  }

  lemma {:induction false} SameChains(a: Identities, b: Identities, y: IdentityId, x: IdentityId, n: nat)
    requires SamePointers(a, b)
    ensures After(a, y, x, n) <==> After(b, y, x, n)
    decreases n
  {
    if n > 0 && y in a && a[y].mergedInto.Some? { SameChains(a, b, a[y].mergedInto.value, x, n - 1); }
  }

  lemma SamePassage(a: Identities, b: Identities, y: IdentityId, x: IdentityId)
    requires SamePointers(a, b)
    ensures PassesThrough(a, y, x) <==> PassesThrough(b, y, x)
  {
    forall n: nat ensures After(a, y, x, n) <==> After(b, y, x, n) { SameChains(a, b, y, x, n); }
  }

  lemma ForgetPointers(t: Tables, u: Tables, x: IdentityId)
    requires CanForget(t, x) && IsForgotten(t, u, x)
    ensures SamePointers(t.identities, u.identities)
    ensures u.identities[x].state.Forgotten?
    ensures forall i :: i in t.identities && i != x ==> u.identities[i].state == t.identities[i].state
  {}

  // ----- what a queued erasure does to the representations -----

  ghost function Middle(t: Tables, x: IdentityId): Tables
    requires x in t.identities
  {
    if t.identities[x].state.Forgotten? then t else AfterOne(t, x)
  }

  ghost function Taken(t: Tables, x: IdentityId): set<RepId>
    requires x in t.identities
  {
    var family := FamilyOf(t.identities, x);
    if t.identities[x].state.Forgotten? then Owing(t.reps, family) else Vectors(t.reps, family)
  }

  lemma QueuedState(d: Db, d': Db, ids: set<RepId>, r: RepId)
    requires ErasureQueued(d, d', ids, true) && r in d.rows
    ensures r in d'.rows && d'.rows[r].state == if MovedToErasing(d.rows, r, ids, true) then RepState.Erasing else d.rows[r].state
  {}

  lemma QueuedStates(t: Tables, u: Tables, x: IdentityId, r: RepId)
    requires CanForget(t, x) && IsForgotten(t, u, x) && r in t.reps
    ensures u.reps[r] == t.reps[r].(state := u.reps[r].state)
    ensures u.reps[r].state == if r in Taken(t, x) && (Erasable(t.reps[r].state) || t.reps[r].state.Deleted?) then RepState.Erasing else t.reps[r].state
  {
    QueuedState(Memory(Middle(t, x)), Memory(u), Taken(t, x), r);
    assert Memory(u).rows[r].state == u.reps[r].state;
    assert Memory(Middle(t, x)).rows[r].state == t.reps[r].state;
  }

  // No representation the family owns keeps another state than ERASING or ERASED.
  lemma FamilyIsErasing(t: Tables, u: Tables, x: IdentityId, r: RepId)
    requires CanForget(t, x) && t.identities[x].state.Active? && IsForgotten(t, u, x)
    requires r in t.reps && t.reps[r].identity.Some? && t.reps[r].identity.value in FamilyOf(t.identities, x)
    ensures u.reps[r].state.Erasing? || u.reps[r].state.Erased?
  {
    QueuedStates(t, u, x, r);
    assert r in OwnedByAny(t.reps, FamilyOf(t.identities, x));
  }

  lemma OthersKeepState(t: Tables, u: Tables, x: IdentityId, r: RepId)
    requires CanForget(t, x) && IsForgotten(t, u, x)
    requires r in t.reps && (t.reps[r].identity.None? || t.reps[r].identity.value !in FamilyOf(t.identities, x))
    ensures u.reps[r] == t.reps[r]
  {
    QueuedStates(t, u, x, r);
    assert r !in OwnedByAny(t.reps, FamilyOf(t.identities, x));
  }

  function EligibleReps(t: Tables): set<RepId> { set r | r in t.reps && RowOf(t.identities, t.reps[r]).Eligible() }

  ghost function FamilysActive(t: Tables, x: IdentityId): set<RepId> {
    set r | r in OwnedByAny(t.reps, FamilyOf(t.identities, x)) && t.reps[r].state.Active?
  }

  // ----- forgetting is total at its commit -----

  lemma {:induction false} ForgettingIsTotal(t: Tables, u: Tables, x: IdentityId)
    requires LifecycleInv(t) && DbInv(Memory(t)) && CanForget(t, x) && t.identities[x].state.Active? && IsForgotten(t, u, x)
    // everything the family owns is out of every state but ERASING and ERASED
    ensures forall r :: r in OwnedByAny(u.reps, FamilyOf(u.identities, x)) ==> u.reps[r].state.Erasing? || u.reps[r].state.Erased?
    // what is ERASING and was indexed has its REMOVE recorded
    ensures forall r :: r in u.reps && u.reps[r].state.Erasing? && u.reps[r].key.Some? ==> HasOp(u.ops, r, Remove)
    // and the eligible set shrinks by exactly what the family had ACTIVE
    ensures EligibleReps(u) == EligibleReps(t) - FamilysActive(t, x)
  {
    ForgetPointers(t, u, x);
    var family := FamilyOf(t.identities, x);
    forall y ensures y in FamilyOf(u.identities, x) <==> y in family { SamePassage(t.identities, u.identities, y, x); }
    forall r | r in OwnedByAny(u.reps, FamilyOf(u.identities, x)) ensures u.reps[r].state.Erasing? || u.reps[r].state.Erased? {
      FamilyIsErasing(t, u, x, r);
    }
    forall r | r in u.reps && u.reps[r].state.Erasing? && u.reps[r].key.Some? ensures HasOp(u.ops, r, Remove) {
      ErasingHasRemove(t, u, x, r);
    }
    forall r | r in t.reps ensures r in EligibleReps(u) <==> r in EligibleReps(t) && r !in FamilysActive(t, x) {
      EligibilityAfter(t, u, x, r);
    }
  }

  lemma EligibilityAfter(t: Tables, u: Tables, x: IdentityId, r: RepId)
    requires LifecycleInv(t) && CanForget(t, x) && t.identities[x].state.Active? && IsForgotten(t, u, x) && r in t.reps
    ensures r in EligibleReps(u) <==> r in EligibleReps(t) && r !in FamilysActive(t, x)
  {
    ForgetPointers(t, u, x);
    assert RepOwned(t, r);
    if t.reps[r].identity.Some? && t.reps[r].identity.value in FamilyOf(t.identities, x) {
      FamilyIsErasing(t, u, x, r);
    } else {
      assert After(t.identities, x, x, 0);
      OthersKeepState(t, u, x, r);
    }
  }

  lemma ErasingHasRemove(t: Tables, u: Tables, x: IdentityId, r: RepId)
    requires CanForget(t, x) && IsForgotten(t, u, x) && r in u.reps && u.reps[r].state.Erasing? && u.reps[r].key.Some?
    ensures HasOp(u.ops, r, Remove)
  {
    assert Memory(u).rows[r].state.Erasing?;
    RemoveRecorded(Memory(Middle(t, x)), Memory(u), Taken(t, x), r);
  }

  lemma RemoveRecorded(d: Db, d': Db, ids: set<RepId>, r: RepId)
    requires ErasureQueued(d, d', ids, true) && r in d'.rows && d'.rows[r].state.Erasing? && d'.rows[r].key.Some?
    ensures HasOp(d'.ops, r, Remove)
  {
    if NeedsRemove(d, r, ids, true) {
      assert HasPending(d'.ops, r, Remove);
    } else {
      var o :| o in d.ops && IsOp(d.ops[o], r, Remove);
      assert OldOpQueued(d, d'.ops, ids, true, o);
      assert o in d'.ops && IsOp(d'.ops[o], r, Remove);
    }
  }

  // ----- `_run`: the erasure that follows -----

  // What forgetting took is pending when its transaction commits.
  lemma TakenIsPending(t: Tables, u: Tables, x: IdentityId, r: RepId)
    requires CanForget(t, x) && IsForgotten(t, u, x) && r in Taken(t, x) && !t.reps[r].state.Erasing? && t.reps[r].key.Some?
    ensures r in u.reps && u.reps[r].state.Erasing? && u.reps[r].key.Some? && HasPending(u.ops, r, Remove)
  {
    QueuedStates(t, u, x, r);
    var d := Memory(Middle(t, x));
    assert d.rows[r].state == t.reps[r].state && d.rows[r].key == t.reps[r].key;
    assert NeedsRemove(d, r, Taken(t, x), true);
  }

  lemma PendingWaitsForNothing(d: Db, d': Db, dirs: map<SpaceId, Protocol.Directory>, ids: set<RepId>, r: RepId)
    requires DbInv(d') && ErasureQueued(d, d', ids, false)
    requires r in d.rows && d.rows[r].state.Erasing? && (d.rows[r].key.Some? ==> HasPending(d.ops, r, Remove))
    ensures r in Erasure.Clearable(d', dirs)
  {
    if d.rows[r].key.Some? {
      var o :| o in d.ops && IsOp(d.ops[o], r, Remove) && d.ops[o].state.Pending?;
      assert OldOpQueued(d, d'.ops, ids, false, o);
      assert OpOk(d', o);
      assert Passes.PendingIn(d'.ops, d'.rows[r].space);
    }
  }

  // The eraser's call on what was taken (queue again, then drive, without faults) erases every vector
  // of the family that was not being erased already.
  lemma ForgottenIsErased(t: Tables, u: Tables, x: IdentityId, d: Db, dirs: map<SpaceId, Protocol.Directory>, r: RepId)
    requires CanForget(t, x) && t.identities[x].state.Active? && IsForgotten(t, u, x)
    requires DbInv(d) && ErasureQueued(Memory(u), d, Taken(t, x), false)
    requires r in Vectors(t.reps, FamilyOf(t.identities, x)) && !t.reps[r].state.Erasing?
    ensures r in Erasure.Clearable(d, dirs)
    ensures ClearedRows(d.rows, Erasure.Clearable(d, dirs))[r].state.Erased?
  {
    QueuedStates(t, u, x, r);
    if t.reps[r].key.Some? { TakenIsPending(t, u, x, r); }
    PendingWaitsForNothing(Memory(u), d, dirs, Taken(t, x), r);
  }

  // ----- forgotten for good -----

  // Every identity that was merged into it, and itself, resolves to nothing.
  lemma FamilyResolvesToNothing(t: Tables, u: Tables, x: IdentityId, y: IdentityId, end: IdentityId)
    requires LifecycleInv(t) && CanForget(t, x) && IsForgotten(t, u, x) && Forest(u.identities)
    requires y in FamilyOf(t.identities, x) && EndsAt(u.identities, y, end)
    ensures end == x && !IsActive(u.identities, end)
  {
    ForgetPointers(t, u, x);
    SamePassage(t.identities, u.identities, y, x);
    var n: nat :| After(u.identities, y, x, n);
    var m: nat :| After(u.identities, y, end, m);
    if n <= m { EndIsUnique(u.identities, y, x, n, end, m); } else { EndIsUnique(u.identities, y, end, m, x, n); }
  }

  // ----- the invariant -----

  // What forgetting does to the rows that refer to identities.
  ghost predicate Shed(t: Tables, u: Tables, x: IdentityId) {
    && t.identities.Keys == u.identities.Keys && u.reps.Keys == t.reps.Keys
    && (forall i :: i in t.identities && i != x ==> u.identities[i].state == t.identities[i].state)
    && (forall r :: r in t.reps ==> u.reps[r].identity == t.reps[r].identity)
    && (forall r :: r in t.reps && u.reps[r].state.Active? ==> t.reps[r].state.Active? && !t.reps[r].OwnedBy(x))
    && u.occurrences == FacesGone(t.occurrences, x)
    && u.links == EndedLinks(t.links, x, LinkState.Removed)
  }

  lemma RepsShed(t: Tables, u: Tables, x: IdentityId, r: RepId)
    requires LifecycleInv(t) && CanForget(t, x) && IsForgotten(t, u, x) && r in t.reps
    ensures u.reps[r].identity == t.reps[r].identity
    ensures u.reps[r].state.Active? ==> t.reps[r].state.Active? && !t.reps[r].OwnedBy(x)
  {
    assert RepOwned(t, r);
    assert After(t.identities, x, x, 0);
    QueuedStates(t, u, x, r);
    if t.identities[x].state.Active? && t.reps[r].OwnedBy(x) { FamilyIsErasing(t, u, x, r); }
  }

  // A FORGOTTEN identity had nothing ACTIVE left.
  lemma NothingLeft(t: Tables, x: IdentityId)
    requires Owned(t) && x in t.identities && !IsActive(t.identities, x)
    ensures FacesGone(t.occurrences, x) == t.occurrences && EndedLinks(t.links, x, LinkState.Removed) == t.links
    ensures !HasActiveLink(t.links, x)
  {
    forall o | o in t.occurrences ensures !t.occurrences[o].ActiveOf(x) { assert OccurrenceOwned(t, o); }
    forall l | l in t.links ensures !t.links[l].ActiveOf(x) { assert LinkOwned(t, l); }
  }

  lemma MiddleLinks(t: Tables, x: IdentityId)
    requires Owned(t) && CanForget(t, x)
    ensures var mid := Middle(t, x);
      && mid.occurrences == FacesGone(t.occurrences, x) && mid.links == EndedLinks(t.links, x, LinkState.Removed)
      && mid.nextId == t.nextId && mid.people == t.people
  {
    if t.identities[x].state.Forgotten? { NothingLeft(t, x); }
    else if !HasActiveLink(t.links, x) { assert EndedLinks(t.links, x, LinkState.Removed) == t.links; }
  }

  lemma ForgetLinks(t: Tables, u: Tables, x: IdentityId)
    requires LifecycleInv(t) && CanForget(t, x) && IsForgotten(t, u, x)
    ensures u.occurrences == FacesGone(t.occurrences, x) && u.links == EndedLinks(t.links, x, LinkState.Removed)
    ensures u.nextId == t.nextId && u.people == t.people
  {
    MiddleLinks(t, x);
    assert u == Middle(t, x).(reps := u.reps, ops := u.ops, nextOp := u.nextOp);
  }

  lemma ForgetSheds(t: Tables, u: Tables, x: IdentityId)
    requires LifecycleInv(t) && CanForget(t, x) && IsForgotten(t, u, x)
    ensures Shed(t, u, x)
  {
    ForgetPointers(t, u, x);
    ForgetLinks(t, u, x);
    forall r | r in t.reps
      ensures u.reps[r].identity == t.reps[r].identity
      ensures u.reps[r].state.Active? ==> t.reps[r].state.Active? && !t.reps[r].OwnedBy(x)
    {
      RepsShed(t, u, x, r);
    }
  }

  lemma ShedKeepsOwned(t: Tables, u: Tables, x: IdentityId)
    requires Owned(t) && Shed(t, u, x)
    ensures Owned(u)
  {
    forall r | r in u.reps ensures RepOwned(u, r) { assert RepOwned(t, r); }
    forall o | o in u.occurrences ensures OccurrenceOwned(u, o) { assert OccurrenceOwned(t, o); }
    forall l | l in u.links ensures LinkOwned(u, l) { assert LinkOwned(t, l); }
  }

  lemma ForgetKeepsForest(t: Tables, u: Tables, x: IdentityId)
    requires LifecycleInv(t) && CanForget(t, x) && IsForgotten(t, u, x)
    ensures Forest(u.identities)
  {
    ForgetPointers(t, u, x);
    PointersKeepForest(t.identities, u.identities);
  }

  lemma PointersKeepForest(a: Identities, b: Identities)
    requires Forest(a) && SamePointers(a, b)
    ensures Forest(b)
  {
    var rank :| Ranked(a, rank);
    assert Ranked(b, rank);
  }

  lemma ShedKeepsIds(t: Tables, u: Tables, x: IdentityId)
    requires IdsDrawn(t) && Shed(t, u, x) && u.nextId == t.nextId && u.people == t.people
    ensures IdsDrawn(u)
  {}

  lemma ForgetKeepsInv(t: Tables, u: Tables, x: IdentityId)
    requires LifecycleInv(t) && CanForget(t, x) && IsForgotten(t, u, x)
    ensures LifecycleInv(u)
  {
    ForgetKeepsForest(t, u, x);
    ForgetSheds(t, u, x);
    ForgetLinks(t, u, x);
    ShedKeepsOwned(t, u, x);
    ShedKeepsIds(t, u, x);
  }
}
