/** The identity lifecycle over whole runs, and what each of its transactions is to the erasure
    protocol. */
module Lifecycle {
  import opened Store
  import opened Protocol
  import opened Tables
  import opened MergeForest
  import opened IdentityManager
  import opened MergeProof
  import opened Splitting
  import opened SplitProof
  import opened People
  import opened Corrections
  import opened Forget
  import opened ForgetProof

  datatype Action =
    | Create(representative: Option<ObservationId>, run: RunId)
    | Activate(i: IdentityId, expected: nat)
    | Assign(r: RepId, i: IdentityId, kind: EvidenceKind, now: Time)
    | Abstain(r: RepId, now: Time)
    | Appear(occurrence: Occurrence)
    | Detect(r: RepId, rep: Rep)
    | Merge(loser: IdentityId, survivor: IdentityId, expected: nat, expectedSurvivor: Option<nat>)
    | Split(src: IdentityId, ids: seq<RepId>, expectedSrc: Option<nat>)
    | Confirm(o: OccurrenceId, shown: IdentityId)
    | Reassign(o: OccurrenceId, to: Option<IdentityId>, shown: IdentityId)
    | Resolve(r: RepId, to: Option<IdentityId>, now: Time)
    | LinkPerson(i: IdentityId, p: PersonId)
    | Unlink(i: IdentityId)
    | Name(i: IdentityId, blank: bool)
    | Forget(x: IdentityId, expectedX: Option<nat>)
    | Observe(observations: map<ObservationId, Observation>)
    | Background

  // Index work, erasures and reprocessing: representations only leave ACTIVE and PENDING, and stay
  // who they are.
  ghost predicate IsBackground(t: Tables, u: Tables) {
    && u == t.(reps := u.reps, ops := u.ops, nextOp := u.nextOp) && u.reps.Keys == t.reps.Keys
    && forall r :: r in t.reps ==> MovesOn(t.reps[r], u.reps[r])
  }

  predicate MovesOn(a: Rep, b: Rep) {
    && b == a.(state := b.state, key := b.key, vector := b.vector)
    && (b.state.Active? ==> a.state.Active?) && (b.state.Pending? ==> a.state.Pending?)
  }

  // Some representation of the run is no longer private.
  ghost predicate Begun(reps: Reps, run: RunId) {
    exists r :: r in reps && reps[r].run == run && !reps[r].state.Pending?
  }

  // A refused action changes nothing.
  ghost predicate Did(t: Tables, u: Tables, a: Action) {
    match a
    case Create(representative, run) => u == AfterCreate(t, representative, run)
    case Activate(i, expected) => if ActivationRefusal(t, i, expected).Some? then u == t else u == AfterActivate(t, i)
    case Assign(r, i, kind, now) => if AssignRefusal(t, r, i, kind).Some? then u == t else u == AfterAssign(t, r, i, kind, now)
    case Abstain(r, now) => r in t.reps && t.reps[r].state.Pending? && t.reps[r].identity.None? && u == AfterAbstain(t, r, now)
    case Appear(occurrence) => IsActive(t.identities, occurrence.identity) && Begun(t.reps, occurrence.run)
        && u == t.(occurrences := t.occurrences[t.nextId := occurrence], nextId := t.nextId + 1)
    case Detect(r, rep) => r !in t.reps && rep.state.Pending? && rep.key.None? && rep.vector.Some?
        && (rep.identity.Some? ==> rep.identity.value in t.identities) && u == t.(reps := t.reps[r := rep])
    case Merge(l, s, expected, expectedSurvivor) =>
        if MergeRefusal(t, l, s, expected, expectedSurvivor).Some? then u == t else u == AfterMerge(t, l, s)
    case Split(src, ids, expected) =>
        if SplitRefusal(t, src, ids, expected).Some? then u == t else IsSplit(t, u, src, Selected(ids), t.nextId)
    case Confirm(o, shown) => if FaceRefusal(t, o, shown).Some? then u == t else u == AfterConfirm(t, o)
    case Reassign(o, to, shown) =>
        if ReassignRefusal(t, o, to, shown).Some? then u == t
        else IsReassigned(t, u, o, if to.None? then t.nextId else to.value, to.None?)
    case Resolve(r, to, now) => if ResolveRefusal(t, r, to).Some? then u == t else u == AfterResolve(t, r, to, now)
    case LinkPerson(i, p) => if LinkRefusal(t, i, p).Some? then u == t else u == AfterLink(t, i, p)
    case Unlink(i) => i in t.identities && if HasActiveLink(t.links, i) then u == AfterUnlink(t, i) else u == t
    case Name(i, blank) => if NameRefusal(t, i, blank).Some? then u == t else u == AfterLink(WithPerson(t), i, t.nextId)
    case Forget(x, expected) => if ForgetRefusal(t, x, expected).Some? then u == t else IsForgotten(t, u, x)
    case Observe(observations) => u == t.(observations := observations)
    case Background => IsBackground(t, u)
  }

  // ----- every action keeps the invariant -----

  lemma CreateKeepsInv(t: Tables, representative: Option<ObservationId>, run: RunId)
    requires LifecycleInv(t)
    ensures LifecycleInv(AfterCreate(t, representative, run)) && SameIndex(t, AfterCreate(t, representative, run))
  {
    var u := AfterCreate(t, representative, run);
    var rank :| Ranked(t.identities, rank);
    assert Ranked(u.identities, rank[t.nextId := 0]);
    forall r | r in u.reps ensures RepOwned(u, r) { assert RepOwned(t, r); }
    forall o | o in u.occurrences ensures OccurrenceOwned(u, o) { assert OccurrenceOwned(t, o); }
    forall l | l in u.links ensures LinkOwned(u, l) { assert LinkOwned(t, l); }
  }

  lemma ActivateKeepsInv(t: Tables, i: IdentityId, expected: nat)
    requires LifecycleInv(t) && ActivationRefusal(t, i, expected).None?
    ensures LifecycleInv(AfterActivate(t, i)) && SameIndex(t, AfterActivate(t, i))
  {
    var u := AfterActivate(t, i);
    var rank :| Ranked(t.identities, rank);
    assert Ranked(u.identities, rank);
    forall r | r in t.reps
      ensures RepOwned(u, r) && (RowOf(u.identities, u.reps[r]).Eligible() <==> RowOf(t.identities, t.reps[r]).Eligible())
    {
      assert RepOwned(t, r);
    }
    forall o | o in u.occurrences ensures OccurrenceOwned(u, o) { assert OccurrenceOwned(t, o); }
    forall l | l in u.links ensures LinkOwned(u, l) { assert LinkOwned(t, l); }
  }

  lemma AssignKeepsInv(t: Tables, r: RepId, i: IdentityId, kind: EvidenceKind, now: Time)
    requires LifecycleInv(t) && AssignRefusal(t, r, i, kind).None?
    ensures LifecycleInv(AfterAssign(t, r, i, kind, now))
  {
    var u := AfterAssign(t, r, i, kind, now);
    TouchKeepsForest(t.identities, i);
    forall q | q in u.reps ensures RepOwned(u, q) { if q != r { assert RepOwned(t, q); } }
    forall o | o in u.occurrences ensures OccurrenceOwned(u, o) { assert OccurrenceOwned(t, o); }
    forall l | l in u.links ensures LinkOwned(u, l) { assert LinkOwned(t, l); }
  }

  // Rows come, or go on, without an owner that is not ACTIVE.
  lemma RowsKeepInv(t: Tables, u: Tables, a: Action)
    requires LifecycleInv(t) && Did(t, u, a) && (a.Abstain? || a.Appear? || a.Detect? || a.Observe? || a.Background?)
    ensures LifecycleInv(u)
  {
    forall r | r in u.reps ensures RepOwned(u, r) { if r in t.reps { assert RepOwned(t, r); } }
    forall o | o in u.occurrences ensures OccurrenceOwned(u, o) { if o in t.occurrences { assert OccurrenceOwned(t, o); } }
    forall l | l in u.links ensures LinkOwned(u, l) { assert LinkOwned(t, l); }
  }

  // What people do to faces.
  lemma FaceKeepsInv(t: Tables, u: Tables, a: Action)
    requires LifecycleInv(t) && Did(t, u, a) && u != t && (a.Confirm? || a.Reassign? || a.Resolve?)
    ensures LifecycleInv(u) && SameIndex(t, u)
  {
    match a
    case Confirm(o, shown) => ConfirmKeepsInv(t, o);
    case Reassign(o, to, shown) =>
      ReassignKeepsInv(t, u, o, if to.None? then t.nextId else to.value, to.None?);
      ReassignKeepsIndex(t, u, o, if to.None? then t.nextId else to.value, to.None?);
    case Resolve(r, to, now) => ResolveKeepsInv(t, r, to, now); ResolveKeepsIndex(t, r, to, now);
  }

  // What people do to names.
  lemma NamingKeepsInv(t: Tables, u: Tables, a: Action)
    requires LifecycleInv(t) && Did(t, u, a) && u != t && (a.LinkPerson? || a.Unlink? || a.Name?)
    ensures LifecycleInv(u) && SameIndex(t, u)
  {
    match a
    case LinkPerson(i, p) => LinkKeepsInv(t, i, p);
    case Unlink(i) => UnlinkKeepsInv(t, i);
    case Name(i, blank) => NameKeepsInv(t, i);
  }

  lemma MergeOrSplitKeepsInv(t: Tables, u: Tables, a: Action)
    requires LifecycleInv(t) && Did(t, u, a) && u != t && (a.Merge? || a.Split?)
    ensures LifecycleInv(u) && SameIndex(t, u)
  {
    if a.Merge? {
      MergeKeepsInv(t, a.loser, a.survivor);
      MergeKeepsIndex(t, a.loser, a.survivor);
    } else {
      NotRefused(t, a.src, a.ids, a.expectedSrc);
      SplitKeepsInv(t, u, a.src, Selected(a.ids), t.nextId);
      SplitKeepsIndex(t, u, a.src, Selected(a.ids), t.nextId);
    }
  }

  lemma ActionKeepsInv(t: Tables, u: Tables, a: Action)
    requires LifecycleInv(t) && Did(t, u, a)
    ensures LifecycleInv(u)
  {
    if u == t {
    } else if a.Merge? || a.Split? { MergeOrSplitKeepsInv(t, u, a);
    } else if a.Confirm? || a.Reassign? || a.Resolve? { FaceKeepsInv(t, u, a);
    } else if a.LinkPerson? || a.Unlink? || a.Name? { NamingKeepsInv(t, u, a);
    } else if a.Abstain? || a.Appear? || a.Detect? || a.Observe? || a.Background? { RowsKeepInv(t, u, a);
    } else if a.Create? { CreateKeepsInv(t, a.representative, a.run);
    } else if a.Activate? { ActivateKeepsInv(t, a.i, a.expected);
    } else if a.Assign? { AssignKeepsInv(t, a.r, a.i, a.kind, a.now);
    } else { ForgetKeepsInv(t, u, a.x); }
  }

  ghost predicate IsChain(ts: seq<Tables>, actions: seq<Action>) {
    && |ts| == |actions| + 1
    && forall n {:trigger actions[n]} :: 0 <= n < |actions| ==> Did(ts[n], ts[n + 1], actions[n])
  }

  ghost predicate IsHistory(ts: seq<Tables>, actions: seq<Action>) {
    && IsChain(ts, actions)
    && ts[0].identities == map[] && ts[0].reps == map[] && ts[0].occurrences == map[] && ts[0].links == map[] && ts[0].people == map[]
  }

  // The ownership invariant over every run: what is ACTIVE belongs to an ACTIVE identity, no identity
  // has two ACTIVE links, and merges never form a cycle.
  lemma {:induction false} OwnershipOverRuns(ts: seq<Tables>, actions: seq<Action>, n: nat)
    requires IsHistory(ts, actions) && n < |ts|
    ensures Owned(ts[n]) && Forest(ts[n].identities) && LifecycleInv(ts[n])
  {
    if n == 0 {
      assert Ranked(ts[0].identities, map[]);
    } else {
      OwnershipOverRuns(ts, actions, n - 1);
      assert Did(ts[n - 1], ts[n], actions[n - 1]);
      ActionKeepsInv(ts[n - 1], ts[n], actions[n - 1]);
    }
  }

  // ----- merged stays merged, forgotten stays forgotten -----

  ghost predicate KeepsPast(a: Identities, b: Identities) {
    && (forall i :: i in a ==> i in b)
    && (forall i | i in a && i in b && a[i].state.Merged? :: b[i].state.Merged? && b[i].mergedInto == a[i].mergedInto)
    && (forall i | i in a && i in b && a[i].state.Forgotten? :: b[i].state.Forgotten?)
    && (forall i | i in a && i in b && b[i].state.Pending? :: a[i].state.Pending?)
  }

  lemma SplitKeepsPast(t: Tables, u: Tables, a: Action)
    requires LifecycleInv(t) && Did(t, u, a) && u != t && a.Split?
    ensures KeepsPast(t.identities, u.identities)
  {}

  lemma ReassignKeepsPast(t: Tables, u: Tables, a: Action)
    requires LifecycleInv(t) && Did(t, u, a) && u != t && a.Reassign?
    ensures KeepsPast(t.identities, u.identities)
  {}

  lemma MergeKeepsPast(t: Tables, u: Tables, a: Action)
    requires LifecycleInv(t) && Did(t, u, a) && u != t && a.Merge?
    ensures KeepsPast(t.identities, u.identities)
  {}

  lemma LinkKeepsPast(t: Tables, u: Tables, a: Action)
    requires LifecycleInv(t) && Did(t, u, a) && u != t && (a.LinkPerson? || a.Unlink?)
    ensures KeepsPast(t.identities, u.identities)
  {}

  lemma NameKeepsPast(t: Tables, u: Tables, a: Action)
    requires LifecycleInv(t) && Did(t, u, a) && u != t && a.Name?
    ensures KeepsPast(t.identities, u.identities)
  {}

  lemma ResolveKeepsPast(t: Tables, u: Tables, a: Action)
    requires LifecycleInv(t) && Did(t, u, a) && u != t && (a.Confirm? || a.Resolve?)
    ensures KeepsPast(t.identities, u.identities)
  {}

  lemma RowEditKeepsPast(t: Tables, u: Tables, a: Action)
    requires LifecycleInv(t) && Did(t, u, a) && u != t && (a.Abstain? || a.Appear? || a.Detect? || a.Observe? || a.Background?)
    ensures KeepsPast(t.identities, u.identities)
  {}

  lemma RecognizedKeepsPast(t: Tables, u: Tables, a: Action)
    requires LifecycleInv(t) && Did(t, u, a) && u != t && (a.Create? || a.Activate? || a.Assign?)
    ensures KeepsPast(t.identities, u.identities)
  {}

  lemma ActionKeepsPast(t: Tables, u: Tables, a: Action)
    requires LifecycleInv(t) && Did(t, u, a)
    ensures KeepsPast(t.identities, u.identities)
  {
    if u == t {
    } else if a.Forget? { ForgetPointers(t, u, a.x);
    } else if a.Merge? { MergeKeepsPast(t, u, a);
    } else if a.Split? { SplitKeepsPast(t, u, a);
    } else if a.Reassign? { ReassignKeepsPast(t, u, a);
    } else if a.LinkPerson? || a.Unlink? { LinkKeepsPast(t, u, a);
    } else if a.Name? { NameKeepsPast(t, u, a);
    } else if a.Confirm? || a.Resolve? { ResolveKeepsPast(t, u, a);
    } else if a.Create? || a.Activate? || a.Assign? { RecognizedKeepsPast(t, u, a);
    } else { RowEditKeepsPast(t, u, a); }
  }

  lemma {:induction false} ChainStays(a: Identities, b: Identities, y: IdentityId, x: IdentityId, n: nat)
    requires Pointing(a) && KeepsPast(a, b) && After(a, y, x, n)
    ensures After(b, y, x, n)
    decreases n
  {
    if n > 0 { ChainStays(a, b, a[y].mergedInto.value, x, n - 1); }
  }

  lemma {:induction false} PastStays(ts: seq<Tables>, actions: seq<Action>, m: nat, n: nat, y: IdentityId, x: IdentityId)
    requires IsHistory(ts, actions) && m <= n < |ts|
    requires x in ts[m].identities && ts[m].identities[x].state.Forgotten? && PassesThrough(ts[m].identities, y, x)
    ensures x in ts[n].identities && ts[n].identities[x].state.Forgotten? && PassesThrough(ts[n].identities, y, x)
    decreases n
  {
    if m < n {
      PastStays(ts, actions, m, n - 1, y, x);
      OwnershipOverRuns(ts, actions, n - 1);
      assert Did(ts[n - 1], ts[n], actions[n - 1]);
      ActionKeepsPast(ts[n - 1], ts[n], actions[n - 1]);
      var k: nat :| After(ts[n - 1].identities, y, x, k);
      ChainStays(ts[n - 1].identities, ts[n].identities, y, x, k);
    }
  }

  // Once an identity is forgotten, it and everything that was merged into it resolve to nothing ever
  // after.
  lemma ForgottenForGood(ts: seq<Tables>, actions: seq<Action>, m: nat, n: nat, y: IdentityId, x: IdentityId, end: IdentityId)
    requires IsHistory(ts, actions) && m <= n < |ts|
    requires x in ts[m].identities && ts[m].identities[x].state.Forgotten? && y in FamilyOf(ts[m].identities, x)
    requires EndsAt(ts[n].identities, y, end)
    ensures end == x && !IsActive(ts[n].identities, end)
  {
    PastStays(ts, actions, m, n, y, x);
    OwnershipOverRuns(ts, actions, n);
    var k: nat :| After(ts[n].identities, y, x, k);
    var j: nat :| After(ts[n].identities, y, end, j);
    if k <= j { EndIsUnique(ts[n].identities, y, x, k, end, j); } else { EndIsUnique(ts[n].identities, y, end, j, x, k); }
  }

  // ----- what carries a run's name -----

  // Evidence and occurrences of a run exist only once a representation of it is no longer private.
  ghost predicate RunsBegun(t: Tables) {
    && (forall n :: 0 <= n < |t.evidence| && t.evidence[n].run.Some? ==> Begun(t.reps, t.evidence[n].run.value))
    && (forall o :: o in t.occurrences ==> Begun(t.reps, t.occurrences[o].run))
  }

  predicate Founded(identities: Identities, i: IdentityId) { i in identities && !identities[i].state.Pending? }

  // Who is recorded as created is no longer PENDING.
  ghost predicate CreationsFounded(t: Tables) {
    forall n :: 0 <= n < |t.evidence| && t.evidence[n].kind.IdentityCreated? && t.evidence[n].identity.Some? ==>
      Founded(t.identities, t.evidence[n].identity.value)
  }

  ghost predicate Onward(a: Reps, b: Reps) {
    forall r :: r in a ==> r in b && b[r].run == a[r].run && (b[r].state.Pending? ==> a[r].state.Pending?)
  }

  // What is new about a run is recorded when it has begun, and a creation when it is done.
  ghost predicate Recorded(t: Tables, u: Tables) {
    && t.evidence <= u.evidence
    && (forall n :: |t.evidence| <= n < |u.evidence| && u.evidence[n].run.Some? ==> Begun(u.reps, u.evidence[n].run.value))
    && (forall n :: |t.evidence| <= n < |u.evidence| && u.evidence[n].kind.IdentityCreated? && u.evidence[n].identity.Some? ==>
          Founded(u.identities, u.evidence[n].identity.value))
    && (forall o | o in u.occurrences && !(o in t.occurrences && u.occurrences[o].run == t.occurrences[o].run) :: Begun(u.reps, u.occurrences[o].run))
  }

  lemma IndexingRecords(t: Tables, u: Tables, a: Action)
    requires Did(t, u, a) && (a.Assign? || a.Abstain? || a.Resolve?)
    ensures Onward(t.reps, u.reps) && Recorded(t, u)
  {
    if u != t { assert a.r in u.reps && !u.reps[a.r].state.Pending?; }
  }

  lemma ReconcilingRecords(t: Tables, loser: IdentityId, survivor: IdentityId)
    ensures var evidence := Reconciled(t, loser, survivor).evidence;
      t.evidence <= evidence && forall n :: |t.evidence| <= n < |evidence| ==> evidence[n].run.None? && !evidence[n].kind.IdentityCreated?
  {}

  lemma MergeRecords(t: Tables, u: Tables, a: Action)
    requires Did(t, u, a) && a.Merge? && u != t
    ensures Onward(t.reps, u.reps) && Recorded(t, u)
  {
    ReconcilingRecords(t, a.loser, a.survivor);
  }

  lemma SplitRecords(t: Tables, u: Tables, a: Action)
    requires Did(t, u, a) && a.Split?
    ensures Onward(t.reps, u.reps) && Recorded(t, u)
  {}

  lemma FaceRecords(t: Tables, u: Tables, a: Action)
    requires Did(t, u, a) && (a.Reassign? || a.Confirm?)
    ensures Onward(t.reps, u.reps) && Recorded(t, u)
  {}

  lemma ForgettingRecords(t: Tables, u: Tables, a: Action)
    requires Did(t, u, a) && a.Forget? && u != t
    ensures Onward(t.reps, u.reps) && Recorded(t, u)
  {
    forall r | r in t.reps ensures u.reps[r].state.Pending? ==> t.reps[r].state.Pending? { QueuedStates(t, u, a.x, r); }
  }

  lemma OtherRecords(t: Tables, u: Tables, a: Action)
    requires Did(t, u, a)
    requires a.Create? || a.Activate? || a.Appear? || a.Detect? || a.LinkPerson? || a.Unlink? || a.Name? || a.Observe? || a.Background?
    ensures Onward(t.reps, u.reps) && Recorded(t, u)
  {}

  lemma BegunStays(a: Reps, b: Reps, run: RunId)
    requires Onward(a, b) && Begun(a, run)
    ensures Begun(b, run)
  {
    var r :| r in a && a[r].run == run && !a[r].state.Pending?;
    assert r in b && b[r].run == run && !b[r].state.Pending?;
  }

  lemma RecordingKeepsRuns(t: Tables, u: Tables)
    requires RunsBegun(t) && Onward(t.reps, u.reps) && Recorded(t, u)
    ensures RunsBegun(u)
  {
    forall n | 0 <= n < |u.evidence| && u.evidence[n].run.Some? ensures Begun(u.reps, u.evidence[n].run.value) {
      if n < |t.evidence| { BegunStays(t.reps, u.reps, t.evidence[n].run.value); }
    }
    forall o | o in u.occurrences ensures Begun(u.reps, u.occurrences[o].run) {
      if o in t.occurrences && u.occurrences[o].run == t.occurrences[o].run { BegunStays(t.reps, u.reps, t.occurrences[o].run); }
    }
  }

  lemma ActionRecords(t: Tables, u: Tables, a: Action)
    requires Did(t, u, a) && u != t
    ensures Onward(t.reps, u.reps) && Recorded(t, u)
  {
    if a.Assign? || a.Abstain? || a.Resolve? { IndexingRecords(t, u, a);
    } else if a.Merge? { MergeRecords(t, u, a);
    } else if a.Split? { SplitRecords(t, u, a);
    } else if a.Reassign? || a.Confirm? { FaceRecords(t, u, a);
    } else if a.Forget? { ForgettingRecords(t, u, a);
    } else { OtherRecords(t, u, a); }
  }

  lemma ActionKeepsRuns(t: Tables, u: Tables, a: Action)
    requires RunsBegun(t) && Did(t, u, a)
    ensures RunsBegun(u)
  {
    if u != t {
      ActionRecords(t, u, a);
      RecordingKeepsRuns(t, u);
    }
  }

  // No action records the creation of an identity that is still PENDING, or makes one PENDING again.
  lemma ActionKeepsCreations(t: Tables, u: Tables, a: Action)
    requires LifecycleInv(t) && CreationsFounded(t) && Did(t, u, a)
    ensures CreationsFounded(u)
  {
    if u != t {
      ActionRecords(t, u, a);
      ActionKeepsPast(t, u, a);
      forall n | 0 <= n < |u.evidence| && u.evidence[n].kind.IdentityCreated? && u.evidence[n].identity.Some?
        ensures Founded(u.identities, u.evidence[n].identity.value)
      {
        if n < |t.evidence| { assert u.evidence[n] == t.evidence[n] && Founded(t.identities, t.evidence[n].identity.value); }
      }
    }
  }

  // ----- what each transaction is to the erasure protocol -----

  ghost predicate EditsIdentitiesOnly(a: Action) {
    a.Create? || a.Activate? || a.Merge? || a.Split? || a.Confirm? || a.Reassign? || a.Resolve? || a.LinkPerson? || a.Unlink? || a.Name?
  }

  lemma EditKeepsIndex(t: Tables, u: Tables, a: Action)
    requires LifecycleInv(t) && Did(t, u, a) && EditsIdentitiesOnly(a)
    ensures SameIndex(t, u)
  {
    if u == t {
    } else if a.Merge? || a.Split? { MergeOrSplitKeepsInv(t, u, a);
    } else if a.Create? { CreateKeepsInv(t, a.representative, a.run);
    } else if a.Activate? { ActivateKeepsInv(t, a.i, a.expected);
    } else if a.Confirm? || a.Reassign? || a.Resolve? { FaceKeepsInv(t, u, a);
    } else { NamingKeepsInv(t, u, a); }
  }

  lemma SameIndexIsCommit(t: Tables, u: Tables)
    requires SameIndex(t, u)
    ensures Committed(Memory(t), Memory(u), EditOwners(Memory(u).rows))
  {}

  // Identity edits do not touch the index: each is a commit after which every space's eligible
  // vectors and keys, and the queue, are as they were.
  lemma EditIsEditOwners(t: Tables, u: Tables, a: Action)
    requires LifecycleInv(t) && Did(t, u, a) && EditsIdentitiesOnly(a)
    ensures SameIndex(t, u)
    ensures Committed(Memory(t), Memory(u), EditOwners(Memory(u).rows))
  {
    EditKeepsIndex(t, u, a);
    SameIndexIsCommit(t, u);
  }

  lemma KeyedRows(t: Tables, u: Tables, r: RepId, owner: Option<IdentityId>, now: Time)
    requires r in t.reps && u.reps == Keyed(t, r, owner, now).reps
    requires forall i :: IsActive(u.identities, i) <==> IsActive(t.identities, i)
    requires owner.Some? ==> IsActive(t.identities, owner.value)
    ensures Memory(u).rows == Memory(t).rows[r := Memory(t).rows[r].(state := RepState.Active, key := Some(NextKey(t.nextKey, t.reps[r].space)), ownerActive := true)]
  {}

  // An assignment, or an accepted abstention, is the activation of one representation.
  lemma AssignIsActivation(t: Tables, u: Tables, a: Action)
    requires LifecycleInv(t) && Did(t, u, a) && u != t && (a.Assign? || a.Abstain?)
    ensures Committed(Memory(t), Memory(u), Commit.Activate(a.r, a.now))
  {
    KeyedRows(t, u, a.r, if a.Assign? then Some(a.i) else None, a.now);
  }

  // A private row is an insertion, and then an edit of its owner if that is not ACTIVE yet.
  lemma DetectIsInsert(t: Tables, u: Tables, a: Action)
    requires Did(t, u, a) && a.Detect?
    ensures var mid := Memory(t).(rows := Memory(t).rows[a.r := Memory(u).rows[a.r].(ownerActive := true)]);
      && Committed(Memory(t), mid, Insert(a.r, a.rep.space, a.rep.vector.value))
      && Committed(mid, Memory(u), EditOwners(Memory(u).rows))
  {}

  ghost predicate OwnersDiffer(a: Rows, b: Rows) {
    a.Keys == b.Keys && forall r :: r in a ==> b[r] == a[r].(ownerActive := b[r].ownerActive)
  }

  // Queueing an erasure does not look at owners.
  lemma SwapOwners(d: Db, d': Db, e: Db, e': Db, ids: set<RepId>)
    requires ErasureQueued(d, d', ids, true) && OwnersDiffer(d.rows, e.rows) && e == d.(rows := e.rows)
    requires e' == d'.(rows := ErasingRows(e.rows, ids, true))
    ensures ErasureQueued(e, e', ids, true)
  {
    forall r ensures NeedsRemove(e, r, ids, true) <==> NeedsRemove(d, r, ids, true) {}
    forall o | o in e.ops ensures OldOpQueued(e, e'.ops, ids, true, o) { assert OldOpQueued(d, d'.ops, ids, true, o); }
    forall o | o in e'.ops && e.nextOp <= o ensures NewOpQueued(e, e'.ops, ids, true, o) { assert NewOpQueued(d, d'.ops, ids, true, o); }
    forall o | o in e'.ops && e'.ops[o].kind.Remove? && e'.ops[o].state.Failed? && e'.ops[o].rep in e'.rows && e'.rows[e'.ops[o].rep].state.Erasing?
      ensures HasPending(e'.ops, e'.ops[o].rep, Remove)
    {
      assert d'.rows[e'.ops[o].rep].state.Erasing?;
    }
  }

  // The commit a forget makes of the erasure it queues, with the owners of before.
  ghost function Queued(t: Tables, u: Tables): Db {
    Memory(t).(rows := RowsOf(t.identities, u.reps), ops := u.ops, nextOp := u.nextOp)
  }

  lemma QueuedRow(t: Tables, u: Tables, x: IdentityId, r: RepId)
    requires CanForget(t, x) && IsForgotten(t, u, x) && r in t.reps
    ensures r in u.reps
    ensures RowOf(t.identities, u.reps[r]) == ErasingRows(RowsOf(t.identities, t.reps), Taken(t, x), true)[r]
  {
    QueuedStates(t, u, x, r);
  }

  lemma QueuedRows(t: Tables, u: Tables, x: IdentityId)
    requires CanForget(t, x) && IsForgotten(t, u, x)
    ensures Queued(t, u).rows == ErasingRows(Memory(t).rows, Taken(t, x), true)
  {
    forall r | r in t.reps
      ensures r in u.reps && RowOf(t.identities, u.reps[r]) == ErasingRows(RowsOf(t.identities, t.reps), Taken(t, x), true)[r]
    {
      QueuedRow(t, u, x, r);
    }
    SameRows(t, u.reps, Taken(t, x));
  }

  lemma SameRows(t: Tables, reps: Reps, ids: set<RepId>)
    requires reps.Keys == t.reps.Keys
    requires forall r :: r in t.reps ==> r in reps && RowOf(t.identities, reps[r]) == ErasingRows(RowsOf(t.identities, t.reps), ids, true)[r]
    ensures RowsOf(t.identities, reps) == ErasingRows(RowsOf(t.identities, t.reps), ids, true)
  {}

  lemma MiddleTables(t: Tables, x: IdentityId)
    requires x in t.identities
    ensures var mid := Middle(t, x);
      mid.reps == t.reps && mid.ops == t.ops && mid.nextOp == t.nextOp && mid.nextKey == t.nextKey
  {}

  lemma MiddleRows(t: Tables, x: IdentityId)
    requires x in t.identities
    ensures OwnersDiffer(Memory(Middle(t, x)).rows, Memory(t).rows)
    ensures Memory(t) == Memory(Middle(t, x)).(rows := Memory(t).rows)
  {
    MiddleTables(t, x);
  }

  lemma MiddleQueues(t: Tables, u: Tables, x: IdentityId)
    requires x in t.identities && IsForgotten(t, u, x)
    ensures ErasureQueued(Memory(Middle(t, x)), Memory(u), Taken(t, x), true)
    ensures u.nextKey == t.nextKey
  {}

  lemma ForgetQueues(t: Tables, u: Tables, x: IdentityId)
    requires CanForget(t, x) && IsForgotten(t, u, x)
    ensures Committed(Memory(t), Queued(t, u), QueueErasure(Taken(t, x), true))
  {
    MiddleRows(t, x);
    MiddleQueues(t, u, x);
    QueuedRows(t, u, x);
    SwapOwners(Memory(Middle(t, x)), Memory(u), Memory(t), Queued(t, u), Taken(t, x));
  }

  lemma ForgetEditsOwners(t: Tables, u: Tables, x: IdentityId, r: RepId)
    requires LifecycleInv(t) && CanForget(t, x) && IsForgotten(t, u, x) && r in t.reps
    ensures r in u.reps
    ensures Memory(u).rows[r] == Queued(t, u).rows[r].(ownerActive := Memory(u).rows[r].ownerActive)
    ensures Memory(u).rows[r].Eligible() <==> Queued(t, u).rows[r].Eligible()
  {
    ForgetPointers(t, u, x);
    RepsShed(t, u, x, r);
    assert RepOwned(t, r);
  }

  // A forget is the queueing of an erasure and then an edit of owners no eligible vector had left.
  lemma ForgetIsTwoCommits(t: Tables, u: Tables, x: IdentityId)
    requires LifecycleInv(t) && CanForget(t, x) && IsForgotten(t, u, x)
    ensures Committed(Memory(t), Queued(t, u), QueueErasure(Taken(t, x), true))
    ensures Committed(Queued(t, u), Memory(u), EditOwners(Memory(u).rows))
  {
    ForgetQueues(t, u, x);
    MiddleQueues(t, u, x);
    forall r | r in Memory(u).rows
      ensures Memory(u).rows[r] == Queued(t, u).rows[r].(ownerActive := Memory(u).rows[r].ownerActive)
      ensures Memory(u).rows[r].Eligible() <==> Queued(t, u).rows[r].Eligible()
    {
      ForgetEditsOwners(t, u, x, r);
    }
  }

  // ----- every transaction is one or two commits -----

  // At most two commits of the erasure protocol lead from one state of the rows to the other.
  ghost predicate TwoCommits(d: Db, d': Db) {
    exists mid, c, c' {:trigger Committed(d, mid, c), Committed(mid, d', c')} ::
      Committed(d, mid, c) && Committed(mid, d', c') && !c.OweTruncation? && !c'.OweTruncation?
  }

  lemma OneCommit(d: Db, d': Db, c: Commit)
    requires Committed(d, d', c) && !c.OweTruncation?
    ensures TwoCommits(d, d')
  {
    assert Committed(d', d', EditOwners(d'.rows));
  }

  lemma NoCommit(d: Db, d': Db)
    requires d == d'
    ensures TwoCommits(d, d')
  {
    OneCommit(d, d', EditOwners(d.rows));
  }

  // Each use case, whatever it answers, is at most two commits the protocol allows; so is every row
  // that comes to be.
  lemma TransactionIsCommits(t: Tables, u: Tables, a: Action)
    requires LifecycleInv(t) && Did(t, u, a) && !a.Background?
    ensures TwoCommits(Memory(t), Memory(u))
  {
    if u == t || a.Appear? || a.Observe? {
      NoCommit(Memory(t), Memory(u));
    } else if a.Assign? || a.Abstain? {
      AssignIsActivation(t, u, a);
      OneCommit(Memory(t), Memory(u), Commit.Activate(a.r, a.now));
    } else if a.Detect? {
      DetectIsInsert(t, u, a);
    } else if a.Forget? {
      ForgetIsTwoCommits(t, u, a.x);
    } else {
      EditIsEditOwners(t, u, a);
      OneCommit(Memory(t), Memory(u), EditOwners(Memory(u).rows));
    }
  }
}
