/** `identities/corrections.py`: a person confirms a face, moves it, or places one recognition
    declined to place. Ownership is all that moves. */
module Corrections {
  import opened Store
  import opened Tables
  import opened IdentityManager
  import opened Splitting

  // ----- what every correction checks -----

  function FaceRefusal(t: Tables, o: OccurrenceId, expected: IdentityId): Option<Refusal> {
    if o !in t.occurrences || !t.occurrences[o].state.Active? then Some(Invalid)
    else if t.occurrences[o].identity != expected then Some(StaleRevision)
    else if !IsActive(t.identities, expected) then Some(Invalid)
    else None
  }

  method ConfirmOccurrence(session: LifecycleSession, o: OccurrenceId, expected: IdentityId) returns (r: Result<IdentityId>)
    modifies session
    ensures match FaceRefusal(old(session.T()), o, expected)
      case Some(e) => r == Refused(e) && session.T() == old(session.T())
      case None => r == Ok(expected) && session.T() == AfterConfirm(old(session.T()), o)
  {
    if o !in session.occurrences || !session.occurrences[o].state.Active? { return Refused(Invalid); }
    if session.occurrences[o].identity != expected { return Refused(StaleRevision); }
    if !IsActive(session.identities, expected) { return Refused(Invalid); }
    session.Record(Evidence(UserCorrection, Some(expected), None, SupportOf(session.reps, expected, session.occurrences[o])));
    r := Ok(expected);
  }

  // Only the statement is kept.
  function AfterConfirm(t: Tables, o: OccurrenceId): Tables
    requires o in t.occurrences
  {
    var i := t.occurrences[o].identity;
    t.(evidence := t.evidence + [Evidence(UserCorrection, Some(i), None, SupportOf(t.reps, i, t.occurrences[o]))])
  }

  // ----- reassign -----

  function ReassignRefusal(t: Tables, o: OccurrenceId, to: Option<IdentityId>, expected: IdentityId): Option<Refusal> {
    if FaceRefusal(t, o, expected).Some? then FaceRefusal(t, o, expected)
    else if to == Some(expected) || (to.Some? && !IsActive(t.identities, to.value)) then Some(Invalid)
    else None
  }

  // An identity that receives a face; without a face of its own it takes this one.
  function Receiving(row: Identity, created: bool, face: Option<ObservationId>): Identity {
    row.(revision := if created then row.revision else row.revision + 1,
         representative := if row.representative.None? then face else row.representative)
  }

  // The state after the face moved from `src` to `target`; `created` when the face was separated.
  ghost predicate IsReassigned(t: Tables, u: Tables, o: OccurrenceId, target: IdentityId, created: bool)
    requires o in t.occurrences && t.occurrences[o].identity in t.identities
    requires created || target in t.identities
  {
    var occurrence := t.occurrences[o];
    var src, moved := occurrence.identity, SupportOf(t.reps, occurrence.identity, occurrence);
    var row := if created then NEW else t.identities[target];
    && u.reps == RepsMoved(t.reps, moved, target)
    && u.occurrences == OccurrencesMoved(t.occurrences, {o}, target)
    && src in u.identities
    && Refreshed(u.reps, u.occurrences, src, t.identities[src].representative, occurrence.Observations(), u.identities[src].representative)
    && u.identities == t.identities[src := t.identities[src].(revision := t.identities[src].revision + 1, representative := u.identities[src].representative)]
                                   [target := Receiving(row, created, occurrence.representative)]
    && u.evidence == t.evidence + [Evidence(UserCorrection, Some(target), None, moved)]
    && u.lineage == (if created then t.lineage + [Lineage(LineageKind.SplitFrom, src, target)] else t.lineage)
    && u.nextId == (if created then t.nextId + 1 else t.nextId) && (created ==> target == t.nextId)
    && u == t.(identities := u.identities, reps := u.reps, occurrences := u.occurrences, evidence := u.evidence,
               lineage := u.lineage, nextId := u.nextId)
  }

  method ReassignOccurrence(session: LifecycleSession, o: OccurrenceId, to: Option<IdentityId>, expected: IdentityId)
    returns (r: Result<IdentityId>)
    requires session.nextId !in session.identities
    modifies session
    ensures match ReassignRefusal(old(session.T()), o, to, expected)
      case Some(e) => r == Refused(e) && session.T() == old(session.T())
      case None => r == Ok(if to.None? then old(session.nextId) else to.value)
                   && IsReassigned(old(session.T()), session.T(), o, r.value, to.None?)
  {
    if o !in session.occurrences || !session.occurrences[o].state.Active? { return Refused(Invalid); }
    if session.occurrences[o].identity != expected { return Refused(StaleRevision); }
    if !IsActive(session.identities, expected) { return Refused(Invalid); }
    if to == Some(expected) || (to.Some? && !IsActive(session.identities, to.value)) { return Refused(Invalid); }
    var target := if to.Some? then to.value else session.nextId;
    if to.None? { FoundTarget(session); }
    MoveFace(session, o, target, to.None?);
    r := Ok(target);
  }

  method FoundTarget(session: LifecycleSession)
    modifies session`identities, session`nextId
    ensures session.identities == old(session.identities)[old(session.nextId) := NEW] && session.nextId == old(session.nextId) + 1
  {
    var id := session.NewId();
    session.identities := session.identities[id := NEW];
  }

  method MoveFace(session: LifecycleSession, o: OccurrenceId, target: IdentityId, created: bool)
    requires o in session.occurrences && session.occurrences[o].identity in session.identities
    requires target in session.identities && target != session.occurrences[o].identity
    modifies session`identities, session`reps, session`occurrences, session`evidence, session`lineage
    ensures var occurrence := old(session.occurrences)[o]; var src := occurrence.identity;
      var moved := SupportOf(old(session.reps), src, occurrence);
      && session.reps == RepsMoved(old(session.reps), moved, target)
      && session.occurrences == OccurrencesMoved(old(session.occurrences), {o}, target)
      && session.evidence == old(session.evidence) + [Evidence(UserCorrection, Some(target), None, moved)]
      && session.lineage == (if created then old(session.lineage) + [Lineage(LineageKind.SplitFrom, src, target)] else old(session.lineage))
      && src in session.identities
      && Refreshed(session.reps, session.occurrences, src, old(session.identities)[src].representative, occurrence.Observations(), session.identities[src].representative)
      && session.identities == old(session.identities)
           [src := old(session.identities)[src].(revision := old(session.identities)[src].revision + 1, representative := session.identities[src].representative)]
           [target := Receiving(old(session.identities)[target], created, occurrence.representative)]
  {
    var occurrence := session.occurrences[o];
    var src := occurrence.identity;
    var moved := SupportOf(session.reps, src, occurrence);
    session.Record(Evidence(UserCorrection, Some(target), None, moved));
    session.reps := RepsMoved(session.reps, moved, target);
    session.occurrences := session.occurrences[o := occurrence.(identity := target)];
    if created { session.lineage := session.lineage + [Lineage(LineageKind.SplitFrom, src, target)]; }
    RefreshRepresentative(session, src, occurrence.Observations());
    session.identities := Touched(session.identities, src);
    session.identities := session.identities[target := Receiving(session.identities[target], created, occurrence.representative)];
  }

  // ----- resolve -----

  function Abstentions(evidence: seq<Evidence>, r: RepId): set<nat> {
    set n | 0 <= n < |evidence| && evidence[n].kind.RecognitionAbstained? && r in evidence[n].reps
  }

  predicate HasOccurrence(occurrences: Occurrences, face: ObservationId) {
    exists o :: o in occurrences && occurrences[o].state.Active? && face in occurrences[o].Observations()
  }

  function ResolveRefusal(t: Tables, r: RepId, to: Option<IdentityId>): Option<Refusal> {
    if r !in t.reps || !t.reps[r].state.Active? || t.reps[r].identity.Some? then Some(Invalid)
    else
      var face := t.reps[r].observation;
      if face !in t.observations || !t.observations[face].state.Active? || HasOccurrence(t.occurrences, face) then Some(Invalid)
      else if |Abstentions(t.evidence, r)| != 1 || (to.Some? && !IsActive(t.identities, to.value)) then Some(Invalid)
      else None
  }

  function AfterResolve(t: Tables, r: RepId, to: Option<IdentityId>, now: Time): Tables
    requires r in t.reps && (to.Some? ==> to.value in t.identities)
  {
    var face, created := t.reps[r].observation, to.None?;
    var target := if created then t.nextId else to.value;
    var o := if created then t.nextId + 1 else t.nextId;
    var row := if created then NEW else t.identities[target];
    t.(identities := t.identities[target := Receiving(row, created, Some(face))],
       occurrences := t.occurrences[o := Occurrence(target, Some(face), {face}, OccurrenceState.Active, now, t.reps[r].run)],
       reps := t.reps[r := t.reps[r].(identity := Some(target))],
       evidence := t.evidence + [Evidence(UserCorrection, Some(target), None, {r})], nextId := o + 1)
  }

  method ResolveRepresentation(session: LifecycleSession, r: RepId, to: Option<IdentityId>, now: Time) returns (result: Result<OccurrenceId>)
    modifies session
    ensures match ResolveRefusal(old(session.T()), r, to)
      case Some(e) => result == Refused(e) && session.T() == old(session.T())
      case None => result == Ok(session.nextId - 1) && session.T() == AfterResolve(old(session.T()), r, to, now)
  {
    if r !in session.reps || !session.reps[r].state.Active? || session.reps[r].identity.Some? { return Refused(Invalid); }
    var face := session.reps[r].observation;
    if face !in session.observations || !session.observations[face].state.Active? || HasOccurrence(session.occurrences, face) { return Refused(Invalid); }
    if |Abstentions(session.evidence, r)| != 1 { return Refused(Invalid); }
    if to.Some? && !IsActive(session.identities, to.value) { return Refused(Invalid); }
    var target := if to.Some? then to.value else session.nextId;
    if to.None? { FoundTarget(session); }
    var o := PlaceFace(session, r, target, to.None?, now);
    result := Ok(o);
  }

  method PlaceFace(session: LifecycleSession, r: RepId, target: IdentityId, created: bool, now: Time) returns (o: OccurrenceId)
    requires r in session.reps && target in session.identities
    modifies session`identities, session`reps, session`occurrences, session`evidence, session`nextId
    ensures o == old(session.nextId) && session.nextId == o + 1
    ensures var face := old(session.reps)[r].observation;
      && session.identities == old(session.identities)[target := Receiving(old(session.identities)[target], created, Some(face))]
      && session.occurrences == old(session.occurrences)[o := Occurrence(target, Some(face), {face}, OccurrenceState.Active, now, old(session.reps)[r].run)]
      && session.reps == old(session.reps)[r := old(session.reps)[r].(identity := Some(target))]
      && session.evidence == old(session.evidence) + [Evidence(UserCorrection, Some(target), None, {r})]
  {
    var face := session.reps[r].observation;
    o := session.NewId();
    session.Record(Evidence(UserCorrection, Some(target), None, {r}));
    session.occurrences := session.occurrences[o := Occurrence(target, Some(face), {face}, OccurrenceState.Active, now, session.reps[r].run)];
    session.reps := session.reps[r := session.reps[r].(identity := Some(target))];
    session.identities := session.identities[target := Receiving(session.identities[target], created, Some(face))];
  }

  // ----- what corrections keep -----

  ghost predicate CanReassign(t: Tables, o: OccurrenceId, target: IdentityId, created: bool) {
    && o in t.occurrences && t.occurrences[o].state.Active? && IsActive(t.identities, t.occurrences[o].identity)
    && target != t.occurrences[o].identity && if created then target == t.nextId else IsActive(t.identities, target)
  }

  lemma ReassignIdentities(t: Tables, u: Tables, o: OccurrenceId, target: IdentityId, created: bool, i: IdentityId)
    requires LifecycleInv(t) && CanReassign(t, o, target, created) && IsReassigned(t, u, o, target, created)
    ensures IsActive(u.identities, i) <==> IsActive(t.identities, i) || i == target
    ensures i in u.identities <==> i in t.identities || i == target
  {}

  lemma ReassignKeepsForest(t: Tables, u: Tables, o: OccurrenceId, target: IdentityId, created: bool)
    requires LifecycleInv(t) && CanReassign(t, o, target, created) && IsReassigned(t, u, o, target, created)
    ensures Forest(u.identities)
  {
    var rank :| Ranked(t.identities, rank);
    assert Ranked(u.identities, if created then rank[target := 0] else rank);
  }

  lemma ReassignKeepsOwned(t: Tables, u: Tables, o: OccurrenceId, target: IdentityId, created: bool)
    requires LifecycleInv(t) && CanReassign(t, o, target, created) && IsReassigned(t, u, o, target, created)
    ensures Owned(u)
  {
    forall r | r in u.reps ensures RepOwned(u, r) {
      assert RepOwned(t, r);
      if u.reps[r].identity.Some? { ReassignIdentities(t, u, o, target, created, u.reps[r].identity.value); }
    }
    forall p | p in u.occurrences ensures OccurrenceOwned(u, p) {
      assert OccurrenceOwned(t, p);
      ReassignIdentities(t, u, o, target, created, u.occurrences[p].identity);
    }
    forall l | l in u.links ensures LinkOwned(u, l) {
      assert LinkOwned(t, l);
      ReassignIdentities(t, u, o, target, created, u.links[l].identity);
    }
  }

  lemma ReassignKeepsInv(t: Tables, u: Tables, o: OccurrenceId, target: IdentityId, created: bool)
    requires LifecycleInv(t) && CanReassign(t, o, target, created) && IsReassigned(t, u, o, target, created)
    ensures LifecycleInv(u)
  {
    ReassignKeepsForest(t, u, o, target, created);
    ReassignKeepsOwned(t, u, o, target, created);
  }

  // Moving a face leaves the index alone.
  lemma ReassignKeepsIndex(t: Tables, u: Tables, o: OccurrenceId, target: IdentityId, created: bool)
    requires LifecycleInv(t) && CanReassign(t, o, target, created) && IsReassigned(t, u, o, target, created)
    ensures SameIndex(t, u)
  {
    forall r | r in t.reps ensures RowOf(u.identities, u.reps[r]).Eligible() <==> RowOf(t.identities, t.reps[r]).Eligible() {
      assert RepOwned(t, r);
      if u.reps[r].identity.Some? { ReassignIdentities(t, u, o, target, created, u.reps[r].identity.value); }
    }
  }

  lemma ResolveKeepsForest(t: Tables, r: RepId, to: Option<IdentityId>, now: Time)
    requires LifecycleInv(t) && ResolveRefusal(t, r, to).None?
    ensures Forest(AfterResolve(t, r, to, now).identities)
  {
    var rank :| Ranked(t.identities, rank);
    assert Ranked(AfterResolve(t, r, to, now).identities, if to.None? then rank[t.nextId := 0] else rank);
  }

  lemma ResolveKeepsInv(t: Tables, r: RepId, to: Option<IdentityId>, now: Time)
    requires LifecycleInv(t) && ResolveRefusal(t, r, to).None?
    ensures LifecycleInv(AfterResolve(t, r, to, now))
  {
    var u := AfterResolve(t, r, to, now);
    ResolveKeepsForest(t, r, to, now);
    forall q | q in u.reps ensures RepOwned(u, q) { if q != r { assert RepOwned(t, q); } }
    forall p | p in u.occurrences ensures OccurrenceOwned(u, p) { if p in t.occurrences { assert OccurrenceOwned(t, p); } }
    forall l | l in u.links ensures LinkOwned(u, l) { assert LinkOwned(t, l); }
  }

  // The face was indexed under its key already; nothing in the index changes.
  lemma ResolveKeepsIndex(t: Tables, r: RepId, to: Option<IdentityId>, now: Time)
    requires LifecycleInv(t) && ResolveRefusal(t, r, to).None?
    ensures SameIndex(t, AfterResolve(t, r, to, now))
  {
    var u := AfterResolve(t, r, to, now);
    forall q | q in t.reps ensures RowOf(u.identities, u.reps[q]).Eligible() <==> RowOf(t.identities, t.reps[q]).Eligible() {
      assert RepOwned(t, q);
    }
  }

  lemma ConfirmKeepsInv(t: Tables, o: OccurrenceId)
    requires LifecycleInv(t) && o in t.occurrences
    ensures LifecycleInv(AfterConfirm(t, o)) && SameIndex(t, AfterConfirm(t, o))
  {
    var u := AfterConfirm(t, o);
    forall r | r in u.reps ensures RepOwned(u, r) { assert RepOwned(t, r); }
    forall p | p in u.occurrences ensures OccurrenceOwned(u, p) { assert OccurrenceOwned(t, p); }
    forall l | l in u.links ensures LinkOwned(u, l) { assert LinkOwned(t, l); }
  }
}
