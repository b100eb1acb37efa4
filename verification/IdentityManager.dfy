/** `identities/use_cases.py`: create, activate, assign, merge and split. A refusal is the caller's
    rollback, so it leaves the tables as they were. */
module IdentityManager {
  import opened Store
  import opened IndexQueue
  import opened Tables

  class LifecycleSession {
    var identities: Identities
    var reps: Reps
    var occurrences: Occurrences
    var links: Links
    var people: map<PersonId, bool>
    var observations: map<ObservationId, Observation>
    var evidence: seq<Evidence>
    var lineage: seq<Lineage>
    var ops: Ops
    var nextOp: OpId
    var nextKey: map<SpaceId, Key>
    var nextId: nat

    constructor (t: Tables)
      ensures T() == t
    {
      identities, reps, occurrences, links := t.identities, t.reps, t.occurrences, t.links;
      people, observations, evidence, lineage := t.people, t.observations, t.evidence, t.lineage;
      ops, nextOp, nextKey, nextId := t.ops, t.nextOp, t.nextKey, t.nextId;
    }

    function T(): Tables
      reads this
    {
      Tables(identities, reps, occurrences, links, people, observations, evidence, lineage, ops, nextOp, nextKey, nextId)
    }

    // The caller's rollback after a refusal.
    method Rollback(t: Tables)
      modifies this
      ensures T() == t
    {
      RestoreRows(t);
      evidence, lineage, ops, nextOp, nextKey, nextId := t.evidence, t.lineage, t.ops, t.nextOp, t.nextKey, t.nextId;
    }

    method RestoreRows(t: Tables)
      modifies this`identities, this`reps, this`occurrences, this`links, this`people, this`observations
      ensures identities == t.identities && reps == t.reps && occurrences == t.occurrences
      ensures links == t.links && people == t.people && observations == t.observations
    {
      identities, reps, occurrences, links, people, observations :=
        t.identities, t.reps, t.occurrences, t.links, t.people, t.observations;
    }

    method NewId() returns (id: nat)
      modifies this`nextId
      ensures id == old(nextId) && nextId == id + 1
    {
      id := nextId;
      nextId := id + 1;
    }

    // `allocate_ann_key`: the sequence row is created at 1 on first use.
    method AllocateAnnKey(space: SpaceId) returns (key: Key)
      modifies this`nextKey
      ensures key == NextKey(old(nextKey), space) && nextKey == old(nextKey)[space := key + 1]
    {
      if space !in nextKey { nextKey := nextKey[space := 1]; }
      key := nextKey[space];
      nextKey := nextKey[space := nextKey[space] + 1];
    }

    method Record(e: Evidence)
      modifies this`evidence
      ensures evidence == old(evidence) + [e]
    {
      evidence := evidence + [e];
    }
  }

  // `touch_identity`: what it owns changed, so an earlier view is stale.
  function Touched(identities: Identities, i: IdentityId): Identities
    requires i in identities
  {
    identities[i := identities[i].(revision := identities[i].revision + 1)]
  }

  const NEW := Identity(IdentityState.Active, None, None, 1)

  // ----- create and activate -----

  function AfterCreate(t: Tables, representative: Option<ObservationId>, run: RunId): Tables {
    t.(identities := t.identities[t.nextId := Identity(IdentityState.Pending, None, representative, 1, Some(run))], nextId := t.nextId + 1)
  }

  method CreatePendingIdentity(session: LifecycleSession, representative: Option<ObservationId>, run: RunId) returns (id: IdentityId)
    modifies session
    ensures id == old(session.nextId) && session.T() == AfterCreate(old(session.T()), representative, run)
  {
    id := session.nextId;
    session.nextId := id + 1;
    session.identities := session.identities[id := Identity(IdentityState.Pending, None, representative, 1, Some(run))];
  }

  function ActivationRefusal(t: Tables, i: IdentityId, expected: nat): Option<Refusal> {
    if i !in t.identities then Some(Invalid)
    else if t.identities[i].revision != expected then Some(StaleRevision)
    else if !t.identities[i].state.Pending? then Some(Invalid)
    else None
  }

  function AfterActivate(t: Tables, i: IdentityId): Tables
    requires i in t.identities
  {
    t.(identities := Touched(t.identities, i)[i := t.identities[i].(state := IdentityState.Active, revision := t.identities[i].revision + 1)])
  }

  method ActivateIdentity(session: LifecycleSession, i: IdentityId, expected: nat) returns (r: Result<IdentityId>)
    modifies session
    ensures match ActivationRefusal(old(session.T()), i, expected)
      case Some(e) => r == Refused(e) && session.T() == old(session.T())
      case None => r == Ok(i) && session.T() == AfterActivate(old(session.T()), i)
  {
    var identities := session.identities;
    // one guarded UPDATE
    if i in identities && identities[i].revision == expected && identities[i].state.Pending? {
      session.identities := identities[i := identities[i].(state := IdentityState.Active, revision := expected + 1)];
      return Ok(i);
    }
    if i in identities && identities[i].revision != expected { return Refused(StaleRevision); }
    return Refused(Invalid);
  }

  // ----- assign -----

  predicate HasCreationEvidence(t: Tables, i: IdentityId) {
    exists n :: 0 <= n < |t.evidence| && t.evidence[n].kind.IdentityCreated? && t.evidence[n].identity == Some(i)
  }

  function AssignRefusal(t: Tables, r: RepId, i: IdentityId, kind: EvidenceKind): Option<Refusal> {
    if !kind.IdentityCreated? && !kind.IdentityMatched? then Some(Invalid)
    else if r !in t.reps || !t.reps[r].state.Pending? then Some(Invalid)
    else if !IsActive(t.identities, i) then Some(Invalid)
    else if kind.IdentityCreated? && HasCreationEvidence(t, i) then Some(Invalid)
    else None
  }

  // The one place a representation becomes ANN-eligible: its key and its ADD come with it.
  function Keyed(t: Tables, r: RepId, owner: Option<IdentityId>, now: Time): Tables
    requires r in t.reps
  {
    var s := t.reps[r].space;
    var key := NextKey(t.nextKey, s);
    t.(reps := t.reps[r := t.reps[r].(state := RepState.Active, identity := owner, key := Some(key))],
       ops := t.ops[t.nextOp := Fresh(NewOp(r, s, Add), now)], nextOp := t.nextOp + 1, nextKey := t.nextKey[s := key + 1])
  }

  function AfterAssign(t: Tables, r: RepId, i: IdentityId, kind: EvidenceKind, now: Time): Tables
    requires r in t.reps && i in t.identities
  {
    var keyed := Keyed(t, r, Some(i), now);
    keyed.(identities := Touched(t.identities, i), evidence := t.evidence + [Evidence(kind, Some(i), None, {r}, Some(t.reps[r].run))])
  }

  // An accepted ABSTAIN: indexed, and nobody's.
  function AfterAbstain(t: Tables, r: RepId, now: Time): Tables
    requires r in t.reps
  {
    Keyed(t, r, None, now).(evidence := t.evidence + [Evidence(RecognitionAbstained, None, None, {r}, Some(t.reps[r].run))])
  }

  method AssignRepresentation(session: LifecycleSession, r: RepId, i: IdentityId, kind: EvidenceKind, now: Time)
    returns (result: Result<RepId>)
    modifies session
    ensures match AssignRefusal(old(session.T()), r, i, kind)
      case Some(e) => result == Refused(e) && session.T() == old(session.T())
      case None => result == Ok(r) && session.T() == AfterAssign(old(session.T()), r, i, kind, now)
  {
    if !kind.IdentityCreated? && !kind.IdentityMatched? { return Refused(Invalid); }
    if r !in session.reps || !session.reps[r].state.Pending? { return Refused(Invalid); }
    if !IsActive(session.identities, i) { return Refused(Invalid); }
    if kind.IdentityCreated? && HasCreationEvidence(session.T(), i) { return Refused(Invalid); }
    CommitAssignment(session, r, i, kind, now);
    result := Ok(r);
  }

  method CommitAssignment(session: LifecycleSession, r: RepId, i: IdentityId, kind: EvidenceKind, now: Time)
    requires r in session.reps && i in session.identities
    modifies session
    ensures session.T() == AfterAssign(old(session.T()), r, i, kind, now)
  {
    TakeKey(session, r, Some(i));
    session.identities := Touched(session.identities, i);
    session.Record(Evidence(kind, Some(i), None, {r}, Some(session.reps[r].run)));
    session.ops := session.ops[session.nextOp := Fresh(NewOp(r, session.reps[r].space, Add), now)];
    session.nextOp := session.nextOp + 1;
  }

  // The representation becomes ACTIVE under the next key of its space.
  method TakeKey(session: LifecycleSession, r: RepId, owner: Option<IdentityId>)
    requires r in session.reps
    modifies session`reps, session`nextKey
    ensures var row := old(session.reps)[r]; var key := NextKey(old(session.nextKey), row.space);
      && session.reps == old(session.reps)[r := row.(state := RepState.Active, identity := owner, key := Some(key))]
      && session.nextKey == old(session.nextKey)[row.space := key + 1]
  {
    var row := session.reps[r];
    var key := session.AllocateAnnKey(row.space);
    session.reps := session.reps[r := row.(state := RepState.Active, identity := owner, key := Some(key))];
  }

  // ----- merge -----

  // The schema's partial unique index: at most one ACTIVE link per identity.
  ghost predicate OneLinkEach(links: Links) {
    forall k, l | k in links && l in links && links[k].state.Active? && links[l].state.Active? ::
      links[k].identity == links[l].identity ==> k == l
  }

  ghost function PersonOf(links: Links, i: IdentityId): PersonId
    requires HasActiveLink(links, i)
  {
    var l :| l in links && links[l].ActiveOf(i);
    links[l].person
  }

  function EndedLinks(links: Links, i: IdentityId, to: LinkState): Links {
    map l | l in links :: if links[l].ActiveOf(i) then links[l].(state := to) else links[l]
  }

  // The survivor's own naming wins; a name only the loser had carries over.
  ghost function Reconciled(t: Tables, loser: IdentityId, survivor: IdentityId): (u: Tables)
    ensures u == t.(links := u.links, nextId := u.nextId, evidence := u.evidence)
  {
    if !HasActiveLink(t.links, loser) then t
    else
      var ended := EndedLinks(t.links, loser, LinkState.Superseded);
      if HasActiveLink(t.links, survivor) then t.(links := ended)
      else
        var person := PersonOf(t.links, loser);
        t.(links := ended[t.nextId := Link(survivor, person, LinkState.Active)], nextId := t.nextId + 1,
           evidence := t.evidence + [Evidence(AssignedToPerson, Some(survivor), Some(person), {})])
  }

  method ReconcilePersonOnMerge(session: LifecycleSession, loser: IdentityId, survivor: IdentityId)
    requires loser != survivor && OneLinkEach(session.links) && session.nextId !in session.links
    modifies session
    ensures session.T() == Reconciled(old(session.T()), loser, survivor)
  {
    var links := session.links;
    if !HasActiveLink(links, loser) { return; }
    var l :| l in links && links[l].ActiveOf(loser);
    var person := links[l].person;
    if !HasActiveLink(links, survivor) {
      session.evidence := session.evidence + [Evidence(AssignedToPerson, Some(survivor), Some(person), {})];
      session.links := session.links[session.nextId := Link(survivor, person, LinkState.Active)];
      session.nextId := session.nextId + 1;
    }
    session.links := session.links[l := session.links[l].(state := LinkState.Superseded)];
    assert PersonOf(links, loser) == person;
    assert session.links == Reconciled(old(session.T()), loser, survivor).links;
  }

  function MergeRefusal(t: Tables, loser: IdentityId, survivor: IdentityId, expected: nat, expectedSurvivor: Option<nat>): Option<Refusal> {
    if loser == survivor || !IsActive(t.identities, survivor) || !IsActive(t.identities, loser) then Some(Invalid)
    else if expectedSurvivor.Some? && expectedSurvivor.value != t.identities[survivor].revision then Some(StaleRevision)
    else if expected != t.identities[loser].revision then Some(StaleRevision)
    else None
  }

  function RepsMoved(reps: Reps, moved: set<RepId>, to: IdentityId): Reps {
    map r | r in reps :: if r in moved then reps[r].(identity := Some(to)) else reps[r]
  }

  function OccurrencesMoved(occurrences: Occurrences, moved: set<OccurrenceId>, to: IdentityId): Occurrences {
    map o | o in occurrences :: if o in moved then occurrences[o].(identity := to) else occurrences[o]
  }

  function ActiveReps(reps: Reps, i: IdentityId): set<RepId> { set r | r in reps && reps[r].ActiveOf(i) }

  function ActiveOccurrences(occurrences: Occurrences, i: IdentityId): set<OccurrenceId> {
    set o | o in occurrences && occurrences[o].ActiveOf(i)
  }

  function MergedIdentities(identities: Identities, loser: IdentityId, survivor: IdentityId): Identities
    requires loser in identities && survivor in identities
  {
    var l, s := identities[loser], identities[survivor];
    identities[survivor := s.(revision := s.revision + 1, representative := if s.representative.None? then l.representative else s.representative)]
              [loser := l.(state := IdentityState.Merged, mergedInto := Some(survivor), revision := l.revision + 1)]
  }

  ghost function AfterMerge(t: Tables, loser: IdentityId, survivor: IdentityId): Tables
    requires loser in t.identities && survivor in t.identities
  {
    var u := Reconciled(t, loser, survivor);
    var moved := ActiveReps(t.reps, loser);
    u.(identities := MergedIdentities(t.identities, loser, survivor),
       reps := RepsMoved(t.reps, moved, survivor),
       occurrences := OccurrencesMoved(t.occurrences, ActiveOccurrences(t.occurrences, loser), survivor),
       evidence := u.evidence + [Evidence(IdentityMerged, Some(loser), None, moved)],
       lineage := t.lineage + [Lineage(LineageKind.MergedInto, loser, survivor)])
  }

  // What the survivor gains.
  method TakeOver(session: LifecycleSession, loser: IdentityId, survivor: IdentityId)
    requires loser in session.identities && survivor in session.identities && loser != survivor
    modifies session`identities, session`reps, session`occurrences, session`evidence, session`lineage
    ensures session.identities == old(session.identities)[survivor := MergedIdentities(old(session.identities), loser, survivor)[survivor]]
    ensures session.reps == RepsMoved(old(session.reps), ActiveReps(old(session.reps), loser), survivor)
    ensures session.occurrences == OccurrencesMoved(old(session.occurrences), ActiveOccurrences(old(session.occurrences), loser), survivor)
    ensures session.evidence == old(session.evidence) + [Evidence(IdentityMerged, Some(loser), None, ActiveReps(old(session.reps), loser))]
    ensures session.lineage == old(session.lineage) + [Lineage(LineageKind.MergedInto, loser, survivor)]
  {
    session.identities := Touched(session.identities, survivor);
    var moved := ActiveReps(session.reps, loser);
    session.reps := RepsMoved(session.reps, moved, survivor);
    var occurrences := ActiveOccurrences(session.occurrences, loser);
    session.occurrences := OccurrencesMoved(session.occurrences, occurrences, survivor);
    if session.identities[survivor].representative.None? {
      session.identities := session.identities[survivor :=
        session.identities[survivor].(representative := session.identities[loser].representative)];
    }
    session.Record(Evidence(IdentityMerged, Some(loser), None, moved));
    session.lineage := session.lineage + [Lineage(LineageKind.MergedInto, loser, survivor)];
  }

  method MergeIdentities(session: LifecycleSession, loser: IdentityId, survivor: IdentityId, expected: nat, expectedSurvivor: Option<nat>)
    returns (r: Result<IdentityId>)
    requires OneLinkEach(session.links) && session.nextId !in session.links
    modifies session
    ensures match MergeRefusal(old(session.T()), loser, survivor, expected, expectedSurvivor)
      case Some(e) => r == Refused(e) && session.T() == old(session.T())
      case None => r == Ok(survivor) && session.T() == AfterMerge(old(session.T()), loser, survivor)
  {
    var before := session.T();
    if loser == survivor || !IsActive(session.identities, survivor) || !IsActive(session.identities, loser) {
      return Refused(Invalid);
    }
    ReconcilePersonOnMerge(session, loser, survivor);
    if expectedSurvivor.Some? && session.identities[survivor].revision != expectedSurvivor.value {
      session.Rollback(before);
      return Refused(StaleRevision);
    }
    TakeOver(session, loser, survivor);
    var row := session.identities[loser];
    if row.revision != expected {
      session.Rollback(before);
      return Refused(StaleRevision);
    }
    session.identities := session.identities[loser :=
      row.(state := IdentityState.Merged, mergedInto := Some(survivor), revision := row.revision + 1)];
    r := Ok(survivor);
  }
}
