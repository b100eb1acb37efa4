/** The identity lifecycle's tables: identities, what they own, their persons and their evidence, and
    what the index coordinator reads of them. */
module Tables {
  import opened Store

  type IdentityId = nat
  type ObservationId = nat
  type OccurrenceId = nat
  type PersonId = nat
  type LinkId = nat
  type RunId = nat
  type SourceId = nat

  datatype IdentityState = Pending | Active | Merged | Forgotten | Deleted

  // `createdBy`: the run that recognized it as new, if a run did.
  datatype Identity = Identity(state: IdentityState, mergedInto: Option<IdentityId>,
                               representative: Option<ObservationId>, revision: nat, createdBy: Option<RunId> := None)

  // `run`: the processing run that made the row.
  datatype Rep = Rep(observation: ObservationId, identity: Option<IdentityId>, space: SpaceId,
                     state: RepState, key: Option<Key>, vector: Option<Vector>, run: RunId)
  {
    predicate OwnedBy(i: IdentityId) { identity == Some(i) }

    predicate ActiveOf(i: IdentityId) { OwnedBy(i) && state.Active? }
  }

  datatype ObservationState = Pending | Active | Superseded | Rejected | Deleted

  datatype Observation = Observation(run: RunId, source: SourceId, state: ObservationState)

  datatype OccurrenceState = Pending | Active | Superseded | Deleted

  datatype Occurrence = Occurrence(identity: IdentityId, representative: Option<ObservationId>,
                                   members: set<ObservationId>, state: OccurrenceState, created: Time, run: RunId)
  {
    predicate ActiveOf(i: IdentityId) { identity == i && state.Active? }

    // Its members and its representative.
    function Observations(): set<ObservationId> {
      members + if representative.Some? then {representative.value} else {}
    }
  }

  datatype LinkState = Active | Removed | Superseded

  datatype Link = Link(identity: IdentityId, person: PersonId, state: LinkState)
  {
    predicate ActiveOf(i: IdentityId) { identity == i && state.Active? }
  }

  datatype EvidenceKind =
    | IdentityCreated | IdentityMatched | RecognitionAbstained | AssignedToPerson | RemovedFromPerson
    | IdentityMerged | IdentitySplit | IdentityForgotten | UserCorrection

  // Append-only: why, about whom, the representations it cites, and the run that was accepted with it.
  datatype Evidence = Evidence(kind: EvidenceKind, identity: Option<IdentityId>, person: Option<PersonId>,
                               reps: set<RepId>, run: Option<RunId> := None)

  datatype LineageKind = MergedInto | SplitFrom
  datatype Lineage = Lineage(kind: LineageKind, from: IdentityId, to: IdentityId)

  type Identities = map<IdentityId, Identity>
  type Reps = map<RepId, Rep>
  type Occurrences = map<OccurrenceId, Occurrence>
  type Links = map<LinkId, Link>

  // `people` maps to whether the person is ACTIVE; `nextId` stands for the id source.
  datatype Tables = Tables(identities: Identities, reps: Reps, occurrences: Occurrences, links: Links,
                           people: map<PersonId, bool>, observations: map<ObservationId, Observation>,
                           evidence: seq<Evidence>, lineage: seq<Lineage>,
                           ops: Ops, nextOp: OpId, nextKey: map<SpaceId, Key>, nextId: nat)

  // Why a use case refuses; its caller then rolls the transaction back.
  datatype Refusal = Invalid | StaleRevision | SplitConflict(occurrences: set<OccurrenceId>) | Integrity

  datatype Result<+T> = Ok(value: T) | Refused(reason: Refusal)

  predicate IsActive(identities: Identities, i: IdentityId) { i in identities && identities[i].state.Active? }

  predicate HasActiveLink(links: Links, i: IdentityId) { exists l :: l in links && links[l].ActiveOf(i) }

  // ----- what the coordinator reads -----

  function OwnerActive(identities: Identities, rep: Rep): bool {
    rep.identity.None? || IsActive(identities, rep.identity.value)
  }

  function RowOf(identities: Identities, rep: Rep): Row {
    Row(rep.space, rep.state, rep.key, rep.vector, OwnerActive(identities, rep))
  }

  function RowsOf(identities: Identities, reps: Reps): Rows { map r | r in reps :: RowOf(identities, reps[r]) }

  function View(t: Tables, marker: Option<Token>, nextToken: Token): Db {
    Db(RowsOf(t.identities, t.reps), t.ops, t.nextOp, t.nextKey, marker, nextToken)
  }

  // Nothing a rebuild would read, and nothing queued, differs.
  ghost predicate SameIndex(t: Tables, t': Tables) {
    && t'.ops == t.ops && t'.nextOp == t.nextOp && t'.nextKey == t.nextKey && t'.reps.Keys == t.reps.Keys
    && forall r :: r in t.reps ==>
         && t'.reps[r] == t.reps[r].(identity := t'.reps[r].identity)
         && (RowOf(t'.identities, t'.reps[r]).Eligible() <==> RowOf(t.identities, t.reps[r]).Eligible())
  }

  // ----- the invariants -----

  // What refers to an identity refers to one there is, and what is ACTIVE to an ACTIVE one.
  ghost predicate RepOwned(t: Tables, r: RepId)
    requires r in t.reps
  {
    var rep := t.reps[r];
    rep.identity.Some? ==> rep.identity.value in t.identities && (rep.state.Active? ==> IsActive(t.identities, rep.identity.value))
  }

  ghost predicate OccurrenceOwned(t: Tables, o: OccurrenceId)
    requires o in t.occurrences
  {
    var i := t.occurrences[o].identity;
    i in t.identities && (t.occurrences[o].state.Active? ==> IsActive(t.identities, i))
  }

  ghost predicate LinkOwned(t: Tables, l: LinkId)
    requires l in t.links
  {
    var i := t.links[l].identity;
    && i in t.identities && (t.links[l].state.Active? ==> IsActive(t.identities, i))
    && (t.links[l].state.Active? ==> forall k :: k in t.links && t.links[k].ActiveOf(i) ==> k == l)
  }

  ghost predicate Owned(t: Tables) {
    && (forall r {:trigger RepOwned(t, r)} :: r in t.reps ==> RepOwned(t, r))
    && (forall o {:trigger OccurrenceOwned(t, o)} :: o in t.occurrences ==> OccurrenceOwned(t, o))
    && (forall l {:trigger LinkOwned(t, l)} :: l in t.links ==> LinkOwned(t, l))
  }

  // Exactly the MERGED ones point to another identity.
  ghost predicate Pointing(identities: Identities) {
    forall i :: i in identities ==>
      && (identities[i].mergedInto.Some? <==> identities[i].state.Merged?)
      && (identities[i].mergedInto.Some? ==> identities[i].mergedInto.value in identities)
  }

  ghost predicate Ranked(identities: Identities, rank: map<IdentityId, nat>) {
    && (forall i :: i in identities ==> i in rank)
    && (forall i | i in identities && identities[i].mergedInto.Some? && identities[i].mergedInto.value in identities ::
          rank[i] < rank[identities[i].mergedInto.value])
  }

  // The merge pointers form no cycle.
  ghost predicate Forest(identities: Identities) {
    Pointing(identities) && exists rank :: Ranked(identities, rank)
  }

  ghost predicate IdsDrawn(t: Tables) {
    && (forall i :: i in t.identities ==> i < t.nextId) && (forall o :: o in t.occurrences ==> o < t.nextId)
    && (forall l :: l in t.links ==> l < t.nextId) && (forall p :: p in t.people ==> p < t.nextId)
  }

  ghost predicate LifecycleInv(t: Tables) { Owned(t) && Forest(t.identities) && IdsDrawn(t) }
}
