/** `processing/accept_run.py`: the one transaction that makes a run's private rows visible, and the
    re-check of a run accepted before. */
module Acceptance {
  import opened Store
  import opened IndexQueue
  import opened Tables
  import opened IdentityManager

  datatype Outcome = CreateNew | MatchExisting | Abstain

  // `reasoned`: the decision follows from its own evidence under the run's frozen policy.
  datatype Decision = Decision(observation: ObservationId, rep: RepId, outcome: Outcome,
                               identity: Option<IdentityId>, space: SpaceId, reasoned: bool)

  // The payload of a current, supported FINAL checkpoint whose entries parse.
  datatype Final = Final(observations: seq<ObservationId>, decisions: seq<Decision>)

  datatype RunState = Finalizing | Completed | Other
  datatype JobState = Running | Done | NotRunning

  // The run with its job and its source: whether the source and its original are usable, and which
  // run the source shows.
  datatype Run = Run(id: RunId, source: SourceId, state: RunState, job: JobState, usable: bool, shown: Option<RunId>,
                     configured: bool, final: Option<Final>)

  // ----- what a FINAL checkpoint must be -----

  predicate Distinct<T(==)>(s: seq<T>) { forall i, j :: 0 <= i < j < |s| ==> s[i] != s[j] }

  function ObservationsOf(ds: seq<Decision>): set<ObservationId> { set d | d in ds :: d.observation }

  function RepsOf(ds: seq<Decision>): set<RepId> { set d | d in ds :: d.rep }

  function Elements(s: seq<ObservationId>): set<ObservationId> { set o | o in s }

  predicate WellFormed(final: Final) {
    && Distinct(final.observations)
    && ObservationsOf(final.decisions) == Elements(final.observations)
    && forall i, j :: 0 <= i < j < |final.decisions| ==> final.decisions[i].rep != final.decisions[j].rep
  }

  // `_validate_decision_identity`.
  predicate IdentityAgrees(t: Tables, run: RunId, d: Decision, rep: Rep) {
    match d.outcome
    case Abstain => d.identity.None? && rep.identity.None?
    case CreateNew =>
      && d.identity.Some? && rep.identity == d.identity && d.identity.value in t.identities
      && t.identities[d.identity.value].state.Pending? && t.identities[d.identity.value].createdBy == Some(run)
    case MatchExisting => d.identity.Some? && rep.identity == d.identity && IsActive(t.identities, d.identity.value)
  }

  predicate DecisionAgrees(t: Tables, run: RunId, d: Decision) {
    && d.rep in t.reps
    && var rep := t.reps[d.rep];
       rep.state.Pending? && rep.observation == d.observation && rep.vector.Some? && rep.space == d.space && d.reasoned
       && IdentityAgrees(t, run, d, rep)
  }

  function PendingObservations(t: Tables, run: RunId, source: SourceId): set<ObservationId> {
    set o | o in t.observations && t.observations[o].run == run && t.observations[o].source == source && t.observations[o].state.Pending?
  }

  // `_validate_private_output`: FINAL names exactly the run's PENDING observations of its source and
  // all its representations, each as it is.
  predicate PrivateOutput(t: Tables, run: RunId, source: SourceId, final: Final) {
    && PendingObservations(t, run, source)
       == ObservationsOf(final.decisions)
    && (set r | r in t.reps && t.reps[r].run == run) == RepsOf(final.decisions)
    && forall d :: d in final.decisions ==> DecisionAgrees(t, run, d)
  }

  // ----- accepting -----

  function KindOf(outcome: Outcome): EvidenceKind {
    match outcome
    case CreateNew => IdentityCreated
    case MatchExisting => IdentityMatched
    case Abstain => RecognitionAbstained
  }

  function Placed(t: Tables, i: IdentityId, observation: ObservationId, run: RunId, now: Time): Tables {
    t.(occurrences := t.occurrences[t.nextId := Occurrence(i, Some(observation), {observation}, OccurrenceState.Active, now, run)],
       nextId := t.nextId + 1)
  }

  // `_accept_decision`.
  function AcceptOne(t: Tables, d: Decision, run: RunId, now: Time): Result<Tables> {
    if d.rep !in t.reps then Refused(Invalid)
    else if d.outcome.Abstain? then
      Ok(AfterAbstain(t, d.rep, now).(ops := Append(t.ops, t.nextOp, NewOp(d.rep, t.reps[d.rep].space, Add), now)))
    else if d.identity.None? || d.identity.value !in t.identities then Refused(Invalid)
    else
      var i := d.identity.value;
      if d.outcome.CreateNew? && ActivationRefusal(t, i, t.identities[i].revision).Some? then Refused(Invalid)
      else
        var u := if d.outcome.CreateNew? then AfterActivate(t, i) else t;
        if AssignRefusal(u, d.rep, i, KindOf(d.outcome)).Some? then Refused(Invalid)
        else Ok(Placed(AfterAssign(u, d.rep, i, KindOf(d.outcome), now), i, d.observation, run, now))
  }

  function AcceptAll(t: Tables, ds: seq<Decision>, n: nat, run: RunId, now: Time): Result<Tables>
    requires n <= |ds|
  {
    if n == 0 then Ok(t)
    else
      match AcceptAll(t, ds, n - 1, run, now)
      case Ok(mid) => AcceptOne(mid, ds[n - 1], run, now)
      case Refused(e) => Refused(e)
  }

  // ----- when every decision goes through -----

  // No two decisions recognize the same identity as new.
  predicate NewOnce(ds: seq<Decision>) {
    forall j, k :: 0 <= j < k < |ds| && ds[j].outcome.CreateNew? && ds[k].outcome.CreateNew? ==> ds[j].identity != ds[k].identity
  }

  predicate NoneCreated(t: Tables, ds: seq<Decision>) {
    forall d :: d in ds && d.outcome.CreateNew? && d.identity.Some? ==> !HasCreationEvidence(t, d.identity.value)
  }

  ghost predicate Named(ds: seq<Decision>, n: nat, r: RepId) { exists k :: 0 <= k < n && k < |ds| && ds[k].rep == r }

  ghost predicate CreatedBy(ds: seq<Decision>, n: nat, i: IdentityId) {
    exists k :: 0 <= k < n && k < |ds| && ds[k].outcome.CreateNew? && ds[k].identity == Some(i)
  }

  // Each as the validated output says, about a representation of its own.
  ghost predicate Agreed(t: Tables, ds: seq<Decision>, run: RunId) {
    && (forall k {:trigger DecisionAgrees(t, run, ds[k])} :: 0 <= k < |ds| ==> DecisionAgrees(t, run, ds[k]))
    && (forall j, k :: 0 <= j < k < |ds| ==> ds[j].rep != ds[k].rep)
  }

  ghost predicate CreationKnown(t0: Tables, t: Tables, ds: seq<Decision>, n: nat, i: IdentityId) {
    HasCreationEvidence(t, i) <==> HasCreationEvidence(t0, i) || CreatedBy(ds, n, i)
  }

  ghost predicate StateAfter(t0: Tables, t: Tables, ds: seq<Decision>, n: nat, i: IdentityId)
    requires i in t0.identities && i in t.identities
  {
    t.identities[i].state == if CreatedBy(ds, n, i) then IdentityState.Active else t0.identities[i].state
  }

  // What the next decision looks at, after the first `n`.
  ghost predicate Underway(t0: Tables, t: Tables, ds: seq<Decision>, n: nat) {
    && t.reps.Keys == t0.reps.Keys && t.identities.Keys == t0.identities.Keys
    && (forall r {:trigger Named(ds, n, r)} :: r in t0.reps && !Named(ds, n, r) ==> t.reps[r] == t0.reps[r])
    && (forall i {:trigger StateAfter(t0, t, ds, n, i)} :: i in t0.identities ==> StateAfter(t0, t, ds, n, i))
    && (forall i {:trigger CreationKnown(t0, t, ds, n, i)} :: CreationKnown(t0, t, ds, n, i))
  }

  lemma CreatedNext(ds: seq<Decision>, n: nat, i: IdentityId)
    requires n < |ds|
    ensures CreatedBy(ds, n + 1, i) <==> CreatedBy(ds, n, i) || (ds[n].outcome.CreateNew? && ds[n].identity == Some(i))
  {
    if CreatedBy(ds, n, i) {
      var k :| 0 <= k < n && ds[k].outcome.CreateNew? && ds[k].identity == Some(i);
      assert k < n + 1 && ds[k].outcome.CreateNew? && ds[k].identity == Some(i);
    }
    if ds[n].outcome.CreateNew? && ds[n].identity == Some(i) { assert CreatedBy(ds, n + 1, i); }
  }

  lemma NamedNext(ds: seq<Decision>, n: nat, r: RepId)
    requires n < |ds|
    ensures Named(ds, n + 1, r) <==> Named(ds, n, r) || ds[n].rep == r
  {
    if Named(ds, n, r) { var k :| 0 <= k < n && ds[k].rep == r; assert ds[k].rep == r; }
    if ds[n].rep == r { assert Named(ds, n + 1, r); }
  }

  lemma RecordShows(t: Tables, u: Tables, e: Evidence, i: IdentityId)
    requires u.evidence == t.evidence + [e]
    ensures HasCreationEvidence(u, i) <==> HasCreationEvidence(t, i) || (e.kind.IdentityCreated? && e.identity == Some(i))
  {
    if HasCreationEvidence(t, i) {
      var n :| 0 <= n < |t.evidence| && t.evidence[n].kind.IdentityCreated? && t.evidence[n].identity == Some(i);
      assert u.evidence[n] == t.evidence[n];
    }
    if e.kind.IdentityCreated? && e.identity == Some(i) { assert u.evidence[|t.evidence|] == e; }
  }

  // Whether the next decision goes through.
  lemma NextGoesThrough(t0: Tables, t: Tables, ds: seq<Decision>, n: nat, run: RunId, now: Time)
    requires n < |ds| && Agreed(t0, ds, run) && Underway(t0, t, ds, n)
    ensures AcceptOne(t, ds[n], run, now).Ok? <==> FreshAt(t0, ds, n)
  {
    var d := ds[n];
    assert DecisionAgrees(t0, run, d) && !Named(ds, n, d.rep);
    if !d.outcome.Abstain? {
      var i := d.identity.value;
      assert StateAfter(t0, t, ds, n, i) && CreationKnown(t0, t, ds, n, i);
      if d.outcome.CreateNew? && ActivationRefusal(t, i, t.identities[i].revision).None? {
        assert HasCreationEvidence(AfterActivate(t, i), i) <==> HasCreationEvidence(t, i);
      }
    }
  }

  ghost predicate StateMoves(t: Tables, u: Tables, d: Decision, i: IdentityId)
    requires i in t.identities && i in u.identities
  {
    u.identities[i].state == if d.outcome.CreateNew? && d.identity == Some(i) then IdentityState.Active else t.identities[i].state
  }

  // What one decision changes of that.
  ghost predicate OneUnderway(t: Tables, u: Tables, d: Decision) {
    && d.rep in t.reps && u.reps.Keys == t.reps.Keys && u.identities.Keys == t.identities.Keys
    && (forall r :: r in t.reps && r != d.rep ==> u.reps[r] == t.reps[r])
    && (forall i {:trigger StateMoves(t, u, d, i)} :: i in t.identities ==> StateMoves(t, u, d, i))
    && |u.evidence| == |t.evidence| + 1
    && var e := u.evidence[|t.evidence|];
       u.evidence == t.evidence + [e] && e.kind == KindOf(d.outcome) && e.identity == d.identity
  }

  lemma AbstentionMoves(t: Tables, d: Decision, run: RunId, now: Time)
    requires d.rep in t.reps && d.outcome.Abstain? && d.identity.None?
    ensures OneUnderway(t, AcceptOne(t, d, run, now).value, d)
  {}

  // `v`: the tables after the identity was activated, if it was new.
  lemma PlacementMoves(t: Tables, v: Tables, d: Decision, run: RunId, now: Time)
    requires d.rep in t.reps && !d.outcome.Abstain? && d.identity.Some? && d.identity.value in t.identities
    requires v == t.(identities := v.identities) && v.identities.Keys == t.identities.Keys
    requires forall i {:trigger StateMoves(t, v, d, i)} :: i in t.identities ==> StateMoves(t, v, d, i)
    ensures OneUnderway(t, Placed(AfterAssign(v, d.rep, d.identity.value, KindOf(d.outcome), now), d.identity.value, d.observation, run, now), d)
  {
    var u := Placed(AfterAssign(v, d.rep, d.identity.value, KindOf(d.outcome), now), d.identity.value, d.observation, run, now);
    forall i | i in t.identities ensures StateMoves(t, u, d, i) { assert StateMoves(t, v, d, i); }
  }

  lemma OneMoves(t: Tables, d: Decision, run: RunId, now: Time)
    requires AcceptOne(t, d, run, now).Ok? && (d.outcome.Abstain? ==> d.identity.None?)
    ensures OneUnderway(t, AcceptOne(t, d, run, now).value, d)
  {
    if d.outcome.Abstain? { AbstentionMoves(t, d, run, now); }
    else { PlacementMoves(t, if d.outcome.CreateNew? then AfterActivate(t, d.identity.value) else t, d, run, now); }
  }

  lemma UnderwayNext(t0: Tables, t: Tables, u: Tables, ds: seq<Decision>, n: nat)
    requires n < |ds| && Underway(t0, t, ds, n) && OneUnderway(t, u, ds[n])
    ensures Underway(t0, u, ds, n + 1)
  {
    forall r | r in t0.reps && !Named(ds, n + 1, r) ensures u.reps[r] == t0.reps[r] {
      NamedNext(ds, n, r);
      assert !Named(ds, n, r);
    }
    forall i | i in t0.identities ensures StateAfter(t0, u, ds, n + 1, i) {
      CreatedNext(ds, n, i);
      assert StateAfter(t0, t, ds, n, i) && StateMoves(t, u, ds[n], i);
    }
    var e, m := u.evidence[|t.evidence|], n + 1;
    forall i ensures CreationKnown(t0, u, ds, m, i) {
      CreatedNext(ds, n, i);
      RecordShows(t, u, e, i);
      assert CreationKnown(t0, t, ds, n, i);
    }
  }

  // It does not recognize as new whom an earlier one did, or who was recorded as created before.
  ghost predicate FreshAt(t0: Tables, ds: seq<Decision>, k: nat)
    requires k < |ds|
  {
    ds[k].outcome.CreateNew? && ds[k].identity.Some? ==>
      !CreatedBy(ds, k, ds[k].identity.value) && !HasCreationEvidence(t0, ds[k].identity.value)
  }

  ghost predicate AllFresh(t0: Tables, ds: seq<Decision>, n: nat)
    requires n <= |ds|
  {
    forall k {:trigger FreshAt(t0, ds, k)} :: 0 <= k < n ==> FreshAt(t0, ds, k)
  }

  lemma NextStep(t0: Tables, t: Tables, ds: seq<Decision>, n: nat, run: RunId, now: Time)
    requires n < |ds| && Agreed(t0, ds, run) && Underway(t0, t, ds, n)
    ensures AcceptOne(t, ds[n], run, now).Ok? <==> FreshAt(t0, ds, n)
    ensures AcceptOne(t, ds[n], run, now).Ok? ==> Underway(t0, AcceptOne(t, ds[n], run, now).value, ds, n + 1)
  {
    assert DecisionAgrees(t0, run, ds[n]);
    NextGoesThrough(t0, t, ds, n, run, now);
    if AcceptOne(t, ds[n], run, now).Ok? {
      OneMoves(t, ds[n], run, now);
      UnderwayNext(t0, t, AcceptOne(t, ds[n], run, now).value, ds, n);
    }
  }

  lemma NothingUnderway(t0: Tables, ds: seq<Decision>)
    ensures Underway(t0, t0, ds, 0)
  {
    forall i ensures CreationKnown(t0, t0, ds, 0, i) {}
    forall i | i in t0.identities ensures StateAfter(t0, t0, ds, 0, i) {}
  }

  lemma {:induction false} FirstGoThrough(t0: Tables, ds: seq<Decision>, n: nat, run: RunId, now: Time)
    requires Agreed(t0, ds, run) && n <= |ds|
    ensures AcceptAll(t0, ds, n, run, now).Ok? <==> AllFresh(t0, ds, n)
    ensures AcceptAll(t0, ds, n, run, now).Ok? ==> Underway(t0, AcceptAll(t0, ds, n, run, now).value, ds, n)
    decreases n
  {
    if n == 0 {
      NothingUnderway(t0, ds);
    } else {
      FirstGoThrough(t0, ds, n - 1, run, now);
      assert AllFresh(t0, ds, n) <==> AllFresh(t0, ds, n - 1) && FreshAt(t0, ds, n - 1);
      if AcceptAll(t0, ds, n - 1, run, now).Ok? {
        NextStep(t0, AcceptAll(t0, ds, n - 1, run, now).value, ds, n - 1, run, now);
      }
    }
  }

  // All decisions of a validated output go through exactly when each identity recognized as new is so
  // once, and was never recorded as created.
  lemma AllGoThrough(t0: Tables, ds: seq<Decision>, run: RunId, now: Time)
    requires Agreed(t0, ds, run)
    ensures AcceptAll(t0, ds, |ds|, run, now).Ok? <==> NewOnce(ds) && NoneCreated(t0, ds)
  {
    FirstGoThrough(t0, ds, |ds|, run, now);
    forall k | 0 <= k < |ds| ensures ds[k].outcome.CreateNew? ==> ds[k].identity.Some? { assert DecisionAgrees(t0, run, ds[k]); }
    if AllFresh(t0, ds, |ds|) {
      forall j, k | 0 <= j < k < |ds| && ds[j].outcome.CreateNew? && ds[k].outcome.CreateNew? ensures ds[j].identity != ds[k].identity {
        assert FreshAt(t0, ds, k);
      }
      forall d | d in ds && d.outcome.CreateNew? && d.identity.Some? ensures !HasCreationEvidence(t0, d.identity.value) {
        var k :| 0 <= k < |ds| && ds[k] == d;
        assert FreshAt(t0, ds, k);
      }
    }
    if NewOnce(ds) && NoneCreated(t0, ds) {
      forall k | 0 <= k < |ds| ensures FreshAt(t0, ds, k) { assert ds[k] in ds; }
    }
  }

  lemma ValidatedIsAgreed(t: Tables, row: Run)
    requires Handable(t, row)
    ensures Agreed(t, row.final.value.decisions, row.id)
  {
    var ds := row.final.value.decisions;
    forall k | 0 <= k < |ds| ensures DecisionAgrees(t, row.id, ds[k]) { assert ds[k] in ds; }
  }

  function Shown(observations: map<ObservationId, Observation>, names: set<ObservationId>): map<ObservationId, Observation> {
    map o | o in observations :: if o in names then observations[o].(state := ObservationState.Active) else observations[o]
  }

  // ----- the re-check of a completed run -----

  // `_validate_accepted_artifacts` of one decision: its evidence, its occurrence, its ADD.
  predicate ArtifactsOk(t: Tables, d: Decision, run: RunId) {
    && d.rep in t.reps
    && |EvidenceOf(t, d, run)| == 1
    && (if d.outcome.Abstain? then OccurrencesAt(t, d.observation, run) == {}
        else
          && |OccurrencesAt(t, d.observation, run)| == 1
          && forall o :: o in OccurrencesAt(t, d.observation, run) ==>
               t.occurrences[o].state.Active? && Some(t.occurrences[o].identity) == d.identity && t.occurrences[o].members == {d.observation})
    && |AddsOf(t, d.rep)| == 1
  }

  function EvidenceOf(t: Tables, d: Decision, run: RunId): set<nat> {
    set n | 0 <= n < |t.evidence| && t.evidence[n] == Evidence(KindOf(d.outcome), d.identity, None, {d.rep}, Some(run))
  }

  function OccurrencesAt(t: Tables, observation: ObservationId, run: RunId): set<OccurrenceId> {
    set o | o in t.occurrences && t.occurrences[o].run == run && observation in t.occurrences[o].members
  }

  function AddsOf(t: Tables, r: RepId): set<OpId> { set o | o in t.ops && IsOp(t.ops[o], r, Add) }

  predicate RowsOk(t: Tables, d: Decision) {
    && d.rep in t.reps && d.observation in t.observations
    && t.reps[d.rep].state.Active? && t.observations[d.observation].state.Active? && t.reps[d.rep].key.Some?
    && t.reps[d.rep].identity == if d.outcome.Abstain? then None else d.identity
  }

  predicate Recheck(t: Tables, run: Run) {
    && run.final.Some? && run.shown == Some(run.id) && run.job.Done?
    && forall d :: d in run.final.value.decisions ==> RowsOk(t, d) && ArtifactsOk(t, d, run.id)
  }

  // ----- the transaction -----

  class ProcessingRun {
    const id: RunId
    const source: SourceId
    const usable: bool
    const configured: bool
    const final: Option<Final>
    var state: RunState
    var job: JobState
    var shown: Option<RunId>

    constructor (row: Run)
      ensures Row() == row
    {
      id, source, usable, configured, final := row.id, row.source, row.usable, row.configured, row.final;
      state, job, shown := row.state, row.job, row.shown;
    }

    function Row(): Run
      reads this
    {
      Run(id, source, state, job, usable, shown, configured, final)
    }
  }

  predicate Handable(t: Tables, row: Run) {
    && row.final.Some? && WellFormed(row.final.value) && row.configured
    && row.state.Finalizing? && row.job.Running? && row.usable && PrivateOutput(t, row.id, row.source, row.final.value)
  }

  // `_accept`: all of it or nothing. True when the run was accepted before and still checks out.
  method Accept(session: LifecycleSession, run: ProcessingRun, now: Time) returns (r: Result<bool>)
    requires session.nextId !in session.links
    modifies session, run
    ensures r == Ok(true) <==> old(run.state).Completed? && run.configured && run.final.Some? && WellFormed(run.final.value)
                               && Recheck(old(session.T()), old(run.Row()))
    ensures r == Ok(false) <==> Handable(old(session.T()), old(run.Row()))
                                && NewOnce(run.final.value.decisions) && NoneCreated(old(session.T()), run.final.value.decisions)
    ensures r == Ok(false) ==>
      && AcceptAll(old(session.T()), run.final.value.decisions, |run.final.value.decisions|, run.id, now).Ok?
      && var handed := AcceptAll(old(session.T()), run.final.value.decisions, |run.final.value.decisions|, run.id, now).value;
      && session.T() == handed.(observations := Shown(handed.observations, Elements(run.final.value.observations)))
      && run.Row() == old(run.Row()).(state := Completed, job := Done, shown := Some(run.id))
    ensures r != Ok(false) ==> session.T() == old(session.T()) && run.Row() == old(run.Row())
  {
    var before := session.T();
    if run.final.None? || !WellFormed(run.final.value) || !run.configured { return Refused(Invalid); }
    var final := run.final.value;
    if run.state.Completed? {
      return if Recheck(session.T(), run.Row()) then Ok(true) else Refused(Invalid);
    }
    if !run.state.Finalizing? || !run.job.Running? || !run.usable || !PrivateOutput(session.T(), run.id, run.source, final) { return Refused(Invalid); }
    ValidatedIsAgreed(before, run.Row());
    AllGoThrough(before, final.decisions, run.id, now);
    var ok := AcceptDecisions(session, final.decisions, run.id, now);
    if !ok {
      session.Rollback(before);
      return Refused(Invalid);
    }
    session.observations := Shown(session.observations, Elements(final.observations));
    run.state, run.job, run.shown := Completed, Done, Some(run.id);
    r := Ok(false);
  }

  method AcceptDecisions(session: LifecycleSession, ds: seq<Decision>, run: RunId, now: Time) returns (ok: bool)
    modifies session
    ensures ok <==> AcceptAll(old(session.T()), ds, |ds|, run, now).Ok?
    ensures ok ==> session.T() == AcceptAll(old(session.T()), ds, |ds|, run, now).value
  {
    ghost var t := session.T();
    var n := 0;
    while n < |ds|
      invariant 0 <= n <= |ds|
      invariant AcceptAll(t, ds, n, run, now) == Ok(session.T())
    {
      ok := AcceptNext(session, t, ds, n, run, now);
      if !ok { return; }
      n := n + 1;
    }
    ok := true;
  }

  method AcceptNext(session: LifecycleSession, ghost t: Tables, ds: seq<Decision>, n: nat, run: RunId, now: Time) returns (ok: bool)
    requires n < |ds| && AcceptAll(t, ds, n, run, now) == Ok(session.T())
    modifies session
    ensures if ok then AcceptAll(t, ds, n + 1, run, now) == Ok(session.T()) else AcceptAll(t, ds, |ds|, run, now).Refused?
  {
    ok := AcceptDecision(session, ds[n], run, now);
    if !ok { AcceptStops(t, ds, n + 1, |ds|, run, now); }
  }

  lemma {:induction false} AcceptStops(t: Tables, ds: seq<Decision>, m: nat, n: nat, run: RunId, now: Time)
    requires m <= n <= |ds| && AcceptAll(t, ds, m, run, now).Refused?
    ensures AcceptAll(t, ds, n, run, now).Refused?
    decreases n
  {
    if m < n { AcceptStops(t, ds, m, n - 1, run, now); }
  }

  method AcceptDecision(session: LifecycleSession, d: Decision, run: RunId, now: Time) returns (ok: bool)
    modifies session
    ensures ok <==> AcceptOne(old(session.T()), d, run, now).Ok?
    ensures ok ==> session.T() == AcceptOne(old(session.T()), d, run, now).value
  {
    if d.rep !in session.reps { return false; }
    if d.outcome.Abstain? {
      AcceptAbstention(session, d.rep, now);
      return true;
    }
    if d.identity.None? || d.identity.value !in session.identities { return false; }
    var i := d.identity.value;
    if d.outcome.CreateNew? {
      var activated := ActivateIdentity(session, i, session.identities[i].revision);
      if activated.Refused? { return false; }
    }
    var given := AssignRepresentation(session, d.rep, i, KindOf(d.outcome), now);
    if given.Refused? { return false; }
    AddOccurrence(session, i, d.observation, run, now);
    ok := true;
  }

  method AddOccurrence(session: LifecycleSession, i: IdentityId, observation: ObservationId, run: RunId, now: Time)
    modifies session`occurrences, session`nextId
    ensures session.T() == Placed(old(session.T()), i, observation, run, now)
  {
    var id := session.NewId();
    session.occurrences := session.occurrences[id := Occurrence(i, Some(observation), {observation}, OccurrenceState.Active, now, run)];
  }

  method AcceptAbstention(session: LifecycleSession, r: RepId, now: Time)
    requires r in session.reps
    modifies session
    ensures session.T() == AfterAbstain(old(session.T()), r, now).(
      ops := Append(old(session.ops), old(session.nextOp), NewOp(r, old(session.reps)[r].space, Add), now))
  {
    TakeKey(session, r, None);
    session.Record(Evidence(RecognitionAbstained, None, None, {r}, Some(session.reps[r].run)));
    session.ops := Append(session.ops, session.nextOp, NewOp(r, session.reps[r].space, Add), now);
    session.nextOp := session.nextOp + 1;
  }
}
