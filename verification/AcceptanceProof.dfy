/** What acceptance writes, and that it is what its own re-check demands unless two decisions share an
    observation. */
module AcceptanceProof {
  import opened Store
  import opened IndexQueue
  import opened Tables
  import opened IdentityManager
  import opened Acceptance

  // A run whose private rows were never accepted: nothing is recorded about it, and its
  // representations were never indexed.
  ghost predicate Unaccepted(t: Tables, run: RunId) {
    && (forall n :: 0 <= n < |t.evidence| ==> t.evidence[n].run != Some(run))
    && (forall o :: o in t.occurrences ==> o < t.nextId && t.occurrences[o].run != run)
    && (forall o :: o in t.ops ==> o < t.nextOp && (t.ops[o].rep in t.reps ==> t.reps[t.ops[o].rep].run != run))
  }

  // The decisions of a run that may be accepted from `t`.
  ghost predicate FromPrivate(t: Tables, ds: seq<Decision>, run: RunId) {
    && (forall k :: 0 <= k < |ds| ==> ds[k].rep in t.reps && t.reps[ds[k].rep].run == run && DecisionAgrees(t, run, ds[k]))
    && (forall j, k :: 0 <= j < k < |ds| ==> ds[j].rep != ds[k].rep)
  }

  // ----- one decision -----

  // The representation is ACTIVE under the next key of its space, with its ADD.
  ghost predicate Indexed(t: Tables, u: Tables, r: RepId, owner: Option<IdentityId>, now: Time)
    requires r in t.reps
  {
    var row := t.reps[r];
    var key := NextKey(t.nextKey, row.space);
    && u.reps == t.reps[r := row.(state := RepState.Active, key := Some(key), identity := owner)]
    && u.nextKey == t.nextKey[row.space := key + 1]
    && u.ops == t.ops[t.nextOp := Fresh(NewOp(r, row.space, Add), now)] && u.nextOp == t.nextOp + 1
  }

  function OwnerOf(d: Decision): Option<IdentityId> { if d.outcome.Abstain? then None else d.identity }

  ghost predicate FaceAdded(t: Tables, u: Tables, d: Decision, run: RunId, now: Time) {
    if d.outcome.Abstain? then u.occurrences == t.occurrences && u.nextId == t.nextId
    else
      && d.identity.Some? && u.nextId == t.nextId + 1
      && u.occurrences == t.occurrences[t.nextId := Occurrence(d.identity.value, Some(d.observation), {d.observation}, OccurrenceState.Active, now, run)]
  }

  // What accepting one decision does, whatever its outcome.
  ghost predicate OneAccepted(t: Tables, u: Tables, d: Decision, run: RunId, now: Time) {
    && d.rep in t.reps && Indexed(t, u, d.rep, OwnerOf(d), now)
    && u.evidence == t.evidence + [Evidence(KindOf(d.outcome), d.identity, None, {d.rep}, Some(run))]
    && FaceAdded(t, u, d, run, now) && u.observations == t.observations
  }

  lemma AbstainAccepted(t: Tables, d: Decision, run: RunId, now: Time)
    requires d.outcome.Abstain? && d.identity.None? && d.rep in t.reps && t.reps[d.rep].run == run
    requires forall o :: o in t.ops ==> t.ops[o].rep != d.rep
    ensures AcceptOne(t, d, run, now).Ok? && OneAccepted(t, AcceptOne(t, d, run, now).value, d, run, now)
  {
    assert Withdraw(t.ops, d.rep, Remove) == t.ops;
  }

  lemma AssignmentAccepted(t: Tables, u: Tables, d: Decision, run: RunId, now: Time)
    requires d.rep in t.reps && t.reps[d.rep].run == run && d.identity.Some? && !d.outcome.Abstain?
    requires u == t.(identities := u.identities) && d.identity.value in u.identities
    ensures OneAccepted(t, Placed(AfterAssign(u, d.rep, d.identity.value, KindOf(d.outcome), now), d.identity.value, d.observation, run, now), d, run, now)
  {}

  lemma OneIsAccepted(t: Tables, d: Decision, run: RunId, now: Time)
    requires AcceptOne(t, d, run, now).Ok? && d.rep in t.reps && t.reps[d.rep].run == run && (d.outcome.Abstain? ==> d.identity.None?)
    requires forall o :: o in t.ops ==> t.ops[o].rep != d.rep
    ensures OneAccepted(t, AcceptOne(t, d, run, now).value, d, run, now)
  {
    if d.outcome.Abstain? { AbstainAccepted(t, d, run, now); }
    else { AssignmentAccepted(t, if d.outcome.CreateNew? then AfterActivate(t, d.identity.value) else t, d, run, now); }
  }

  // ----- all of them -----

  ghost predicate RepAt(t0: Tables, t: Tables, ds: seq<Decision>, k: nat)
    requires k < |ds|
  {
    var d := ds[k];
    && d.rep in t0.reps && d.rep in t.reps
    && t.reps[d.rep] == t0.reps[d.rep].(state := RepState.Active, key := t.reps[d.rep].key, identity := OwnerOf(d))
    && t.reps[d.rep].key.Some?
    && NextKey(t0.nextKey, t.reps[d.rep].space) <= t.reps[d.rep].key.value < NextKey(t.nextKey, t.reps[d.rep].space)
  }

  ghost predicate OpAt(t0: Tables, t: Tables, ds: seq<Decision>, k: nat, now: Time)
    requires k < |ds|
  {
    && ds[k].rep in t0.reps && t0.nextOp + k in t.ops
    && t.ops[t0.nextOp + k] == Fresh(NewOp(ds[k].rep, t0.reps[ds[k].rep].space, Add), now)
  }

  // No two share a key in a space.
  ghost predicate KeysApart(t: Tables, ds: seq<Decision>, j: nat, k: nat)
    requires j < |ds| && k < |ds|
  {
    ds[j].rep in t.reps && ds[k].rep in t.reps && t.reps[ds[j].rep].space == t.reps[ds[k].rep].space
    ==> t.reps[ds[j].rep].key != t.reps[ds[k].rep].key
  }

  // The representations after the first `n` decisions.
  ghost predicate RepsAfter(t0: Tables, t: Tables, ds: seq<Decision>, n: nat)
    requires n <= |ds|
  {
    && t.reps.Keys == t0.reps.Keys && t.observations == t0.observations
    && (forall k {:trigger RepAt(t0, t, ds, k)} :: 0 <= k < n ==> RepAt(t0, t, ds, k))
    && (forall r {:trigger Named(ds, n, r)} :: r in t0.reps && !Named(ds, n, r) ==> t.reps[r] == t0.reps[r])
    && (forall s :: NextKey(t0.nextKey, s) <= NextKey(t.nextKey, s))
    && (forall j, k {:trigger KeysApart(t, ds, j, k)} :: 0 <= j < k < n ==> KeysApart(t, ds, j, k))
  }

  // The queue after the first `n` decisions.
  ghost predicate OpsAfter(t0: Tables, t: Tables, ds: seq<Decision>, n: nat, now: Time)
    requires n <= |ds|
  {
    && t.nextOp == t0.nextOp + n
    && (forall k {:trigger OpAt(t0, t, ds, k, now)} :: 0 <= k < n ==> OpAt(t0, t, ds, k, now))
    && (forall o :: o in t0.ops ==> o in t.ops && t.ops[o] == t0.ops[o])
    && (forall o :: o in t.ops && o !in t0.ops ==> t0.nextOp <= o < t0.nextOp + n)
  }

  lemma KeysOneMore(t0: Tables, t: Tables, u: Tables, ds: seq<Decision>, n: nat, run: RunId, now: Time)
    requires FromPrivate(t0, ds, run) && n < |ds| && RepsAfter(t0, t, ds, n) && OneAccepted(t, u, ds[n], run, now)
    ensures forall j, k {:trigger KeysApart(u, ds, j, k)} :: 0 <= j < k < n + 1 ==> KeysApart(u, ds, j, k)
  {
    forall j, k | 0 <= j < k < n + 1 ensures KeysApart(u, ds, j, k) {
      assert RepAt(t0, t, ds, j);
      if k < n { assert RepAt(t0, t, ds, k) && KeysApart(t, ds, j, k); }
    }
  }

  lemma RepsOneMore(t0: Tables, t: Tables, u: Tables, ds: seq<Decision>, n: nat, run: RunId, now: Time)
    requires FromPrivate(t0, ds, run) && n < |ds| && RepsAfter(t0, t, ds, n) && OneAccepted(t, u, ds[n], run, now)
    ensures RepsAfter(t0, u, ds, n + 1)
  {
    assert !Named(ds, n, ds[n].rep);
    forall r | r in t0.reps && !Named(ds, n + 1, r) ensures u.reps[r] == t0.reps[r] { NamedNext(ds, n, r); }
    forall k | 0 <= k < n + 1 ensures RepAt(t0, u, ds, k) { if k < n { assert RepAt(t0, t, ds, k); } }
    KeysOneMore(t0, t, u, ds, n, run, now);
  }

  lemma OpsOneMore(t0: Tables, t: Tables, u: Tables, ds: seq<Decision>, n: nat, run: RunId, now: Time)
    requires FromPrivate(t0, ds, run) && n < |ds| && OpsAfter(t0, t, ds, n, now) && OneAccepted(t, u, ds[n], run, now)
    requires t.reps[ds[n].rep] == t0.reps[ds[n].rep] && forall o :: o in t0.ops ==> o < t0.nextOp
    ensures OpsAfter(t0, u, ds, n + 1, now)
  {
    forall k | 0 <= k < n + 1 ensures OpAt(t0, u, ds, k, now) { if k < n { assert OpAt(t0, t, ds, k, now); } }
  }

  // ----- evidence and occurrences -----

  function RecordOf(d: Decision, run: RunId): Evidence { Evidence(KindOf(d.outcome), d.identity, None, {d.rep}, Some(run)) }

  function Records(ds: seq<Decision>, n: nat, run: RunId): seq<Evidence>
    requires n <= |ds|
  {
    seq(n, k requires 0 <= k < n => RecordOf(ds[k], run))
  }

  predicate Places(d: Decision, observation: ObservationId) { !d.outcome.Abstain? && d.observation == observation }

  function CountPlaced(ds: seq<Decision>, n: nat, observation: ObservationId): nat
    requires n <= |ds|
  {
    if n == 0 then 0 else CountPlaced(ds, n - 1, observation) + if Places(ds[n - 1], observation) then 1 else 0
  }

  ghost predicate FaceOf(occurrence: Occurrence, d: Decision, now: Time, run: RunId) {
    && !d.outcome.Abstain? && d.identity.Some?
    && occurrence == Occurrence(d.identity.value, Some(d.observation), {d.observation}, OccurrenceState.Active, now, run)
  }

  ghost predicate FaceAt(t: Tables, ds: seq<Decision>, n: nat, x: OccurrenceId, now: Time, run: RunId)
    requires x in t.occurrences
  {
    exists k :: 0 <= k < n && k < |ds| && FaceOf(t.occurrences[x], ds[k], now, run)
  }

  ghost predicate FacesAfter(t: Tables, ds: seq<Decision>, n: nat, run: RunId, now: Time)
    requires n <= |ds|
  {
    && (forall x :: x in t.occurrences ==> x < t.nextId)
    && (forall x {:trigger FaceAt(t, ds, n, x, now, run)} :: x in t.occurrences && t.occurrences[x].run == run ==> FaceAt(t, ds, n, x, now, run))
    && (forall o {:trigger CountPlaced(ds, n, o)} :: |OccurrencesAt(t, o, run)| == CountPlaced(ds, n, o))
  }

  lemma FaceStays(t: Tables, u: Tables, ds: seq<Decision>, n: nat, x: OccurrenceId, now: Time, run: RunId)
    requires x in t.occurrences && FaceAt(t, ds, n, x, now, run) && x in u.occurrences && u.occurrences[x] == t.occurrences[x]
    ensures FaceAt(u, ds, n + 1, x, now, run)
  {
    var k :| 0 <= k < n && k < |ds| && FaceOf(t.occurrences[x], ds[k], now, run);
    assert FaceOf(u.occurrences[x], ds[k], now, run);
  }

  lemma CountOneMore(t: Tables, u: Tables, ds: seq<Decision>, n: nat, run: RunId, now: Time, o: ObservationId)
    requires n < |ds| && FacesAfter(t, ds, n, run, now) && OneAccepted(t, u, ds[n], run, now)
    ensures |OccurrencesAt(u, o, run)| == CountPlaced(ds, n + 1, o)
  {
    assert |OccurrencesAt(t, o, run)| == CountPlaced(ds, n, o);
    if Places(ds[n], o) {
      assert OccurrencesAt(u, o, run) == OccurrencesAt(t, o, run) + {t.nextId};
    } else {
      assert OccurrencesAt(u, o, run) == OccurrencesAt(t, o, run);
    }
  }

  lemma FacesOneMore(t: Tables, u: Tables, ds: seq<Decision>, n: nat, run: RunId, now: Time)
    requires n < |ds| && FacesAfter(t, ds, n, run, now) && OneAccepted(t, u, ds[n], run, now)
    ensures FacesAfter(u, ds, n + 1, run, now)
  {
    forall x | x in u.occurrences && u.occurrences[x].run == run ensures FaceAt(u, ds, n + 1, x, now, run) {
      if x in t.occurrences {
        assert u.occurrences[x] == t.occurrences[x];
        FaceStays(t, u, ds, n, x, now, run);
      } else {
        assert FaceOf(u.occurrences[x], ds[n], now, run);
      }
    }
    forall o ensures |OccurrencesAt(u, o, run)| == CountPlaced(ds, n + 1, o) { CountOneMore(t, u, ds, n, run, now, o); }
  }

  lemma FacesAtStart(t: Tables, ds: seq<Decision>, run: RunId, now: Time)
    requires Unaccepted(t, run)
    ensures FacesAfter(t, ds, 0, run, now)
  {
    forall o ensures |OccurrencesAt(t, o, run)| == CountPlaced(ds, 0, o) { assert OccurrencesAt(t, o, run) == {}; }
  }

  // ----- the whole hand-over -----

  ghost predicate HandedOver(t0: Tables, t: Tables, ds: seq<Decision>, n: nat, run: RunId, now: Time)
    requires n <= |ds|
  {
    && RepsAfter(t0, t, ds, n) && OpsAfter(t0, t, ds, n, now) && FacesAfter(t, ds, n, run, now)
    && t.evidence == t0.evidence + Records(ds, n, run)
  }

  lemma NextIsUntouched(t0: Tables, t: Tables, ds: seq<Decision>, n: nat, run: RunId, now: Time)
    requires FromPrivate(t0, ds, run) && Unaccepted(t0, run) && n < |ds| && RepsAfter(t0, t, ds, n) && OpsAfter(t0, t, ds, n, now)
    ensures ds[n].rep in t.reps && t.reps[ds[n].rep] == t0.reps[ds[n].rep]
    ensures forall o :: o in t.ops ==> t.ops[o].rep != ds[n].rep
  {
    assert !Named(ds, n, ds[n].rep);
    forall o | o in t.ops ensures t.ops[o].rep != ds[n].rep {
      if o !in t0.ops {
        var k := o - t0.nextOp;
        assert OpAt(t0, t, ds, k, now);
      }
    }
  }

  lemma OneMore(t0: Tables, t: Tables, ds: seq<Decision>, n: nat, run: RunId, now: Time)
    requires FromPrivate(t0, ds, run) && Unaccepted(t0, run) && n < |ds| && HandedOver(t0, t, ds, n, run, now)
    requires AcceptOne(t, ds[n], run, now).Ok?
    ensures HandedOver(t0, AcceptOne(t, ds[n], run, now).value, ds, n + 1, run, now)
  {
    var u := AcceptOne(t, ds[n], run, now).value;
    NextIsUntouched(t0, t, ds, n, run, now);
    OneIsAccepted(t, ds[n], run, now);
    RepsOneMore(t0, t, u, ds, n, run, now);
    OpsOneMore(t0, t, u, ds, n, run, now);
    FacesOneMore(t, u, ds, n, run, now);
    assert Records(ds, n + 1, run) == Records(ds, n, run) + [RecordOf(ds[n], run)];
  }

  // Acceptance makes exactly the named representations ACTIVE, each with a key never used before and
  // one ADD, and leaves every other representation and operation alone.
  lemma {:induction false} AcceptWritesExactly(t0: Tables, ds: seq<Decision>, n: nat, run: RunId, now: Time)
    requires FromPrivate(t0, ds, run) && Unaccepted(t0, run) && n <= |ds| && AcceptAll(t0, ds, n, run, now).Ok?
    ensures HandedOver(t0, AcceptAll(t0, ds, n, run, now).value, ds, n, run, now)
    decreases n
  {
    if n == 0 {
      FacesAtStart(t0, ds, run, now);
      assert Records(ds, 0, run) == [];
    } else {
      AcceptWritesExactly(t0, ds, n - 1, run, now);
      OneMore(t0, AcceptAll(t0, ds, n - 1, run, now).value, ds, n - 1, run, now);
    }
  }

  // ----- the re-check -----

  // Two decisions about one observation are both ABSTAIN.
  ghost predicate NoFaceShared(ds: seq<Decision>) {
    forall j, k :: 0 <= j < k < |ds| && ds[j].observation == ds[k].observation ==> ds[j].outcome.Abstain? && ds[k].outcome.Abstain?
  }

  lemma {:induction false} NonePlaced(ds: seq<Decision>, n: nat, o: ObservationId)
    requires n <= |ds|
    ensures CountPlaced(ds, n, o) == 0 <==> forall k :: 0 <= k < n ==> !Places(ds[k], o)
    decreases n
  {
    if n > 0 { NonePlaced(ds, n - 1, o); }
  }

  lemma {:induction false} OnePlaced(ds: seq<Decision>, n: nat, o: ObservationId, k: nat)
    requires k < n <= |ds| && Places(ds[k], o)
    ensures CountPlaced(ds, n, o) == 1 <==> forall j :: 0 <= j < n && j != k ==> !Places(ds[j], o)
    ensures CountPlaced(ds, n, o) >= 1
    decreases n
  {
    if k == n - 1 { NonePlaced(ds, n - 1, o); } else { OnePlaced(ds, n - 1, o, k); }
  }

  lemma EvidenceIsOne(t0: Tables, t: Tables, ds: seq<Decision>, k: nat, run: RunId, now: Time)
    requires FromPrivate(t0, ds, run) && Unaccepted(t0, run) && HandedOver(t0, t, ds, |ds|, run, now) && k < |ds|
    ensures EvidenceOf(t, ds[k], run) == {|t0.evidence| + k}
  {
    forall n | n in EvidenceOf(t, ds[k], run) ensures n == |t0.evidence| + k {
      if n >= |t0.evidence| { assert t.evidence[n] == RecordOf(ds[n - |t0.evidence|], run); }
    }
    assert t.evidence[|t0.evidence| + k] == RecordOf(ds[k], run);
  }

  lemma AddIsOne(t0: Tables, t: Tables, ds: seq<Decision>, k: nat, run: RunId, now: Time)
    requires FromPrivate(t0, ds, run) && Unaccepted(t0, run) && HandedOver(t0, t, ds, |ds|, run, now) && k < |ds|
    ensures AddsOf(t, ds[k].rep) == {t0.nextOp + k}
  {
    assert OpAt(t0, t, ds, k, now);
    forall o | o in AddsOf(t, ds[k].rep) ensures o == t0.nextOp + k {
      if o !in t0.ops { assert OpAt(t0, t, ds, o - t0.nextOp, now); }
    }
  }

  lemma FaceIsOne(t: Tables, ds: seq<Decision>, k: nat, run: RunId, now: Time)
    requires FacesAfter(t, ds, |ds|, run, now) && k < |ds|
    ensures var faces := OccurrencesAt(t, ds[k].observation, run);
      if ds[k].outcome.Abstain? then faces == {} <==> forall j :: 0 <= j < |ds| ==> !Places(ds[j], ds[k].observation)
      else (|faces| == 1 <==> forall j :: 0 <= j < |ds| && j != k ==> !Places(ds[j], ds[k].observation))
  {
    var o := ds[k].observation;
    assert |OccurrencesAt(t, o, run)| == CountPlaced(ds, |ds|, o);
    if ds[k].outcome.Abstain? { NonePlaced(ds, |ds|, o); } else { OnePlaced(ds, |ds|, o, k); }
  }

  lemma FaceIsRight(t: Tables, ds: seq<Decision>, k: nat, run: RunId, now: Time, x: OccurrenceId)
    requires FacesAfter(t, ds, |ds|, run, now) && k < |ds| && !ds[k].outcome.Abstain?
    requires forall j :: 0 <= j < |ds| && j != k ==> !Places(ds[j], ds[k].observation)
    requires x in OccurrencesAt(t, ds[k].observation, run)
    ensures FaceOf(t.occurrences[x], ds[k], now, run)
  {
    assert FaceAt(t, ds, |ds|, x, now, run);
    var j :| 0 <= j < |ds| && FaceOf(t.occurrences[x], ds[j], now, run);
    assert Places(ds[j], ds[k].observation);
  }

  // Nobody else places a face where decision `k` is about.
  ghost predicate Alone(ds: seq<Decision>, k: nat)
    requires k < |ds|
  {
    forall j :: 0 <= j < |ds| && j != k ==> !Places(ds[j], ds[k].observation)
  }

  lemma ArtifactsIff(t0: Tables, t: Tables, ds: seq<Decision>, k: nat, run: RunId, now: Time)
    requires FromPrivate(t0, ds, run) && Unaccepted(t0, run) && HandedOver(t0, t, ds, |ds|, run, now) && k < |ds|
    ensures ArtifactsOk(t, ds[k], run) <==> Alone(ds, k)
  {
    EvidenceIsOne(t0, t, ds, k, run, now);
    AddIsOne(t0, t, ds, k, run, now);
    FaceIsOne(t, ds, k, run, now);
    assert RepAt(t0, t, ds, k);
    if !ds[k].outcome.Abstain? && Alone(ds, k) {
      forall x | x in OccurrencesAt(t, ds[k].observation, run) ensures FaceOf(t.occurrences[x], ds[k], now, run) {
        FaceIsRight(t, ds, k, run, now, x);
      }
    }
    assert ds[k].outcome.Abstain? ==> !Places(ds[k], ds[k].observation);
  }

  lemma AloneIff(ds: seq<Decision>)
    ensures NoFaceShared(ds) <==> forall k {:trigger Alone(ds, k)} :: 0 <= k < |ds| ==> Alone(ds, k)
  {
    if forall k {:trigger Alone(ds, k)} :: 0 <= k < |ds| ==> Alone(ds, k) {
      forall j, k | 0 <= j < k < |ds| && ds[j].observation == ds[k].observation
        ensures ds[j].outcome.Abstain? && ds[k].outcome.Abstain?
      {
        assert Alone(ds, j) && Alone(ds, k);
        assert !Places(ds[k], ds[j].observation) && !Places(ds[j], ds[k].observation);
      }
    }
  }

  // The state acceptance commits.
  ghost predicate IsAccepted(t0: Tables, t: Tables, final: Final, run: RunId, now: Time) {
    var handed := AcceptAll(t0, final.decisions, |final.decisions|, run, now);
    && handed.Ok?
    && t == handed.value.(observations := Shown(handed.value.observations, Acceptance.Elements(final.observations)))
  }

  lemma SameButObservations(t0: Tables, h: Tables, t: Tables, ds: seq<Decision>, run: RunId, now: Time)
    requires FromPrivate(t0, ds, run) && Unaccepted(t0, run) && HandedOver(t0, h, ds, |ds|, run, now) && t == h.(observations := t.observations)
    ensures forall k :: 0 <= k < |ds| ==> (ArtifactsOk(t, ds[k], run) <==> Alone(ds, k))
    ensures forall k :: 0 <= k < |ds| ==> RepAt(t0, t, ds, k)
  {
    forall k | 0 <= k < |ds| ensures ArtifactsOk(t, ds[k], run) <==> Alone(ds, k) {
      ArtifactsIff(t0, h, ds, k, run, now);
      assert EvidenceOf(t, ds[k], run) == EvidenceOf(h, ds[k], run);
      assert OccurrencesAt(t, ds[k].observation, run) == OccurrencesAt(h, ds[k].observation, run);
      assert AddsOf(t, ds[k].rep) == AddsOf(h, ds[k].rep);
    }
    forall k | 0 <= k < |ds| ensures RepAt(t0, t, ds, k) { assert RepAt(t0, h, ds, k); }
  }

  lemma RowsAreShown(t0: Tables, t: Tables, final: Final, run: RunId, now: Time, k: nat)
    requires FromPrivate(t0, final.decisions, run) && Unaccepted(t0, run) && WellFormed(final) && k < |final.decisions|
    requires final.decisions[k].observation in t0.observations && IsAccepted(t0, t, final, run, now)
    ensures RowsOk(t, final.decisions[k])
  {
    var ds := final.decisions;
    var d, h := ds[k], AcceptAll(t0, ds, |ds|, run, now).value;
    AcceptWritesExactly(t0, ds, |ds|, run, now);
    assert RepAt(t0, h, ds, k);
    assert d in ds && d.observation in Acceptance.ObservationsOf(ds);
    assert d.observation in Acceptance.Elements(final.observations);
  }

  lemma AllArtifacts(t0: Tables, t: Tables, final: Final, run: RunId, now: Time)
    requires FromPrivate(t0, final.decisions, run) && Unaccepted(t0, run) && IsAccepted(t0, t, final, run, now)
    ensures (forall d :: d in final.decisions ==> ArtifactsOk(t, d, run)) <==> NoFaceShared(final.decisions)
  {
    var ds := final.decisions;
    AcceptWritesExactly(t0, ds, |ds|, run, now);
    SameButObservations(t0, AcceptAll(t0, ds, |ds|, run, now).value, t, ds, run, now);
    AloneIff(ds);
    if forall d :: d in ds ==> ArtifactsOk(t, d, run) {
      forall k | 0 <= k < |ds| ensures Alone(ds, k) { assert ds[k] in ds; }
    }
    if NoFaceShared(ds) {
      forall d | d in ds ensures ArtifactsOk(t, d, run) {
        var k :| 0 <= k < |ds| && ds[k] == d;
        assert Alone(ds, k);
      }
    }
  }

  // An immediate second acceptance passes every check exactly when no two decisions share an
  // observation, unless both abstained.
  lemma SecondAcceptIff(t0: Tables, t: Tables, final: Final, row: Run, now: Time)
    requires FromPrivate(t0, final.decisions, row.id) && Unaccepted(t0, row.id) && WellFormed(final)
    requires forall d :: d in final.decisions ==> d.observation in t0.observations
    requires IsAccepted(t0, t, final, row.id, now) && row.final == Some(final) && row.shown == Some(row.id) && row.job.Done?
    ensures Recheck(t, row) <==> NoFaceShared(final.decisions)
  {
    AllArtifacts(t0, t, final, row.id, now);
    forall d | d in final.decisions ensures RowsOk(t, d) {
      var k :| 0 <= k < |final.decisions| && final.decisions[k] == d;
      RowsAreShown(t0, t, final, row.id, now, k);
    }
  }

  // What the transaction checked is what the statements above rest on.
  lemma PrivateIsFromPrivate(t: Tables, run: RunId, source: SourceId, final: Final)
    requires WellFormed(final) && PrivateOutput(t, run, source, final)
    ensures FromPrivate(t, final.decisions, run)
    ensures forall d :: d in final.decisions ==> d.observation in t.observations
  {
    var ds := final.decisions;
    forall d | d in ds ensures d.rep in t.reps && t.reps[d.rep].run == run && DecisionAgrees(t, run, d) && d.observation in t.observations {
      assert d.rep in RepsOf(ds) && d.observation in Acceptance.ObservationsOf(ds);
      assert d.rep in (set r | r in t.reps && t.reps[r].run == run);
      assert d.observation in PendingObservations(t, run, source);
    }
  }

  // ----- a run whose second acceptance fails -----

  const NEWCOMER := Identity(IdentityState.Pending, None, None, 1, Some(7))
  const VECTOR := Some(Vector(true))
  const TWO_SPACES := Tables(
    map[0 := NEWCOMER],
    map[0 := Rep(0, Some(0), 0, RepState.Pending, None, VECTOR, 7), 1 := Rep(0, None, 1, RepState.Pending, None, VECTOR, 7)],
    map[], map[], map[], map[0 := Observation(7, 3, ObservationState.Pending)], [], [], map[], 0, map[], 1)
  const FIRST := Decision(0, 0, CreateNew, Some(0), 0, true)
  const SECOND := Decision(0, 1, Outcome.Abstain, None, 1, true)
  const SHARED := Final([0], [FIRST, SECOND])
  const BEFORE := Run(7, 3, Finalizing, Running, true, None, true, Some(SHARED))

  lemma SharedIsPrivate()
    ensures Handable(TWO_SPACES, BEFORE) && Unaccepted(TWO_SPACES, 7)
    ensures !NoFaceShared(SHARED.decisions)
  {
    assert FIRST in SHARED.decisions && SECOND in SHARED.decisions && SHARED.observations[0] == 0;
    assert Acceptance.ObservationsOf(SHARED.decisions) == {0} && Acceptance.Elements(SHARED.observations) == {0};
    assert RepsOf(SHARED.decisions) == {0, 1};
    assert SHARED.decisions[0].observation == SHARED.decisions[1].observation;
  }

  lemma SharedIsAccepted()
    ensures AcceptAll(TWO_SPACES, SHARED.decisions, 2, 7, 0).Ok?
  {
    var first := AcceptOne(TWO_SPACES, FIRST, 7, 0);
    assert AcceptAll(TWO_SPACES, SHARED.decisions, 0, 7, 0) == Ok(TWO_SPACES);
    assert AcceptAll(TWO_SPACES, SHARED.decisions, 1, 7, 0) == first;
    assert AcceptAll(TWO_SPACES, SHARED.decisions, 2, 7, 0) == AcceptOne(first.value, SECOND, 7, 0);
  }

  // One face, two spaces: placed in one, abstained in the other. The run is accepted, and the check
  // that should find nothing to do refuses what was accepted.
  lemma SharedFailsRecheck() returns (t: Tables, after: Run)
    ensures Handable(TWO_SPACES, BEFORE) && IsAccepted(TWO_SPACES, t, SHARED, 7, 0)
    ensures after == BEFORE.(state := Completed, job := Done, shown := Some(7)) && !Recheck(t, after)
  {
    SharedIsPrivate();
    SharedIsAccepted();
    var handed := AcceptAll(TWO_SPACES, SHARED.decisions, 2, 7, 0).value;
    t := handed.(observations := Shown(handed.observations, Acceptance.Elements(SHARED.observations)));
    after := BEFORE.(state := Completed, job := Done, shown := Some(7));
    PrivateIsFromPrivate(TWO_SPACES, 7, 3, SHARED);
    SecondAcceptIff(TWO_SPACES, t, SHARED, after, 0);
  }
}
