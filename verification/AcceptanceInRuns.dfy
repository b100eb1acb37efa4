/** Acceptance within the life of the library: one transaction of use cases, whose hypotheses every
    reachable state meets. */
module AcceptanceInRuns {
  import opened Store
  import opened Tables
  import opened IdentityManager
  import opened Acceptance
  import opened AcceptanceProof
  import opened WholeSystem
  import Evolution
  import IndexQueue
  import Lifecycle

  // ----- a private run was never accepted -----

  lemma PrivateHasNotBegun(t: Tables, run: RunId, source: SourceId, final: Final)
    requires PrivateOutput(t, run, source, final)
    ensures !Lifecycle.Begun(t.reps, run)
  {
    forall r | r in t.reps && t.reps[r].run == run ensures t.reps[r].state.Pending? {
      assert r in (set q | q in t.reps && t.reps[q].run == run);
      assert r in RepsOf(final.decisions);
      var d :| d in final.decisions && d.rep == r;
      assert DecisionAgrees(t, run, d);
    }
  }

  // Where the run's output is private as acceptance checks it, nothing was ever recorded about it.
  lemma PrivateIsUnaccepted(w: World, run: RunId, source: SourceId, final: Final)
    requires WorldInv(w) && PrivateOutput(w.t, run, source, final)
    ensures Unaccepted(w.t, run)
  {
    PrivateHasNotBegun(w.t, run, source, final);
    forall o | o in w.t.ops ensures o < w.t.nextOp && (w.t.ops[o].rep in w.t.reps ==> w.t.reps[w.t.ops[o].rep].run != run) {
      var d, r := w.y.db, w.t.ops[o].rep;
      assert Evolution.OpOk(d, o) && Evolution.RowOk(d, r);
    }
  }

  // ----- acceptance, as the actions it is made of -----

  lemma Single(t: Tables, u: Tables, a: Lifecycle.Action)
    requires Lifecycle.Did(t, u, a) && !a.Background?
    ensures IsTransaction([t, u], [a])
  {}

  lemma TransactionsJoin(a: seq<Tables>, acts: seq<Lifecycle.Action>, b: seq<Tables>, bacts: seq<Lifecycle.Action>)
    requires IsTransaction(a, acts) && IsTransaction(b, bacts) && a[|acts|] == b[0]
    ensures IsTransaction(a + b[1..], acts + bacts) && (a + b[1..])[0] == a[0] && (a + b[1..])[|acts + bacts|] == b[|bacts|]
  {
    ChainsJoin(a, acts, b, bacts);
  }

  // The representation is given to an ACTIVE identity, and its face appears.
  lemma AssignIsTransaction(u: Tables, d: Decision, run: RunId, now: Time) returns (ts: seq<Tables>, actions: seq<Lifecycle.Action>)
    requires d.rep in u.reps && u.reps[d.rep].run == run && d.identity.Some?
    requires AssignRefusal(u, d.rep, d.identity.value, KindOf(d.outcome)).None?
    ensures IsTransaction(ts, actions) && ts[0] == u
    ensures ts[|actions|] == Placed(AfterAssign(u, d.rep, d.identity.value, KindOf(d.outcome), now), d.identity.value, d.observation, run, now)
  {
    var i := d.identity.value;
    var given := AfterAssign(u, d.rep, i, KindOf(d.outcome), now);
    var face := Occurrence(i, Some(d.observation), {d.observation}, OccurrenceState.Active, now, run);
    Single(u, given, Lifecycle.Action.Assign(d.rep, i, KindOf(d.outcome), now));
    assert d.rep in given.reps && given.reps[d.rep].run == run && !given.reps[d.rep].state.Pending?;
    Single(given, Placed(given, i, d.observation, run, now), Lifecycle.Action.Appear(face));
    TransactionsJoin([u, given], [Lifecycle.Action.Assign(d.rep, i, KindOf(d.outcome), now)],
                     [given, Placed(given, i, d.observation, run, now)], [Lifecycle.Action.Appear(face)]);
    ts := [u, given] + [given, Placed(given, i, d.observation, run, now)][1..];
    actions := [Lifecycle.Action.Assign(d.rep, i, KindOf(d.outcome), now)] + [Lifecycle.Action.Appear(face)];
  }

  lemma AbstainIsTransaction(t: Tables, d: Decision, run: RunId, now: Time) returns (ts: seq<Tables>, actions: seq<Lifecycle.Action>)
    requires d.rep in t.reps && t.reps[d.rep].state.Pending? && t.reps[d.rep].identity.None? && d.outcome.Abstain?
    requires forall o :: o in t.ops ==> t.ops[o].rep != d.rep
    ensures IsTransaction(ts, actions) && ts[0] == t && Ok(ts[|actions|]) == AcceptOne(t, d, run, now)
  {
    assert IndexQueue.Withdraw(t.ops, d.rep, Remove) == t.ops;
    var a := Lifecycle.Action.Abstain(d.rep, now);
    Single(t, AfterAbstain(t, d.rep, now), a);
    ts, actions := [t, AfterAbstain(t, d.rep, now)], [a];
  }

  lemma OneIsTransaction(t: Tables, d: Decision, run: RunId, now: Time) returns (ts: seq<Tables>, actions: seq<Lifecycle.Action>)
    requires d.rep in t.reps && t.reps[d.rep].run == run && t.reps[d.rep].state.Pending?
    requires d.outcome.Abstain? ==> t.reps[d.rep].identity.None?
    requires forall o :: o in t.ops ==> t.ops[o].rep != d.rep
    requires AcceptOne(t, d, run, now).Ok?
    ensures IsTransaction(ts, actions) && ts[0] == t && ts[|actions|] == AcceptOne(t, d, run, now).value
  {
    if d.outcome.Abstain? {
      ts, actions := AbstainIsTransaction(t, d, run, now);
    } else if d.outcome.MatchExisting? {
      ts, actions := AssignIsTransaction(t, d, run, now);
    } else {
      var i := d.identity.value;
      var a := Lifecycle.Action.Activate(i, t.identities[i].revision);
      var u := AfterActivate(t, i);
      Single(t, u, a);
      var b, bacts := AssignIsTransaction(u, d, run, now);
      TransactionsJoin([t, u], [a], b, bacts);
      ts, actions := [t, u] + b[1..], [a] + bacts;
    }
  }

  lemma {:induction false} AllIsTransaction(t0: Tables, ds: seq<Decision>, n: nat, run: RunId, now: Time)
    returns (ts: seq<Tables>, actions: seq<Lifecycle.Action>)
    requires FromPrivate(t0, ds, run) && Unaccepted(t0, run) && n <= |ds| && AcceptAll(t0, ds, n, run, now).Ok?
    ensures IsTransaction(ts, actions) && ts[0] == t0 && ts[|actions|] == AcceptAll(t0, ds, n, run, now).value
    decreases n
  {
    if n == 0 {
      ts, actions := [t0], [];
    } else {
      var a, acts := AllIsTransaction(t0, ds, n - 1, run, now);
      var mid := AcceptAll(t0, ds, n - 1, run, now).value;
      AcceptWritesExactly(t0, ds, n - 1, run, now);
      NextIsUntouched(t0, mid, ds, n - 1, run, now);
      assert DecisionAgrees(t0, run, ds[n - 1]);
      var b, bacts := OneIsTransaction(mid, ds[n - 1], run, now);
      TransactionsJoin(a, acts, b, bacts);
      ts, actions := a + b[1..], acts + bacts;
    }
  }

  // Accepting a run is one move of the library: its activations, assignments, abstentions and faces in
  // one transaction.
  lemma AcceptanceIsMove(w: World, w': World, run: RunId, source: SourceId, final: Final, now: Time) returns (m: Move)
    requires WorldInv(w) && WellFormed(final) && PrivateOutput(w.t, run, source, final)
    requires IsAccepted(w.t, w'.t, final, run, now) && Written(w, w')
    ensures m.Transaction? && Moved(w, w', m) && WorldInv(w')
  {
    PrivateIsUnaccepted(w, run, source, final);
    PrivateIsFromPrivate(w.t, run, source, final);
    var a, acts := AllIsTransaction(w.t, final.decisions, |final.decisions|, run, now);
    var shown := Lifecycle.Action.Observe(w'.t.observations);
    Single(a[|acts|], w'.t, shown);
    TransactionsJoin(a, acts, [a[|acts|], w'.t], [shown]);
    m := Transaction(a + [a[|acts|], w'.t][1..], acts + [shown]);
    MoveKeepsInv(w, w', m);
  }

  // A PENDING identity was never recorded as created.
  lemma PendingIsUncreated(t: Tables, row: Run)
    requires Lifecycle.CreationsFounded(t) && Handable(t, row)
    ensures NoneCreated(t, row.final.value.decisions)
  {
    var ds := row.final.value.decisions;
    forall d | d in ds && d.outcome.CreateNew? && d.identity.Some? ensures !HasCreationEvidence(t, d.identity.value) {
      assert DecisionAgrees(t, row.id, d);
      assert !Lifecycle.Founded(t.identities, d.identity.value);
    }
  }

  // In every state of every run: of output that passes the checks, all decisions go through exactly
  // when none of its identities is recognized as new twice.
  lemma GoesThroughInAnyState(ws: seq<World>, moves: seq<Move>, i: nat, row: Run, now: Time)
    requires IsWholeRun(ws, moves) && i < |ws| && Handable(ws[i].t, row)
    ensures var ds := row.final.value.decisions;
      AcceptAll(ws[i].t, ds, |ds|, row.id, now).Ok? <==> NewOnce(ds)
  {
    WholeRunKeepsInv(ws, moves, i);
    PendingIsUncreated(ws[i].t, row);
    ValidatedIsAgreed(ws[i].t, row);
    AllGoThrough(ws[i].t, row.final.value.decisions, row.id, now);
  }

  // In every state of every run: what the transaction checks is all it takes for acceptance to write
  // exactly what it should, and for its own re-check to pass exactly when no face is shared.
  lemma AcceptanceInAnyState(ws: seq<World>, moves: seq<Move>, i: nat, row: Run, t: Tables, now: Time)
    requires IsWholeRun(ws, moves) && i < |ws| && Handable(ws[i].t, row)
    requires IsAccepted(ws[i].t, t, row.final.value, row.id, now)
    ensures var ds := row.final.value.decisions;
      && HandedOver(ws[i].t, AcceptAll(ws[i].t, ds, |ds|, row.id, now).value, ds, |ds|, row.id, now)
      && (Recheck(t, row.(state := Completed, job := Done, shown := Some(row.id))) <==> NoFaceShared(ds))
  {
    var final := row.final.value;
    WholeRunKeepsInv(ws, moves, i);
    PrivateIsUnaccepted(ws[i], row.id, row.source, final);
    PrivateIsFromPrivate(ws[i].t, row.id, row.source, final);
    AcceptWritesExactly(ws[i].t, final.decisions, |final.decisions|, row.id, now);
    SecondAcceptIff(ws[i].t, t, final, row.(state := Completed, job := Done, shown := Some(row.id)), now);
  }
}
