/** The whole library in one run: the use cases' transactions on the tables, and everything the erasure
    protocol does around the same rows. */
module WholeSystem {
  import opened Store
  import opened Protocol
  import opened Evolution
  import opened Invariant
  import opened Tables
  import opened Forget
  import opened Lifecycle
  import opened Safety
  import AnnLookup
  import ForgetProof
  import IdentityManager
  import InvariantProof

  datatype World = World(t: Tables, y: System)

  // A transaction of any number of actions, which commit together, or a step of the protocol.
  datatype Move =
    | Transaction(ts: seq<Tables>, actions: seq<Action>)
    | Work(step: Step)

  // The tables' rows are the protocol's.
  ghost predicate InStep(w: World) { w.y.db == View(w.t, w.y.db.marker, w.y.db.nextToken) }

  // The tables after the protocol changed rows and queue.
  function Following(t: Tables, d: Db): Tables {
    t.(reps := map r | r in t.reps ::
         if r in d.rows then t.reps[r].(state := d.rows[r].state, key := d.rows[r].key, vector := d.rows[r].vector) else t.reps[r],
       ops := d.ops, nextOp := d.nextOp)
  }

  // The commits that are not a use case's transaction: reprocessing, erasures of their own, requeues.
  predicate StandsAlone(c: Commit) { c.Retire? || c.QueueErasure? || c.RequeueFailed? || c.OweTruncation? }

  // What a transaction leaves of rows, queue and log.
  ghost predicate Written(w: World, w': World) {
    && w'.y == w.y.(db := View(w'.t, w.y.db.marker, w.y.db.nextToken), log := w'.y.log)
    && w'.y.log <= w.y.log + Holders(w.y.db.rows) + Holders(w'.y.db.rows)
  }

  ghost predicate IsTransaction(ts: seq<Tables>, actions: seq<Action>) {
    IsChain(ts, actions) && forall a :: a in actions ==> !a.Background?
  }

  ghost predicate Moved(w: World, w': World, m: Move) {
    match m
    case Transaction(ts, actions) =>
      IsTransaction(ts, actions) && ts[0] == w.t && ts[|actions|] == w'.t && Written(w, w')
    case Work(st) =>
      Next(w.y, w'.y, st) && (st.Other? ==> StandsAlone(st.commit)) && w'.t == Following(w.t, w'.y.db)
  }

  ghost predicate IsWholeRun(ws: seq<World>, moves: seq<Move>) {
    && |ws| == |moves| + 1 && InStep(ws[0]) && Init(ws[0].y) && IsHistory([ws[0].t], []) && ws[0].t.evidence == []
    && forall i {:trigger moves[i]} :: 0 <= i < |moves| ==> Moved(ws[i], ws[i + 1], moves[i])
  }

  ghost predicate TablesInv(t: Tables) { LifecycleInv(t) && RunsBegun(t) && CreationsFounded(t) }

  ghost predicate WorldInv(w: World) { Inv(w.y) && TablesInv(w.t) && InStep(w) }

  // ----- sequences of steps and actions -----

  lemma TracesJoin(a: seq<System>, asteps: seq<Step>, b: seq<System>, bsteps: seq<Step>)
    requires IsTrace(a, asteps) && IsTrace(b, bsteps) && a[|asteps|] == b[0]
    ensures IsTrace(a + b[1..], asteps + bsteps) && (a + b[1..])[|asteps + bsteps|] == b[|bsteps|]
  {
    var ys, steps := a + b[1..], asteps + bsteps;
    forall i | 0 <= i < |steps| ensures Next(ys[i], ys[i + 1], steps[i]) {
      if i < |asteps| { assert steps[i] == asteps[i]; } else { assert steps[i] == bsteps[i - |asteps|]; }
    }
  }

  lemma ChainsJoin(a: seq<Tables>, acts: seq<Action>, b: seq<Tables>, bacts: seq<Action>)
    requires IsChain(a, acts) && IsChain(b, bacts) && a[|acts|] == b[0]
    ensures IsChain(a + b[1..], acts + bacts) && (a + b[1..])[|acts + bacts|] == b[|bacts|]
  {
    var ts, actions := a + b[1..], acts + bacts;
    forall i | 0 <= i < |actions| ensures Did(ts[i], ts[i + 1], actions[i]) {
      if i < |acts| { assert actions[i] == acts[i]; } else { assert actions[i] == bacts[i - |acts|]; }
    }
  }

  lemma {:induction false} TraceKeepsInv(ys: seq<System>, steps: seq<Step>, i: nat)
    requires IsTrace(ys, steps) && i < |ys| && Inv(ys[0])
    ensures Inv(ys[i])
  {
    if i > 0 {
      TraceKeepsInv(ys, steps, i - 1);
      assert Next(ys[i - 1], ys[i], steps[i - 1]);
      InvariantProof.StepKeepsInv(ys[i - 1], ys[i], steps[i - 1]);
    }
  }

  lemma {:induction false} ChainKeepsInv(ts: seq<Tables>, actions: seq<Action>, i: nat)
    requires IsChain(ts, actions) && i < |ts| && TablesInv(ts[0])
    ensures TablesInv(ts[i])
  {
    if i > 0 {
      ChainKeepsInv(ts, actions, i - 1);
      assert Did(ts[i - 1], ts[i], actions[i - 1]);
      ActionKeepsInv(ts[i - 1], ts[i], actions[i - 1]);
      ActionKeepsRuns(ts[i - 1], ts[i], actions[i - 1]);
      ActionKeepsCreations(ts[i - 1], ts[i], actions[i - 1]);
    }
  }

  // ----- a transaction, as steps of the protocol -----

  function Marked(d: Db, marker: Option<Token>, nextToken: Token): Db { d.(marker := marker, nextToken := nextToken) }

  lemma QueueingIgnoresMarker(d: Db, d': Db, ids: set<RepId>, takeDeleted: bool, m: Option<Token>, n: Token)
    requires ErasureQueued(d, d', ids, takeDeleted)
    ensures ErasureQueued(Marked(d, m, n), Marked(d', m, n), ids, takeDeleted)
  {
    var e, e' := Marked(d, m, n), Marked(d', m, n);
    forall r ensures NeedsRemove(e, r, ids, takeDeleted) <==> NeedsRemove(d, r, ids, takeDeleted) {}
    forall o | o in e.ops ensures OldOpQueued(e, e'.ops, ids, takeDeleted, o) { assert OldOpQueued(d, d'.ops, ids, takeDeleted, o); }
    forall o | o in e'.ops && e.nextOp <= o ensures NewOpQueued(e, e'.ops, ids, takeDeleted, o) { assert NewOpQueued(d, d'.ops, ids, takeDeleted, o); }
  }

  // Only a commit that owes a truncation looks at the marker.
  lemma CommitIgnoresMarker(d: Db, d': Db, c: Commit, m: Option<Token>, n: Token)
    requires Committed(d, d', c) && !c.OweTruncation?
    ensures Committed(Marked(d, m, n), Marked(d', m, n), c)
  {
    if c.QueueErasure? { QueueingIgnoresMarker(d, d', c.ids, c.takeDeleted, m, n); }
  }

  // The protocol's state around other tables.
  function Around(y: System, t: Tables): System { y.(db := View(t, y.db.marker, y.db.nextToken)) }

  lemma CommitIsStep(y: System, d: Db, d': Db, c: Commit)
    requires Committed(d, d', c) && !c.OweTruncation? && y.db == Marked(d, y.db.marker, y.db.nextToken)
    ensures Next(y, y.(db := Marked(d', y.db.marker, y.db.nextToken)), Other(c))
  {
    CommitIgnoresMarker(d, d', c, y.db.marker, y.db.nextToken);
    assert LockStep(y, y.(db := Marked(d', y.db.marker, y.db.nextToken)), Other(c));
  }

  lemma CommitsAreTrace(y: System, d: Db, mid: Db, d': Db, c: Commit, c': Commit) returns (ys: seq<System>, steps: seq<Step>)
    requires Committed(d, mid, c) && Committed(mid, d', c') && !c.OweTruncation? && !c'.OweTruncation?
    requires y.db == Marked(d, y.db.marker, y.db.nextToken)
    ensures IsTrace(ys, steps) && ys[0] == y && ys[|steps|] == y.(db := Marked(d', y.db.marker, y.db.nextToken))
  {
    var m, n := y.db.marker, y.db.nextToken;
    CommitIsStep(y, d, mid, c);
    CommitIsStep(y.(db := Marked(mid, m, n)), mid, d', c');
    ys, steps := [y, y.(db := Marked(mid, m, n)), y.(db := Marked(d', m, n))], [Other(c), Other(c')];
  }

  lemma ActionIsTrace(y: System, t: Tables, u: Tables, a: Action) returns (ys: seq<System>, steps: seq<Step>)
    requires LifecycleInv(t) && Did(t, u, a) && !a.Background? && y == Around(y, t)
    ensures IsTrace(ys, steps) && ys[0] == y && ys[|steps|] == Around(y, u)
  {
    TransactionIsCommits(t, u, a);
    var mid, c, c' :| Committed(Memory(t), mid, c) && Committed(mid, Memory(u), c') && !c.OweTruncation? && !c'.OweTruncation?;
    ys, steps := CommitsAreTrace(y, Memory(t), mid, Memory(u), c, c');
  }

  lemma NextIsTrace(y: System, ts: seq<Tables>, actions: seq<Action>, k: nat) returns (ys: seq<System>, steps: seq<Step>)
    requires IsTransaction(ts, actions) && k < |actions| && TablesInv(ts[0]) && y == Around(y, ts[k])
    ensures IsTrace(ys, steps) && ys[0] == y && ys[|steps|] == Around(y, ts[k + 1])
  {
    ChainKeepsInv(ts, actions, k);
    assert Did(ts[k], ts[k + 1], actions[k]);
    ys, steps := ActionIsTrace(y, ts[k], ts[k + 1], actions[k]);
  }

  lemma {:induction false} ChainIsTrace(y: System, ts: seq<Tables>, actions: seq<Action>, k: nat) returns (ys: seq<System>, steps: seq<Step>)
    requires IsTransaction(ts, actions) && k <= |actions| && TablesInv(ts[0]) && y == Around(y, ts[0])
    ensures IsTrace(ys, steps) && ys[0] == y && ys[|steps|] == Around(y, ts[k])
  {
    if k == 0 {
      ys, steps := [y], [];
    } else {
      var a, asteps := ChainIsTrace(y, ts, actions, k - 1);
      var b, bsteps := NextIsTrace(Around(y, ts[k - 1]), ts, actions, k - 1);
      TracesJoin(a, asteps, b, bsteps);
      ys, steps := a + b[1..], asteps + bsteps;
    }
  }

  // A commit that changes no row may still put into the log, or drop from it, what the rows hold.
  lemma LogMayChange(y: System, log: set<RepId>)
    requires log <= y.log + Holders(y.db.rows)
    ensures Next(y, y.(log := log), Other(EditOwners(y.db.rows)))
  {
    assert LockStep(y, y.(log := log), Other(EditOwners(y.db.rows)));
  }

  lemma TransactionIsTrace(w: World, w': World, m: Move) returns (ys: seq<System>, steps: seq<Step>)
    requires m.Transaction? && Moved(w, w', m) && TablesInv(w.t) && InStep(w)
    ensures IsTrace(ys, steps) && ys[0] == w.y && ys[|steps|] == w'.y
  {
    var full := w.y.(log := w.y.log + Holders(w.y.db.rows));
    LogMayChange(w.y, full.log);
    var a, asteps := ChainIsTrace(full, m.ts, m.actions, |m.actions|);
    LogMayChange(Around(full, w'.t), w'.y.log);
    var first, last := [Other(EditOwners(w.y.db.rows))], [Other(EditOwners(w'.y.db.rows))];
    TracesJoin([w.y, full], first, a, asteps);
    TracesJoin([w.y, full] + a[1..], first + asteps, [Around(full, w'.t), w'.y], last);
    ys, steps := [w.y, full] + a[1..] + [Around(full, w'.t), w'.y][1..], first + asteps + last;
  }

  lemma MoveIsTrace(w: World, w': World, m: Move) returns (ys: seq<System>, steps: seq<Step>)
    requires Moved(w, w', m) && TablesInv(w.t) && InStep(w)
    ensures IsTrace(ys, steps) && ys[0] == w.y && ys[|steps|] == w'.y
  {
    if m.Transaction? {
      ys, steps := TransactionIsTrace(w, w', m);
    } else {
      ys, steps := [w.y, w'.y], [m.step];
    }
  }

  // ----- a step of the protocol, as an action on the tables -----

  predicate RowMoves(a: Row, b: Row) {
    && b == a.(state := b.state, key := b.key, vector := b.vector)
    && (b.state.Active? ==> a.state.Active?) && (b.state.Pending? ==> a.state.Pending?)
  }

  ghost predicate RowsMove(d: Db, d': Db) {
    && d'.nextKey == d.nextKey && d'.rows.Keys == d.rows.Keys
    && forall r {:trigger RowMoves(d.rows[r], d'.rows[r])} :: r in d.rows ==> RowMoves(d.rows[r], d'.rows[r])
  }

  lemma CommitMovesRows(d: Db, d': Db, c: Commit)
    requires Committed(d, d', c) && StandsAlone(c)
    ensures RowsMove(d, d')
  {}

  lemma ClearingMovesRows(y: System, y': System)
    requires RowsOnlyClear(y, y')
    ensures RowsMove(y.db, y'.db)
  {}

  lemma FollowingMoves(t: Tables, d: Db, d': Db)
    requires d == View(t, d.marker, d.nextToken) && RowsMove(d, d')
    ensures d' == View(Following(t, d'), d'.marker, d'.nextToken) && IsBackground(t, Following(t, d'))
  {
    var u := Following(t, d');
    forall r | r in t.reps ensures RowOf(u.identities, u.reps[r]) == d'.rows[r] && MovesOn(t.reps[r], u.reps[r]) {
      assert RowMoves(d.rows[r], d'.rows[r]);
    }
    assert d'.rows == RowsOf(u.identities, u.reps);
  }

  lemma WorkIsBackground(w: World, w': World, m: Move)
    requires m.Work? && Moved(w, w', m) && InStep(w)
    ensures InStep(w') && Did(w.t, w'.t, Background)
  {
    RowsOfStep(w.y, w'.y, m.step);
    if m.step.Other? { CommitMovesRows(w.y.db, w'.y.db, m.step.commit); } else { ClearingMovesRows(w.y, w'.y); }
    FollowingMoves(w.t, w.y.db, w'.y.db);
  }

  lemma MoveIsChain(w: World, w': World, m: Move) returns (ts: seq<Tables>, actions: seq<Action>)
    requires Moved(w, w', m) && InStep(w)
    ensures IsChain(ts, actions) && ts[0] == w.t && ts[|actions|] == w'.t && InStep(w')
  {
    if m.Transaction? {
      ts, actions := m.ts, m.actions;
    } else {
      WorkIsBackground(w, w', m);
      ts, actions := [w.t, w'.t], [Background];
    }
  }

  // ----- the invariant over mixed runs -----

  lemma MoveKeepsInv(w: World, w': World, m: Move)
    requires WorldInv(w) && Moved(w, w', m)
    ensures WorldInv(w')
  {
    var ys, steps := MoveIsTrace(w, w', m);
    TraceKeepsInv(ys, steps, |steps|);
    var ts, actions := MoveIsChain(w, w', m);
    ChainKeepsInv(ts, actions, |actions|);
  }

  // Whatever use cases and protocol do to the same rows, in any order: the protocol's invariant, the
  // ownership invariant and their agreement hold in every state.
  lemma {:induction false} WholeRunKeepsInv(ws: seq<World>, moves: seq<Move>, i: nat)
    requires IsWholeRun(ws, moves) && i < |ws|
    ensures WorldInv(ws[i])
  {
    if i == 0 {
      RunKeepsInv([ws[0].y], [], 0);
      OwnershipOverRuns([ws[0].t], [], 0);
    } else {
      WholeRunKeepsInv(ws, moves, i - 1);
      assert Moved(ws[i - 1], ws[i], moves[i - 1]);
      MoveKeepsInv(ws[i - 1], ws[i], moves[i - 1]);
    }
  }

  predicate InOrder(at: seq<nat>) { forall k, l :: 0 <= k <= l < |at| ==> at[k] <= at[l] }

  ghost predicate Visits(ys: seq<System>, ws: seq<World>, at: seq<nat>) {
    && |at| <= |ws| && InOrder(at)
    && forall k {:trigger at[k]} :: 0 <= k < |at| ==> at[k] < |ys| && ys[at[k]] == ws[k].y
  }

  lemma NextTrace(ws: seq<World>, moves: seq<Move>, i: nat) returns (ys: seq<System>, steps: seq<Step>)
    requires IsWholeRun(ws, moves) && i < |moves|
    ensures IsTrace(ys, steps) && ys[0] == ws[i].y && ys[|steps|] == ws[i + 1].y
  {
    WholeRunKeepsInv(ws, moves, i);
    ys, steps := MoveIsTrace(ws[i], ws[i + 1], moves[i]);
  }

  lemma RunGrows(a: seq<System>, asteps: seq<Step>, b: seq<System>, bsteps: seq<Step>, ws: seq<World>, at: seq<nat>)
    requires IsRun(a, asteps) && IsTrace(b, bsteps) && |at| > 0 && Visits(a, ws, at) && at[|at| - 1] == |asteps|
    requires |at| < |ws| && b[0] == ws[|at| - 1].y && b[|bsteps|] == ws[|at|].y
    ensures IsRun(a + b[1..], asteps + bsteps) && Visits(a + b[1..], ws, at + [|asteps + bsteps|])
  {
    assert at[|at| - 1] == |asteps|;
    TracesJoin(a, asteps, b, bsteps);
    var longer := at + [|asteps + bsteps|];
    forall k | 0 <= k < |longer| ensures longer[k] < |a + b[1..]| && (a + b[1..])[longer[k]] == ws[k].y {
      if k < |at| { assert longer[k] == at[k]; }
    }
  }

  // A mixed run is a run of the protocol that visits its states in order, so what `Safety` says of
  // runs holds of it.
  lemma {:induction false} WholeRunIsRun(ws: seq<World>, moves: seq<Move>, i: nat) returns (ys: seq<System>, steps: seq<Step>, at: seq<nat>)
    requires IsWholeRun(ws, moves) && i < |ws|
    ensures IsRun(ys, steps) && |at| == i + 1 && Visits(ys, ws, at) && at[i] == |steps|
  {
    if i == 0 {
      ys, steps, at := [ws[0].y], [], [0];
    } else {
      var a, asteps, before := WholeRunIsRun(ws, moves, i - 1);
      var b, bsteps := NextTrace(ws, moves, i - 1);
      RunGrows(a, asteps, b, bsteps, ws, before);
      ys, steps, at := a + b[1..], asteps + bsteps, before + [|asteps + bsteps|];
    }
  }

  ghost predicate TablesVisit(ts: seq<Tables>, ws: seq<World>, at: seq<nat>) {
    && |at| <= |ws| && InOrder(at)
    && forall k {:trigger at[k]} :: 0 <= k < |at| ==> at[k] < |ts| && ts[at[k]] == ws[k].t
  }

  lemma NextChain(ws: seq<World>, moves: seq<Move>, i: nat) returns (ts: seq<Tables>, actions: seq<Action>)
    requires IsWholeRun(ws, moves) && i < |moves|
    ensures IsChain(ts, actions) && ts[0] == ws[i].t && ts[|actions|] == ws[i + 1].t
  {
    WholeRunKeepsInv(ws, moves, i);
    ts, actions := MoveIsChain(ws[i], ws[i + 1], moves[i]);
  }

  lemma HistoryGrows(a: seq<Tables>, acts: seq<Action>, b: seq<Tables>, bacts: seq<Action>, ws: seq<World>, at: seq<nat>)
    requires IsHistory(a, acts) && IsChain(b, bacts) && |at| > 0 && TablesVisit(a, ws, at) && at[|at| - 1] == |acts|
    requires |at| < |ws| && b[0] == ws[|at| - 1].t && b[|bacts|] == ws[|at|].t
    ensures IsHistory(a + b[1..], acts + bacts) && TablesVisit(a + b[1..], ws, at + [|acts + bacts|])
  {
    assert at[|at| - 1] == |acts|;
    ChainsJoin(a, acts, b, bacts);
    var longer := at + [|acts + bacts|];
    forall k | 0 <= k < |longer| ensures longer[k] < |a + b[1..]| && (a + b[1..])[longer[k]] == ws[k].t {
      if k < |at| { assert longer[k] == at[k]; }
    }
  }

  // And a history of the tables, so what `Lifecycle` says of histories holds of it.
  lemma {:induction false} WholeRunIsHistory(ws: seq<World>, moves: seq<Move>, i: nat) returns (ts: seq<Tables>, actions: seq<Action>, at: seq<nat>)
    requires IsWholeRun(ws, moves) && i < |ws|
    ensures IsHistory(ts, actions) && |at| == i + 1 && TablesVisit(ts, ws, at) && at[i] == |actions|
  {
    if i == 0 {
      ts, actions, at := [ws[0].t], [], [0];
    } else {
      var a, acts, before := WholeRunIsHistory(ws, moves, i - 1);
      var b, bacts := NextChain(ws, moves, i - 1);
      HistoryGrows(a, acts, b, bacts, ws, before);
      ts, actions, at := a + b[1..], acts + bacts, before + [|acts + bacts|];
    }
  }

  // Over mixed runs a key is held by one representation for good.
  lemma KeysInRuns(ws: seq<World>, moves: seq<Move>, i: nat, j: nat, r: RepId, q: RepId, s: SpaceId, k: Key)
    requires IsWholeRun(ws, moves) && i <= j < |ws| && AnnLookup.HeldBy(ws[i].t, s, k, r) && AnnLookup.HeldBy(ws[j].t, s, k, q)
    ensures q == r
  {
    var ys, steps, at := WholeRunIsRun(ws, moves, j);
    WholeRunKeepsInv(ws, moves, i);
    WholeRunKeepsInv(ws, moves, j);
    assert at[i] <= at[j];
    assert Holds(ys[at[i]].db, r, s, k) && Holds(ys[at[j]].db, q, s, k);
    KeysAreNeverReused(ys, steps, at[i], at[j], r, q, s, k);
  }

  // What is ERASED stays so whatever any use case does, and its vector is in no row and no file.
  lemma ErasedInRuns(ws: seq<World>, moves: seq<Move>, i: nat, j: nat, r: RepId, s: SpaceId)
    requires IsWholeRun(ws, moves) && i <= j < |ws| && r in ws[i].t.reps && ws[i].t.reps[r].state.Erased?
    ensures r in ws[j].t.reps && ws[j].t.reps[r].state.Erased? && ws[j].t.reps[r].vector.None?
    ensures InNoFile(Dir(ws[j].y, s), r)
  {
    var ys, steps, at := WholeRunIsRun(ws, moves, j);
    WholeRunKeepsInv(ws, moves, i);
    WholeRunKeepsInv(ws, moves, j);
    assert at[i] <= at[j];
    assert IsErased(ys[at[i]].db, r);
    RunKeepsErased(ys, steps, at[i], at[j], r);
    ErasureSafety(ys, steps, at[j], r, s);
  }

  // ----- what that gives the use cases -----

  lemma RowsAreInOrder(w: World)
    requires WorldInv(w)
    ensures DbInv(Memory(w.t))
  {
    var d, e := w.y.db, Memory(w.t);
    forall r | r in e.rows ensures RowOk(e, r) { assert RowOk(d, r); }
    forall o | o in e.ops ensures OpOk(e, o) { assert OpOk(d, o); }
  }

  // In every state of every run the use cases find what they ask for.
  lemma UseCasesMayRun(ws: seq<World>, moves: seq<Move>, i: nat)
    requires IsWholeRun(ws, moves) && i < |ws|
    ensures var t := ws[i].t;
      && DbInv(Memory(t)) && IdentityManager.OneLinkEach(t.links) && AnnLookup.KeysUnique(t)
      && t.nextId !in t.identities && t.nextId !in t.links
  {
    var t := ws[i].t;
    WholeRunKeepsInv(ws, moves, i);
    RowsAreInOrder(ws[i]);
    AnnLookup.KeysAreUnique(t);
    forall k, l | k in t.links && l in t.links && t.links[k].state.Active? && t.links[l].state.Active? && t.links[k].identity == t.links[l].identity
      ensures k == l
    {
      assert LinkOwned(t, l);
    }
  }

  // Forgetting is total whenever it happens.
  lemma ForgettingInRuns(ws: seq<World>, moves: seq<Move>, i: nat, u: Tables, x: IdentityId)
    requires IsWholeRun(ws, moves) && i < |ws| && IsActive(ws[i].t.identities, x) && IsForgotten(ws[i].t, u, x)
    ensures forall r :: r in OwnedByAny(u.reps, FamilyOf(u.identities, x)) ==> u.reps[r].state.Erasing? || u.reps[r].state.Erased?
    ensures forall r :: r in u.reps && u.reps[r].state.Erasing? && u.reps[r].key.Some? ==> HasOp(u.ops, r, Remove)
    ensures ForgetProof.EligibleReps(u) == ForgetProof.EligibleReps(ws[i].t) - ForgetProof.FamilysActive(ws[i].t, x)
  {
    WholeRunKeepsInv(ws, moves, i);
    RowsAreInOrder(ws[i]);
    ForgetProof.ForgettingIsTotal(ws[i].t, u, x);
  }
}
