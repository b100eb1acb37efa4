/** Startup recovery of indexes and erasures: validate the ACTIVE spaces' indexes, requeue what ran
    out of attempts, then resume, in that order. */
module Startup {
  import opened Store
  import opened Repositories
  import opened Protocol
  import opened Evolution
  import opened Invariant
  import opened InvariantProof
  import opened Coordinator
  import opened Passes
  import opened Queueing
  import opened Erasure

  // `_active_keys`: the keys SQLite says belong in the index.
  function ActiveKeys(rows: Rows, s: SpaceId): set<Key> {
    set r | r in rows && rows[r].space == s && rows[r].Eligible() && rows[r].key.Some? :: rows[r].key.value
  }

  // `_is_stale`: a key that is missing, or too many.
  predicate IsStale(rows: Rows, s: SpaceId, mem: Generation) {
    !(ActiveKeys(rows, s) <= mem.live.Keys) || |ActiveKeys(rows, s)| != |mem.live|
  }

  lemma FreshIsExact(rows: Rows, s: SpaceId, mem: Generation)
    ensures !IsStale(rows, s, mem) <==> mem.live.Keys == ActiveKeys(rows, s)
  {
    var active := ActiveKeys(rows, s);
    assert |mem.live| == |mem.live.Keys|;
    if active <= mem.live.Keys && |active| == |mem.live.Keys| {
      SubsetOfSameSize(active, mem.live.Keys);
    }
  }

  lemma SubsetOfSameSize(a: set<Key>, b: set<Key>)
    requires a <= b && |a| == |b|
    ensures a == b
  {
    assert |b - a| == |b| - |a|;
  }

  // The index answers with exactly the keys that belong in it, or with those of them whose vector
  // an index can hold.
  ghost predicate Exact(rows: Rows, s: SpaceId, dir: Protocol.Directory) {
    && dir.stale == {} && dir.usable && dir.current.Some?
    && var keys := dir.current.value.live.Keys;
       keys == ActiveKeys(rows, s) || Built(rows, s, dir.current.value)
  }

  // One space of `validate_indexes`: opened or rebuilt, and built again if it is stale.
  method ValidateIndex(library: Library, s: SpaceId)
    requires Inv(library.State(Idle))
    modifies library`dirs
    ensures Inv(library.State(Idle))
    ensures SameElsewhere(old(library.dirs), library.dirs, s) && s in library.dirs
    ensures Exact(library.session.rows, s, library.dirs[s])
  {
    LockStepKeepsInv(library.State(Idle), library.State(Pass([], Some(NewWork(s, [])))), Validate(s));
    ghost var w := LoadExact(library, s);
    NothingToSettle(library.State(Pass([], Some(w))));
  }

  method LoadExact(library: Library, s: SpaceId) returns (ghost w: Work)
    requires Inv(library.State(Pass([], Some(NewWork(s, [])))))
    modifies library`dirs
    ensures Inv(library.State(Pass([], Some(w)))) && w.space == s && w.ops == []
    ensures SameElsewhere(old(library.dirs), library.dirs, s) && s in library.dirs
    ensures Exact(library.session.rows, s, library.dirs[s])
  {
    var loaded := library.OpenOrRebuild(s, [], NewWork(s, []));
    w := loaded;
    FreshIsExact(library.session.rows, s, loaded.mem);
    if IsStale(library.session.rows, s, loaded.mem) {
      w := library.ReadAndPersist(s, [], loaded);
    }
  }

  // Validation settles no operation; its work simply ends.
  lemma NothingToSettle(y: System)
    requires Inv(y) && y.coord.Pass? && y.coord.todo == [] && y.coord.work.Some? && y.coord.work.value.ops == []
    ensures Inv(y.(coord := Idle))
  {
    var done := y.(coord := Pass([], None));
    var failed := y.(coord := Pass([], Some(AfterFailure(y.coord.work.value))));
    assert WorkStep(y, failed, Fail);
    WorkStepKeepsInv(y, failed, Fail);
    assert WorkStep(failed, done, Step.Settle);
    WorkStepKeepsInv(failed, done, Step.Settle);
    LockStepKeepsInv(done, y.(coord := Idle), EndPass);
  }

  // `validate_indexes` over the ACTIVE spaces.
  method ValidateIndexes(library: Library, active: set<SpaceId>)
    requires Inv(library.State(Idle))
    modifies library`dirs
    ensures Inv(library.State(Idle))
    ensures Validated(library.session.rows, active, old(library.dirs), library.dirs)
  {
    ghost var dirs := library.dirs;
    var left := active;
    ghost var seen := {};
    while left != {}
      invariant seen == active - left && left <= active
      invariant Inv(library.State(Idle)) && Validated(library.session.rows, seen, dirs, library.dirs)
      decreases left
    {
      var s :| s in left;
      ghost var before := library.dirs;
      ValidateIndex(library, s);
      OneMoreValidated(library.session.rows, seen, dirs, before, library.dirs, s);
      left, seen := left - {s}, seen + {s};
    }
    assert seen == active;
  }

  ghost predicate ValidatedAt(rows: Rows, active: set<SpaceId>, dirs: Dirs, dirs': Dirs, s: SpaceId) {
    if s in active then s in dirs' && Exact(rows, s, dirs'[s])
    else (s in dirs' <==> s in dirs) && (s in dirs ==> dirs'[s] == dirs[s])
  }

  ghost predicate Validated(rows: Rows, active: set<SpaceId>, dirs: Dirs, dirs': Dirs) {
    forall s {:trigger ValidatedAt(rows, active, dirs, dirs', s)} :: ValidatedAt(rows, active, dirs, dirs', s)
  }

  lemma OneMoreValidated(rows: Rows, seen: set<SpaceId>, dirs: Dirs, before: Dirs, after: Dirs, s: SpaceId)
    requires Validated(rows, seen, dirs, before) && SameElsewhere(before, after, s)
    requires s in after && Exact(rows, s, after[s])
    ensures Validated(rows, seen + {s}, dirs, after)
  {
    forall t ensures ValidatedAt(rows, seen + {s}, dirs, after, t) { assert ValidatedAt(rows, seen, dirs, before, t); }
  }

  // What requeueing did to one operation: a FAILED one is PENDING again, unless one that says the
  // same already is.
  ghost predicate RequeuedAt(ops: Ops, ops': Ops, now: Time, o: OpId) {
    && (o in ops' <==> o in ops)
    && (o in ops ==> ops'[o] == ops[o] || (ops[o].state.Failed? && ops'[o] == RequeuedOp(ops[o], now)))
  }

  ghost predicate Requeued(ops: Ops, ops': Ops, now: Time, left: set<OpId>) {
    && (forall o {:trigger RequeuedAt(ops, ops', now, o)} :: RequeuedAt(ops, ops', now, o))
    && (forall o :: o in ops && ops[o].state.Failed? && o !in left ==> HasPending(ops', ops[o].rep, ops[o].kind))
  }

  // `requeue_failed_operations`.
  method RequeueFailedOperations(library: Library, now: Time)
    requires Inv(library.State(Idle))
    modifies library.session`ops
    ensures Inv(library.State(Idle)) && Requeued(old(library.session.ops), library.session.ops, now, {})
  {
    ghost var ops := library.session.ops;
    var left := set o | o in library.session.ops && library.session.ops[o].state.Failed?;
    while left != {}
      invariant left <= ops.Keys
      invariant Inv(library.State(Idle)) && Requeued(ops, library.session.ops, now, left)
      decreases left
    {
      var o :| o in left;
      RequeueOne(library, o, now, ops, left);
      left := left - {o};
    }
  }

  method RequeueOne(library: Library, o: OpId, now: Time, ghost ops: Ops, ghost left: set<OpId>)
    requires o in left && o in ops && Inv(library.State(Idle)) && Requeued(ops, library.session.ops, now, left)
    modifies library.session`ops
    ensures Inv(library.State(Idle)) && Requeued(ops, library.session.ops, now, left - {o})
  {
    ghost var y := library.State(Idle);
    var done := Requeue(library.session, o, now);
    OneRequeued(ops, y.db.ops, library.session.ops, now, left, o, done);
    if done {
      assert Committed(y.db, library.session.Db(), RequeueFailed(o, now));
      LockStepKeepsInv(y, library.State(Idle), Other(RequeueFailed(o, now)));
    }
  }

  lemma OneRequeued(ops: Ops, mid: Ops, post: Ops, now: Time, left: set<OpId>, o: OpId, done: bool)
    requires o in ops && Requeued(ops, mid, now, left)
    requires done <==> o in mid && mid[o].state.Failed? && !HasPending(mid, mid[o].rep, mid[o].kind)
    requires post == if done then mid[o := RequeuedOp(mid[o], now)] else mid
    ensures Requeued(ops, post, now, left - {o})
  {
    assert RequeuedAt(ops, mid, now, o);
    StaysPending(mid, post, o);
    forall p ensures RequeuedAt(ops, post, now, p) { assert RequeuedAt(ops, mid, now, p); }
    if ops[o].state.Failed? {
      if done { assert o in post && IsOp(post[o], ops[o].rep, ops[o].kind) && post[o].state.Pending?; }
      else if !mid[o].state.Failed? { assert IsOp(mid[o], ops[o].rep, ops[o].kind) && mid[o].state.Pending?; }
    }
  }

  // Nothing recorded in the space is still open.
  ghost predicate OpenIn(ops: Ops, s: SpaceId) { exists o :: o in ops && ops[o].Open() && ops[o].space == s }

  // What startup cannot finish: an erasure in a space that is not ACTIVE, so not validated, where a
  // superseded file is left and nothing is open.
  ghost predicate StuckAtStart(d: Db, dirs: Dirs, active: set<SpaceId>, r: RepId) {
    && KeyedErasing(d, r) && d.rows[r].space !in active && StaleIn(dirs, d.rows[r].space) != {}
    && !OpenIn(d.ops, d.rows[r].space)
    && forall q {:trigger KeyedErasing(d, q)} :: KeyedErasing(d, q) && d.rows[q].space == d.rows[r].space ==> RemovalDone(d.ops, q)
  }

  lemma PendingIfOpen(d: Db, ops': Ops, now: Time, s: SpaceId)
    requires DbInv(d) && Requeued(d.ops, ops', now, {})
    ensures PendingIn(ops', s) <==> OpenIn(d.ops, s)
  {
    if PendingIn(ops', s) {
      var o :| o in ops' && ops'[o].state.Pending? && ops'[o].space == s;
      assert RequeuedAt(d.ops, ops', now, o);
    }
    if OpenIn(d.ops, s) {
      var o :| o in d.ops && d.ops[o].Open() && d.ops[o].space == s;
      assert RequeuedAt(d.ops, ops', now, o) && OpOk(d, o);
      if d.ops[o].state.Failed? {
        var p :| p in ops' && IsOp(ops'[p], d.ops[o].rep, d.ops[o].kind) && ops'[p].state.Pending?;
        assert RequeuedAt(d.ops, ops', now, p) && OpOk(d, p);
      }
    }
  }

  lemma SameRemovals(d: Db, ops': Ops, now: Time, r: RepId)
    requires Requeued(d.ops, ops', now, {})
    ensures RemovalDone(ops', r) <==> RemovalDone(d.ops, r)
  {
    if HasApplied(d.ops, r, Remove) {
      var o :| o in d.ops && IsOp(d.ops[o], r, Remove) && d.ops[o].state.Applied?;
      assert RequeuedAt(d.ops, ops', now, o) && IsOp(ops'[o], r, Remove);
    }
    if HasOpen(d.ops, r, Remove, {}) {
      var o :| o in d.ops && IsOp(d.ops[o], r, Remove) && d.ops[o].Open();
      assert RequeuedAt(d.ops, ops', now, o) && IsOp(ops'[o], r, Remove);
    }
    if HasApplied(ops', r, Remove) {
      var o :| o in ops' && IsOp(ops'[o], r, Remove) && ops'[o].state.Applied?;
      assert RequeuedAt(d.ops, ops', now, o) && IsOp(d.ops[o], r, Remove);
    }
    if HasOpen(ops', r, Remove, {}) {
      var o :| o in ops' && IsOp(ops'[o], r, Remove) && ops'[o].Open();
      assert RequeuedAt(d.ops, ops', now, o) && IsOp(d.ops[o], r, Remove);
    }
  }

  lemma StuckFromStart(d: Db, dirs: Dirs, active: set<SpaceId>, ops': Ops, dirs': Dirs, now: Time)
    requires DbInv(d) && Requeued(d.ops, ops', now, {}) && Validated(d.rows, active, dirs, dirs')
    ensures StuckReps(d.(ops := ops'), dirs') == set r | r in d.rows && StuckAtStart(d, dirs, active, r)
  {
    var d' := d.(ops := ops');
    forall r | r in d.rows ensures StuckFor(d', dirs', r) <==> StuckAtStart(d, dirs, active, r) {
      var s := d.rows[r].space;
      PendingIfOpen(d, ops', now, s);
      assert ValidatedAt(d.rows, active, dirs, dirs', s);
      forall q ensures KeyedErasing(d', q) <==> KeyedErasing(d, q)
               ensures RemovalDone(ops', q) <==> RemovalDone(d.ops, q) { SameRemovals(d, ops', now, q); }
    }
  }

  // Startup: with no locked file and every backoff elapsed, the report is complete exactly when no
  // erasure is stuck in a space that is not ACTIVE (in particular whenever every space is) and no
  // truncation is left owed.
  method Recover(eraser: RepresentationEraser, active: set<SpaceId>, now: Time, checkpoint: Checkpoint) returns (report: ErasureReport)
    requires Inv(eraser.library.State(Idle)) && AllDue(eraser.library.session.ops, now)
    modifies eraser.library, eraser.library.session
    ensures Inv(eraser.library.State(Idle))
    ensures report.Complete() <==>
      && eraser.library.session.marker.None?
      && forall r :: !StuckAtStart(old(eraser.library.session.Db()), old(eraser.library.dirs), active, r)
    ensures eraser.library.session.marker.None? <==>
      checkpoint.Truncates? || (old(eraser.library.session.marker).None? && report.erased == {})
    ensures eraser.library.session.marker.None? ==> !LogHoldsErased(eraser.library.session.Db(), eraser.library.log)
    ensures forall r | r in old(eraser.library.session.rows) && old(eraser.library.session.rows)[r].state.Erasing? ::
      r in report.erased <==> !StuckAtStart(old(eraser.library.session.Db()), old(eraser.library.dirs), active, r)
  {
    var library := eraser.library;
    ghost var d, dirs := library.session.Db(), library.dirs;
    ValidateIndexes(library, active);
    RequeueFailedOperations(library, now);
    StuckFromStart(d, dirs, active, library.session.ops, library.dirs, now);
    RequeuedAreDue(d.ops, library.session.ops, now);
    assert library.session.Db() == d.(ops := library.session.ops);
    ghost var stuck := StuckReps(library.session.Db(), library.dirs);
    assert forall r :: StuckAtStart(d, dirs, active, r) <==> r in stuck;
    report := eraser.Resume(now, checkpoint);
  }

  lemma RequeuedAreDue(ops: Ops, ops': Ops, now: Time)
    requires Requeued(ops, ops', now, {}) && AllDue(ops, now)
    ensures AllDue(ops', now)
  {
    forall o | o in ops' && ops'[o].state.Pending? ensures ops'[o].due <= now { assert RequeuedAt(ops, ops', now, o); }
  }
}
