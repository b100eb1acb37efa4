/** `RepresentationEraser`: queue, apply, finalize, truncate, verify, as one call runs when nothing
    else commits and no file is locked, whatever becomes of the checkpoint. */
module Erasure {
  import opened Store
  import opened Protocol
  import opened Evolution
  import opened Invariant
  import opened InvariantProof
  import opened Coordinator
  import opened Passes
  import opened Queueing
  import Repositories

  // What the truncating checkpoint does: `truncate_wal` returns True, returns False, or raises.
  datatype Checkpoint = Truncates | Busy | Raises

  class ErasureReport {
    var erased: set<RepId>
    var pending: set<RepId>
    var ignored: set<RepId>
    var blocked: set<SpaceId>
    var errors: set<OpId>
    var walTruncated: bool
    var truncated: bool
    var unverified: set<RepId>
    var truncationRaised: bool

    constructor ()
      ensures Complete() && !truncated && erased == {} && ignored == {}
    {
      erased, pending, ignored, blocked, errors := {}, {}, {}, {}, {};
      walTruncated, truncated, unverified, truncationRaised := true, false, {}, false;
    }

    // Nothing is outstanding.
    predicate Complete()
      reads this
    {
      blocked == {} && errors == {} && !truncationRaised && pending == {} && unverified == {} && walTruncated
    }
  }

  // ----- one space -----

  function KeylessIn(rows: Rows, s: SpaceId): set<RepId> {
    set r | r in rows && rows[r].space == s && rows[r].state.Erasing? && rows[r].key.None?
  }

  // `_removal_done`.
  function RemovedIn(rows: Rows, ops: Ops, s: SpaceId): set<RepId> {
    set r | r in rows && rows[r].space == s && rows[r].state.Erasing? && rows[r].key.Some? && RemovalDone(ops, r)
  }

  // What one finalization of the space clears: what no file ever held, and what is removed once no
  // superseded file is left.
  function Ready(rows: Rows, ops: Ops, s: SpaceId, retired: bool): set<RepId> {
    KeylessIn(rows, s) + if retired then RemovedIn(rows, ops, s) else {}
  }

  // `_clear`, or nothing when nothing is ready.
  function ClearedIfAny(d: Db, ready: set<RepId>): Db { if ready == {} then d else Cleared(d, ready) }

  function StaleIn(dirs: Dirs, s: SpaceId): set<set<RepId>> { if s in dirs then dirs[s].stale else {} }

  ghost predicate SameStale(a: Dirs, b: Dirs) { forall s {:trigger StaleIn(b, s)} :: StaleIn(a, s) == StaleIn(b, s) }

  // Once its removal is done, nothing but a superseded file keeps a representation from being cleared.
  predicate Clears(d: Db, dirs: Dirs, r: RepId) {
    && r in d.rows && d.rows[r].state.Erasing?
    && (d.rows[r].key.None? || (RemovalDone(d.ops, r) && StaleIn(dirs, d.rows[r].space) == {}))
  }

  predicate Blocks(d: Db, dirs: Dirs, s: SpaceId) { RemovedIn(d.rows, d.ops, s) != {} && StaleIn(dirs, s) != {} }

  // The steps of a finalization, on the state they pass through.
  function AfterCheck(y: System, s: SpaceId): System {
    if RemovedIn(y.db.rows, y.db.ops, s) == {} then y
    else WithDir(y, s, Dir(y, s).(quarantine := {}))
  }

  lemma ChecksOut(y: System, s: SpaceId)
    requires Inv(y) && y.coord.Idle?
    ensures Inv(AfterCheck(y, s).(coord := Clearing(s, Ready(y.db.rows, y.db.ops, s, Dir(y, s).stale == {}))))
  {
    var keyless, removed := KeylessIn(y.db.rows, s), RemovedIn(y.db.rows, y.db.ops, s);
    var listed := y.(coord := Listing(s, keyless, removed));
    assert LockStep(y, listed, ListSpace(s));
    LockStepKeepsInv(y, listed, ListSpace(s));
    Checked(listed, s, Ready(y.db.rows, y.db.ops, s, Dir(y, s).stale == {}));
  }

  lemma Checked(y: System, s: SpaceId, ready: set<RepId>)
    requires Inv(y) && y.coord == Listing(s, KeylessIn(y.db.rows, s), RemovedIn(y.db.rows, y.db.ops, s))
    requires ready == Ready(y.db.rows, y.db.ops, s, Dir(y, s).stale == {})
    ensures Inv(AfterCheck(y, s).(coord := Clearing(s, ready)))
  {
    var y' := AfterCheck(y, s).(coord := Clearing(s, ready));
    var keyless, removed := y.coord.keyless, y.coord.removed;
    assert ready == if removed == {} || Dir(y, s).stale != {} then keyless else keyless + removed;
    assert LockStep(y, y', CheckFiles);
    LockStepKeepsInv(y, y', CheckFiles);
  }

  lemma ClearsOut(y: System, s: SpaceId, ready: set<RepId>)
    requires Inv(y) && y.coord == Clearing(s, ready)
    ensures Inv(y.(coord := Idle))
    ensures Inv(y.(coord := Idle, db := Cleared(y.db, ready), log := y.log + Holders(y.db.rows)))
  {
    assert LockStep(y, y.(coord := Idle), Unlock);
    LockStepKeepsInv(y, y.(coord := Idle), Unlock);
    var y' := y.(coord := Idle, db := Cleared(y.db, ready), log := y.log + Holders(y.db.rows));
    assert LockStep(y, y', Clear);
    LockStepKeepsInv(y, y', Clear);
  }

  class RepresentationEraser {
    const library: Library
    const retry: RetryPolicy

    constructor (library: Library, retry: RetryPolicy)
      ensures this.library == library && this.retry == retry
    {
      this.library, this.retry := library, retry;
    }

    // The listing and the look at the files, under the lock.
    method CheckFiles(s: SpaceId) returns (ready: set<RepId>, blocked: bool)
      requires Inv(library.State(Idle))
      modifies library`dirs
      ensures Inv(library.State(Clearing(s, ready)))
      ensures ready == Ready(library.session.rows, library.session.ops, s, StaleIn(old(library.dirs), s) == {})
      ensures blocked <==> Blocks(library.session.Db(), old(library.dirs), s)
      ensures SameStale(old(library.dirs), library.dirs)
    {
      var session := library.session;
      ghost var y := library.State(Idle);
      var keyless := KeylessIn(session.rows, s);
      var removed := RemovedIn(session.rows, session.ops, s);
      ready, blocked := keyless + removed, false;
      if removed != {} {
        var dir := library.Directory(s);
        library.dirs := library.dirs[s := dir.(quarantine := {})];
        if dir.stale != {} { ready, blocked := keyless, true; }
      }
      ChecksOut(y, s);
      assert library.State(Idle) == AfterCheck(y, s);
    }

    // `_finalize_space`: quarantined files are deleted, superseded ones are only looked for.
    method FinalizeSpace(s: SpaceId) returns (cleared: set<RepId>, blocked: bool)
      requires Inv(library.State(Idle))
      modifies library, library.session
      ensures Inv(library.State(Idle))
      ensures cleared == Ready(old(library.session.rows), old(library.session.ops), s, StaleIn(old(library.dirs), s) == {})
      ensures blocked <==> Blocks(old(library.session.Db()), old(library.dirs), s)
      ensures library.session.Db() == ClearedIfAny(old(library.session.Db()), cleared)
      ensures SameStale(old(library.dirs), library.dirs)
    {
      cleared, blocked := CheckFiles(s);
      ClearsOut(library.State(Clearing(s, cleared)), s, cleared);
      if cleared == {} { return; }
      MarkErased(cleared);
    }

    // `_clear`: one transaction, with a marker of its own.
    method MarkErased(ready: set<RepId>)
      modifies library`log, library.session`rows, library.session`marker, library.session`nextToken
      ensures library.session.Db() == Cleared(old(library.session.Db()), ready)
      ensures library.log == old(library.log) + Holders(old(library.session.rows))
    {
      var session := library.session;
      library.log := library.log + Holders(session.rows);
      var _ := Repositories.SetMarker(session);
      session.rows := ClearedRows(session.rows, ready);
    }

    // The loop over the spaces that had something ERASING.
    method FinalizeSpaces(spaces: set<SpaceId>, report: ErasureReport) returns (cleared: set<RepId>)
      requires Inv(library.State(Idle))
      requires report.blocked == {}
      modifies library, library.session, report`blocked
      ensures Inv(library.State(Idle))
      ensures Finalized(old(library.session.Db()), old(library.dirs), spaces, library.session.Db(), library.dirs, cleared, report.blocked)
    {
      ghost var d, dirs := library.session.Db(), library.dirs;
      var left, seen := spaces, {};
      cleared := {};
      ClearedTwice(d.rows, {}, {});
      while left != {}
        invariant seen !! left && seen + left == spaces
        invariant Inv(library.State(Idle))
        invariant Finalized(d, dirs, seen, library.session.Db(), library.dirs, cleared, report.blocked)
        decreases left
      {
        var s :| s in left;
        cleared := FinalizeNext(d, dirs, seen, s, cleared, report);
        left, seen := left - {s}, seen + {s};
      }
      assert seen == spaces;
    }

    method FinalizeNext(ghost d: Db, ghost dirs: Dirs, ghost seen: set<SpaceId>, s: SpaceId, cleared: set<RepId>, report: ErasureReport)
      returns (cleared': set<RepId>)
      requires Inv(library.State(Idle)) && s !in seen
      requires Finalized(d, dirs, seen, library.session.Db(), library.dirs, cleared, report.blocked)
      modifies library, library.session, report`blocked
      ensures Inv(library.State(Idle))
      ensures Finalized(d, dirs, seen + {s}, library.session.Db(), library.dirs, cleared', report.blocked)
    {
      OneMoreSpace(d, dirs, seen, s, library.session.Db(), library.dirs);
      var done, blocked := FinalizeSpace(s);
      cleared' := cleared + done;
      if blocked { report.blocked := report.blocked + {s}; }
    }

    // Steps two: one pass over everything due, if anything is ERASING and anything is due.
    method ApplyRemovals(spaces: set<SpaceId>, now: Time, report: ErasureReport)
      requires Inv(library.State(Idle)) && ErasuresQueued(library.session.Db())
      requires AllDue(library.session.ops, now)
      requires spaces == ErasingSpaces(library.session.rows) && report.errors == {}
      modifies library`dirs, library.session`ops, report`errors
      ensures Inv(library.State(Idle))
      ensures library.session.Db() == old(library.session.Db()).(ops := library.session.ops)
      ensures Removed(old(library.session.Db()), old(library.dirs), library.session.Db(), library.dirs)
      ensures report.errors == {}
    {
      ghost var d, dirs := library.session.Db(), library.dirs;
      var before := library.session.ops;
      var due := PendingOps(before);
      assert forall o :: o in before && before[o].state.Pending? ==> o in due;
      if spaces != {} && due != {} {
        ApplyPending(library, |due|, now, retry);
        var after := library.session.ops;
        var rows := library.session.rows;
        report.errors := ErrorsOf(rows, after, due);
        PassIsEnough(d, dirs, library.session.Db(), library.dirs);
      } else {
        NothingDue(d, library.dirs);
      }
    }

    // `_truncate`: a checkpoint that fails leaves the truncation owed; one that succeeds leaves no
    // erased vector in the log.
    method Truncate(checkpoint: Checkpoint, report: ErasureReport)
      requires Inv(library.State(Idle))
      modifies library`log, library.session`marker, report`truncated, report`walTruncated, report`truncationRaised
      ensures Inv(library.State(Idle))
      ensures library.session.marker == if checkpoint.Truncates? then None else old(library.session.marker)
      ensures library.session.marker.None? ==> !LogHoldsErased(library.session.Db(), library.log)
      ensures report.walTruncated == (old(report.walTruncated) && library.session.marker.None?)
      ensures report.truncationRaised == (old(report.truncationRaised) || (checkpoint.Raises? && old(library.session.marker).Some?))
      ensures report.truncated == (old(report.truncated) || (checkpoint.Truncates? && old(library.session.marker).Some?))
    {
      var owed := library.session.marker;
      ghost var y := library.State(Idle);
      if owed.None? { return; }
      if checkpoint.Raises? { report.truncationRaised := true; }
      if !checkpoint.Truncates? {
        report.walTruncated := false;
        return;
      }
      library.log := {};
      var _ := Repositories.ClearMarker(library.session, owed);
      report.truncated := true;
      TruncationSteps(y);
    }

    // `_summarize`: recovery reports what it finished and everything still ERASING; a call with a
    // scope sorts what it was asked for.
    method Summarize(scope: Option<set<RepId>>, cleared: set<RepId>, report: ErasureReport)
      modifies report`erased, report`pending, report`ignored
      ensures SummaryOf(library.session.rows, scope, cleared, report.erased, report.pending, report.ignored)
    {
      var rows := library.session.rows;
      if scope.None? {
        report.erased, report.pending, report.ignored := cleared, set r | r in rows && rows[r].state.Erasing?, {};
      } else {
        report.erased := set r | r in scope.value && r in rows && rows[r].state.Erased?;
        report.pending := set r | r in scope.value && r in rows && rows[r].state.Erasing?;
        report.ignored := scope.value - report.erased - report.pending;
      }
    }

    // Steps two and three over every space that has something ERASING.
    method RemoveAndClear(now: Time, report: ErasureReport) returns (cleared: set<RepId>)
      requires Inv(library.State(Idle)) && ErasuresQueued(library.session.Db()) && AllDue(library.session.ops, now)
      requires report.errors == {} && report.blocked == {}
      modifies library, library.session, report`errors, report`blocked
      ensures Inv(library.State(Idle)) && report.errors == {}
      ensures Driven(old(library.session.Db()), old(library.dirs), library.session.rows, cleared, report.blocked)
      ensures library.session.marker.Some? <==> old(library.session.marker).Some? || cleared != {}
    {
      ghost var d, dirs := library.session.Db(), library.dirs;
      var spaces := ErasingSpaces(library.session.rows);
      ApplyRemovals(spaces, now, report);
      ghost var d1, dirs1 := library.session.Db(), library.dirs;
      cleared := FinalizeSpaces(spaces, report);
      AllFinalized(d, dirs, d1, dirs1, library.session.Db());
    }

    // `_verify`: what was cleared and reads back with a vector or a key.
    method Verify(cleared: set<RepId>, report: ErasureReport)
      modifies report`unverified
      ensures report.unverified == Uncleared(library.session.rows, cleared)
    {
      var rows := library.session.rows;
      report.unverified := set r | r in cleared && r in rows && (!rows[r].state.Erased? || rows[r].vector.Some? || rows[r].key.Some?);
    }

    // Steps four and five: only a truncation still owed can yet keep the report from being complete.
    method TruncateAndVerify(cleared: set<RepId>, checkpoint: Checkpoint, report: ErasureReport)
      requires Inv(library.State(Idle)) && Uncleared(library.session.rows, cleared) == {}
      requires report.errors == {} && report.walTruncated && !report.truncationRaised
      modifies library`log, library.session`marker, report`truncated, report`walTruncated, report`truncationRaised, report`unverified
      ensures Inv(library.State(Idle))
      ensures library.session.marker == if checkpoint.Truncates? then None else old(library.session.marker)
      ensures library.session.marker.None? ==> !LogHoldsErased(library.session.Db(), library.log)
      ensures report.Complete() <==> report.blocked == {} && report.pending == {} && library.session.marker.None?
    {
      Truncate(checkpoint, report);
      Verify(cleared, report);
    }

    // Steps two and three with the summary, which nothing after them changes.
    method ClearAndSummarize(scope: Option<set<RepId>>, now: Time, report: ErasureReport) returns (cleared: set<RepId>)
      requires Inv(library.State(Idle)) && ErasuresQueued(library.session.Db()) && AllDue(library.session.ops, now)
      requires report.errors == {} && report.blocked == {}
      modifies library, library.session, report`errors, report`blocked, report`erased, report`pending, report`ignored
      ensures Inv(library.State(Idle)) && report.errors == {}
      ensures cleared == Clearable(old(library.session.Db()), old(library.dirs))
      ensures library.session.rows == ClearedRows(old(library.session.rows), cleared) && Uncleared(library.session.rows, cleared) == {}
      ensures library.session.marker.Some? <==> old(library.session.marker).Some? || cleared != {}
      ensures report.blocked == {} && report.pending == {} <==> !Waits(old(library.session.Db()), old(library.dirs))
      ensures SummaryOf(library.session.rows, scope, cleared, report.erased, report.pending, report.ignored)
    {
      ghost var d, dirs := library.session.Db(), library.dirs;
      cleared := RemoveAndClear(now, report);
      Summarize(scope, cleared, report);
      CompleteUnless(d, dirs, library.session.rows, cleared, report.blocked, scope, report.erased, report.pending, report.ignored);
    }

    // `_drive`, after a queueing transaction.
    method Drive(scope: Option<set<RepId>>, now: Time, checkpoint: Checkpoint) returns (report: ErasureReport)
      requires Inv(library.State(Idle)) && ErasuresQueued(library.session.Db()) && AllDue(library.session.ops, now)
      modifies library, library.session
      ensures fresh(report) && Inv(library.State(Idle))
      ensures library.session.rows == ClearedRows(old(library.session.rows), Clearable(old(library.session.Db()), old(library.dirs)))
      ensures library.session.marker.None? <==>
        checkpoint.Truncates? || (old(library.session.marker).None? && Clearable(old(library.session.Db()), old(library.dirs)) == {})
      ensures library.session.marker.None? ==> !LogHoldsErased(library.session.Db(), library.log)
      ensures report.Complete() <==> !Waits(old(library.session.Db()), old(library.dirs)) && library.session.marker.None?
      ensures SummaryOf(library.session.rows, scope, Clearable(old(library.session.Db()), old(library.dirs)),
                        report.erased, report.pending, report.ignored)
    {
      report := new ErasureReport();
      var cleared := ClearAndSummarize(scope, now, report);
      TruncateAndVerify(cleared, checkpoint, report);
    }

    // `queue`: the commit the protocol knows, and everything an erasure needs is then queued.
    method QueueErasures(ids: seq<RepId>, now: Time)
      requires Inv(library.State(Idle)) && AllDue(library.session.ops, now)
      modifies library.session`rows, library.session`ops, library.session`nextOp
      ensures Inv(library.State(Idle)) && ErasuresQueued(library.session.Db()) && AllDue(library.session.ops, now)
      ensures ErasureQueued(old(library.session.Db()), library.session.Db(), Elements(ids), false)
    {
      ghost var y := library.State(Idle);
      Queue(library.session, ids, false, now);
      QueueKeepsInv(y, library.State(Idle), Elements(ids));
      EverythingQueued(y.db, library.session.Db(), Elements(ids));
    }

    // The queueing of `resume`: nothing moves, and what is then held up is what was stuck.
    method QueueMissing(now: Time)
      requires Inv(library.State(Idle)) && AllDue(library.session.ops, now)
      modifies library.session`rows, library.session`ops, library.session`nextOp
      ensures Inv(library.State(Idle)) && ErasuresQueued(library.session.Db()) && AllDue(library.session.ops, now)
      ensures library.session.rows == old(library.session.rows)
      ensures Clearable(library.session.Db(), library.dirs) == Erasings(library.session.rows) - StuckReps(old(library.session.Db()), library.dirs)
      ensures Waits(library.session.Db(), library.dirs) <==> StuckReps(old(library.session.Db()), library.dirs) != {}
    {
      ghost var d := library.session.Db();
      QueueErasures([], now);
      assert Elements([]) == {};
      StuckDecides(d, library.session.Db(), library.dirs);
    }

    // `resume`: with every backoff elapsed it finishes every erasure but those of a stuck space, and
    // its report is complete exactly when no space was stuck and the log is truncated if that is owed.
    method Resume(now: Time, checkpoint: Checkpoint) returns (report: ErasureReport)
      requires Inv(library.State(Idle)) && AllDue(library.session.ops, now)
      modifies library, library.session
      ensures fresh(report) && Inv(library.State(Idle))
      ensures report.erased == Erasings(old(library.session.rows)) - StuckReps(old(library.session.Db()), old(library.dirs))
      ensures report.pending == StuckReps(old(library.session.Db()), old(library.dirs))
      ensures library.session.rows == ClearedRows(old(library.session.rows), report.erased)
      ensures library.session.marker.None? <==> checkpoint.Truncates? || (old(library.session.marker).None? && report.erased == {})
      ensures library.session.marker.None? ==> !LogHoldsErased(library.session.Db(), library.log)
      ensures report.Complete() <==> StuckReps(old(library.session.Db()), old(library.dirs)) == {} && library.session.marker.None?
    {
      ghost var d, dirs := library.session.Db(), library.dirs;
      QueueMissing(now);
      report := Drive(None, now, checkpoint);
      StuckAreLeft(d, dirs, report.erased);
    }

    // `erase`: whatever of the request could be erased is erased when the call returns, its bytes out
    // of the rows, and out of the log unless the truncation is still owed.
    method Erase(ids: seq<RepId>, now: Time, checkpoint: Checkpoint) returns (report: ErasureReport)
      requires Inv(library.State(Idle)) && AllDue(library.session.ops, now)
      modifies library, library.session
      ensures fresh(report) && Inv(library.State(Idle))
      ensures forall r | r in ids && r in old(library.session.rows) && Erasable(old(library.session.rows)[r].state) ::
        r in report.erased && (library.session.marker.None? ==> r !in library.log)
      ensures SummaryOf(library.session.rows, Some(Elements(ids)), {}, report.erased, report.pending, report.ignored)
      ensures checkpoint.Truncates? ==> library.session.marker.None?
      ensures library.session.marker.None? ==> !LogHoldsErased(library.session.Db(), library.log)
      ensures report.Complete() ==> library.session.marker.None?
    {
      ghost var d := library.session.Db();
      QueueErasures(ids, now);
      ghost var queued, dirs := library.session.Db(), library.dirs;
      report := Drive(Some(Elements(ids)), now, checkpoint);
      RequestedAreErased(d, queued, dirs, Elements(ids), library.session.Db(), library.log, report.erased, report.pending, report.ignored);
    }
  }

  lemma StuckAreLeft(d: Db, dirs: Dirs, erased: set<RepId>)
    requires erased == Erasings(d.rows) - StuckReps(d, dirs)
    ensures Erasings(ClearedRows(d.rows, erased)) == StuckReps(d, dirs)
  {}

  ghost predicate Finalized(d: Db, dirs: Dirs, spaces: set<SpaceId>, d': Db, dirs': Dirs, cleared: set<RepId>, blocked: set<SpaceId>) {
    && cleared == FinalizedIn(d, dirs, spaces) && blocked == BlockedIn(d, dirs, spaces)
    && MarkedErased(d, d', cleared) && SameStale(dirs, dirs')
  }

  function FinalizedIn(d: Db, dirs: Dirs, spaces: set<SpaceId>): set<RepId> {
    set r | r in d.rows && d.rows[r].space in spaces && Clears(d, dirs, r)
  }

  // What clearing `cleared` in some number of transactions leaves.
  ghost predicate MarkedErased(d: Db, d': Db, cleared: set<RepId>) {
    && d' == d.(rows := ClearedRows(d.rows, cleared), marker := d'.marker, nextToken := d'.nextToken)
    && if cleared == {} then d' == d else d'.marker.Some?
  }

  function BlockedIn(d: Db, dirs: Dirs, spaces: set<SpaceId>): set<SpaceId> {
    set s | s in spaces && Blocks(d, dirs, s)
  }

  lemma OneMoreSpace(d: Db, dirs: Dirs, spaces: set<SpaceId>, s: SpaceId, now: Db, dirsNow: Dirs)
    requires s !in spaces && MarkedErased(d, now, FinalizedIn(d, dirs, spaces)) && SameStale(dirs, dirsNow)
    ensures var done := Ready(now.rows, now.ops, s, StaleIn(dirsNow, s) == {});
      && FinalizedIn(d, dirs, spaces + {s}) == FinalizedIn(d, dirs, spaces) + done
      && MarkedErased(d, ClearedIfAny(now, done), FinalizedIn(d, dirs, spaces + {s}))
    ensures BlockedIn(d, dirs, spaces + {s}) == BlockedIn(d, dirs, spaces) + if Blocks(now, dirsNow, s) then {s} else {}
  {
    var before, done := FinalizedIn(d, dirs, spaces), Ready(now.rows, now.ops, s, StaleIn(dirsNow, s) == {});
    assert StaleIn(dirsNow, s) == StaleIn(dirs, s);
    SameInSpace(d, before, now, s);
    ReadyClears(d, dirs, spaces, s);
    MarkedTwice(d, before, now, done);
  }

  lemma ReadyClears(d: Db, dirs: Dirs, spaces: set<SpaceId>, s: SpaceId)
    ensures FinalizedIn(d, dirs, spaces + {s})
         == FinalizedIn(d, dirs, spaces) + Ready(d.rows, d.ops, s, StaleIn(dirs, s) == {})
  {}

  lemma MarkedTwice(d: Db, before: set<RepId>, now: Db, done: set<RepId>)
    requires MarkedErased(d, now, before)
    ensures MarkedErased(d, ClearedIfAny(now, done), before + done)
  {
    ClearedTwice(d.rows, before, done);
  }

  // Clearing elsewhere changes nothing about what is ready here.
  lemma SameInSpace(d: Db, cleared: set<RepId>, now: Db, s: SpaceId)
    requires MarkedErased(d, now, cleared) && forall r :: r in cleared ==> r in d.rows && d.rows[r].space != s
    ensures RemovedIn(now.rows, now.ops, s) == RemovedIn(d.rows, d.ops, s)
    ensures KeylessIn(now.rows, s) == KeylessIn(d.rows, s)
  {
    forall r | r in d.rows && d.rows[r].space == s ensures r in now.rows && now.rows[r] == d.rows[r] {}
  }

  lemma ClearedTwice(rows: Rows, a: set<RepId>, b: set<RepId>)
    ensures ClearedRows(ClearedRows(rows, a), b) == ClearedRows(rows, a + b)
    ensures ClearedRows(rows, {}) == rows
  {}

  function ErasingSpaces(rows: Rows): set<SpaceId> { set r | r in rows && rows[r].state.Erasing? :: rows[r].space }

  predicate AllDue(ops: Ops, now: Time) { forall o :: o in ops && ops[o].state.Pending? ==> ops[o].due <= now }

  ghost predicate KeyedErasing(d: Db, r: RepId) { r in d.rows && d.rows[r].state.Erasing? && d.rows[r].key.Some? }

  // What queueing leaves: every keyed ERASING representation has a REMOVE, and a FAILED one never
  // without a PENDING one.
  ghost predicate ErasuresQueued(d: Db) {
    && (forall r {:trigger KeyedErasing(d, r)} :: KeyedErasing(d, r) ==> HasOp(d.ops, r, Remove))
    && (forall o :: o in d.ops && d.ops[o].kind.Remove? && KeyedErasing(d, d.ops[o].rep) ==> !d.ops[o].state.Failed?)
  }

  // After the pass every removal is done, and a space with anything PENDING has no superseded file.
  ghost predicate Removed(d: Db, dirs: Dirs, d': Db, dirs': Dirs) {
    && (forall r {:trigger KeyedErasing(d, r)} :: KeyedErasing(d, r) ==>
          && RemovalDone(d'.ops, r)
          && StaleIn(dirs', d.rows[r].space) == if PendingIn(d.ops, d.rows[r].space) then {} else StaleIn(dirs, d.rows[r].space))
  }

  lemma PassRemoves(d: Db, d': Db)
    requires DbInv(d) && ErasuresQueued(d) && Passed(d, d')
    ensures forall r {:trigger KeyedErasing(d, r)} :: KeyedErasing(d, r) ==> RemovalDone(d'.ops, r)
  {
    forall r | KeyedErasing(d, r) ensures RemovalDone(d'.ops, r) {
      forall o | o in d.ops && IsOp(d.ops[o], r, Remove) ensures d'.ops[o].state.Applied? && IsOp(d'.ops[o], r, Remove) {
        assert PassedOp(d.rows, d.ops[o], d'.ops[o]);
      }
      var o :| o in d.ops && IsOp(d.ops[o], r, Remove);
      assert o in d'.ops && IsOp(d'.ops[o], r, Remove);
      forall p | p in d'.ops && IsOp(d'.ops[p], r, Remove) ensures !d'.ops[p].Open() {
        assert PassedOp(d.rows, d.ops[p], d'.ops[p]);
      }
    }
  }

  // The operations due that were not applied, as far as they concern an erasure.
  function ErrorsOf(rows: Rows, after: Ops, due: set<OpId>): set<OpId> {
    set o | o in due && o in after && !after[o].state.Applied? && after[o].rep in rows && rows[after[o].rep].state.Erasing?
  }

  lemma PassIsEnough(d: Db, dirs: Dirs, d': Db, dirs': Dirs)
    requires DbInv(d) && ErasuresQueued(d) && Passed(d, d')
    requires forall s {:trigger PendingIn(d.ops, s)} :: StaleIn(dirs', s) == if PendingIn(d.ops, s) then {} else StaleIn(dirs, s)
    ensures Removed(d, dirs, d', dirs') && ErrorsOf(d'.rows, d'.ops, PendingOps(d.ops)) == {}
  {
    PassRemoves(d, d');
    NoErrorIsOurs(d, d');
  }

  lemma NothingDue(d: Db, dirs: Dirs)
    requires DbInv(d) && ErasuresQueued(d)
    requires ErasingSpaces(d.rows) == {} || forall o :: o in d.ops ==> !d.ops[o].state.Pending?
    ensures Removed(d, dirs, d, dirs)
  {
    forall r | KeyedErasing(d, r)
      ensures RemovalDone(d.ops, r) && !PendingIn(d.ops, d.rows[r].space)
    {
      assert d.rows[r].space in ErasingSpaces(d.rows);
      PassRemoves(d, d);
    }
  }

  // An operation the pass could not apply is an ADD of an eligible representation, so not one of ours.
  lemma NoErrorIsOurs(d: Db, d': Db)
    requires DbInv(d) && Passed(d, d')
    ensures forall o :: o in d'.ops && d.ops[o].state.Pending? && !d'.ops[o].state.Applied? && d'.ops[o].rep in d'.rows
              ==> !d'.rows[d'.ops[o].rep].state.Erasing?
  {
    forall o | o in d'.ops && d.ops[o].state.Pending? && !d'.ops[o].state.Applied? && d'.ops[o].rep in d'.rows
      ensures !d'.rows[d'.ops[o].rep].state.Erasing?
    {
      assert PassedOp(d.rows, d.ops[o], d'.ops[o]);
    }
  }

  // A call of its own, from its summary to the cleared marker.
  lemma TruncationSteps(y: System)
    requires Inv(y) && y.db.marker.Some? && y.calls == map[]
    ensures Inv(y.(db := y.db.(marker := None), log := {}))
  {
    var ids := y.db.rows.Keys;
    var erased := set r | r in ids && r in y.db.rows && y.db.rows[r].state.Erased?;
    var y1 := y.(calls := y.calls[0 := Summarized(erased)]);
    CallKeepsInv(y, y1, Step.Summarize(0, ids));
    var y2 := y1.(calls := y1.calls[0 := Owed(erased, y.db.marker.value)]);
    CallKeepsInv(y1, y2, ReadMarker(0));
    CheckpointSteps(y2, erased);
    assert y.(db := y.db.(marker := None), log := {}) == y2.(db := y.db.(marker := None), log := {}, calls := map[]);
  }

  lemma CheckpointSteps(y: System, erased: set<RepId>)
    requires Inv(y) && y.db.marker.Some? && y.calls == map[0 := Owed(erased, y.db.marker.value)]
    ensures Inv(y.(db := y.db.(marker := None), log := {}, calls := map[]))
  {
    var y1 := y.(log := {}, calls := y.calls[0 := Checkpointed(erased, y.db.marker.value)]);
    CallKeepsInv(y, y1, Checkpoint(0));
    var y2 := y1.(db := y.db.(marker := None), calls := y1.calls[0 := Truncated(erased)]);
    CallKeepsInv(y1, y2, Step.ClearMarker(0));
    DropCalls(y2);
  }

  lemma DropCalls(y: System)
    requires Inv(y)
    ensures Inv(y.(calls := map[]))
  {}

  ghost predicate SummaryOf(rows: Rows, scope: Option<set<RepId>>, cleared: set<RepId>,
                            erased: set<RepId>, pending: set<RepId>, ignored: set<RepId>)
  {
    match scope
    case None => erased == cleared && ignored == {} && pending == Erasings(rows)
    case Some(ids) =>
      && erased + pending + ignored == ids
      && (forall r :: r in erased ==> r in rows && rows[r].state.Erased?)
      && (forall r :: r in pending ==> r in rows && rows[r].state.Erasing?)
      && (forall r :: r in ignored && r in rows ==> !rows[r].state.Erasing? && !rows[r].state.Erased?)
  }

  function Erasings(rows: Rows): set<RepId> { set r | r in rows && rows[r].state.Erasing? }

  // What a call without faults clears: everything ERASING but the keyed ones of a space where a
  // superseded file is left and no operation is PENDING, for only a pass deletes superseded files.
  ghost function Clearable(d: Db, dirs: Dirs): set<RepId> {
    set r | r in d.rows && d.rows[r].state.Erasing? && !WaitsFor(d, dirs, r)
  }

  ghost predicate WaitsFor(d: Db, dirs: Dirs, r: RepId) {
    KeyedErasing(d, r) && !PendingIn(d.ops, d.rows[r].space) && StaleIn(dirs, d.rows[r].space) != {}
  }

  ghost predicate Waits(d: Db, dirs: Dirs) { exists r :: WaitsFor(d, dirs, r) }

  function Uncleared(rows: Rows, cleared: set<RepId>): set<RepId> {
    set r | r in cleared && r in rows && (!rows[r].state.Erased? || rows[r].vector.Some? || rows[r].key.Some?)
  }

  ghost predicate Driven(d: Db, dirs: Dirs, rows: Rows, cleared: set<RepId>, blocked: set<SpaceId>) {
    && cleared == Clearable(d, dirs) && rows == ClearedRows(d.rows, cleared)
    && (blocked == {} <==> !Waits(d, dirs))
  }

  lemma CompleteUnless(d: Db, dirs: Dirs, rows: Rows, cleared: set<RepId>, blocked: set<SpaceId>,
                       scope: Option<set<RepId>>, erased: set<RepId>, pending: set<RepId>, ignored: set<RepId>)
    requires Driven(d, dirs, rows, cleared, blocked) && SummaryOf(rows, scope, cleared, erased, pending, ignored)
    ensures Uncleared(rows, cleared) == {}
    ensures blocked == {} && pending == {} <==> !Waits(d, dirs)
  {
    forall r | r in Erasings(rows) ensures WaitsFor(d, dirs, r) {}
    if blocked == {} {
      assert forall r :: r in pending ==> r in Erasings(rows);
    }
  }

  lemma AllFinalized(d: Db, dirs: Dirs, d1: Db, dirs1: Dirs, d2: Db)
    requires d1 == d.(ops := d1.ops) && Removed(d, dirs, d1, dirs1)
    requires MarkedErased(d1, d2, FinalizedIn(d1, dirs1, ErasingSpaces(d.rows)))
    ensures Driven(d, dirs, d2.rows, FinalizedIn(d1, dirs1, ErasingSpaces(d.rows)), BlockedIn(d1, dirs1, ErasingSpaces(d.rows)))
  {
    forall r | r in d.rows && d.rows[r].state.Erasing?
      ensures d.rows[r].space in ErasingSpaces(d.rows)
      ensures Clears(d1, dirs1, r) <==> !WaitsFor(d, dirs, r)
    {
      assert KeyedErasing(d, r) <==> d.rows[r].key.Some?;
    }
    if r :| WaitsFor(d, dirs, r) {
      assert r in RemovedIn(d1.rows, d1.ops, d.rows[r].space);
      assert d.rows[r].space in BlockedIn(d1, dirs1, ErasingSpaces(d.rows));
    }
    forall s | s in BlockedIn(d1, dirs1, ErasingSpaces(d.rows)) ensures Waits(d, dirs) {
      var r :| r in RemovedIn(d1.rows, d1.ops, s);
      assert KeyedErasing(d, r) && WaitsFor(d, dirs, r);
    }
  }

  // ----- queueing as a step, and what it leaves to do -----

  lemma QueueKeepsInv(y: System, y': System, ids: set<RepId>)
    requires Inv(y) && y'== y.(db := y'.db) && ErasureQueued(y.db, y'.db, ids, false)
    ensures Inv(y')
  {
    assert Committed(y.db, y'.db, QueueErasure(ids, false));
    LockStepKeepsInv(y, y', Other(QueueErasure(ids, false)));
  }

  lemma EverythingQueued(d: Db, d': Db, ids: set<RepId>)
    requires DbInv(d') && ErasureQueued(d, d', ids, false)
    ensures ErasuresQueued(d')
  {
    forall r | KeyedErasing(d', r) ensures HasOp(d'.ops, r, Remove) { RemoveIsThere(d, d', ids, r); }
    forall o | o in d'.ops && d'.ops[o].kind.Remove? && HasPending(d'.ops, d'.ops[o].rep, Remove)
      ensures !d'.ops[o].state.Failed?
    {
      var p :| p in d'.ops && IsOp(d'.ops[p], d'.ops[o].rep, Remove) && d'.ops[p].state.Pending?;
    }
  }

  lemma RemoveIsThere(d: Db, d': Db, ids: set<RepId>, r: RepId)
    requires ErasureQueued(d, d', ids, false) && KeyedErasing(d', r)
    ensures HasOp(d'.ops, r, Remove)
  {
    if NeedsRemove(d, r, ids, false) {
      assert HasPending(d'.ops, r, Remove);
    } else {
      var o :| o in d.ops && IsOp(d.ops[o], r, Remove);
      assert OldOpQueued(d, d'.ops, ids, false, o);
      assert o in d'.ops && IsOp(d'.ops[o], r, Remove);
    }
  }

  // The keyed representations an erasure cannot get past: a superseded file is left in the space, no
  // operation is PENDING there, and every removal that is under way there is already done.
  ghost predicate StuckFor(d: Db, dirs: Dirs, r: RepId) {
    && WaitsFor(d, dirs, r)
    && forall q {:trigger KeyedErasing(d, q)} :: KeyedErasing(d, q) && d.rows[q].space == d.rows[r].space ==> RemovalDone(d.ops, q)
  }

  ghost function StuckReps(d: Db, dirs: Dirs): set<RepId> { set r | r in d.rows && StuckFor(d, dirs, r) }

  lemma NothingMoves(d: Db, d': Db)
    requires ErasureQueued(d, d', {}, false)
    ensures d'.rows == d.rows
    ensures forall r :: NeedsRemove(d, r, {}, false) <==> KeyedErasing(d, r) && !HasOp(d.ops, r, Remove)
  {}

  lemma PendingAfterQueue(d: Db, d': Db, s: SpaceId)
    requires DbInv(d) && ErasureQueued(d, d', {}, false)
    ensures PendingIn(d'.ops, s) <==>
      PendingIn(d.ops, s) || exists q :: KeyedErasing(d, q) && d.rows[q].space == s && !RemovalDone(d.ops, q)
  {
    NothingMoves(d, d');
    if PendingIn(d'.ops, s) { PendingComesFrom(d, d', s); }
    if PendingIn(d.ops, s) { PendingStays(d, d', s); }
    if q :| KeyedErasing(d, q) && d.rows[q].space == s && !RemovalDone(d.ops, q) { UndoneIsPending(d, d', q); }
  }

  lemma PendingComesFrom(d: Db, d': Db, s: SpaceId)
    requires DbInv(d) && ErasureQueued(d, d', {}, false) && PendingIn(d'.ops, s)
    ensures PendingIn(d.ops, s) || exists q :: KeyedErasing(d, q) && d.rows[q].space == s && !RemovalDone(d.ops, q)
  {
    NothingMoves(d, d');
    var o :| o in d'.ops && d'.ops[o].state.Pending? && d'.ops[o].space == s;
    var r := d'.ops[o].rep;
    if d.nextOp <= o {
      assert NewOpQueued(d, d'.ops, {}, false, o);
      assert KeyedErasing(d, r) && !RemovalDone(d.ops, r);
    } else if d'.ops[o] != d.ops[o] {
      assert OldOpQueued(d, d'.ops, {}, false, o) && OpOk(d, o) && RowOk(d, r);
      assert IsOp(d.ops[o], r, Remove) && d.ops[o].Open();
      assert IsErasing(d.rows, r);
      assert KeyedErasing(d, r) && !RemovalDone(d.ops, r);
    }
  }

  lemma PendingStays(d: Db, d': Db, s: SpaceId)
    requires DbInv(d) && ErasureQueued(d, d', {}, false) && PendingIn(d.ops, s)
    ensures PendingIn(d'.ops, s)
  {
    NothingMoves(d, d');
    var o :| o in d.ops && d.ops[o].state.Pending? && d.ops[o].space == s;
    assert OldOpQueued(d, d'.ops, {}, false, o) && OpOk(d, o);
    if o in d'.ops {
      assert d'.ops[o] == d.ops[o];
    } else {
      assert NeedsRemove(d, d.ops[o].rep, {}, false);
      PendingInItsSpace(d, d', d.ops[o].rep);
    }
  }

  lemma PendingInItsSpace(d: Db, d': Db, r: RepId)
    requires DbInv(d) && ErasureQueued(d, d', {}, false) && KeyedErasing(d, r) && HasPending(d'.ops, r, Remove)
    ensures PendingIn(d'.ops, d.rows[r].space)
  {
    var o :| o in d'.ops && IsOp(d'.ops[o], r, Remove) && d'.ops[o].state.Pending?;
    if d.nextOp <= o { assert NewOpQueued(d, d'.ops, {}, false, o); } else { assert OldOpQueued(d, d'.ops, {}, false, o) && OpOk(d, o); }
  }

  lemma UndoneIsPending(d: Db, d': Db, q: RepId)
    requires DbInv(d) && ErasureQueued(d, d', {}, false) && KeyedErasing(d, q) && !RemovalDone(d.ops, q)
    ensures PendingIn(d'.ops, d.rows[q].space)
  {
    NothingMoves(d, d');
    if HasOp(d.ops, q, Remove) {
      var o :| o in d.ops && IsOp(d.ops[o], q, Remove) && d.ops[o].Open();
      assert OldOpQueued(d, d'.ops, {}, false, o);
      assert o in d'.ops && IsOp(d'.ops[o], q, Remove);
      if d'.ops[o].state.Pending? { assert HasPending(d'.ops, q, Remove); }
    }
    PendingInItsSpace(d, d', q);
  }

  lemma StuckStays(d: Db, d': Db, dirs: Dirs)
    requires DbInv(d) && ErasureQueued(d, d', {}, false)
    ensures d'.rows == d.rows && forall r :: WaitsFor(d', dirs, r) <==> r in StuckReps(d, dirs)
  {
    NothingMoves(d, d');
    forall r ensures WaitsFor(d', dirs, r) <==> StuckFor(d, dirs, r) {
      assert KeyedErasing(d', r) <==> KeyedErasing(d, r);
      if r in d.rows { PendingAfterQueue(d, d', d.rows[r].space); }
    }
  }

  lemma StuckDecides(d: Db, d': Db, dirs: Dirs)
    requires DbInv(d) && ErasureQueued(d, d', {}, false)
    ensures d'.rows == d.rows
    ensures Clearable(d', dirs) == Erasings(d.rows) - StuckReps(d, dirs)
    ensures Waits(d', dirs) <==> StuckReps(d, dirs) != {}
  {
    StuckStays(d, d', dirs);
    if r :| r in StuckReps(d, dirs) { assert WaitsFor(d', dirs, r); }
  }

  lemma RequestedAreClearable(d: Db, d': Db, dirs: Dirs, ids: set<RepId>)
    requires DbInv(d') && ErasureQueued(d, d', ids, false)
    ensures forall r :: r in ids && r in d.rows && Erasable(d.rows[r].state) ==> r in Clearable(d', dirs)
  {
    forall r | r in ids && r in d.rows && Erasable(d.rows[r].state) ensures r in Clearable(d', dirs) {
      if d.rows[r].key.Some? {
        assert NeedsRemove(d, r, ids, false);
        var o :| o in d'.ops && IsOp(d'.ops[o], r, Remove) && d'.ops[o].state.Pending?;
        assert OpOk(d', o);
        assert PendingIn(d'.ops, d'.rows[r].space);
      }
    }
  }

  lemma RequestedAreErased(d: Db, d1: Db, dirs: Dirs, ids: set<RepId>, d2: Db, log: set<RepId>,
                           erased: set<RepId>, pending: set<RepId>, ignored: set<RepId>)
    requires DbInv(d1) && ErasureQueued(d, d1, ids, false) && d2.rows == ClearedRows(d1.rows, Clearable(d1, dirs))
    requires d2.marker.None? ==> !LogHoldsErased(d2, log)
    requires SummaryOf(d2.rows, Some(ids), Clearable(d1, dirs), erased, pending, ignored)
    ensures forall r :: r in ids && r in d.rows && Erasable(d.rows[r].state) ==> r in erased && (d2.marker.None? ==> r !in log)
  {
    RequestedAreClearable(d, d1, dirs, ids);
    forall r | r in ids && r in Clearable(d1, dirs) ensures r in erased && (d2.marker.None? ==> r !in log) {
      assert IsErased(d2, r);
    }
  }
}
