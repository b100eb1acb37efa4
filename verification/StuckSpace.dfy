/** A run after which `resume` cannot finish: a crash during the rebuild of a damaged index leaves a
    file the manifest does not name, in a space where an erasure waits and nothing is PENDING. */
module StuckSpace {
  import opened Store
  import opened IndexQueue
  import opened Protocol
  import opened Safety
  import opened Erasure
  import opened Passes

  const WHOLE := Vector(true)
  const REMOVAL := Due(1, 0, 0, Remove)
  const APPLIED := Op(0, 0, Remove, OpState.Applied, 1, 0, 0)

  const EMPTY := Db(map[], map[], 0, map[], None, 0)
  const INSERTED := EMPTY.(rows := map[0 := Row(0, RepState.Pending, None, Some(WHOLE), true)])
  const ACTIVATED := Db(map[0 := Row(0, Active, Some(1), Some(WHOLE), true)], map[0 := Fresh(NewOp(0, 0, Add), 0)], 1, map[0 := 2], None, 0)
  const QUEUED := Db(map[0 := Row(0, Erasing, Some(1), Some(WHOLE), true)], map[1 := Fresh(NewOp(0, 0, Remove), 0)], 2, map[0 := 2], None, 0)
  const SETTLED := QUEUED.(ops := map[1 := APPLIED])

  const REBUILT := Protocol.Directory(Some(NOTHING), true, {}, {})
  const DAMAGED := REBUILT.(usable := false)
  const MOVED := Protocol.Directory(None, false, {}, {{}})
  const LEFTOVER := MOVED.(stale := {{}})

  function Sys(db: Db, dirs: Dirs, coord: Protocol.Coordinator): System { System(db, {}, dirs, coord, map[]) }

  // A state in the middle of a pass over the one space.
  function Mid(db: Db, dirs: Dirs, ops: seq<Due>, phase: Phase, synced: bool, purge: bool, done: set<OpId>): System {
    Sys(db, dirs, Pass([], Some(Work(0, ops, phase, NOTHING, synced, purge, done, {}))))
  }

  ghost predicate Reaches(ys: seq<System>, steps: seq<Step>, y: System) {
    IsRun(ys, steps) && ys[|steps|] == y
  }

  lemma Extend(ys: seq<System>, steps: seq<Step>, y: System, st: Step) returns (ys': seq<System>, steps': seq<Step>)
    requires IsRun(ys, steps) && Next(ys[|steps|], y, st)
    ensures Reaches(ys', steps', y)
  {
    ys', steps' := ys + [y], steps + [st];
    forall i {:trigger steps'[i]} | 0 <= i < |steps'| ensures Next(ys'[i], ys'[i + 1], steps'[i]) {
      if i < |steps| { assert steps[i] == steps'[i]; }
    }
  }

  // A representation is indexed and its erasure queued.
  lemma UntilQueued() returns (ys: seq<System>, steps: seq<Step>)
    ensures Reaches(ys, steps, Sys(QUEUED, map[], Idle))
  {
    ys, steps := [Sys(EMPTY, map[], Idle)], [];
    ys, steps := Extend(ys, steps, Sys(INSERTED, map[], Idle), Other(Insert(0, 0, WHOLE)));
    ys, steps := Extend(ys, steps, Sys(ACTIVATED, map[], Idle), Other(Activate(0, 0)));
    Queues();
    ys, steps := Extend(ys, steps, Sys(QUEUED, map[], Idle), Other(QueueErasure({0}, false)));
  }

  lemma Queues()
    ensures LockStep(Sys(ACTIVATED, map[], Idle), Sys(QUEUED, map[], Idle), Other(QueueErasure({0}, false)))
  {
    assert NeedsRemove(ACTIVATED, 0, {0}, false);
    assert OldOpQueued(ACTIVATED, QUEUED.ops, {0}, false, 0);
    assert NewOpQueued(ACTIVATED, QUEUED.ops, {0}, false, 1);
    assert 1 in QUEUED.ops && IsOp(QUEUED.ops[1], 0, Remove) && QUEUED.ops[1].state.Pending?;
    assert ErasureQueued(ACTIVATED, QUEUED, {0}, false);
  }

  // A pass claims the REMOVE and begins with the space.
  lemma UntilBegun() returns (ys: seq<System>, steps: seq<Step>)
    ensures Reaches(ys, steps, Mid(QUEUED, map[], [REMOVAL], Opening, false, false, {}))
  {
    ys, steps := UntilQueued();
    ys, steps := Extend(ys, steps, Sys(QUEUED, map[], Pass([REMOVAL], None)), Step.Claim([REMOVAL]));
    assert [REMOVAL][1..] == [] && InSpace([], 0) == [] && Elsewhere([], 0) == [];
    assert InSpace([REMOVAL], 0) == [REMOVAL] && Elsewhere([REMOVAL], 0) == [];
    ys, steps := Extend(ys, steps, Mid(QUEUED, map[], [REMOVAL], Opening, false, false, {}), Begin(0));
  }

  // It finds no index, so it builds one, and builds it again because of the erasure.
  lemma UntilRebuilt() returns (ys: seq<System>, steps: seq<Step>)
    ensures Reaches(ys, steps, Mid(QUEUED, map[0 := REBUILT], [REMOVAL], Applying(0), true, false, {}))
  {
    ys, steps := UntilBegun();
    ys, steps := Extend(ys, steps, Mid(QUEUED, map[], [REMOVAL], Rebuilding, false, false, {}), ReadEntries);
    ys, steps := Extend(ys, steps, Mid(QUEUED, map[0 := REBUILT], [REMOVAL], Applying(0), true, false, {}), Step.Persist);
  }

  lemma UntilWanted() returns (ys: seq<System>, steps: seq<Step>)
    ensures Reaches(ys, steps, Mid(QUEUED, map[0 := REBUILT], [REMOVAL], Applying(1), true, true, {}))
  {
    ys, steps := UntilRebuilt();
    ys, steps := Extend(ys, steps, Mid(QUEUED, map[0 := REBUILT], [REMOVAL], Applying(1), true, true, {}), Apply);
  }

  lemma UntilPurged() returns (ys: seq<System>, steps: seq<Step>)
    ensures Reaches(ys, steps, Mid(QUEUED, map[0 := REBUILT], [REMOVAL], Reapplying(0), true, true, {}))
  {
    ys, steps := UntilWanted();
    ys, steps := Extend(ys, steps, Mid(QUEUED, map[0 := REBUILT], [REMOVAL], Purging, false, true, {}), ReadEntries);
    ys, steps := Extend(ys, steps, Mid(QUEUED, map[0 := REBUILT], [REMOVAL], Reapplying(0), true, true, {}), Step.Persist);
  }

  lemma UntilApplied() returns (ys: seq<System>, steps: seq<Step>)
    ensures Reaches(ys, steps, Mid(QUEUED, map[0 := REBUILT], [REMOVAL], Reapplying(1), true, true, {1}))
  {
    ys, steps := UntilPurged();
    assert ApplyNext(QUEUED.rows, Work(0, [REMOVAL], Reapplying(0), NOTHING, true, true, {}, {})).done == {1};
    ys, steps := Extend(ys, steps, Mid(QUEUED, map[0 := REBUILT], [REMOVAL], Reapplying(1), true, true, {1}), Apply);
  }

  lemma SettlesRemoval()
    ensures Settled(QUEUED, SETTLED, Work(0, [REMOVAL], Settling, NOTHING, true, true, {1}, {}))
  {
    assert [REMOVAL][0].id in Ids([REMOVAL]);
  }

  lemma UntilRetired() returns (ys: seq<System>, steps: seq<Step>)
    ensures Reaches(ys, steps, Mid(QUEUED, map[0 := REBUILT], [REMOVAL], Settling, true, true, {1}))
  {
    ys, steps := UntilApplied();
    ys, steps := Extend(ys, steps, Mid(QUEUED, map[0 := REBUILT], [REMOVAL], Settling, true, true, {1}), RetireCheck);
  }

  lemma UntilSettled() returns (ys: seq<System>, steps: seq<Step>)
    ensures Reaches(ys, steps, Sys(SETTLED, map[0 := REBUILT], Idle))
  {
    ys, steps := UntilRetired();
    SettlesRemoval();
    ys, steps := Extend(ys, steps, Sys(SETTLED, map[0 := REBUILT], Pass([], None)), Step.Settle);
    ys, steps := Extend(ys, steps, Sys(SETTLED, map[0 := REBUILT], Idle), EndPass);
  }

  lemma UntilDamaged() returns (ys: seq<System>, steps: seq<Step>)
    ensures Reaches(ys, steps, Mid(SETTLED, map[0 := DAMAGED], [], Opening, false, false, {}))
  {
    ys, steps := UntilSettled();
    ys, steps := Extend(ys, steps, Sys(SETTLED, map[0 := DAMAGED], Idle), Damage(0));
    ys, steps := Extend(ys, steps, Mid(SETTLED, map[0 := DAMAGED], [], Opening, false, false, {}), Validate(0));
  }

  // The damaged generation goes to quarantine, and the space's entries are read for a new one.
  lemma UntilMoved() returns (ys: seq<System>, steps: seq<Step>)
    ensures Reaches(ys, steps, Mid(SETTLED, map[0 := MOVED], [], Rebuilding, false, false, {}))
  {
    ys, steps := UntilDamaged();
    assert Quarantined(DAMAGED, MOVED) && map[0 := DAMAGED][0 := MOVED] == map[0 := MOVED];
    ys, steps := Extend(ys, steps, Mid(SETTLED, map[0 := MOVED], [], Opening, false, false, {}), Quarantine);
    ys, steps := Extend(ys, steps, Mid(SETTLED, map[0 := MOVED], [], Rebuilding, false, false, {}), ReadEntries);
  }

  lemma LeftoverSticks()
    ensures StuckReps(SETTLED, map[0 := LEFTOVER]) == {0}
  {
    assert 1 in SETTLED.ops && IsOp(SETTLED.ops[1], 0, Remove) && SETTLED.ops[1].state.Applied?;
    assert RemovalDone(SETTLED.ops, 0);
    assert {} in LEFTOVER.stale;
    assert StuckFor(SETTLED, map[0 := LEFTOVER], 0);
  }

  // Before the finalization, the process dies between writing the rebuilt index and naming it in the
  // manifest; no file was ever locked. No `resume` gets past that file; only validating the space's
  // index does, as the next startup will if the space is ACTIVE.
  lemma ReachesStuck() returns (ys: seq<System>, steps: seq<Step>)
    ensures IsRun(ys, steps)
    ensures ys[|steps|].coord.Idle? && StuckReps(ys[|steps|].db, ys[|steps|].dirs) == {0}
  {
    ys, steps := UntilMoved();
    assert Torn(MOVED, NOTHING, false) == LEFTOVER && map[0 := MOVED][0 := LEFTOVER] == map[0 := LEFTOVER];
    ys, steps := Extend(ys, steps, Mid(SETTLED, map[0 := LEFTOVER], [], Rebuilding, false, false, {}), PersistTorn(false));
    ys, steps := Extend(ys, steps, Sys(SETTLED, map[0 := LEFTOVER], Idle), Crash);
    LeftoverSticks();
  }
}
