/** The invariant of the erasure protocol. */
module Invariant {
  import opened Store
  import opened Protocol
  import opened Evolution

  // A vector whose bytes may be in the space's files: one that still has its key.
  ghost predicate Stored(d: Db, s: SpaceId, r: RepId) {
    r in d.rows && d.rows[r].space == s && d.rows[r].key.Some? && !d.rows[r].state.Erased?
  }

  ghost predicate FileOk(d: Db, s: SpaceId, bytes: set<RepId>) { forall r :: r in bytes ==> Stored(d, s, r) }

  // The erasure of `r` counts its REMOVE as applied.
  ghost predicate CountedAsGone(d: Db, r: RepId)
    requires r in d.rows
  {
    d.rows[r].state.Erasing? && RemovalDone(d.ops, r)
  }

  ghost predicate GenSafe(d: Db, s: SpaceId, g: Generation) {
    && FileOk(d, s, g.bytes)
    && (forall k :: k in g.live ==> g.live[k] in g.bytes && d.rows[g.live[k]].key == Some(k))
    && (forall r {:trigger CountedAsGone(d, r)} :: r in g.bytes ==> !CountedAsGone(d, r))
  }

  // On one representation the index agrees with SQLite, or an open operation will see to it.
  ghost predicate AgreesOn(d: Db, g: Generation, r: RepId, settled: set<OpId>)
    requires r in d.rows && d.rows[r].key.Some?
  {
    var row := d.rows[r];
    && (row.Eligible() && row.key.value !in g.live ==> HasOpen(d.ops, r, Add, settled))
    && (!row.Eligible() && row.key.value in g.live ==> HasOpen(d.ops, r, Remove, settled))
  }

  ghost predicate Agrees(d: Db, s: SpaceId, g: Generation, settled: set<OpId>) {
    forall r {:trigger AgreesOn(d, g, r, settled)} ::
      r in d.rows && d.rows[r].space == s && d.rows[r].key.Some? ==> AgreesOn(d, g, r, settled)
  }

  ghost predicate DirInv(d: Db, s: SpaceId, dir: Directory) {
    && (forall f :: f in dir.stale ==> FileOk(d, s, f))
    && (forall f :: f in dir.quarantine ==> FileOk(d, s, f))
    && (dir.current.Some? ==> GenSafe(d, s, dir.current.value))
    && (dir.current.Some? && dir.usable ==> Agrees(d, s, dir.current.value, {}))
  }

  // ----- a pass -----

  ghost predicate DueOk(d: Db, s: SpaceId, op: Due) {
    && op.id < d.nextOp && Names(d, op) && op.space == s
    && op.rep in d.rows && d.rows[op.rep].space == s
    && (d.rows[op.rep].key.Some? || d.rows[op.rep].state.Erased?)
    && (op.kind.Remove? ==> !d.rows[op.rep].Eligible())
  }

  // The index in memory will be, or has been, persisted.
  ghost predicate Loaded(w: Work) { !w.phase.Opening? && !(w.phase.Settling? && w.done == {}) }

  ghost predicate ErasingIn(d: Db, s: SpaceId, r: RepId) {
    r in d.rows && d.rows[r].space == s && d.rows[r].state.Erasing?
  }

  // The REMOVE of an erasure is done only by an index built after it was queued.
  ghost predicate RemoveHeld(d: Db, w: Work, op: Due) {
    op.kind.Remove? && (op.id in w.done || w.phase.Purging? || w.phase.Reapplying?) && ErasingIn(d, w.space, op.rep)
    ==> op.id in d.ops && d.ops[op.id].Open() ==> op.rep !in w.mem.bytes
  }

  ghost predicate AddHeld(d: Db, w: Work, op: Due) {
    op.kind.Add? && op.id in w.done && op.rep in d.rows && d.rows[op.rep].Eligible() ==> d.rows[op.rep].Indexable()
  }

  ghost predicate WorkInv(d: Db, dir: Directory, w: Work) {
    && (forall i {:trigger DueOk(d, w.space, w.ops[i])} :: 0 <= i < |w.ops| ==> DueOk(d, w.space, w.ops[i]))
    && w.done <= Ids(w.ops) && (forall i, j :: 0 <= i < j < |w.ops| ==> w.ops[i].id != w.ops[j].id)
    && (w.phase.Applying? ==> w.phase.i <= |w.ops|)
    && (w.phase.Opening? || w.phase.Rebuilding? || w.phase.Purging? ==> w.done == {})
    && (w.phase.Settling? && w.done != {} ==> w.synced)
    && (Loaded(w) ==>
          && GenSafe(d, w.space, w.mem) && Agrees(d, w.space, w.mem, w.done)
          && (forall i {:trigger RemoveHeld(d, w, w.ops[i])} :: 0 <= i < |w.ops| ==> RemoveHeld(d, w, w.ops[i]))
          && (forall i {:trigger AddHeld(d, w, w.ops[i])} :: 0 <= i < |w.ops| ==> AddHeld(d, w, w.ops[i]))
          && (w.synced && dir.current.Some? ==> dir.current.value == w.mem))
  }

  ghost predicate TodoOk(d: Db, todo: seq<Due>) {
    && (forall i {:trigger todo[i]} :: 0 <= i < |todo| ==> DueOk(d, todo[i].space, todo[i]))
    && (forall i, j :: 0 <= i < j < |todo| ==> todo[i].id != todo[j].id)
  }

  // ----- the lock -----

  ghost predicate InNoFile(dir: Directory, r: RepId) {
    && (dir.current.Some? ==> r !in dir.current.value.bytes)
    && (forall f :: f in dir.stale ==> r !in f)
    && (forall f :: f in dir.quarantine ==> r !in f)
  }

  ghost predicate CoordInv(y: System) {
    match y.coord
    case Idle => true
    case Pass(todo, work) =>
      TodoOk(y.db, todo) && (work.Some? ==> WorkInv(y.db, Dir(y, work.value.space), work.value))
    case Listing(s, keyless, removed) =>
      && (forall r :: r in keyless ==> ErasingIn(y.db, s, r) && y.db.rows[r].key.None?)
      && (forall r :: r in removed ==> ErasingIn(y.db, s, r))
      && (Dir(y, s).current.Some? ==> removed !! Dir(y, s).current.value.bytes)
    case Clearing(s, ready) => forall r :: r in ready ==> ErasingIn(y.db, s, r) && InNoFile(Dir(y, s), r)
  }

  // ----- the log -----

  ghost predicate IsErased(d: Db, r: RepId) { r in d.rows && d.rows[r].state.Erased? }

  ghost predicate LogHoldsErased(d: Db, log: set<RepId>) { exists r :: r in log && IsErased(d, r) }

  ghost predicate CallOk(d: Db, log: set<RepId>, c: Call) {
    && (forall r :: r in c.erased ==> IsErased(d, r))
    && (c.Owed? || c.Checkpointed? ==> c.token < d.nextToken)
    && (c.Checkpointed? || c.Truncated? ==> c.erased !! log)
    && (c.Checkpointed? && d.marker == Some(c.token) ==> !LogHoldsErased(d, log))
  }

  ghost predicate LogInv(d: Db, log: set<RepId>, calls: map<nat, Call>) {
    && (LogHoldsErased(d, log) ==> d.marker.Some?)
    && (forall c {:trigger calls[c]} :: c in calls ==> CallOk(d, log, calls[c]))
  }

  ghost predicate DirsInv(d: Db, dirs: map<SpaceId, Directory>) {
    forall s {:trigger dirs[s]} :: s in dirs ==> DirInv(d, s, dirs[s])
  }

  ghost predicate Inv(y: System) {
    DbInv(y.db) && DirsInv(y.db, y.dirs) && CoordInv(y) && LogInv(y.db, y.log, y.calls)
  }

  // A new library: nothing recorded, nothing on disk, nothing in the log.
  ghost predicate Init(y: System) {
    y.db.rows == map[] && y.db.ops == map[] && y.db.nextKey == map[] && y.db.marker.None?
    && y.log == {} && y.dirs == map[] && y.coord.Idle? && y.calls == map[]
  }
}
