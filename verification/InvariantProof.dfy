/** Every step of the protocol keeps the invariant. */
module InvariantProof {
  import opened Store
  import opened Protocol
  import opened Evolution
  import opened Invariant

  // ----- commits of other callers -----

  lemma OpenSurvives(d: Db, d': Db, r: RepId, kind: Kind, settled: set<OpId>)
    requires Evolves(d, d') && OpenStays(d, d', r, kind) && HasOpen(d.ops, r, kind, settled)
    requires DbInv(d)
    ensures HasOpen(d'.ops, r, kind, settled)
  {
    var o :| o in d.ops && o !in settled && IsOp(d.ops[o], r, kind) && d.ops[o].Open();
    FreshId(d);
    assert OpEvolves(d, d', o);
    assert o in d'.ops && IsOp(d'.ops[o], r, kind);
  }

  lemma FreshIsOpen(d: Db, d': Db, r: RepId, kind: Kind, settled: set<OpId>)
    requires FreshOpen(d, d', r, kind) && (forall o :: o in settled ==> o < d.nextOp)
    ensures HasOpen(d'.ops, r, kind, settled)
  {}

  // Being queued leaves an erasure with an open REMOVE, and an open one stays.
  lemma ErasureStaysOpen(d: Db, d': Db, r: RepId)
    requires DbInv(d) && Evolves(d, d') && r in d.rows && d.rows[r].key.Some?
    requires r in d'.rows && d'.rows[r].state.Erasing?
    ensures !d.rows[r].state.Erasing? || HasOpen(d.ops, r, Remove, {}) ==> HasOpen(d'.ops, r, Remove, {})
  {
    assert RepEvolves(d, d', r);
    if !d.rows[r].state.Erasing? {
      FreshIsOpen(d, d', r, Remove, {});
    } else if HasOpen(d.ops, r, Remove, {}) {
      OpenSurvives(d, d', r, Remove, {});
    }
  }

  // Nothing but a settlement makes an erasure's REMOVE count.
  lemma CountedBefore(d: Db, d': Db, r: RepId)
    requires DbInv(d) && Evolves(d, d') && r in d.rows && d.rows[r].key.Some?
    ensures r in d'.rows && (CountedAsGone(d', r) ==> CountedAsGone(d, r))
  {
    assert RepEvolves(d, d', r);
    if CountedAsGone(d', r) {
      ErasureStaysOpen(d, d', r);
      var p :| p in d'.ops && IsOp(d'.ops[p], r, Remove) && d'.ops[p].state.Applied?;
      assert OpEvolves(d, d', p);
      assert p in d.ops && IsOp(d.ops[p], r, Remove);
    }
  }

  lemma FileEvolves(d: Db, d': Db, s: SpaceId, f: set<RepId>)
    requires Evolves(d, d') && FileOk(d, s, f)
    ensures FileOk(d', s, f)
  {
    forall r | r in f ensures Stored(d', s, r) { assert Stored(d, s, r) && RepEvolves(d, d', r); }
  }

  lemma GenSafeEvolves(d: Db, d': Db, s: SpaceId, g: Generation)
    requires DbInv(d) && Evolves(d, d') && GenSafe(d, s, g)
    ensures GenSafe(d', s, g)
  {
    FileEvolves(d, d', s, g.bytes);
    forall k | k in g.live ensures d'.rows[g.live[k]].key == Some(k) {
      assert Stored(d, s, g.live[k]) && RepEvolves(d, d', g.live[k]);
    }
    forall r | r in g.bytes ensures !CountedAsGone(d', r) {
      assert Stored(d, s, r);
      CountedBefore(d, d', r);
      assert !CountedAsGone(d, r);
    }
  }

  lemma NewKeyIsNotLive(d: Db, s: SpaceId, g: Generation, r: RepId, k: Key)
    requires DbInv(d) && GenSafe(d, s, g) && r !in g.bytes
    requires r in d.rows && d.rows[r].space == s && d.rows[r].key == Some(k)
    ensures k !in g.live
  {
    assert forall q :: q in g.bytes ==> Stored(d, s, q);
  }

  lemma AgreesOnEvolves(d: Db, d': Db, s: SpaceId, g: Generation, r: RepId, settled: set<OpId>)
    requires DbInv(d) && DbInv(d') && Evolves(d, d') && GenSafe(d, s, g) && GenSafe(d', s, g) && Agrees(d, s, g, settled)
    requires forall o :: o in settled ==> o < d.nextOp
    requires r in d'.rows && d'.rows[r].space == s && d'.rows[r].key.Some?
    ensures AgreesOn(d', g, r, settled)
  {
    assert r in d.rows && RepEvolves(d, d', r);
    var a, b := d.rows[r], d'.rows[r];
    if a.key.Some? {
      assert AgreesOn(d, g, r, settled);
    } else {
      NewKeyIsNotLive(d', s, g, r, b.key.value);
    }
    assert RowOk(d, r);
    if b.Eligible() && b.key.value !in g.live {
      if a.Eligible() { OpenSurvives(d, d', r, Add, settled); } else { FreshIsOpen(d, d', r, Add, settled); }
    }
    if !b.Eligible() && b.key.value in g.live {
      if FreshOpen(d, d', r, Remove) { FreshIsOpen(d, d', r, Remove, settled); } else { OpenSurvives(d, d', r, Remove, settled); }
    }
  }

  lemma AgreesEvolves(d: Db, d': Db, s: SpaceId, g: Generation, settled: set<OpId>)
    requires DbInv(d) && DbInv(d') && Evolves(d, d') && GenSafe(d, s, g) && Agrees(d, s, g, settled)
    requires forall o :: o in settled ==> o < d.nextOp
    ensures GenSafe(d', s, g) && Agrees(d', s, g, settled)
  {
    GenSafeEvolves(d, d', s, g);
    forall r | r in d'.rows && d'.rows[r].space == s && d'.rows[r].key.Some? ensures AgreesOn(d', g, r, settled) {
      AgreesOnEvolves(d, d', s, g, r, settled);
    }
  }

  lemma DirEvolves(d: Db, d': Db, s: SpaceId, dir: Directory)
    requires DbInv(d) && DbInv(d') && Evolves(d, d') && DirInv(d, s, dir)
    ensures DirInv(d', s, dir)
  {
    forall f | f in dir.stale || f in dir.quarantine ensures FileOk(d', s, f) { FileEvolves(d, d', s, f); }
    if dir.current.Some? {
      GenSafeEvolves(d, d', s, dir.current.value);
      if dir.usable { AgreesEvolves(d, d', s, dir.current.value, {}); }
    }
  }

  lemma DueEvolves(d: Db, d': Db, s: SpaceId, op: Due)
    requires DbInv(d) && Evolves(d, d') && DueOk(d, s, op)
    ensures DueOk(d', s, op)
  {
    assert RowOk(d, op.rep) && RepEvolves(d, d', op.rep);
    if op.id in d'.ops { assert OpEvolves(d, d', op.id); }
  }

  lemma HeldEvolves(d: Db, d': Db, w: Work, op: Due)
    requires DbInv(d) && Evolves(d, d') && DueOk(d, w.space, op) && DueOk(d', w.space, op)
    requires RemoveHeld(d, w, op) && AddHeld(d, w, op)
    ensures RemoveHeld(d', w, op) && AddHeld(d', w, op)
  {
    assert RowOk(d, op.rep) && RepEvolves(d, d', op.rep);
    if op.id in d'.ops { assert OpEvolves(d, d', op.id); }
  }

  lemma WorkEvolves(d: Db, d': Db, dir: Directory, w: Work)
    requires DbInv(d) && DbInv(d') && Evolves(d, d') && WorkInv(d, dir, w)
    ensures WorkInv(d', dir, w)
  {
    forall i | 0 <= i < |w.ops| ensures DueOk(d', w.space, w.ops[i]) {
      assert DueOk(d, w.space, w.ops[i]);
      DueEvolves(d, d', w.space, w.ops[i]);
    }
    if Loaded(w) {
      forall o | o in w.done ensures o < d.nextOp {
        var i :| 0 <= i < |w.ops| && w.ops[i].id == o;
        assert DueOk(d, w.space, w.ops[i]);
      }
      AgreesEvolves(d, d', w.space, w.mem, w.done);
      forall i | 0 <= i < |w.ops| ensures RemoveHeld(d', w, w.ops[i]) && AddHeld(d', w, w.ops[i]) {
        assert DueOk(d, w.space, w.ops[i]) && DueOk(d', w.space, w.ops[i]);
        assert RemoveHeld(d, w, w.ops[i]) && AddHeld(d, w, w.ops[i]);
        HeldEvolves(d, d', w, w.ops[i]);
      }
    }
  }

  lemma CoordEvolves(y: System, y': System)
    requires Inv(y) && DbInv(y'.db) && Evolves(y.db, y'.db) && y'.coord == y.coord && y'.dirs == y.dirs
    ensures CoordInv(y')
  {
    var d, d' := y.db, y'.db;
    match y.coord
    case Idle =>
    case Pass(todo, work) =>
      forall i | 0 <= i < |todo| ensures DueOk(d', todo[i].space, todo[i]) { DueEvolves(d, d', todo[i].space, todo[i]); }
      if work.Some? { WorkEvolves(d, d', Dir(y, work.value.space), work.value); }
    case Listing(s, keyless, removed) =>
      forall r | r in keyless || r in removed
        ensures ErasingIn(d', s, r) && (d.rows[r].key.None? ==> d'.rows[r].key.None?)
      {
        assert ErasingIn(d, s, r) && RepEvolves(d, d', r);
      }
    case Clearing(s, ready) =>
      forall r | r in ready ensures ErasingIn(d', s, r) { assert ErasingIn(d, s, r) && RepEvolves(d, d', r); }
  }

  // A commit that erases nothing.
  lemma LogEvolves(d: Db, d': Db, log: set<RepId>, log': set<RepId>, calls: map<nat, Call>)
    requires DbInv(d) && DbInv(d') && LogInv(d, log, calls) && log' <= log + Holders(d.rows) + Holders(d'.rows)
    requires forall r :: IsErased(d, r) <==> IsErased(d', r)
    requires MarkerEvolves(d, d')
    ensures LogInv(d', log', calls)
  {
    forall r | r in log' && IsErased(d', r) ensures r in log {
      assert RowOk(d, r) && RowOk(d', r);
    }
    forall c | c in calls ensures CallOk(d', log', calls[c]) {
      assert CallOk(d, log, calls[c]);
      forall r | r in calls[c].erased ensures IsErased(d', r) { assert IsErased(d, r); }
    }
  }

  lemma EvolvesErasesNothing(d: Db, d': Db)
    requires Evolves(d, d')
    ensures forall r :: IsErased(d, r) <==> IsErased(d', r)
  {
    forall r ensures IsErased(d, r) <==> IsErased(d', r) {
      if r in d.rows { assert RepEvolves(d, d', r); }
    }
  }

  lemma FilesEvolve(y: System, y': System)
    requires Inv(y) && DbInv(y'.db) && Evolves(y.db, y'.db) && y'.coord == y.coord && y'.dirs == y.dirs
    ensures DirsInv(y'.db, y'.dirs) && CoordInv(y')
  {
    forall s | s in y'.dirs ensures DirInv(y'.db, s, y'.dirs[s]) { DirEvolves(y.db, y'.db, s, y.dirs[s]); }
    CoordEvolves(y, y');
  }

  lemma EvolutionKeepsInv(y: System, y': System)
    requires Inv(y) && DbOnly(y, y') && DbInv(y'.db) && Evolves(y.db, y'.db) && MarkerEvolves(y.db, y'.db)
    ensures Inv(y')
  {
    FilesEvolve(y, y');
    EvolvesErasesNothing(y.db, y'.db);
    LogEvolves(y.db, y'.db, y.log, y'.log, y.calls);
  }

  // ----- what a pass does to files and the index in memory -----

  lemma DirStep(y: System, y': System, s: SpaceId)
    requires Inv(y) && y'.db == y.db && y'.log == y.log && y'.calls == y.calls
    requires y'.dirs == y.dirs || y'.dirs == y.dirs[s := Dir(y', s)]
    requires DirInv(y.db, s, Dir(y', s)) && CoordInv(y')
    ensures Inv(y')
  {
    forall q | q in y'.dirs ensures DirInv(y'.db, q, y'.dirs[q]) {
      if q != s || y'.dirs == y.dirs { assert DirInv(y.db, q, y.dirs[q]); }
    }
  }

  lemma DirIsOk(y: System, s: SpaceId)
    requires Inv(y)
    ensures DirInv(y.db, s, Dir(y, s))
  {
    if s in y.dirs { assert DirInv(y.db, s, y.dirs[s]); }
  }

  lemma OpenKeepsInv(y: System, y': System)
    requires Inv(y) && Working(y) && WorkStep(y, y', Open)
    ensures Inv(y')
  {
    var w, w' := y.coord.work.value, y'.coord.work.value;
    DirIsOk(y, w.space);
    var dir' := Dir(y', w.space);
    assert DirInv(y.db, w.space, dir');
    assert forall i :: 0 <= i < |w.ops| ==> DueOk(y.db, w.space, w.ops[i]);
    assert WorkInv(y.db, dir', w');
    DirStep(y, y', w.space);
  }

  lemma QuarantineKeepsInv(y: System, y': System)
    requires Inv(y) && Working(y) && WorkStep(y, y', Quarantine)
    ensures Inv(y')
  {
    var w := y.coord.work.value;
    DirIsOk(y, w.space);
    assert DirInv(y.db, w.space, Dir(y', w.space));
    assert WorkInv(y.db, Dir(y', w.space), w);
    DirStep(y, y', w.space);
  }

  // An index built from SQLite is safe, and disagrees only on a vector no index can hold.
  lemma BuiltIsSafe(d: Db, s: SpaceId, g: Generation)
    requires DbInv(d) && Built(d.rows, s, g)
    ensures GenSafe(d, s, g) && Agrees(d, s, g, {})
  {
    forall r | r in d.rows && d.rows[r].space == s && d.rows[r].key.Some? ensures AgreesOn(d, g, r, {}) {
      assert RowOk(d, r);
      var k := d.rows[r].key.value;
      if k in g.live { assert g.live[k] == r; }
      if r in g.bytes { assert k in g.live; }
    }
    forall r | r in g.bytes ensures Stored(d, s, r) {}
  }

  lemma ReadEntriesKeepsInv(y: System, y': System)
    requires Inv(y) && Working(y) && WorkStep(y, y', ReadEntries)
    ensures Inv(y')
  {
    var w, w' := y.coord.work.value, y'.coord.work.value;
    BuiltIsSafe(y.db, w.space, w'.mem);
    forall i | 0 <= i < |w.ops| ensures DueOk(y.db, w.space, w.ops[i]) && RemoveHeld(y.db, w', w.ops[i]) {
      assert DueOk(y.db, w.space, w.ops[i]);
    }
    DirIsOk(y, w.space);
    assert WorkInv(y.db, Dir(y', w.space), w');
    DirStep(y, y', w.space);
  }

  lemma AgreesWeakens(d: Db, s: SpaceId, g: Generation, settled: set<OpId>, fewer: set<OpId>)
    requires Agrees(d, s, g, settled) && fewer <= settled
    ensures Agrees(d, s, g, fewer)
  {
    forall r | r in d.rows && d.rows[r].space == s && d.rows[r].key.Some? ensures AgreesOn(d, g, r, fewer) {
      assert AgreesOn(d, g, r, settled);
    }
  }

  lemma PersistKeepsInv(y: System, y': System)
    requires Inv(y) && Working(y) && WorkStep(y, y', Persist)
    ensures Inv(y')
  {
    var w, w' := y.coord.work.value, y'.coord.work.value;
    DirIsOk(y, w.space);
    AgreesWeakens(y.db, w.space, w.mem, w.done, {});
    forall i | 0 <= i < |w.ops|
      ensures DueOk(y.db, w.space, w.ops[i]) && RemoveHeld(y.db, w', w.ops[i]) && AddHeld(y.db, w', w.ops[i])
    {
      assert DueOk(y.db, w.space, w.ops[i]);
      assert RemoveHeld(y.db, w, w.ops[i]) && AddHeld(y.db, w, w.ops[i]);
    }
    assert DirInv(y.db, w.space, Dir(y', w.space));
    assert WorkInv(y.db, Dir(y', w.space), w');
    DirStep(y, y', w.space);
  }

  lemma TornKeepsInv(y: System, y': System, staged: bool)
    requires Inv(y) && Working(y) && WorkStep(y, y', PersistTorn(staged))
    ensures Inv(y')
  {
    var w := y.coord.work.value;
    DirIsOk(y, w.space);
    assert DirInv(y.db, w.space, Dir(y', w.space));
    assert WorkInv(y.db, Dir(y', w.space), w);
    DirStep(y, y', w.space);
  }

  lemma FailedWork(d: Db, dir: Directory, w: Work)
    requires WorkInv(d, dir, w)
    ensures WorkInv(d, dir, AfterFailure(w))
  {
    forall i | 0 <= i < |w.ops| ensures DueOk(d, w.space, AfterFailure(w).ops[i]) { assert DueOk(d, w.space, w.ops[i]); }
  }

  lemma WorkOnlyKeepsInv(y: System, y': System, w': Work)
    requires Inv(y) && Working(y) && y' == WithWork(y, w') && w'.space == y.coord.work.value.space
    requires WorkInv(y.db, Dir(y, w'.space), w')
    ensures Inv(y')
  {
    DirIsOk(y, w'.space);
    DirStep(y, y', w'.space);
  }

  // Counting one more operation as done where the index says what it asked for.
  lemma AgreesStrengthens(d: Db, s: SpaceId, g: Generation, settled: set<OpId>, op: Due)
    requires Agrees(d, s, g, settled) && DueOk(d, s, op)
    requires d.rows[op.rep].key.Some? && d.ops.Keys >= {op.id} && d.ops[op.id].Open() ==>
      if op.kind.Add? then !d.rows[op.rep].Eligible() || d.rows[op.rep].key.value in g.live
      else d.rows[op.rep].key.value !in g.live
    ensures Agrees(d, s, g, settled + {op.id})
  {
    forall r | r in d.rows && d.rows[r].space == s && d.rows[r].key.Some?
      ensures AgreesOn(d, g, r, settled + {op.id})
    {
      assert AgreesOn(d, g, r, settled);
    }
  }

  lemma AddIsSafe(d: Db, s: SpaceId, g: Generation, settled: set<OpId>, r: RepId)
    requires DbInv(d) && GenSafe(d, s, g) && Agrees(d, s, g, settled)
    requires r in d.rows && d.rows[r].space == s && d.rows[r].Indexable()
    ensures var g' := Generation(g.live[d.rows[r].key.value := r], g.bytes + {r});
      GenSafe(d, s, g') && Agrees(d, s, g', settled)
  {
    var g' := Generation(g.live[d.rows[r].key.value := r], g.bytes + {r});
    forall q | q in d.rows && d.rows[q].space == s && d.rows[q].key.Some? ensures AgreesOn(d, g', q, settled) {
      assert AgreesOn(d, g, q, settled);
      assert RowOk(d, q);
    }
    forall q | q in g'.bytes ensures !CountedAsGone(d, q) { if q != r { assert !CountedAsGone(d, q); } }
  }

  lemma RemoveIsSafe(d: Db, s: SpaceId, g: Generation, settled: set<OpId>, r: RepId)
    requires DbInv(d) && GenSafe(d, s, g) && Agrees(d, s, g, settled)
    requires r in d.rows && d.rows[r].space == s && d.rows[r].key.Some? && !d.rows[r].Eligible()
    ensures var g' := g.(live := g.live - {d.rows[r].key.value});
      GenSafe(d, s, g') && Agrees(d, s, g', settled)
  {
    var g' := g.(live := g.live - {d.rows[r].key.value});
    forall q | q in d.rows && d.rows[q].space == s && d.rows[q].key.Some? ensures AgreesOn(d, g', q, settled) {
      assert AgreesOn(d, g, q, settled);
    }
    forall q | q in g'.bytes ensures !CountedAsGone(d, q) { assert !CountedAsGone(d, q); }
  }

  // A key no file of the space holds the vector of is not answered with.
  lemma NotHeldNotLive(d: Db, s: SpaceId, g: Generation, r: RepId)
    requires DbInv(d) && GenSafe(d, s, g) && r in d.rows && d.rows[r].space == s && d.rows[r].key.Some? && r !in g.bytes
    ensures d.rows[r].key.value !in g.live
  {
    NewKeyIsNotLive(d, s, g, r, d.rows[r].key.value);
  }

  lemma ChangedIndex(d: Db, dir: Directory, w: Work, op: Due, mem: Generation)
    requires DbInv(d) && WorkInv(d, dir, w) && DueOk(d, w.space, op) && Loaded(w)
    requires ApplyOne(d.rows, w.mem, op) == Changed(mem)
    ensures GenSafe(d, w.space, mem) && Agrees(d, w.space, mem, w.done + {op.id})
  {
    if op.kind.Add? { AddIsSafe(d, w.space, w.mem, w.done, op.rep); }
    else { RemoveIsSafe(d, w.space, w.mem, w.done, op.rep); }
    AgreesStrengthens(d, w.space, mem, w.done, op);
  }

  // A PURGE met again, in the index built without the representation.
  lemma PurgedIndex(d: Db, dir: Directory, w: Work, op: Due)
    requires DbInv(d) && WorkInv(d, dir, w) && DueOk(d, w.space, op) && Loaded(w)
    requires ApplyOne(d.rows, w.mem, op).Purge? && w.phase.Reapplying? && RemoveHeld(d, w, op)
    ensures Agrees(d, w.space, w.mem, w.done + {op.id})
  {
    if d.rows[op.rep].key.Some? && op.id in d.ops && d.ops[op.id].Open() {
      NotHeldNotLive(d, w.space, w.mem, op.rep);
    }
    AgreesStrengthens(d, w.space, w.mem, w.done, op);
  }

  lemma AppliedIndex(d: Db, dir: Directory, w: Work, op: Due, next: Phase, again: bool)
    requires DbInv(d) && WorkInv(d, dir, w) && DueOk(d, w.space, op) && Loaded(w)
    requires again ==> w.phase.Reapplying? && RemoveHeld(d, w, op)
    ensures var w' := AfterApply(d.rows, w, op, next, again);
      GenSafe(d, w.space, w'.mem) && Agrees(d, w.space, w'.mem, w'.done)
  {
    match ApplyOne(d.rows, w.mem, op)
    case Unchanged => AgreesStrengthens(d, w.space, w.mem, w.done, op);
    case Changed(mem) => ChangedIndex(d, dir, w, op, mem);
    case Purge => if again { PurgedIndex(d, dir, w, op); }
    case Error => if again { AgreesWeakens(d, w.space, w.mem, w.done, {}); }
  }

  lemma AppliedHeld(d: Db, dir: Directory, w: Work, op: Due, next: Phase, again: bool, other: Due)
    requires DbInv(d) && WorkInv(d, dir, w) && DueOk(d, w.space, op) && Loaded(w) && DueOk(d, w.space, other)
    requires again ==> w.phase.Reapplying? && next.Reapplying?
    requires !again ==> w.phase.Applying? && next.Applying?
    requires RemoveHeld(d, w, other) && AddHeld(d, w, other)
    requires other.id == op.id ==> other == op
    ensures var w' := AfterApply(d.rows, w, op, next, again); RemoveHeld(d, w', other) && AddHeld(d, w', other)
  {
    assert RowOk(d, op.rep);
  }

  // What applying one operation leaves as it was.
  lemma AppliedShape(d: Db, w: Work, i: nat, next: Phase, again: bool)
    requires i < |w.ops| && w.done <= Ids(w.ops) && (next.Applying? || next.Reapplying?)
    ensures var w' := AfterApply(d.rows, w, w.ops[i], next, again);
      && w'.space == w.space && w'.ops == w.ops && w'.done <= Ids(w.ops)
      && (w'.phase == next || (w'.phase.Settling? && w'.done == {}))
      && (w'.synced ==> w.synced && w'.mem == w.mem)
  {
    assert w.ops[i].id in Ids(w.ops);
  }

  lemma AppliedWork(d: Db, dir: Directory, w: Work, i: nat, again: bool)
    requires DbInv(d) && WorkInv(d, dir, w) && i < |w.ops|
    requires w.phase == if again then Reapplying(i) else Applying(i)
    ensures var w' := AfterApply(d.rows, w, w.ops[i], if again then Reapplying(i + 1) else Applying(i + 1), again);
      w'.space == w.space && WorkInv(d, dir, w')
  {
    var op := w.ops[i];
    var next := if again then Reapplying(i + 1) else Applying(i + 1);
    var w' := AfterApply(d.rows, w, op, next, again);
    AppliedShape(d, w, i, next, again);
    assert DueOk(d, w.space, op) && RemoveHeld(d, w, op);
    AppliedIndex(d, dir, w, op, next, again);
    forall j | 0 <= j < |w.ops| ensures DueOk(d, w.space, w.ops[j]) && RemoveHeld(d, w', w.ops[j]) && AddHeld(d, w', w.ops[j]) {
      AppliedHeldAt(d, dir, w, i, next, again, j);
    }
    ApplyGivesWork(d, dir, w, w', next);
  }

  lemma AppliedHeldAt(d: Db, dir: Directory, w: Work, i: nat, next: Phase, again: bool, j: nat)
    requires DbInv(d) && WorkInv(d, dir, w) && i < |w.ops| && j < |w.ops|
    requires if again then w.phase.Reapplying? && next.Reapplying? else w.phase.Applying? && next.Applying?
    ensures DueOk(d, w.space, w.ops[j])
    ensures var w' := AfterApply(d.rows, w, w.ops[i], next, again); RemoveHeld(d, w', w.ops[j]) && AddHeld(d, w', w.ops[j])
  {
    assert DueOk(d, w.space, w.ops[i]) && RemoveHeld(d, w, w.ops[i]);
    assert DueOk(d, w.space, w.ops[j]) && RemoveHeld(d, w, w.ops[j]) && AddHeld(d, w, w.ops[j]);
    AppliedHeld(d, dir, w, w.ops[i], next, again, w.ops[j]);
  }

  lemma ApplyGivesWork(d: Db, dir: Directory, w: Work, w': Work, next: Phase)
    requires WorkInv(d, dir, w) && Loaded(w) && (next.Reapplying? || (next.Applying? && next.i <= |w.ops|))
    requires w'.space == w.space && w'.ops == w.ops && w'.done <= Ids(w.ops)
    requires w'.phase == next || (w'.phase.Settling? && w'.done == {})
    requires w'.synced ==> w.synced && w'.mem == w.mem
    requires GenSafe(d, w.space, w'.mem) && Agrees(d, w.space, w'.mem, w'.done)
    requires forall j {:trigger w.ops[j]} :: 0 <= j < |w.ops| ==>
      DueOk(d, w.space, w.ops[j]) && RemoveHeld(d, w', w.ops[j]) && AddHeld(d, w', w.ops[j])
    ensures WorkInv(d, dir, w')
  {}

  // The work an apply step leaves, by where it stood.
  lemma NextIs(rows: Rows, w: Work)
    requires CanApply(w)
    ensures ApplyNext(rows, w) ==
      if w.phase.Applying? then AfterApply(rows, w, w.ops[w.phase.i], Applying(w.phase.i + 1), false)
      else if w.ops[w.phase.j].id in w.failed then w.(phase := Reapplying(w.phase.j + 1))
      else AfterApply(rows, w, w.ops[w.phase.j], Reapplying(w.phase.j + 1), true)
  {}

  lemma NextApplied(d: Db, dir: Directory, w: Work, w': Work)
    requires DbInv(d) && WorkInv(d, dir, w) && CanApply(w) && w' == ApplyNext(d.rows, w)
    ensures w'.space == w.space && WorkInv(d, dir, w')
  {
    NextIs(d.rows, w);
    if w.phase.Applying? { AppliedWork(d, dir, w, w.phase.i, false); }
    else if w.ops[w.phase.j].id in w.failed { MovedOn(d, dir, w, w'); }
    else { AppliedWork(d, dir, w, w.phase.j, true); }
  }

  lemma ApplyKeepsInv(y: System, y': System)
    requires Inv(y) && Working(y) && WorkStep(y, y', Apply)
    ensures Inv(y')
  {
    var w := y.coord.work.value;
    NextApplied(y.db, Dir(y, w.space), w, ApplyNext(y.db.rows, w));
    WorkOnlyKeepsInv(y, y', ApplyNext(y.db.rows, w));
  }

  lemma OutcomeKeepsInv(y: System, y': System, st: Step)
    requires Inv(y) && Working(y) && WorkStep(y, y', st) && (st.ApplyError? || st.Fail? || st.RetireCheck?)
    ensures Inv(y')
  {
    var w, w' := y.coord.work.value, y'.coord.work.value;
    var dir := Dir(y, w.space);
    match st
    case Fail => FailedWork(y.db, dir, w); WorkOnlyKeepsInv(y, y', w');
    case RetireCheck => RetiredWork(y.db, dir, w); WorkOnlyKeepsInv(y, y', w');
    case ApplyError => MovedOn(y.db, dir, w, w'); WorkOnlyKeepsInv(y, y', w');
  }

  // An operation that is only passed over.
  lemma MovedOn(d: Db, dir: Directory, w: Work, w': Work)
    requires WorkInv(d, dir, w) && w' == w.(phase := w'.phase, failed := w'.failed)
    requires (w.phase.Applying? && w'.phase.Applying? && w'.phase.i <= |w.ops|) || (w.phase.Reapplying? && w'.phase.Reapplying?)
    ensures WorkInv(d, dir, w')
  {
    forall i | 0 <= i < |w.ops| ensures DueOk(d, w.space, w'.ops[i]) && RemoveHeld(d, w', w'.ops[i]) && AddHeld(d, w', w'.ops[i]) {
      assert DueOk(d, w.space, w.ops[i]) && RemoveHeld(d, w, w.ops[i]) && AddHeld(d, w, w.ops[i]);
    }
  }

  lemma RetiredWork(d: Db, dir: Directory, w: Work)
    requires WorkInv(d, dir, w) && w.synced && (w.phase.Applying? || w.phase.Reapplying?)
    ensures WorkInv(d, dir, AfterRetireCheck(dir, w))
  {
    var w' := AfterRetireCheck(dir, w);
    AgreesWeakens(d, w.space, w.mem, w.done, w'.done);
    forall i | 0 <= i < |w.ops| ensures DueOk(d, w.space, w'.ops[i]) && RemoveHeld(d, w', w'.ops[i]) && AddHeld(d, w', w'.ops[i]) {
      assert DueOk(d, w.space, w.ops[i]) && RemoveHeld(d, w, w.ops[i]) && AddHeld(d, w, w.ops[i]);
    }
  }

  // ----- settling -----

  // A settled operation is one the work names.
  lemma SettledIsNamed(d: Db, d': Db, dir: Directory, w: Work, o: OpId)
    requires WorkInv(d, dir, w) && Settled(d, d', w) && o in d.ops
    ensures o in Ids(w.ops) ==> exists i :: 0 <= i < |w.ops| && w.ops[i].id == o && DueOk(d, w.space, w.ops[i])
    ensures d'.ops[o].rep == d.ops[o].rep && d'.ops[o].kind == d.ops[o].kind && d'.ops[o].space == d.ops[o].space
    ensures d.ops[o].state.Applied? ==> d'.ops[o].state.Applied?
    ensures d.ops[o].Open() && o !in w.done ==> d'.ops[o].Open()
    ensures d.ops[o].Open() && !d'.ops[o].Open() ==> o in w.done
    ensures !d.ops[o].Open() ==> !d'.ops[o].Open()
  {
    if o in Ids(w.ops) {
      var i :| 0 <= i < |w.ops| && w.ops[i].id == o;
      assert DueOk(d, w.space, w.ops[i]);
    }
  }

  lemma SettledStaysOpen(d: Db, d': Db, dir: Directory, w: Work, r: RepId, kind: Kind)
    requires WorkInv(d, dir, w) && Settled(d, d', w) && HasOpen(d.ops, r, kind, w.done)
    ensures HasOpen(d'.ops, r, kind, {})
  {
    var o :| o in d.ops && o !in w.done && IsOp(d.ops[o], r, kind) && d.ops[o].Open();
    SettledIsNamed(d, d', dir, w, o);
    assert IsOp(d'.ops[o], r, kind);
  }

  lemma SettledElsewhere(d: Db, d': Db, dir: Directory, w: Work, r: RepId, kind: Kind)
    requires DbInv(d) && WorkInv(d, dir, w) && Settled(d, d', w) && r in d.rows && HasOpen(d.ops, r, kind, {})
    requires w.done == {} || d.rows[r].space != w.space
    ensures HasOpen(d'.ops, r, kind, {})
  {
    var o :| o in d.ops && IsOp(d.ops[o], r, kind) && d.ops[o].Open();
    SettledIsNamed(d, d', dir, w, o);
    assert OpOk(d, o);
    assert forall i :: 0 <= i < |w.ops| ==> DueOk(d, w.space, w.ops[i]);
    assert o !in w.done;
    assert IsOp(d'.ops[o], r, kind);
  }

  lemma SettledAddOpen(d: Db, d': Db, dir: Directory, w: Work, r: RepId)
    requires DbInv(d) && WorkInv(d, dir, w) && w.phase.Settling? && Settled(d, d', w)
    requires r in d.rows && d.rows[r].Eligible() && !d.rows[r].Indexable()
    ensures HasOpen(d'.ops, r, Add, {})
  {
    assert RowOk(d, r);
    var o :| o in d.ops && IsOp(d.ops[o], r, Add) && d.ops[o].Open();
    SettledIsNamed(d, d', dir, w, o);
    assert o in w.done ==> Loaded(w);
    forall i | 0 <= i < |w.ops| && w.ops[i].id == o ensures o !in w.done {
      assert DueOk(d, w.space, w.ops[i]);
      assert Loaded(w) ==> AddHeld(d, w, w.ops[i]);
    }
    assert IsOp(d'.ops[o], r, Add);
  }

  lemma SettleKeepsDb(d: Db, d': Db, dir: Directory, w: Work)
    requires DbInv(d) && WorkInv(d, dir, w) && w.phase.Settling? && Settled(d, d', w)
    ensures DbInv(d')
  {
    forall o | o in d'.ops ensures OpOk(d', o) { assert OpOk(d, o); SettledIsNamed(d, d', dir, w, o); }
    forall r | r in d'.rows ensures RowOk(d', r) {
      assert RowOk(d, r);
      if HasOp(d'.ops, r, Remove) {
        var o :| o in d'.ops && IsOp(d'.ops[o], r, Remove);
        SettledIsNamed(d, d', dir, w, o);
        assert IsOp(d.ops[o], r, Remove);
      }
      if d.rows[r].Eligible() && !d.rows[r].Indexable() { SettledAddOpen(d, d', dir, w, r); }
    }
    forall a, b | a in d'.ops && b in d'.ops && d'.ops[a].rep == d'.ops[b].rep && d'.ops[a].kind == d'.ops[b].kind
      && (d'.ops[a].kind.Add? || (d'.ops[a].Open() && d'.ops[b].Open()))
      ensures a == b
    {
      SettledIsNamed(d, d', dir, w, a);
      SettledIsNamed(d, d', dir, w, b);
    }
  }

  // The heart of erasure safety: a settlement counts an erasure's REMOVE only if the index the pass
  // persisted was built without the vector; an older REMOVE, settled late, is no longer there.
  lemma SettleCountsOnlyPurged(d: Db, d': Db, dir: Directory, w: Work, r: RepId)
    requires DbInv(d) && WorkInv(d, dir, w) && w.phase.Settling? && Settled(d, d', w) && Stored(d, w.space, r)
    requires CountedAsGone(d', r) && !CountedAsGone(d, r)
    ensures Loaded(w) && r !in w.mem.bytes
  {
    if HasOpen(d.ops, r, Remove, {}) {
      var o :| o in d.ops && IsOp(d.ops[o], r, Remove) && d.ops[o].Open();
      SettledIsNamed(d, d', dir, w, o);
      assert IsOp(d'.ops[o], r, Remove);
      var i :| 0 <= i < |w.ops| && w.ops[i].id == o && DueOk(d, w.space, w.ops[i]);
      assert RemoveHeld(d, w, w.ops[i]);
    } else {
      var p :| p in d'.ops && IsOp(d'.ops[p], r, Remove) && d'.ops[p].state.Applied?;
      SettledIsNamed(d, d', dir, w, p);
      assert IsOp(d.ops[p], r, Remove);
      assert false;
    }
  }

  lemma CountedElsewhere(d: Db, d': Db, dir: Directory, w: Work, r: RepId)
    requires DbInv(d) && WorkInv(d, dir, w) && Settled(d, d', w) && r in d.rows && CountedAsGone(d', r)
    requires d.rows[r].space != w.space
    ensures CountedAsGone(d, r)
  {
    if HasOpen(d.ops, r, Remove, {}) { SettledElsewhere(d, d', dir, w, r, Remove); }
    var p :| p in d'.ops && IsOp(d'.ops[p], r, Remove) && d'.ops[p].state.Applied?;
    SettledIsNamed(d, d', dir, w, p);
    assert IsOp(d.ops[p], r, Remove);
  }

  lemma SettleKeepsGen(d: Db, d': Db, dir: Directory, w: Work, s: SpaceId, q: Directory)
    requires DbInv(d) && WorkInv(d, dir, w) && w.phase.Settling? && Settled(d, d', w) && DirInv(d, s, q)
    requires q.current.Some? && (s == w.space ==> q == dir)
    ensures GenSafe(d', s, q.current.value)
  {
    var g := q.current.value;
    forall r | r in g.bytes ensures Stored(d', s, r) && !CountedAsGone(d', r) {
      assert Stored(d, s, r) && !CountedAsGone(d, r);
      if CountedAsGone(d', r) {
        if s == w.space { SettleCountsOnlyPurged(d, d', dir, w, r); } else { CountedElsewhere(d, d', dir, w, r); }
      }
    }
  }

  lemma SettleKeepsAgreement(d: Db, d': Db, dir: Directory, w: Work, s: SpaceId, q: Directory)
    requires DbInv(d) && WorkInv(d, dir, w) && w.phase.Settling? && Settled(d, d', w) && DirInv(d, s, q)
    requires q.current.Some? && q.usable && (s == w.space ==> q == dir)
    ensures Agrees(d', s, q.current.value, {})
  {
    var g := q.current.value;
    forall r | r in d'.rows && d'.rows[r].space == s && d'.rows[r].key.Some? ensures AgreesOn(d', g, r, {}) {
      var row, k := d.rows[r], d.rows[r].key.value;
      assert AgreesOn(d, g, r, {});
      var kind := if row.Eligible() then Add else Remove;
      if row.Eligible() != (k in g.live) {
        if s == w.space && w.done != {} {
          assert AgreesOn(d, w.mem, r, w.done);
          SettledStaysOpen(d, d', dir, w, r, kind);
        } else {
          SettledElsewhere(d, d', dir, w, r, kind);
        }
      }
    }
  }

  lemma SettleKeepsInv(y: System, y': System)
    requires Inv(y) && Working(y) && WorkStep(y, y', Settle)
    ensures Inv(y')
  {
    var d, d', w := y.db, y'.db, y.coord.work.value;
    var dir := Dir(y, w.space);
    SettleKeepsDb(d, d', dir, w);
    forall s | s in y'.dirs ensures DirInv(d', s, y'.dirs[s]) {
      var q := y.dirs[s];
      assert DirInv(d, s, q);
      if q.current.Some? {
        SettleKeepsGen(d, d', dir, w, s, q);
        if q.usable { SettleKeepsAgreement(d, d', dir, w, s, q); }
      }
      forall f | f in q.stale || f in q.quarantine ensures FileOk(d', s, f) {
        assert FileOk(d, s, f);
        forall r | r in f ensures Stored(d', s, r) { assert Stored(d, s, r); }
      }
    }
    forall i | 0 <= i < |y.coord.todo| ensures DueOk(d', y.coord.todo[i].space, y.coord.todo[i]) {
      var op := y.coord.todo[i];
      assert DueOk(d, op.space, op);
      if op.id in d.ops { SettledIsNamed(d, d', dir, w, op.id); }
    }
    LogEvolves(d, d', y.log, y'.log, y.calls);
  }

  // ----- the lock, finalization, the log -----

  lemma SplitTodo(d: Db, todo: seq<Due>, s: SpaceId)
    requires TodoOk(d, todo)
    ensures TodoOk(d, InSpace(todo, s)) && TodoOk(d, Elsewhere(todo, s))
    ensures forall i {:trigger InSpace(todo, s)[i]} :: 0 <= i < |InSpace(todo, s)| ==> InSpace(todo, s)[i].space == s
    ensures Ids(InSpace(todo, s)) <= Ids(todo) && Ids(Elsewhere(todo, s)) <= Ids(todo)
  {
    if todo != [] {
      var rest := todo[1..];
      assert TodoOk(d, rest) by { assert forall i {:trigger rest[i]} :: 0 <= i < |rest| ==> rest[i] == todo[i + 1]; }
      SplitTodo(d, rest, s);
      assert Ids(rest) <= Ids(todo) && todo[0].id in Ids(todo) && todo[0].id !in Ids(rest);
      assert DueOk(d, todo[0].space, todo[0]);
    }
  }

  lemma LockKeepsInv(y: System, y': System, st: Step)
    requires Inv(y) && LockStep(y, y', st)
    requires st.Claim? || st.Begin? || st.Validate? || st.EndPass?
    ensures Inv(y')
  {
    match st
    case Claim(ops) =>
      forall i | 0 <= i < |ops| ensures DueOk(y.db, ops[i].space, ops[i]) {
        assert OpOk(y.db, ops[i].id) && RowOk(y.db, ops[i].rep);
        assert IsOp(y.db.ops[ops[i].id], ops[i].rep, ops[i].kind);
      }
    case Begin(s) =>
      SplitTodo(y.db, y.coord.todo, s);
      var w := y'.coord.work.value;
      forall i | 0 <= i < |w.ops| ensures DueOk(y.db, s, w.ops[i]) { assert InSpace(y.coord.todo, s)[i].space == s; }
    case Validate(s) =>
    case EndPass =>
  }

  lemma ListKeepsInv(y: System, y': System, s: SpaceId)
    requires Inv(y) && LockStep(y, y', ListSpace(s))
    ensures Inv(y')
  {
    DirIsOk(y, s);
    if Dir(y, s).current.Some? {
      forall r | r in y'.coord.removed ensures r !in Dir(y, s).current.value.bytes { assert CountedAsGone(y.db, r); }
    }
  }

  lemma CheckKeepsInv(y: System, y': System)
    requires Inv(y) && LockStep(y, y', CheckFiles)
    ensures Inv(y')
  {
    var s := y.coord.space;
    DirIsOk(y, s);
    assert DirInv(y.db, s, Dir(y', s));
    forall r | r in y'.coord.ready ensures ErasingIn(y.db, s, r) && InNoFile(Dir(y', s), r) {
      if r in y.coord.keyless {
        assert forall f :: f in Dir(y', s).stale || f in Dir(y', s).quarantine ==> FileOk(y.db, s, f);
        assert !Stored(y.db, s, r);
      }
    }
    DirStep(y, y', s);
  }

  lemma ClearKeepsDb(d: Db, ready: set<RepId>)
    requires DbInv(d)
    ensures DbInv(Cleared(d, ready))
  {
    var d' := Cleared(d, ready);
    forall r | r in d'.rows ensures RowOk(d', r) { assert RowOk(d, r); }
    forall o | o in d'.ops ensures OpOk(d', o) { assert OpOk(d, o); }
  }

  lemma ClearKeepsDir(d: Db, ready: set<RepId>, t: SpaceId, s: SpaceId, dir: Directory)
    requires DbInv(d) && DirInv(d, s, dir)
    requires forall r :: r in ready ==> ErasingIn(d, t, r)
    requires s == t ==> forall r :: r in ready ==> InNoFile(dir, r)
    ensures DirInv(Cleared(d, ready), s, dir)
  {
    var d' := Cleared(d, ready);
    forall f | f in dir.stale || f in dir.quarantine ensures FileOk(d', s, f) {
      forall r | r in f ensures Stored(d', s, r) { assert Stored(d, s, r); }
    }
    if dir.current.Some? {
      var g := dir.current.value;
      forall r | r in g.bytes ensures Stored(d', s, r) && !CountedAsGone(d', r) {
        assert Stored(d, s, r) && !CountedAsGone(d, r);
      }
      if dir.usable {
        forall r | r in d'.rows && d'.rows[r].space == s && d'.rows[r].key.Some? ensures AgreesOn(d', g, r, {}) {
          assert AgreesOn(d, g, r, {});
        }
      }
    }
  }

  lemma ClearKeepsInv(y: System, y': System)
    requires Inv(y) && LockStep(y, y', Clear)
    ensures Inv(y')
  {
    var d, d', ready := y.db, y'.db, y.coord.ready;
    ClearKeepsDb(d, ready);
    forall s | s in y'.dirs ensures DirInv(d', s, y'.dirs[s]) {
      assert DirInv(d, s, y.dirs[s]);
      ClearKeepsDir(d, ready, y.coord.space, s, y.dirs[s]);
    }
    forall c | c in y'.calls ensures CallOk(d', y'.log, y'.calls[c]) {
      var e := y.calls[c].erased;
      assert CallOk(d, y.log, y.calls[c]);
      forall r | r in e ensures IsErased(d', r) && r !in Holders(d.rows) && r !in Holders(d'.rows) {
        assert IsErased(d, r) && RowOk(d, r);
      }
    }
  }

  lemma FaultKeepsInv(y: System, y': System, st: Step)
    requires Inv(y) && LockStep(y, y', st) && (st.Damage? || st.LoseManifest?)
    ensures Inv(y')
  {
    var s := if st.Damage? then st.s else st.s;
    DirIsOk(y, s);
    assert DirInv(y.db, s, Dir(y', s));
    match y.coord {
      case Pass(todo, work) => if work.Some? { DamagedWork(y.db, Dir(y, work.value.space), Dir(y', work.value.space), work.value); }
      case _ =>
    }
    DirStep(y, y', s);
  }

  lemma DamagedWork(d: Db, dir: Directory, dir': Directory, w: Work)
    requires WorkInv(d, dir, w) && (dir'.current == dir.current || dir'.current.None?)
    ensures WorkInv(d, dir', w)
  {}

  lemma CallKeepsInv(y: System, y': System, st: Step)
    requires Inv(y) && CallStep(y, y', st)
    ensures Inv(y')
  {
    StillEvolves(y.db, y'.db);
    FilesEvolve(y, y');
    CallKeepsLog(y, y', st);
  }

  lemma CallKeepsLog(y: System, y': System, st: Step)
    requires Inv(y) && CallStep(y, y', st)
    ensures LogInv(y'.db, y'.log, y'.calls)
  {
    forall r | r in Holders(y.db.rows) ensures !IsErased(y.db, r) { if r in y.db.rows { assert RowOk(y.db, r); } }
    forall c | c in y'.calls ensures CallOk(y'.db, y'.log, y'.calls[c]) {
      if c in y.calls {
        assert CallOk(y.db, y.log, y.calls[c]);
        assert forall r :: r in y.calls[c].erased ==> IsErased(y.db, r);
      }
    }
  }

  // ----- every step -----

  lemma ReleaseKeepsInv(y: System, y': System, st: Step)
    requires Inv(y) && LockStep(y, y', st) && (st.Unlock? || st.Abort? || st.Crash?)
    ensures Inv(y')
  {}

  lemma FinalizingKeepsInv(y: System, y': System, st: Step)
    requires Inv(y) && LockStep(y, y', st) && (st.ListSpace? || st.CheckFiles? || st.Clear?)
    ensures Inv(y')
  {
    if st.ListSpace? { ListKeepsInv(y, y', st.s); }
    else if st.CheckFiles? { CheckKeepsInv(y, y'); }
    else { ClearKeepsInv(y, y'); }
  }

  lemma OtherKeepsInv(y: System, y': System, c: Commit)
    requires Inv(y) && LockStep(y, y', Other(c))
    ensures Inv(y')
  {
    CommitEvolves(y.db, y'.db, c);
    EvolutionKeepsInv(y, y');
  }

  lemma LockStepKeepsInv(y: System, y': System, st: Step)
    requires Inv(y) && LockStep(y, y', st)
    ensures Inv(y')
  {
    if st.Other? { OtherKeepsInv(y, y', st.commit); }
    else if st.ListSpace? || st.CheckFiles? || st.Clear? { FinalizingKeepsInv(y, y', st); }
    else if st.Unlock? || st.Abort? || st.Crash? { ReleaseKeepsInv(y, y', st); }
    else if st.Damage? || st.LoseManifest? { FaultKeepsInv(y, y', st); }
    else { LockKeepsInv(y, y', st); }
  }

  lemma FileStepKeepsInv(y: System, y': System, st: Step)
    requires Inv(y) && Working(y) && WorkStep(y, y', st)
    requires st.Open? || st.Quarantine? || st.Persist? || st.PersistTorn?
    ensures Inv(y')
  {
    if st.Open? { OpenKeepsInv(y, y'); }
    else if st.Quarantine? { QuarantineKeepsInv(y, y'); }
    else if st.Persist? { PersistKeepsInv(y, y'); }
    else { TornKeepsInv(y, y', st.staged); }
  }

  lemma WorkStepKeepsInv(y: System, y': System, st: Step)
    requires Inv(y) && Working(y) && WorkStep(y, y', st)
    ensures Inv(y')
  {
    if st.Open? || st.Quarantine? || st.Persist? || st.PersistTorn? { FileStepKeepsInv(y, y', st); }
    else if st.ReadEntries? { ReadEntriesKeepsInv(y, y'); }
    else if st.Apply? { ApplyKeepsInv(y, y'); }
    else if st.Settle? { SettleKeepsInv(y, y'); }
    else { OutcomeKeepsInv(y, y', st); }
  }

  lemma StepKeepsInv(y: System, y': System, st: Step)
    requires Inv(y) && Next(y, y', st)
    ensures Inv(y')
  {
    if CallStep(y, y', st) {
      CallKeepsInv(y, y', st);
    } else if LockStep(y, y', st) {
      LockStepKeepsInv(y, y', st);
    } else {
      WorkStepKeepsInv(y, y', st);
    }
  }
}
