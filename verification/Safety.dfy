/** The promises of the protocol over whole runs: any interleaving of commits, passes, finalizations
    and truncations, with files damaged or locked and the process crashing at any point. */
module Safety {
  import opened Store
  import opened Protocol
  import opened Evolution
  import opened Invariant
  import opened InvariantProof

  ghost predicate IsTrace(ys: seq<System>, steps: seq<Step>) {
    && |ys| == |steps| + 1
    && forall i {:trigger steps[i]} :: 0 <= i < |steps| ==> Next(ys[i], ys[i + 1], steps[i])
  }

  ghost predicate IsRun(ys: seq<System>, steps: seq<Step>) { IsTrace(ys, steps) && Init(ys[0]) }

  lemma {:induction false} RunKeepsInv(ys: seq<System>, steps: seq<Step>, i: nat)
    requires IsRun(ys, steps) && i < |ys|
    ensures Inv(ys[i])
  {
    if i > 0 {
      RunKeepsInv(ys, steps, i - 1);
      assert Next(ys[i - 1], ys[i], steps[i - 1]);
      StepKeepsInv(ys[i - 1], ys[i], steps[i - 1]);
    }
  }

  // Erasure safety: the vector of an ERASED representation is in no row, in no file of any space
  // (current, superseded or quarantined) and in no index a pass has loaded.
  lemma ErasureSafety(ys: seq<System>, steps: seq<Step>, i: nat, r: RepId, s: SpaceId)
    requires IsRun(ys, steps) && i < |ys| && IsErased(ys[i].db, r)
    ensures ys[i].db.rows[r].vector.None? && ys[i].db.rows[r].key.None?
    ensures InNoFile(Dir(ys[i], s), r)
    ensures Working(ys[i]) && Loaded(ys[i].coord.work.value) ==> r !in ys[i].coord.work.value.mem.bytes
  {
    var y := ys[i];
    RunKeepsInv(ys, steps, i);
    assert RowOk(y.db, r);
    DirIsOk(y, s);
    var dir := Dir(y, s);
    assert forall f :: f in dir.stale || f in dir.quarantine ==> FileOk(y.db, s, f);
    assert forall t :: !Stored(y.db, t, r);
  }

  // The index agrees with SQLite up to the queue: where a usable index differs from what is
  // eligible, the representation has an open operation of the kind that repairs it.
  lemma IndexAgreesUpToQueue(ys: seq<System>, steps: seq<Step>, i: nat, s: SpaceId)
    requires IsRun(ys, steps) && i < |ys| && Dir(ys[i], s).current.Some? && Dir(ys[i], s).usable
    ensures var d, live := ys[i].db, Dir(ys[i], s).current.value.live;
      && (forall k :: k in live ==> live[k] in d.rows && d.rows[live[k]].space == s && d.rows[live[k]].key == Some(k))
      && (forall r :: r in d.rows && d.rows[r].space == s && d.rows[r].key.Some?
            && d.rows[r].Eligible() != (d.rows[r].key.value in live)
            ==> HasOpen(d.ops, r, if d.rows[r].Eligible() then Add else Remove, {}))
  {
    RunKeepsInv(ys, steps, i);
    DirIsOk(ys[i], s);
    var d, g := ys[i].db, Dir(ys[i], s).current.value;
    assert forall r :: r in g.bytes ==> Stored(d, s, r);
    forall r | r in d.rows && d.rows[r].space == s && d.rows[r].key.Some? ensures AgreesOn(d, g, r, {}) {}
  }

  // With nothing open in a space, its usable index answers with exactly the eligible keys.
  lemma QuietIndexIsExact(ys: seq<System>, steps: seq<Step>, i: nat, s: SpaceId, k: Key)
    requires IsRun(ys, steps) && i < |ys| && Dir(ys[i], s).current.Some? && Dir(ys[i], s).usable
    requires forall o :: o in ys[i].db.ops && ys[i].db.ops[o].space == s ==> !ys[i].db.ops[o].Open()
    ensures k in Dir(ys[i], s).current.value.live <==>
      exists r :: r in ys[i].db.rows && ys[i].db.rows[r].space == s && ys[i].db.rows[r].Eligible() && ys[i].db.rows[r].key == Some(k)
  {
    var d, live := ys[i].db, Dir(ys[i], s).current.value.live;
    IndexAgreesUpToQueue(ys, steps, i, s);
    RunKeepsInv(ys, steps, i);
    forall r, kind | r in d.rows && d.rows[r].space == s ensures !HasOpen(d.ops, r, kind, {}) {
      forall o | o in d.ops && IsOp(d.ops[o], r, kind) ensures !d.ops[o].Open() { assert OpOk(d, o); }
    }
    forall r | r in d.rows && d.rows[r].space == s && d.rows[r].Eligible() ensures d.rows[r].key.Some? { assert RowOk(d, r); }
    if k in live { assert d.rows[live[k]].key == Some(k); }
  }

  // The log marker: while the write-ahead log holds bytes of an erased vector, truncation is owed.
  lemma LogMarker(ys: seq<System>, steps: seq<Step>, i: nat)
    requires IsRun(ys, steps) && i < |ys| && LogHoldsErased(ys[i].db, ys[i].log)
    ensures ys[i].db.marker.Some?
  {
    RunKeepsInv(ys, steps, i);
  }

  // What a step other than a commit of another caller may do to rows and log.
  ghost predicate RowsOnlyClear(y: System, y': System) {
    && y'.db.nextKey == y.db.nextKey
    && (y'.db.rows == y.db.rows || exists ready {:trigger ClearedRows(y.db.rows, ready)} :: y'.db.rows == ClearedRows(y.db.rows, ready))
    && y'.log <= y.log + Holders(y.db.rows) + Holders(y'.db.rows)
  }

  lemma CallOnlyClears(y: System, y': System, st: Step)
    requires CallStep(y, y', st)
    ensures RowsOnlyClear(y, y')
  {}

  lemma LockOnlyClears(y: System, y': System, st: Step)
    requires LockStep(y, y', st) && !st.Other?
    ensures RowsOnlyClear(y, y')
  {
    if st.Clear? { assert y'.db.rows == ClearedRows(y.db.rows, y.coord.ready); }
  }

  lemma WorkOnlyClears(y: System, y': System, st: Step)
    requires Working(y) && WorkStep(y, y', st)
    ensures RowsOnlyClear(y, y')
  {}

  lemma StepOnlyClears(y: System, y': System, st: Step)
    requires Next(y, y', st) && !st.Other?
    ensures RowsOnlyClear(y, y')
  {
    if CallStep(y, y', st) { CallOnlyClears(y, y', st); }
    else if LockStep(y, y', st) { LockOnlyClears(y, y', st); }
    else { WorkOnlyClears(y, y', st); }
  }

  lemma StepKeepsErasedRow(y: System, y': System, st: Step, r: RepId)
    requires Inv(y) && Next(y, y', st) && IsErased(y.db, r)
    ensures IsErased(y'.db, r)
    ensures y'.log <= y.log + Holders(y.db.rows) + Holders(y'.db.rows)
  {
    if st.Other? {
      CommitEvolves(y.db, y'.db, st.commit);
      EvolvesErasesNothing(y.db, y'.db);
      assert IsErased(y.db, r) <==> IsErased(y'.db, r);
    } else {
      StepOnlyClears(y, y', st);
    }
  }

  // Once erased and out of the log, always so.
  lemma StepKeepsErased(y: System, y': System, st: Step, r: RepId)
    requires Inv(y) && Inv(y') && Next(y, y', st) && IsErased(y.db, r)
    ensures IsErased(y'.db, r)
    ensures r !in y.log ==> r !in y'.log
  {
    StepKeepsErasedRow(y, y', st, r);
    ErasedHoldsNothing(y.db, r);
    ErasedHoldsNothing(y'.db, r);
  }

  lemma ErasedHoldsNothing(d: Db, r: RepId)
    requires DbInv(d) && IsErased(d, r)
    ensures r !in Holders(d.rows)
  {
    assert RowOk(d, r);
  }

  lemma {:induction false} RunKeepsErased(ys: seq<System>, steps: seq<Step>, i: nat, j: nat, r: RepId)
    requires IsRun(ys, steps) && i <= j < |ys| && IsErased(ys[i].db, r)
    ensures IsErased(ys[j].db, r)
    ensures r !in ys[i].log ==> r !in ys[j].log
    decreases j - i
  {
    if i < j {
      RunKeepsErased(ys, steps, i, j - 1, r);
      RunKeepsInv(ys, steps, j - 1);
      assert Next(ys[j - 1], ys[j], steps[j - 1]);
      RunKeepsInv(ys, steps, j);
      StepKeepsErased(ys[j - 1], ys[j], steps[j - 1], r);
    }
  }

  // A call that returns with the log truncated names, as erased, only representations whose bytes
  // are gone from the rows, the files and the log, then and ever after.
  lemma CompleteReportIsTrue(ys: seq<System>, steps: seq<Step>, i: nat, j: nat, c: nat, r: RepId, s: SpaceId)
    requires IsRun(ys, steps) && i <= j < |ys|
    requires c in ys[i].calls && ys[i].calls[c].Truncated? && r in ys[i].calls[c].erased
    ensures IsErased(ys[j].db, r) && ys[j].db.rows[r].vector.None?
    ensures InNoFile(Dir(ys[j], s), r) && r !in ys[j].log
  {
    RunKeepsInv(ys, steps, i);
    assert CallOk(ys[i].db, ys[i].log, ys[i].calls[c]);
    RunKeepsErased(ys, steps, i, j, r);
    ErasureSafety(ys, steps, j, r, s);
  }

  // ----- keys -----

  ghost predicate Holds(d: Db, r: RepId, s: SpaceId, k: Key) {
    r in d.rows && d.rows[r].space == s && d.rows[r].key == Some(k)
  }

  // Only an activation gives anyone a key, and it is the next one.
  lemma CommitGivesOnlyFreshKeys(d: Db, d': Db, c: Commit, r: RepId, s: SpaceId, k: Key)
    requires Committed(d, d', c) && k < NextKey(d.nextKey, s)
    ensures Holds(d', r, s, k) ==> Holds(d, r, s, k)
    ensures k < NextKey(d'.nextKey, s)
  {}

  lemma ClearingGivesNoKey(y: System, y': System, r: RepId, s: SpaceId, k: Key)
    requires RowsOnlyClear(y, y')
    ensures Holds(y'.db, r, s, k) ==> Holds(y.db, r, s, k)
    ensures NextKey(y'.db.nextKey, s) == NextKey(y.db.nextKey, s)
  {}

  lemma RowsOfStep(y: System, y': System, st: Step)
    requires Next(y, y', st)
    ensures if st.Other? then Committed(y.db, y'.db, st.commit) else RowsOnlyClear(y, y')
  {
    if !st.Other? { StepOnlyClears(y, y', st); }
  }

  // A key below the next one to be allocated is not given to anyone new.
  lemma StepGivesOnlyFreshKeys(y: System, y': System, st: Step, r: RepId, s: SpaceId, k: Key)
    requires Next(y, y', st) && k < NextKey(y.db.nextKey, s)
    ensures Holds(y'.db, r, s, k) ==> Holds(y.db, r, s, k)
    ensures k < NextKey(y'.db.nextKey, s)
  {
    RowsOfStep(y, y', st);
    if st.Other? { CommitGivesOnlyFreshKeys(y.db, y'.db, st.commit, r, s, k); } else { ClearingGivesNoKey(y, y', r, s, k); }
  }

  lemma {:induction false} RunGivesOnlyFreshKeys(ys: seq<System>, steps: seq<Step>, i: nat, j: nat, r: RepId, s: SpaceId, k: Key)
    requires IsRun(ys, steps) && i <= j < |ys| && k < NextKey(ys[i].db.nextKey, s)
    ensures Holds(ys[j].db, r, s, k) ==> Holds(ys[i].db, r, s, k)
    ensures k < NextKey(ys[j].db.nextKey, s)
    decreases j - i
  {
    if i < j {
      RunGivesOnlyFreshKeys(ys, steps, i, j - 1, r, s, k);
      RunKeepsInv(ys, steps, j - 1);
      assert Next(ys[j - 1], ys[j], steps[j - 1]);
      StepGivesOnlyFreshKeys(ys[j - 1], ys[j], steps[j - 1], r, s, k);
    }
  }

  // Keys are never reused: a key once held in a space is held by nobody else ever after, so the key
  // of an erased representation never resolves again.
  lemma KeysAreNeverReused(ys: seq<System>, steps: seq<Step>, i: nat, j: nat, r: RepId, q: RepId, s: SpaceId, k: Key)
    requires IsRun(ys, steps) && i <= j < |ys| && Holds(ys[i].db, r, s, k) && Holds(ys[j].db, q, s, k)
    ensures q == r && !IsErased(ys[j].db, r)
  {
    RunKeepsInv(ys, steps, i);
    RunKeepsInv(ys, steps, j);
    assert RowOk(ys[i].db, r) && RowOk(ys[j].db, q);
    RunGivesOnlyFreshKeys(ys, steps, i, j, q, s, k);
  }
}
