/** One coordinator pass as it runs when nothing else commits and no file is locked: the loops of
    `_apply_space`, `_purge` and `_settle_in_transaction`, each statement a step of the protocol. */
module Coordinator {
  import opened Store
  import opened Repositories
  import opened Protocol
  import opened Evolution
  import opened Invariant
  import opened InvariantProof

  datatype RetryPolicy = RetryPolicy(maxAttempts: nat, backoff: nat -> Time)

  // An ADD whose stored vector no index can hold.
  predicate Fails(rows: Rows, op: Due) {
    op.kind.Add? && op.rep in rows && rows[op.rep].Eligible() && !rows[op.rep].Indexable()
  }

  predicate Purges(rows: Rows, op: Due) {
    op.kind.Remove? && op.rep in rows && (rows[op.rep].key.None? || rows[op.rep].state.Erasing?)
  }

  // Outcomes of the first `n` operations; `again` once they were applied to the rebuilt index.
  ghost predicate Outcomes(rows: Rows, w: Work, n: nat, again: bool)
    requires n <= |w.ops|
  {
    && (forall k :: 0 <= k < |w.ops| ==> (w.ops[k].id in w.failed <==> (k < n || again) && Fails(rows, w.ops[k])))
    && (forall k :: 0 <= k < n && !Fails(rows, w.ops[k]) && (again || !Purges(rows, w.ops[k])) ==> w.ops[k].id in w.done)
    && (forall k :: 0 <= k < |w.ops| && (k >= n || Fails(rows, w.ops[k])) ==> w.ops[k].id !in w.done)
    && (!again ==> (w.purge <==> exists k :: 0 <= k < n && Purges(rows, w.ops[k])))
  }

  // The directory's only live file is the index in memory.
  ghost predicate Holds(dir: Protocol.Directory, w: Work) {
    dir.current == Some(w.mem) && dir.usable && dir.stale == {}
  }

  ghost predicate SameElsewhere(a: map<SpaceId, Protocol.Directory>, b: map<SpaceId, Protocol.Directory>, s: SpaceId) {
    forall t :: t != s ==> (t in a <==> t in b) && (t in a ==> a[t] == b[t])
  }

  class Library {
    const session: Session
    var log: set<RepId>
    var dirs: map<SpaceId, Directory>

    constructor (session: Session, log: set<RepId>, dirs: map<SpaceId, Directory>)
      ensures this.session == session && this.log == log && this.dirs == dirs
    {
      this.session, this.log, this.dirs := session, log, dirs;
    }

    ghost function State(coord: Protocol.Coordinator): System
      reads this, session
    {
      System(session.Db(), log, dirs, coord, map[])
    }

    function Directory(s: SpaceId): Protocol.Directory
      reads this
    {
      if s in dirs then dirs[s] else ABSENT
    }

    // The entries of a rebuild, streamed from SQLite into a new index.
    method Entries(s: SpaceId) returns (g: Generation)
      requires DbInv(session.Db())
      ensures Built(session.rows, s, g)
    {
      g := NOTHING;
      var left := set r | r in session.rows && session.rows[r].space == s && session.rows[r].Indexable();
      ghost var all := left;
      while left != {}
        invariant left <= all && g.bytes == all - left
        invariant forall k :: k in g.live ==> g.live[k] in g.bytes && session.rows[g.live[k]].key == Some(k)
        invariant forall r :: r in g.bytes ==> session.rows[r].key.value in g.live && g.live[session.rows[r].key.value] == r
        decreases left
      {
        var r :| r in left;
        var key := session.rows[r].key.value;
        assert key !in g.live;
        g := Generation(g.live[key := r], g.bytes + {r});
        left := left - {r};
      }
    }

    // Persisting with no file locked: the new generation is the only file left.
    method Persist(s: SpaceId, ghost todo: seq<Due>, w: Work) returns (w': Work)
      requires w.space == s && Inv(State(Pass(todo, Some(w)))) && MustPersist(w)
      modifies this`dirs
      ensures w' == AfterPersist(w) && Inv(State(Pass(todo, Some(w'))))
      ensures SameElsewhere(old(dirs), dirs, s) && s in dirs && Holds(dirs[s], w')
    {
      ghost var y := State(Pass(todo, Some(w)));
      dirs := dirs[s := Protocol.Directory(Some(w.mem), true, {}, Directory(s).quarantine)];
      w' := AfterPersist(w);
      assert WorkStep(y, State(Pass(todo, Some(w'))), Step.Persist);
      WorkStepKeepsInv(y, State(Pass(todo, Some(w'))), Step.Persist);
    }

    method ReadAndPersist(s: SpaceId, ghost todo: seq<Due>, w: Work) returns (w': Work)
      requires w.space == s && Inv(State(Pass(todo, Some(w)))) && CanReadEntries(Directory(s), w)
      modifies this`dirs
      ensures Inv(State(Pass(todo, Some(w'))))
      ensures w'.space == s && w'.ops == w.ops && w'.done == {} && w'.failed == w.failed && w'.purge == w.purge && w'.synced
      ensures w'.phase == if w.phase.Opening? then Applying(0) else Reapplying(0)
      ensures SameElsewhere(old(dirs), dirs, s) && s in dirs && Holds(dirs[s], w') && Built(session.rows, s, w'.mem)
    {
      ghost var y := State(Pass(todo, Some(w)));
      var mem := Entries(s);
      var read := w.(mem := mem, synced := false, done := {}, phase := if w.phase.Opening? then Rebuilding else Purging);
      assert WorkStep(y, State(Pass(todo, Some(read))), ReadEntries);
      WorkStepKeepsInv(y, State(Pass(todo, Some(read))), ReadEntries);
      w' := Persist(s, todo, read);
    }

    // `open_or_rebuild`, with leftovers and quarantined files that move when asked to.
    method OpenOrRebuild(s: SpaceId, ghost todo: seq<Due>, w: Work) returns (w': Work)
      requires w == NewWork(s, w.ops) && Inv(State(Pass(todo, Some(w))))
      modifies this`dirs
      ensures Inv(State(Pass(todo, Some(w'))))
      ensures w'.space == s && w'.ops == w.ops && w'.done == {} && w'.failed == {} && !w'.purge && w'.synced
      ensures w'.phase == Applying(0)
      ensures SameElsewhere(old(dirs), dirs, s) && s in dirs && Holds(dirs[s], w')
    {
      ghost var y := State(Pass(todo, Some(w)));
      var dir := Directory(s);
      if dir.current.Some? && dir.usable {
        dirs := dirs[s := dir.(stale := {})];
        w' := w.(phase := Applying(0), mem := dir.current.value, synced := true);
        assert WorkStep(y, State(Pass(todo, Some(w'))), Open);
        WorkStepKeepsInv(y, State(Pass(todo, Some(w'))), Open);
      } else {
        var files := dir.stale + (if dir.current.Some? then {dir.current.value.bytes} else {});
        dirs := dirs[s := Protocol.Directory(None, dir.usable, {}, dir.quarantine + files)];
        assert WorkStep(y, State(Pass(todo, Some(w))), Quarantine);
        WorkStepKeepsInv(y, State(Pass(todo, Some(w))), Quarantine);
        w' := ReadAndPersist(s, todo, w);
      }
    }

    // The loop over the operations, on the opened index or again on the rebuilt one.
    method ApplyAll(s: SpaceId, ghost todo: seq<Due>, w: Work, again: bool) returns (w': Work)
      requires w.space == s && Inv(State(Pass(todo, Some(w))))
      requires w.phase == if again then Reapplying(0) else Applying(0)
      requires Outcomes(session.rows, w, 0, again)
      ensures Inv(State(Pass(todo, Some(w')))) && w'.space == s && w'.ops == w.ops
      ensures w'.phase == if again then Reapplying(|w.ops|) else Applying(|w.ops|)
      ensures Outcomes(session.rows, w', |w.ops|, again)
    {
      w' := w;
      ghost var n := 0;
      while CanApply(w')
        invariant 0 <= n <= |w.ops| && w'.space == s && w'.ops == w.ops
        invariant w'.phase == if again then Reapplying(n) else Applying(n)
        invariant Inv(State(Pass(todo, Some(w')))) && Outcomes(session.rows, w', n, again)
        decreases |w.ops| - n
      {
        ghost var y := State(Pass(todo, Some(w')));
        OneOutcome(session.Db(), Dir(y, s), w', n, again);
        w' := ApplyNext(session.rows, w');
        ApplyKeepsInv(y, State(Pass(todo, Some(w'))));
        n := n + 1;
      }
    }

    method ApplyToIndex(s: SpaceId, ghost todo: seq<Due>, loaded: Work) returns (w: Work)
      requires loaded.space == s && Inv(State(Pass(todo, Some(loaded)))) && loaded.phase == Applying(0)
      requires loaded.done == {} && loaded.failed == {} && !loaded.purge && s in dirs && dirs[s].stale == {}
      modifies this`dirs
      ensures Inv(State(Pass(todo, Some(w)))) && w.space == s && w.ops == loaded.ops
      ensures (w.phase == Applying(|w.ops|) && !w.purge) || w.phase == Reapplying(|w.ops|)
      ensures forall k :: 0 <= k < |w.ops| ==> (w.ops[k].id in w.done <==> !Fails(session.rows, w.ops[k]))
      ensures SameElsewhere(old(dirs), dirs, s) && s in dirs && dirs[s].stale == {}
    {
      w := ApplyAll(s, todo, loaded, false);
      if w.purge {
        w := ReadAndPersist(s, todo, w);
        w := ApplyAll(s, todo, w, true);
        Finished(session.rows, w, true);
      } else {
        Finished(session.rows, w, false);
      }
    }

    // `_apply_space` up to the settlement: every outcome is None but those of vectors no index can
    // hold, and no superseded file is left.
    method ApplyIndex(s: SpaceId, ghost todo: seq<Due>, ops: seq<Due>) returns (w: Work)
      requires Inv(State(Pass(todo, Some(NewWork(s, ops)))))
      modifies this`dirs
      ensures Inv(State(Pass(todo, Some(w)))) && w.space == s && w.ops == ops && w.phase.Settling?
      ensures forall k :: 0 <= k < |ops| ==> (ops[k].id in w.done <==> !Fails(session.rows, ops[k]))
      ensures SameElsewhere(old(dirs), dirs, s) && s in dirs && dirs[s].stale == {}
    {
      w := OpenOrRebuild(s, todo, NewWork(s, ops));
      w := ApplyToIndex(s, todo, w);
      if !w.synced { w := Persist(s, todo, w); }
      w := CheckRetired(s, todo, w);
    }

    // The last check finds no superseded file.
    method CheckRetired(s: SpaceId, ghost todo: seq<Due>, w: Work) returns (w': Work)
      requires w.space == s && Inv(State(Pass(todo, Some(w)))) && w.synced && Directory(s).stale == {}
      requires (w.phase == Applying(|w.ops|) && !w.purge) || w.phase == Reapplying(|w.ops|)
      ensures w' == w.(phase := Settling) && Inv(State(Pass(todo, Some(w'))))
    {
      ghost var y := State(Pass(todo, Some(w)));
      w' := w.(phase := Settling);
      assert WorkStep(y, State(Pass(todo, Some(w'))), RetireCheck);
      WorkStepKeepsInv(y, State(Pass(todo, Some(w'))), RetireCheck);
    }

    // One outcome of `_settle_in_transaction`: applied, retried after the backoff, or out of attempts.
    method SettleOne(id: OpId, done: bool, now: Time, retry: RetryPolicy)
      modifies session`ops
      ensures session.ops.Keys == old(session.ops).Keys
      ensures forall o :: o in old(session.ops) && (o != id || !old(session.ops)[o].state.Pending?) ==> session.ops[o] == old(session.ops)[o]
      ensures id in old(session.ops) && old(session.ops)[id].state.Pending? ==> SettledOp(old(session.ops)[id], session.ops[id], done)
    {
      if id in session.ops && session.ops[id].state.Pending? {
        var op := session.ops[id];
        var attempts := op.attempts + 1;
        if done {
          session.ops := session.ops[id := op.(state := OpState.Applied, attempts := attempts)];
        } else if attempts >= retry.maxAttempts {
          session.ops := session.ops[id := op.(state := OpState.Failed, attempts := attempts)];
        } else {
          session.ops := session.ops[id := op.(attempts := attempts, due := now + retry.backoff(attempts))];
        }
      }
    }

    method SettleAll(w: Work, now: Time, retry: RetryPolicy)
      requires forall i, j :: 0 <= i < j < |w.ops| ==> w.ops[i].id != w.ops[j].id
      modifies session`ops
      ensures Settled(old(session.Db()), session.Db(), w)
    {
      ghost var before := session.ops;
      var i := 0;
      while i < |w.ops|
        invariant 0 <= i <= |w.ops|
        invariant session.ops.Keys == before.Keys
        invariant forall o :: o in before ==>
          if o in Ids(w.ops[..i]) && before[o].state.Pending?
          then SettledOp(before[o], session.ops[o], o in w.done) else session.ops[o] == before[o]
      {
        IdsOfNext(w.ops, i);
        SettleOne(w.ops[i].id, w.ops[i].id in w.done, now, retry);
        i := i + 1;
      }
      assert w.ops[..i] == w.ops;
    }

    // `_settle`.
    method Settle(ghost todo: seq<Due>, w: Work, now: Time, retry: RetryPolicy)
      requires Inv(State(Pass(todo, Some(w)))) && w.phase.Settling?
      modifies session`ops
      ensures Inv(State(Pass(todo, None))) && Settled(old(session.Db()), session.Db(), w)
    {
      ghost var y := State(Pass(todo, Some(w)));
      SettleAll(w, now, retry);
      assert WorkStep(y, State(Pass(todo, None)), Step.Settle);
      WorkStepKeepsInv(y, State(Pass(todo, None)), Step.Settle);
    }
  }

  lemma IdsOfNext(ops: seq<Due>, i: nat)
    requires i < |ops| && forall i, j :: 0 <= i < j < |ops| ==> ops[i].id != ops[j].id
    ensures Ids(ops[..i + 1]) == Ids(ops[..i]) + {ops[i].id} && ops[i].id !in Ids(ops[..i])
  {
    assert ops[..i + 1][i] == ops[i];
    forall o | o in Ids(ops[..i]) ensures o in Ids(ops[..i + 1]) {
      var j :| 0 <= j < i && ops[..i][j].id == o;
      assert ops[..i + 1][j].id == o;
    }
    forall o | o in Ids(ops[..i + 1]) && o != ops[i].id ensures o in Ids(ops[..i]) {
      var j :| 0 <= j < i + 1 && ops[..i + 1][j].id == o;
      assert ops[..i][j].id == o;
    }
  }

  lemma EffectOf(d: Db, s: SpaceId, mem: Generation, op: Due)
    requires DbInv(d) && DueOk(d, s, op)
    ensures ApplyOne(d.rows, mem, op).Error? <==> Fails(d.rows, op)
    ensures ApplyOne(d.rows, mem, op).Purge? <==> Purges(d.rows, op)
  {
    assert RowOk(d, op.rep);
  }

  lemma OneApplied(d: Db, dir: Protocol.Directory, w: Work, n: nat, again: bool)
    requires DbInv(d) && WorkInv(d, dir, w) && n < |w.ops|
    requires w.phase == if again then Reapplying(n) else Applying(n)
    requires again ==> (w.ops[n].id in w.failed <==> Fails(d.rows, w.ops[n]))
    ensures var w', op := ApplyNext(d.rows, w), w.ops[n];
      && w'.space == w.space && w'.ops == w.ops && w'.phase == (if again then Reapplying(n + 1) else Applying(n + 1))
      && w'.done == (if !Fails(d.rows, op) && (again || !Purges(d.rows, op)) then w.done + {op.id} else w.done)
      && w'.failed == (if Fails(d.rows, op) && !again then w.failed + {op.id} else w.failed)
      && w'.purge == (w.purge || (!again && Purges(d.rows, op)))
  {
    assert DueOk(d, w.space, w.ops[n]);
    EffectOf(d, w.space, w.mem, w.ops[n]);
  }

  lemma OneOutcome(d: Db, dir: Protocol.Directory, w: Work, n: nat, again: bool)
    requires DbInv(d) && WorkInv(d, dir, w) && n < |w.ops|
    requires w.phase == if again then Reapplying(n) else Applying(n)
    requires Outcomes(d.rows, w, n, again)
    ensures var w' := ApplyNext(d.rows, w);
      && w'.space == w.space && w'.ops == w.ops && w'.phase == (if again then Reapplying(n + 1) else Applying(n + 1))
      && Outcomes(d.rows, w', n + 1, again)
  {
    OneApplied(d, dir, w, n, again);
  }

  lemma Finished(rows: Rows, w: Work, again: bool)
    requires Outcomes(rows, w, |w.ops|, again) && (again || !w.purge)
    ensures forall k :: 0 <= k < |w.ops| ==> (w.ops[k].id in w.done <==> !Fails(rows, w.ops[k]))
  {}
}
