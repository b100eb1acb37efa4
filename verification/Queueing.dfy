/** Step one of an erasure, `_queue` and `queue_in`: chunked statements in one transaction, and the
    commit they amount to. */
module Queueing {
  import opened Store
  import opened IndexQueue
  import opened Repositories
  import opened Protocol
  import opened Evolution

  const CHUNK: nat := 500

  // ----- appending REMOVEs for representations that have none pending -----

  ghost predicate FreshRemoves(d: Db, ops: Ops, batch: seq<NewOp>) {
    && (forall i {:trigger batch[i]} :: 0 <= i < |batch| ==>
          batch[i].kind.Remove? && batch[i].rep in d.rows && batch[i].space == d.rows[batch[i].rep].space
          && !HasPending(ops, batch[i].rep, Remove))
    && (forall i, j :: 0 <= i < j < |batch| ==> batch[i].rep != batch[j].rep)
  }

  // Such a batch only adds one fresh REMOVE each and withdraws the PENDING ADDs in its way.
  ghost predicate AppendedAt(ops: Ops, next: OpId, batch: seq<NewOp>, now: Time, post: Ops, o: OpId) {
    && (o in post && o < next ==> o in ops && post[o] == ops[o])
    && (o in ops && o !in post ==> ops[o].kind.Add? && ops[o].state.Pending? && Mentions(batch, ops[o].rep))
    && (o in post && next <= o ==> o - next < |batch| && post[o] == Fresh(batch[o - next], now))
    && (next <= o < next + |batch| ==> o in post)
  }

  ghost predicate Appended(ops: Ops, next: OpId, batch: seq<NewOp>, now: Time, post: Ops) {
    forall o {:trigger AppendedAt(ops, next, batch, now, post, o)} :: AppendedAt(ops, next, batch, now, post, o)
  }

  lemma MentionsInit(batch: seq<NewOp>, r: RepId)
    requires batch != []
    ensures Mentions(batch, r) <==> Mentions(batch[..|batch| - 1], r) || batch[|batch| - 1].rep == r
  {
    var n := |batch| - 1;
    if Mentions(batch[..n], r) {
      var i :| 0 <= i < n && batch[..n][i].rep == r;
      assert batch[i].rep == r;
    }
    if Mentions(batch, r) && batch[n].rep != r {
      var i :| 0 <= i < |batch| && batch[i].rep == r;
      assert batch[..n][i].rep == r;
    }
  }

  lemma NoneBecomesPending(d: Db, ops: Ops, next: OpId, init: seq<NewOp>, now: Time, mid: Ops, last: RepId)
    requires Appended(ops, next, init, now, mid) && !HasPending(ops, last, Remove)
    requires forall i {:trigger init[i]} :: 0 <= i < |init| ==> init[i].rep != last
    ensures !HasPending(mid, last, Remove)
  {
    forall o | o in mid && mid[o].kind.Remove? && mid[o].state.Pending? ensures mid[o].rep != last {
      assert AppendedAt(ops, next, init, now, mid, o);
      if next <= o { assert init[o - next].rep != last; }
    }
  }

  lemma AppendedOneMore(ops: Ops, next: OpId, batch: seq<NewOp>, now: Time, mid: Ops)
    requires batch != [] && IdsBelow(ops, next)
    requires Appended(ops, next, batch[..|batch| - 1], now, mid)
    requires forall i {:trigger batch[i]} :: 0 <= i < |batch| ==> batch[i].kind.Remove?
    ensures var n, last := |batch| - 1, batch[|batch| - 1];
      Appended(ops, next, batch, now, Withdraw(mid, last.rep, Add)[next + n := Fresh(last, now)])
  {
    var n, last := |batch| - 1, batch[|batch| - 1];
    var init := batch[..n];
    assert forall i {:trigger init[i]} :: 0 <= i < n ==> init[i] == batch[i];
    var kept := Withdraw(mid, last.rep, Add);
    var post := kept[next + n := Fresh(last, now)];
    forall o: OpId ensures AppendedAt(ops, next, batch, now, post, o) {
      assert AppendedAt(ops, next, init, now, mid, o);
      if o in ops { MentionsInit(batch, ops[o].rep); }
      assert next <= o < next + n ==> init[o - next] == batch[o - next];
    }
  }

  lemma {:induction false} AppendRemoves(d: Db, ops: Ops, next: OpId, batch: seq<NewOp>, now: Time)
    requires IdsBelow(ops, next) && FreshRemoves(d, ops, batch)
    ensures Appended(ops, next, batch, now, AppendAll(ops, next, batch, now))
    decreases |batch|
  {
    if batch != [] {
      var n := |batch| - 1;
      var init, last := batch[..n], batch[n];
      assert forall i {:trigger init[i]} :: 0 <= i < n ==> init[i] == batch[i];
      AppendRemoves(d, ops, next, init, now);
      var mid := AppendAll(ops, next, init, now);
      NoneBecomesPending(d, ops, next, init, now, mid, last.rep);
      assert !HasPending(Withdraw(mid, last.rep, Add), last.rep, Remove);
      AppendedOneMore(ops, next, batch, now, mid);
    }
  }

  // ----- the two transactions before the appends -----

  // After the DELETED ones were taken: every REMOVE they had is forgotten.
  function Taken(d: Db, ids: set<RepId>): Db {
    d.(rows := map r | r in d.rows :: if r in ids && d.rows[r].state.Deleted? then d.rows[r].(state := Erasing) else d.rows[r],
       ops := map o | o in d.ops && !(d.ops[o].kind.Remove? && d.ops[o].rep in ids && d.ops[o].rep in d.rows
                                      && d.rows[d.ops[o].rep].state.Deleted?) :: d.ops[o])
  }

  // After the erasable ones among `ids` were moved and their open REMOVEs deleted.
  function Moved(d: Db, ids: set<RepId>): Db {
    d.(rows := map r | r in d.rows :: if r in ids && Erasable(d.rows[r].state) then d.rows[r].(state := Erasing) else d.rows[r],
       ops := map o | o in d.ops && !(d.ops[o].kind.Remove? && d.ops[o].Open() && d.ops[o].rep in ids && d.ops[o].rep in d.rows
                                      && Erasable(d.rows[d.ops[o].rep].state) && d.rows[d.ops[o].rep].key.Some?) :: d.ops[o])
  }

  function Elements(ids: seq<RepId>): set<RepId> { set r | r in ids }

  lemma ElementsOfPrefix(ids: seq<RepId>, start: nat, end: nat)
    requires start <= end <= |ids|
    ensures Elements(ids[..end]) == Elements(ids[..start]) + Elements(ids[start..end])
  {
    assert ids[..end] == ids[..start] + ids[start..end];
  }

  lemma TakenTwice(d: Db, a: set<RepId>, b: set<RepId>)
    ensures Taken(Taken(d, a), b) == Taken(d, a + b)
    ensures Taken(d, {}) == d
  {
    var once, both := Taken(Taken(d, a), b), Taken(d, a + b);
    assert once.rows == both.rows;
    assert once.ops == both.ops;
    assert Taken(d, {}).rows == d.rows && Taken(d, {}).ops == d.ops;
  }

  lemma MovedTwice(d: Db, a: set<RepId>, b: set<RepId>)
    ensures Moved(Moved(d, a), b) == Moved(d, a + b)
    ensures Moved(d, {}) == d
  {
    var once, both := Moved(Moved(d, a), b), Moved(d, a + b);
    assert once.rows == both.rows;
    assert once.ops == both.ops;
    assert Moved(d, {}).rows == d.rows && Moved(d, {}).ops == d.ops;
  }

  method TakeDeleted(session: Session, ids: seq<RepId>)
    modifies session`rows, session`ops
    ensures session.Db() == Taken(old(session.Db()), Elements(ids))
  {
    ghost var d := session.Db();
    var start := 0;
    TakenTwice(d, {}, {});
    assert ids[..0] == [];
    while start < |ids|
      invariant 0 <= start <= |ids|
      invariant session.Db() == Taken(d, Elements(ids[..start]))
    {
      var end := if start + CHUNK < |ids| then start + CHUNK else |ids|;
      var chunk := Elements(ids[start..end]);
      ElementsOfPrefix(ids, start, end);
      TakenTwice(d, Elements(ids[..start]), chunk);
      var after := Taken(session.Db(), chunk);
      session.rows, session.ops := after.rows, after.ops;
      start := end;
    }
    assert ids[..start] == ids;
  }

  // Fresh REMOVEs, in whatever order the database returned the rows.
  ghost predicate RemovesFor(d: Db, batch: seq<NewOp>, reps: set<RepId>) {
    && (forall i {:trigger batch[i]} :: 0 <= i < |batch| ==>
          batch[i].kind.Remove? && batch[i].rep in reps && batch[i].rep in d.rows && batch[i].space == d.rows[batch[i].rep].space)
    && (forall r {:trigger Mentions(batch, r)} :: r in reps ==> Mentions(batch, r))
    && (forall i, j :: 0 <= i < j < |batch| ==> batch[i].rep != batch[j].rep)
  }

  method ListRemoves(rows: Rows, reps: set<RepId>, ghost d: Db, before: seq<NewOp>, ghost listed: set<RepId>)
    returns (batch: seq<NewOp>)
    requires reps <= rows.Keys && rows.Keys == d.rows.Keys && (forall r :: r in rows ==> rows[r].space == d.rows[r].space)
    requires RemovesFor(d, before, listed) && listed !! reps
    ensures RemovesFor(d, batch, listed + reps)
  {
    batch := before;
    var left := reps;
    while left != {}
      invariant left <= reps && RemovesFor(d, batch, listed + (reps - left))
      decreases left
    {
      var r :| r in left;
      var more := batch + [NewOp(r, rows[r].space, Remove)];
      forall q | q in listed + (reps - (left - {r})) ensures Mentions(more, q) {
        MentionsInit(more, q);
        assert more[..|more| - 1] == batch;
      }
      batch := more;
      left := left - {r};
    }
  }

  ghost function KeyedErasable(d: Db, ids: set<RepId>): set<RepId> {
    set r | r in ids && r in d.rows && Erasable(d.rows[r].state) && d.rows[r].key.Some?
  }

  lemma KeyedErasableGrows(d: Db, a: set<RepId>, b: set<RepId>)
    ensures KeyedErasable(d, a + b) == KeyedErasable(d, a) + KeyedErasable(Moved(d, a), b)
    ensures KeyedErasable(d, a) !! KeyedErasable(Moved(d, a), b)
  {}

  method MoveErasable(session: Session, ids: seq<RepId>) returns (operations: seq<NewOp>)
    modifies session`rows, session`ops
    ensures session.Db() == Moved(old(session.Db()), Elements(ids))
    ensures RemovesFor(old(session.Db()), operations, KeyedErasable(old(session.Db()), Elements(ids)))
  {
    ghost var d := session.Db();
    operations := [];
    var start := 0;
    MovedTwice(d, {}, {});
    assert ids[..0] == [];
    assert KeyedErasable(d, {}) == {};
    while start < |ids|
      invariant 0 <= start <= |ids|
      invariant session.Db() == Moved(d, Elements(ids[..start]))
      invariant RemovesFor(d, operations, KeyedErasable(d, Elements(ids[..start])))
    {
      var end := if start + CHUNK < |ids| then start + CHUNK else |ids|;
      ghost var done := Elements(ids[..start]);
      var chunk := Elements(ids[start..end]);
      ElementsOfPrefix(ids, start, end);
      MovedTwice(d, done, chunk);
      KeyedErasableGrows(d, done, chunk);
      var rows := session.rows;
      var keyed := set r | r in chunk && r in rows && Erasable(rows[r].state) && rows[r].key.Some?;
      assert keyed == KeyedErasable(session.Db(), chunk);
      operations := ListRemoves(rows, keyed, d, operations, KeyedErasable(d, done));
      var after := Moved(session.Db(), chunk);
      session.rows, session.ops := after.rows, after.ops;
      start := end;
    }
    assert ids[..start] == ids;
  }

  // ----- what follows the moves -----

  // `_missing_removes`: ERASING with a key and no REMOVE in any state.
  function Missing(rows: Rows, ops: Ops): set<RepId> {
    set r | r in rows && rows[r].state.Erasing? && rows[r].key.Some? && !HasOp(ops, r, Remove)
  }

  predicate FailedErasure(rows: Rows, op: Op) {
    op.kind.Remove? && op.state.Failed? && op.rep in rows && rows[op.rep].state.Erasing?
  }

  ghost predicate RevivedAt(rows: Rows, ops: Ops, now: Time, post: Ops, o: OpId) {
    && (o in post <==> o in ops)
    && (o in ops ==> post[o] == ops[o] || (FailedErasure(rows, ops[o]) && post[o] == RequeuedOp(ops[o], now)))
    && (o in ops && FailedErasure(rows, ops[o]) ==> HasPending(post, ops[o].rep, Remove))
  }

  ghost predicate FailedRevived(rows: Rows, ops: Ops, now: Time, post: Ops) {
    forall o {:trigger RevivedAt(rows, ops, now, post, o)} :: RevivedAt(rows, ops, now, post, o)
  }

  method RequeueFailedRemoves(session: Session, now: Time)
    modifies session`ops
    ensures FailedRevived(session.rows, old(session.ops), now, session.ops)
  {
    ghost var ops := session.ops;
    var rows := session.rows;
    var left := set o | o in session.ops && FailedErasure(rows, session.ops[o]);
    while left != {}
      invariant session.ops.Keys == ops.Keys
      invariant forall o :: o in ops ==> session.ops[o] == ops[o] || (FailedErasure(rows, ops[o]) && session.ops[o] == RequeuedOp(ops[o], now))
      invariant forall o :: o in ops && FailedErasure(rows, ops[o]) && o !in left ==> HasPending(session.ops, ops[o].rep, Remove)
      invariant forall o :: o in left ==> o in ops && FailedErasure(rows, ops[o])
      decreases left
    {
      var o :| o in left;
      ghost var before := session.ops;
      var done := Requeue(session, o, now);
      StaysPending(before, session.ops, o);
      if done { assert IsOp(session.ops[o], ops[o].rep, Remove) && session.ops[o].state.Pending?; }
      left := left - {o};
    }
  }

  lemma StaysPending(before: Ops, after: Ops, id: OpId)
    requires after == before
          || (id in before && id in after && before[id].state.Failed? && after == before[id := after[id]]
              && after[id].rep == before[id].rep && after[id].kind == before[id].kind && after[id].state.Pending?)
    ensures forall r, k :: HasPending(before, r, k) ==> HasPending(after, r, k)
  {
    forall r, k | HasPending(before, r, k) ensures HasPending(after, r, k) {
      var o :| o in before && IsOp(before[o], r, k) && before[o].state.Pending?;
      assert o in after && IsOp(after[o], r, k) && after[o].state.Pending?;
    }
  }

  // ----- the whole transaction is the commit the protocol knows -----

  // The tables between the statements of the transaction.
  datatype Stages = Stages(d: Db, ids: set<RepId>, takeDeleted: bool, now: Time, moved: Db, first: seq<NewOp>,
                           mid: Ops, second: seq<NewOp>, late: Ops, post: Ops)
  {
    ghost predicate Start() {
      && DbInv(d) && moved == Moved(if takeDeleted then Taken(d, ids) else d, ids)
      && RemovesFor(d, first, KeyedErasable(d, ids)) && Appended(moved.ops, d.nextOp, first, now, mid)
    }

    ghost predicate Finish() {
      && RemovesFor(d, second, Missing(moved.rows, mid)) && Appended(mid, d.nextOp + |first|, second, now, late)
      && FailedRevived(moved.rows, late, now, post)
    }

    ghost predicate Ok() { Start() && Finish() }

    function End(): OpId { d.nextOp + |first| + |second| }

    // What the three statements did about one operation.
    lemma At(o: OpId)
      requires Ok()
      ensures AppendedAt(moved.ops, d.nextOp, first, now, mid, o)
      ensures AppendedAt(mid, d.nextOp + |first|, second, now, late, o)
      ensures RevivedAt(moved.rows, late, now, post, o)
    {}

    ghost predicate Needs(r: RepId) { NeedsRemove(d, r, ids, takeDeleted) }
  }

  lemma MentionsExactly(d: Db, batch: seq<NewOp>, reps: set<RepId>, r: RepId)
    requires RemovesFor(d, batch, reps)
    ensures Mentions(batch, r) <==> r in reps
  {}

  lemma FirstGivesRemove(t: Stages, r: RepId)
    requires t.Start() && Mentions(t.first, r)
    ensures HasOp(t.mid, r, Remove)
  {
    var i :| 0 <= i < |t.first| && t.first[i].rep == r;
    var o := t.d.nextOp + i;
    assert AppendedAt(t.moved.ops, t.d.nextOp, t.first, t.now, t.mid, o);
    assert IsOp(t.mid[o], r, Remove);
  }

  // What is ERASING without a REMOVE after the first batch is exactly what else needs one.
  lemma MissingIsNeeded(t: Stages, r: RepId)
    requires t.Start()
    ensures t.Needs(r) <==> r in KeyedErasable(t.d, t.ids) || r in Missing(t.moved.rows, t.mid)
    ensures r in KeyedErasable(t.d, t.ids) ==> r !in Missing(t.moved.rows, t.mid)
  {
    MentionsExactly(t.d, t.first, KeyedErasable(t.d, t.ids), r);
    if Mentions(t.first, r) {
      FirstGivesRemove(t, r);
    } else if r in t.d.rows {
      assert RowOk(t.d, r);
      RemovesBefore(t.d, t.ids, t.takeDeleted, t.now, t.moved, t.first, t.mid, r);
    }
  }

  lemma NeededIsListed(t: Stages, r: RepId)
    requires t.Start() && RemovesFor(t.d, t.second, Missing(t.moved.rows, t.mid))
    ensures t.Needs(r) <==> Mentions(t.first, r) || Mentions(t.second, r)
    ensures Mentions(t.first, r) ==> !Mentions(t.second, r)
  {
    MentionsExactly(t.d, t.first, KeyedErasable(t.d, t.ids), r);
    MentionsExactly(t.d, t.second, Missing(t.moved.rows, t.mid), r);
    MissingIsNeeded(t, r);
  }

  // A representation the first batch does not name has a REMOVE in between only if it had one that
  // taking the DELETED ones left.
  lemma RemovesBefore(d: Db, ids: set<RepId>, takeDeleted: bool, now: Time, moved: Db, first: seq<NewOp>, mid: Ops, r: RepId)
    requires DbInv(d) && moved == Moved(if takeDeleted then Taken(d, ids) else d, ids)
    requires Appended(moved.ops, d.nextOp, first, now, mid) && !Mentions(first, r) && r in d.rows
    requires !(r in ids && Erasable(d.rows[r].state) && d.rows[r].key.Some?)
    ensures HasOp(mid, r, Remove) <==> HasOp(d.ops, r, Remove) && !(takeDeleted && r in ids && d.rows[r].state.Deleted?)
  {
    FreshId(d);
    if HasOp(mid, r, Remove) {
      var o :| o in mid && IsOp(mid[o], r, Remove);
      assert AppendedAt(moved.ops, d.nextOp, first, now, mid, o);
      assert forall i {:trigger first[i]} :: 0 <= i < |first| ==> first[i].rep != r;
      assert o in moved.ops && o in d.ops && IsOp(d.ops[o], r, Remove);
    }
    if HasOp(d.ops, r, Remove) && !(takeDeleted && r in ids && d.rows[r].state.Deleted?) {
      var o :| o in d.ops && IsOp(d.ops[o], r, Remove);
      assert AppendedAt(moved.ops, d.nextOp, first, now, mid, o);
      assert o in moved.ops && moved.ops[o] == d.ops[o];
      assert o in mid && IsOp(mid[o], r, Remove);
    }
  }

  lemma OldOperation(t: Stages, o: OpId)
    requires t.Ok() && o < t.d.nextOp
    ensures o in t.post ==> o in t.d.ops
    ensures o in t.d.ops ==> OldOpQueued(t.d, t.post, t.ids, t.takeDeleted, o)
  {
    t.At(o);
    if o in t.d.ops {
      assert OpOk(t.d, o) && RowOk(t.d, t.d.ops[o].rep);
      NeededIsListed(t, t.d.ops[o].rep);
      assert o in t.moved.ops <==> !Displaced(t.d.rows, t.d.ops[o], t.ids, t.takeDeleted);
    }
  }

  // The id `o` was drawn for this entry.
  function Entry(t: Stages, o: OpId): NewOp
    requires t.d.nextOp <= o < t.End()
  {
    if o < t.d.nextOp + |t.first| then t.first[o - t.d.nextOp] else t.second[o - t.d.nextOp - |t.first|]
  }

  lemma NewOperation(t: Stages, o: OpId)
    requires t.Ok() && t.d.nextOp <= o
    ensures o in t.post <==> o < t.End()
    ensures o < t.End() ==>
      var n := Entry(t, o);
      t.post[o] == Fresh(n, t.now) && n.kind.Remove? && n.rep in t.d.rows && n.space == t.d.rows[n.rep].space && t.Needs(n.rep)
  {
    t.At(o);
    if o < t.End() {
      var n := Entry(t, o);
      if o < t.d.nextOp + |t.first| { assert o in t.mid && t.mid[o] == Fresh(n, t.now); }
      assert o in t.late && t.late[o] == Fresh(n, t.now);
      assert Mentions(t.first, n.rep) || Mentions(t.second, n.rep);
      NeededIsListed(t, n.rep);
    }
  }

  lemma OnlyNewOperation(t: Stages, o: OpId, p: OpId)
    requires t.Ok() && t.d.nextOp <= o && t.d.nextOp <= p && o in t.post && p in t.post && t.post[o].rep == t.post[p].rep
    ensures o == p
  {
    NewOperation(t, o);
    NewOperation(t, p);
    NeededIsListed(t, t.post[o].rep);
  }

  lemma EntryOf(t: Stages, r: RepId) returns (o: OpId)
    requires Mentions(t.first, r) || Mentions(t.second, r)
    ensures t.d.nextOp <= o < t.End() && Entry(t, o).rep == r
  {
    if Mentions(t.first, r) {
      var i :| 0 <= i < |t.first| && t.first[i].rep == r;
      o := t.d.nextOp + i;
    } else {
      var i :| 0 <= i < |t.second| && t.second[i].rep == r;
      o := t.d.nextOp + |t.first| + i;
    }
  }

  lemma NeededIsPending(t: Stages, r: RepId)
    requires t.Ok() && t.Needs(r)
    ensures HasPending(t.post, r, Remove)
  {
    NeededIsListed(t, r);
    var o := EntryOf(t, r);
    NewOperation(t, o);
    assert o in t.post && IsOp(t.post[o], r, Remove);
  }

  lemma NewIsQueued(t: Stages, o: OpId)
    requires t.Ok() && o in t.post && t.d.nextOp <= o
    ensures NewOpQueued(t.d, t.post, t.ids, t.takeDeleted, o)
  {
    NewOperation(t, o);
    forall p | p in t.post && t.d.nextOp <= p && t.post[p].rep == t.post[o].rep ensures p == o { OnlyNewOperation(t, o, p); }
  }

  lemma RowsAndIds(t: Stages)
    requires t.Ok()
    ensures t.moved.rows == ErasingRows(t.d.rows, t.ids, t.takeDeleted)
    ensures t.moved == t.d.(rows := t.moved.rows, ops := t.moved.ops)
    ensures IdsBelow(t.post, t.End())
    ensures forall o :: o in t.post && o < t.d.nextOp ==> o in t.d.ops
  {
    FreshId(t.d);
    forall o | o in t.post ensures o < t.End() { if t.d.nextOp <= o { NewOperation(t, o); } }
    forall o | o in t.post && o < t.d.nextOp ensures o in t.d.ops { OldOperation(t, o); }
  }

  lemma QueueIsCommit(t: Stages)
    requires t.Ok()
    ensures ErasureQueued(t.d, t.moved.(ops := t.post, nextOp := t.End()), t.ids, t.takeDeleted)
  {
    RowsAndIds(t);
    forall o | o in t.d.ops ensures OldOpQueued(t.d, t.post, t.ids, t.takeDeleted, o) { FreshId(t.d); OldOperation(t, o); }
    forall o | o in t.post && t.d.nextOp <= o ensures NewOpQueued(t.d, t.post, t.ids, t.takeDeleted, o) { NewIsQueued(t, o); }
    forall r | t.Needs(r) ensures HasPending(t.post, r, Remove) { NeededIsPending(t, r); }
    forall o | o in t.post && FailedErasure(t.moved.rows, t.post[o]) ensures HasPending(t.post, t.post[o].rep, Remove) {
      t.At(o);
    }
  }

  // Whatever the transaction makes PENDING is due at once.
  ghost predicate DueNow(ops: Ops, ops': Ops, now: Time) {
    forall o :: o in ops' && ops'[o].state.Pending? && ops'[o].due != now ==> o in ops && ops'[o] == ops[o]
  }

  lemma QueuedIsDue(t: Stages)
    requires t.Ok()
    ensures DueNow(t.d.ops, t.post, t.now)
  {
    forall o | o in t.post && t.post[o].state.Pending? && t.post[o].due != t.now ensures o in t.d.ops && t.post[o] == t.d.ops[o] {
      if t.d.nextOp <= o { NewOperation(t, o); } else { t.At(o); }
    }
  }

  lemma NonePending(t: Stages)
    requires DbInv(t.d) && t.moved == Moved(if t.takeDeleted then Taken(t.d, t.ids) else t.d, t.ids)
    requires RemovesFor(t.d, t.first, KeyedErasable(t.d, t.ids))
    ensures FreshRemoves(t.d, t.moved.ops, t.first) && IdsBelow(t.moved.ops, t.d.nextOp)
  {
    FreshId(t.d);
    forall i {:trigger t.first[i]} | 0 <= i < |t.first| ensures !HasPending(t.moved.ops, t.first[i].rep, Remove) {
      var r := t.first[i].rep;
      assert r in KeyedErasable(t.d, t.ids);
      forall o | o in t.moved.ops && IsOp(t.moved.ops[o], r, Remove) ensures !t.moved.ops[o].state.Pending? {
        assert o in t.d.ops && t.d.ops[o] == t.moved.ops[o];
      }
    }
  }

  lemma NoneAtAll(d: Db, rows: Rows, ops: Ops, next: OpId, batch: seq<NewOp>)
    requires RemovesFor(d, batch, Missing(rows, ops))
    ensures FreshRemoves(d, ops, batch)
  {
    forall i {:trigger batch[i]} | 0 <= i < |batch| ensures !HasPending(ops, batch[i].rep, Remove) {
      assert !HasOp(ops, batch[i].rep, Remove);
      forall o | o in ops ensures !IsOp(ops[o], batch[i].rep, Remove) {}
    }
  }

  lemma MidIds(t: Stages)
    requires t.Start()
    ensures IdsBelow(t.mid, t.d.nextOp + |t.first|)
    ensures t.moved.rows.Keys == t.d.rows.Keys && forall r :: r in t.moved.rows ==> t.moved.rows[r].space == t.d.rows[r].space
  {
    forall o | o in t.mid ensures o < t.d.nextOp + |t.first| {
      assert AppendedAt(t.moved.ops, t.d.nextOp, t.first, t.now, t.mid, o);
    }
  }

  // The second batch.
  method AppendMissing(session: Session, now: Time, ghost d: Db) returns (ghost second: seq<NewOp>)
    requires IdsBelow(session.ops, session.nextOp)
    requires session.rows.Keys == d.rows.Keys && forall r :: r in session.rows ==> session.rows[r].space == d.rows[r].space
    modifies session`ops, session`nextOp
    ensures RemovesFor(d, second, Missing(session.rows, old(session.ops)))
    ensures Appended(old(session.ops), old(session.nextOp), second, now, session.ops)
    ensures session.nextOp == old(session.nextOp) + |second|
  {
    ghost var ops, next := session.ops, session.nextOp;
    var missing := Missing(session.rows, session.ops);
    var batch := ListRemoves(session.rows, missing, d, [], {});
    assert {} + missing == missing;
    NoneAtAll(d, session.rows, ops, next, batch);
    AppendRemoves(d, ops, next, batch, now);
    var ok, _ := AppendBatch(session, batch, now);
    second := batch;
  }

  lemma Finished(t: Stages)
    requires RemovesFor(t.d, t.second, Missing(t.moved.rows, t.mid))
    requires Appended(t.mid, t.d.nextOp + |t.first|, t.second, t.now, t.late)
    requires FailedRevived(t.moved.rows, t.late, t.now, t.post)
    ensures t.Finish()
  {}

  lemma FirstAppended(t: Stages, t': Stages)
    requires DbInv(t.d) && t.moved == Moved(if t.takeDeleted then Taken(t.d, t.ids) else t.d, t.ids)
    requires RemovesFor(t.d, t.first, KeyedErasable(t.d, t.ids))
    requires t' == t.(mid := AppendAll(t.moved.ops, t.d.nextOp, t.first, t.now))
    ensures t'.Start()
  {
    NonePending(t);
    AppendRemoves(t.d, t.moved.ops, t.d.nextOp, t.first, t.now);
  }

  // The second batch and the requeue.
  method AppendAndRequeue(session: Session, now: Time, ghost d: Db) returns (ghost second: seq<NewOp>, ghost late: Ops)
    requires IdsBelow(session.ops, session.nextOp)
    requires session.rows.Keys == d.rows.Keys && forall r :: r in session.rows ==> session.rows[r].space == d.rows[r].space
    modifies session`ops, session`nextOp
    ensures RemovesFor(d, second, Missing(session.rows, old(session.ops)))
    ensures Appended(old(session.ops), old(session.nextOp), second, now, late)
    ensures FailedRevived(session.rows, late, now, session.ops)
    ensures session.nextOp == old(session.nextOp) + |second|
  {
    second := AppendMissing(session, now, d);
    late := session.ops;
    RequeueFailedRemoves(session, now);
  }

  method AppendFirst(session: Session, first: seq<NewOp>, now: Time, ghost t: Stages) returns (ghost t': Stages)
    requires session.Db() == t.moved && t.first == first && t.now == now
    requires DbInv(t.d) && t.moved == Moved(if t.takeDeleted then Taken(t.d, t.ids) else t.d, t.ids)
    requires RemovesFor(t.d, first, KeyedErasable(t.d, t.ids))
    modifies session`ops, session`nextOp
    ensures t' == t.(mid := session.ops) && t'.Start() && session.rows == t.moved.rows
    ensures session.Db() == t.moved.(ops := t'.mid, nextOp := t.d.nextOp + |first|)
  {
    NonePending(t);
    var ok, _ := AppendBatch(session, first, now);
    t' := t.(mid := session.ops);
    FirstAppended(t, t');
  }

  lemma StillStarted(t: Stages, t': Stages)
    requires t.Start() && t' == t.(second := t'.second, late := t'.late, post := t'.post)
    ensures t'.Start()
  {}

  // The appends and the requeue, after the moves.
  method AppendRemovals(session: Session, first: seq<NewOp>, now: Time, ghost t: Stages) returns (ghost t': Stages)
    requires session.Db() == t.moved && t.first == first && t.now == now
    requires DbInv(t.d) && t.moved == Moved(if t.takeDeleted then Taken(t.d, t.ids) else t.d, t.ids)
    requires RemovesFor(t.d, first, KeyedErasable(t.d, t.ids))
    modifies session`ops, session`nextOp
    ensures t'.Ok() && t'.d == t.d && t'.now == now && t'.ids == t.ids && t'.takeDeleted == t.takeDeleted && t'.moved == t.moved
    ensures session.Db() == t.moved.(ops := t'.post, nextOp := t'.End())
  {
    ghost var started := AppendFirst(session, first, now, t);
    MidIds(started);
    ghost var second, late := AppendAndRequeue(session, now, t.d);
    t' := started.(second := second, late := late, post := session.ops);
    StillStarted(started, t');
    Finished(t');
  }

  // `_queue` (`takeDeleted` false) and `queue_in`: one transaction.
  method Queue(session: Session, ids: seq<RepId>, takeDeleted: bool, now: Time)
    requires DbInv(session.Db())
    modifies session`rows, session`ops, session`nextOp
    ensures ErasureQueued(old(session.Db()), session.Db(), Elements(ids), takeDeleted)
    ensures DueNow(old(session.ops), session.ops, now)
  {
    ghost var d := session.Db();
    ghost var all := Elements(ids);
    if takeDeleted { TakeDeleted(session, ids); }
    ghost var taken := session.Db();
    var first := MoveErasable(session, ids);
    assert KeyedErasable(taken, all) == KeyedErasable(d, all);
    assert RemovesFor(d, first, KeyedErasable(d, all));
    ghost var t := AppendRemovals(session, first, now, Stages(d, all, takeDeleted, now, session.Db(), first, map[], [], map[], map[]));
    QueueIsCommit(t);
    QueuedIsDue(t);
  }
}
