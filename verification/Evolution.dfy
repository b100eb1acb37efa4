/** What every commit keeps about the rows and the queue, and the one relation all ordinary commits
    satisfy: the interface through which the rest of the protocol sees them. */
module Evolution {
  import opened Store
  import opened IndexQueue
  import opened Protocol

  // ----- the database invariant -----

  ghost predicate RowOk(d: Db, r: RepId)
    requires r in d.rows
  {
    var row := d.rows[r];
    && (row.state.Erased? <==> row.vector.None?)
    && (row.state.Erased? || row.state.Pending? ==> row.key.None?)
    && (row.state.Active? ==> row.key.Some?)
    && (row.key.Some? ==> 1 <= row.key.value < NextKey(d.nextKey, row.space))
    && (row.state.Active? ==> !HasOp(d.ops, r, Remove))
    && (row.Eligible() && !row.Indexable() ==> HasOpen(d.ops, r, Add, {}))
  }

  // An operation is about a representation that has, or had, a key; the kinds never repeat except
  // for REMOVEs already applied.
  ghost predicate OpOk(d: Db, o: OpId)
    requires o in d.ops
  {
    var op := d.ops[o];
    && o < d.nextOp && op.rep in d.rows && op.space == d.rows[op.rep].space
    && (d.rows[op.rep].key.Some? || d.rows[op.rep].state.Erased?)
  }

  ghost predicate KeysDistinct(rows: Rows) {
    forall a, b | a in rows && b in rows && rows[a].key.Some? && a != b ::
      rows[a].space == rows[b].space ==> rows[a].key != rows[b].key
  }

  ghost predicate OneOfAKind(ops: Ops) {
    forall a, b | a in ops && b in ops && ops[a].rep == ops[b].rep && ops[a].kind == ops[b].kind ::
      ops[a].kind.Add? || (ops[a].Open() && ops[b].Open()) ==> a == b
  }

  ghost predicate CountersOk(d: Db) {
    && (d.marker.Some? ==> d.marker.value < d.nextToken)
    && forall s :: s in d.nextKey ==> 1 <= d.nextKey[s]
  }

  ghost predicate DbInv(d: Db) {
    && (forall r {:trigger RowOk(d, r)} :: r in d.rows ==> RowOk(d, r))
    && (forall o {:trigger OpOk(d, o)} :: o in d.ops ==> OpOk(d, o))
    && KeysDistinct(d.rows) && OneOfAKind(d.ops) && CountersOk(d)
  }

  // ----- how ordinary commits change the rows and the queue -----

  ghost predicate RowEvolves(a: Row, b: Row) {
    && a.space == b.space && a.vector == b.vector
    && (if a.key.Some? then b.key == a.key else b.key.Some? ==> a.state.Pending?)
    && (a.state.Erased? <==> b.state.Erased?) && (a.state.Erasing? ==> b.state.Erasing?)
    && (b.Eligible() && !a.Eligible() ==> a.state.Pending?)
  }

  ghost predicate FreshOpen(d: Db, d': Db, r: RepId, kind: Kind) {
    exists o :: o in d'.ops && d.nextOp <= o && IsOp(d'.ops[o], r, kind) && d'.ops[o].Open()
  }

  // The open operations of `r` of this kind stay.
  ghost predicate OpenStays(d: Db, d': Db, r: RepId, kind: Kind) {
    forall o :: o in d.ops && IsOp(d.ops[o], r, kind) && d.ops[o].Open() ==> o in d'.ops && d'.ops[o].Open()
  }

  ghost predicate QueueEvolves(d: Db, d': Db, r: RepId)
    requires r in d.rows && r in d'.rows
  {
    var a, b := d.rows[r], d'.rows[r];
    && (b.Eligible() ==> if a.Eligible() then OpenStays(d, d', r, Add) else FreshOpen(d, d', r, Add))
    && (!b.Eligible() && b.key.Some? ==>
          FreshOpen(d, d', r, Remove) || (!a.Eligible() && OpenStays(d, d', r, Remove)))
    // an erasure replaces the REMOVEs that were open, and nothing takes its own away
    && (b.state.Erasing? && !a.state.Erasing? && b.key.Some? ==>
          FreshOpen(d, d', r, Remove)
          && forall o :: o in d'.ops && IsOp(d'.ops[o], r, Remove) && d'.ops[o].Open() ==> d.nextOp <= o)
    && (a.state.Erasing? ==> OpenStays(d, d', r, Remove))
  }

  ghost predicate RepEvolves(d: Db, d': Db, r: RepId)
    requires r in d.rows
  {
    r in d'.rows && RowEvolves(d.rows[r], d'.rows[r]) && QueueEvolves(d, d', r)
  }

  ghost predicate OpEvolves(d: Db, d': Db, o: OpId)
    requires o in d'.ops
  {
    if d.nextOp <= o then d'.ops[o].Open()
    else
      && o in d.ops
      && var a, b := d.ops[o], d'.ops[o];
         a.rep == b.rep && a.space == b.space && a.kind == b.kind && (a.state.Applied? <==> b.state.Applied?)
  }

  ghost predicate Evolves(d: Db, d': Db) {
    && d.nextOp <= d'.nextOp
    && (forall r {:trigger RepEvolves(d, d', r)} :: r in d.rows ==> RepEvolves(d, d', r))
    && (forall r :: r in d'.rows && r !in d.rows ==> d'.rows[r].key.None? && !d'.rows[r].state.Erased?)
    && (forall o {:trigger OpEvolves(d, d', o)} :: o in d'.ops ==> OpEvolves(d, d', o))
  }

  // The marker stays, or is set to a value of its own.
  ghost predicate MarkerEvolves(d: Db, d': Db) {
    && d.nextToken <= d'.nextToken
    && (d'.marker == d.marker || (d'.marker == Some(d.nextToken) && d.nextToken < d'.nextToken))
  }

  // Nothing about rows or operations changes.
  lemma StillEvolves(d: Db, d': Db)
    requires DbInv(d) && CountersOk(d') && d' == d.(marker := d'.marker, nextToken := d'.nextToken)
    ensures DbInv(d') && Evolves(d, d')
  {
    forall r | r in d.rows ensures RowOk(d', r) && RepEvolves(d, d', r) { assert RowOk(d, r); UntouchedOps(d, d', r); }
    forall o | o in d'.ops ensures OpOk(d', o) { assert OpOk(d, o); }
  }

  // ----- each commit -----

  ghost predicate SameOps(d: Db, d': Db, r: RepId) {
    && (forall o :: o in d.ops && d.ops[o].rep == r ==> o in d'.ops && d'.ops[o] == d.ops[o])
    && (forall o :: o in d'.ops && d'.ops[o].rep == r ==> o in d.ops && d.ops[o] == d'.ops[o])
  }

  // A representation whose operations a commit leaves alone, and whose row only moves along.
  lemma UntouchedOps(d: Db, d': Db, r: RepId)
    requires r in d.rows && r in d'.rows && RowOk(d, r) && SameOps(d, d', r)
    requires RowEvolves(d.rows[r], d'.rows[r])
    requires d'.rows[r].Eligible() <==> d.rows[r].Eligible()
    requires d'.rows[r].key == d.rows[r].key && (d'.rows[r].state.Active? <==> d.rows[r].state.Active?)
    requires d'.rows[r].state.Pending? ==> d.rows[r].state.Pending?
    requires d'.rows[r].state.Erasing? ==> d.rows[r].state.Erasing? || d.rows[r].key.None?
    requires NextKey(d.nextKey, d.rows[r].space) <= NextKey(d'.nextKey, d.rows[r].space)
    ensures RowOk(d', r) && RepEvolves(d, d', r)
  {
    if HasOpen(d.ops, r, Add, {}) {
      var o :| o in d.ops && IsOp(d.ops[o], r, Add) && d.ops[o].Open();
      assert o in d'.ops;
    }
  }

  lemma FreshId(d: Db)
    requires DbInv(d)
    ensures forall o :: o in d.ops ==> o < d.nextOp
  {
    forall o | o in d.ops ensures o < d.nextOp { assert OpOk(d, o); }
  }

  // A commit that concerns one representation leaves the others as they were.
  lemma OthersEvolve(d: Db, d': Db, r: RepId)
    requires DbInv(d) && forall s :: NextKey(d.nextKey, s) <= NextKey(d'.nextKey, s)
    requires forall q :: q in d.rows && q != r ==> q in d'.rows && d'.rows[q] == d.rows[q]
    requires forall o :: o in d.ops ==> o in d'.ops && d'.ops[o] == d.ops[o]
    requires forall o :: o in d'.ops && o !in d.ops ==> d'.ops[o].rep == r
    ensures forall q :: q in d.rows && q != r ==> RowOk(d', q) && RepEvolves(d, d', q)
  {
    forall q | q in d.rows && q != r ensures RowOk(d', q) && RepEvolves(d, d', q) {
      assert RowOk(d, q);
      UntouchedOps(d, d', q);
    }
  }

  lemma InsertEvolves(d: Db, d': Db, r: RepId, s: SpaceId, v: Vector)
    requires DbInv(d) && Committed(d, d', Insert(r, s, v))
    ensures DbInv(d') && Evolves(d, d')
  {
    forall o | o in d'.ops ensures OpOk(d', o) { assert OpOk(d, o); }
    OthersEvolve(d, d', r);
    assert RowOk(d', r);
  }

  lemma ActivatedRow(d: Db, d': Db, r: RepId, now: Time)
    requires DbInv(d) && Committed(d, d', Activate(r, now))
    ensures (forall o :: o in d.ops ==> d.ops[o].rep != r)
    ensures RowOk(d', r) && RepEvolves(d, d', r)
  {
    assert RowOk(d, r);
    forall o | o in d.ops ensures d.ops[o].rep != r { assert OpOk(d, o); }
    assert IsOp(d'.ops[d.nextOp], r, Add);
    assert FreshOpen(d, d', r, Add) && HasOpen(d'.ops, r, Add, {});
  }

  lemma ActivatedKey(d: Db, d': Db, r: RepId, now: Time)
    requires DbInv(d) && Committed(d, d', Activate(r, now))
    ensures KeysDistinct(d'.rows)
  {
    forall q | q in d.rows && q != r && d.rows[q].space == d.rows[r].space ensures d.rows[q].key != d'.rows[r].key {
      assert RowOk(d, q);
    }
  }

  lemma ActivateEvolves(d: Db, d': Db, r: RepId, now: Time)
    requires DbInv(d) && Committed(d, d', Activate(r, now))
    ensures DbInv(d') && Evolves(d, d')
  {
    ActivatedRow(d, d', r, now);
    forall o | o in d'.ops ensures OpOk(d', o) && OpEvolves(d, d', o) { if o != d.nextOp { assert OpOk(d, o); } }
    FreshId(d);
    OthersEvolve(d, d', r);
    ActivatedKey(d, d', r, now);
  }

  lemma RetiredOps(d: Db, d': Db, r: RepId, to: RepState, now: Time)
    requires DbInv(d) && Committed(d, d', Retire(r, to, now)) && d.rows[r].state.Active?
    ensures d'.ops == Withdraw(d.ops, r, Add)[d.nextOp := Fresh(RemoveOf(d, r), now)]
    ensures d.nextOp !in d.ops
    ensures forall o :: o in d'.ops ==> OpOk(d', o) && OpEvolves(d, d', o)
    ensures OneOfAKind(d'.ops)
    ensures RowOk(d', r) && RepEvolves(d, d', r)
  {
    var id := d.nextOp;
    assert RowOk(d, r);
    FreshId(d);
    assert forall o :: o in d.ops ==> !IsOp(d.ops[o], r, Remove);
    assert !HasPending(Withdraw(d.ops, r, Add), r, Remove);
    assert IsOp(d'.ops[id], r, Remove);
    assert FreshOpen(d, d', r, Remove);
    forall o | o in d'.ops ensures OpOk(d', o) && OpEvolves(d, d', o) { if o != id { assert OpOk(d, o); } }
    forall o | o in d'.ops && o != id ensures !IsOp(d'.ops[o], r, Remove) {
      assert o in d.ops && d.ops[o] == d'.ops[o];
    }
  }

  // Of another representation, or of one that was not indexed, only the row may move along.
  lemma RetiredOther(d: Db, d': Db, r: RepId, to: RepState, now: Time, q: RepId)
    requires DbInv(d) && Committed(d, d', Retire(r, to, now)) && q in d.rows && (q != r || !d.rows[r].state.Active?)
    requires SameOps(d, d', q)
    ensures RowOk(d', q) && RepEvolves(d, d', q)
  {
    assert RowOk(d, q);
    UntouchedOps(d, d', q);
  }

  lemma RetireActiveEvolves(d: Db, d': Db, r: RepId, to: RepState, now: Time)
    requires DbInv(d) && Committed(d, d', Retire(r, to, now)) && d.rows[r].state.Active?
    ensures DbInv(d') && Evolves(d, d')
  {
    RetiredOps(d, d', r, to, now);
    forall q | q in d.rows ensures RowOk(d', q) && RepEvolves(d, d', q) {
      if q != r { RetiredOther(d, d', r, to, now, q); }
    }
  }

  lemma RetireUnindexedEvolves(d: Db, d': Db, r: RepId, to: RepState, now: Time)
    requires DbInv(d) && Committed(d, d', Retire(r, to, now)) && !d.rows[r].state.Active?
    ensures DbInv(d') && Evolves(d, d')
  {
    forall o | o in d'.ops ensures OpOk(d', o) { assert OpOk(d, o); }
    forall q | q in d.rows ensures RowOk(d', q) && RepEvolves(d, d', q) { RetiredOther(d, d', r, to, now, q); }
  }

  lemma RetireEvolves(d: Db, d': Db, r: RepId, to: RepState, now: Time)
    requires DbInv(d) && Committed(d, d', Retire(r, to, now))
    ensures DbInv(d') && Evolves(d, d')
  {
    if d.rows[r].state.Active? { RetireActiveEvolves(d, d', r, to, now); } else { RetireUnindexedEvolves(d, d', r, to, now); }
  }

  lemma EditedRow(d: Db, d': Db, rows: Rows, r: RepId)
    requires DbInv(d) && Committed(d, d', EditOwners(rows)) && r in d.rows
    ensures RowOk(d', r) && RepEvolves(d, d', r)
  {
    assert RowOk(d, r);
    UntouchedOps(d, d', r);
  }

  lemma EditOwnersEvolves(d: Db, d': Db, rows: Rows)
    requires DbInv(d) && Committed(d, d', EditOwners(rows))
    ensures DbInv(d') && Evolves(d, d')
  {
    forall r | r in d'.rows ensures RowOk(d', r) && RepEvolves(d, d', r) { EditedRow(d, d', rows, r); }
    forall o | o in d'.ops ensures OpOk(d', o) { assert OpOk(d, o); }
  }

  // Operations that only change between PENDING and FAILED, or in attempts and due time.
  ghost predicate OpenAlike(d: Db, d': Db) {
    && d'.ops.Keys == d.ops.Keys
    && forall o | o in d.ops ::
         && d'.ops[o].rep == d.ops[o].rep && d'.ops[o].space == d.ops[o].space
         && d'.ops[o].kind == d.ops[o].kind && d'.ops[o].Open() == d.ops[o].Open()
  }

  lemma OpenAlikeKeepsRow(d: Db, d': Db, r: RepId)
    requires r in d.rows && DbInv(d) && OpenAlike(d, d') && d' == d.(ops := d'.ops)
    ensures RowOk(d', r) && RepEvolves(d, d', r)
  {
    assert RowOk(d, r);
    if HasOp(d'.ops, r, Remove) {
      var o :| o in d'.ops && IsOp(d'.ops[o], r, Remove);
      assert o in d.ops && IsOp(d.ops[o], r, Remove);
    }
    if HasOpen(d.ops, r, Add, {}) {
      var o :| o in d.ops && IsOp(d.ops[o], r, Add) && d.ops[o].Open();
      assert o in d'.ops && IsOp(d'.ops[o], r, Add);
    }
  }

  lemma OpenAlikeEvolves(d: Db, d': Db)
    requires DbInv(d) && OpenAlike(d, d') && d' == d.(ops := d'.ops)
    ensures DbInv(d') && Evolves(d, d')
  {
    forall r | r in d.rows ensures RowOk(d', r) && RepEvolves(d, d', r) { OpenAlikeKeepsRow(d, d', r); }
    forall o | o in d'.ops ensures OpOk(d', o) && OpEvolves(d, d', o) { assert OpOk(d, o); }
  }

  // Queueing an erasure: what happens to one representation's operations.
  lemma QueuedOps(d: Db, d': Db, ids: set<RepId>, takeDeleted: bool)
    requires DbInv(d) && ErasureQueued(d, d', ids, takeDeleted)
    ensures forall o :: o in d'.ops ==> OpOk(d', o) && OpEvolves(d, d', o)
    ensures OneOfAKind(d'.ops)
  {
    forall o | o in d'.ops ensures OpOk(d', o) && OpEvolves(d, d', o) {
      if o < d.nextOp { assert OpOk(d, o) && OldOpQueued(d, d'.ops, ids, takeDeleted, o); }
      else { assert NewOpQueued(d, d'.ops, ids, takeDeleted, o); }
    }
    forall a, b | a in d'.ops && b in d'.ops && d'.ops[a].rep == d'.ops[b].rep && d'.ops[a].kind == d'.ops[b].kind
      && (d'.ops[a].kind.Add? || (d'.ops[a].Open() && d'.ops[b].Open()))
      ensures a == b
    {
      if d.nextOp <= a { assert NewOpQueued(d, d'.ops, ids, takeDeleted, a); }
      if d.nextOp <= b { assert NewOpQueued(d, d'.ops, ids, takeDeleted, b); }
      if a < d.nextOp && b < d.nextOp {
        assert OldOpQueued(d, d'.ops, ids, takeDeleted, a) && OldOpQueued(d, d'.ops, ids, takeDeleted, b);
      } else if a < d.nextOp {
        OldRemoveIsGone(d, d', ids, takeDeleted, a, d'.ops[a].rep);
      } else if b < d.nextOp {
        OldRemoveIsGone(d, d', ids, takeDeleted, b, d'.ops[b].rep);
      }
    }
  }

  // A representation that gets a fresh REMOVE keeps no open one from before.
  lemma OldRemoveIsGone(d: Db, d': Db, ids: set<RepId>, takeDeleted: bool, o: OpId, r: RepId)
    requires DbInv(d) && ErasureQueued(d, d', ids, takeDeleted)
    requires NeedsRemove(d, r, ids, takeDeleted)
    ensures o in d'.ops && o < d.nextOp && IsOp(d'.ops[o], r, Remove) ==> !d'.ops[o].Open()
  {
    if o in d'.ops && o < d.nextOp {
      assert OldOpQueued(d, d'.ops, ids, takeDeleted, o);
    }
  }

  lemma QueuedGetsFreshRemove(d: Db, d': Db, ids: set<RepId>, takeDeleted: bool, r: RepId)
    requires DbInv(d) && ErasureQueued(d, d', ids, takeDeleted) && NeedsRemove(d, r, ids, takeDeleted)
    ensures FreshOpen(d, d', r, Remove)
  {
    var o :| o in d'.ops && IsOp(d'.ops[o], r, Remove) && d'.ops[o].state.Pending?;
    OldRemoveIsGone(d, d', ids, takeDeleted, o, r);
  }

  lemma QueuedKeepsOps(d: Db, d': Db, ids: set<RepId>, takeDeleted: bool, r: RepId)
    requires DbInv(d) && ErasureQueued(d, d', ids, takeDeleted) && !NeedsRemove(d, r, ids, takeDeleted) && r in d.rows
    ensures forall o :: o in d.ops && d.ops[o].rep == r ==>
      o in d'.ops && d'.ops[o].kind == d.ops[o].kind && d'.ops[o].rep == r && (d.ops[o].Open() ==> d'.ops[o].Open())
    ensures forall o :: o in d'.ops && d'.ops[o].rep == r ==> o in d.ops && d.ops[o].kind == d'.ops[o].kind && d.ops[o].rep == r
  {
    assert RowOk(d, r);
    forall o | o in d.ops && d.ops[o].rep == r
      ensures o in d'.ops && d'.ops[o].kind == d.ops[o].kind && d'.ops[o].rep == r && (d.ops[o].Open() ==> d'.ops[o].Open())
    {
      assert OpOk(d, o) && OldOpQueued(d, d'.ops, ids, takeDeleted, o);
    }
    forall o | o in d'.ops && d'.ops[o].rep == r
      ensures o in d.ops && d.ops[o].kind == d'.ops[o].kind && d.ops[o].rep == r
    {
      assert if d.nextOp <= o then NewOpQueued(d, d'.ops, ids, takeDeleted, o) else OldOpQueued(d, d'.ops, ids, takeDeleted, o);
    }
  }

  lemma QueuedRow(d: Db, d': Db, ids: set<RepId>, takeDeleted: bool, r: RepId)
    requires DbInv(d) && ErasureQueued(d, d', ids, takeDeleted) && r in d.rows
    ensures RowOk(d', r) && RepEvolves(d, d', r)
  {
    assert RowOk(d, r);
    if NeedsRemove(d, r, ids, takeDeleted) {
      QueuedGetsFreshRemove(d, d', ids, takeDeleted, r);
      forall o | o in d'.ops && IsOp(d'.ops[o], r, Remove) && d'.ops[o].Open() ensures d.nextOp <= o {
        OldRemoveIsGone(d, d', ids, takeDeleted, o, r);
      }
    } else {
      QueuedKeepsOps(d, d', ids, takeDeleted, r);
      if HasOpen(d.ops, r, Add, {}) {
        var o :| o in d.ops && IsOp(d.ops[o], r, Add) && d.ops[o].Open();
        assert o in d'.ops && IsOp(d'.ops[o], r, Add);
      }
      if HasOp(d'.ops, r, Remove) {
        var o :| o in d'.ops && IsOp(d'.ops[o], r, Remove);
        assert IsOp(d.ops[o], r, Remove);
      }
    }
  }

  lemma QueueErasureEvolves(d: Db, d': Db, ids: set<RepId>, takeDeleted: bool)
    requires DbInv(d) && Committed(d, d', QueueErasure(ids, takeDeleted))
    ensures DbInv(d') && Evolves(d, d')
  {
    QueuedOps(d, d', ids, takeDeleted);
    forall r | r in d.rows ensures RowOk(d', r) && RepEvolves(d, d', r) {
      QueuedRow(d, d', ids, takeDeleted, r);
    }
  }

  // Every commit of another caller keeps the database invariant and evolves rows and queue the one
  // way the rest of the protocol relies on.
  lemma CommitEvolves(d: Db, d': Db, c: Commit)
    requires DbInv(d) && Committed(d, d', c)
    ensures DbInv(d') && Evolves(d, d') && MarkerEvolves(d, d')
  {
    match c
    case Insert(r, s, v) => InsertEvolves(d, d', r, s, v);
    case Activate(r, now) => ActivateEvolves(d, d', r, now);
    case Retire(r, to, now) => RetireEvolves(d, d', r, to, now);
    case EditOwners(rows) => EditOwnersEvolves(d, d', rows);
    case QueueErasure(ids, takeDeleted) => QueueErasureEvolves(d, d', ids, takeDeleted);
    case RequeueFailed(id, now) => OpenAlikeEvolves(d, d');
    case OweTruncation => StillEvolves(d, d');
  }
}
