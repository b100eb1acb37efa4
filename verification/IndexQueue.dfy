/** The persistence mechanics of `index_operations`: supersede and coalesce on append, the guarded
    requeue and settle, and what is due. */
module IndexQueue {
  import opened Store

  datatype NewOp = NewOp(rep: RepId, space: SpaceId, kind: Kind)

  function Opposite(kind: Kind): Kind { if kind.Add? then Remove else Add }

  function Withdraw(ops: Ops, rep: RepId, kind: Kind): Ops {
    map o | o in ops && !(IsOp(ops[o], rep, kind) && ops[o].state.Pending?) :: ops[o]
  }

  function Fresh(n: NewOp, now: Time): Op { Op(n.rep, n.space, n.kind, OpState.Pending, 0, now, now) }

  // One entry of a batch; `id` is the id drawn for it, used or not.
  function Append(ops: Ops, id: OpId, n: NewOp, now: Time): Ops {
    var kept := Withdraw(ops, n.rep, Opposite(n.kind));
    if HasPending(kept, n.rep, n.kind) then kept else kept[id := Fresh(n, now)]
  }

  function AppendAll(ops: Ops, next: OpId, batch: seq<NewOp>, now: Time): Ops
    decreases |batch|
  {
    if batch == [] then ops
    else
      var n := |batch| - 1;
      Append(AppendAll(ops, next, batch[..n], now), next + n, batch[n], now)
  }

  predicate Mentions(batch: seq<NewOp>, rep: RepId) {
    exists i :: 0 <= i < |batch| && batch[i].rep == rep
  }

  function LastKind(batch: seq<NewOp>, rep: RepId): Kind
    requires Mentions(batch, rep)
  {
    var n := |batch| - 1;
    if batch[n].rep == rep then batch[n].kind else LastKind(batch[..n], rep)
  }

  function PendingIds(ops: Ops, rep: RepId): set<OpId> {
    set o | o in ops && ops[o].rep == rep && ops[o].state.Pending?
  }

  // Everything about `rep` that is not PENDING.
  function History(ops: Ops, rep: RepId): Ops {
    map o | o in ops && ops[o].rep == rep && !ops[o].state.Pending? :: ops[o]
  }

  function Of(ops: Ops, rep: RepId): Ops { map o | o in ops && ops[o].rep == rep :: ops[o] }

  // One append: the mentioned representation is left with one PENDING operation, of the kind asked
  // for, either the one it had or the fresh one; every other representation keeps its operations.
  lemma AppendEffect(ops: Ops, id: OpId, n: NewOp, now: Time)
    requires OnePending(ops) && IdsBelow(ops, id)
    ensures var post := Append(ops, id, n, now);
      && OnePending(post) && IdsBelow(post, id + 1)
      && (exists o :: PendingIds(post, n.rep) == {o} && post[o].kind == n.kind
            && (o == id || (o in ops && post[o] == ops[o])))
      && History(post, n.rep) == History(ops, n.rep)
      && (forall r :: r != n.rep ==> Of(post, r) == Of(ops, r))
  {
    var post := Append(ops, id, n, now);
    var kept := Withdraw(ops, n.rep, Opposite(n.kind));
    assert forall o :: o in kept ==> o in ops && kept[o] == ops[o];
    if HasPending(kept, n.rep, n.kind) {
      var o :| o in kept && IsOp(kept[o], n.rep, n.kind) && kept[o].state.Pending?;
      assert PendingIds(post, n.rep) == {o};
    } else {
      assert PendingIds(post, n.rep) == {id};
    }
    assert History(post, n.rep) == History(ops, n.rep);
    forall r | r != n.rep ensures Of(post, r) == Of(ops, r) {}
  }

  lemma MentionsNext(batch: seq<NewOp>, r: RepId)
    requires batch != []
    ensures Mentions(batch, r) <==> Mentions(batch[..|batch| - 1], r) || r == batch[|batch| - 1].rep
  {
    var n := |batch| - 1;
    if Mentions(batch, r) && r != batch[n].rep {
      var i :| 0 <= i < |batch| && batch[i].rep == r;
      assert batch[..n][i].rep == r;
    }
    if Mentions(batch[..n], r) {
      var i :| 0 <= i < n && batch[..n][i].rep == r;
      assert batch[i].rep == r;
    }
    if r == batch[n].rep { assert batch[n].rep == r; }
  }

  // One PENDING operation, of this kind, and the history as it was.
  ghost predicate Settles(ops: Ops, post: Ops, r: RepId, kind: Kind) {
    History(post, r) == History(ops, r) && exists o :: PendingIds(post, r) == {o} && post[o].kind == kind
  }

  // What a batch has made of a representation's operations.
  ghost predicate DesireMet(ops: Ops, post: Ops, batch: seq<NewOp>, r: RepId) {
    if Mentions(batch, r) then Settles(ops, post, r, LastKind(batch, r)) else Of(post, r) == Of(ops, r)
  }

  lemma SettlesStill(ops: Ops, mid: Ops, post: Ops, r: RepId, kind: Kind)
    requires Settles(ops, mid, r, kind) && Of(post, r) == Of(mid, r)
    ensures Settles(ops, post, r, kind)
  {
    SameHistory(post, mid, r);
  }

  lemma DesireNext(ops: Ops, mid: Ops, post: Ops, batch: seq<NewOp>, r: RepId)
    requires batch != [] && DesireMet(ops, mid, batch[..|batch| - 1], r)
    requires if r == batch[|batch| - 1].rep then Settles(mid, post, r, batch[|batch| - 1].kind) else Of(post, r) == Of(mid, r)
    ensures DesireMet(ops, post, batch, r)
  {
    var init := batch[..|batch| - 1];
    MentionsNext(batch, r);
    if r == batch[|batch| - 1].rep {
      if !Mentions(init, r) { SameHistory(mid, ops, r); }
    } else if Mentions(init, r) {
      SettlesStill(ops, mid, post, r, LastKind(init, r));
    }
  }

  ghost predicate DesiresMet(ops: Ops, post: Ops, batch: seq<NewOp>) {
    forall r {:trigger DesireMet(ops, post, batch, r)} :: DesireMet(ops, post, batch, r)
  }

  lemma DesiresNext(ops: Ops, mid: Ops, post: Ops, batch: seq<NewOp>)
    requires batch != [] && DesiresMet(ops, mid, batch[..|batch| - 1])
    requires Settles(mid, post, batch[|batch| - 1].rep, batch[|batch| - 1].kind)
    requires forall r :: r != batch[|batch| - 1].rep ==> Of(post, r) == Of(mid, r)
    ensures DesiresMet(ops, post, batch)
  {
    forall r ensures DesireMet(ops, post, batch, r) {
      assert DesireMet(ops, mid, batch[..|batch| - 1], r);
      DesireNext(ops, mid, post, batch, r);
    }
  }

  lemma OneMoreAppended(ops: Ops, mid: Ops, next: OpId, batch: seq<NewOp>, now: Time)
    requires batch != [] && DesiresMet(ops, mid, batch[..|batch| - 1])
    requires OnePending(mid) && IdsBelow(mid, next + |batch| - 1)
    ensures var post := Append(mid, next + |batch| - 1, batch[|batch| - 1], now);
      OnePending(post) && IdsBelow(post, next + |batch|) && DesiresMet(ops, post, batch)
  {
    var id, last := next + |batch| - 1, batch[|batch| - 1];
    AppendEffect(mid, id, last, now);
    assert Settles(mid, Append(mid, id, last, now), last.rep, last.kind);
    DesiresNext(ops, mid, Append(mid, id, last, now), batch);
  }

  lemma {:induction false} AllDesiresMet(ops: Ops, next: OpId, batch: seq<NewOp>, now: Time)
    requires OnePending(ops) && IdsBelow(ops, next)
    ensures var post := AppendAll(ops, next, batch, now);
      OnePending(post) && IdsBelow(post, next + |batch|) && DesiresMet(ops, post, batch)
    decreases |batch|
  {
    if batch == [] {
      forall r ensures DesireMet(ops, ops, [], r) {}
    } else {
      AllDesiresMet(ops, next, batch[..|batch| - 1], now);
      OneMoreAppended(ops, AppendAll(ops, next, batch[..|batch| - 1], now), next, batch, now);
    }
  }

  // Last desire wins: after a batch each representation mentioned has exactly one PENDING operation,
  // of the kind of its last entry; its history and every other representation's operations are
  // unchanged.
  lemma LastDesireWins(ops: Ops, next: OpId, batch: seq<NewOp>, now: Time)
    requires OnePending(ops) && IdsBelow(ops, next)
    ensures var post := AppendAll(ops, next, batch, now);
      && OnePending(post) && IdsBelow(post, next + |batch|)
      && (forall r :: Mentions(batch, r) ==>
            && History(post, r) == History(ops, r)
            && exists o :: PendingIds(post, r) == {o} && post[o].kind == LastKind(batch, r))
      && (forall r :: !Mentions(batch, r) ==> Of(post, r) == Of(ops, r))
  {
    AllDesiresMet(ops, next, batch, now);
    var post := AppendAll(ops, next, batch, now);
    forall r | Mentions(batch, r)
      ensures History(post, r) == History(ops, r) && exists o :: PendingIds(post, r) == {o} && post[o].kind == LastKind(batch, r)
    {
      assert DesireMet(ops, post, batch, r);
    }
    forall r | !Mentions(batch, r) ensures Of(post, r) == Of(ops, r) { assert DesireMet(ops, post, batch, r); }
  }

  lemma SameHistory(a: Ops, b: Ops, r: RepId)
    requires Of(a, r) == Of(b, r)
    ensures History(a, r) == History(b, r)
    ensures PendingIds(a, r) == PendingIds(b, r)
    ensures forall o :: o in PendingIds(a, r) ==> a[o] == b[o]
  {
    forall o ensures (o in a && a[o].rep == r) <==> (o in b && b[o].rep == r)
             ensures o in a && a[o].rep == r ==> a[o] == b[o]
    {
      assert o in Of(a, r) <==> o in Of(b, r);
      if o in Of(a, r) { assert Of(a, r)[o] == Of(b, r)[o]; }
    }
  }
}
